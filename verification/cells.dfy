/**
 * Spreadsheet cells and the text primitives the roster tool applies to them.
 *
 * A cell is what pandas hands over for one position of the sheet: null
 * (NaN) or the cell's text. The Python string methods the tool relies on
 * (strip, lower, isalnum, `in`, endswith) are defined here exactly for the
 * code points up to U+00FF.
 */
module Cells {

  datatype Option<+T> = None | Some(value: T)

  /** A value, or the message of the exception that replaced it. */
  datatype Result<+T> = Ok(value: T) | Err(error: string)

  type Cell = Option<string>
  type Row = seq<Cell>
  type Grid = seq<Row>

  // ---------------------------------------------------------------------
  // Character classes (Python's, restricted to U+0000 .. U+00FF)
  // ---------------------------------------------------------------------

  /** `str.isspace` on one character. */
  predicate IsSpace(c: char) {
    c == ' ' || (9 <= c as int <= 13) || (28 <= c as int <= 31) || c as int == 0x85 || c as int == 0xA0
  }

  /** `str.isalnum` on one character: letters, digits and numeric signs. */
  predicate IsAlnum(c: char) {
    ('0' <= c <= '9') || ('A' <= c <= 'Z') || ('a' <= c <= 'z')
    || c as int == 0xAA || c as int == 0xB2 || c as int == 0xB3 || c as int == 0xB5
    || c as int == 0xB9 || c as int == 0xBA || (0xBC <= c as int <= 0xBE)
    || (0xC0 <= c as int <= 0xFF && c as int != 0xD7 && c as int != 0xF7)
  }

  /** `str.lower` on one character: upper-case ASCII and Latin-1 letters move down by 0x20. */
  function LowerChar(c: char): (r: char)
    ensures IsAlnum(c) <==> IsAlnum(r)
  {
    if 'A' <= c <= 'Z' || (0xC0 <= c as int <= 0xDE && c as int != 0xD7) then (c as int + 0x20) as char
    else c
  }

  function Lower(s: string): (r: string)
    ensures |r| == |s|
    ensures forall i :: 0 <= i < |s| ==> r[i] == LowerChar(s[i])
  {
    seq(|s|, i requires 0 <= i < |s| => LowerChar(s[i]))
  }

  /** Lower-casing twice is lower-casing once. */
  lemma LowerIdempotent(s: string)
    ensures Lower(Lower(s)) == Lower(s)
  {
  }

  // ---------------------------------------------------------------------
  // Substrings
  // ---------------------------------------------------------------------

  predicate StartsWith(s: string, p: string) {
    |p| <= |s| && s[..|p|] == p
  }

  predicate EndsWith(s: string, p: string) {
    |p| <= |s| && s[|s| - |p|..] == p
  }

  /** `t` occurs in `s` starting at position `i`. */
  predicate OccursAt(s: string, t: string, i: int) {
    0 <= i && i + |t| <= |s| && s[i..i + |t|] == t
  }

  /** Python's `t in s` for strings, scanning `s` from the left. */
  predicate Contains(s: string, t: string)
    decreases |s|
  {
    StartsWith(s, t) || (|t| < |s| && Contains(s[1..], t))
  }

  /** The scan agrees with "some window of `s` equals `t`". */
  lemma {:induction false} ContainsAt(s: string, t: string)
    ensures Contains(s, t) <==> exists i :: OccursAt(s, t, i)
    decreases |s|
  {
    if |t| < |s| {
      ContainsAt(s[1..], t);
      if Contains(s[1..], t) {
        var i :| OccursAt(s[1..], t, i);
        assert s[i + 1..i + 1 + |t|] == s[1..][i..i + |t|];
        assert OccursAt(s, t, i + 1);
      }
      if StartsWith(s, t) {
        assert OccursAt(s, t, 0);
      }
      if exists i :: OccursAt(s, t, i) {
        var i :| OccursAt(s, t, i);
        if i > 0 {
          assert s[1..][i - 1..i - 1 + |t|] == s[i..i + |t|];
          assert OccursAt(s[1..], t, i - 1);
        } else {
          assert StartsWith(s, t);
        }
      }
    } else {
      if StartsWith(s, t) {
        assert OccursAt(s, t, 0);
      }
      if exists i :: OccursAt(s, t, i) {
        var i :| OccursAt(s, t, i);
        assert i == 0 && StartsWith(s, t);
      }
    }
  }

  // ---------------------------------------------------------------------
  // str.strip()
  // ---------------------------------------------------------------------

  /** Leading whitespace removed. */
  function TrimStart(s: string): string
    decreases |s|
  {
    if |s| > 0 && IsSpace(s[0]) then TrimStart(s[1..]) else s
  }

  /** Trailing whitespace removed. */
  function TrimEnd(s: string): string
    decreases |s|
  {
    if |s| > 0 && IsSpace(s[|s| - 1]) then TrimEnd(s[..|s| - 1]) else s
  }

  /** `TrimStart` keeps a suffix, drops only whitespace, and stops at a non-blank. */
  lemma {:induction false} TrimStartMeaning(s: string)
    ensures |TrimStart(s)| <= |s| && TrimStart(s) == s[|s| - |TrimStart(s)|..]
    ensures forall k :: 0 <= k < |s| - |TrimStart(s)| ==> IsSpace(s[k])
    ensures TrimStart(s) != [] ==> !IsSpace(TrimStart(s)[0])
    decreases |s|
  {
    if |s| > 0 && IsSpace(s[0]) {
      TrimStartMeaning(s[1..]);
      var r := TrimStart(s);
      assert r == TrimStart(s[1..]);
      assert s[1..][|s| - 1 - |r|..] == s[|s| - |r|..];
      forall k | 0 <= k < |s| - |r| ensures IsSpace(s[k]) {
        if k > 0 {
          assert s[k] == s[1..][k - 1];
        }
      }
    }
  }

  /** `TrimEnd` keeps a prefix, drops only whitespace, and stops at a non-blank. */
  lemma {:induction false} TrimEndMeaning(s: string)
    ensures |TrimEnd(s)| <= |s| && TrimEnd(s) == s[..|TrimEnd(s)|]
    ensures forall k :: |TrimEnd(s)| <= k < |s| ==> IsSpace(s[k])
    ensures TrimEnd(s) != [] ==> !IsSpace(TrimEnd(s)[|TrimEnd(s)| - 1])
    decreases |s|
  {
    if |s| > 0 && IsSpace(s[|s| - 1]) {
      TrimEndMeaning(s[..|s| - 1]);
      var r := TrimEnd(s);
      assert r == TrimEnd(s[..|s| - 1]);
      assert s[..|s| - 1][..|r|] == s[..|r|];
      forall k | |r| <= k < |s| ensures IsSpace(s[k]) {
        if k < |s| - 1 {
          assert s[k] == s[..|s| - 1][k];
        }
      }
    }
  }

  /** Python's `str.strip()`: leading and trailing whitespace removed. */
  function Strip(s: string): (r: string)
  {
    TrimEnd(TrimStart(s))
  }

  /**
   * What stripping means: the result is the infix of `s` left after
   * removing only whitespace on either side, and it neither starts nor
   * ends with whitespace.
   */
  lemma StripShape(s: string)
    ensures exists i, j :: 0 <= i <= j <= |s| && Strip(s) == s[i..j]
                           && (forall k :: 0 <= k < i ==> IsSpace(s[k]))
                           && (forall k :: j <= k < |s| ==> IsSpace(s[k]))
    ensures Strip(s) != [] ==> !IsSpace(Strip(s)[0]) && !IsSpace(Strip(s)[|Strip(s)| - 1])
  {
    var a := TrimStart(s);
    var r := TrimEnd(a);
    TrimStartMeaning(s);
    TrimEndMeaning(a);
    var i := |s| - |a|;
    var j := i + |r|;
    assert r == s[i..j];
    forall k | j <= k < |s| ensures IsSpace(s[k]) {
      assert s[k] == a[k - i];
    }
  }

  /** A stripped text is left alone by a second strip. */
  lemma StripIdempotent(s: string)
    ensures Strip(Strip(s)) == Strip(s)
  {
    var r := Strip(s);
    StripShape(s);
    if r != [] {
      assert TrimStart(r) == r;
      assert TrimEnd(r) == r;
    }
  }

  // ---------------------------------------------------------------------
  // limpiar_dato
  // ---------------------------------------------------------------------

  /**
   * The cell cleaner shared by every version of the tool: a null cell is
   * the empty text; otherwise the text is stripped and one trailing ".0"
   * (the mark of an identifier that pandas read as a float) is cut off.
   */
  function Clean(c: Cell): string
  {
    match c
    case None => ""
    case Some(s) =>
      var t := Strip(s);
      if FloatMark(t) then t[..|t| - 2] else t
  }

  /** `t.endswith(".0")`, spelt out on the last two characters. */
  predicate FloatMark(t: string) {
    |t| >= 2 && t[|t| - 2] == '.' && t[|t| - 1] == '0'
  }

  lemma FloatMarkIsEndsWith(t: string)
    ensures FloatMark(t) <==> EndsWith(t, ".0")
  {
    if EndsWith(t, ".0") {
      assert t[|t| - 2..][0] == '.' && t[|t| - 2..][1] == '0';
    }
    if FloatMark(t) {
      assert t[|t| - 2..] == ".0";
    }
  }

  /**
   * What the cleaner promises: null gives the empty text; otherwise the
   * result is the stripped text, less exactly one ".0" when the stripped
   * text ends with it.
   */
  lemma CleanMeaning(c: Cell)
    ensures c.None? ==> Clean(c) == ""
    ensures c.Some? ==> Clean(c) <= Strip(c.value)
    ensures c.Some? ==> (Strip(c.value) == Clean(c) + ".0" <==> EndsWith(Strip(c.value), ".0"))
    ensures c.Some? && !EndsWith(Strip(c.value), ".0") ==> Clean(c) == Strip(c.value)
  {
    if c.Some? {
      var t := Strip(c.value);
      FloatMarkIsEndsWith(t);
      if EndsWith(t, ".0") {
        assert t == t[..|t| - 2] + ".0";
      }
    }
  }

  /**
   * A roster row as the tool reads it: every cell passed through the
   * cleaner. The row keeps its length, so range checks are unchanged.
   */
  function CleanRow(row: Row): (line: seq<string>)
    ensures |line| == |row|
    ensures forall j :: 0 <= j < |row| ==> line[j] == Clean(row[j])
  {
    seq(|row|, j requires 0 <= j < |row| => Clean(row[j]))
  }

  /** Every row of the grid cleaned. */
  function CleanGrid(g: Grid): (lines: seq<seq<string>>)
    ensures |lines| == |g|
    ensures forall i :: 0 <= i < |g| ==> lines[i] == CleanRow(g[i])
  {
    seq(|g|, i requires 0 <= i < |g| => CleanRow(g[i]))
  }

  /** A text that neither starts nor ends with whitespace is its own strip. */
  lemma StripTrimmed(s: string)
    requires s != [] ==> !IsSpace(s[0]) && !IsSpace(s[|s| - 1])
    ensures Strip(s) == s
  {
  }

  /** On a stripped text ending in ".0", the cleaner cuts exactly those two characters. */
  lemma CleanCutsOnce(s: string)
    requires Strip(s) == s && EndsWith(s, ".0")
    ensures Clean(Some(s)) == s[..|s| - 2]
  {
  }

  /** The examples the cleaner was written for: identifiers read back as floats. */
  lemma CleanExamples()
    ensures Clean(None) == ""
    ensures Clean(Some("123456.0")) == "123456"
    ensures Clean(Some("123456")) == "123456"
    ensures Clean(Some("7.0.0")) == "7.0"
  {
    StripTrimmed("123456.0");
    assert EndsWith("123456.0", ".0");
    StripTrimmed("123456");
    assert !EndsWith("123456", ".0");
    StripTrimmed("7.0.0");
    assert EndsWith("7.0.0", ".0");
  }

  /** Surrounding blanks go before the ".0" test. */
  lemma CleanStrips()
    ensures Clean(Some(" A001 ")) == "A001"
  {
    assert TrimStart(" A001 ") == TrimStart("A001 ") == "A001 ";
    assert TrimEnd("A001 ") == TrimEnd("A001") == "A001";
    assert !EndsWith("A001", ".0");
  }

  /**
   * Only one ".0" goes: cleaning a cleaned value again can change it, so
   * the cleaner is not idempotent.
   */
  lemma CleanNotIdempotent()
    ensures Clean(Some(Clean(Some("7.0.0")))) != Clean(Some("7.0.0"))
  {
    CleanExamples();
    CleanSevenPointZero();
  }

  /** The second cleaning of "7.0.0" cuts once more. */
  lemma CleanSevenPointZero()
    ensures Clean(Some("7.0")) == "7"
  {
    StripTrimmed("7.0");
    CleanCutsOnce("7.0");
    assert "7.0"[..1] == "7";
  }

  /**
   * Cleaning is idempotent on every cell whose stripped text carries no
   * ".0": such a value is a fixed point of a second cleaning.
   */
  lemma CleanFixedPoint(c: Cell)
    requires c.Some? ==> !EndsWith(Strip(c.value), ".0")
    ensures Clean(Some(Clean(c))) == Clean(c)
  {
    if c.Some? {
      StripIdempotent(c.value);
    } else {
      assert Strip("") == "";
    }
  }

  /**
   * Cutting ".0" happens after stripping, so whitespace in front of the
   * ".0" survives: a cleaned value can end in a blank.
   */
  lemma CleanCanEndInBlank()
    ensures Clean(Some("A1 .0")) == "A1 "
  {
    StripTrimmed("A1 .0");
    assert EndsWith("A1 .0", ".0");
  }
}
