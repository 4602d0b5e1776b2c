/**
 * The two ways the tool turns "school team category" into a folder name
 * inside the zip archive.
 *
 * Versions 3 and 5 keep an allow-list (letters, digits, blank, '-', '_')
 * and replace every other character by '-'. The first two versions
 * replace, one after the other, the nine characters that file systems
 * reserve.
 */
module Folders {
  import opened Cells

  // ---------------------------------------------------------------------
  // Allow-list (app_v3.py, app_v5.py)
  // ---------------------------------------------------------------------

  predicate Allowed(c: char) {
    IsAlnum(c) || c == ' ' || c == '-' || c == '_'
  }

  /**
   * `"".join(c if c.isalnum() or c in " -_" else "-" for c in s)`:
   * same length, allowed characters kept in place, every other one '-'.
   */
  function AllowListed(s: string): (r: string)
    ensures |r| == |s|
    ensures forall i :: 0 <= i < |s| ==> Allowed(r[i])
    ensures forall i :: 0 <= i < |s| ==> (r[i] == s[i] <==> Allowed(s[i]))
    ensures forall i :: 0 <= i < |s| && !Allowed(s[i]) ==> r[i] == '-'
  {
    seq(|s|, i requires 0 <= i < |s| => if Allowed(s[i]) then s[i] else '-')
  }

  /** Sanitising an already sanitised name changes nothing. */
  lemma AllowListedIdempotent(s: string)
    ensures AllowListed(AllowListed(s)) == AllowListed(s)
  {
  }

  // ---------------------------------------------------------------------
  // Reserved characters (app.py, app_v2.py)
  // ---------------------------------------------------------------------

  /** The characters `/ \ : * ? " < > |`, in the order the loop visits them. */
  const Reserved: seq<char> := ['/', '\\', ':', '*', '?', '"', '<', '>', '|']

  /** Python's `s.replace(ch, '-')`. */
  function ReplaceChar(s: string, ch: char): (r: string)
    ensures |r| == |s|
    ensures forall i :: 0 <= i < |s| ==> r[i] == if s[i] == ch then '-' else s[i]
  {
    seq(|s|, i requires 0 <= i < |s| => if s[i] == ch then '-' else s[i])
  }

  /**
   * The reference result of the replace loop: same length, every reserved
   * character turned into '-', every other character kept.
   */
  function ReservedFree(s: string): (r: string)
    ensures |r| == |s|
    ensures forall i :: 0 <= i < |s| ==> r[i] !in Reserved
    ensures forall i :: 0 <= i < |s| && s[i] !in Reserved ==> r[i] == s[i]
    ensures forall i :: 0 <= i < |s| && s[i] in Reserved ==> r[i] == '-'
  {
    seq(|s|, i requires 0 <= i < |s| => if s[i] in Reserved then '-' else s[i])
  }

  /** Replacing reserved characters twice is replacing them once. */
  lemma ReservedFreeIdempotent(s: string)
    ensures ReservedFree(ReservedFree(s)) == ReservedFree(s)
  {
  }

  /**
   * `for char in [...]: nombre_carpeta = nombre_carpeta.replace(char, '-')`:
   * the name is rebound once per reserved character, and the result is
   * the reference `ReservedFree` whatever the order of the list.
   */
  method ReplaceReserved(s: string) returns (r: string)
    ensures r == ReservedFree(s)
  {
    r := s;
    var k := 0;
    while k < |Reserved|
      invariant 0 <= k <= |Reserved|
      invariant |r| == |s|
      invariant forall i :: 0 <= i < |s| ==> r[i] == if s[i] in Reserved[..k] then '-' else s[i]
    {
      r := ReplaceChar(r, Reserved[k]);
      assert Reserved[..k + 1] == Reserved[..k] + [Reserved[k]];
      k := k + 1;
    }
    assert Reserved[..k] == Reserved;
  }

  /**
   * The allow-list is the stricter sanitiser: it never keeps a reserved
   * character, and wherever the two results differ it is the allow-list
   * that wrote '-'.
   */
  lemma AllowListStricter(s: string)
    ensures forall i :: 0 <= i < |s| ==> AllowListed(s)[i] !in Reserved
    ensures forall i :: 0 <= i < |s| && ReservedFree(s)[i] != AllowListed(s)[i] ==> AllowListed(s)[i] == '-'
  {
    var a := AllowListed(s);
    forall i | 0 <= i < |s| ensures a[i] !in Reserved {
      assert Allowed(a[i]);
    }
  }
}
