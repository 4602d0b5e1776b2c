/**
 * The specification shared by the third and fifth versions of the tool,
 * whose core functions are the same line for line: the roster loader, the
 * advisor sheet, the category router, the student transposition into
 * category sheets, and the per-team bundles. The imperative code of each
 * version lives in its own module and is proved against these functions.
 */
module Roster {
  import opened Cells
  import opened Layout
  import opened Folders

  // =====================================================================
  // Roster loader: forward fill over the whole grid, then drop row 0
  // =====================================================================

  /** All rows have the width of the first (a pandas frame is rectangular). */
  predicate Rectangular(g: Grid) {
    forall i :: 0 <= i < |g| ==> |g[i]| == |g[0]|
  }

  /** One row of `ffill`: each null cell takes the cell above it, if there is one. */
  function FillRow(prev: Row, row: Row): (r: Row)
    ensures |r| == |row|
    ensures forall j :: 0 <= j < |row| ==> r[j] == if row[j].None? && j < |prev| then prev[j] else row[j]
  {
    seq(|row|, j requires 0 <= j < |row| => if row[j].None? && j < |prev| then prev[j] else row[j])
  }

  /** `df.ffill()`: rows filled top to bottom, each from the already filled row above. */
  function FillDown(g: Grid): (f: Grid)
    ensures |f| == |g|
    ensures forall i :: 0 <= i < |g| ==> |f[i]| == |g[i]|
    ensures |g| > 0 ==> f[0] == g[0]
    ensures forall i :: 0 < i < |g| ==> f[i] == FillRow(f[i - 1], g[i])
  {
    if |g| == 0 then []
    else
      var f := FillDown(g[..|g| - 1]);
      var last := FillRow(if |f| == 0 then [] else f[|f| - 1], g[|g| - 1]);
      assert |f| == 0 ==> last == g[|g| - 1];
      f + [last]
  }

  /**
   * Reference meaning of a forward-filled cell: the cell itself when it is
   * not null, otherwise the nearest non-null cell above it in its column,
   * otherwise null.
   */
  function NearestAbove(g: Grid, i: nat, j: nat): Cell
    requires Rectangular(g) && i < |g| && j < |g[0]|
  {
    if g[i][j].Some? || i == 0 then g[i][j] else NearestAbove(g, i - 1, j)
  }

  lemma {:induction false} FillDownIsNearest(g: Grid, i: nat, j: nat)
    requires Rectangular(g) && i < |g| && j < |g[0]|
    ensures FillDown(g)[i][j] == NearestAbove(g, i, j)
  {
    if i > 0 {
      FillDownIsNearest(g, i - 1, j);
    }
  }

  /** `NearestAbove` is what the words say, stated without recursion. */
  lemma {:induction false} NearestAboveMeaning(g: Grid, i: nat, j: nat)
    requires Rectangular(g) && i < |g| && j < |g[0]|
    ensures NearestAbove(g, i, j).Some? ==>
              exists k :: 0 <= k <= i && g[k][j] == NearestAbove(g, i, j)
                          && forall m :: k < m <= i ==> g[m][j].None?
    ensures NearestAbove(g, i, j).None? ==> forall k :: 0 <= k <= i ==> g[k][j].None?
  {
    if g[i][j].Some? {
      assert g[i][j] == NearestAbove(g, i, j);
    } else if i > 0 {
      NearestAboveMeaning(g, i - 1, j);
    }
  }

  /**
   * `cargar_dataframe`: a sheet that could not be read gives no grid;
   * otherwise the whole grid is forward-filled and then row 0 (the
   * header) is dropped, keeping the width.
   */
  function Load(read: Result<Grid>): (r: Option<Grid>)
    ensures r.None? <==> read.Err?
    ensures read.Ok? ==> |r.value| == if |read.value| == 0 then 0 else |read.value| - 1
    ensures read.Ok? ==> forall i :: 0 <= i < |r.value| ==> |r.value[i]| == |read.value[i + 1]|
  {
    match read
    case Err(_) => None
    case Ok(g) => Some(DropHeader(FillDown(g)))
  }

  /**
   * Every loaded cell: a non-null cell of row `i + 1` of the sheet is
   * kept; a null one takes the nearest non-null cell above it in its
   * column, the header row included; with none above it stays null.
   */
  lemma LoadCell(g: Grid, i: nat, j: nat)
    requires Rectangular(g) && i + 1 < |g| && j < |g[0]|
    ensures |Load(Ok(g)).value[i]| == |g[0]|
    ensures g[i + 1][j].Some? ==> Load(Ok(g)).value[i][j] == g[i + 1][j]
    ensures Load(Ok(g)).value[i][j].Some? ==>
              exists k :: 0 <= k <= i + 1 && g[k][j] == Load(Ok(g)).value[i][j]
                          && forall m :: k < m <= i + 1 ==> g[m][j].None?
    ensures Load(Ok(g)).value[i][j].None? ==> forall k :: 0 <= k <= i + 1 ==> g[k][j].None?
  {
    FillDownIsNearest(g, i + 1, j);
    NearestAboveMeaning(g, i + 1, j);
  }

  // =====================================================================
  // Advisor sheet: first occurrence of each (name, phone) key
  // =====================================================================

  type Sheet = seq<seq<string>>

  const AdvisorHeader: seq<string> := ["Escuela", "Nombre", "Ap. Paterno", "Ap. Materno", "Celular", "Correo"]

  /** The deduplication key: cleaned advisor first name (col 5) and phone (col 8). */
  function AdvisorKey(l: Line): (string, string)
    requires |l| > CoachEmailCol
  {
    (l[AdvisorNameCol], Phone(l))
  }

  /** `[school, name, paternal, maternal, phone, email]`. */
  function AdvisorRecord(l: Line): (rec: seq<string>)
    requires |l| > CoachEmailCol
    ensures |rec| == 6 && SheetKey(rec) == AdvisorKey(l)
  {
    [School(l), l[AdvisorNameCol], l[AdvisorPaternalCol], l[AdvisorMaternalCol], Phone(l), CoachEmail(l)]
  }

  /** The key of a row of the advisor sheet: its name and phone cells. */
  function SheetKey(rec: seq<string>): (string, string)
    requires |rec| >= 5
  {
    (rec[1], rec[4])
  }

  /** Row `i` names an advisor whose key no earlier row carried. */
  predicate FirstAdvisor(lines: seq<Line>, i: nat)
    requires Wide(lines, CoachEmailCol + 1) && i < |lines|
  {
    AdvisorKey(lines[i]).0 != "" && forall j :: 0 <= j < i ==> AdvisorKey(lines[j]) != AdvisorKey(lines[i])
  }

  /** The advisor sheet's data rows for the first `n` roster rows, in row order. */
  function AdvisorRows(lines: seq<Line>, n: nat): (out: Sheet)
    requires Wide(lines, CoachEmailCol + 1) && n <= |lines|
    ensures |out| <= n
    ensures forall a :: 0 <= a < |out| ==> |out[a]| == 6
  {
    if n == 0 then []
    else AdvisorRows(lines, n - 1) + (if FirstAdvisor(lines, n - 1) then [AdvisorRecord(lines[n - 1])] else [])
  }

  /** The keys of the named advisors among the first `n` rows: the set `asesores_unicos`. */
  function AdvisorKeys(lines: seq<Line>, n: nat): set<(string, string)>
    requires Wide(lines, CoachEmailCol + 1) && n <= |lines|
  {
    if n == 0 then {}
    else AdvisorKeys(lines, n - 1) + (if AdvisorKey(lines[n - 1]).0 != "" then {AdvisorKey(lines[n - 1])} else {})
  }

  /** A key is in the set exactly when some earlier row with a named advisor carries it. */
  lemma {:induction false} AdvisorKeysMember(lines: seq<Line>, n: nat, key: (string, string))
    requires Wide(lines, CoachEmailCol + 1) && n <= |lines|
    ensures key in AdvisorKeys(lines, n) <==>
              exists j :: 0 <= j < n && AdvisorKey(lines[j]).0 != "" && AdvisorKey(lines[j]) == key
  {
    if n > 0 {
      AdvisorKeysMember(lines, n - 1, key);
      if key in AdvisorKeys(lines, n) && key !in AdvisorKeys(lines, n - 1) {
        assert AdvisorKey(lines[n - 1]).0 != "" && AdvisorKey(lines[n - 1]) == key;
      }
      if exists j :: 0 <= j < n && AdvisorKey(lines[j]).0 != "" && AdvisorKey(lines[j]) == key {
        var j :| 0 <= j < n && AdvisorKey(lines[j]).0 != "" && AdvisorKey(lines[j]) == key;
        if j < n - 1 {
          assert key in AdvisorKeys(lines, n - 1);
        }
      }
    }
  }

  /** A named row's key is already in the set exactly when the row is not a first occurrence. */
  lemma AdvisorKeysSeen(lines: seq<Line>, n: nat)
    requires Wide(lines, CoachEmailCol + 1) && n < |lines|
    ensures AdvisorKey(lines[n]).0 != "" ==>
              (AdvisorKey(lines[n]) in AdvisorKeys(lines, n) <==> !FirstAdvisor(lines, n))
  {
    AdvisorKeysMember(lines, n, AdvisorKey(lines[n]));
  }

  /**
   * The advisor sheet has one row per distinct key: the count the report
   * returns is the number of rows it wrote.
   */
  lemma {:induction false} AdvisorCount(lines: seq<Line>, n: nat)
    requires Wide(lines, CoachEmailCol + 1) && n <= |lines|
    ensures |AdvisorRows(lines, n)| == |AdvisorKeys(lines, n)|
  {
    if n > 0 {
      AdvisorCount(lines, n - 1);
      AdvisorKeysSeen(lines, n - 1);
      var key := AdvisorKey(lines[n - 1]);
      var before := AdvisorKeys(lines, n - 1);
      if FirstAdvisor(lines, n - 1) {
        assert key !in before;
        assert |before + {key}| == |before| + 1;
      } else if key.0 != "" {
        assert before + {key} == before;
      }
    }
  }

  /** Keys of distinct advisor-sheet rows differ, and each is a key of the set. */
  lemma {:induction false} AdvisorRowsDistinct(lines: seq<Line>, n: nat)
    requires Wide(lines, CoachEmailCol + 1) && n <= |lines|
    ensures forall a :: 0 <= a < |AdvisorRows(lines, n)| ==> SheetKey(AdvisorRows(lines, n)[a]) in AdvisorKeys(lines, n)
    ensures forall a, b :: 0 <= a < b < |AdvisorRows(lines, n)| ==>
              SheetKey(AdvisorRows(lines, n)[a]) != SheetKey(AdvisorRows(lines, n)[b])
  {
    if n > 0 {
      AdvisorRowsDistinct(lines, n - 1);
      AdvisorKeysSeen(lines, n - 1);
      var before := AdvisorRows(lines, n - 1);
      var out := AdvisorRows(lines, n);
      if FirstAdvisor(lines, n - 1) {
        var rec := AdvisorRecord(lines[n - 1]);
        assert out == before + [rec];
        assert SheetKey(rec) !in AdvisorKeys(lines, n - 1);
        assert forall a :: 0 <= a < |before| ==> out[a] == before[a];
      } else {
        assert out == before;
      }
    }
  }

  /** Every key of the set appears on the advisor sheet. */
  lemma {:induction false} AdvisorRowsComplete(lines: seq<Line>, n: nat)
    requires Wide(lines, CoachEmailCol + 1) && n <= |lines|
    ensures forall key :: key in AdvisorKeys(lines, n) ==>
              exists a :: 0 <= a < |AdvisorRows(lines, n)| && SheetKey(AdvisorRows(lines, n)[a]) == key
  {
    if n > 0 {
      AdvisorRowsComplete(lines, n - 1);
      AdvisorKeysSeen(lines, n - 1);
      var before := AdvisorRows(lines, n - 1);
      var out := AdvisorRows(lines, n);
      assert forall a :: 0 <= a < |before| ==> out[a] == before[a];
      forall key | key in AdvisorKeys(lines, n)
        ensures exists a :: 0 <= a < |out| && SheetKey(out[a]) == key
      {
        if key in AdvisorKeys(lines, n - 1) {
          var a :| 0 <= a < |before| && SheetKey(before[a]) == key;
          assert SheetKey(out[a]) == key;
        } else {
          assert key == AdvisorKey(lines[n - 1]) && FirstAdvisor(lines, n - 1);
          assert SheetKey(out[|out| - 1]) == key;
        }
      }
      assert out == AdvisorRows(lines, n);
    }
  }

  /** A row whose key already occurred adds nothing to the advisor sheet. */
  lemma RepeatedKeyAddsNothing(lines: seq<Line>, j: nat, m: nat)
    requires Wide(lines, CoachEmailCol + 1) && j < m < |lines|
    requires AdvisorKey(lines[j]) == AdvisorKey(lines[m])
    ensures AdvisorRows(lines, m + 1) == AdvisorRows(lines, m)
    ensures AdvisorKeys(lines, m + 1) == AdvisorKeys(lines, m)
  {
    assert !FirstAdvisor(lines, m);
    if AdvisorKey(lines[m]).0 != "" {
      AdvisorKeysMember(lines, m, AdvisorKey(lines[m]));
    }
  }

  /** Only earlier rows matter: extending the roster leaves a prefix's advisor rows alone. */
  lemma {:induction false} AdvisorRowsPrefix(lines: seq<Line>, more: seq<Line>, n: nat)
    requires Wide(lines, CoachEmailCol + 1) && Wide(more, CoachEmailCol + 1) && n <= |lines|
    ensures Wide(lines + more, CoachEmailCol + 1)
    ensures AdvisorRows(lines + more, n) == AdvisorRows(lines, n)
    ensures AdvisorKeys(lines + more, n) == AdvisorKeys(lines, n)
  {
    var all := lines + more;
    assert forall i :: 0 <= i < n ==> all[i] == lines[i];
    if n > 0 {
      AdvisorRowsPrefix(lines, more, n - 1);
      assert FirstAdvisor(all, n - 1) == FirstAdvisor(lines, n - 1);
    }
  }

  /** Past the first copy, every row of a doubled roster repeats a key and adds nothing. */
  lemma {:induction false} AdvisorRowsRepeat(lines: seq<Line>, m: nat)
    requires Wide(lines, CoachEmailCol + 1) && |lines| <= m <= 2 * |lines|
    ensures Wide(lines + lines, CoachEmailCol + 1)
    ensures AdvisorRows(lines + lines, m) == AdvisorRows(lines, |lines|)
    decreases m
  {
    var n := |lines|;
    var all := lines + lines;
    if m == n {
      AdvisorRowsPrefix(lines, lines, n);
    } else {
      AdvisorRowsRepeat(lines, m - 1);
      assert all[m - 1 - n] == all[m - 1];
      RepeatedKeyAddsNothing(all, m - 1 - n, m - 1);
    }
  }

  /**
   * Deduplication is idempotent: scanning the roster twice in a row writes
   * the same advisor sheet as scanning it once.
   */
  lemma AdvisorDedupTwice(lines: seq<Line>)
    requires Wide(lines, CoachEmailCol + 1)
    ensures Wide(lines + lines, CoachEmailCol + 1)
    ensures AdvisorRows(lines + lines, 2 * |lines|) == AdvisorRows(lines, |lines|)
  {
    AdvisorRowsRepeat(lines, 2 * |lines|);
  }

  // =====================================================================
  // Category router
  // =====================================================================

  /** The three student sheets. */
  datatype Target = Linea | Laberinto | Escenario

  /** The sheet's name, which is also written as the category of its rows. */
  function SheetName(t: Target): string {
    match t
    case Linea => "Línea"
    case Laberinto => "Laberinto"
    case Escenario => "Escenario"
  }

  /** The sheet's slot cap (its `"max"` entry). */
  function MaxSlots(t: Target): (m: nat)
    ensures m <= SlotCount
  {
    if t == Escenario then 5 else 4
  }

  /**
   * The first-match test on the lower-cased category: "línea" or "linea",
   * then "laberinto", then "escenario"; anything else has no sheet.
   */
  function Route(text: string): Option<Target> {
    var low := Lower(text);
    if Contains(low, "línea") || Contains(low, "linea") then Some(Linea)
    else if Contains(low, "laberinto") then Some(Laberinto)
    else if Contains(low, "escenario") then Some(Escenario)
    else None
  }

  /** The lower-cased text has `token` at some position. */
  ghost predicate Mentions(text: string, token: string) {
    exists i :: OccursAt(Lower(text), token, i)
  }

  /**
   * Routing in terms of where the tokens occur: a sheet is chosen exactly
   * when its token occurs and no token of an earlier sheet does; no sheet
   * exactly when none of the four tokens occurs.
   */
  lemma RouteMeaning(text: string)
    ensures Route(text) == Some(Linea) <==> Mentions(text, "línea") || Mentions(text, "linea")
    ensures Route(text) == Some(Laberinto) <==>
              !Mentions(text, "línea") && !Mentions(text, "linea") && Mentions(text, "laberinto")
    ensures Route(text) == Some(Escenario) <==>
              !Mentions(text, "línea") && !Mentions(text, "linea") && !Mentions(text, "laberinto")
              && Mentions(text, "escenario")
    ensures Route(text).None? <==>
              !Mentions(text, "línea") && !Mentions(text, "linea") && !Mentions(text, "laberinto")
              && !Mentions(text, "escenario")
  {
    var low := Lower(text);
    ContainsAt(low, "línea");
    ContainsAt(low, "linea");
    ContainsAt(low, "laberinto");
    ContainsAt(low, "escenario");
  }

  /** Case does not matter: a category and its lower-cased form go to the same sheet. */
  lemma RouteIgnoresCase(text: string)
    ensures Route(Lower(text)) == Route(text)
  {
    LowerIdempotent(text);
  }

  /** "linea" wins over "escenario"; a category without any token has no sheet. */
  lemma RouteExamples()
    ensures Route("linea escenario") == Some(Linea)
    ensures Route("Sumo") == None
  {
    var low := Lower("linea escenario");
    assert low[..5] == "linea";
    assert StartsWith(low, "linea");
    assert Lower("Sumo") == "sumo";
  }

  /** The upper-case accented category routes like its lower-case form. */
  lemma RouteAccented()
    ensures Route("LÍNEA") == Some(Linea)
  {
    assert Lower("LÍNEA") == "línea";
    assert StartsWith("línea", "línea");
  }

  // =====================================================================
  // Student transposition
  // =====================================================================

  /** The five student blocks: matricula, paternal, maternal, name, e-mail columns. */
  const StudentBlocks: seq<seq<nat>> :=
    [[10, 11, 12, 13, 16], [17, 18, 19, 20, 23], [24, 25, 26, 27, 30], [31, 32, 33, 34, 37], [39, 40, 41, 42, 45]]

  const StudentHeader: seq<string> :=
    ["Escuela", "Equipo", "Categoría", "Matrícula", "Ap. Paterno", "Ap. Materno", "Nombre", "Correo Inst."]

  /** The message of the exception pandas raises for a positional index past the row. */
  const IndexError: string := "single positional indexer is out-of-bounds"

  /**
   * Every block is its matricula column followed by the next three and
   * the sixth after it; the last column any block reads is 45.
   */
  lemma BlocksWithin(k: nat)
    requires k < SlotCount
    ensures StudentBlocks[k] == [MatriculaCol(k), MatriculaCol(k) + 1, MatriculaCol(k) + 2, MatriculaCol(k) + 3, MatriculaCol(k) + 6]
    ensures MatriculaCol(k) + 6 <= 45
  {
  }

  /**
   * Slot `k` holds a matricula, so its other four cells are read, but the
   * row ends before the last of them: the read raises.
   */
  predicate ShortSlot(l: Line, k: nat)
    requires k < SlotCount
  {
    SlotId(l, k) != "" && MatriculaCol(k) + 6 >= |l|
  }

  /** `[school, team, sheet, matricula, paternal, maternal, name, e-mail]` of slot `k`. */
  function StudentRecord(l: Line, t: Target, k: nat): (rec: seq<string>)
    requires |l| > CategoryCol && k < SlotCount && MatriculaCol(k) + 6 < |l|
    ensures |rec| == 8
    ensures rec[0] == School(l) && rec[1] == TeamName(l) && rec[2] == SheetName(t) && rec[3] == SlotId(l, k)
    ensures rec[4..] == [l[MatriculaCol(k) + 1], l[MatriculaCol(k) + 2], l[MatriculaCol(k) + 3], l[MatriculaCol(k) + 6]]
  {
    var m := MatriculaCol(k);
    [School(l), TeamName(l), SheetName(t), l[m], l[m + 1], l[m + 2], l[m + 3], l[m + 6]]
  }

  /**
   * The rows one routed team adds to sheet `t` from slots `0 .. n-1`, or
   * the read error of the first filled slot whose row is too short.
   */
  function TeamRows(l: Line, t: Target, n: nat): (r: Result<Sheet>)
    requires |l| > CategoryCol && n <= SlotCount
    ensures r.Err? <==> exists k :: 0 <= k < n && ShortSlot(l, k)
    ensures r.Err? ==> r.error == IndexError
    ensures r.Ok? ==> |r.value| <= n
  {
    if n == 0 then Ok([])
    else
      match TeamRows(l, t, n - 1)
      case Err(e) => Err(e)
      case Ok(before) =>
        if SlotId(l, n - 1) == "" then
          assert !ShortSlot(l, n - 1);
          Ok(before)
        else if MatriculaCol(n - 1) + 6 >= |l| then
          assert ShortSlot(l, n - 1);
          Err(IndexError)
        else
          assert !ShortSlot(l, n - 1);
          Ok(before + [StudentRecord(l, t, n - 1)])
  }

  /** Each row of `rs` is `[school, team, sheet, id]` followed by four cells, one row per id. */
  predicate RowsFit(rs: Sheet, school: string, team: string, sheet: string, ids: seq<string>) {
    |rs| == |ids|
    && forall a :: 0 <= a < |rs| ==>
         |rs[a]| == 8 && rs[a][0] == school && rs[a][1] == team && rs[a][2] == sheet && rs[a][3] == ids[a]
  }

  /**
   * A team that raises nothing adds one row per filled slot, in slot
   * order, each carrying the school, the team, the sheet's own name and
   * the slot's matricula.
   */
  lemma {:induction false} TeamRowsShape(l: Line, t: Target, n: nat)
    requires |l| > CategoryCol && n <= SlotCount
    requires TeamRows(l, t, n).Ok?
    ensures RowsFit(TeamRows(l, t, n).value, School(l), TeamName(l), SheetName(t), FilledSlots(l, n))
  {
    if n > 0 {
      TeamRowsShape(l, t, n - 1);
      var id := SlotId(l, n - 1);
      if id != "" {
        RowsFitAppend(TeamRows(l, t, n - 1).value, StudentRecord(l, t, n - 1),
                      School(l), TeamName(l), SheetName(t), FilledSlots(l, n - 1), id);
      }
    }
  }

  /** One more fitting row for one more id keeps the rows fitting. */
  lemma RowsFitAppend(rs: Sheet, rec: seq<string>, school: string, team: string, sheet: string, ids: seq<string>, id: string)
    requires RowsFit(rs, school, team, sheet, ids)
    requires |rec| == 8 && rec[0] == school && rec[1] == team && rec[2] == sheet && rec[3] == id
    ensures RowsFit(rs + [rec], school, team, sheet, ids + [id])
  {
  }

  /** The three category sheets' data rows. */
  datatype StudentSheets = StudentSheets(linea: Sheet, laberinto: Sheet, escenario: Sheet)
  {
    function Of(t: Target): Sheet {
      match t
      case Linea => linea
      case Laberinto => laberinto
      case Escenario => escenario
    }

    /** Replaces sheet `t` and leaves the other two alone. */
    function With(t: Target, s: Sheet): (r: StudentSheets)
      ensures r.Of(t) == s
      ensures forall u :: u != t ==> r.Of(u) == Of(u)
    {
      match t
      case Linea => this.(linea := s)
      case Laberinto => this.(laberinto := s)
      case Escenario => this.(escenario := s)
    }
  }

  /** Every data row of sheet `t` has eight cells and names `t` as its category. */
  predicate SheetFits(s: Sheet, t: Target) {
    forall a :: 0 <= a < |s| ==> |s[a]| == 8 && s[a][2] == SheetName(t)
  }

  predicate WellFormedSheets(sh: StudentSheets) {
    SheetFits(sh.linea, Linea) && SheetFits(sh.laberinto, Laberinto) && SheetFits(sh.escenario, Escenario)
  }

  lemma WellFormedWith(sh: StudentSheets, t: Target, added: Sheet)
    requires WellFormedSheets(sh) && SheetFits(added, t)
    ensures WellFormedSheets(sh.With(t, sh.Of(t) + added))
  {
    assert SheetFits(sh.Of(t) + added, t);
  }

  /**
   * One roster row of the student pass: a team row with a routed category
   * appends its `TeamRows` to that sheet; any other row adds nothing; a
   * short block raises.
   */
  function AddTeam(l: Line, sh: StudentSheets): (r: Result<StudentSheets>)
    requires |l| > CategoryCol
    ensures WellFormedSheets(sh) && r.Ok? ==> WellFormedSheets(r.value)
    ensures r.Err? ==> r.error == IndexError
  {
    if !IsTeamRow(l) then Ok(sh)
    else
      match Route(Category(l))
      case None => Ok(sh)
      case Some(t) =>
        match TeamRows(l, t, MaxSlots(t))
        case Err(e) => Err(e)
        case Ok(added) =>
          TeamRowsShape(l, t, MaxSlots(t));
          if WellFormedSheets(sh) then WellFormedWith(sh, t, added); Ok(sh.With(t, sh.Of(t) + added))
          else Ok(sh.With(t, sh.Of(t) + added))
  }

  /**
   * The category sheets after the first `n` roster rows; the first read
   * error ends the whole report.
   */
  function StudentSheetsOf(lines: seq<Line>, n: nat): (r: Result<StudentSheets>)
    requires Wide(lines, CoachEmailCol + 1) && n <= |lines|
    ensures r.Ok? ==> WellFormedSheets(r.value)
    ensures r.Err? ==> r.error == IndexError
  {
    if n == 0 then Ok(StudentSheets([], [], []))
    else
      match StudentSheetsOf(lines, n - 1)
      case Err(e) => Err(e)
      case Ok(sh) => AddTeam(lines[n - 1], sh)
  }

  /** Once a row has raised, no later row can undo it. */
  lemma {:induction false} ErrorSticks(lines: seq<Line>, n: nat, m: nat)
    requires Wide(lines, CoachEmailCol + 1) && n <= m <= |lines|
    requires StudentSheetsOf(lines, n).Err?
    ensures StudentSheetsOf(lines, m).Err?
    decreases m - n
  {
    if n < m {
      ErrorSticks(lines, n + 1, m);
    }
  }

  /** Row `i` is a routed team one of whose capped slots is short. */
  ghost predicate FailingRow(lines: seq<Line>, i: nat)
    requires Wide(lines, CoachEmailCol + 1) && i < |lines|
  {
    IsTeamRow(lines[i]) && Route(Category(lines[i])).Some?
    && exists k :: 0 <= k < MaxSlots(Route(Category(lines[i])).value) && ShortSlot(lines[i], k)
  }

  /** The category sheets fail exactly when some row among the first `n` fails. */
  lemma {:induction false} ReportErrors(lines: seq<Line>, n: nat)
    requires Wide(lines, CoachEmailCol + 1) && n <= |lines|
    ensures StudentSheetsOf(lines, n).Err? <==> exists i :: 0 <= i < n && FailingRow(lines, i)
  {
    if n > 0 {
      ReportErrors(lines, n - 1);
      StepError(lines, n);
      if exists i :: 0 <= i < n && FailingRow(lines, i) {
        var i :| 0 <= i < n && FailingRow(lines, i);
        if i < n - 1 {
          assert StudentSheetsOf(lines, n - 1).Err?;
        }
      }
      if StudentSheetsOf(lines, n).Err? {
        if StudentSheetsOf(lines, n - 1).Err? {
          var i :| 0 <= i < n - 1 && FailingRow(lines, i);
          assert 0 <= i < n && FailingRow(lines, i);
        } else {
          assert FailingRow(lines, n - 1);
        }
      }
    }
  }

  /** One more row fails the sheets exactly when they had failed or that row fails. */
  lemma StepError(lines: seq<Line>, n: nat)
    requires Wide(lines, CoachEmailCol + 1) && 0 < n <= |lines|
    ensures StudentSheetsOf(lines, n).Err? <==> StudentSheetsOf(lines, n - 1).Err? || FailingRow(lines, n - 1)
  {
    if StudentSheetsOf(lines, n - 1).Ok? && FailingRow(lines, n - 1) {
      var t := Route(Category(lines[n - 1])).value;
      assert TeamRows(lines[n - 1], t, MaxSlots(t)).Err?;
    }
    if StudentSheetsOf(lines, n).Err? && StudentSheetsOf(lines, n - 1).Ok? {
      assert FailingRow(lines, n - 1);
    }
  }

  /** On a frame at least 46 columns wide every read is in range: the report never fails. */
  lemma WideNeverFails(lines: seq<Line>)
    requires Wide(lines, 46)
    ensures StudentSheetsOf(lines, |lines|).Ok?
  {
    ReportErrors(lines, |lines|);
    forall i | 0 <= i < |lines| ensures !FailingRow(lines, i) {
      forall k | 0 <= k < SlotCount ensures !ShortSlot(lines[i], k) {
        BlocksWithin(k);
      }
    }
  }

  /** A row without school or team, or with an unrouted category, leaves every sheet as it was. */
  lemma SkippedRowAddsNothing(lines: seq<Line>, n: nat)
    requires Wide(lines, CoachEmailCol + 1) && 0 < n <= |lines|
    requires !IsTeamRow(lines[n - 1]) || Route(Category(lines[n - 1])).None?
    ensures StudentSheetsOf(lines, n) == StudentSheetsOf(lines, n - 1)
  {
  }

  /**
   * A routed team row grows only its own sheet, by one row per filled slot
   * of its capped slots, in slot order.
   */
  lemma RoutedRowGrowsOneSheet(lines: seq<Line>, n: nat, t: Target)
    requires Wide(lines, CoachEmailCol + 1) && 0 < n <= |lines|
    requires IsTeamRow(lines[n - 1]) && Route(Category(lines[n - 1])) == Some(t)
    requires StudentSheetsOf(lines, n).Ok?
    ensures StudentSheetsOf(lines, n - 1).Ok?
    ensures forall u :: u != t ==> StudentSheetsOf(lines, n).value.Of(u) == StudentSheetsOf(lines, n - 1).value.Of(u)
    ensures var before := StudentSheetsOf(lines, n - 1).value.Of(t);
            var after := StudentSheetsOf(lines, n).value.Of(t);
            var l := lines[n - 1];
            |before| <= |after| <= |before| + MaxSlots(t) && after[..|before|] == before
            && RowsFit(after[|before|..], School(l), TeamName(l), SheetName(t), FilledSlots(l, MaxSlots(t)))
  {
    var l := lines[n - 1];
    var sh := StudentSheetsOf(lines, n - 1).value;
    var added := TeamRows(l, t, MaxSlots(t)).value;
    TeamRowsShape(l, t, MaxSlots(t));
    var after := sh.Of(t) + added;
    assert StudentSheetsOf(lines, n).value == sh.With(t, after);
    assert after[..|sh.Of(t)|] == sh.Of(t);
    assert after[|sh.Of(t)|..] == added;
  }

  // =====================================================================
  // The whole report
  // =====================================================================

  /** The workbook: the advisor sheet and the three category sheets, each with its header row. */
  datatype Workbook = Workbook(advisors: Sheet, students: StudentSheets)

  function Headed(sh: StudentSheets): (r: StudentSheets)
    ensures forall t :: r.Of(t) == [StudentHeader] + sh.Of(t)
  {
    StudentSheets([StudentHeader] + sh.linea, [StudentHeader] + sh.laberinto, [StudentHeader] + sh.escenario)
  }

  /**
   * `generar_excel_resumen` on the cleaned roster: the workbook and the
   * number of distinct advisor keys, or the error of the first short
   * student block.
   */
  function Report(lines: seq<Line>): (r: Result<(Workbook, nat)>)
    requires Wide(lines, CoachEmailCol + 1)
    ensures r.Err? <==> exists i :: 0 <= i < |lines| && FailingRow(lines, i)
    ensures r.Err? ==> r.error == IndexError
    ensures r.Ok? ==> r.value.0.advisors != [] && r.value.0.advisors[0] == AdvisorHeader
    ensures r.Ok? ==> r.value.1 == |r.value.0.advisors| - 1
  {
    ReportErrors(lines, |lines|);
    AdvisorCount(lines, |lines|);
    match StudentSheetsOf(lines, |lines|)
    case Err(e) => Err(e)
    case Ok(sh) =>
      Ok((Workbook([AdvisorHeader] + AdvisorRows(lines, |lines|), Headed(sh)), |AdvisorKeys(lines, |lines|)|))
  }

  // =====================================================================
  // Team bundles (capped by "escenario")
  // =====================================================================

  /** `5 if "escenario" in category.lower() else 4`: decided without the router. */
  function BundleCap(category: string): (cap: nat)
    ensures cap == 4 || cap == 5
    ensures cap == 5 <==> exists i :: OccursAt(Lower(category), "escenario", i)
  {
    ContainsAt(Lower(category), "escenario");
    if Contains(Lower(category), "escenario") then 5 else 4
  }

  /** The allow-listed folder name of a team row. */
  function FolderName(l: Line): (name: string)
    requires |l| > CategoryCol
    ensures |name| == |FolderLabel(l)|
    ensures forall i :: 0 <= i < |name| ==> Allowed(name[i])
  {
    AllowListed(FolderLabel(l))
  }

  /** The bundle of one team row: allow-listed folder, coach image, capped student images. */
  function BundleOf(l: Line, encode: string -> Bytes): (b: TeamBundle)
    requires |l| > CoachEmailCol
    ensures |b.images| <= 6
  {
    MakeBundle(l, FolderName(l), BundleCap(Category(l)), encode)
  }

  /** The bundles of the first `n` rows: one per team row, in row order. */
  function Bundles(lines: seq<Line>, n: nat, encode: string -> Bytes): (bs: seq<TeamBundle>)
    requires Wide(lines, CoachEmailCol + 1) && n <= |lines|
    ensures |bs| == CountTeams(lines, n)
  {
    if n == 0 then []
    else Bundles(lines, n - 1, encode) + (if IsTeamRow(lines[n - 1]) then [BundleOf(lines[n - 1], encode)] else [])
  }

  /**
   * Team row `i` owns bundle number `CountTeams(lines, i)`, whatever its
   * category: routed or not, every team gets its bundle.
   */
  lemma {:induction false} BundleAt(lines: seq<Line>, n: nat, i: nat, encode: string -> Bytes)
    requires Wide(lines, CoachEmailCol + 1) && i < n <= |lines| && IsTeamRow(lines[i])
    ensures CountTeams(lines, i) < |Bundles(lines, n, encode)|
    ensures Bundles(lines, n, encode)[CountTeams(lines, i)] == BundleOf(lines[i], encode)
  {
    var prev := Bundles(lines, n - 1, encode);
    var cur := Bundles(lines, n, encode);
    var j := CountTeams(lines, i);
    if i < n - 1 {
      BundleAt(lines, n - 1, i, encode);
      assert cur[..|prev|] == prev;
      assert j < |prev| <= |cur|;
      assert cur[j] == prev[j];
    } else {
      assert j == |prev|;
      assert cur == prev + [BundleOf(lines[i], encode)];
      assert |cur| == j + 1;
    }
  }

  /**
   * The bundle cap does not consult the router: "linea escenario" goes to
   * the Línea sheet with its cap of four students, while its bundle keeps
   * five.
   */
  lemma CapIgnoresRouter()
    ensures Route("linea escenario") == Some(Linea) && MaxSlots(Linea) == 4
    ensures BundleCap("linea escenario") == 5
  {
    RouteExamples();
    var low := Lower("linea escenario");
    assert low[6..15] == "escenario";
    CapFromOccurrence("linea escenario", 6);
  }

  /** A category whose lower-cased text holds "escenario" anywhere gets the cap of five. */
  lemma CapFromOccurrence(category: string, i: int)
    requires OccursAt(Lower(category), "escenario", i)
    ensures BundleCap(category) == 5
  {
    ContainsAt(Lower(category), "escenario");
  }

  /**
   * Where router and bundle agree on the cap, a routed team's report rows
   * and its student images carry the same matriculas in the same order.
   */
  lemma TeamRowsMatchImages(l: Line, t: Target, encode: string -> Bytes)
    requires |l| > CoachEmailCol
    requires TeamRows(l, t, MaxSlots(t)).Ok? && BundleCap(Category(l)) == MaxSlots(t)
    ensures RowsFit(TeamRows(l, t, MaxSlots(t)).value, School(l), TeamName(l), SheetName(t), FilledSlots(l, MaxSlots(t)))
    ensures |TeamRows(l, t, MaxSlots(t)).value| == |StudentImages(l, BundleCap(Category(l)), encode)|
    ensures forall a :: 0 <= a < |TeamRows(l, t, MaxSlots(t)).value| ==>
              StudentImages(l, BundleCap(Category(l)), encode)[a] == StudentImage(TeamRows(l, t, MaxSlots(t)).value[a][3], encode)
  {
    TeamRowsShape(l, t, MaxSlots(t));
  }

  /**
   * The image list of one team, the same loop in the third and fifth
   * versions: the coach image when the phone is non-empty, then student
   * images slot by slot until `max_al`, where the loop breaks.
   */
  method TeamImages(row: Row, ghost l: Line, cat: string, celCoach: string, encode: string -> Bytes)
      returns (imgs: seq<Image>)
    requires l == CleanRow(row) && |row| > CoachEmailCol && cat == Category(l) && celCoach == Phone(l)
    ensures imgs == CoachImages(l, encode) + StudentImages(l, BundleCap(Category(l)), encode)
  {
    imgs := [];
    if celCoach != "" {
      imgs := imgs + [CoachImage(celCoach, encode)];
    }
    var maxAl := BundleCap(cat);
    imgs := SlotImagesUntil(row, l, maxAl, imgs, encode);
  }

  /** The slot loop of `TeamImages`: slots in order, breaking at `maxAl`. */
  method SlotImagesUntil(row: Row, ghost l: Line, maxAl: nat, imgs0: seq<Image>, encode: string -> Bytes)
      returns (imgs: seq<Image>)
    requires l == CleanRow(row) && |row| > PhoneCol && maxAl <= SlotCount && ImagesUpTo(l, 0, imgs0, encode)
    ensures ImagesUpTo(l, maxAl, imgs, encode)
  {
    imgs := imgs0;
    var i := 0;
    while i < |MatriculaCols|
      invariant 0 <= i <= maxAl
      invariant ImagesUpTo(l, i, imgs, encode)
    {
      if i >= maxAl {
        break;
      }
      imgs := AppendSlotImage(row, l, i, imgs, encode);
      i := i + 1;
    }
  }
}
