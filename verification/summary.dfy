/**
 * `generar_excel_resumen`, the same code in the third and fifth versions
 * of the tool, written the way it runs: one pass over the roster that
 * grows a set of advisor keys and the advisor sheet, then one pass that
 * routes each team and transposes its student blocks into the sheet of
 * its category, each sheet with its own row counter.
 *
 * Every method is proved to compute `Roster.Report` on the cleaned roster.
 */
module Summary {
  import opened Cells
  import opened Layout
  import opened Roster

  /**
   * `worksheet.write(r, c, v)` for every cell of one row: row `r` becomes
   * `cells`, every other row stays; writing just past the end appends.
   */
  function WriteRow(sheet: Sheet, r: nat, cells: seq<string>): (s: Sheet)
    requires r <= |sheet|
    ensures |s| == if r == |sheet| then r + 1 else |sheet|
    ensures s[r] == cells
    ensures forall q :: 0 <= q < |sheet| && q != r ==> s[q] == sheet[q]
  {
    if r == |sheet| then sheet + [cells] else sheet[r := cells]
  }

  /** Writing at the row counter of a sheet whose counter is its length is appending. */
  lemma WriteAtEnd(sheet: Sheet, cells: seq<string>)
    ensures WriteRow(sheet, |sheet|, cells) == sheet + [cells]
  {
  }

  /** One more roster row: the set gains the row's named key, the sheet its first occurrence. */
  lemma AdvisorStep(lines: seq<Line>, i: nat)
    requires Wide(lines, CoachEmailCol + 1) && i < |lines|
    ensures var key := AdvisorKey(lines[i]);
            AdvisorKeys(lines, i + 1) == (if key.0 != "" then AdvisorKeys(lines, i) + {key} else AdvisorKeys(lines, i))
            && AdvisorRows(lines, i + 1) ==
               AdvisorRows(lines, i) + (if key.0 != "" && key !in AdvisorKeys(lines, i) then [AdvisorRecord(lines[i])] else [])
  {
    AdvisorKeysSeen(lines, i);
  }

  /**
   * The advisor pass on row `i`: a named advisor whose `(name, phone)` key
   * is not yet in the set is added to the set and written at `row_asesor`,
   * which then moves down by one.
   */
  method AdvisorRowPass(row: Row, ghost lines: seq<Line>, ghost i: nat,
                        seen: set<(string, string)>, advisors: Sheet, rowAdvisor: nat)
      returns (seenNext: set<(string, string)>, advisorsNext: Sheet, rowAdvisorNext: nat)
    requires Wide(lines, CoachEmailCol + 1) && i < |lines| && lines[i] == CleanRow(row)
    requires seen == AdvisorKeys(lines, i) && advisors == [AdvisorHeader] + AdvisorRows(lines, i)
    requires rowAdvisor == |advisors|
    ensures seenNext == AdvisorKeys(lines, i + 1) && advisorsNext == [AdvisorHeader] + AdvisorRows(lines, i + 1)
    ensures rowAdvisorNext == |advisorsNext| == |seenNext| + 1
  {
    AdvisorStep(lines, i);
    AdvisorCount(lines, i + 1);
    var nombre := Clean(row[AdvisorNameCol]);
    var celular := Clean(row[PhoneCol]);
    assert (nombre, celular) == AdvisorKey(lines[i]);
    seenNext, advisorsNext, rowAdvisorNext := seen, advisors, rowAdvisor;
    if nombre != "" && (nombre, celular) !in seen {
      seenNext := seen + {(nombre, celular)};
      var datos := [Clean(row[SchoolCol]), nombre, Clean(row[AdvisorPaternalCol]),
                    Clean(row[AdvisorMaternalCol]), celular, Clean(row[CoachEmailCol])];
      assert datos == AdvisorRecord(lines[i]);
      WriteAtEnd(advisors, datos);
      advisorsNext := WriteRow(advisors, rowAdvisor, datos);
      rowAdvisorNext := rowAdvisor + 1;
    }
  }

  /**
   * The advisor pass: every row in order, `row_asesor` always one more
   * than the size of the set. The set ends as the keys of all named
   * advisors and the sheet as the header and one row per first occurrence.
   */
  method WriteAdvisors(rows: Grid) returns (advisors: Sheet, seen: set<(string, string)>)
    requires Wide(rows, CoachEmailCol + 1)
    ensures Wide(CleanGrid(rows), CoachEmailCol + 1)
    ensures seen == AdvisorKeys(CleanGrid(rows), |rows|)
    ensures advisors == [AdvisorHeader] + AdvisorRows(CleanGrid(rows), |rows|)
    ensures |advisors| == |seen| + 1
  {
    ghost var lines := CleanGrid(rows);
    CleanGridWide(rows, CoachEmailCol + 1);
    advisors := [AdvisorHeader];
    seen := {};
    var rowAdvisor := 1;
    for i := 0 to |rows|
      invariant seen == AdvisorKeys(lines, i)
      invariant advisors == [AdvisorHeader] + AdvisorRows(lines, i)
      invariant rowAdvisor == |advisors| == |seen| + 1
    {
      seen, advisors, rowAdvisor := AdvisorRowPass(rows[i], lines, i, seen, advisors, rowAdvisor);
    }
  }

  /** One entry of the `sheets` dict: the worksheet, its next free row and its slot cap. */
  datatype SheetCursor = SheetCursor(obj: Sheet, row: nat, max: nat)

  /**
   * The dict holds the three sheets; each worksheet is the header followed
   * by the sheet's data rows so far, its counter is the first free row and
   * its cap is the sheet's.
   */
  predicate Tracks(sheets: map<Target, SheetCursor>, sh: StudentSheets) {
    forall t :: t in sheets && sheets[t].obj == [StudentHeader] + sh.Of(t)
                && sheets[t].row == |sheets[t].obj| && sheets[t].max == MaxSlots(t)
  }

  /** The dict as the report starts: three sheets holding only their header, counters at 1. */
  method NewSheets() returns (sheets: map<Target, SheetCursor>)
    ensures Tracks(sheets, StudentSheets([], [], []))
  {
    sheets := map[Linea := SheetCursor([StudentHeader], 1, 4),
                  Laberinto := SheetCursor([StudentHeader], 1, 4),
                  Escenario := SheetCursor([StudentHeader], 1, 5)];
    forall t ensures t in sheets && sheets[t].obj == [StudentHeader] + StudentSheets([], [], []).Of(t)
                     && sheets[t].row == |sheets[t].obj| && sheets[t].max == MaxSlots(t)
    {
      match t
      case Linea =>
      case Laberinto =>
      case Escenario =>
    }
  }

  /** Growing sheet `t` by `added` rows at its counter keeps the dict in step with the sheets. */
  lemma TracksGrow(sheets: map<Target, SheetCursor>, sh: StudentSheets, t: Target, added: Sheet)
    requires Tracks(sheets, sh)
    ensures var cfg := sheets[t];
            Tracks(sheets[t := SheetCursor(cfg.obj + added, cfg.row + |added|, cfg.max)], sh.With(t, sh.Of(t) + added))
  {
    var cfg := sheets[t];
    var grown := sheets[t := SheetCursor(cfg.obj + added, cfg.row + |added|, cfg.max)];
    var next := sh.With(t, sh.Of(t) + added);
    forall u ensures u in grown && grown[u].obj == [StudentHeader] + next.Of(u)
                     && grown[u].row == |grown[u].obj| && grown[u].max == MaxSlots(u)
    {
      if u == t {
        assert cfg.obj + added == [StudentHeader] + (sh.Of(t) + added);
      }
    }
  }

  /**
   * Slot `i` of a routed team: a slot whose matricula column is in range
   * and cleans to a non-empty text is read in full and written at the
   * sheet's counter, which moves down by one; a read past the end of the
   * row raises.
   */
  method SlotPass(row: Row, ghost l: Line, t: Target, i: nat, escuela: string, equipo: string,
                  ghost base: Sheet, cur: SheetCursor, ghost added: Sheet)
      returns (r: Result<SheetCursor>, ghost addedNext: Sheet)
    requires l == CleanRow(row) && |row| > CategoryCol && i < MaxSlots(t)
    requires escuela == School(l) && equipo == TeamName(l)
    requires TeamRows(l, t, i) == Ok(added) && cur.obj == base + added && cur.row == |cur.obj|
    ensures r.Err? ==> r == Err(IndexError) && TeamRows(l, t, MaxSlots(t)).Err?
    ensures r.Ok? ==> TeamRows(l, t, i + 1) == Ok(addedNext)
                      && r.value == SheetCursor(base + addedNext, |base + addedNext|, cur.max)
  {
    r, addedNext := Ok(cur), added;
    var idx := StudentBlocks[i];
    BlocksWithin(i);
    if idx[0] < |row| {
      var mat := Clean(row[idx[0]]);
      assert mat == SlotId(l, i);
      if mat != "" {
        if idx[1] >= |row| || idx[2] >= |row| || idx[3] >= |row| || idx[4] >= |row| {
          assert ShortSlot(l, i);
          ErrorStaysInTeam(l, t, i + 1, MaxSlots(t));
          return Err(IndexError), added;
        }
        var d := [escuela, equipo, SheetName(t), mat, Clean(row[idx[1]]), Clean(row[idx[2]]),
                  Clean(row[idx[3]]), Clean(row[idx[4]])];
        assert d == StudentRecord(l, t, i);
        WriteAtEnd(cur.obj, d);
        assert (base + added) + [d] == base + (added + [d]);
        r := Ok(cur.(obj := WriteRow(cur.obj, cur.row, d), row := cur.row + 1));
        addedNext := added + [d];
      }
    }
  }

  /**
   * The slot loop of one routed team: slots `0 .. max-1` in order; the
   * first short block raises.
   */
  method WriteTeam(row: Row, t: Target, cfg: SheetCursor) returns (r: Result<SheetCursor>)
    requires |row| > CategoryCol && cfg.row == |cfg.obj| && cfg.max == MaxSlots(t)
    ensures TeamRows(CleanRow(row), t, MaxSlots(t)).Err? ==> r == Err(IndexError)
    ensures TeamRows(CleanRow(row), t, MaxSlots(t)).Ok? ==>
              r == Ok(SheetCursor(cfg.obj + TeamRows(CleanRow(row), t, MaxSlots(t)).value,
                                  cfg.row + |TeamRows(CleanRow(row), t, MaxSlots(t)).value|, cfg.max))
  {
    ghost var l := CleanRow(row);
    var escuela := Clean(row[SchoolCol]);
    var equipo := Clean(row[TeamCol]);
    var cur := cfg;
    ghost var added: Sheet := [];
    for i := 0 to cfg.max
      invariant TeamRows(l, t, i) == Ok(added)
      invariant cur == SheetCursor(cfg.obj + added, |cfg.obj + added|, cfg.max)
    {
      var next;
      next, added := SlotPass(row, l, t, i, escuela, equipo, cfg.obj, cur, added);
      if next.Err? {
        return next;
      }
      cur := next.value;
    }
    r := Ok(cur);
  }

  /** A team whose slot loop has raised stays failed for every larger cap. */
  lemma {:induction false} ErrorStaysInTeam(l: Line, t: Target, n: nat, m: nat)
    requires |l| > CategoryCol && n <= m <= SlotCount && TeamRows(l, t, n).Err?
    ensures TeamRows(l, t, m).Err?
    decreases m - n
  {
    if n < m {
      ErrorStaysInTeam(l, t, n + 1, m);
    }
  }

  /**
   * The student pass on row `i`: a row without school or team is skipped,
   * a routed team is transposed into its sheet and moves that sheet's
   * counter; a short block raises.
   */
  method StudentRowPass(row: Row, ghost lines: seq<Line>, ghost i: nat,
                        sheets: map<Target, SheetCursor>, ghost sh: StudentSheets)
      returns (r: Result<map<Target, SheetCursor>>, ghost shNext: StudentSheets)
    requires Wide(lines, CoachEmailCol + 1) && i < |lines| && lines[i] == CleanRow(row)
    requires StudentSheetsOf(lines, i) == Ok(sh) && Tracks(sheets, sh)
    ensures r.Err? ==> r == Err(IndexError) && StudentSheetsOf(lines, i + 1).Err?
    ensures r.Ok? ==> StudentSheetsOf(lines, i + 1) == Ok(shNext) && Tracks(r.value, shNext)
  {
    ghost var l := lines[i];
    assert StudentSheetsOf(lines, i + 1) == AddTeam(l, sh);
    var escuela := Clean(row[SchoolCol]);
    var equipo := Clean(row[TeamCol]);
    var catTxt := Clean(row[CategoryCol]);
    assert escuela == School(l) && equipo == TeamName(l) && catTxt == Category(l);
    r, shNext := Ok(sheets), sh;
    if escuela == "" || equipo == "" {
      return;
    }
    var target := Route(catTxt);
    if target.Some? {
      var t := target.value;
      var cfg := WriteTeam(row, t, sheets[t]);
      if cfg.Err? {
        return Err(cfg.error), sh;
      }
      ghost var added := TeamRows(l, t, MaxSlots(t)).value;
      TracksGrow(sheets, sh, t, added);
      r := Ok(sheets[t := cfg.value]);
      shNext := sh.With(t, sh.Of(t) + added);
    }
  }

  /** The sheets of the dict, read back once the pass is over, are the headed category sheets. */
  lemma TracksHeaded(sheets: map<Target, SheetCursor>, sh: StudentSheets)
    requires Tracks(sheets, sh)
    ensures StudentSheets(sheets[Linea].obj, sheets[Laberinto].obj, sheets[Escenario].obj) == Headed(sh)
  {
    var students := StudentSheets(sheets[Linea].obj, sheets[Laberinto].obj, sheets[Escenario].obj);
    assert students.Of(Linea) == Headed(sh).Of(Linea);
    assert students.Of(Laberinto) == Headed(sh).Of(Laberinto);
    assert students.Of(Escenario) == Headed(sh).Of(Escenario);
  }

  /**
   * `generar_excel_resumen`: the advisor pass, then the student pass; the
   * first short block raises and no workbook is produced. The workbook and
   * the number of distinct advisor keys are the ones `Report` specifies.
   */
  method GenerateReport(rows: Grid) returns (r: Result<(Workbook, nat)>)
    requires Wide(rows, CoachEmailCol + 1)
    ensures Wide(CleanGrid(rows), CoachEmailCol + 1)
    ensures r == Report(CleanGrid(rows))
  {
    ghost var lines := CleanGrid(rows);
    var advisors, seen := WriteAdvisors(rows);
    var sheets := NewSheets();
    ghost var sh := StudentSheets([], [], []);
    for i := 0 to |rows|
      invariant StudentSheetsOf(lines, i) == Ok(sh)
      invariant Tracks(sheets, sh)
    {
      var next;
      next, sh := StudentRowPass(rows[i], lines, i, sheets, sh);
      if next.Err? {
        ErrorSticks(lines, i + 1, |rows|);
        return Err(next.error);
      }
      sheets := next.value;
    }
    var students := StudentSheets(sheets[Linea].obj, sheets[Laberinto].obj, sheets[Escenario].obj);
    TracksHeaded(sheets, sh);
    r := Ok((Workbook(advisors, students), |seen|));
  }
}
