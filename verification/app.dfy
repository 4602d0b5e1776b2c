/**
 * The first version of the tool (`app.py`): `procesar_excel_y_zip` reads
 * the roster with its first row as header and writes, straight into a zip
 * archive, one folder per team holding `<phone>.png` for the coach and
 * `<matricula>.png` for every student, renaming a name already written in
 * that folder to `<matricula>_duplicado.png`. It counts teams and images
 * and logs coach encoding failures.
 *
 * The QR encoder and the archive write are one step that may fail:
 * `encode` gives the bytes or the failure's message.
 */
module App {
  import opened Cells
  import opened Layout
  import opened Folders

  /** `zipfile.ZipFile` being written: its members in the order `writestr` added them. */
  class ZipArchive {
    var entries: seq<Entry>

    constructor ()
      ensures entries == []
    {
      entries := [];
    }

    /** `writestr(path, bytes)`: one more member at the end. */
    method WriteStr(path: string, bytes: Bytes)
      modifies this
      ensures entries == old(entries) + [Entry(path, bytes)]
    {
      entries := entries + [Entry(path, bytes)];
    }
  }

  // ---------------------------------------------------------------------
  // Specification of one team folder
  // ---------------------------------------------------------------------

  /** The folder so far: files written (name, bytes), the set of their names, and log lines. */
  datatype Folder = Folder(files: seq<Image>, written: set<string>, errors: seq<string>)

  /** The set holds exactly the names of the files written. */
  ghost predicate NamesTracked(f: Folder) {
    forall x :: x in f.written <==> exists a :: 0 <= a < |f.files| && f.files[a].name == x
  }

  /** `f"{matricula}.png"`, or `f"{matricula}_duplicado.png"` when that name is already in the folder. */
  function StudentFileName(written: set<string>, id: string): (name: string)
    ensures id + ".png" !in written ==> name == id + ".png"
    ensures id + ".png" in written ==> name == id + "_duplicado.png"
  {
    if id + ".png" in written then id + "_duplicado.png" else id + ".png"
  }

  /** The log line of a coach image that could not be produced. */
  function CoachError(team: string, e: string): (line: string)
    ensures |line| == 18 + |team| + |e|
    ensures line[..16] == "Error QR Asesor " && line[16..16 + |team|] == team
    ensures line[16 + |team|..18 + |team|] == ": " && line[18 + |team|..] == e
  {
    "Error QR Asesor " + team + ": " + e
  }

  /**
   * The coach step: with a non-empty phone, `<phone>.png` is written and
   * its name recorded, or the failure is logged and nothing is written.
   */
  function CoachFolder(l: Line, encode: string -> Result<Bytes>): (f: Folder)
    requires |l| > PhoneCol
    ensures |f.files| <= 1 && |f.errors| <= 1
    ensures Phone(l) == "" ==> f == Folder([], {}, [])
    ensures Phone(l) != "" && encode(Phone(l)).Ok? ==>
              f.files == [Image(Phone(l) + ".png", encode(Phone(l)).value)] && f.errors == []
    ensures Phone(l) != "" && encode(Phone(l)).Err? ==>
              f.files == [] && f.errors == [CoachError(TeamName(l), encode(Phone(l)).error)]
  {
    if Phone(l) == "" then Folder([], {}, [])
    else
      match encode(Phone(l))
      case Ok(bytes) => Folder([Image(Phone(l) + ".png", bytes)], {Phone(l) + ".png"}, [])
      case Err(e) => Folder([], {}, [CoachError(TeamName(l), e)])
  }

  /**
   * The folder after the coach and slots `0 .. n-1`: a filled slot is
   * written under its (possibly renamed) name and the name recorded, or
   * silently skipped when encoding fails; empty and out-of-range slots
   * add nothing.
   */
  function FolderFiles(l: Line, n: nat, encode: string -> Result<Bytes>): (f: Folder)
    requires |l| > PhoneCol && n <= SlotCount
    ensures |f.files| <= 1 + n && |f.errors| <= 1
  {
    if n == 0 then CoachFolder(l, encode)
    else
      var f := FolderFiles(l, n - 1, encode);
      var id := SlotId(l, n - 1);
      if id == "" then f
      else
        var name := StudentFileName(f.written, id);
        match encode(id)
        case Err(_) => f
        case Ok(bytes) => Folder(f.files + [Image(name, bytes)], f.written + {name}, f.errors)
  }

  /** `archivos_en_carpeta` holds exactly the names of the files written to the folder. */
  lemma {:induction false} FolderNamesTracked(l: Line, n: nat, encode: string -> Result<Bytes>)
    requires |l| > PhoneCol && n <= SlotCount
    ensures NamesTracked(FolderFiles(l, n, encode))
  {
    var g := FolderFiles(l, n, encode);
    if n == 0 {
      if g.files != [] {
        assert g.files[0].name == Phone(l) + ".png";
      }
    } else {
      FolderNamesTracked(l, n - 1, encode);
      var f := FolderFiles(l, n - 1, encode);
      var id := SlotId(l, n - 1);
      if id != "" && encode(id).Ok? {
        var name := StudentFileName(f.written, id);
        assert g.files == f.files + [Image(name, encode(id).value)];
        assert g.written == f.written + {name};
        forall x ensures x in g.written <==> exists a :: 0 <= a < |g.files| && g.files[a].name == x {
          if x in f.written {
            var a :| 0 <= a < |f.files| && f.files[a].name == x;
            assert g.files[a].name == x;
          }
          if x == name {
            assert g.files[|f.files|].name == x;
          }
          if exists a :: 0 <= a < |g.files| && g.files[a].name == x {
            var a :| 0 <= a < |g.files| && g.files[a].name == x;
            if a < |f.files| {
              assert f.files[a].name == x;
            }
          }
        }
      } else {
        assert g == f;
      }
    }
  }

  /**
   * Two files of one folder share a name only when the later one is a
   * renamed `_duplicado` file: a plain `<name>.png` is never written twice.
   */
  lemma {:induction false} OnlyRenamedCollide(l: Line, n: nat, encode: string -> Result<Bytes>)
    requires |l| > PhoneCol && n <= SlotCount
    ensures OnlyRenamedRepeat(FolderFiles(l, n, encode).files)
  {
    if n > 0 {
      OnlyRenamedCollide(l, n - 1, encode);
      var id := SlotId(l, n - 1);
      if id != "" && encode(id).Ok? {
        RenamedStep(l, n, encode);
      } else {
        assert FolderFiles(l, n, encode) == FolderFiles(l, n - 1, encode);
      }
    }
  }

  /** A later file repeats an earlier file's name only when it is a renamed one. */
  predicate OnlyRenamedRepeat(fs: seq<Image>) {
    forall a, b :: 0 <= a < b < |fs| && fs[a].name == fs[b].name ==> EndsWith(fs[b].name, "_duplicado.png")
  }

  /** The step of `OnlyRenamedCollide` for a slot whose file is written. */
  lemma RenamedStep(l: Line, n: nat, encode: string -> Result<Bytes>)
    requires |l| > PhoneCol && 0 < n <= SlotCount
    requires SlotId(l, n - 1) != "" && encode(SlotId(l, n - 1)).Ok?
    requires OnlyRenamedRepeat(FolderFiles(l, n - 1, encode).files)
    ensures OnlyRenamedRepeat(FolderFiles(l, n, encode).files)
  {
    FolderNamesTracked(l, n - 1, encode);
    var f := FolderFiles(l, n - 1, encode);
    var g := FolderFiles(l, n, encode);
    var id := SlotId(l, n - 1);
    var name := StudentFileName(f.written, id);
    assert g.files == f.files + [Image(name, encode(id).value)];
    forall a, b | 0 <= a < b < |g.files| && g.files[a].name == g.files[b].name
      ensures EndsWith(g.files[b].name, "_duplicado.png")
    {
      if b == |f.files| {
        assert f.files[a].name == name;
        assert name in f.written;
        assert id + ".png" in f.written;
        var d := id + "_duplicado.png";
        assert name == d;
        assert d[|d| - 14..] == "_duplicado.png";
      } else {
        assert g.files[a] == f.files[a] && g.files[b] == f.files[b];
      }
    }
  }

  /** A slot id equal to the coach's phone is written as `<phone>_duplicado.png`. */
  lemma CoachNameReserved(l: Line, encode: string -> Result<Bytes>)
    requires |l| > PhoneCol && Phone(l) != "" && encode(Phone(l)).Ok?
    ensures Phone(l) + ".png" in CoachFolder(l, encode).written
    ensures StudentFileName(CoachFolder(l, encode).written, Phone(l)) == Phone(l) + "_duplicado.png"
  {
  }

  /**
   * The check is one level deep: the same matricula in three slots gives
   * `7.png`, then `7_duplicado.png` twice.
   */
  lemma ThirdCopyCollides(l: Line, encode: string -> Result<Bytes>)
    requires |l| > MatriculaCol(2) && Phone(l) == ""
    requires SlotId(l, 0) == "7" && SlotId(l, 1) == "7" && SlotId(l, 2) == "7"
    requires encode("7").Ok?
    ensures var fs := FolderFiles(l, 3, encode).files;
            |fs| == 3 && fs[0].name == "7.png" && fs[1].name == "7_duplicado.png" && fs[2].name == "7_duplicado.png"
  {
    var bytes := encode("7").value;
    var f0 := FolderFiles(l, 0, encode);
    assert f0 == Folder([], {}, []);
    assert StudentFileName(f0.written, "7") == "7.png";
    var f1 := FolderFiles(l, 1, encode);
    assert f1 == Folder([Image("7.png", bytes)], {"7.png"}, []);
    assert StudentFileName(f1.written, "7") == "7_duplicado.png";
    var f2 := FolderFiles(l, 2, encode);
    assert f2 == Folder([Image("7.png", bytes), Image("7_duplicado.png", bytes)], {"7.png", "7_duplicado.png"}, []);
    assert StudentFileName(f2.written, "7") == "7_duplicado.png";
  }

  // ---------------------------------------------------------------------
  // Specification of the whole archive
  // ---------------------------------------------------------------------

  /** The folder name: the stripped label with each reserved character turned into '-'. */
  function FolderName(l: Line): (name: string)
    requires |l| > CategoryCol
    ensures |name| == |FolderLabel(l)|
    ensures forall i :: 0 <= i < |name| ==> name[i] !in Reserved
  {
    ReservedFree(FolderLabel(l))
  }

  /** What the pass has produced so far: the members written, the two counters and the log. */
  datatype Outcome = Outcome(entries: seq<Entry>, teams: nat, images: nat, errors: seq<string>)

  /**
   * The pass over the first `n` data rows: every team row adds its folder's
   * members, one team and as many images as members.
   */
  function ZipRows(lines: seq<Line>, n: nat, encode: string -> Result<Bytes>): (o: Outcome)
    requires Wide(lines, PhoneCol + 1) && n <= |lines|
    ensures o.teams == CountTeams(lines, n)
    ensures o.images == |o.entries| <= 6 * o.teams
    ensures |o.errors| <= o.teams
  {
    if n == 0 then Outcome([], 0, 0, [])
    else
      var o := ZipRows(lines, n - 1, encode);
      var l := lines[n - 1];
      if !IsTeamRow(l) then o
      else
        var f := FolderFiles(l, SlotCount, encode);
        Outcome(o.entries + FolderEntries(FolderName(l), f.files), o.teams + 1, o.images + |f.files|, o.errors + f.errors)
  }

  /** Decimal digits of a natural number, as f-strings print it. */
  function Decimal(n: nat): (s: string)
    ensures |s| >= 1 && forall i :: 0 <= i < |s| ==> '0' <= s[i] <= '9'
  {
    if n < 10 then [Digit(n)] else Decimal(n / 10) + [Digit(n % 10)]
  }

  function Digit(d: nat): (c: char)
    requires d < 10
    ensures '0' <= c <= '9' && c as int - '0' as int == d
  {
    ['0', '1', '2', '3', '4', '5', '6', '7', '8', '9'][d]
  }

  /** The value of a string of decimal digits. */
  function DigitsValue(s: string): nat
    requires forall i :: 0 <= i < |s| ==> '0' <= s[i] <= '9'
  {
    if s == [] then 0 else 10 * DigitsValue(s[..|s| - 1]) + (s[|s| - 1] as int - '0' as int)
  }

  /** Printing a count and reading it back gives the count; only zero starts with '0'. */
  lemma {:induction false} DecimalRoundTrip(n: nat)
    ensures DigitsValue(Decimal(n)) == n
    ensures Decimal(n)[0] == '0' ==> n == 0
  {
    var s := Decimal(n);
    if n < 10 {
      assert s == [Digit(n)] && s[..0] == [];
    } else {
      DecimalRoundTrip(n / 10);
      assert s == Decimal(n / 10) + [Digit(n % 10)];
      assert s[..|s| - 1] == Decimal(n / 10);
      assert s[0] == Decimal(n / 10)[0];
      assert DigitsValue(s) == 10 * (n / 10) + n % 10;
    }
  }

  const CompletedHead: string := "Proceso completado. "
  const CompletedMiddle: string := " equipos procesados, "
  const CompletedTail: string := " imágenes generadas."

  /**
   * The completion message: the head, the team count in decimal, the
   * middle, the image count in decimal and the tail; both counts can be
   * cut back out of it.
   */
  function Completed(teams: nat, images: nat): (msg: string)
    ensures var h, dt := CompletedHead, Decimal(teams);
            |msg| >= |h| + |dt| && msg[..|h|] == h && msg[|h|..|h| + |dt|] == dt
    ensures var t, di := CompletedTail, Decimal(images);
            |msg| >= |di| + |t| && msg[|msg| - |t|..] == t && msg[|msg| - |t| - |di|..|msg| - |t|] == di
  {
    SplitParts(CompletedHead, Decimal(teams), CompletedMiddle, Decimal(images), CompletedTail);
    CompletedHead + Decimal(teams) + CompletedMiddle + Decimal(images) + CompletedTail
  }

  /** The first two and the last two parts of a five-part text can be cut back out of it. */
  lemma SplitParts(a: string, b: string, c: string, d: string, e: string)
    ensures var m := a + b + c + d + e;
            m[..|a|] == a && m[|a|..|a| + |b|] == b
            && m[|m| - |e|..] == e && m[|m| - |e| - |d|..|m| - |e|] == d
  {
    var m := a + b + c + d + e;
    assert m == a + (b + c + d + e);
    assert m == (a + b + c + d) + e;
    assert a + b + c + d == (a + b + c) + d;
  }

  const ReadErrorPrefix: string := "Error al leer el archivo: "

  // ---------------------------------------------------------------------
  // The imperative pass
  // ---------------------------------------------------------------------

  /**
   * The coach block: with a non-empty phone, encode and write
   * `<folder>/<phone>.png`, record the name and count the image, or log
   * the failure.
   */
  method WriteCoach(zip: ZipArchive, ghost l: Line, nombreCarpeta: string, equipo: string, celularAsesor: string,
                    encode: string -> Result<Bytes>)
      returns (archivos: set<string>, added: nat, errors: seq<string>)
    requires |l| > PhoneCol && celularAsesor == Phone(l) && equipo == TeamName(l)
    modifies zip
    ensures var f := CoachFolder(l, encode);
            zip.entries == old(zip.entries) + FolderEntries(nombreCarpeta, f.files)
            && archivos == f.written && added == |f.files| && errors == f.errors
  {
    archivos, added, errors := {}, 0, [];
    if celularAsesor != "" {
      var nombreArchivo := celularAsesor + ".png";
      var rutaZip := nombreCarpeta + "/" + nombreArchivo;
      var qr := encode(celularAsesor);
      if qr.Ok? {
        zip.WriteStr(rutaZip, qr.value);
        archivos := archivos + {nombreArchivo};
        added := added + 1;
        assert FolderEntries(nombreCarpeta, [Image(nombreArchivo, qr.value)]) == [Entry(rutaZip, qr.value)];
      } else {
        errors := errors + [CoachError(equipo, qr.error)];
      }
    }
  }

  /**
   * The folder after its coach block and matricula columns `0 .. k-1`:
   * the archive holds what it held before the folder followed by the
   * folder's files so far, `archivos_en_carpeta` their names, the image
   * counter their number and the error log the coach failure, if any.
   */
  ghost predicate SlotsWritten(l: Line, k: nat, encode: string -> Result<Bytes>, nombreCarpeta: string,
                               start: seq<Entry>, entries: seq<Entry>, archivos: set<string>, added: nat,
                               errors: seq<string>)
    requires |l| > PhoneCol && k <= SlotCount
  {
    var f := FolderFiles(l, k, encode);
    entries == start + FolderEntries(nombreCarpeta, f.files)
    && archivos == f.written && added == |f.files| && errors == f.errors
  }

  /**
   * Matricula column `k` of one team folder: an in-range non-empty
   * matricula is encoded and written under its name, or its `_duplicado`
   * name when that one is already in the folder; a failed image is skipped.
   */
  method WriteSlot(zip: ZipArchive, row: Row, ghost l: Line, k: nat, nombreCarpeta: string,
                   archivos: set<string>, added: nat, ghost errors: seq<string>, ghost start: seq<Entry>,
                   encode: string -> Result<Bytes>)
      returns (archivosNext: set<string>, addedNext: nat)
    requires l == CleanRow(row) && |row| > PhoneCol && k < SlotCount
    requires SlotsWritten(l, k, encode, nombreCarpeta, start, zip.entries, archivos, added, errors)
    modifies zip
    ensures SlotsWritten(l, k + 1, encode, nombreCarpeta, start, zip.entries, archivosNext, addedNext, errors)
  {
    ghost var f := FolderFiles(l, k, encode);
    archivosNext, addedNext := archivos, added;
    var colIdx := MatriculaCols[k];
    if colIdx < |row| {
      var matricula := Clean(row[colIdx]);
      assert matricula == SlotId(l, k);
      if matricula != "" {
        var nombreArchivo := matricula + ".png";
        if nombreArchivo in archivos {
          nombreArchivo := matricula + "_duplicado.png";
        }
        assert nombreArchivo == StudentFileName(f.written, matricula);
        var rutaZip := nombreCarpeta + "/" + nombreArchivo;
        var qr := encode(matricula);
        if qr.Ok? {
          zip.WriteStr(rutaZip, qr.value);
          FolderEntriesAppend(nombreCarpeta, f.files, Image(nombreArchivo, qr.value));
          assert start + FolderEntries(nombreCarpeta, f.files) + [Entry(rutaZip, qr.value)]
              == start + (FolderEntries(nombreCarpeta, f.files) + [Entry(rutaZip, qr.value)]);
          archivosNext := archivos + {nombreArchivo};
          addedNext := added + 1;
        }
      }
    }
  }

  /**
   * One team folder: the coach block, then the five matricula columns in
   * order.
   */
  method WriteFolder(zip: ZipArchive, row: Row, ghost l: Line, nombreCarpeta: string, equipo: string,
                     encode: string -> Result<Bytes>)
      returns (added: nat, errors: seq<string>)
    requires l == CleanRow(row) && |row| > PhoneCol && equipo == TeamName(l)
    modifies zip
    ensures var f := FolderFiles(l, SlotCount, encode);
            zip.entries == old(zip.entries) + FolderEntries(nombreCarpeta, f.files)
            && added == |f.files| && errors == f.errors
  {
    var celularAsesor := Clean(row[PhoneCol]);
    assert celularAsesor == Phone(l);
    var archivosEnCarpeta;
    archivosEnCarpeta, added, errors := WriteCoach(zip, l, nombreCarpeta, equipo, celularAsesor, encode);
    ghost var start := old(zip.entries);
    for k := 0 to |MatriculaCols|
      invariant SlotsWritten(l, k, encode, nombreCarpeta, start, zip.entries, archivosEnCarpeta, added, errors)
    {
      archivosEnCarpeta, added := WriteSlot(zip, row, l, k, nombreCarpeta, archivosEnCarpeta, added, errors, start, encode);
    }
  }

  /**
   * The body of the row loop for a team row: the folder name rebound once
   * per reserved character, then the folder's members.
   */
  method WriteTeamRow(zip: ZipArchive, row: Row, ghost l: Line, escuela: string, equipo: string, categoria: string,
                      encode: string -> Result<Bytes>)
      returns (added: nat, errors: seq<string>)
    requires l == CleanRow(row) && |row| > PhoneCol
    requires escuela == School(l) && equipo == TeamName(l) && categoria == Category(l)
    modifies zip
    ensures var f := FolderFiles(l, SlotCount, encode);
            zip.entries == old(zip.entries) + FolderEntries(FolderName(l), f.files)
            && added == |f.files| && errors == f.errors
  {
    var nombreCarpeta := Strip(escuela + " " + equipo + " " + categoria);
    nombreCarpeta := ReplaceReserved(nombreCarpeta);
    added, errors := WriteFolder(zip, row, l, nombreCarpeta, equipo, encode);
  }

  /**
   * The body of the row loop on data row `i`: a row without school or
   * team is skipped; a team is counted and gets its folder, its images
   * are counted and its coach failure logged.
   */
  method RowPass(zip: ZipArchive, row: Row, ghost lines: seq<Line>, ghost i: nat,
                 totalEquipos: nat, totalImagenes: nat, logErrores: seq<string>, encode: string -> Result<Bytes>)
      returns (equiposNext: nat, imagenesNext: nat, logNext: seq<string>)
    requires Wide(lines, PhoneCol + 1) && i < |lines| && lines[i] == CleanRow(row)
    requires var o := ZipRows(lines, i, encode);
             zip.entries == o.entries && totalEquipos == o.teams && totalImagenes == o.images && logErrores == o.errors
    modifies zip
    ensures var o := ZipRows(lines, i + 1, encode);
            zip.entries == o.entries && equiposNext == o.teams && imagenesNext == o.images && logNext == o.errors
  {
    ghost var l := lines[i];
    var escuela := Clean(row[SchoolCol]);
    var equipo := Clean(row[TeamCol]);
    var categoria := Clean(row[CategoryCol]);
    assert escuela == School(l) && equipo == TeamName(l) && categoria == Category(l);
    equiposNext, imagenesNext, logNext := totalEquipos, totalImagenes, logErrores;
    if escuela == "" || equipo == "" {
      return;
    }
    equiposNext := totalEquipos + 1;
    var added, errors := WriteTeamRow(zip, row, l, escuela, equipo, categoria, encode);
    imagenesNext := totalImagenes + added;
    logNext := logErrores + errors;
  }

  /**
   * `procesar_excel_y_zip`: a sheet that cannot be read gives no archive
   * and the reader's message after a fixed prefix; otherwise every data
   * row (every row after the header) with school and team is counted and
   * gets its folder, and the message reports the two counters. The log
   * of coach failures is returned beside them.
   */
  method ProcessExcelAndZip(read: Result<Grid>, encode: string -> Result<Bytes>)
      returns (archive: Option<seq<Entry>>, message: string, log: seq<string>)
    requires read.Ok? ==> Wide(DropHeader(read.value), PhoneCol + 1)
    ensures read.Err? ==> archive == None && message == ReadErrorPrefix + read.error && log == []
    ensures read.Ok? ==> Wide(CleanGrid(DropHeader(read.value)), PhoneCol + 1)
    ensures read.Ok? ==> var lines := CleanGrid(DropHeader(read.value));
                         var o := ZipRows(lines, |lines|, encode);
                         archive == Some(o.entries) && message == Completed(o.teams, o.images) && log == o.errors
  {
    if read.Err? {
      return None, ReadErrorPrefix + read.error, [];
    }
    var df := DropHeader(read.value);
    ghost var lines := CleanGrid(df);
    CleanGridWide(df, PhoneCol + 1);
    var zipFile := new ZipArchive();
    var logErrores: seq<string> := [];
    var totalEquipos := 0;
    var totalImagenes := 0;
    for i := 0 to |df|
      invariant var o := ZipRows(lines, i, encode);
                zipFile.entries == o.entries && totalEquipos == o.teams && totalImagenes == o.images
                && logErrores == o.errors
    {
      totalEquipos, totalImagenes, logErrores := RowPass(zipFile, df[i], lines, i, totalEquipos, totalImagenes, logErrores, encode);
    }
    return Some(zipFile.entries), Completed(totalEquipos, totalImagenes), logErrores;
  }
}
