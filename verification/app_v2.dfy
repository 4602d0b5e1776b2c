/**
 * The second version of the tool (`app_v2.py`): `procesar_equipos` reads
 * the roster with its first row as header and without forward fill, and
 * builds one bundle per team with a reserved-character folder name and all
 * five student slots; the coach e-mails go to the teams with an address
 * and at least one image.
 */
module AppV2 {
  import opened Cells
  import opened Layout
  import opened Folders
  import Roster
  import AppV3

  /** The folder name: the stripped label with each of `/ \ : * ? " < > |` turned into '-'. */
  function FolderName(l: Line): (name: string)
    requires |l| > CategoryCol
    ensures |name| == |FolderLabel(l)|
    ensures forall i :: 0 <= i < |name| ==> name[i] !in Reserved
  {
    ReservedFree(FolderLabel(l))
  }

  /** The bundle of one team row: no cap, every one of the five slots is looked at. */
  function BundleOf(l: Line, encode: string -> Bytes): (b: TeamBundle)
    requires |l| > CoachEmailCol
    ensures |b.images| <= 1 + SlotCount
  {
    MakeBundle(l, FolderName(l), SlotCount, encode)
  }

  /** The bundles of the first `n` data rows: one per team row, in row order. */
  function Bundles(lines: seq<Line>, n: nat, encode: string -> Bytes): (bs: seq<TeamBundle>)
    requires Wide(lines, CoachEmailCol + 1) && n <= |lines|
    ensures |bs| == CountTeams(lines, n)
  {
    if n == 0 then []
    else Bundles(lines, n - 1, encode) + (if IsTeamRow(lines[n - 1]) then [BundleOf(lines[n - 1], encode)] else [])
  }

  /** Team row `i` owns bundle number `CountTeams(lines, i)`. */
  lemma {:induction false} BundleAt(lines: seq<Line>, n: nat, i: nat, encode: string -> Bytes)
    requires Wide(lines, CoachEmailCol + 1) && i < n <= |lines| && IsTeamRow(lines[i])
    ensures CountTeams(lines, i) < |Bundles(lines, n, encode)|
    ensures Bundles(lines, n, encode)[CountTeams(lines, i)] == BundleOf(lines[i], encode)
  {
    var prev := Bundles(lines, n - 1, encode);
    var cur := Bundles(lines, n, encode);
    var j := CountTeams(lines, i);
    if i < n - 1 {
      BundleAt(lines, n - 1, i, encode);
      assert cur[..|prev|] == prev;
      assert j < |prev| <= |cur|;
      assert cur[j] == prev[j];
    } else {
      assert j == |prev|;
      assert cur == prev + [BundleOf(lines[i], encode)];
      assert |cur| == j + 1;
    }
  }

  /**
   * The image list of one team: the coach image when the phone is
   * non-empty, then the loop over `columnas_matriculas`.
   */
  method TeamImages(row: Row, ghost l: Line, celularAsesor: string, encode: string -> Bytes)
      returns (imagenesEquipo: seq<Image>)
    requires l == CleanRow(row) && |row| > CoachEmailCol && celularAsesor == Phone(l)
    ensures imagenesEquipo == CoachImages(l, encode) + StudentImages(l, SlotCount, encode)
  {
    imagenesEquipo := [];
    if celularAsesor != "" {
      imagenesEquipo := imagenesEquipo + [CoachImage(celularAsesor, encode)];
    }
    imagenesEquipo := AllSlotImages(row, l, imagenesEquipo, encode);
  }

  /**
   * The inner loop over `columnas_matriculas`: a student image for every
   * in-range slot whose matricula is non-empty, all five slots in order.
   */
  method AllSlotImages(row: Row, ghost l: Line, imgs0: seq<Image>, encode: string -> Bytes)
      returns (imagenesEquipo: seq<Image>)
    requires l == CleanRow(row) && |row| > PhoneCol && ImagesUpTo(l, 0, imgs0, encode)
    ensures ImagesUpTo(l, SlotCount, imagenesEquipo, encode)
  {
    imagenesEquipo := imgs0;
    for k := 0 to |MatriculaCols|
      invariant ImagesUpTo(l, k, imagenesEquipo, encode)
    {
      imagenesEquipo := AppendSlotImage(row, l, k, imagenesEquipo, encode);
    }
  }

  /**
   * The body of the row loop: nothing for a row without school or team;
   * otherwise the folder name rebound once per reserved character, the
   * coach e-mail and the team's images.
   */
  method RowBundle(row: Row, encode: string -> Bytes) returns (b: Option<TeamBundle>)
    requires |row| > CoachEmailCol
    ensures IsTeamRow(CleanRow(row)) ==> b == Some(BundleOf(CleanRow(row), encode))
    ensures !IsTeamRow(CleanRow(row)) ==> b == None
  {
    ghost var l := CleanRow(row);
    var escuela := Clean(row[SchoolCol]);
    var equipo := Clean(row[TeamCol]);
    var categoria := Clean(row[CategoryCol]);
    assert escuela == School(l) && equipo == TeamName(l) && categoria == Category(l);
    if escuela == "" || equipo == "" {
      return None;
    }
    var nombreCarpeta := Strip(escuela + " " + equipo + " " + categoria);
    nombreCarpeta := ReplaceReserved(nombreCarpeta);
    var celularAsesor := Clean(row[PhoneCol]);
    var correoAsesor := Clean(row[CoachEmailCol]);
    assert celularAsesor == Phone(l) && correoAsesor == CoachEmail(l);
    var imagenesEquipo := TeamImages(row, l, celularAsesor, encode);
    b := Some(TeamBundle(nombreCarpeta, escuela, equipo, correoAsesor, imagenesEquipo));
  }

  const ReadErrorPrefix: string := "Error al leer archivo: "

  /**
   * `procesar_equipos`: a sheet that cannot be read gives no teams and the
   * reader's message after a fixed prefix; otherwise the data rows (every
   * row after the header) give one bundle per team, and the message "Ok".
   */
  method ProcessTeams(read: Result<Grid>, encode: string -> Bytes) returns (teams: Option<seq<TeamBundle>>, message: string)
    requires read.Ok? ==> Wide(DropHeader(read.value), CoachEmailCol + 1)
    ensures read.Err? ==> teams == None && message == ReadErrorPrefix + read.error
    ensures read.Ok? ==> Wide(CleanGrid(DropHeader(read.value)), CoachEmailCol + 1)
    ensures read.Ok? ==> var lines := CleanGrid(DropHeader(read.value));
                         teams == Some(Bundles(lines, |lines|, encode)) && message == "Ok"
  {
    if read.Err? {
      return None, ReadErrorPrefix + read.error;
    }
    var df := DropHeader(read.value);
    ghost var lines := CleanGrid(df);
    CleanGridWide(df, CoachEmailCol + 1);
    var equiposProcesados: seq<TeamBundle> := [];
    for i := 0 to |df|
      invariant equiposProcesados == Bundles(lines, i, encode)
    {
      assert lines[i] == CleanRow(df[i]);
      var b := RowBundle(df[i], encode);
      if b.Some? {
        equiposProcesados := equiposProcesados + [b.value];
      }
    }
    return Some(equiposProcesados), "Ok";
  }

  /**
   * Team row `i`'s bundle: its folder keeps the label's length and holds
   * no reserved character; its images are the coach's (first, when the
   * phone is set) and one per filled slot of all five, so at most six.
   */
  lemma BundleShape(lines: seq<Line>, encode: string -> Bytes, i: nat)
    requires Wide(lines, CoachEmailCol + 1) && i < |lines| && IsTeamRow(lines[i])
    ensures CountTeams(lines, i) < |Bundles(lines, |lines|, encode)|
    ensures var b := Bundles(lines, |lines|, encode)[CountTeams(lines, i)];
            |b.folder| == |FolderLabel(lines[i])| && (forall k :: 0 <= k < |b.folder| ==> b.folder[k] !in Reserved)
            && b.school == School(lines[i]) && b.team == TeamName(lines[i]) && b.email == CoachEmail(lines[i])
            && |b.images| == |CoachImages(lines[i], encode)| + |FilledSlots(lines[i], SlotCount)| <= 6
            && (Phone(lines[i]) != "" <==> (b.images != [] && b.images[0] == CoachImage(Phone(lines[i]), encode)))
  {
    BundleAt(lines, |lines|, i, encode);
  }

  /**
   * Where the third version's cap is five (its category mentions
   * "escenario"), both versions give a team the same images; they differ
   * only in how the folder is sanitised.
   */
  lemma SameImagesAsCapped(l: Line, encode: string -> Bytes)
    requires |l| > CoachEmailCol && Contains(Lower(Category(l)), "escenario")
    ensures BundleOf(l, encode).images == Roster.BundleOf(l, encode).images
    ensures BundleOf(l, encode).folder == ReservedFree(FolderLabel(l))
    ensures Roster.BundleOf(l, encode).folder == AllowListed(FolderLabel(l))
  {
    assert Roster.BundleCap(Category(l)) == SlotCount;
  }

  // ---------------------------------------------------------------------
  // E-mail
  // ---------------------------------------------------------------------

  /** A bundle is mailed when its coach e-mail is non-empty, holds an at-sign, and it has an image. */
  predicate Mailable(b: TeamBundle) {
    HasAddress(b.email) && b.images != []
  }

  /** `equipos_validos`: the mailable bundles, in order. */
  function Ready(bs: seq<TeamBundle>): (r: seq<TeamBundle>)
    ensures |r| <= |bs|
    ensures forall b :: b in r ==> b in bs && Mailable(b)
    ensures forall b :: b in bs && Mailable(b) ==> b in r
  {
    if bs == [] then []
    else (if Mailable(bs[0]) then [bs[0]] else []) + Ready(bs[1..])
  }

  /**
   * A team without images is never mailed, even with a valid address;
   * this version is stricter than the third, which mails it an empty
   * message.
   */
  lemma EmptyTeamsSkipped(bs: seq<TeamBundle>)
    ensures forall b :: b in Ready(bs) ==> b.images != []
    ensures forall b :: b in Ready(bs) ==> b in AppV3.Ready(bs)
    ensures forall b :: b in AppV3.Ready(bs) && b.images != [] ==> b in Ready(bs)
  {
  }

  /** `f"{asunto} - {equipo['Equipo']}"`. */
  function Subject(asunto: string, team: string): (s: string)
    ensures |s| == |asunto| + 3 + |team| && s[..|asunto|] == asunto && s[|asunto| + 3..] == team
  {
    asunto + " - " + team
  }

  /**
   * The messages of the send loop, one per mailable bundle in order: to
   * `Correo_Coach`, with the typed subject and body and all the bundle's
   * images attached in order.
   */
  function Outbox(ready: seq<TeamBundle>, asunto: string, mensajeBase: string): (ms: seq<Message>)
    ensures |ms| == |ready|
    ensures forall i :: 0 <= i < |ready| ==>
              ms[i] == Message(ready[i].email, Subject(asunto, ready[i].team), mensajeBase, ready[i].images)
  {
    seq(|ready|, i requires 0 <= i < |ready| =>
      Message(ready[i].email, Subject(asunto, ready[i].team), mensajeBase, ready[i].images))
  }

  /** Every message of the send loop is addressed and carries at least one attachment. */
  lemma OutboxNonEmpty(bs: seq<TeamBundle>, asunto: string, mensajeBase: string)
    ensures forall m :: m in Outbox(Ready(bs), asunto, mensajeBase) ==> '@' in m.recipient && m.attachments != []
  {
    var ready := Ready(bs);
    var ms := Outbox(ready, asunto, mensajeBase);
    forall m | m in ms ensures '@' in m.recipient && m.attachments != [] {
      var i :| 0 <= i < |ms| && ms[i] == m;
      assert ready[i] in ready;
    }
  }
}
