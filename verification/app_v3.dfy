/**
 * The third version of the tool (`app_v3.py`): the team bundles for the
 * zip archive and the coach e-mails. Cleaning, loading and the report are
 * the ones of `Roster` and `Summary`.
 */
module AppV3 {
  import opened Cells
  import opened Layout
  import opened Folders
  import opened Roster

  /**
   * The body of the row loop of `procesar_logica_zip_correo`: nothing for
   * a row without school or team; otherwise the allow-listed folder, the
   * school, team and coach e-mail, and the capped image list.
   */
  method RowBundle(row: Row, encode: string -> Bytes) returns (b: Option<TeamBundle>)
    requires |row| > CoachEmailCol
    ensures IsTeamRow(CleanRow(row)) ==> b == Some(BundleOf(CleanRow(row), encode))
    ensures !IsTeamRow(CleanRow(row)) ==> b == None
  {
    ghost var l := CleanRow(row);
    var escuela := Clean(row[SchoolCol]);
    var equipo := Clean(row[TeamCol]);
    var categoria := Clean(row[CategoryCol]);
    assert escuela == School(l) && equipo == TeamName(l) && categoria == Category(l);
    if escuela == "" || equipo == "" {
      return None;
    }
    var nombreCarpeta := Strip(escuela + " " + equipo + " " + categoria);
    nombreCarpeta := AllowListed(nombreCarpeta);
    var celularAsesor := Clean(row[PhoneCol]);
    var correoAsesor := Clean(row[CoachEmailCol]);
    assert celularAsesor == Phone(l) && correoAsesor == CoachEmail(l);
    var imgs := TeamImages(row, l, categoria, celularAsesor, encode);
    b := Some(TeamBundle(nombreCarpeta, escuela, equipo, correoAsesor, imgs));
  }

  /**
   * `procesar_logica_zip_correo`: one bundle per team row, in row order,
   * whatever the row's category.
   */
  method BuildBundles(rows: Grid, encode: string -> Bytes) returns (equipos: seq<TeamBundle>)
    requires Wide(rows, CoachEmailCol + 1)
    ensures Wide(CleanGrid(rows), CoachEmailCol + 1)
    ensures equipos == Bundles(CleanGrid(rows), |rows|, encode)
  {
    ghost var lines := CleanGrid(rows);
    CleanGridWide(rows, CoachEmailCol + 1);
    equipos := [];
    for i := 0 to |rows|
      invariant equipos == Bundles(lines, i, encode)
    {
      assert lines[i] == CleanRow(rows[i]);
      var b := RowBundle(rows[i], encode);
      if b.Some? {
        equipos := equipos + [b.value];
      }
    }
  }

  /**
   * Team row `i`'s bundle: its school, team and coach e-mail, at most
   * `1 + max_al` (so six) images, the coach's first when the phone is set,
   * and the students' in slot order.
   */
  lemma BundleImages(lines: seq<Line>, encode: string -> Bytes, i: nat)
    requires Wide(lines, CoachEmailCol + 1) && i < |lines| && IsTeamRow(lines[i])
    ensures CountTeams(lines, i) < |Bundles(lines, |lines|, encode)|
    ensures var b := Bundles(lines, |lines|, encode)[CountTeams(lines, i)];
            var cap := BundleCap(Category(lines[i]));
            b.school == School(lines[i]) && b.team == TeamName(lines[i]) && b.email == CoachEmail(lines[i])
            && |b.images| <= 1 + cap <= 6
            && (Phone(lines[i]) != "" <==> (b.images != [] && b.images[0] == CoachImage(Phone(lines[i]), encode)))
            && |b.images| == |CoachImages(lines[i], encode)| + |FilledSlots(lines[i], cap)|
            && b.images[|CoachImages(lines[i], encode)|..] == StudentImages(lines[i], cap, encode)
  {
    BundleAt(lines, |lines|, i, encode);
    var l := lines[i];
    var cap := BundleCap(Category(l));
    var b := BundleOf(l, encode);
    assert b.images == CoachImages(l, encode) + StudentImages(l, cap, encode);
  }

  // ---------------------------------------------------------------------
  // E-mail
  // ---------------------------------------------------------------------

  /** `validos`: the bundles whose `Correo_Coach` is non-empty and holds an at-sign, in order. */
  function Ready(bs: seq<TeamBundle>): (r: seq<TeamBundle>)
    ensures |r| <= |bs|
    ensures forall b :: b in r ==> b in bs && HasAddress(b.email)
    ensures forall b :: b in bs && HasAddress(b.email) ==> b in r
  {
    if bs == [] then []
    else (if HasAddress(bs[0].email) then [bs[0]] else []) + Ready(bs[1..])
  }

  /** Filtering keeps the order: the selection of a concatenation is the concatenation of the selections. */
  lemma {:induction false} ReadyAppend(a: seq<TeamBundle>, b: seq<TeamBundle>)
    ensures Ready(a + b) == Ready(a) + Ready(b)
  {
    if a != [] {
      assert (a + b)[1..] == a[1..] + b;
      ReadyAppend(a[1..], b);
    } else {
      assert a + b == b;
    }
  }

  /** The fixed subject `f"QRs - {eq['Equipo']}"`. */
  function Subject(team: string): (s: string)
    ensures |s| == 6 + |team| && s[..6] == "QRs - " && s[6..] == team
  {
    "QRs - " + team
  }

  const Body: string := "Adjunto QRs."

  /**
   * The messages of the send loop, one per selected bundle in order: to
   * `Correo_Coach`, with the fixed subject and body and the bundle's
   * images attached in order.
   */
  function Outbox(ready: seq<TeamBundle>): (ms: seq<Message>)
    ensures |ms| == |ready|
    ensures forall i :: 0 <= i < |ready| ==> ms[i] == Message(ready[i].email, Subject(ready[i].team), Body, ready[i].images)
  {
    seq(|ready|, i requires 0 <= i < |ready| => Message(ready[i].email, Subject(ready[i].team), Body, ready[i].images))
  }

  /**
   * The messages reach exactly the addressed teams: each message goes to a
   * bundle with an at-sign in its e-mail, and every such bundle gets one.
   */
  lemma OutboxCoversReady(bs: seq<TeamBundle>)
    ensures forall m :: m in Outbox(Ready(bs)) ==>
              '@' in m.recipient && exists b :: b in bs && m == Message(b.email, Subject(b.team), Body, b.images)
    ensures forall b :: b in bs && '@' in b.email ==> Message(b.email, Subject(b.team), Body, b.images) in Outbox(Ready(bs))
  {
    var ready := Ready(bs);
    var ms := Outbox(ready);
    forall m | m in ms
      ensures '@' in m.recipient && exists b :: b in bs && m == Message(b.email, Subject(b.team), Body, b.images)
    {
      var i :| 0 <= i < |ms| && ms[i] == m;
      assert ready[i] in ready;
    }
    forall b | b in bs && '@' in b.email
      ensures Message(b.email, Subject(b.team), Body, b.images) in ms
    {
      HasAddressIffAt(b.email);
      var i :| 0 <= i < |ready| && ready[i] == b;
      assert ms[i] == Message(b.email, Subject(b.team), Body, b.images);
    }
  }
}
