/**
 * The fifth version of the tool (`app_v5.py`): the team bundles for the
 * zip archive and the coach e-mails. Cleaning, loading and the report are
 * the ones of `Roster` and `Summary`.
 *
 * The version keeps only four fields per team: folder, team, coach e-mail
 * and images (no school).
 */
module AppV5 {
  import opened Cells
  import opened Layout
  import opened Folders
  import opened Roster

  /** The dict `{"Carpeta", "Equipo", "Correo", "Imagenes"}`. */
  datatype Bundle = Bundle(folder: string, team: string, email: string, images: seq<Image>)

  /** The fields of a full bundle that this version keeps. */
  function Slim(b: TeamBundle): (r: Bundle)
    ensures r.folder == b.folder && r.team == b.team && r.email == b.email && r.images == b.images
  {
    Bundle(b.folder, b.team, b.email, b.images)
  }

  /** The specified bundles of this version: the capped bundles of `Roster`, in the slim record. */
  function SlimAll(bs: seq<TeamBundle>): (r: seq<Bundle>)
    ensures |r| == |bs| && forall i :: 0 <= i < |bs| ==> r[i] == Slim(bs[i])
  {
    seq(|bs|, i requires 0 <= i < |bs| => Slim(bs[i]))
  }

  /** Appending one bundle appends its slim record. */
  lemma SlimAllAppend(bs: seq<TeamBundle>, b: TeamBundle)
    ensures SlimAll(bs + [b]) == SlimAll(bs) + [Slim(b)]
  {
  }

  /**
   * The body of the row loop of `procesar_zip_correo`: nothing for a row
   * without school or team; otherwise the allow-listed folder, the coach
   * e-mail and the team's images.
   */
  method RowBundle(row: Row, encode: string -> Bytes) returns (b: Option<Bundle>)
    requires |row| > CoachEmailCol
    ensures IsTeamRow(CleanRow(row)) ==> b == Some(Slim(BundleOf(CleanRow(row), encode)))
    ensures !IsTeamRow(CleanRow(row)) ==> b == None
  {
    ghost var l := CleanRow(row);
    var esc := Clean(row[SchoolCol]);
    var eq := Clean(row[TeamCol]);
    var cat := Clean(row[CategoryCol]);
    assert esc == School(l) && eq == TeamName(l) && cat == Category(l);
    if esc == "" || eq == "" {
      return None;
    }
    var nomCarpeta := AllowListed(Strip(esc + " " + eq + " " + cat));
    var celCoach := Clean(row[PhoneCol]);
    var mailCoach := Clean(row[CoachEmailCol]);
    assert celCoach == Phone(l) && mailCoach == CoachEmail(l);
    var imgs := TeamImages(row, l, cat, celCoach, encode);
    b := Some(Bundle(nomCarpeta, eq, mailCoach, imgs));
  }

  /**
   * `procesar_zip_correo`: one bundle per team row, in row order, whatever
   * the row's category.
   */
  method BuildBundles(rows: Grid, encode: string -> Bytes) returns (equipos: seq<Bundle>)
    requires Wide(rows, CoachEmailCol + 1)
    ensures Wide(CleanGrid(rows), CoachEmailCol + 1)
    ensures equipos == SlimAll(Bundles(CleanGrid(rows), |rows|, encode))
  {
    ghost var lines := CleanGrid(rows);
    CleanGridWide(rows, CoachEmailCol + 1);
    equipos := [];
    for i := 0 to |rows|
      invariant equipos == SlimAll(Bundles(lines, i, encode))
    {
      assert lines[i] == CleanRow(rows[i]);
      var b := RowBundle(rows[i], encode);
      ghost var before := Bundles(lines, i, encode);
      if b.Some? {
        assert Bundles(lines, i + 1, encode) == before + [BundleOf(lines[i], encode)];
        SlimAllAppend(before, BundleOf(lines[i], encode));
        equipos := equipos + [b.value];
      } else {
        assert Bundles(lines, i + 1, encode) == before;
      }
    }
  }

  /** The bundles of a roster have at most six images each, the coach's first. */
  lemma BundleImages(lines: seq<Line>, encode: string -> Bytes, i: nat)
    requires Wide(lines, CoachEmailCol + 1) && i < |lines| && IsTeamRow(lines[i])
    ensures CountTeams(lines, i) < |Bundles(lines, |lines|, encode)|
    ensures var b := SlimAll(Bundles(lines, |lines|, encode))[CountTeams(lines, i)];
            b.team == TeamName(lines[i]) && b.email == CoachEmail(lines[i])
            && |b.images| <= 1 + BundleCap(Category(lines[i])) <= 6
            && (Phone(lines[i]) != "" <==> (b.images != [] && b.images[0] == CoachImage(Phone(lines[i]), encode)))
  {
    BundleAt(lines, |lines|, i, encode);
  }

  // ---------------------------------------------------------------------
  // Archive and e-mail
  // ---------------------------------------------------------------------

  /** The zip members: for each bundle in order, `Carpeta/name` for each of its images. */
  function Archive(bs: seq<Bundle>): (es: seq<Entry>)
  {
    if bs == [] then [] else FolderEntries(bs[0].folder, bs[0].images) + Archive(bs[1..])
  }

  /** The number of images over all bundles. */
  function ImageCount(bs: seq<Bundle>): nat {
    if bs == [] then 0 else |bs[0].images| + ImageCount(bs[1..])
  }

  /** The archive holds one member per image, and the first bundle's members come first, in order. */
  lemma {:induction false} ArchiveSize(bs: seq<Bundle>)
    ensures |Archive(bs)| == ImageCount(bs)
    ensures bs != [] ==> Archive(bs)[..|bs[0].images|] == FolderEntries(bs[0].folder, bs[0].images)
  {
    if bs != [] {
      ArchiveSize(bs[1..]);
    }
  }

  /** `validos`: the bundles whose coach e-mail is non-empty and holds an at-sign, in order. */
  function Ready(bs: seq<Bundle>): (r: seq<Bundle>)
    ensures |r| <= |bs|
    ensures forall b :: b in r ==> b in bs && HasAddress(b.email)
    ensures forall b :: b in bs && HasAddress(b.email) ==> b in r
  {
    if bs == [] then []
    else (if HasAddress(bs[0].email) then [bs[0]] else []) + Ready(bs[1..])
  }

  /** Filtering keeps the order: the selection of a concatenation is the concatenation of the selections. */
  lemma {:induction false} ReadyAppend(a: seq<Bundle>, b: seq<Bundle>)
    ensures Ready(a + b) == Ready(a) + Ready(b)
  {
    if a != [] {
      assert (a + b)[1..] == a[1..] + b;
      ReadyAppend(a[1..], b);
    } else {
      assert a + b == b;
    }
  }

  /** Selecting twice is selecting once. */
  lemma {:induction false} ReadyIdempotent(bs: seq<Bundle>)
    ensures Ready(Ready(bs)) == Ready(bs)
  {
    if bs != [] {
      var rest := Ready(bs[1..]);
      ReadyIdempotent(bs[1..]);
      if HasAddress(bs[0].email) {
        var r := [bs[0]] + rest;
        assert Ready(bs) == r;
        assert r[0] == bs[0] && r[1..] == rest;
        assert Ready(r) == [bs[0]] + Ready(rest);
      } else {
        assert Ready(bs) == rest;
      }
    }
  }

  /** `f"{asunto_base} - {eq['Equipo']}"`. */
  function Subject(base: string, team: string): (s: string)
    ensures |s| == |base| + 3 + |team| && s[..|base|] == base && s[|base| + 3..] == team
  {
    base + " - " + team
  }

  /**
   * The messages of the send loop, one per selected bundle in order: to
   * the coach e-mail, with the custom subject and body and the bundle's
   * images attached in order.
   */
  function Outbox(ready: seq<Bundle>, base: string, body: string): (ms: seq<Message>)
    ensures |ms| == |ready|
    ensures forall i :: 0 <= i < |ready| ==>
              ms[i] == Message(ready[i].email, Subject(base, ready[i].team), body, ready[i].images)
  {
    seq(|ready|, i requires 0 <= i < |ready| => Message(ready[i].email, Subject(base, ready[i].team), body, ready[i].images))
  }

  /** Every message of the send loop goes to an address with an at-sign and carries its team's images. */
  lemma OutboxAddressed(bs: seq<Bundle>, base: string, body: string)
    ensures forall m :: m in Outbox(Ready(bs), base, body) ==> '@' in m.recipient && m.body == body
    ensures forall m :: m in Outbox(Ready(bs), base, body) ==>
              exists b :: b in bs && m.recipient == b.email && m.attachments == b.images
                          && m.subject == Subject(base, b.team)
  {
    var ready := Ready(bs);
    var ms := Outbox(ready, base, body);
    forall m | m in ms
      ensures '@' in m.recipient && m.body == body
      ensures exists b :: b in bs && m.recipient == b.email && m.attachments == b.images
                          && m.subject == Subject(base, b.team)
    {
      var i :| 0 <= i < |ms| && ms[i] == m;
      assert ready[i] in ready;
      HasAddressIffAt(ready[i].email);
    }
  }
}
