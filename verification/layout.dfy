/**
 * The fixed column layout of the tournament roster and the records every
 * version of the tool derives from one row: a team's QR images and the
 * bundle (folder, addressee, images) that is zipped and mailed.
 *
 * Every cell the tool reads goes through `limpiar_dato`, so the functions
 * here read a `Line`: a row after cleaning (`Cells.CleanRow`), of the same
 * length as the row.
 */
module Layout {
  import opened Cells

  /** A roster row with every cell cleaned. */
  type Line = seq<string>

  // Zero-based column positions of the roster sheet.
  const SchoolCol: nat := 1
  const TeamCol: nat := 3
  const CategoryCol: nat := 4
  const AdvisorNameCol: nat := 5
  const AdvisorPaternalCol: nat := 6
  const AdvisorMaternalCol: nat := 7
  const PhoneCol: nat := 8
  const CoachEmailCol: nat := 9

  /** The matricula column of each of the five student slots. */
  const MatriculaCols: seq<nat> := [10, 17, 24, 31, 39]
  const SlotCount: nat := 5

  /** Slot `k`'s matricula column. */
  function MatriculaCol(k: nat): nat
    requires k < SlotCount
  {
    MatriculaCols[k]
  }

  /** Every row has at least `w` cells (a pandas frame is rectangular). */
  predicate Wide<T>(rows: seq<seq<T>>, w: nat) {
    forall i :: 0 <= i < |rows| ==> |rows[i]| >= w
  }

  /** Cleaning keeps every row's width. */
  lemma CleanGridWide(g: Grid, w: nat)
    requires Wide(g, w)
    ensures Wide(CleanGrid(g), w)
  {
  }

  function School(l: Line): string requires |l| > SchoolCol { l[SchoolCol] }
  function TeamName(l: Line): string requires |l| > TeamCol { l[TeamCol] }
  function Category(l: Line): string requires |l| > CategoryCol { l[CategoryCol] }
  function Phone(l: Line): string requires |l| > PhoneCol { l[PhoneCol] }
  function CoachEmail(l: Line): string requires |l| > CoachEmailCol { l[CoachEmailCol] }

  /** A row is a team exactly when its cleaned school and team are both non-empty. */
  predicate IsTeamRow(l: Line)
    requires |l| > CategoryCol
  {
    School(l) != "" && TeamName(l) != ""
  }

  /** Number of team rows among the first `n` rows. */
  function CountTeams(lines: seq<Line>, n: nat): (c: nat)
    requires n <= |lines| && Wide(lines, CategoryCol + 1)
    ensures c <= n
  {
    if n == 0 then 0 else CountTeams(lines, n - 1) + (if IsTeamRow(lines[n - 1]) then 1 else 0)
  }

  /** `f"{school} {team} {category}".strip()`, before any character is replaced. */
  function FolderLabel(l: Line): string
    requires |l| > CategoryCol
  {
    Strip(School(l) + " " + TeamName(l) + " " + Category(l))
  }

  /**
   * The cleaned matricula of student slot `k`, or "" when the row is too
   * short to hold that column (the `col_idx < len(row)` guard).
   */
  function SlotId(l: Line, k: nat): string
    requires k < SlotCount
  {
    if MatriculaCol(k) < |l| then l[MatriculaCol(k)] else ""
  }

  /** Drops row 0, the sheet's textual header (`iloc[1:]`, or pandas' `header=0`). */
  function DropHeader<T>(g: seq<T>): (r: seq<T>)
    ensures |r| == if |g| == 0 then 0 else |g| - 1
    ensures forall i :: 0 <= i < |r| ==> r[i] == g[i + 1]
  {
    if |g| == 0 then [] else g[1..]
  }

  // ---------------------------------------------------------------------
  // Images and bundles
  // ---------------------------------------------------------------------

  type Bytes = seq<bv8>

  /** One QR image: its file name inside the team folder and its PNG bytes. */
  datatype Image = Image(name: string, bytes: Bytes)

  /**
   * The record built per team: folder name, school, team, coach e-mail and
   * the ordered images (the dict with keys Carpeta, Escuela, Equipo,
   * Correo_Coach, Imagenes).
   */
  datatype TeamBundle = TeamBundle(folder: string, school: string, team: string, email: string, images: seq<Image>)

  /** One e-mail: addressee, subject, body and the attached images in order. */
  datatype Message = Message(recipient: string, subject: string, body: string, attachments: seq<Image>)

  /** One archive member: its path `folder/name` and its bytes. */
  datatype Entry = Entry(path: string, bytes: Bytes)

  function CoachImage(phone: string, encode: string -> Bytes): Image {
    Image("Coach_" + phone + ".png", encode(phone))
  }

  function StudentImage(id: string, encode: string -> Bytes): Image {
    Image("Alumno_" + id + ".png", encode(id))
  }

  /** The coach image, present exactly when the cleaned phone is non-empty. */
  function CoachImages(l: Line, encode: string -> Bytes): (r: seq<Image>)
    requires |l| > PhoneCol
    ensures |r| <= 1
    ensures r != [] <==> Phone(l) != ""
  {
    if Phone(l) != "" then [CoachImage(Phone(l), encode)] else []
  }

  /**
   * The matriculas of slots `0 .. n-1` that are in range and clean to a
   * non-empty text, in slot order.
   */
  function FilledSlots(l: Line, n: nat): (ids: seq<string>)
    requires n <= SlotCount
    ensures |ids| <= n
    ensures forall a :: 0 <= a < |ids| ==> ids[a] != ""
  {
    if n == 0 then []
    else
      var id := SlotId(l, n - 1);
      FilledSlots(l, n - 1) + (if id != "" then [id] else [])
  }

  /**
   * Membership in the filled slots: every non-empty slot id among the
   * first `n` is there, and nothing else is.
   */
  lemma {:induction false} FilledSlotsMembers(l: Line, n: nat)
    requires n <= SlotCount
    ensures forall k :: 0 <= k < n && SlotId(l, k) != "" ==> SlotId(l, k) in FilledSlots(l, n)
    ensures forall id :: id in FilledSlots(l, n) ==> exists k :: 0 <= k < n && SlotId(l, k) == id
  {
    if n > 0 {
      FilledSlotsMembers(l, n - 1);
      var before := FilledSlots(l, n - 1);
      var id := SlotId(l, n - 1);
      assert FilledSlots(l, n) == before + (if id != "" then [id] else []);
      assert forall x :: x in before ==> x in FilledSlots(l, n);
    }
  }

  /** Student images of slots `0 .. n-1`: one per filled slot, in slot order. */
  function StudentImages(l: Line, n: nat, encode: string -> Bytes): (r: seq<Image>)
    requires n <= SlotCount
    ensures |r| == |FilledSlots(l, n)|
    ensures forall a :: 0 <= a < |r| ==> r[a] == StudentImage(FilledSlots(l, n)[a], encode)
  {
    if n == 0 then []
    else
      var id := SlotId(l, n - 1);
      StudentImages(l, n - 1, encode) + (if id != "" then [StudentImage(id, encode)] else [])
  }

  /**
   * One more slot, seen from a list that already starts with the coach
   * image: a filled slot appends its image, an empty one nothing.
   */
  lemma StudentImagesStep(l: Line, k: nat, encode: string -> Bytes)
    requires |l| > PhoneCol && k < SlotCount
    ensures var grown := StudentImages(l, k + 1, encode);
            var coach := CoachImages(l, encode);
            (SlotId(l, k) == "" ==> coach + grown == coach + StudentImages(l, k, encode))
            && (SlotId(l, k) != "" ==>
                  coach + grown == coach + StudentImages(l, k, encode) + [StudentImage(SlotId(l, k), encode)])
  {
    var before := StudentImages(l, k, encode);
    var coach := CoachImages(l, encode);
    if SlotId(l, k) != "" {
      var img := StudentImage(SlotId(l, k), encode);
      assert StudentImages(l, k + 1, encode) == before + [img];
      assert coach + (before + [img]) == coach + before + [img];
    }
  }

  /** The image list after the coach and student slots `0 .. k-1`. */
  predicate ImagesUpTo(l: Line, k: nat, imgs: seq<Image>, encode: string -> Bytes)
    requires |l| > PhoneCol && k <= SlotCount
  {
    imgs == CoachImages(l, encode) + StudentImages(l, k, encode)
  }

  /**
   * The body of the student-image loop for slot `k`: a matricula column in
   * range whose cleaned value is non-empty appends `Alumno_<mat>.png`.
   */
  method AppendSlotImage(row: Row, ghost l: Line, k: nat, imgs: seq<Image>, encode: string -> Bytes)
      returns (imgsNext: seq<Image>)
    requires l == CleanRow(row) && |row| > PhoneCol && k < SlotCount
    requires ImagesUpTo(l, k, imgs, encode)
    ensures ImagesUpTo(l, k + 1, imgsNext, encode)
  {
    imgsNext := imgs;
    var colIdx := MatriculaCols[k];
    StudentImagesStep(l, k, encode);
    if colIdx < |row| {
      var mat := Clean(row[colIdx]);
      assert mat == SlotId(l, k);
      if mat != "" {
        imgsNext := imgs + [StudentImage(mat, encode)];
      }
    }
  }

  /** The bundle of one team row, given its folder name and student cap. */
  function MakeBundle(l: Line, folder: string, cap: nat, encode: string -> Bytes): (b: TeamBundle)
    requires |l| > CoachEmailCol && cap <= SlotCount
    ensures b.folder == folder && b.school == School(l) && b.team == TeamName(l) && b.email == CoachEmail(l)
    ensures |b.images| == |CoachImages(l, encode)| + |FilledSlots(l, cap)| <= 1 + cap
    ensures Phone(l) != "" <==> (b.images != [] && b.images[0] == CoachImage(Phone(l), encode))
  {
    var coach := CoachImages(l, encode);
    var students := StudentImages(l, cap, encode);
    assert students != [] ==> students[0].name[0] == 'A' != 'C' == CoachImage(Phone(l), encode).name[0];
    TeamBundle(folder, School(l), TeamName(l), CoachEmail(l), coach + students)
  }

  /** `Correo and "@" in Correo`: a non-empty address that contains an at-sign. */
  predicate HasAddress(email: string) {
    email != "" && '@' in email
  }

  /** The at-sign alone decides: a text containing it is never empty. */
  lemma HasAddressIffAt(email: string)
    ensures HasAddress(email) <==> '@' in email
  {
  }

  /** The archive members of one folder: `folder/name` for each image, in order. */
  function FolderEntries(folder: string, images: seq<Image>): (es: seq<Entry>)
    ensures |es| == |images|
    ensures forall a :: 0 <= a < |es| ==> es[a] == Entry(folder + "/" + images[a].name, images[a].bytes)
  {
    if images == [] then []
    else [Entry(folder + "/" + images[0].name, images[0].bytes)] + FolderEntries(folder, images[1..])
  }

  /** One more image adds its one member at the end. */
  lemma {:induction false} FolderEntriesAppend(folder: string, images: seq<Image>, img: Image)
    ensures FolderEntries(folder, images + [img]) == FolderEntries(folder, images) + [Entry(folder + "/" + img.name, img.bytes)]
  {
    var grown := FolderEntries(folder, images + [img]);
    var expected := FolderEntries(folder, images) + [Entry(folder + "/" + img.name, img.bytes)];
    assert |grown| == |expected|;
    forall a | 0 <= a < |grown| ensures grown[a] == expected[a] {
      if a < |images| {
        assert (images + [img])[a] == images[a];
      }
    }
  }

  /** The zip members: for each bundle in order, `folder/name` for each of its images. */
  function Archive(bs: seq<TeamBundle>): (es: seq<Entry>)
  {
    if bs == [] then [] else FolderEntries(bs[0].folder, bs[0].images) + Archive(bs[1..])
  }

  /** The number of images over all bundles. */
  function ImageCount(bs: seq<TeamBundle>): nat {
    if bs == [] then 0 else |bs[0].images| + ImageCount(bs[1..])
  }

  /** The archive holds one member per image, and the first bundle's members come first, in order. */
  lemma {:induction false} ArchiveLayout(bs: seq<TeamBundle>)
    ensures |Archive(bs)| == ImageCount(bs)
    ensures bs != [] ==> Archive(bs)[..|bs[0].images|] == FolderEntries(bs[0].folder, bs[0].images)
  {
    if bs != [] {
      ArchiveLayout(bs[1..]);
    }
  }
}
