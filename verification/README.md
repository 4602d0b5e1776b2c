# Tournament roster tool — Dafny model

The tool reads a robotics-tournament roster spreadsheet: one row per team, with the
school, team and category, the advisor (coach), and up to five student blocks at fixed
columns. It produces:

- a zip archive with one folder of QR images per team;
- an e-mail per coach with those images attached;
- in the later versions, a summary workbook with an advisor sheet and one student sheet per category.

The repository holds four successive versions of it: `app.py`, `app_v2.py`, `app_v3.py`
and `app_v5.py`. This project models the computing core of each version. The user
interface, the spreadsheet parser, the QR library, the workbook writer and the mail
transport are not modelled.

Modules:

- `Cells` (`cells.dfy`): the cell type (null or text) and the Python text primitives
  used by the tool. These are `strip`, `lower`, `isalnum`, `in` and `endswith`, defined
  exactly for code points up to U+00FF. The module also holds the cleaner `limpiar_dato`,
  which is shared by all four versions.
- `Layout` (`layout.dfy`): the fixed column layout of the roster and the records derived
  from one row. A `Line` is a row after every cell has been cleaned. On top of it are the
  coach and student images, the team bundle (folder, school, team, coach e-mail, images),
  e-mail messages and archive members.
- `Folders` (`folders.dfy`): the two folder-name sanitisers.
  - Versions 3 and 5 use an allow-list.
  - `app.py` and version 2 use a replace loop over nine reserved characters.
- `Roster` (`roster.dfy`): the specification functions for versions 3 and 5, whose core
  functions are the same line for line. It covers:
  - the loader, which forward-fills and then drops the header;
  - the advisor deduplication;
  - the category router;
  - the student transposition, including its read error;
  - the whole report;
  - the bundles, capped by "escenario".
- `Summary` (`summary.dfy`): `generar_excel_resumen` of versions 3 and 5, written as it
  runs. It keeps a key set and a row counter for the advisors, a dict of three sheet
  cursors, and a row counter per sheet. It is proved equal to `Roster.Report`.
- `AppV5`, `AppV3`, `AppV2`, `App`: the bundle loops and e-mail selection of each
  version. Each is proved equal to its specification function.
  - `App` writes into a `ZipArchive` object whose member list grows in place.
  - `App` also tracks the per-folder name set, the team and image counters and the
    error log.

The spreadsheet reader, the QR encoder and the e-mail transport are parameters.

- The reader's outcome is a `Result<Grid>`: a grid of `Option<string>` cells, already
  rendered as text, or the reader's exception message.
- The encoder is a function `string -> seq<bv8>`. For `app.py`, where encoding and the
  archive write may raise, it is `string -> Result<seq<bv8>>`.

Each version reads columns 1 to 9 of every row without a range check. The models
therefore require every row to hold those columns:

- `app.py` reads up to column 8;
- the other versions read up to column 9.

Every other column is read as the code reads it. Student matricula columns are checked
against the row length. In the report, the four other cells of a student block are read
unchecked, so a row that ends inside a block makes the report fail with pandas' index
error.

Behaviours of the source that are easy to miss:

- The bundles of versions 3 and 5 apply their own cap: 5 students if the lower-cased
  category contains "escenario", otherwise 4. So slots beyond the report's cap produce
  no images either. The one exception is a label that routes to another sheet but also
  mentions "escenario": its bundle keeps five students while the report keeps four
  (`Roster.CapIgnoresRouter`).
- The advisor sheet does not skip rows without school or team. It keys only on the
  advisor's name and phone (`Summary.AdvisorStep`).
- Only `app.py` renames a repeated student file, and only one level deep: a third copy
  collides with the second (`App.ThirdCopyCollides`). The other versions keep repeated
  `Alumno_<id>.png` names unchanged.
- `limpiar_dato` is not idempotent: `"7.0.0"` becomes `"7.0"`, then `"7"`
  (`Cells.CleanNotIdempotent`).
- Only coach-image failures are logged. A student image that fails is skipped silently.

## Model

| member | source | states |
|---|---|---|
| Cells.Clean | app_v5.py:17-20 | `limpiar_dato` itself; what it computes is stated by `Cells.CleanMeaning`, and its behaviour on repeated cleaning by `Cells.CleanNotIdempotent` and `Cells.CleanFixedPoint` |
| Cells.CleanMeaning | app_v5.py:17-20 | null cleans to ""; otherwise the result is the stripped text, and the stripped text is the result plus ".0" exactly when it ends with ".0"; without that ending the result is the stripped text itself; the other versions repeat this code at app_v3.py:15-22, app_v2.py:15-22, app.py:10-17 |
| Cells.CleanExamples | app_v5.py:17-20 | null gives "", "123456.0" gives "123456", "123456" is kept, "7.0.0" gives "7.0" |
| Cells.CleanStrips | app_v3.py:19-21 | surrounding blanks are stripped before the ".0" test: " A001 " gives "A001" |
| Cells.CleanNotIdempotent | app_v5.py:19-20 | only one ".0" is cut, so cleaning twice can differ from cleaning once |
| Cells.CleanSevenPointZero | app_v5.py:19-20 | "7.0", the first cleaning of "7.0.0", loses its ".0" on a second cleaning and gives "7" |
| Cells.CleanFixedPoint | app_v5.py:19-20 | a cell whose stripped text does not end in ".0" is a fixed point of a second cleaning |
| Cells.CleanCanEndInBlank | app_v5.py:19-20 | the ".0" is cut after stripping, so a cleaned value can end in a blank ("A1 .0" gives "A1 ") |
| Cells.CleanCutsOnce | app_v3.py:20-21 | on a stripped text ending in ".0", exactly the last two characters go |
| Cells.FloatMarkIsEndsWith | app_v3.py:20 | the two-character test is `endswith(".0")` |
| Cells.StripShape | app_v3.py:19 | `strip()` leaves the infix of the text after removing only whitespace on both sides, and that infix neither starts nor ends with whitespace |
| Cells.StripIdempotent | app_v3.py:19 | stripping twice is stripping once |
| Cells.StripTrimmed | app_v3.py:19 | a text without whitespace at either end is its own strip |
| Cells.TrimStartMeaning | app_v3.py:19 | left strip keeps a suffix, drops only whitespace and stops at a non-blank |
| Cells.TrimEndMeaning | app_v3.py:19 | right strip keeps a prefix, drops only whitespace and stops at a non-blank |
| Cells.LowerChar | app_v3.py:127 | lower-casing a character never changes whether it is alphanumeric |
| Cells.LowerIdempotent | app_v3.py:127 | lower-casing twice is lower-casing once |
| Cells.ContainsAt | app_v3.py:129-131 | the substring test `t in s` holds exactly when `t` occurs at some position of `s` |
| Layout.DropHeader | app_v5.py:35 | dropping row 0 leaves one row fewer (none from none) and shifts every row up by one; the second version's `header=0` read at app_v2.py:41 gives the same data rows |
| Layout.CoachImages | app_v5.py:116 | at most one coach image, present exactly when the cleaned phone is non-empty |
| Layout.FilledSlots | app_v5.py:119-123 | the ids taken from the first n slots are at most n, all non-empty |
| Layout.FilledSlotsMembers | app_v5.py:119-123 | every in-range non-empty matricula of the first n slots is taken, and nothing else |
| Layout.StudentImages | app_v5.py:119-123 | one `Alumno_<id>.png` image per taken id, in slot order |
| Layout.AppendSlotImage | app_v5.py:121-123 | one slot of the image loop extends the images of slots `0 .. k-1` to those of slots `0 .. k`: an image when the column is in range and the matricula non-empty, nothing otherwise |
| Layout.MakeBundle | app_v3.py:186-204 | the bundle carries the folder, school, team and coach e-mail; its images number the coach's plus the filled capped slots, at most 1 + cap; the coach image is first exactly when the phone is set |
| Layout.HasAddressIffAt | app_v3.py:263 | `Correo and "@" in Correo` holds exactly when the address contains an at-sign |
| Layout.FolderEntries | app_v3.py:257-258 | one archive member `folder/name` per image, in image order, with its bytes |
| Layout.FolderEntriesAppend | app.py:107 | one more image written adds its one member at the end |
| Layout.CountTeams | app.py:47-57 | `total_equipos`: the count over the first n rows is at most n; `App.ZipRows` proves the pass's counter equals it |
| Layout.Archive | app_v3.py:256-258 | the nested zip loop over bundles and their images; its layout is stated by `Layout.ArchiveLayout`, and the second version's loop at app_v2.py:136-141 is the same |
| Layout.ArchiveLayout | app_v3.py:256-258 | the archive holds one member per image of every bundle, and the first bundle's members come first, in order; the other versions repeat this code at app_v2.py:137-141 |
| Folders.AllowListed | app_v5.py:111 | same length, every character allowed, a character kept exactly when it is alphanumeric or one of " -_", and every other one turned into '-'; the other versions repeat this code at app_v3.py:181 |
| Folders.AllowListedIdempotent | app_v5.py:111 | sanitising a sanitised name changes nothing |
| Folders.ReservedFree | app_v2.py:64-66 | the reference result: same length, no reserved character left, each reserved character turned into '-', every other character kept |
| Folders.ReservedFreeIdempotent | app_v2.py:64-66 | replacing the reserved characters twice is replacing them once |
| Folders.ReplaceChar | app_v2.py:66 | `str.replace(ch, '-')`: same length, every `ch` turned into '-', every other character kept |
| Folders.ReplaceReserved | app_v2.py:65-66 | the replace loop over the nine reserved characters computes the reference result; the other versions repeat this code at app.py:63-64 |
| Folders.AllowListStricter | app_v3.py:181 | the allow-list never keeps a reserved character, and wherever the two sanitisers differ the allow-list wrote '-' |
| Roster.FillDown | app_v5.py:34 | forward fill keeps the shape, row 0 unchanged, each later row filled from the already filled row above |
| Roster.FillDownIsNearest | app_v5.py:34 | a filled cell is the nearest non-null cell at or above it in its column |
| Roster.NearestAboveMeaning | app_v5.py:34 | the nearest-above cell is a non-null cell with only nulls between it and the row, or null when the column is null all the way up |
| Roster.Load | app_v5.py:31-39 | a failed read gives no grid; otherwise the grid has one row fewer, each row as wide as before; the other versions repeat this code at app_v3.py:34-46 |
| Roster.LoadCell | app_v5.py:34-35 | every loaded cell: a non-null cell is kept; a null one takes the nearest non-null cell above it, the header row included, or stays null; the other versions repeat this code at app_v3.py:40-42 |
| Roster.AdvisorRows | app_v5.py:53-61 | the advisor rows of the first n rows: at most n, six cells each; `Roster.AdvisorRowsDistinct` and `Roster.AdvisorRowsComplete` prove one row per distinct named key |
| Roster.AdvisorRecord | app_v5.py:58-59 | the advisor row has six cells and its name and phone cells are the row's key |
| Roster.AdvisorKeysMember | app_v5.py:56-57 | a key is in the set exactly when some earlier row with a named advisor carries it |
| Roster.AdvisorKeysSeen | app_v5.py:56 | a named row's key is already in the set exactly when the row is not the key's first occurrence |
| Roster.AdvisorCount | app_v5.py:100 | the returned set size equals the number of advisor rows written |
| Roster.AdvisorRowsDistinct | app_v3.py:75-76 | the advisor rows carry pairwise distinct keys, each in the set |
| Roster.AdvisorRowsComplete | app_v3.py:75-76 | every key of the set appears on the advisor sheet |
| Roster.RepeatedKeyAddsNothing | app_v3.py:75 | a row repeating an earlier key changes neither the sheet nor the set |
| Roster.AdvisorRowsPrefix | app_v3.py:70-87 | the rows written for a prefix of the roster do not depend on later rows |
| Roster.AdvisorRowsRepeat | app_v3.py:70-87 | past the first copy of a doubled roster, no row adds anything |
| Roster.AdvisorDedupTwice | app_v3.py:66-87 | deduplicating the roster twice in a row writes the same advisor sheet as once |
| Roster.Route | app_v5.py:82-85 | the if/elif chain on the lower-cased category; its meaning in terms of where the tokens occur is stated by `Roster.RouteMeaning` |
| Roster.RouteMeaning | app_v5.py:82-85 | Línea exactly when "línea" or "linea" occurs in the lower-cased label; Laberinto exactly when "laberinto" occurs and neither earlier token does; Escenario likewise; no sheet exactly when none occurs; the other versions repeat this code at app_v3.py:127-131 |
| Roster.RouteIgnoresCase | app_v3.py:127 | a label and its lower-cased form go to the same sheet |
| Roster.RouteExamples | app_v5.py:83-85 | "linea escenario" goes to Línea; "Sumo" goes nowhere |
| Roster.RouteAccented | app_v5.py:83 | "LÍNEA" goes to Línea |
| Roster.BlocksWithin | app_v5.py:64-65 | each student block is its matricula column, the next three and the sixth after it; no block reads past column 45 |
| Roster.TeamRows | app_v5.py:89-98 | the slot loop of one team fails exactly when a filled slot's block runs past the row, with pandas' index error; otherwise it adds at most n rows |
| Roster.StudentRecord | app_v5.py:94-96 | a student record has eight cells: school, team, the sheet's own name and the slot's matricula, then the four cells read beside it |
| Roster.TeamRowsShape | app_v3.py:140-163 | a team that does not fail adds one row per filled capped slot, in slot order, each `[school, team, sheet name, matricula, …]` |
| Roster.AddTeam | app_v5.py:76-98 | one roster row keeps the three sheets well formed (eight cells, the sheet's own name as category) or fails with the index error |
| Roster.StudentSheetsOf | app_v5.py:76-98 | the student pass keeps every sheet well formed, and its only failure is the index error |
| Roster.ErrorSticks | app_v5.py:76-99 | once a row has failed, no later row can undo it |
| Roster.ReportErrors | app_v5.py:87-98 | the student pass fails exactly when some routed team has a filled capped slot that runs past its row |
| Roster.StepError | app_v5.py:87-98 | one more row fails the pass exactly when it had failed or that row fails |
| Roster.WideNeverFails | app_v5.py:91-96 | on rows of at least 46 cells the report never fails |
| Roster.SkippedRowAddsNothing | app_v5.py:80-87 | a row without school or team, or with an unrouted label, leaves every sheet as it was |
| Roster.RoutedRowGrowsOneSheet | app_v3.py:133-163 | a routed team grows only its own sheet, by at most its cap, keeping the old rows first, one new row per filled slot in slot order |
| Roster.Headed | app_v5.py:73-74 | each student sheet starts with the eight-column header |
| Roster.Report | app_v5.py:41-100 | the report fails exactly when some row's student read fails; otherwise the advisor sheet starts with its header and the returned count is its number of data rows |
| Roster.FolderName | app_v5.py:111 | the folder name has the label's length and only allowed characters |
| Roster.BundleOf | app_v5.py:111-125 | a capped bundle has at most six images |
| Roster.Bundles | app_v5.py:105-126 | one bundle per team row, whatever its category |
| Roster.BundleAt | app_v5.py:105-125 | team row i owns bundle number (team rows before i), and it is that row's bundle |
| Roster.BundleCap | app_v5.py:118 | `max_al` is 4 or 5, and it is 5 exactly when "escenario" occurs at some position of the lower-cased category (otherwise 4) |
| Roster.CapFromOccurrence | app_v5.py:118 | a category whose lower-cased text has "escenario" at any position gets the cap of five |
| Roster.CapIgnoresRouter | app_v5.py:83-85 | "linea escenario" goes to the Línea sheet with cap 4, while its bundle cap is 5 |
| Roster.TeamRowsMatchImages | app_v3.py:140-163 | where the report's and the bundle's caps agree, a team's student rows and its student images carry the same matriculas in the same order |
| Roster.TeamImages | app_v5.py:115-123 | the image loop with its `break` at `max_al` computes the coach image followed by the capped student images; the other versions repeat this code at app_v3.py:186-196 |
| Roster.SlotImagesUntil | app_v5.py:119-123 | the slot loop that breaks at `max_al` leaves the coach image followed by the student images of the first `max_al` slots; the other versions repeat this code at app_v3.py:191-196 |
| Summary.WriteRow | app_v5.py:60 | writing a row replaces exactly that row, or appends it just past the end |
| Summary.AdvisorStep | app_v5.py:53-61 | one more row adds its named key to the set, and its record when the key is new; school and team are not consulted |
| Summary.AdvisorRowPass | app_v5.py:54-61 | the loop body moves the set, the sheet and `row_asesor` from the spec at row i to the spec at row i + 1, keeping `row_asesor` one more than the set's size |
| Summary.WriteAdvisors | app_v5.py:51-61 | the set ends as the keys of all named advisors, the sheet as the header plus one row per first occurrence, and `row_asesor` is one more than the set's size; the other versions repeat this code at app_v3.py:66-87 |
| Summary.NewSheets | app_v5.py:68-74 | the three sheets start with their header, counters at 1 and caps 4, 4, 5 |
| Summary.TracksGrow | app_v5.py:97-98 | writing rows at a sheet's counter keeps the dict in step with the specified sheets |
| Summary.SlotPass | app_v5.py:90-98 | one slot either writes its record at the counter and moves it by one, or fails with the index error, in which case the team's whole slot loop fails |
| Summary.WriteTeam | app_v5.py:89-98 | a team's slot loop appends the specified team rows at the counter, or fails when the spec fails; the other versions repeat this code at app_v3.py:140-163 |
| Summary.ErrorStaysInTeam | app_v5.py:89-98 | a team that fails at some slot also fails for any larger cap |
| Summary.StudentRowPass | app_v5.py:76-98 | the loop body moves the dict of sheets from the spec at row i to the spec at row i + 1, or fails when the spec fails |
| Summary.TracksHeaded | app_v5.py:99-100 | the sheets read back from the dict are the headed category sheets |
| Summary.GenerateReport | app_v5.py:41-100 | `generar_excel_resumen` returns exactly the specified report: workbook and distinct-advisor count, or the index error; the other versions repeat this code at app_v3.py:50-166 |
| AppV5.RowBundle | app_v5.py:106-125 | a team row gives the specified capped bundle; a row without school or team gives none |
| AppV5.BuildBundles | app_v5.py:102-126 | `procesar_zip_correo` returns the specified bundles, one per team row in row order |
| AppV5.BundleImages | app_v5.py:115-123 | team row i's bundle has its team and coach e-mail and at most 1 + cap ≤ 6 images; the coach image is first exactly when the phone is set |
| AppV5.Archive | app_v5.py:213-216 | the nested zip loop of the fifth version; its size and layout are stated by `AppV5.ArchiveSize` |
| AppV5.ArchiveSize | app_v5.py:214-216 | the archive holds one member per image of every bundle, and the first bundle's `Carpeta/name` members come first, in image order |
| AppV5.Ready | app_v5.py:223 | the selection keeps exactly the bundles with a non-empty e-mail containing "@" |
| AppV5.ReadyAppend | app_v5.py:223 | the selection keeps order: selecting a concatenation concatenates the selections |
| AppV5.ReadyIdempotent | app_v5.py:223 | selecting twice is selecting once |
| AppV5.Subject | app_v5.py:260 | the subject is the typed subject, " - ", then the team |
| AppV5.Outbox | app_v5.py:254-266 | one message per selected bundle, in order: its address, `<subject> - <team>`, the typed body and the team's images |
| AppV5.OutboxAddressed | app_v5.py:254-266 | every message goes to an address with "@", carries the typed body, and has the images and subject of a bundle with that address |
| AppV3.RowBundle | app_v3.py:173-204 | a team row gives the specified capped bundle; a row without school or team gives none |
| AppV3.BuildBundles | app_v3.py:168-205 | `procesar_logica_zip_correo` returns the specified bundles, one per team row in row order |
| AppV3.BundleImages | app_v3.py:186-196 | team row i's bundle has its school, team and e-mail and at most 1 + `max_al` ≤ 6 images: the coach's first exactly when the phone is set, then the capped student images in slot order |
| AppV3.Ready | app_v3.py:263 | the selection keeps exactly the bundles whose `Correo_Coach` is non-empty and contains "@" |
| AppV3.ReadyAppend | app_v3.py:263 | the selection keeps order |
| AppV3.Subject | app_v3.py:292 | the subject is "QRs - " followed by the team |
| AppV3.Outbox | app_v3.py:288-297 | one message per selected bundle, in order: its address, `QRs - <team>`, the fixed body and the team's images |
| AppV3.OutboxCoversReady | app_v3.py:263-297 | each message goes to a bundle whose address contains "@", and every such bundle gets its message |
| AppV2.FolderName | app_v2.py:64-66 | the folder name has the label's length and no reserved character |
| AppV2.BundleOf | app_v2.py:63-101 | an uncapped bundle has at most six images |
| AppV2.Bundles | app_v2.py:54-101 | one bundle per team row |
| AppV2.BundleAt | app_v2.py:54-101 | team row i owns bundle number (team rows before i), and it is that row's bundle |
| AppV2.TeamImages | app_v2.py:73-92 | the image loops compute the coach image followed by a student image for each of the five slots that is in range and non-empty |
| AppV2.AllSlotImages | app_v2.py:84-92 | the uncapped loop over `columnas_matriculas` leaves the coach image followed by the student images of all five slots |
| AppV2.RowBundle | app_v2.py:56-101 | a team row gives the specified bundle, with its folder name produced by the replace loop; a row without school or team gives none |
| AppV2.ProcessTeams | app_v2.py:35-103 | a failed read gives no teams and "Error al leer archivo: " + message; otherwise the bundles of the data rows and "Ok" |
| AppV2.BundleShape | app_v2.py:63-101 | team row i's bundle: folder free of reserved characters and of the label's length, school, team, e-mail, images the coach's (first when the phone is set) plus one per filled slot of all five, at most six |
| AppV2.SameImagesAsCapped | app_v2.py:84-92 | for a category mentioning "escenario" the second and third versions give a team the same images, and differ only in the folder sanitiser |
| AppV2.Mailable | app_v2.py:157 | the filter condition: address non-empty and containing "@", and at least one image; `AppV2.Ready` proves the selection keeps exactly these bundles |
| AppV2.Ready | app_v2.py:157 | the selection keeps exactly the bundles with an address containing "@" and at least one image |
| AppV2.EmptyTeamsSkipped | app_v2.py:157 | this selection is the third version's, less the teams without images |
| AppV2.Subject | app_v2.py:201 | the subject is the typed subject, " - ", then the team |
| AppV2.Outbox | app_v2.py:195-208 | one message per selected bundle, in order: its address, `<asunto> - <team>`, the typed body and the team's images |
| AppV2.OutboxNonEmpty | app_v2.py:157-208 | every message is addressed and carries at least one attachment |
| App.ZipArchive.constructor | app.py:44 | a new archive has no members |
| App.ZipArchive.WriteStr | app.py:80 | `writestr` adds one member at the end and changes nothing else |
| App.StudentFileName | app.py:97-101 | a student file is `<mat>.png`, or `<mat>_duplicado.png` when `<mat>.png` is already in the folder's set |
| App.CoachFolder | app.py:67-84 | with no phone the folder stays empty; otherwise either `<phone>.png` holding the encoded phone is written and nothing is logged, or nothing is written and the line `Error QR Asesor <team>: <error>` is logged |
| App.FolderFiles | app.py:89-111 | after the coach and n slots a folder has at most 1 + n files and at most one log line |
| App.FolderNamesTracked | app.py:67-108 | the name set holds exactly the names of the files written, because a name is added only after a successful write |
| App.OnlyRenamedCollide | app.py:99-101 | two files of one folder share a name only when the later one is a `_duplicado` file |
| App.RenamedStep | app.py:100-108 | writing one more file keeps that property |
| App.CoachNameReserved | app.py:74-101 | a student whose matricula equals the coach's phone is written as `<phone>_duplicado.png` |
| App.ThirdCopyCollides | app.py:100-101 | the same matricula in three slots gives `7.png`, then `7_duplicado.png` twice |
| App.FolderName | app.py:62-64 | the folder name has the label's length and no reserved character |
| App.ZipRows | app.py:47-111 | the team counter is the number of rows with school and team, the image counter equals the members written (at most six per team), and at most one log line per team |
| App.Decimal | app.py:113 | a printed count is a non-empty string of digits |
| App.Completed | app.py:113 | the completion message starts with "Proceso completado. " followed by the team count in decimal, and ends with the image count in decimal followed by " imágenes generadas."; both counts can be cut back out of it, and `App.DecimalRoundTrip` reads each back as its count |
| App.CoachError | app.py:84 | the log line is "Error QR Asesor ", the team, ": " and the error text, and splits back into those parts |
| App.DecimalRoundTrip | app.py:113 | reading a printed count back gives the count, and only zero is printed with a leading '0' |
| App.WriteCoach | app.py:71-84 | the coach block writes the specified coach members, names, count and log line |
| App.WriteSlot | app.py:91-111 | one matricula column moves archive, name set and count from the folder's spec at slot k to its spec at slot k + 1, and logs nothing |
| App.WriteFolder | app.py:67-111 | one team folder appends the specified members, and returns its image count and log lines |
| App.WriteTeamRow | app.py:62-111 | the folder name comes from the replace loop and the folder's members are appended |
| App.RowPass | app.py:50-111 | the loop body moves archive, counters and log from the spec at row i to the spec at row i + 1 |
| App.ProcessExcelAndZip | app.py:30-113 | a failed read gives no archive and "Error al leer el archivo: " + message; otherwise the specified members and the completion message with both counters |

## Left out

- Streamlit user interface: page layout, logos, session state, buttons, progress bars, download buttons. This is presentation only.
- `pd.read_excel`: the sheet is given as a grid of cells already rendered as text, or a read error.
  - How pandas renders numbers and NaN as text is not modelled.
  - A reader that drops blank rows or trailing blank columns is not modelled either.
  - The models need every row to hold the columns the version reads unchecked: columns 1 to 9, or 1 to 8 for `app.py`.
- QR encoding: `encode` is a parameter standing for `generar_qr_bytes` / `generar_imagen_qr`.
  - For `app.py`, its `Err` stands for any exception from encoding or from `writestr`.
  - The model assumes a failed `writestr` added no member.
- Unicode: `strip`, `lower` and `isalnum` are exact for code points up to U+00FF. Above that, a character counts as not whitespace, not alphanumeric and has no lower-case form.
- xlsxwriter: header formatting, the in-memory workbook and the workbook bytes. A sheet is modelled as its sequence of rows, each a sequence of cell texts.
- zipfile: compression, the archive bytes, and what the library does when a member path is written twice. The archive is modelled as its list of `(path, bytes)` members in write order.
- SMTP transport: provider table, connection, login, `send_message`, pacing, and the sent/failed tallies. The model stops at the list of messages the send loop builds.
- The version-3/5 zip and send loops live in the interface code. They are modelled as the functions `Layout.Archive`, `AppV5.Archive` and the `Outbox` functions, not as methods over a zip or SMTP object.
- App.ProcessExcelAndZip: also returns `log_errores`, which the source builds but never returns. Returning it makes the logging observable and changes nothing else.
- AppV5.Bundle: the fifth version's record has no school field, so that version's bundles are the shared ones with the school dropped (`AppV5.Slim`).
