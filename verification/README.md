# E-Result Management System — a Dafny model of the score path

This project models how the E-Result Management System records and reads
student assessment scores. A score has five components: two continuous
assessments (`ca1`, `ca2`), an assignment, notes, and an exam. Their sum is
the total, and the grade comes from the school's grading scale. The model
follows a score through each layer that touches it:

- **Grading** (`Constants`): the five-band scale, `calculateGrade`, and the
  demo fixtures (sessions, terms, classes, subjects, students).
- **Score-entry grids**: two versions of the screen.
  - `ScoreRows`, `ResultsGrid`: the mock-backed screen. It clamps each cell,
    gates editing by role and lock, and logs one audit entry per batch save.
  - `SheetGrid`: the Google-Sheets screen. It has no clamps, and every save
    is posted for term `t2` and session `s1`.
- **Front-end services**:
  - `MockApi`: the mock service. Random numbers are a parameter.
  - `SheetApi`: the Sheets client. It covers mock-mode detection, the inline
    grade, and the JSON body a save posts.
  - `LocalDb`: the browser store. It covers seeding, `insert` and `upsertScore`.
  - `Audit`: the audit log. New entries go in front, and it mirrors itself
    into storage.
- **Back ends**:
  - `SheetBackend`: the Apps Script. It covers request routing, header-keyed
    row records, JavaScript `==` on cells, the class/score join, and the
    overwrite-or-append save.
  - `SqlResults`: the Express/PostgreSQL route. It covers the role checks,
    the lock check, the upsert with its audit row, and the `LEFT JOIN ...
    ORDER BY` read.
- **Shell** (`Layout`): the role-filtered menu and the session/term switcher
  with its audit entry.

`JsValues` makes the JavaScript conversions the Apps Script relies on
explicit: truthiness, `Number(...)`, loose `==`, and property keys.
`Common` holds generic sequence helpers, and `Types` holds the shared record
types.

Two things a call cannot see become parameters:
- randomness: `Math.random()` is a function from call number to a value in
  `[0, 1)`;
- generated ids and timestamps: values passed in.

Two behaviours of the code worth noting:
- The browser store and the Apps Script find an existing score by student,
  subject and term only. The session is not part of their key. The SQL
  upsert keys on all four columns.
- Out-of-range components are never rejected:
  - the mock screen clamps them;
  - the Sheets screen and both back ends store them as given;
  - a total above 100 falls through the scale and grades "F".

## Model

| member | source | states |
|---|---|---|
| Constants.CalculateGrade | constants.tsx:14-17 | the grade is one of A–F; it is the first band containing the total, or "F" when no band does |
| Constants.ScaleCoversAndIsDisjoint | constants.tsx:4-10 | every integer total 0..100 lies in some band, and no total lies in two bands |
| Constants.CalculateGradeIsBand | constants.tsx:4-17 | on every integer the table lookup equals an independent band-by-band definition |
| Constants.GradeBoundaries | constants.tsx:4-17 | the grade at each band edge: 39 F, 40/49 D, 50/59 C, 60/69 B, 70/100 A |
| Constants.OutOfRangeIsF | constants.tsx:14-17 | totals below 0 or above 100 match no band and grade "F" |
| Constants.GapIsF | constants.tsx:14-17 | non-integer totals between two bands (e.g. 69.5) match nothing and grade "F" |
| Constants.GapExample | constants.tsx:14-17 | 69.5 grades "F" |
| Constants.GradeMonotone | constants.tsx:4-17 | on 0..100 a higher total never gets a worse grade |
| JsValues.NumberOrZero | backend_google_sheet.js:114-119 | `Number(v \|\| 0)`: falsy values read as 0 and numbers as themselves |
| JsValues.DecimalRoundTrip | backend_google_sheet.js:146-148 | rendering an integer in decimal and reading it back with `Number` gives the integer |
| JsValues.LooseEqProperties | backend_google_sheet.js:102-106 | `==` is symmetric and reflexive; on strings it is equality; a number equals its decimal string; `undefined` equals no string |
| SheetBackend.AssignFields | backend_google_sheet.js:184-188 | every key of the built object comes from a header whose column the row has |
| SheetBackend.AssignFieldsValue | backend_google_sheet.js:186 | a record's field under a header with no later duplicate is that column's cell, or `undefined` past the row's end |
| SheetBackend.HeadersDistinct | backend_google_sheet.js:133 | the twelve column names of the score sheet are pairwise different |
| SheetBackend.FirstScoreIs | backend_google_sheet.js:102-106 | the lookup returns position m when record m matches the key and no earlier record does |
| SheetBackend.GetSheetData | backend_google_sheet.js:181-189 | one record per row after the header row, each keyed by the header row |
| SheetBackend.SheetDataFields | backend_google_sheet.js:181-189 | a record field under a header is the row's cell in that column; every key comes from some header |
| SheetBackend.HandleLogin | backend_google_sheet.js:64-84 | a missing Users tab is an error; otherwise the first row whose email and password `===` the body's signs in with that row's id, name, email and role and the status "active", and with no such row the answer is "Invalid credentials" |
| SheetBackend.LoginPicksFirstUser | backend_google_sheet.js:68-82 | when row i is the first with the body's credentials, the login answers with row i's fields, whatever later rows hold |
| SheetBackend.JoinRow | backend_google_sheet.js:108-122 | the identity fields come from the student; with no score record all five components and the total are 0, the grade "F" and the row unlocked; a truthy grade is copied, otherwise "F"; the lock flag holds exactly when the cell is the text "TRUE" |
| SheetBackend.BooleanLockReadsUnlocked | backend_google_sheet.js:121 | a lock cell that reads back as the boolean true, not the text "TRUE", shows the row unlocked |
| SheetBackend.ScoreFor | backend_google_sheet.js:102-106 | the joined record is the first score whose student, subject and term `==` the request's, else `{}` |
| SheetBackend.HandleGetScores | backend_google_sheet.js:86-126 | a missing tab is an error; otherwise one row per student of the class, in sheet order, each the join of that student with its first matching score record (or `{}`) |
| SheetBackend.JoinRows | backend_google_sheet.js:100-123 | one output row per class student, in order, each joined with its own score |
| SheetBackend.UnscoredStudentReadsAsZero | backend_google_sheet.js:106-122 | a student with no matching score reads as zeros, grade "F", unlocked |
| SheetBackend.LockCell | backend_google_sheet.js:166 | the lock is written as "TRUE" exactly when `isLocked` is truthy, else "FALSE" |
| SheetBackend.ScoreCells | backend_google_sheet.js:154-167 | a save writes twelve cells: under each of the first eleven headers the body's corresponding field (an empty cell when it is absent), and under `is_locked` the text "TRUE" or "FALSE" |
| SheetBackend.WithHeader | backend_google_sheet.js:135-138 | the header row is added only to an empty sheet; a non-empty sheet is kept |
| SheetBackend.Overwrite | backend_google_sheet.js:171 | the first twelve cells are replaced and any cells after them kept |
| SheetBackend.SaveSlot | backend_google_sheet.js:142-152 | the overwritten row is the first data row whose key `==` the body's; with none, no data row matches |
| SheetBackend.HandleSaveScore | backend_google_sheet.js:128-178 | with a key match only that row's twelve cells change; without one the row is appended; the answer is success |
| SheetBackend.SaveIntoEmptySheet | backend_google_sheet.js:133-138 | saving into an empty sheet writes the header row and then the data row |
| SheetBackend.BodyOf | backend_google_sheet.js:27-35 | a missing or unparsable body is the empty object |
| SheetBackend.HandleRequest | backend_google_sheet.js:19-60 | routes `login`/`getScores`/`saveScore`; any other action is "Invalid action"; only `saveScore` changes the workbook, and only the Scores tab |
| SheetBackend.MalformedBodyIsEmptyObject | backend_google_sheet.js:29-34 | a body that fails to parse is handled exactly like `{}` |
| SqlResults.OrZero | server/routes/results.js:62 | `x \|\| 0`: a missing component is stored as 0 |
| SqlResults.Upsert | server/routes/results.js:49-64 | on a four-column key match only that row changes: the components and updater are set and the lock, total and grade are kept; otherwise a new row is appended |
| SqlResults.UpsertKeepsKeysUnique | server/routes/results.js:52 | the upsert keeps the four-column key unique |
| SqlResults.Commit | server/routes/results.js:60-72 | the commit stores the upserted score together with exactly one audit row |
| SqlResults.PostScoreAsWritten | server/routes/results.js:31-80 | roles other than teacher and form master are refused; a locked first row of the three-column lookup rolls back; otherwise the write commits |
| SqlResults.AsWrittenOverwritesLockedRow | server/routes/results.js:39-46 | with an unlocked row of another session listed first, a locked row is overwritten |
| SqlResults.AsWrittenAgreesOnOneSession | server/routes/results.js:39-46 | with at most one row per student/subject/term, the first-row and any-row lock checks agree, and so do both routes |
| SqlResults.CommittedLeavesUnlocked | server/routes/results.js:44-64 | a committed write keeps the four-column key unique and leaves no locked row for the student, subject and term |
| SqlResults.UpsertSameValues | server/routes/results.js:49-64 | upserting the values a row already holds keeps the row count, and every row differs at most in `updated_at` |
| SqlResults.PostScore | server/routes/results.js:31-80 | only teachers and form masters may post; any locked row for the student, subject and term rolls back; otherwise the write commits, storing all five components and the updater under the four-column key and appending exactly the UPDATE_SCORE audit row |
| SqlResults.LockedRowsNeverChange | server/routes/results.js:44-46 | after a committed write every locked row is still present and unchanged |
| SqlResults.LockBlocksOtherSessions | server/routes/results.js:39-46 | a locked row blocks writes to the same student, subject and term in every session |
| SqlResults.KeyMatchIsUnique | server/routes/results.js:52 | under unique keys a row with the key is the only one, so the upsert finds it |
| SqlResults.RepeatedPostSameScores | server/routes/results.js:49-57 | repeating a committed write commits again, with the same row count and rows equal except `updated_at`, plus one more audit row |
| SqlResults.UnboundAlias | server/routes/results.js:14-21 | none is reported exactly when every select-list alias is bound by FROM |
| SqlResults.StudentRows | server/routes/results.js:18 | a LEFT JOIN gives a student exactly one row per matching score, in table order, carrying that score's columns, and with no match exactly one row whose score columns are all NULL |
| SqlResults.TwoSessionsTwoRows | server/routes/results.js:18 | the `ON` clause ignores the session, so a student scored in two sessions for the subject and term gets two rows |
| SqlResults.LeftJoin | server/routes/results.js:17-19 | every student of the class has at least one row in the join, carrying the student's id and surname |
| SqlResults.LeftJoinRows | server/routes/results.js:14-19 | a row is in the join exactly when it is one of the LEFT JOIN rows of some student of the class: a joining score's row with that score's columns, or the student's single all-NULL row |
| SqlResults.LeftJoinOnlyClass | server/routes/results.js:19 | every joined row belongs to a student of the class |
| SqlResults.StrLeTotal | server/routes/results.js:20 | the surname order is total |
| SqlResults.SortBySurname | server/routes/results.js:20 | the result is sorted by surname and is a permutation of its input |
| SqlResults.GetScores | server/routes/results.js:8-28 | disallowed roles are refused; an unbound alias fails the query; rows are the class's LEFT JOIN, sorted by surname |
| SqlResults.AsWrittenGetAlwaysFails | server/routes/results.js:14-26 | as written, every permitted GET fails, because alias `s` is not bound |
| SqlResults.IntendedSelectResolves | server/routes/results.js:14-21 | with `st.id` every alias resolves |
| SqlResults.StudentInOrderedJoin | server/routes/results.js:17-20 | every student of the class appears in the ordered join |
| SqlResults.SortKeepsRows | server/routes/results.js:20 | sorting keeps every row |
| SqlResults.IntendedGetListsWholeClass | server/routes/results.js:8-28 | with `st.id`, every permitted GET succeeds, sorted by surname, and lists every student of the class |
| SqlResults.IntendedGetShowsJoinRows | server/routes/results.js:8-28 | with `st.id`, a permitted GET returns exactly the LEFT JOIN rows of the class's students, each joining score with its columns |
| LocalDb.Query | services/db.ts:29-32 | an absent collection reads as the empty list |
| LocalDb.Init | services/db.ts:11-27 | each absent collection is seeded (students, classes, subjects from the fixtures; scores and PINs empty); present ones are kept |
| LocalDb.InitIdempotent | services/db.ts:7-27 | after one initialisation all collections exist and a second one changes nothing |
| LocalDb.IdOr | services/db.ts:40 | a present non-empty id is kept, otherwise the fresh one is used |
| LocalDb.Insert | services/db.ts:38-44 | insert into the scores collection: the item is appended with its own or a fresh id and otherwise unchanged |
| LocalDb.Merge | services/db.ts:55 | the merged score takes every field from the new score, and its id falls back to the old row's |
| LocalDb.UpsertScore | services/db.ts:46-60 | the first row with the same student, subject and term is merged and the others kept; with none, the score is appended with a fresh id |
| LocalDb.UpsertIgnoresSession | services/db.ts:48-52 | a row of another session in the same slot is overwritten |
| LocalDb.UpsertIgnoresLock | services/db.ts:54-55 | a locked row is overwritten like any other, lock flag included |
| LocalDb.UpsertTwiceIsOnce | services/db.ts:46-60 | upserting an id-less score twice equals upserting it once |
| LocalDb.UpsertTwiceRenamesId | services/db.ts:57 | a score that carries its own id is renamed on append, so a second upsert is not a no-op |
| LocalDb.InsertDoesNotUpsert | services/db.ts:38-60 | insert appends a second score for an occupied slot, while upsert does not |
| LocalDb.UpsertScoreIn | services/db.ts:46-60 | the store-level upsert changes only the scores collection: it stores the collection-level upsert, so every score of another slot stays in place |
| LocalDb.InsertIn | services/db.ts:38-44 | the store-level insert changes only its collection and appends exactly the returned item |
| Audit.Load | services/auditService.ts:7-12 | the service starts from the saved list, or from an empty one |
| Audit.EntryOf | services/auditService.ts:15-23 | an entry records the caller's user, role, action and record, with the simulated address |
| Audit.Log | services/auditService.ts:14-26 | the new entry goes in front, earlier entries are kept, and storage receives the new list |
| Audit.GetLogs | services/auditService.ts:28-30 | a copy of the list, element for element |
| Audit.LogAll | services/auditService.ts:14-26 | logging n requests adds n entries |
| Audit.Entries | services/auditService.ts:15-23 | the entry for each request, position by position |
| Audit.LogAllNewestFirst | services/auditService.ts:24-30 | starting empty, logging a1..an makes `getLogs` return their entries newest first |
| Audit.LogKeepsInSync | services/auditService.ts:24-25 | after a log, storage equals memory, so reloading gives the same list |
| Audit.LoadIsInSync | services/auditService.ts:7-12 | a loaded service is in step with storage |
| ScoreRows.WithField | components/Results.tsx:46 | the field takes the value and every other field is kept |
| ScoreRows.EditRow | components/Results.tsx:46-50 | after an edit the field holds the value, the other components and identity are kept, and the total and grade agree with the components |
| ScoreRows.HandleScoreChange | components/Results.tsx:44-52 | only the indexed row changes, by exactly that edit |
| ScoreRows.RewriteSameValueIsIdentity | components/Results.tsx:44-52 | writing a consistent row's current value changes nothing |
| ScoreRows.LastEditWins | components/Results.tsx:44-52 | editing the same field twice equals the last edit alone |
| ScoreRows.EditsCommute | components/Results.tsx:44-52 | edits of two different fields give the same row in either order |
| ResultsGrid.Clamp | components/Results.tsx:180 | the stored value is within 0..max; in-range values are kept, NaN and negatives give 0, and larger values give the max |
| ResultsGrid.ClampIdempotent | components/Results.tsx:190 | clamping a clamped value changes nothing |
| ResultsGrid.EditCell | components/Results.tsx:176-190 | a disabled input changes nothing; an enabled one applies the clamped edit |
| ResultsGrid.InRangeTotalIsBounded | components/Results.tsx:174-192 | in-range components give a total in 0..100, graded by the band table |
| ResultsGrid.EditCellKeepsRange | components/Results.tsx:174-192 | input edits keep every row in range and consistent |
| ResultsGrid.LockedRowIsFrozen | components/Results.tsx:178 | a locked row cannot be edited by any role |
| ResultsGrid.HandleSave | components/Results.tsx:71-83 | one payload per row carrying the subject; exactly one audit entry when every save succeeds and none when any fails |
| ResultsGrid.MockBatchIsLogged | components/Results.tsx:74-76 | against the mock service every batch save logs exactly one "Batch Score Update" |
| SheetGrid.EditCell | src/components/Results.tsx:33-41 | only the indexed row changes, by the grid edit: its field holds the value (NaN reads as 0), its other components, identity and lock are kept, and its total and grade agree with the components |
| SheetGrid.UnclampedTotalAbove100IsF | src/components/Results.tsx:132-136 | with no clamp, an exam of 61 on a full-marks row gives total 101 and grade "F" |
| SheetGrid.OverfullRowIsF | src/components/Results.tsx:37-39 | any edit leaving the total above 100 grades the row "F" |
| SheetGrid.PayloadOf | src/components/Results.tsx:46-53 | the posted score carries the row's id, components, total, grade and lock, with term t2 and session s1 |
| SheetGrid.HandleSave | src/components/Results.tsx:43-54 | one posted score per row, in row order |
| SheetGrid.PayloadKeepsRow | src/components/Results.tsx:46-53 | a posted score carries back everything the grid row shows about the score |
| MockApi.Draw | services/apiService.ts:39-43 | `Math.floor(Math.random() * n)` lies in 0..n-1 |
| MockApi.ScaledBelow | services/apiService.ts:39-43 | a draw in [0,1) scaled by n lies in [0,n) |
| MockApi.RoleFor | services/apiService.ts:12-17 | the role is form master iff "form" occurs, else principal iff "principal" occurs, else teacher iff "teacher" occurs, else admin |
| MockApi.Login | services/apiService.ts:9-32 | login always succeeds with the email's role and that role's name; an empty email becomes admin@school.com; the id is "u-" and a suffix |
| MockApi.EmptyEmailIsAdmin | services/apiService.ts:12-20 | the empty email signs in as admin |
| MockApi.FormBeatsPrincipal | services/apiService.ts:15-17 | an email with both "principal" and "form" signs in as form master |
| MockApi.MockRow | services/apiService.ts:38-56 | a mock row copies the student's identity; CAs are 5..9 and the exam 20..49; it is consistent and unlocked |
| MockApi.GetScores | services/apiService.ts:34-58 | one row per student of the class, in order, each from its own five draws |
| MockApi.MockRowPasses | services/apiService.ts:39-54 | a mock total lies in 40..85 and never grades "F" |
| MockApi.MockRowsPass | services/apiService.ts:34-58 | no row of the mock class list fails or is locked |
| MockApi.ClassRollMembers | services/apiService.ts:36-37 | the roll holds exactly the fixture students of the class |
| MockApi.RollUnfolds | services/apiService.ts:36-37 | the roll is, fixture by fixture in order, each student whose class matches |
| MockApi.SaveScore | services/apiService.ts:60-63 | every mock save succeeds |
| SheetApi.ShippedUrlIsMock | src/services/apiService.ts:6-8 | the shipped placeholder address runs in mock mode |
| SheetApi.DeployedUrlIsLive | src/services/apiService.ts:4-8 | a deployed script address is not in mock mode |
| SheetApi.MockLogin | src/services/apiService.ts:13-28 | mock login returns the fixed demo admin with the given email |
| SheetApi.InlineGrade | src/services/apiService.ts:60 | the inline grade is a letter; 70 and above is "A" and below 40 is "F" |
| SheetApi.InlineGradeAgreement | src/services/apiService.ts:58-61 | the inline grade equals the table grade exactly when the total is at most 100; above 100 it is "A" where the table gives "F" |
| SheetApi.MockRow | src/services/apiService.ts:44-62 | components in 0..9 and exam 0..59; the total is their sum (0..95) and the grade the inline grade; unlocked |
| SheetApi.MockGetScores | src/services/apiService.ts:39-62 | one row per student of the class, in order, each from its own draws |
| SheetApi.MockRowsConsistent | src/services/apiService.ts:58-62 | every mock row's grade agrees with the table |
| SheetApi.ScoreBody | src/services/apiService.ts:79-82 | the posted JSON carries every score field under its name, and no id |
| SheetApi.HeaderRowField | backend_google_sheet.js:181-189 | under the fixed header row, a record's field is the cell in that header's column |
| SheetApi.SavedRecord | backend_google_sheet.js:154-189 | a row written for a body decodes to the written cells under their headers |
| SheetApi.SavePlacement | backend_google_sheet.js:135-175 | after a save, some data row holds the body's cells, and no earlier row has the body's key |
| SheetApi.SaveHoldsScore | backend_google_sheet.js:128-178 | saving a score into an empty or headed sheet succeeds, and some data row then holds that score, with no earlier row carrying its key |
| SheetApi.SavedRowHoldsScore | backend_google_sheet.js:154-167 | a row written for a score decodes to a record holding that score |
| SheetApi.JoinShowsScore | backend_google_sheet.js:108-122 | joining with a record that holds a score shows that score's values |
| SheetApi.ReadFindsSaved | backend_google_sheet.js:102-106 | the read's first match for the saved key is the row the save wrote |
| SheetApi.ReadShowsSaved | backend_google_sheet.js:86-126 | when a data row holds a score and is the first with its key, the read shows that score on the student's row |
| SheetApi.SaveThenRead | backend_google_sheet.js:86-178 | save then read: the student's row shows the saved components, total, grade (F if empty) and lock |
| Layout.MenuUnfolds | components/Layout.tsx:52 | the filtered menu is, entry by entry, each item the role may see |
| Layout.MenuPerRole | components/Layout.tsx:31-52 | admin sees all five items; principal and form master the first three; teacher Dashboard and Results; parent Dashboard only |
| Layout.MenuTitles | components/Layout.tsx:31-37 | each role's menu by title, in order |
| Layout.DashboardForAllAdminPagesForAdmin | components/Layout.tsx:31-37 | every role sees the dashboard; PIN Manager and Audit Logs appear exactly for the administrator |
| Layout.InitialContext | components/Layout.tsx:28-29 | the shell starts in an active fixture session and term |
| Layout.SwitchRoles | components/Layout.tsx:39 | the switcher is open to administrators, principals and form masters, and closed exactly to teachers and parents |
| Layout.HandleSwitch | components/Layout.tsx:41-50 | an unknown session or term changes nothing; when both ids name fixtures the context becomes them and one "Academic Context Switch" entry by the user, captioned as the header shows the new context, goes in front of the log |
| Layout.Step | components/Layout.tsx:114-180 | a role that may not switch changes nothing by clicking the closed switcher; options act only while the dropdown is open; only an option changes the context or the log |
| Layout.LockedOutRoleNeverSwitches | components/Layout.tsx:39-180 | a teacher or parent, starting from the closed switcher, never changes the context or the log, whatever sequence of actions they perform |
| Layout.PermittedRoleSwitchesTerm | components/Layout.tsx:39-180 | a role that may switch opens the switcher and picks a fixture term: the term changes, the session stays, the dropdown closes, and one entry captioned with the new context is logged |
| Layout.SwitchExamples | components/Layout.tsx:41-50 | switching to s2/t3 records "2024/2025 - Third Term"; an unknown term changes nothing |

## Left out

- I/O is abstracted away: timers, `fetch`, JSON text, `localStorage` and spreadsheet access become values passed in and returned.
- The Apps Script `LockService` lock is left out. The model is sequential, so there is nothing for it to guard.
- `Math.random()` and generated ids and timestamps are parameters. Their exact formats (`toString(36)`, ISO dates) are not modelled.
- Grid cells hold integers. `parseFloat` of fractional text is out of scope. Grading itself is over reals, so fractional totals are covered there.
- Google Sheets does not coerce stored cells in this model (e.g. "TRUE" into a boolean); cells read back as written. If the sheet hands the lock flag back as a boolean, the read's `=== 'TRUE'` test sees the row as unlocked (SheetBackend.BooleanLockReadsUnlocked), and the grid's next save writes "FALSE".
- SheetApi.SaveThenRead: the lock half of the round trip rests on the cell reading back as the text "TRUE"; with a coercing sheet it does not hold.
- JsValues.StringToNumber: text is read only as a plain, optionally negated decimal integer, with "" as 0. JavaScript's `Number` also trims whitespace and accepts forms such as "+7", "7.0", "0x7" and "1e1"; those read as NaN here, so `NumberOrZero` and loose `==` differ from JavaScript on them (e.g. `7 == " 7"`).
- SqlResults.ScoreInput: the posted body is assumed to carry `studentId`, `subjectId`, `termId` and `sessionId` as strings and each score component as an integer or nothing. A missing key reaches PostgreSQL as NULL, which matches no row in the lock check and no row under `ON CONFLICT`, and a non-numeric component fails the integer column. Neither case is modelled, so SqlResults.RepeatedPostSameScores and SqlResults.LockBlocksOtherSessions are not promised for such bodies.
- LocalDb.Insert: `insert` in `services/db.ts` takes any collection, but the model covers only the scores collection. On the other collections it appends the same way, with the same id rule.
- SqlResults.StrLe: `ORDER BY st.last_name` is code-point order, as under the "C" collation. PostgreSQL sorts by the database's collation, which is often locale-aware and can order surnames differently (e.g. by case or accents).
- Express middleware (`authenticate`, `authorize`) is reduced to the role lists the routes pass. The SQL error text and HTTP status codes are not modelled.
- The PIN gate, parent portal, dashboards, login screens, authentication and admin routes, and the remark generator are not part of this model.
- Layout rendering, icons and routing links are left out. Only the menu contents, the switcher, and its audit entry are modelled.
- SqlResults.RepeatedPostSameScores: rows agree only up to `updated_at`. The first write of a new key leaves it unset and the second sets it.
- LocalDb.UpsertTwiceIsOnce: requires the score to carry no id. With an id, appending renames it, as LocalDb.UpsertTwiceRenamesId shows.
- SqlResults.PostScoreAsWritten: its ensures state the route's outcome case by case. Its meaning is carried by SqlResults.AsWrittenOverwritesLockedRow and SqlResults.AsWrittenAgreesOnOneSession.

## Findings

| source | as written | input that shows it | evidently intended | confidence | as-written member | corrected member |
|---|---|---|---|---|---|---|
| server/routes/results.js:15 | the select list reads `s.id`, but FROM binds only `st` and `sc` | any permitted GET, e.g. class c1 | `st.id`, so the query lists the class | not executed | SqlResults.AsWrittenGetAlwaysFails | SqlResults.IntendedGetListsWholeClass |
| server/routes/results.js:39-46 | the lock check reads only `rows[0]` of a lookup that ignores the session | an unlocked s1 row stored before a locked s2 row; a write for s2 overwrites the locked row | any locked row for the student, subject and term blocks the write | not executed | SqlResults.AsWrittenOverwritesLockedRow | SqlResults.LockedRowsNeverChange |
