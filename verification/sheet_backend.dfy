/** The spreadsheet web-app backend: sheets as rows of cells, the header-row
    decoder, the login, score-read and score-save handlers, and the action
    dispatch. The global script lock is not modelled. */
module SheetBackend {
  import opened Common
  import opened JsValues

  type Row = seq<Cell>
  type Sheet = seq<Row>

  /** The three tabs the handlers open; `None` is a missing tab. */
  datatype Workbook = Workbook(users: Option<Sheet>, students: Option<Sheet>, scores: Option<Sheet>)

  /** The user as the login answer describes them; `status` is always "active". */
  datatype UserInfo = UserInfo(id: Option<Cell>, name: Option<Cell>, email: Option<Cell>, role: Option<Cell>, status: string)

  /** One row of the score-entry grid as the backend sends it. Numeric fields
      are `None` where `Number(...)` gives NaN. */
  datatype JoinedRow = JoinedRow(
    id: Option<Cell>, admissionNo: Option<Cell>, firstName: Option<Cell>, lastName: Option<Cell>,
    ca1: Option<int>, ca2: Option<int>, assignment: Option<int>, notes: Option<int>,
    exam: Option<int>, total: Option<int>, grade: Cell, isLocked: bool)

  /** The JSON object a handler returns. */
  datatype Response =
    | Failure(error: string)
    | Success
    | LoggedIn(user: UserInfo)
    | ScoreRows(rows: seq<JoinedRow>)

  /** What `e.postData.contents` held: nothing, text that is not JSON, or a
      parsed object. */
  datatype PostBody = Absent | Malformed | Json(fields: Record)

  // --- header-row decoding ---

  /** The object built from `row` after the first `n` headers have been
      assigned in order; a later header with the same key overwrites an
      earlier one, and a header past the end of the row assigns `undefined`. */
  function AssignFields(headers: Row, row: Row, n: nat): (r: Record)
    requires n <= |headers|
    ensures forall k :: k in r ==> exists i :: 0 <= i < n && i < |row| && KeyOf(headers[i]) == k
  {
    if n == 0 then map[]
    else
      var acc := AssignFields(headers, row, n - 1);
      var k := KeyOf(headers[n - 1]);
      if n - 1 < |row| then acc[k := row[n - 1]] else acc - {k}
  }

  function RowToRecord(headers: Row, row: Row): Record {
    AssignFields(headers, row, |headers|)
  }

  /** The cell a row holds in column `i`, `undefined` past its end. */
  function CellAt(row: Row, i: int): Option<Cell>
    requires 0 <= i
  {
    if i < |row| then Some(row[i]) else None
  }

  /** No header after position `i` has the same key as header `i`. */
  predicate LastWithKey(headers: Row, i: int) {
    0 <= i < |headers| && forall j :: i < j < |headers| ==> KeyOf(headers[j]) != KeyOf(headers[i])
  }

  lemma {:induction false} AssignFieldsValue(headers: Row, row: Row, n: nat, i: nat)
    requires i < n <= |headers|
    requires forall j :: i < j < n ==> KeyOf(headers[j]) != KeyOf(headers[i])
    ensures Get(AssignFields(headers, row, n), KeyOf(headers[i])) == CellAt(row, i)
  {
    var key := KeyOf(headers[i]);
    if n - 1 > i {
      AssignFieldsValue(headers, row, n - 1, i);
      var acc := AssignFields(headers, row, n - 1);
      assert KeyOf(headers[n - 1]) != key;
      assert Get(AssignFields(headers, row, n), key) == Get(acc, key);
    }
  }

  /** Row 1 holds the headers and every later row becomes one record. */
  function GetSheetData(sheet: Sheet): (records: seq<Record>)
    ensures |records| == if |sheet| == 0 then 0 else |sheet| - 1
    ensures forall r :: 0 <= r < |records| ==> records[r] == RowToRecord(sheet[0], sheet[r + 1])
  {
    if |sheet| == 0 then []
    else seq(|sheet| - 1, r requires 0 <= r < |sheet| - 1 => RowToRecord(sheet[0], sheet[r + 1]))
  }

  /** A record's field under a header is the row's cell in that header's
      column (when no later header reuses the key), and a record has no keys
      other than the headers'. */
  lemma SheetDataFields(sheet: Sheet, r: nat, i: nat)
    requires r < |GetSheetData(sheet)|
    ensures LastWithKey(sheet[0], i) ==> Get(GetSheetData(sheet)[r], KeyOf(sheet[0][i])) == CellAt(sheet[r + 1], i)
    ensures forall k :: k in GetSheetData(sheet)[r] ==> exists j :: 0 <= j < |sheet[0]| && KeyOf(sheet[0][j]) == k
  {
    if LastWithKey(sheet[0], i) {
      AssignFieldsValue(sheet[0], sheet[r + 1], |sheet[0]|, i);
    }
  }

  // --- score key ---

  /** The score row key test both handlers use: `==` on student, subject and term. */
  predicate KeyMatches(rec: Record, studentId: Option<Cell>, subjectId: Option<Cell>, termId: Option<Cell>) {
    && LooseEq(Get(rec, "student_id"), studentId)
    && LooseEq(Get(rec, "subject_id"), subjectId)
    && LooseEq(Get(rec, "term_id"), termId)
  }

  /** The first score record matching the key (`scores.find` / the save loop). */
  function FirstScore(records: seq<Record>, studentId: Option<Cell>, subjectId: Option<Cell>, termId: Option<Cell>): Option<nat> {
    FindIndex(records, rec => KeyMatches(rec, studentId, subjectId, termId), 0)
  }

  /** The lookup lands on `m` when `m` matches and nothing before it does. */
  lemma FirstScoreIs(records: seq<Record>, studentId: Option<Cell>, subjectId: Option<Cell>, termId: Option<Cell>, m: nat)
    requires m < |records| && KeyMatches(records[m], studentId, subjectId, termId)
    requires forall j :: 0 <= j < m ==> !KeyMatches(records[j], studentId, subjectId, termId)
    ensures FirstScore(records, studentId, subjectId, termId) == Some(m)
  {
  }

  // --- login ---

  /** A user row whose email and password are `===` the body's. */
  predicate Credentials(u: Record, data: Record) {
    StrictEq(Get(u, "email"), Get(data, "email")) && StrictEq(Get(u, "password"), Get(data, "password"))
  }

  /** The user fields the login answer copies from a row, marked active. */
  function UserInfoOf(u: Record): UserInfo {
    UserInfo(Get(u, "id"), Get(u, "name"), Get(u, "email"), Get(u, "role"), "active")
  }

  /** `handleLogin`: the first user row with the body's credentials signs in
      with that row's fields; no such row answers "Invalid credentials". */
  function HandleLogin(users: Option<Sheet>, data: Record): (r: Response)
    ensures users.None? ==> r == Failure("Database not initialized (Users sheet missing)")
    ensures users.Some? ==> r.LoggedIn? || r == Failure("Invalid credentials")
    ensures r.LoggedIn? ==>
              var records := GetSheetData(users.value);
              exists i :: 0 <= i < |records| && Credentials(records[i], data)
                && (forall j :: 0 <= j < i ==> !Credentials(records[j], data))
                && r.user == UserInfoOf(records[i])
    ensures r.LoggedIn? ==> r.user.status == "active"
    ensures users.Some? && r.Failure? ==>
              forall u :: u in GetSheetData(users.value) ==> !Credentials(u, data)
  {
    match users
    case None => Failure("Database not initialized (Users sheet missing)")
    case Some(sheet) =>
      var records := GetSheetData(sheet);
      match FindIndex(records, u => Credentials(u, data), 0)
      case Some(i) => LoggedIn(UserInfoOf(records[i]))
      case None => Failure("Invalid credentials")
  }

  /** When user row `i` is the first with the body's credentials, the login
      answers with exactly that row's fields, whatever later rows hold. */
  lemma LoginPicksFirstUser(users: Sheet, data: Record, i: nat)
    requires i < |GetSheetData(users)| && Credentials(GetSheetData(users)[i], data)
    requires forall j :: 0 <= j < i ==> !Credentials(GetSheetData(users)[j], data)
    ensures HandleLogin(Some(users), data) == LoggedIn(UserInfoOf(GetSheetData(users)[i]))
  {
    var records := GetSheetData(users);
    var found := FindIndex(records, u => Credentials(u, data), 0);
    assert found.Some?;
    assert found.value == i;
  }

  // --- reading scores ---

  function Param(params: map<string, string>, key: string): Option<Cell> {
    if key in params then Some(Text(params[key])) else None
  }

  /** One output row: the student's identity fields joined with a score
      record, or with `{}` when the student has none. */
  function JoinRow(student: Record, score: Record): (row: JoinedRow)
    ensures row.id == Get(student, "id") && row.admissionNo == Get(student, "admission_no")
            && row.firstName == Get(student, "first_name") && row.lastName == Get(student, "last_name")
    ensures score == map[] ==>
              (row.ca1 == Some(0) && row.ca2 == Some(0) && row.assignment == Some(0) && row.notes == Some(0)
               && row.exam == Some(0) && row.total == Some(0) && row.grade == Text("F") && !row.isLocked)
    ensures Truthy(Get(score, "grade")) ==> Some(row.grade) == Get(score, "grade")
    ensures !Truthy(Get(score, "grade")) ==> row.grade == Text("F")
    ensures row.isLocked <==> Get(score, "is_locked") == Some(Text("TRUE"))
  {
    JoinedRow(
      Get(student, "id"), Get(student, "admission_no"), Get(student, "first_name"), Get(student, "last_name"),
      NumberOrZero(Get(score, "ca1")), NumberOrZero(Get(score, "ca2")),
      NumberOrZero(Get(score, "assignment")), NumberOrZero(Get(score, "notes")),
      NumberOrZero(Get(score, "exam")), NumberOrZero(Get(score, "total")),
      if Truthy(Get(score, "grade")) then Get(score, "grade").value else Text("F"),
      StrictEq(Get(score, "is_locked"), Some(Text("TRUE"))))
  }

  predicate InClass(student: Record, params: map<string, string>) {
    StrictEq(Get(student, "class_id"), Param(params, "classId"))
  }

  function ClassStudents(students: Sheet, params: map<string, string>): seq<Record> {
    Filter(GetSheetData(students), s => InClass(s, params))
  }

  /** The score record joined to `student`: the first match, else `{}`. */
  function ScoreFor(student: Record, scores: seq<Record>, params: map<string, string>): (sc: Record)
    ensures var first := FirstScore(scores, Get(student, "id"), Param(params, "subjectId"), Param(params, "termId"));
            && (first.None? ==> sc == map[])
            && (first.Some? ==> first.value < |scores| && sc == scores[first.value])
  {
    match FirstScore(scores, Get(student, "id"), Param(params, "subjectId"), Param(params, "termId"))
    case Some(j) => scores[j]
    case None => map[]
  }

  /** Exactly one row per student of the class, in sheet order, each joined
      with that student's first score record for the subject and term. */
  function HandleGetScores(students: Option<Sheet>, scores: Option<Sheet>, params: map<string, string>): (r: Response)
    ensures students.None? || scores.None? ==> r == Failure("Sheets missing")
    ensures students.Some? && scores.Some? ==> r.ScoreRows?
    ensures r.ScoreRows? ==>
              var cls := ClassStudents(students.value, params);
              |r.rows| == |cls|
              && forall k :: 0 <= k < |cls| ==>
                   && r.rows[k].id == Get(cls[k], "id") && InClass(cls[k], params)
                   && r.rows[k] == JoinRow(cls[k], ScoreFor(cls[k], GetSheetData(scores.value), params))
  {
    if students.None? || scores.None? then Failure("Sheets missing")
    else
      var cls := ClassStudents(students.value, params);
      assert forall k :: 0 <= k < |cls| ==> cls[k] in cls;
      ScoreRows(JoinRows(cls, GetSheetData(scores.value), params))
  }

  function JoinRows(cls: seq<Record>, records: seq<Record>, params: map<string, string>): (rows: seq<JoinedRow>)
    ensures |rows| == |cls|
    ensures forall k :: 0 <= k < |cls| ==> rows[k] == JoinRow(cls[k], ScoreFor(cls[k], records, params))
  {
    seq(|cls|, k requires 0 <= k < |cls| => JoinRow(cls[k], ScoreFor(cls[k], records, params)))
  }

  /** A student with no matching score record reads as all zeros, grade "F",
      unlocked. */
  lemma UnscoredStudentReadsAsZero(students: Sheet, scores: Sheet, params: map<string, string>, k: nat)
    requires k < |ClassStudents(students, params)|
    requires var st := ClassStudents(students, params)[k];
             forall j :: 0 <= j < |GetSheetData(scores)| ==>
                 !KeyMatches(GetSheetData(scores)[j], Get(st, "id"), Param(params, "subjectId"), Param(params, "termId"))
    ensures var row := HandleGetScores(Some(students), Some(scores), params).rows[k];
            row.ca1 == Some(0) && row.ca2 == Some(0) && row.assignment == Some(0) && row.notes == Some(0)
            && row.exam == Some(0) && row.total == Some(0) && row.grade == Text("F") && !row.isLocked
  {
  }

  /** A lock flag the sheet hands back as a boolean rather than the text
      "TRUE" reads as unlocked, because the read compares with `===`. */
  lemma BooleanLockReadsUnlocked(student: Record, score: Record)
    requires Get(score, "is_locked") == Some(Bool(true))
    ensures !JoinRow(student, score).isLocked
  {
  }

  // --- saving a score ---

  const SCORE_HEADERS: seq<string> := [
    "student_id", "subject_id", "term_id", "session_id", "ca1", "ca2",
    "assignment", "notes", "exam", "total", "grade", "is_locked"]

  const HEADER_ROW: Row := [
    Text("student_id"), Text("subject_id"), Text("term_id"), Text("session_id"), Text("ca1"), Text("ca2"),
    Text("assignment"), Text("notes"), Text("exam"), Text("total"), Text("grade"), Text("is_locked")]

  /** The twelve column names are pairwise different. */
  lemma HeadersDistinct()
    ensures forall i, j :: 0 <= i < j < |SCORE_HEADERS| ==> SCORE_HEADERS[i] != SCORE_HEADERS[j]
  {
  }

  /** The header row's cells are the column names as text. */
  lemma HeaderKeys()
    ensures |HEADER_ROW| == |SCORE_HEADERS|
    ensures forall j :: 0 <= j < |HEADER_ROW| ==> KeyOf(HEADER_ROW[j]) == SCORE_HEADERS[j]
  {
  }

  /** The body field written under each header, column by column; the
      twelfth column, `is_locked`, is written from `isLocked` as a flag. */
  const BODY_FIELDS: seq<string> := [
    "studentId", "subjectId", "termId", "sessionId", "ca1", "ca2",
    "assignment", "notes", "exam", "total", "grade"]

  /** An `undefined` value is written as an empty cell. */
  function CellOrEmpty(v: Option<Cell>): Cell {
    v.GetOr(Text(""))
  }

  /** The lock flag as the sheet stores it. */
  function LockCell(data: Record): (c: Cell)
    ensures c == Text("TRUE") || c == Text("FALSE")
    ensures c == Text("TRUE") <==> Truthy(Get(data, "isLocked"))
  {
    if Truthy(Get(data, "isLocked")) then Text("TRUE") else Text("FALSE")
  }

  /** The twelve cells written for a save, in header order. */
  function ScoreCells(data: Record): (row: Row)
    ensures |row| == |HEADER_ROW| == |BODY_FIELDS| + 1
    ensures forall i {:trigger BODY_FIELDS[i]} :: 0 <= i < |BODY_FIELDS| ==> row[i] == CellOrEmpty(Get(data, BODY_FIELDS[i]))
    ensures row[|BODY_FIELDS|] == LockCell(data)
  {
    [ CellOrEmpty(Get(data, "studentId")), CellOrEmpty(Get(data, "subjectId")),
      CellOrEmpty(Get(data, "termId")), CellOrEmpty(Get(data, "sessionId")),
      CellOrEmpty(Get(data, "ca1")), CellOrEmpty(Get(data, "ca2")),
      CellOrEmpty(Get(data, "assignment")), CellOrEmpty(Get(data, "notes")),
      CellOrEmpty(Get(data, "exam")), CellOrEmpty(Get(data, "total")),
      CellOrEmpty(Get(data, "grade")), LockCell(data) ]
  }

  /** The header row is written first only into an empty sheet. */
  function WithHeader(sheet: Sheet): (s: Sheet)
    ensures |s| > 0
    ensures |sheet| > 0 ==> s == sheet
  {
    if |sheet| == 0 then [HEADER_ROW] else sheet
  }

  /** `getRange(row, 1, 1, 12).setValues(...)`: the first twelve cells are
      replaced and any further cells of the row stay. */
  function Overwrite(row: Row, cells: Row): (r: Row)
    ensures |r| == if |row| > |cells| then |row| else |cells|
    ensures r[..|cells|] == cells
    ensures |row| > |cells| ==> r[|cells|..] == row[|cells|..]
  {
    cells + (if |row| > |cells| then row[|cells|..] else [])
  }

  /** The record of data row `i` (sheet row `i + 2`). */
  function DataRecord(sheet: Sheet, i: nat): Record
    requires i + 1 < |sheet|
  {
    RowToRecord(sheet[0], sheet[i + 1])
  }

  function SaveKey(data: Record, rec: Record): bool {
    KeyMatches(rec, Get(data, "studentId"), Get(data, "subjectId"), Get(data, "termId"))
  }

  /** The data row a save overwrites: the first whose key matches the body,
      or `None` when no data row does. */
  function SaveSlot(sheet: Sheet, data: Record): (r: Option<nat>)
    requires |sheet| > 0
    ensures r.Some? ==> r.value + 1 < |sheet| && SaveKey(data, DataRecord(sheet, r.value))
    ensures r.Some? ==> forall j :: 0 <= j < r.value ==> !SaveKey(data, DataRecord(sheet, j))
    ensures r.None? ==> forall j :: 0 <= j < |sheet| - 1 ==> !SaveKey(data, DataRecord(sheet, j))
  {
    var records := GetSheetData(sheet);
    assert forall i :: 0 <= i < |records| ==> records[i] == DataRecord(sheet, i);
    FindIndex(records, rec => SaveKey(data, rec), 0)
  }

  /** Overwrites the first data row whose student, subject and term `==` the
      body's, otherwise appends one row. Any stored lock is ignored and the
      answer is always `{success: true}`; a missing Scores tab throws. */
  function HandleSaveScore(scores: Option<Sheet>, data: Record): (r: (Response, Option<Sheet>))
    ensures scores.None? ==> r.0.Failure? && r.1 == scores
    ensures scores.Some? ==> r.0 == Success && r.1.Some?
    ensures scores.Some? ==>
              var s1 := WithHeader(scores.value);
              var out := r.1.value;
              && (SaveSlot(s1, data).Some? ==>
                    var i := SaveSlot(s1, data).value;
                    && |out| == |s1| && |out[i + 1]| >= |HEADER_ROW| && out[i + 1][..|HEADER_ROW|] == ScoreCells(data)
                    && forall k :: 0 <= k < |s1| && k != i + 1 ==> out[k] == s1[k])
              && (SaveSlot(s1, data).None? ==> out == s1 + [ScoreCells(data)])
  {
    match scores
    case None => (Failure("TypeError: Cannot read properties of null (reading 'getLastRow')"), None)
    case Some(sheet) =>
      var s1 := WithHeader(sheet);
      var cells := ScoreCells(data);
      match SaveSlot(s1, data)
      case Some(i) => (Success, Some(s1[i + 1 := Overwrite(s1[i + 1], cells)]))
      case None => (Success, Some(s1 + [cells]))
  }

  /** A save to an empty sheet writes the header row and then the data row. */
  lemma SaveIntoEmptySheet(data: Record)
    ensures HandleSaveScore(Some([]), data).1 == Some([HEADER_ROW, ScoreCells(data)])
  {
    var s1 := WithHeader([]);
    assert s1 == [HEADER_ROW];
    assert s1 + [ScoreCells(data)] == [HEADER_ROW, ScoreCells(data)];
  }

  // --- dispatch ---

  function BodyOf(post: PostBody): (body: Record)
    ensures !post.Json? ==> body == map[]
  {
    match post
    case Json(fields) => fields
    case _ => map[]
  }

  /** Routes on the `action` query parameter; only `saveScore` changes the
      workbook, and an unknown action answers `{error: 'Invalid action'}`. */
  function HandleRequest(params: map<string, string>, post: PostBody, book: Workbook): (r: (Response, Workbook))
    ensures var action := Param(params, "action");
            action != Some(Text("login")) && action != Some(Text("getScores")) && action != Some(Text("saveScore"))
            ==> r == (Failure("Invalid action"), book)
    ensures Param(params, "action") != Some(Text("saveScore")) ==> r.1 == book
    ensures r.1.users == book.users && r.1.students == book.students
    ensures Param(params, "action") == Some(Text("login")) ==> r.0 == HandleLogin(book.users, BodyOf(post))
    ensures Param(params, "action") == Some(Text("getScores")) ==> r.0 == HandleGetScores(book.students, book.scores, params)
    ensures Param(params, "action") == Some(Text("saveScore")) ==>
              r == (HandleSaveScore(book.scores, BodyOf(post)).0, book.(scores := HandleSaveScore(book.scores, BodyOf(post)).1))
  {
    var action := Param(params, "action");
    var body := BodyOf(post);
    if action == Some(Text("login")) then (HandleLogin(book.users, body), book)
    else if action == Some(Text("getScores")) then (HandleGetScores(book.students, book.scores, params), book)
    else if action == Some(Text("saveScore")) then
      var saved := HandleSaveScore(book.scores, body);
      (saved.0, book.(scores := saved.1))
    else (Failure("Invalid action"), book)
  }

  /** A body that does not parse is handled exactly like an empty object. */
  lemma MalformedBodyIsEmptyObject(params: map<string, string>, book: Workbook)
    ensures HandleRequest(params, Malformed, book) == HandleRequest(params, Json(map[]), book)
  {
  }
}
