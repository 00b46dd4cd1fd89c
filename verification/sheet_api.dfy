/** The service that talks to the spreadsheet web app, or mocks it while the
    script address is still the placeholder: the mock-mode test, mock rows
    with an inline grade, and the JSON body a save posts, with the round trip
    of a saved score through the backend's save and read handlers. */
module SheetApi {
  import opened Common
  import opened Types
  import opened Constants
  import opened JsValues
  import opened ScoreRows
  import opened SheetBackend
  import MockApi

  /** The script address as shipped: still the placeholder. */
  const GOOGLE_SCRIPT_URL := "PASTE_YOUR_COPIED_GOOGLE_SCRIPT_URL_HERE"

  /** Mock mode while the address contains the placeholder marker. */
  predicate IsMockMode(url: string) {
    Contains(url, "PASTE_YOUR")
  }

  /** The shipped address runs the service in mock mode. */
  lemma ShippedUrlIsMock()
    ensures IsMockMode(GOOGLE_SCRIPT_URL)
  {
    assert OccursAt(GOOGLE_SCRIPT_URL, "PASTE_YOUR", 0);
  }

  /** A deployed address does not. */
  lemma DeployedUrlIsLive()
    ensures !IsMockMode("https://script.google.com/macros/s/x/exec")
  {
    var url := "https://script.google.com/macros/s/x/exec";
    forall i | 0 <= i <= |url| - |"PASTE_YOUR"|
      ensures !OccursAt(url, "PASTE_YOUR", i)
    {
      assert url[i..i + |"PASTE_YOUR"|][0] == url[i] != 'P';
    }
  }

  /** Mock `login`: the fixed demo administrator with the given email. */
  function MockLogin(email: string): (u: User)
    ensures u.role == Admin && u.email == email && u.status == Active
    ensures u.id == "mock-user-id" && u.name == "Demo Admin"
  {
    User("mock-user-id", "Demo Admin", email, Admin, Active)
  }

  /** The inline grade of the mock rows: thresholds 70, 60, 50 and 40 with
      no upper bound. */
  function InlineGrade(total: int): (g: string)
    ensures g in GRADE_LETTERS
    ensures total >= 70 ==> g == "A"
    ensures total < 40 ==> g == "F"
  {
    if total >= 70 then "A" else if total >= 60 then "B" else if total >= 50 then "C"
    else if total >= 40 then "D" else "F"
  }

  /** The inline grade agrees with the table lookup exactly on totals up to
      100; above 100 it says "A" where the lookup falls back to "F". */
  lemma InlineGradeAgreement(total: int)
    ensures InlineGrade(total) == GradeOf(total) <==> total <= 100
    ensures total > 100 ==> InlineGrade(total) == "A" && GradeOf(total) == "F"
  {
    CalculateGradeIsBand(total);
  }

  /** One mock row from five draws starting at call `k`: assessments 0..9,
      exam 0..59, total their sum, never locked. */
  function MockRow(s: Student, rnd: nat -> MockApi.Unit, k: nat): (row: GridRow)
    ensures row.id == s.id && row.studentId == s.id && row.admissionNo == s.admissionNo
    ensures row.firstName == s.firstName && row.lastName == s.lastName
    ensures 0 <= row.ca1 <= 9 && 0 <= row.ca2 <= 9 && 0 <= row.assignment <= 9 && 0 <= row.notes <= 9
    ensures 0 <= row.exam <= 59
    ensures row.total == Sum(row) && 0 <= row.total <= 95
    ensures row.grade == InlineGrade(row.total) && !row.isLocked
  {
    var ca1 := MockApi.Draw(rnd(k), 10);
    var ca2 := MockApi.Draw(rnd(k + 1), 10);
    var asg := MockApi.Draw(rnd(k + 2), 10);
    var notes := MockApi.Draw(rnd(k + 3), 10);
    var exam := MockApi.Draw(rnd(k + 4), 60);
    var total := ca1 + ca2 + asg + notes + exam;
    GridRow(s.id, s.id, s.admissionNo, s.firstName, s.lastName, ca1, ca2, asg, notes, exam,
            total, InlineGrade(total), false)
  }

  /** Mock `getScores`: one row per fixture student of the class, in fixture
      order. */
  function MockGetScores(classId: string, rnd: nat -> MockApi.Unit): (rows: seq<GridRow>)
    ensures |rows| == |MockApi.ClassRoll(classId)|
    ensures forall i :: 0 <= i < |rows| ==> rows[i] == MockRow(MockApi.ClassRoll(classId)[i], rnd, 5 * i)
  {
    var roll := MockApi.ClassRoll(classId);
    seq(|roll|, i requires 0 <= i < |roll| => MockRow(roll[i], rnd, 5 * i))
  }

  /** Every mock row is consistent: its inline grade is the table's grade. */
  lemma MockRowsConsistent(classId: string, rnd: nat -> MockApi.Unit)
    ensures var rows := MockGetScores(classId, rnd);
            forall i :: 0 <= i < |rows| ==> Consistent(rows[i])
  {
    var rows := MockGetScores(classId, rnd);
    forall i | 0 <= i < |rows|
      ensures Consistent(rows[i])
    {
      InlineGradeAgreement(rows[i].total);
    }
  }

  /** `JSON.stringify` of a posted score: the absent id is omitted, strings,
      numbers and the flag keep their types. */
  function ScoreBody(s: Score): (body: Record)
    ensures "id" !in body
    ensures Get(body, "studentId") == Some(Text(s.studentId)) && Get(body, "subjectId") == Some(Text(s.subjectId))
    ensures Get(body, "termId") == Some(Text(s.termId)) && Get(body, "sessionId") == Some(Text(s.sessionId))
    ensures Get(body, "ca1") == Some(Num(s.ca1)) && Get(body, "ca2") == Some(Num(s.ca2))
    ensures Get(body, "assignment") == Some(Num(s.assignment)) && Get(body, "notes") == Some(Num(s.notes))
    ensures Get(body, "exam") == Some(Num(s.exam)) && Get(body, "total") == Some(Num(s.total))
    ensures Get(body, "grade") == Some(Text(s.grade)) && Get(body, "isLocked") == Some(Bool(s.isLocked))
  {
    var body := map[
      "studentId" := Text(s.studentId), "subjectId" := Text(s.subjectId),
      "termId" := Text(s.termId), "sessionId" := Text(s.sessionId),
      "ca1" := Num(s.ca1), "ca2" := Num(s.ca2), "assignment" := Num(s.assignment),
      "notes" := Num(s.notes), "exam" := Num(s.exam), "total" := Num(s.total),
      "grade" := Text(s.grade), "isLocked" := Bool(s.isLocked)];
    body
  }

  /** Under the fixed header row, a data row's record holds column `i`'s
      cell under header `i`. */
  lemma HeaderRowField(row: Row, i: nat)
    requires i < |HEADER_ROW|
    ensures Get(RowToRecord(HEADER_ROW, row), SCORE_HEADERS[i]) == CellAt(row, i)
  {
    HeadersDistinct();
    HeaderKeys();
    AssignFieldsValue(HEADER_ROW, row, |HEADER_ROW|, i);
  }

  /** A row whose first twelve cells were written for `data` decodes, under
      the fixed header row, to those twelve cells. */
  lemma SavedRecord(data: Record, row: Row)
    requires |row| >= |HEADER_ROW| && row[..|HEADER_ROW|] == ScoreCells(data)
    ensures forall i :: 0 <= i < |HEADER_ROW| ==>
              Get(RowToRecord(HEADER_ROW, row), SCORE_HEADERS[i]) == Some(ScoreCells(data)[i])
  {
    forall i | 0 <= i < |HEADER_ROW|
      ensures Get(RowToRecord(HEADER_ROW, row), SCORE_HEADERS[i]) == Some(ScoreCells(data)[i])
    {
      HeaderRowField(row, i);
      assert row[i] == row[..|HEADER_ROW|][i];
    }
  }

  /** Where a save lands in a sheet that is empty or starts with the fixed
      header row: data row `m` holds the written cells, and the data rows
      before it are the old ones, none of which has the saved key. */
  lemma SavePlacement(sheet: Sheet, data: Record) returns (m: nat)
    requires sheet == [] || sheet[0] == HEADER_ROW
    ensures var out := HandleSaveScore(Some(sheet), data).1.value;
            && m + 1 < |out| && out[0] == HEADER_ROW
            && |out[m + 1]| >= |HEADER_ROW| && out[m + 1][..|HEADER_ROW|] == ScoreCells(data)
            && (forall j :: 0 <= j < m ==> !SaveKey(data, DataRecord(out, j)))
  {
    var s1 := WithHeader(sheet);
    assert s1[0] == HEADER_ROW;
    var out := HandleSaveScore(Some(sheet), data).1.value;
    var slot := SaveSlot(s1, data);
    m := PlaceRow(s1, out, ScoreCells(data), slot);
    SamePrefixSameRecords(out, s1, m);
  }

  /** Where a save puts its cells, for any row of cells: over the matched
      data row, or appended after the last one; the rows up to it are the
      sheet's own. */
  lemma PlaceRow(s1: Sheet, out: Sheet, cells: Row, slot: Option<nat>) returns (m: nat)
    requires |s1| > 0
    requires slot.Some? ==>
               && slot.value + 1 < |s1| && |out| == |s1|
               && |out[slot.value + 1]| >= |cells| && out[slot.value + 1][..|cells|] == cells
               && forall k :: 0 <= k < |s1| && k != slot.value + 1 ==> out[k] == s1[k]
    requires slot.None? ==> out == s1 + [cells]
    ensures m + 1 < |out| && |out[m + 1]| >= |cells| && out[m + 1][..|cells|] == cells
    ensures slot.Some? ==> m == slot.value
    ensures slot.None? ==> m == |s1| - 1
    ensures forall k :: 0 <= k <= m ==> out[k] == s1[k]
  {
    if slot.Some? {
      m := slot.value;
    } else {
      m := |s1| - 1;
      assert out[m + 1] == cells && out[m + 1][..|cells|] == cells;
    }
  }

  /** Sheets that agree on the header and the first `m` data rows decode
      those rows to the same records. */
  lemma SamePrefixSameRecords(a: Sheet, b: Sheet, m: nat)
    requires m < |a| && m < |b|
    requires forall k :: 0 <= k <= m ==> a[k] == b[k]
    ensures forall j :: 0 <= j < m ==> DataRecord(a, j) == DataRecord(b, j)
  {
  }

  /** The fields the backend reads back from a row written for score `s`. */
  predicate HoldsScore(rec: Record, s: Score) {
    && Get(rec, "student_id") == Some(Text(s.studentId)) && Get(rec, "subject_id") == Some(Text(s.subjectId))
    && Get(rec, "term_id") == Some(Text(s.termId))
    && Get(rec, "ca1") == Some(Num(s.ca1)) && Get(rec, "ca2") == Some(Num(s.ca2))
    && Get(rec, "assignment") == Some(Num(s.assignment)) && Get(rec, "notes") == Some(Num(s.notes))
    && Get(rec, "exam") == Some(Num(s.exam)) && Get(rec, "total") == Some(Num(s.total))
    && Get(rec, "grade") == Some(Text(s.grade))
    && Get(rec, "is_locked") == Some(if s.isLocked then Text("TRUE") else Text("FALSE"))
  }

  /** A row written for `s` decodes to a record holding `s`. */
  lemma SavedRowHoldsScore(s: Score, row: Row)
    requires |row| >= |HEADER_ROW| && row[..|HEADER_ROW|] == ScoreCells(ScoreBody(s))
    ensures HoldsScore(RowToRecord(HEADER_ROW, row), s)
  {
    var data := ScoreBody(s);
    var rec := RowToRecord(HEADER_ROW, row);
    SavedRecord(data, row);
    var cells := ScoreCells(data);
    assert Get(rec, SCORE_HEADERS[0]) == Some(cells[0]);
    assert Get(rec, SCORE_HEADERS[1]) == Some(cells[1]);
    assert Get(rec, SCORE_HEADERS[2]) == Some(cells[2]);
    assert Get(rec, SCORE_HEADERS[4]) == Some(cells[4]);
    assert Get(rec, SCORE_HEADERS[5]) == Some(cells[5]);
    assert Get(rec, SCORE_HEADERS[6]) == Some(cells[6]);
    assert Get(rec, SCORE_HEADERS[7]) == Some(cells[7]);
    assert Get(rec, SCORE_HEADERS[8]) == Some(cells[8]);
    assert Get(rec, SCORE_HEADERS[9]) == Some(cells[9]);
    assert Get(rec, SCORE_HEADERS[10]) == Some(cells[10]);
    assert Get(rec, SCORE_HEADERS[11]) == Some(cells[11]);
  }

  /** An output row showing score `s`: its components, total, lock flag, and
      its grade, which reads "F" when the saved grade was empty. */
  predicate ShowsScore(row: JoinedRow, s: Score) {
    && row.ca1 == Some(s.ca1) && row.ca2 == Some(s.ca2)
    && row.assignment == Some(s.assignment) && row.notes == Some(s.notes)
    && row.exam == Some(s.exam) && row.total == Some(s.total)
    && row.grade == (if s.grade == "" then Text("F") else Text(s.grade))
    && row.isLocked == s.isLocked
  }

  /** Joining a student with a record that holds `s` shows `s`. */
  lemma JoinShowsScore(student: Record, rec: Record, s: Score)
    requires HoldsScore(rec, s)
    ensures ShowsScore(JoinRow(student, rec), s)
  {
  }

  /** The read's first match for the saved key is the row the save wrote. */
  lemma ReadFindsSaved(out: Sheet, m: nat, s: Score, sid: Option<Cell>, subj: Option<Cell>, term: Option<Cell>)
    requires 0 < |out| && m + 1 < |out|
    requires sid == Some(Text(s.studentId)) && subj == Some(Text(s.subjectId)) && term == Some(Text(s.termId))
    requires HoldsScore(DataRecord(out, m), s)
    requires forall j :: 0 <= j < m ==> !SaveKey(ScoreBody(s), DataRecord(out, j))
    ensures FirstScore(GetSheetData(out), sid, subj, term) == Some(m)
  {
    var recs := GetSheetData(out);
    assert recs[m] == DataRecord(out, m);
    assert KeyMatches(recs[m], sid, subj, term);
    forall j | 0 <= j < m
      ensures !KeyMatches(recs[j], sid, subj, term)
    {
      assert recs[j] == DataRecord(out, j);
    }
    FirstScoreIs(recs, sid, subj, term, m);
  }

  /** Reading the class from a sheet whose first row for the saved key holds
      `s` shows `s` in the student's row. */
  lemma ReadShowsSaved(out: Sheet, students: Sheet, s: Score, params: map<string, string>, k: nat, m: nat)
    requires 0 < |out| && m + 1 < |out|
    requires "subjectId" in params && params["subjectId"] == s.subjectId
    requires "termId" in params && params["termId"] == s.termId
    requires k < |ClassStudents(students, params)|
    requires Get(ClassStudents(students, params)[k], "id") == Some(Text(s.studentId))
    requires HoldsScore(DataRecord(out, m), s)
    requires forall j :: 0 <= j < m ==> !SaveKey(ScoreBody(s), DataRecord(out, j))
    ensures var read := HandleGetScores(Some(students), Some(out), params);
            read.ScoreRows? && k < |read.rows| && ShowsScore(read.rows[k], s)
  {
    var cls := ClassStudents(students, params);
    ReadFindsSaved(out, m, s, Get(cls[k], "id"), Param(params, "subjectId"), Param(params, "termId"));
    var rec := ScoreFor(cls[k], GetSheetData(out), params);
    assert rec == DataRecord(out, m);
    JoinShowsScore(cls[k], rec, s);
  }

  /** After saving `s`, some data row holds `s`, and no earlier data row has
      its key. */
  lemma SaveHoldsScore(sheet: Sheet, s: Score) returns (m: nat)
    requires sheet == [] || sheet[0] == HEADER_ROW
    ensures var saved := HandleSaveScore(Some(sheet), ScoreBody(s));
            && saved.0 == Success && saved.1.Some? && m + 1 < |saved.1.value|
            && HoldsScore(DataRecord(saved.1.value, m), s)
            && forall j :: 0 <= j < m ==> !SaveKey(ScoreBody(s), DataRecord(saved.1.value, j))
  {
    var data := ScoreBody(s);
    m := SavePlacement(sheet, data);
    DataRowHoldsScore(HandleSaveScore(Some(sheet), data).1.value, m, s);
  }

  /** A data row under the fixed header whose first twelve cells are a
      score's decodes to that score. */
  lemma DataRowHoldsScore(out: Sheet, m: nat, s: Score)
    requires m + 1 < |out| && out[0] == HEADER_ROW
    requires |out[m + 1]| >= |HEADER_ROW| && out[m + 1][..|HEADER_ROW|] == ScoreCells(ScoreBody(s))
    ensures HoldsScore(DataRecord(out, m), s)
  {
    SavedRowHoldsScore(s, out[m + 1]);
  }

  /** Saving a score and reading the class back returns, in the saved
      student's row, the components, total, grade (or "F" when it was empty)
      and lock flag that were saved. */
  lemma SaveThenRead(sheet: Sheet, students: Sheet, s: Score, params: map<string, string>, k: nat)
    requires sheet == [] || sheet[0] == HEADER_ROW
    requires "subjectId" in params && params["subjectId"] == s.subjectId
    requires "termId" in params && params["termId"] == s.termId
    requires k < |ClassStudents(students, params)|
    requires Get(ClassStudents(students, params)[k], "id") == Some(Text(s.studentId))
    ensures var saved := HandleSaveScore(Some(sheet), ScoreBody(s));
            var read := HandleGetScores(Some(students), saved.1, params);
            && saved.0 == Success && read.ScoreRows? && k < |read.rows|
            && ShowsScore(read.rows[k], s)
  {
    var m := SaveHoldsScore(sheet, s);
    var saved := HandleSaveScore(Some(sheet), ScoreBody(s));
    ReadShowsSaved(saved.1.value, students, s, params, k, m);
  }
}
