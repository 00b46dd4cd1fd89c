/** The score-entry screen backed by the mock service: clamped cell inputs,
    role and lock gating, and the batch save with its single audit entry. */
module ResultsGrid {
  import opened Common
  import opened Types
  import opened Constants
  import opened ScoreRows
  import Audit
  import MockApi

  /** The largest value a column accepts: 10 for the four continuous
      assessments, 60 for the exam. */
  function MaxOf(f: ScoreField): int {
    if f == Exam then 60 else 10
  }

  /** `Math.min(max, Math.max(0, parseInt(text) || 0))`; `None` is a text
      that does not parse (NaN). */
  function Clamp(f: ScoreField, parsed: Option<int>): (v: int)
    ensures 0 <= v <= MaxOf(f)
    ensures parsed.Some? && 0 <= parsed.value <= MaxOf(f) ==> v == parsed.value
    ensures parsed.None? ==> v == 0
    ensures parsed.Some? && parsed.value < 0 ==> v == 0
    ensures parsed.Some? && parsed.value > MaxOf(f) ==> v == MaxOf(f)
  {
    var n := parsed.GetOr(0);
    if n > MaxOf(f) then MaxOf(f) else if n < 0 then 0 else n
  }

  /** Clamping twice is clamping once. */
  lemma ClampIdempotent(f: ScoreField, parsed: Option<int>)
    ensures Clamp(f, Some(Clamp(f, parsed))) == Clamp(f, parsed)
  {
  }

  /** Only administrators, teachers and form masters may type scores. */
  predicate IsEditable(role: Role) {
    role in [Admin, Teacher, FormMaster]
  }

  /** An input is enabled when the role may edit and the row is not locked. */
  predicate CellEnabled(role: Role, row: GridRow) {
    IsEditable(role) && !row.isLocked
  }

  /** A change event on cell (`index`, `f`): a disabled input fires nothing;
      an enabled one clamps the text and applies `handleScoreChange`. */
  function EditCell(role: Role, rows: seq<GridRow>, index: int, f: ScoreField, parsed: Option<int>): (r: seq<GridRow>)
    requires 0 <= index < |rows|
    ensures !CellEnabled(role, rows[index]) ==> r == rows
    ensures CellEnabled(role, rows[index]) ==> r == HandleScoreChange(rows, index, f, Clamp(f, parsed))
  {
    if CellEnabled(role, rows[index]) then HandleScoreChange(rows, index, f, Clamp(f, parsed)) else rows
  }

  /** Every component within its column's range. */
  predicate InRange(row: GridRow) {
    0 <= row.ca1 <= 10 && 0 <= row.ca2 <= 10 && 0 <= row.assignment <= 10
    && 0 <= row.notes <= 10 && 0 <= row.exam <= 60
  }

  /** Components within their ranges sum to a total within 0..100, so the
      grade comes from a band and not from the fallback. */
  lemma InRangeTotalIsBounded(row: GridRow)
    requires InRange(row) && Consistent(row)
    ensures 0 <= row.total <= 100
    ensures row.grade == GradeBand(row.total)
  {
    CalculateGradeIsBand(row.total);
  }

  /** Edits through the inputs keep every row within range and consistent. */
  lemma EditCellKeepsRange(role: Role, rows: seq<GridRow>, index: int, f: ScoreField, parsed: Option<int>)
    requires 0 <= index < |rows|
    requires forall k :: 0 <= k < |rows| ==> InRange(rows[k]) && Consistent(rows[k])
    ensures var r := EditCell(role, rows, index, f, parsed);
            forall k :: 0 <= k < |r| ==> InRange(r[k]) && Consistent(r[k]) && 0 <= r[k].total <= 100
  {
    var r := EditCell(role, rows, index, f, parsed);
    if CellEnabled(role, rows[index]) {
      var e := r[index];
      assert FieldOf(e, f) == Clamp(f, parsed);
      assert forall g :: g != f ==> FieldOf(e, g) == FieldOf(rows[index], g);
      assert InRange(e) by {
        assert FieldOf(e, Ca1) == e.ca1 && FieldOf(rows[index], Ca1) == rows[index].ca1;
        assert FieldOf(e, Ca2) == e.ca2 && FieldOf(rows[index], Ca2) == rows[index].ca2;
        assert FieldOf(e, Assignment) == e.assignment && FieldOf(rows[index], Assignment) == rows[index].assignment;
        assert FieldOf(e, Notes) == e.notes && FieldOf(rows[index], Notes) == rows[index].notes;
        assert FieldOf(e, Exam) == e.exam && FieldOf(rows[index], Exam) == rows[index].exam;
      }
    }
    forall k | 0 <= k < |r|
      ensures 0 <= r[k].total <= 100
    {
      InRangeTotalIsBounded(r[k]);
    }
  }

  /** A locked row cannot be edited by anyone. */
  lemma LockedRowIsFrozen(role: Role, rows: seq<GridRow>, index: int, f: ScoreField, parsed: Option<int>)
    requires 0 <= index < |rows| && rows[index].isLocked
    ensures EditCell(role, rows, index, f, parsed) == rows
  {
  }

  /** The object posted for one row: the row with the selected subject. */
  datatype SavePayload = SavePayload(row: GridRow, subjectId: string)

  /** `handleSave`: posts one payload per row; the batch audit entry is
      written only when every save resolves (`saved[k]` says whether save
      `k` did). `logId` and `timestamp` are the entry's random id and clock
      reading. */
  function HandleSave(rows: seq<GridRow>, subjectId: string, classId: string, user: Audit.Actor,
                      saved: seq<bool>, svc: Audit.AuditService, logId: string, timestamp: string)
    : (r: (seq<SavePayload>, Audit.AuditService))
    requires |saved| == |rows|
    ensures |r.0| == |rows|
    ensures forall k :: 0 <= k < |rows| ==> r.0[k].row == rows[k] && r.0[k].subjectId == subjectId
    ensures (forall k :: 0 <= k < |saved| ==> saved[k]) ==>
              && |r.1.logs| == |svc.logs| + 1 && r.1.logs[1..] == svc.logs
              && r.1.logs[0].userId == user.id && r.1.logs[0].userRole == user.role
              && r.1.logs[0].action == "Batch Score Update"
              && r.1.logs[0].affectedRecord == "Updated scores in " + classId
    ensures (exists k :: 0 <= k < |saved| && !saved[k]) ==> r.1 == svc
  {
    var payloads := seq(|rows|, k requires 0 <= k < |rows| => SavePayload(rows[k], subjectId));
    if forall k :: 0 <= k < |saved| ==> saved[k] then
      (payloads, Audit.Log(svc, Audit.LogRequest(user.id, user.role, "Batch Score Update",
                                                  "Updated scores in " + classId, logId, timestamp)))
    else (payloads, svc)
  }

  /** Against the mock service every save succeeds, so a batch save always
      ends with exactly one audit entry. */
  lemma MockBatchIsLogged(rows: seq<GridRow>, subjectId: string, classId: string, user: Audit.Actor,
                          svc: Audit.AuditService, logId: string, timestamp: string)
    ensures var saved := seq(|rows|, k requires 0 <= k < |rows| => MockApi.SaveScore(SavePayload(rows[k], subjectId)));
            var r := HandleSave(rows, subjectId, classId, user, saved, svc, logId, timestamp);
            |r.1.logs| == |svc.logs| + 1 && r.1.logs[1..] == svc.logs
            && r.1.logs[0].action == "Batch Score Update"
  {
  }
}
