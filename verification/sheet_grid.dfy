/** The score-entry screen backed by the spreadsheet service: inputs are not
    clamped or gated, and a save posts one score object per row for term
    `t2` of session `s1`. */
module SheetGrid {
  import opened Common
  import opened Types
  import opened Constants
  import opened ScoreRows

  /** A change event: `parseFloat(text) || 0` (integers only here; `None` is
      NaN), then `handleScoreChange`. Nothing bounds the value. */
  function EditCell(rows: seq<GridRow>, index: int, f: ScoreField, parsed: Option<int>): (r: seq<GridRow>)
    requires 0 <= index < |rows|
    ensures |r| == |rows|
    ensures forall k :: 0 <= k < |rows| && k != index ==> r[k] == rows[k]
    ensures r[index] == EditRow(rows[index], f, parsed.GetOr(0))
    ensures FieldOf(r[index], f) == parsed.GetOr(0)
    ensures forall g :: g != f ==> FieldOf(r[index], g) == FieldOf(rows[index], g)
    ensures r[index].id == rows[index].id && r[index].studentId == rows[index].studentId
            && r[index].isLocked == rows[index].isLocked
    ensures Consistent(r[index])
  {
    HandleScoreChange(rows, index, f, parsed.GetOr(0))
  }

  /** Without clamps a total can pass 100, and such a total falls through
      every band to "F". */
  lemma UnclampedTotalAbove100IsF()
    ensures var row := GridRow("st1", "st1", "ADM/23/001", "Chinedu", "Okonkwo", 10, 10, 10, 10, 60, 100, "A", false);
            var r := EditCell([row], 0, Exam, Some(61));
            r[0].total == 101 && r[0].grade == "F"
  {
    CalculateGradeIsBand(101);
  }

  /** Any edit that leaves the total above 100 grades the row "F". */
  lemma OverfullRowIsF(rows: seq<GridRow>, index: int, f: ScoreField, parsed: Option<int>)
    requires 0 <= index < |rows|
    requires EditCell(rows, index, f, parsed)[index].total > 100
    ensures EditCell(rows, index, f, parsed)[index].grade == "F"
  {
    CalculateGradeIsBand(EditCell(rows, index, f, parsed)[index].total);
  }

  const SAVE_TERM := "t2"
  const SAVE_SESSION := "s1"

  /** The score object posted for one row. */
  function PayloadOf(row: GridRow, subjectId: string): (s: Score)
    ensures s.id.None? && s.studentId == row.id && s.subjectId == subjectId
    ensures s.termId == SAVE_TERM && s.sessionId == SAVE_SESSION
    ensures s.ca1 == row.ca1 && s.ca2 == row.ca2 && s.assignment == row.assignment
            && s.notes == row.notes && s.exam == row.exam
    ensures s.total == row.total && s.grade == row.grade && s.isLocked == row.isLocked
  {
    Score(None, row.id, subjectId, SAVE_TERM, SAVE_SESSION,
          row.ca1, row.ca2, row.assignment, row.notes, row.exam, row.total, row.grade, row.isLocked)
  }

  /** `handleSave`: one posted score per row, in row order. */
  function HandleSave(rows: seq<GridRow>, subjectId: string): (r: seq<Score>)
    ensures |r| == |rows|
    ensures forall k :: 0 <= k < |rows| ==> r[k] == PayloadOf(rows[k], subjectId)
  {
    seq(|rows|, k requires 0 <= k < |rows| => PayloadOf(rows[k], subjectId))
  }

  /** A posted score carries back everything the grid row shows about the
      score: its components, total, grade and lock flag. */
  lemma PayloadKeepsRow(row: GridRow, subjectId: string)
    ensures var s := PayloadOf(row, subjectId);
            row == GridRow(row.id, row.studentId, row.admissionNo, row.firstName, row.lastName,
                           s.ca1, s.ca2, s.assignment, s.notes, s.exam, s.total, s.grade, s.isLocked)
  {
  }
}
