/** The score-entry grid's row, shared by both result screens and both mock
    services: the student's identity, the five components, the derived total
    and grade, and the lock flag. */
module ScoreRows {
  import opened Constants

  datatype GridRow = GridRow(
    id: string, studentId: string, admissionNo: string, firstName: string, lastName: string,
    ca1: int, ca2: int, assignment: int, notes: int, exam: int,
    total: int, grade: string, isLocked: bool)

  /** The five editable columns. */
  datatype ScoreField = Ca1 | Ca2 | Assignment | Notes | Exam

  function FieldOf(row: GridRow, f: ScoreField): int {
    match f
    case Ca1 => row.ca1
    case Ca2 => row.ca2
    case Assignment => row.assignment
    case Notes => row.notes
    case Exam => row.exam
  }

  function WithField(row: GridRow, f: ScoreField, v: int): (r: GridRow)
    ensures FieldOf(r, f) == v
    ensures forall g :: g != f ==> FieldOf(r, g) == FieldOf(row, g)
    ensures r.(ca1 := row.ca1, ca2 := row.ca2, assignment := row.assignment, notes := row.notes, exam := row.exam) == row
  {
    match f
    case Ca1 => row.(ca1 := v)
    case Ca2 => row.(ca2 := v)
    case Assignment => row.(assignment := v)
    case Notes => row.(notes := v)
    case Exam => row.(exam := v)
  }

  function Sum(row: GridRow): int {
    row.ca1 + row.ca2 + row.assignment + row.notes + row.exam
  }

  /** A row whose total and grade agree with its components. */
  predicate Consistent(row: GridRow) {
    row.total == Sum(row) && row.grade == GradeOf(row.total)
  }

  /** One edit of one row: the field takes the value, then the total and
      grade are recomputed from the five components. */
  function EditRow(row: GridRow, f: ScoreField, value: int): (r: GridRow)
    ensures FieldOf(r, f) == value
    ensures forall g :: g != f ==> FieldOf(r, g) == FieldOf(row, g)
    ensures Consistent(r)
    ensures r.id == row.id && r.studentId == row.studentId && r.admissionNo == row.admissionNo
            && r.firstName == row.firstName && r.lastName == row.lastName && r.isLocked == row.isLocked
  {
    var edited := WithField(row, f, value);
    var total := Sum(edited);
    edited.(total := total, grade := GradeOf(total))
  }

  /** `handleScoreChange`: edits one row; every other row is kept. */
  function HandleScoreChange(rows: seq<GridRow>, index: int, f: ScoreField, value: int): (r: seq<GridRow>)
    requires 0 <= index < |rows|
    ensures |r| == |rows|
    ensures forall k :: 0 <= k < |rows| && k != index ==> r[k] == rows[k]
    ensures r[index] == EditRow(rows[index], f, value)
  {
    rows[index := EditRow(rows[index], f, value)]
  }

  /** Two consistent rows with the same identity, lock flag and components
      are the same row. */
  lemma SameComponentsSameRow(a: GridRow, b: GridRow)
    requires a.id == b.id && a.studentId == b.studentId && a.admissionNo == b.admissionNo
    requires a.firstName == b.firstName && a.lastName == b.lastName && a.isLocked == b.isLocked
    requires forall g :: FieldOf(a, g) == FieldOf(b, g)
    requires Consistent(a) && Consistent(b)
    ensures a == b
  {
    assert FieldOf(a, Ca1) == FieldOf(b, Ca1) && FieldOf(a, Ca2) == FieldOf(b, Ca2);
    assert FieldOf(a, Assignment) == FieldOf(b, Assignment) && FieldOf(a, Notes) == FieldOf(b, Notes);
    assert FieldOf(a, Exam) == FieldOf(b, Exam);
  }

  /** Writing a field's current value into a consistent row changes nothing. */
  lemma RewriteSameValueIsIdentity(row: GridRow, f: ScoreField)
    requires Consistent(row)
    ensures EditRow(row, f, FieldOf(row, f)) == row
  {
    var r := EditRow(row, f, FieldOf(row, f));
    assert forall g :: FieldOf(r, g) == FieldOf(row, g);
    SameComponentsSameRow(r, row);
  }

  /** The last edit decides: editing the same field twice is editing it once
      with the second value. */
  lemma LastEditWins(row: GridRow, f: ScoreField, v1: int, v2: int)
    ensures EditRow(EditRow(row, f, v1), f, v2) == EditRow(row, f, v2)
  {
    var once := EditRow(row, f, v1);
    var a := EditRow(once, f, v2);
    var b := EditRow(row, f, v2);
    assert forall g :: FieldOf(a, g) == FieldOf(b, g);
    SameComponentsSameRow(a, b);
  }

  /** Edits to different fields commute. */
  lemma EditsCommute(row: GridRow, f: ScoreField, v: int, g: ScoreField, w: int)
    requires f != g
    ensures EditRow(EditRow(row, f, v), g, w) == EditRow(EditRow(row, g, w), f, v)
  {
    var a := EditRow(EditRow(row, f, v), g, w);
    var b := EditRow(EditRow(row, g, w), f, v);
    assert forall h :: FieldOf(a, h) == FieldOf(b, h);
    SameComponentsSameRow(a, b);
  }
}
