/** The grading table, the grade lookup, and the demo fixtures the mock
    services and the local store are seeded from. */
module Constants {
  import opened Common
  import opened Types

  datatype GradeScale = GradeScale(grade: string, min: int, max: int, remark: string)

  /** The five grade bands, best first. */
  const GRADING_SCALE: seq<GradeScale> := [
    GradeScale("A", 70, 100, "Excellent"),
    GradeScale("B", 60, 69, "Very Good"),
    GradeScale("C", 50, 59, "Good"),
    GradeScale("D", 40, 49, "Pass"),
    GradeScale("F", 0, 39, "Fail")
  ]

  const GRADE_LETTERS: set<string> := {"A", "B", "C", "D", "F"}

  /** A band matches a total when `min <= total <= max`; totals are JavaScript
      numbers, hence `real`. */
  predicate Matches(g: GradeScale, total: real) {
    g.min as real <= total <= g.max as real
  }

  /** The grade of the first band containing `total`, or "F" when none does. */
  function CalculateGrade(total: real): (g: string)
    ensures g in GRADE_LETTERS
    ensures forall i :: 0 <= i < |GRADING_SCALE| && Matches(GRADING_SCALE[i], total)
              && (forall j :: 0 <= j < i ==> !Matches(GRADING_SCALE[j], total))
              ==> g == GRADING_SCALE[i].grade
    ensures (forall i :: 0 <= i < |GRADING_SCALE| ==> !Matches(GRADING_SCALE[i], total)) ==> g == "F"
  {
    match FindIndex(GRADING_SCALE, g => Matches(g, total), 0)
    case Some(i) => GRADING_SCALE[i].grade
    case None => "F"
  }

  /** Integer totals, as every caller that sums integer components uses. */
  function GradeOf(total: int): string {
    CalculateGrade(total as real)
  }

  /** An independent statement of the table, band by band. */
  function GradeBand(total: int): string {
    if 70 <= total <= 100 then "A"
    else if 60 <= total <= 69 then "B"
    else if 50 <= total <= 59 then "C"
    else if 40 <= total <= 49 then "D"
    else "F"
  }

  /** Some band of the table contains the integer total `t`. */
  predicate Covered(t: int) {
    exists i :: 0 <= i < |GRADING_SCALE| && Matches(GRADING_SCALE[i], t as real)
  }

  /** Every integer in 0..100 lies in some band, and no value (integer or not)
      lies in two. */
  lemma ScaleCoversAndIsDisjoint()
    ensures forall t: int :: 0 <= t <= 100 ==> Covered(t)
    ensures forall i, j, t: real ::
              (0 <= i < |GRADING_SCALE| && 0 <= j < |GRADING_SCALE|
               && Matches(GRADING_SCALE[i], t) && Matches(GRADING_SCALE[j], t)) ==> i == j
  {
    forall t: int | 0 <= t <= 100
      ensures Covered(t)
    {
      if t >= 70 { assert Matches(GRADING_SCALE[0], t as real); }
      else if t >= 60 { assert Matches(GRADING_SCALE[1], t as real); }
      else if t >= 50 { assert Matches(GRADING_SCALE[2], t as real); }
      else if t >= 40 { assert Matches(GRADING_SCALE[3], t as real); }
      else { assert Matches(GRADING_SCALE[4], t as real); }
    }
  }

  /** The table lookup agrees with the band-by-band statement on every integer. */
  lemma CalculateGradeIsBand(t: int)
    ensures GradeOf(t) == GradeBand(t)
  {
    var x := t as real;
    if 70 <= t <= 100 {
      assert Matches(GRADING_SCALE[0], x);
    } else if 60 <= t <= 69 {
      assert !Matches(GRADING_SCALE[0], x);
      assert Matches(GRADING_SCALE[1], x);
    } else if 50 <= t <= 59 {
      assert !Matches(GRADING_SCALE[0], x) && !Matches(GRADING_SCALE[1], x);
      assert Matches(GRADING_SCALE[2], x);
    } else if 40 <= t <= 49 {
      assert !Matches(GRADING_SCALE[0], x) && !Matches(GRADING_SCALE[1], x) && !Matches(GRADING_SCALE[2], x);
      assert Matches(GRADING_SCALE[3], x);
    } else if 0 <= t <= 39 {
      assert forall j :: 0 <= j < 4 ==> !Matches(GRADING_SCALE[j], x);
      assert Matches(GRADING_SCALE[4], x);
    } else {
      assert forall j :: 0 <= j < |GRADING_SCALE| ==> !Matches(GRADING_SCALE[j], x);
    }
  }

  lemma GradeBoundaries()
    ensures GradeOf(39) == "F" && GradeOf(40) == "D" && GradeOf(49) == "D"
    ensures GradeOf(50) == "C" && GradeOf(59) == "C" && GradeOf(60) == "B"
    ensures GradeOf(69) == "B" && GradeOf(70) == "A" && GradeOf(100) == "A"
  {
    CalculateGradeIsBand(39); CalculateGradeIsBand(40); CalculateGradeIsBand(49);
    CalculateGradeIsBand(50); CalculateGradeIsBand(59); CalculateGradeIsBand(60);
    CalculateGradeIsBand(69); CalculateGradeIsBand(70); CalculateGradeIsBand(100);
  }

  /** Below 0 or above 100 no band matches and the fallback yields "F". */
  lemma OutOfRangeIsF(total: real)
    requires total < 0.0 || total > 100.0
    ensures forall i :: 0 <= i < |GRADING_SCALE| ==> !Matches(GRADING_SCALE[i], total)
    ensures CalculateGrade(total) == "F"
  {
  }

  /** Non-integer totals strictly between two bands match nothing and fall
      back to "F", e.g. 69.5. */
  lemma GapIsF(total: real)
    requires 39.0 < total < 40.0 || 49.0 < total < 50.0 || 59.0 < total < 60.0 || 69.0 < total < 70.0
    ensures forall i :: 0 <= i < |GRADING_SCALE| ==> !Matches(GRADING_SCALE[i], total)
    ensures CalculateGrade(total) == "F"
  {
  }

  lemma GapExample()
    ensures CalculateGrade(69.5) == "F"
  {
    GapIsF(69.5);
  }

  /** Position of a letter on the scale, F lowest. */
  function Rank(g: string): int {
    if g == "A" then 4 else if g == "B" then 3 else if g == "C" then 2 else if g == "D" then 1 else 0
  }

  /** On 0..100 a higher total never receives a worse grade. */
  lemma GradeMonotone(a: int, b: int)
    requires 0 <= a <= b <= 100
    ensures Rank(GradeOf(a)) <= Rank(GradeOf(b))
  {
    CalculateGradeIsBand(a);
    CalculateGradeIsBand(b);
  }

  // Demo fixtures.

  const MOCK_SESSIONS: seq<AcademicSession> := [
    AcademicSession("s1", "2023/2024", true),
    AcademicSession("s2", "2024/2025", false)
  ]

  const MOCK_TERMS: seq<Term> := [
    Term("t1", First, "s1", false),
    Term("t2", Second, "s1", true),
    Term("t3", Third, "s1", false)
  ]

  const MOCK_CLASSES: seq<ClassLevel> := [
    ClassLevel("c1", "JSS 1"), ClassLevel("c2", "JSS 2"), ClassLevel("c3", "JSS 3"),
    ClassLevel("c4", "SSS 1"), ClassLevel("c5", "SSS 2"), ClassLevel("c6", "SSS 3")
  ]

  const MOCK_SUBJECTS: seq<Subject> := [
    Subject("sub1", "Mathematics", "MTH"),
    Subject("sub2", "English Language", "ENG"),
    Subject("sub3", "Basic Science", "BSC"),
    Subject("sub4", "Civic Education", "CVE"),
    Subject("sub5", "Agricultural Science", "AGR")
  ]

  const MOCK_STUDENTS: seq<Student> := [
    Student("st1", "ADM/23/001", "Chinedu", "Okonkwo", M, "c1", "a1", "p1"),
    Student("st2", "ADM/23/002", "Amina", "Yusuf", F, "c1", "a1", "p2"),
    Student("st3", "ADM/23/003", "Bolaji", "Adeyemi", M, "c1", "a2", "p3"),
    Student("st4", "ADM/23/004", "Efe", "Okoro", F, "c2", "a1", "p4"),
    Student("st5", "ADM/23/005", "Fatima", "Bello", F, "c2", "a2", "p5")
  ]
}
