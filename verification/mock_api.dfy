/** The fully mocked service: a login that derives the role from the email
    text, score rows drawn at random within fixed ranges, and a save that
    always succeeds. `Math.random` is a parameter: `rnd(k)` is the value of
    its `k`-th call, a real in [0, 1). */
module MockApi {
  import opened Common
  import opened Types
  import opened Constants
  import opened ScoreRows

  type Unit = r: real | 0.0 <= r < 1.0

  /** `Math.floor(u * n)` for a draw `u`: an integer in 0..n-1. */
  function Draw(u: Unit, n: nat): (d: int)
    requires n > 0
    ensures 0 <= d < n
  {
    ScaledBelow(u, n);
    (u * n as real).Floor
  }

  lemma {:induction false} ScaledBelow(u: Unit, n: nat)
    requires n > 0
    ensures 0.0 <= u * n as real < n as real
  {
    if n > 1 {
      ScaledBelow(u, n - 1);
      assert u * n as real == u * (n - 1) as real + u;
    }
  }

  /** The display name each mock role signs in with. */
  function NameOf(role: Role): string {
    match role
    case Admin => "Admin Joseph"
    case Teacher => "Mr. Okon"
    case Principal => "Dr. Amadi"
    case FormMaster => "Mrs. Adebayo"
    case Parent => ""
  }

  /** The role the email selects: each later test overrides the earlier, so
      "form" beats "principal", which beats "teacher"; otherwise ADMIN. */
  function RoleFor(email: string): (role: Role)
    ensures role == FormMaster <==> Contains(email, "form")
    ensures role == Principal <==> Contains(email, "principal") && !Contains(email, "form")
    ensures role == Teacher <==> Contains(email, "teacher") && !Contains(email, "principal") && !Contains(email, "form")
    ensures role == Admin <==> !Contains(email, "teacher") && !Contains(email, "principal") && !Contains(email, "form")
  {
    if Contains(email, "form") then FormMaster
    else if Contains(email, "principal") then Principal
    else if Contains(email, "teacher") then Teacher
    else Admin
  }

  /** `login`: always succeeds; the id is "u-" and a random suffix, and an
      empty email is replaced by the demo administrator's. */
  function Login(email: string, idSuffix: string): (u: User)
    ensures u.role == RoleFor(email) && u.name == NameOf(u.role)
    ensures u.role != Parent
    ensures email == "" ==> u.email == "admin@school.com" && u.role == Admin && u.name == "Admin Joseph"
    ensures email != "" ==> u.email == email
    ensures u.id == "u-" + idSuffix && u.status == Active
  {
    var role := RoleFor(email);
    User("u-" + idSuffix, NameOf(role), if email == "" then "admin@school.com" else email, role, Active)
  }

  /** The empty email contains none of the role words. */
  lemma EmptyEmailIsAdmin()
    ensures RoleFor("") == Admin
  {
    assert !OccursAt("", "form", 0) && !OccursAt("", "principal", 0) && !OccursAt("", "teacher", 0);
  }

  /** Both "form" and "principal" in the email: form master. */
  lemma FormBeatsPrincipal()
    ensures RoleFor("principal.form@school.com") == FormMaster
  {
    assert OccursAt("principal.form@school.com", "form", 10);
  }

  /** The row built for one student from five consecutive draws starting at
      call `k`: each assessment 5..9, the exam 20..49, never locked. */
  function MockRow(s: Student, rnd: nat -> Unit, k: nat): (row: GridRow)
    ensures row.id == s.id && row.studentId == s.id && row.admissionNo == s.admissionNo
    ensures row.firstName == s.firstName && row.lastName == s.lastName
    ensures 5 <= row.ca1 <= 9 && 5 <= row.ca2 <= 9 && 5 <= row.assignment <= 9 && 5 <= row.notes <= 9
    ensures 20 <= row.exam <= 49
    ensures Consistent(row) && !row.isLocked
  {
    var ca1 := Draw(rnd(k), 5) + 5;
    var ca2 := Draw(rnd(k + 1), 5) + 5;
    var asg := Draw(rnd(k + 2), 5) + 5;
    var notes := Draw(rnd(k + 3), 5) + 5;
    var exam := Draw(rnd(k + 4), 30) + 20;
    var total := ca1 + ca2 + asg + notes + exam;
    GridRow(s.id, s.id, s.admissionNo, s.firstName, s.lastName, ca1, ca2, asg, notes, exam,
            total, GradeOf(total), false)
  }

  function OfClass(classId: string): Student -> bool {
    (s: Student) => s.classId == classId
  }

  /** The fixture students of one class, in fixture order. */
  function ClassRoll(classId: string): seq<Student> {
    Filter(MOCK_STUDENTS, OfClass(classId))
  }

  /** The roll holds exactly the fixture students of the class. */
  lemma ClassRollMembers(classId: string)
    ensures forall s :: s in ClassRoll(classId) <==> s in MOCK_STUDENTS && s.classId == classId
  {
  }

  /** `getScores`: one row per student of the class, row `i` drawing calls
      5i..5i+4. Subject and term are ignored. */
  function GetScores(classId: string, subjectId: string, termId: string, rnd: nat -> Unit): (rows: seq<GridRow>)
    ensures |rows| == |ClassRoll(classId)|
    ensures forall i :: 0 <= i < |rows| ==> rows[i] == MockRow(ClassRoll(classId)[i], rnd, 5 * i)
  {
    var roll := ClassRoll(classId);
    seq(|roll|, i requires 0 <= i < |roll| => MockRow(roll[i], rnd, 5 * i))
  }

  /** A mock row totals 40..85 and therefore never grades "F". */
  lemma MockRowPasses(s: Student, rnd: nat -> Unit, k: nat)
    ensures 40 <= MockRow(s, rnd, k).total <= 85 && MockRow(s, rnd, k).grade != "F"
  {
    CalculateGradeIsBand(MockRow(s, rnd, k).total);
  }

  /** No row of the mock class list fails or is locked. */
  lemma MockRowsPass(classId: string, subjectId: string, termId: string, rnd: nat -> Unit)
    ensures var rows := GetScores(classId, subjectId, termId, rnd);
            forall i :: 0 <= i < |rows| ==> 40 <= rows[i].total <= 85 && rows[i].grade != "F" && !rows[i].isLocked
  {
    var rows := GetScores(classId, subjectId, termId, rnd);
    forall i | 0 <= i < |rows|
      ensures 40 <= rows[i].total <= 85 && rows[i].grade != "F"
    {
      MockRowPasses(ClassRoll(classId)[i], rnd, 5 * i);
    }
  }

  /** Fixture student `i` when it belongs to the class, nothing otherwise. */
  function RollSlot(classId: string, i: nat): seq<Student>
    requires i < |MOCK_STUDENTS|
  {
    if MOCK_STUDENTS[i].classId == classId then [MOCK_STUDENTS[i]] else []
  }

  /** The class roll, fixture student by fixture student. */
  lemma RollUnfolds(classId: string)
    ensures ClassRoll(classId) == RollSlot(classId, 0) + RollSlot(classId, 1) + RollSlot(classId, 2) + RollSlot(classId, 3) + RollSlot(classId, 4)
  {
    FilterFive(MOCK_STUDENTS, OfClass(classId));
  }

  /** `saveScore`: the mock answers `{success: true}` for any payload. */
  function SaveScore<T>(payload: T): (ok: bool)
    ensures ok
  {
    true
  }
}
