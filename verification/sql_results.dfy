/** The SQL-backed results route: the class score sheet read (a left join
    ordered by surname) and the score upsert, which checks the lock, writes
    the score and its audit row, and commits or rolls back both together. */
module SqlResults {
  import opened Common
  import opened Types

  datatype StudentRow = StudentRow(id: string, firstName: string, lastName: string, admissionNo: string, classId: string)

  /** A row of the `scores` table. The route never writes `total` or `grade`
      and never sets `updated_at` on insert; `None` stands for whatever the
      table supplies there. */
  datatype ScoreRow = ScoreRow(
    studentId: string, subjectId: string, termId: string, sessionId: string,
    ca1: int, ca2: int, assignment: int, notes: int, exam: int,
    total: Option<int>, grade: Option<string>, isLocked: bool,
    updatedBy: Option<string>, updatedAt: Option<int>)

  datatype AuditRow = AuditRow(userId: string, userRole: Role, action: string, details: string)

  datatype Db = Db(students: seq<StudentRow>, scores: seq<ScoreRow>, auditLogs: seq<AuditRow>)

  datatype Caller = Caller(id: string, role: Role)

  /** The request body; a component that is missing is `None`. */
  datatype ScoreInput = ScoreInput(
    studentId: string, subjectId: string, termId: string, sessionId: string,
    ca1: Option<int>, ca2: Option<int>, assignment: Option<int>, notes: Option<int>, exam: Option<int>)

  /** The route's outcome. `Forbidden` is the role check's refusal; a
      `RolledBack` request leaves the database as it was. */
  datatype PostResult = Forbidden | RolledBack(error: string) | Committed(db: Db, row: ScoreRow)

  const LOCKED_MESSAGE := "Score entry is locked for this student/subject."

  predicate MayPost(role: Role) {
    role == Teacher || role == FormMaster
  }

  predicate MayGet(role: Role) {
    role == Teacher || role == FormMaster || role == Principal
  }

  /** `x || 0` on a component: missing and zero both give 0. */
  function OrZero(v: Option<int>): (r: int)
    ensures v.None? ==> r == 0
    ensures v.Some? ==> r == v.value
  {
    v.GetOr(0)
  }

  /** The three columns the lock lookup filters on. */
  predicate SameTerm(r: ScoreRow, input: ScoreInput) {
    r.studentId == input.studentId && r.subjectId == input.subjectId && r.termId == input.termId
  }

  /** The four-column conflict target of the upsert. */
  predicate SameKey(r: ScoreRow, input: ScoreInput) {
    SameTerm(r, input) && r.sessionId == input.sessionId
  }

  /** No two rows share the four-column key (the table's unique constraint). */
  predicate UniqueKeys(scores: seq<ScoreRow>) {
    forall i, j :: 0 <= i < j < |scores| ==>
      !(scores[i].studentId == scores[j].studentId && scores[i].subjectId == scores[j].subjectId
        && scores[i].termId == scores[j].termId && scores[i].sessionId == scores[j].sessionId)
  }

  /** `INSERT ... ON CONFLICT DO UPDATE`: on a key match only the five
      components and the updater columns change; otherwise a new unlocked
      row is added. Returns the table and the row `RETURNING *` yields. */
  function Upsert(scores: seq<ScoreRow>, input: ScoreInput, userId: string, now: int): (r: (seq<ScoreRow>, ScoreRow))
    ensures SameKey(r.1, input)
    ensures r.1.ca1 == OrZero(input.ca1) && r.1.ca2 == OrZero(input.ca2) && r.1.assignment == OrZero(input.assignment)
            && r.1.notes == OrZero(input.notes) && r.1.exam == OrZero(input.exam) && r.1.updatedBy == Some(userId)
    ensures r.1 in r.0
    ensures forall i :: (0 <= i < |scores| && SameKey(scores[i], input)
                         && (forall j :: 0 <= j < i ==> !SameKey(scores[j], input))) ==>
              && |r.0| == |scores| && r.0[i] == r.1
              && r.1.isLocked == scores[i].isLocked && r.1.total == scores[i].total && r.1.grade == scores[i].grade
              && (forall k :: 0 <= k < |scores| && k != i ==> r.0[k] == scores[k])
    ensures (forall i :: 0 <= i < |scores| ==> !SameKey(scores[i], input)) ==>
              r.0 == scores + [r.1] && !r.1.isLocked
  {
    var ca1, ca2, asg, notes, exam :=
      OrZero(input.ca1), OrZero(input.ca2), OrZero(input.assignment), OrZero(input.notes), OrZero(input.exam);
    match FindIndex(scores, row => SameKey(row, input), 0)
    case Some(i) =>
      var updated := scores[i].(ca1 := ca1, ca2 := ca2, assignment := asg, notes := notes, exam := exam,
                                updatedBy := Some(userId), updatedAt := Some(now));
      var table := scores[i := updated];
      assert table[i] == updated;
      assert forall i' :: (0 <= i' < |scores| && SameKey(scores[i'], input)
                           && (forall j :: 0 <= j < i' ==> !SameKey(scores[j], input))) ==> i' == i;
      (table, updated)
    case None =>
      var inserted := ScoreRow(input.studentId, input.subjectId, input.termId, input.sessionId,
                               ca1, ca2, asg, notes, exam, None, None, false, Some(userId), None);
      var table := scores + [inserted];
      assert table[|scores|] == inserted;
      (table, inserted)
  }

  /** The upsert keeps the four-column key unique. */
  lemma UpsertKeepsKeysUnique(scores: seq<ScoreRow>, input: ScoreInput, userId: string, now: int)
    requires UniqueKeys(scores)
    ensures UniqueKeys(Upsert(scores, input, userId, now).0)
  {
    var r := Upsert(scores, input, userId, now);
    match FindIndex(scores, row => SameKey(row, input), 0)
    case Some(i) =>
      assert forall k :: 0 <= k < |scores| ==>
        r.0[k].studentId == scores[k].studentId && r.0[k].subjectId == scores[k].subjectId
        && r.0[k].termId == scores[k].termId && r.0[k].sessionId == scores[k].sessionId;
    case None =>
      assert forall k :: 0 <= k < |scores| ==> r.0[k] == scores[k];
  }

  function AuditFor(caller: Caller, input: ScoreInput): AuditRow {
    AuditRow(caller.id, caller.role, "UPDATE_SCORE",
             "Updated score for Student " + input.studentId + ", Subject " + input.subjectId)
  }

  /** Commits the upserted score together with exactly one audit row. */
  function Commit(db: Db, caller: Caller, input: ScoreInput, now: int): (r: PostResult)
    ensures r.Committed? && r.db.students == db.students
    ensures r.db.auditLogs == db.auditLogs + [AuditFor(caller, input)]
    ensures r.db.scores == Upsert(db.scores, input, caller.id, now).0
  {
    var upserted := Upsert(db.scores, input, caller.id, now);
    Committed(db.(scores := upserted.0, auditLogs := db.auditLogs + [AuditFor(caller, input)]), upserted.1)
  }

  /** What the route's lock query answers as `rows[0]`: the first row, in
      storage order, for the student, subject and term, in any session. */
  predicate FirstRowLocked(scores: seq<ScoreRow>, input: ScoreInput) {
    match FindIndex(scores, row => SameTerm(row, input), 0)
    case Some(i) => scores[i].isLocked
    case None => false
  }

  /** POST /score as written: the lock test reads only the first row of the
      three-column lookup. */
  function PostScoreAsWritten(db: Db, caller: Caller, input: ScoreInput, now: int): (r: PostResult)
    ensures !MayPost(caller.role) ==> r == Forbidden
    ensures MayPost(caller.role) && FirstRowLocked(db.scores, input) ==> r == RolledBack(LOCKED_MESSAGE)
    ensures MayPost(caller.role) && !FirstRowLocked(db.scores, input) ==> r == Commit(db, caller, input, now)
  {
    if !MayPost(caller.role) then Forbidden
    else if FirstRowLocked(db.scores, input) then RolledBack(LOCKED_MESSAGE)
    else Commit(db, caller, input, now)
  }

  /** With an unlocked row for session s1 stored before a locked row for
      session s2, a write to (st1, sub1, t2, s2) passes the lock test and
      overwrites the locked row. */
  lemma AsWrittenOverwritesLockedRow()
    ensures var unlocked := ScoreRow("st1", "sub1", "t2", "s1", 1, 1, 1, 1, 1, None, None, false, None, None);
            var locked := ScoreRow("st1", "sub1", "t2", "s2", 2, 2, 2, 2, 2, None, None, true, None, None);
            var db := Db([], [unlocked, locked], []);
            var input := ScoreInput("st1", "sub1", "t2", "s2", Some(9), Some(9), Some(9), Some(9), Some(50));
            var r := PostScoreAsWritten(db, Caller("u1", Teacher), input, 0);
            r.Committed? && r.db.scores[1].isLocked && r.db.scores[1].exam == 50 && r.db.scores[1] != locked
  {
    var unlocked := ScoreRow("st1", "sub1", "t2", "s1", 1, 1, 1, 1, 1, None, None, false, None, None);
    var locked := ScoreRow("st1", "sub1", "t2", "s2", 2, 2, 2, 2, 2, None, None, true, None, None);
    var input := ScoreInput("st1", "sub1", "t2", "s2", Some(9), Some(9), Some(9), Some(9), Some(50));
    var scores := [unlocked, locked];
    assert SameTerm(scores[0], input) && !SameKey(scores[0], input) && SameKey(scores[1], input);
    assert !FirstRowLocked(scores, input);
  }

  /** Any locked row for the student, subject and term, in any session. */
  predicate AnyRowLocked(scores: seq<ScoreRow>, input: ScoreInput) {
    exists i :: 0 <= i < |scores| && SameTerm(scores[i], input) && scores[i].isLocked
  }

  /** POST /score with the lock test made independent of row order: any
      locked row for the student, subject and term rejects the write. */
  function PostScore(db: Db, caller: Caller, input: ScoreInput, now: int): (r: PostResult)
    ensures !MayPost(caller.role) ==> r == Forbidden
    ensures MayPost(caller.role) && AnyRowLocked(db.scores, input) ==> r == RolledBack(LOCKED_MESSAGE)
    ensures MayPost(caller.role) && !AnyRowLocked(db.scores, input) ==> r == Commit(db, caller, input, now)
    ensures r.Committed? <==> MayPost(caller.role) && !AnyRowLocked(db.scores, input)
    ensures r.Committed? ==>
              && r.db.students == db.students
              && |r.db.auditLogs| == |db.auditLogs| + 1
              && r.db.auditLogs[..|db.auditLogs|] == db.auditLogs
              && r.db.auditLogs[|db.auditLogs|] == AuditRow(caller.id, caller.role, "UPDATE_SCORE",
                   "Updated score for Student " + input.studentId + ", Subject " + input.subjectId)
    ensures r.Committed? ==>
              && r.row in r.db.scores && SameKey(r.row, input) && r.row.updatedBy == Some(caller.id)
              && r.row.ca1 == OrZero(input.ca1) && r.row.ca2 == OrZero(input.ca2)
              && r.row.assignment == OrZero(input.assignment) && r.row.notes == OrZero(input.notes)
              && r.row.exam == OrZero(input.exam)
  {
    if !MayPost(caller.role) then Forbidden
    else if AnyRowLocked(db.scores, input) then RolledBack(LOCKED_MESSAGE)
    else
      var r := Commit(db, caller, input, now);
      assert r.db.auditLogs[..|db.auditLogs|] == db.auditLogs;
      r
  }

  /** When at most one stored row has the student, subject and term, the
      first-row lock test and the any-row lock test agree, and so do the two
      routes. */
  lemma AsWrittenAgreesOnOneSession(db: Db, caller: Caller, input: ScoreInput, now: int)
    requires forall i, j :: (0 <= i < |db.scores| && 0 <= j < |db.scores|
                             && SameTerm(db.scores[i], input) && SameTerm(db.scores[j], input)) ==> i == j
    ensures FirstRowLocked(db.scores, input) <==> AnyRowLocked(db.scores, input)
    ensures PostScoreAsWritten(db, caller, input, now) == PostScore(db, caller, input, now)
  {
    var f := FindIndex(db.scores, row => SameTerm(row, input), 0);
    if AnyRowLocked(db.scores, input) {
      var i :| 0 <= i < |db.scores| && SameTerm(db.scores[i], input) && db.scores[i].isLocked;
      assert f.Some? && f.value == i;
    }
  }

  /** A committed write never changes a locked row: every locked row of the
      table is still present, unchanged, at its position. */
  lemma LockedRowsNeverChange(db: Db, caller: Caller, input: ScoreInput, now: int)
    requires PostScore(db, caller, input, now).Committed?
    ensures var after := PostScore(db, caller, input, now).db.scores;
            forall k :: 0 <= k < |db.scores| && db.scores[k].isLocked ==> after[k] == db.scores[k]
  {
    var after := PostScore(db, caller, input, now).db.scores;
    assert after == Upsert(db.scores, input, caller.id, now).0;
    assert !AnyRowLocked(db.scores, input);
    match FindIndex(db.scores, row => SameKey(row, input), 0)
    case Some(i) =>
      assert SameTerm(db.scores[i], input);
      assert !db.scores[i].isLocked;
      assert forall k :: 0 <= k < |db.scores| && k != i ==> after[k] == db.scores[k];
    case None =>
      assert after[..|db.scores|] == db.scores;
  }

  /** A locked row blocks writes for every session of its student, subject
      and term, even when the written session has no row yet. */
  lemma LockBlocksOtherSessions(db: Db, caller: Caller, input: ScoreInput, now: int, k: nat)
    requires MayPost(caller.role)
    requires k < |db.scores| && SameTerm(db.scores[k], input) && db.scores[k].isLocked
    requires db.scores[k].sessionId != input.sessionId
    ensures PostScore(db, caller, input, now) == RolledBack(LOCKED_MESSAGE)
  {
  }

  /** Under unique keys, a row with the key is the only one, so it is the
      first match. */
  lemma KeyMatchIsUnique(scores: seq<ScoreRow>, input: ScoreInput, m: nat)
    requires UniqueKeys(scores)
    requires m < |scores| && SameKey(scores[m], input)
    ensures forall j :: 0 <= j < |scores| && j != m ==> !SameKey(scores[j], input)
    ensures FindIndex(scores, row => SameKey(row, input), 0) == Some(m)
  {
    forall j | 0 <= j < |scores| && j != m
      ensures !SameKey(scores[j], input)
    {
      if j < m {
        assert !(scores[j].studentId == scores[m].studentId && scores[j].subjectId == scores[m].subjectId
                 && scores[j].termId == scores[m].termId && scores[j].sessionId == scores[m].sessionId);
      } else {
        assert !(scores[m].studentId == scores[j].studentId && scores[m].subjectId == scores[j].subjectId
                 && scores[m].termId == scores[j].termId && scores[m].sessionId == scores[j].sessionId);
      }
    }
  }

  /** After a committed write the table still has unique keys and no locked
      row for the written student, subject and term. */
  lemma CommittedLeavesUnlocked(db: Db, caller: Caller, input: ScoreInput, now: int)
    requires UniqueKeys(db.scores)
    requires PostScore(db, caller, input, now).Committed?
    ensures UniqueKeys(PostScore(db, caller, input, now).db.scores)
    ensures !AnyRowLocked(PostScore(db, caller, input, now).db.scores, input)
  {
    var s1 := PostScore(db, caller, input, now).db.scores;
    UpsertKeepsKeysUnique(db.scores, input, caller.id, now);
    forall i | 0 <= i < |s1| && SameTerm(s1[i], input)
      ensures !s1[i].isLocked
    {
      match FindIndex(db.scores, row => SameKey(row, input), 0)
      case Some(j) =>
        if i != j { assert s1[i] == db.scores[i]; }
      case None =>
        if i < |db.scores| { assert s1[i] == db.scores[i]; }
    }
  }

  /** Upserting into a row that already holds the input's components and
      updater changes at most that row's update timestamp. */
  lemma UpsertSameValues(scores: seq<ScoreRow>, input: ScoreInput, userId: string, now: int, m: nat)
    requires UniqueKeys(scores)
    requires m < |scores| && SameKey(scores[m], input)
    requires scores[m].ca1 == OrZero(input.ca1) && scores[m].ca2 == OrZero(input.ca2)
             && scores[m].assignment == OrZero(input.assignment) && scores[m].notes == OrZero(input.notes)
             && scores[m].exam == OrZero(input.exam) && scores[m].updatedBy == Some(userId)
    ensures var after := Upsert(scores, input, userId, now).0;
            && |after| == |scores|
            && forall k :: 0 <= k < |scores| ==> after[k] == scores[k].(updatedAt := after[k].updatedAt)
  {
    KeyMatchIsUnique(scores, input, m);
    assert forall j :: 0 <= j < m ==> !SameKey(scores[j], input);
  }

  /** Repeating the same committed write changes nothing but the update
      timestamp: the second call finds the row the first one wrote and
      writes the same components into it. */
  lemma RepeatedPostSameScores(db: Db, caller: Caller, input: ScoreInput, now: int)
    requires UniqueKeys(db.scores)
    requires PostScore(db, caller, input, now).Committed?
    ensures var once := PostScore(db, caller, input, now);
            var twice := PostScore(once.db, caller, input, now);
            && twice.Committed?
            && |twice.db.scores| == |once.db.scores|
            && (forall k :: 0 <= k < |once.db.scores| ==>
                  twice.db.scores[k] == once.db.scores[k].(updatedAt := twice.db.scores[k].updatedAt))
            && |twice.db.auditLogs| == |once.db.auditLogs| + 1
  {
    var once := PostScore(db, caller, input, now);
    var s1 := once.db.scores;
    CommittedLeavesUnlocked(db, caller, input, now);
    var twice := PostScore(once.db, caller, input, now);
    assert twice.db.scores == Upsert(s1, input, caller.id, now).0;
    var m :| 0 <= m < |s1| && s1[m] == once.row;
    UpsertSameValues(s1, input, caller.id, now, m);
  }

  // --- GET / ---

  /** A column of the SELECT list, qualified by a table alias. */
  datatype ColumnRef = ColumnRef(alias: string, column: string)

  /** The aliases the FROM clause binds: `students st` and `scores sc`. */
  const FROM_ALIASES: set<string> := {"st", "sc"}

  const SCORE_COLUMNS: seq<ColumnRef> := [
    ColumnRef("st", "first_name"), ColumnRef("st", "last_name"), ColumnRef("st", "admission_no"),
    ColumnRef("sc", "ca1"), ColumnRef("sc", "ca2"), ColumnRef("sc", "assignment"), ColumnRef("sc", "notes"),
    ColumnRef("sc", "exam"), ColumnRef("sc", "total"), ColumnRef("sc", "grade"), ColumnRef("sc", "is_locked")]

  /** The select list as written: the id is taken from alias `s`. */
  const SELECT_AS_WRITTEN: seq<ColumnRef> := [ColumnRef("s", "id")] + SCORE_COLUMNS

  /** The select list with the id taken from the students table. */
  const SELECT_INTENDED: seq<ColumnRef> := [ColumnRef("st", "id")] + SCORE_COLUMNS

  /** One result row; score columns are NULL (`None`) when the student has no
      score for the subject and term. */
  datatype ResultRow = ResultRow(
    id: string, firstName: string, lastName: string, admissionNo: string,
    ca1: Option<int>, ca2: Option<int>, assignment: Option<int>, notes: Option<int>, exam: Option<int>,
    total: Option<int>, grade: Option<string>, isLocked: Option<bool>)

  datatype GetResult = GetForbidden | QueryFailed(error: string) | Rows(rows: seq<ResultRow>)

  /** The first alias of the select list that the FROM clause does not bind. */
  function UnboundAlias(select: seq<ColumnRef>): (r: Option<string>)
    ensures r.None? <==> forall c :: c in select ==> c.alias in FROM_ALIASES
    ensures r.Some? ==> r.value !in FROM_ALIASES
  {
    if select == [] then None
    else if select[0].alias !in FROM_ALIASES then Some(select[0].alias)
    else UnboundAlias(select[1..])
  }

  predicate JoinsWith(sc: ScoreRow, st: StudentRow, subjectId: string, termId: string) {
    st.id == sc.studentId && sc.subjectId == subjectId && sc.termId == termId
  }

  function Joined(st: StudentRow, sc: ScoreRow): ResultRow {
    ResultRow(st.id, st.firstName, st.lastName, st.admissionNo,
              Some(sc.ca1), Some(sc.ca2), Some(sc.assignment), Some(sc.notes), Some(sc.exam),
              sc.total, sc.grade, Some(sc.isLocked))
  }

  function Unmatched(st: StudentRow): ResultRow {
    ResultRow(st.id, st.firstName, st.lastName, st.admissionNo, None, None, None, None, None, None, None, None)
  }

  /** The `ON` clause as a test on score rows, for one student. */
  function JoinsFor(st: StudentRow, subjectId: string, termId: string): ScoreRow -> bool {
    sc => JoinsWith(sc, st, subjectId, termId)
  }

  /** The rows `LEFT JOIN` produces for one student: one per matching score,
      in table order, or a single all-NULL row when none matches. The `ON`
      clause ignores the session, so scores from several sessions each give
      a row. */
  function StudentRows(st: StudentRow, scores: seq<ScoreRow>, subjectId: string, termId: string): (rows: seq<ResultRow>)
    ensures |rows| >= 1
    ensures forall r :: r in rows ==> r.id == st.id && r.lastName == st.lastName
    ensures forall r :: r in rows ==>
              || (r == Unmatched(st) && forall sc :: sc in scores ==> !JoinsWith(sc, st, subjectId, termId))
              || (exists sc :: sc in scores && JoinsWith(sc, st, subjectId, termId) && r == Joined(st, sc))
    ensures forall sc :: sc in scores && JoinsWith(sc, st, subjectId, termId) ==> Joined(st, sc) in rows
    ensures (forall sc :: sc in scores ==> !JoinsWith(sc, st, subjectId, termId)) ==> rows == [Unmatched(st)]
    ensures (exists sc :: sc in scores && JoinsWith(sc, st, subjectId, termId)) ==>
              var matches := Filter(scores, JoinsFor(st, subjectId, termId));
              |rows| == |matches| && forall i :: 0 <= i < |rows| ==> rows[i] == Joined(st, matches[i])
  {
    var matches := Filter(scores, JoinsFor(st, subjectId, termId));
    if matches == [] then [Unmatched(st)]
    else
      var rows := seq(|matches|, i requires 0 <= i < |matches| => Joined(st, matches[i]));
      assert forall i :: 0 <= i < |matches| ==> matches[i] in matches && rows[i] == Joined(st, matches[i]);
      assert JoinsWith(matches[0], st, subjectId, termId);
      rows
  }

  /** A student scored for the subject and term in two sessions gets two
      rows, one per session's score, because the `ON` clause does not
      mention the session. */
  lemma TwoSessionsTwoRows(st: StudentRow, a: ScoreRow, b: ScoreRow, subjectId: string, termId: string)
    requires JoinsWith(a, st, subjectId, termId) && JoinsWith(b, st, subjectId, termId)
    ensures StudentRows(st, [a, b], subjectId, termId) == [Joined(st, a), Joined(st, b)]
  {
    var p := JoinsFor(st, subjectId, termId);
    assert [a, b] == [a] + [b];
    FilterAppend([a], [b], p);
    FilterSingleton(a, p);
    FilterSingleton(b, p);
    assert a in [a, b];
  }

  /** `FROM students st LEFT JOIN scores sc ... WHERE st.class_id = $1`,
      before ordering. */
  function LeftJoin(students: seq<StudentRow>, scores: seq<ScoreRow>, classId: string, subjectId: string, termId: string): (rows: seq<ResultRow>)
    ensures forall st :: st in students && st.classId == classId ==>
              exists r :: r in rows && r.id == st.id && r.lastName == st.lastName
  {
    if students == [] then []
    else
      var rest := LeftJoin(students[1..], scores, classId, subjectId, termId);
      if students[0].classId == classId then
        var mine := StudentRows(students[0], scores, subjectId, termId);
        assert mine[0] in mine;
        mine + rest
      else rest
  }

  /** Every joined row belongs to a student of the class. */
  lemma {:induction false} LeftJoinOnlyClass(students: seq<StudentRow>, scores: seq<ScoreRow>, classId: string,
                                            subjectId: string, termId: string, r: ResultRow)
    requires r in LeftJoin(students, scores, classId, subjectId, termId)
    ensures exists st :: st in students && st.classId == classId && r.id == st.id
  {
    var rest := LeftJoin(students[1..], scores, classId, subjectId, termId);
    if r in rest {
      LeftJoinOnlyClass(students[1..], scores, classId, subjectId, termId, r);
      var st :| st in students[1..] && st.classId == classId && r.id == st.id;
      assert st in students;
    } else {
      assert students[0] in students;
    }
  }

  /** The join holds exactly the rows the LEFT JOIN gives each student of
      the class: a row carries a joining score's columns, or is the all-NULL
      row of a student without one. */
  lemma {:induction false} LeftJoinRows(students: seq<StudentRow>, scores: seq<ScoreRow>, classId: string,
                                       subjectId: string, termId: string, r: ResultRow)
    ensures r in LeftJoin(students, scores, classId, subjectId, termId) <==>
              exists st :: st in students && st.classId == classId && r in StudentRows(st, scores, subjectId, termId)
  {
    if students != [] {
      LeftJoinRows(students[1..], scores, classId, subjectId, termId, r);
      assert forall st :: st in students <==> st == students[0] || st in students[1..];
    }
  }

  /** Lexicographic order on code points, as `ORDER BY ... ASC` under the
      "C" (byte-wise) collation. */
  predicate StrLe(a: string, b: string) {
    if |a| == 0 then true
    else if |b| == 0 then false
    else if a[0] != b[0] then a[0] < b[0]
    else StrLe(a[1..], b[1..])
  }

  lemma StrLeTotal(a: string, b: string)
    ensures StrLe(a, b) || StrLe(b, a)
  {
  }

  predicate SortedBySurname(rows: seq<ResultRow>) {
    forall i :: 0 < i < |rows| ==> StrLe(rows[i - 1].lastName, rows[i].lastName)
  }

  function InsertBySurname(x: ResultRow, rows: seq<ResultRow>): (r: seq<ResultRow>)
    requires SortedBySurname(rows)
    ensures SortedBySurname(r)
    ensures multiset(r) == multiset(rows) + multiset{x}
    ensures |r| == |rows| + 1
    ensures r[0] == x || (|rows| > 0 && r[0] == rows[0])
  {
    if rows == [] then [x]
    else if StrLe(x.lastName, rows[0].lastName) then [x] + rows
    else
      StrLeTotal(x.lastName, rows[0].lastName);
      var tail := InsertBySurname(x, rows[1..]);
      assert rows == [rows[0]] + rows[1..];
      [rows[0]] + tail
  }

  /** `ORDER BY st.last_name ASC`: a sorted permutation of the joined rows. */
  function SortBySurname(rows: seq<ResultRow>): (r: seq<ResultRow>)
    ensures SortedBySurname(r)
    ensures multiset(r) == multiset(rows)
  {
    if rows == [] then []
    else
      assert rows == [rows[0]] + rows[1..];
      InsertBySurname(rows[0], SortBySurname(rows[1..]))
  }

  /** GET / with a given select list. An alias the FROM clause does not bind
      makes the query fail, which the route answers with status 500. */
  function GetScores(db: Db, role: Role, classId: string, subjectId: string, termId: string,
                     select: seq<ColumnRef>): (r: GetResult)
    ensures !MayGet(role) ==> r == GetForbidden
    ensures MayGet(role) && UnboundAlias(select).Some? ==> r.QueryFailed?
    ensures r.Rows? ==>
              && SortedBySurname(r.rows)
              && multiset(r.rows) == multiset(LeftJoin(db.students, db.scores, classId, subjectId, termId))
  {
    if !MayGet(role) then GetForbidden
    else match UnboundAlias(select)
      case Some(alias) => QueryFailed("missing FROM-clause entry for table \"" + alias + "\"")
      case None => Rows(SortBySurname(LeftJoin(db.students, db.scores, classId, subjectId, termId)))
  }

  /** As written, every permitted GET fails: alias `s` is bound nowhere. */
  lemma AsWrittenGetAlwaysFails(db: Db, role: Role, classId: string, subjectId: string, termId: string)
    requires MayGet(role)
    ensures GetScores(db, role, classId, subjectId, termId, SELECT_AS_WRITTEN).QueryFailed?
  {
    assert SELECT_AS_WRITTEN[0].alias !in FROM_ALIASES;
  }

  lemma IntendedSelectResolves()
    ensures UnboundAlias(SELECT_INTENDED).None?
  {
    assert forall i :: 0 <= i < |SELECT_INTENDED| ==> SELECT_INTENDED[i].alias in FROM_ALIASES;
  }

  /** Every student of the class appears in the ordered join. */
  lemma StudentInOrderedJoin(db: Db, classId: string, subjectId: string, termId: string, st: StudentRow)
    requires st in db.students && st.classId == classId
    ensures exists row :: row in SortBySurname(LeftJoin(db.students, db.scores, classId, subjectId, termId)) && row.id == st.id
  {
    var joined := LeftJoin(db.students, db.scores, classId, subjectId, termId);
    var row :| row in joined && row.id == st.id && row.lastName == st.lastName;
    SortKeepsRows(joined, row);
  }

  /** Sorting keeps every row. */
  lemma SortKeepsRows(rows: seq<ResultRow>, x: ResultRow)
    requires x in rows
    ensures x in SortBySurname(rows)
  {
    assert x in multiset(rows);
  }

  /** With `st.id`, every permitted GET returns every student of the class,
      scored or not, ordered by surname. */
  lemma IntendedGetListsWholeClass(db: Db, role: Role, classId: string, subjectId: string, termId: string)
    requires MayGet(role)
    ensures var r := GetScores(db, role, classId, subjectId, termId, SELECT_INTENDED);
            && r.Rows? && SortedBySurname(r.rows)
            && (forall st :: st in db.students && st.classId == classId ==>
                  exists row :: row in r.rows && row.id == st.id)
  {
    IntendedSelectResolves();
    var sorted := SortBySurname(LeftJoin(db.students, db.scores, classId, subjectId, termId));
    assert GetScores(db, role, classId, subjectId, termId, SELECT_INTENDED) == Rows(sorted);
    forall st | st in db.students && st.classId == classId
      ensures exists row :: row in sorted && row.id == st.id
    {
      StudentInOrderedJoin(db, classId, subjectId, termId, st);
    }
  }

  /** With `st.id`, a permitted GET shows exactly the LEFT JOIN rows of the
      class's students: each joining score appears with its columns, and an
      unscored student appears once with NULL scores. */
  lemma IntendedGetShowsJoinRows(db: Db, role: Role, classId: string, subjectId: string, termId: string, r: ResultRow)
    requires MayGet(role)
    ensures var res := GetScores(db, role, classId, subjectId, termId, SELECT_INTENDED);
            res.Rows? && (r in res.rows <==>
              exists st :: st in db.students && st.classId == classId && r in StudentRows(st, db.scores, subjectId, termId))
  {
    IntendedSelectResolves();
    var joined := LeftJoin(db.students, db.scores, classId, subjectId, termId);
    var res := GetScores(db, role, classId, subjectId, termId, SELECT_INTENDED);
    assert res == Rows(SortBySurname(joined));
    assert r in res.rows <==> r in multiset(joined);
    LeftJoinRows(db.students, db.scores, classId, subjectId, termId, r);
  }
}
