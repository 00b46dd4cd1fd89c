/** The browser-storage database: five JSON collections seeded from the demo
    fixtures, insert into the scores collection, and the score upsert keyed on student,
    subject and term. Storage is a record of optional collections; an absent
    collection is a key that was never written. */
module LocalDb {
  import opened Common
  import opened Types
  import opened Constants

  datatype Storage = Storage(
    students: Option<seq<Student>>, classes: Option<seq<ClassLevel>>, subjects: Option<seq<Subject>>,
    scores: Option<seq<Score>>, pins: Option<seq<ResultPin>>)

  /** Reading a collection: an absent key reads as the empty list. */
  function Query<T>(c: Option<seq<T>>): (r: seq<T>)
    ensures c.None? ==> r == []
    ensures c.Some? ==> r == c.value
  {
    c.GetOr([])
  }

  /** Seeds each absent collection: students, classes and subjects from the
      fixtures, scores and pins empty. A present collection is kept. */
  function Init(s: Storage): (r: Storage)
    ensures s.students.Some? ==> r.students == s.students
    ensures s.students.None? ==> r.students == Some(MOCK_STUDENTS)
    ensures s.classes.Some? ==> r.classes == s.classes
    ensures s.classes.None? ==> r.classes == Some(MOCK_CLASSES)
    ensures s.subjects.Some? ==> r.subjects == s.subjects
    ensures s.subjects.None? ==> r.subjects == Some(MOCK_SUBJECTS)
    ensures s.scores.Some? ==> r.scores == s.scores
    ensures s.scores.None? ==> r.scores == Some([])
    ensures s.pins.Some? ==> r.pins == s.pins
    ensures s.pins.None? ==> r.pins == Some([])
  {
    Storage(
      if s.students.Some? then s.students else Some(MOCK_STUDENTS),
      if s.classes.Some? then s.classes else Some(MOCK_CLASSES),
      if s.subjects.Some? then s.subjects else Some(MOCK_SUBJECTS),
      if s.scores.Some? then s.scores else Some([]),
      if s.pins.Some? then s.pins else Some([]))
  }

  predicate AllPresent(s: Storage) {
    s.students.Some? && s.classes.Some? && s.subjects.Some? && s.scores.Some? && s.pins.Some?
  }

  /** After one initialisation every collection exists, so constructing the
      database again changes nothing. */
  lemma InitIdempotent(s: Storage)
    ensures AllPresent(Init(s))
    ensures Init(Init(s)) == Init(s)
    ensures AllPresent(s) ==> Init(s) == s
  {
  }

  /** `id || fresh`: a present, non-empty id is kept. */
  function IdOr(id: Option<string>, freshId: string): (r: string)
    ensures id.Some? && id.value != "" ==> r == id.value
    ensures id.None? || id.value == "" ==> r == freshId
  {
    if id.Some? && id.value != "" then id.value else freshId
  }

  /** `insert` into the scores collection: the item gets its own id when it
      has a non-empty one and `freshId` otherwise, and is appended. Returns
      the new collection and the stored item. */
  function Insert(current: seq<Score>, item: Score, freshId: string): (r: (seq<Score>, Score))
    ensures |r.0| == |current| + 1 && r.0[..|current|] == current && r.0[|current|] == r.1
    ensures r.1.id == Some(IdOr(item.id, freshId))
    ensures r.1.(id := item.id) == item
  {
    var stored := item.(id := Some(IdOr(item.id, freshId)));
    var out := current + [stored];
    assert out[..|current|] == current;
    (out, stored)
  }

  /** The upsert's key: student, subject and term, compared strictly. The
      session is not part of it. */
  predicate SameSlot(a: Score, b: Score) {
    a.studentId == b.studentId && a.subjectId == b.subjectId && a.termId == b.termId
  }

  /** `{...old, ...score}` for a typed score: every field comes from `score`
      except an absent id, which keeps the old one. */
  function Merge(prior: Score, score: Score): (r: Score)
    ensures r.id == (if score.id.Some? then score.id else prior.id)
    ensures r.(id := score.id) == score
  {
    score.(id := if score.id.Some? then score.id else prior.id)
  }

  /** `upsertScore`: the first row in the score's slot is merged with it;
      with no such row the score is appended under `freshId`, whatever id it
      carried. There is no lock check. */
  function UpsertScore(scores: seq<Score>, score: Score, freshId: string): (r: seq<Score>)
    ensures |scores| <= |r| <= |scores| + 1
    ensures forall i :: (0 <= i < |scores| && SameSlot(scores[i], score)
                         && (forall j :: 0 <= j < i ==> !SameSlot(scores[j], score))) ==>
              && |r| == |scores|
              && r[i] == Merge(scores[i], score)
              && (forall k :: 0 <= k < |scores| && k != i ==> r[k] == scores[k])
    ensures (forall i :: 0 <= i < |scores| ==> !SameSlot(scores[i], score)) ==>
              && |r| == |scores| + 1 && r[..|scores|] == scores
              && r[|scores|] == score.(id := Some(freshId))
  {
    match FindIndex(scores, s => SameSlot(s, score), 0)
    case Some(i) =>
      var out := scores[i := Merge(scores[i], score)];
      assert forall i' :: (0 <= i' < |scores| && SameSlot(scores[i'], score)
                           && (forall j :: 0 <= j < i' ==> !SameSlot(scores[j], score))) ==> i' == i;
      out
    case None =>
      var out := scores + [score.(id := Some(freshId))];
      assert out[..|scores|] == scores;
      out
  }

  /** A row of another session in the same slot is overwritten: the session
      does not separate rows. */
  lemma UpsertIgnoresSession(prior: Score, score: Score, freshId: string)
    requires SameSlot(prior, score) && prior.sessionId != score.sessionId
    ensures UpsertScore([prior], score, freshId) == [Merge(prior, score)]
    ensures |UpsertScore([prior], score, freshId)| == 1
  {
  }

  /** A locked row is overwritten like any other, lock flag included. */
  lemma UpsertIgnoresLock(scores: seq<Score>, score: Score, freshId: string, i: nat)
    requires i < |scores| && SameSlot(scores[i], score) && scores[i].isLocked
    requires forall j :: 0 <= j < i ==> !SameSlot(scores[j], score)
    ensures var r := UpsertScore(scores, score, freshId);
            && r[i].ca1 == score.ca1 && r[i].exam == score.exam && r[i].total == score.total
            && r[i].isLocked == score.isLocked
  {
  }

  /** Upserting the same score twice gives what upserting it once gave, when
      the score carries no id (the fresh ids of the two calls may differ). */
  lemma {:induction false} UpsertTwiceIsOnce(scores: seq<Score>, score: Score, fresh1: string, fresh2: string)
    requires score.id.None?
    ensures UpsertScore(UpsertScore(scores, score, fresh1), score, fresh2) == UpsertScore(scores, score, fresh1)
  {
    var once := UpsertScore(scores, score, fresh1);
    match FindIndex(scores, s => SameSlot(s, score), 0)
    case Some(i) =>
      assert SameSlot(once[i], score);
      assert forall j :: 0 <= j < i ==> once[j] == scores[j];
      var twice := UpsertScore(once, score, fresh2);
      assert twice == once;
    case None =>
      var n := |scores|;
      assert SameSlot(once[n], score);
      assert forall j :: 0 <= j < n ==> once[j] == scores[j];
      var twice := UpsertScore(once, score, fresh2);
      assert twice == once;
  }

  /** With an id on the score and no matching row, the first call stores the
      fresh id and the second call replaces it with the score's own. */
  lemma UpsertTwiceRenamesId()
    ensures var score := Score(Some("x"), "st1", "sub1", "t2", "s1", 1, 1, 1, 1, 1, 5, "F", false);
            var once := UpsertScore([], score, "r1");
            var twice := UpsertScore(once, score, "r2");
            once[0].id == Some("r1") && twice[0].id == Some("x") && twice != once
  {
    var score := Score(Some("x"), "st1", "sub1", "t2", "s1", 1, 1, 1, 1, 1, 5, "F", false);
    var once := UpsertScore([], score, "r1");
    assert SameSlot(once[0], score);
  }

  /** Inserting does not look for the slot: a second score for the same
      student, subject and term becomes a second row, where the upsert would
      have replaced the first. */
  lemma InsertDoesNotUpsert(row: Score, score: Score, freshId: string)
    requires SameSlot(row, score)
    ensures |Insert([row], score, freshId).0| == 2
    ensures |UpsertScore([row], score, freshId)| == 1
  {
  }

  /** The store-level upsert: reads the collection, upserts, writes it back;
      the other four collections are untouched. */
  function UpsertScoreIn(s: Storage, score: Score, freshId: string): (r: Storage)
    ensures r.students == s.students && r.classes == s.classes && r.subjects == s.subjects && r.pins == s.pins
    ensures r.scores == Some(UpsertScore(Query(s.scores), score, freshId))
    ensures |Query(s.scores)| <= |r.scores.value| <= |Query(s.scores)| + 1
    ensures forall k :: 0 <= k < |Query(s.scores)| && !SameSlot(Query(s.scores)[k], score) ==>
              r.scores.value[k] == Query(s.scores)[k]
  {
    s.(scores := Some(UpsertScore(Query(s.scores), score, freshId)))
  }

  /** The store-level insert into the scores collection. */
  function InsertIn(s: Storage, item: Score, freshId: string): (r: (Storage, Score))
    ensures r.0.students == s.students && r.0.classes == s.classes && r.0.subjects == s.subjects && r.0.pins == s.pins
    ensures r.0.scores.Some? && |r.0.scores.value| == |Query(s.scores)| + 1
    ensures r.0.scores.value[..|Query(s.scores)|] == Query(s.scores)
    ensures r.0.scores.value[|Query(s.scores)|] == r.1
    ensures r.1.id == Some(IdOr(item.id, freshId)) && r.1.(id := item.id) == item
  {
    var ins := Insert(Query(s.scores), item, freshId);
    (s.(scores := Some(ins.0)), ins.1)
  }
}
