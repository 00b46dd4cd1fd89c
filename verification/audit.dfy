/** The client-side audit trail: a newest-first list of entries, mirrored to
    browser storage after every write and reloaded from it at start-up. */
module Audit {
  import opened Common
  import opened Types

  /** The service's list and the persisted copy (`None` until the first
      write, or when nothing was ever saved). */
  datatype AuditService = AuditService(logs: seq<AuditLog>, saved: Option<seq<AuditLog>>)

  /** The fixed address every entry records. */
  const SIMULATED_IP := "192.168.1.1"

  /** The constructor: starts from the saved list when there is one. */
  function Load(saved: Option<seq<AuditLog>>): (r: AuditService)
    ensures saved.Some? ==> r.logs == saved.value
    ensures saved.None? ==> r.logs == []
    ensures r.saved == saved
  {
    AuditService(saved.GetOr([]), saved)
  }

  /** The signed-in user as an audit entry records them. */
  datatype Actor = Actor(id: string, role: Role)

  /** The values one `log` call needs from outside: the caller's arguments,
      the random id and the clock reading. */
  datatype LogRequest = LogRequest(
    userId: string, role: Role, action: string, affectedRecord: string, id: string, timestamp: string)

  /** The entry a request produces. */
  function EntryOf(q: LogRequest): (e: AuditLog)
    ensures e.userId == q.userId && e.userRole == q.role && e.action == q.action
    ensures e.affectedRecord == q.affectedRecord && e.ipAddress == SIMULATED_IP
  {
    AuditLog(q.id, q.userId, q.role, q.action, q.affectedRecord, q.timestamp, SIMULATED_IP)
  }

  /** `log`: the new entry goes in front of the existing ones, which keep
      their order, and the whole list is persisted. */
  function Log(svc: AuditService, q: LogRequest): (r: AuditService)
    ensures |r.logs| == |svc.logs| + 1
    ensures r.logs[0] == EntryOf(q)
    ensures r.logs[1..] == svc.logs
    ensures r.saved == Some(r.logs)
  {
    var logs := [EntryOf(q)] + svc.logs;
    assert logs[1..] == svc.logs;
    AuditService(logs, Some(logs))
  }

  /** `getLogs`: a copy of the list, newest first. */
  function GetLogs(svc: AuditService): (r: seq<AuditLog>)
    ensures |r| == |svc.logs| && forall i :: 0 <= i < |r| ==> r[i] == svc.logs[i]
  {
    svc.logs
  }

  /** Logging the requests one after another, first to last. */
  function LogAll(svc: AuditService, qs: seq<LogRequest>): (r: AuditService)
    ensures |r.logs| == |svc.logs| + |qs|
    decreases |qs|
  {
    if qs == [] then svc else Log(LogAll(svc, qs[..|qs| - 1]), qs[|qs| - 1])
  }

  function Entries(qs: seq<LogRequest>): (es: seq<AuditLog>)
    ensures |es| == |qs| && forall i :: 0 <= i < |qs| ==> es[i] == EntryOf(qs[i])
  {
    seq(|qs|, i requires 0 <= i < |qs| => EntryOf(qs[i]))
  }

  /** Starting from an empty list, logging a1..an makes `getLogs` return the
      entries of an..a1. */
  lemma {:induction false} LogAllNewestFirst(qs: seq<LogRequest>)
    ensures GetLogs(LogAll(Load(None), qs)) == Reverse(Entries(qs))
  {
    if qs != [] {
      var init := qs[..|qs| - 1];
      LogAllNewestFirst(init);
      var before := LogAll(Load(None), init).logs;
      var after := LogAll(Load(None), qs).logs;
      var last := EntryOf(qs[|qs| - 1]);
      assert Entries(qs) == Entries(init) + [last];
      ReverseSnoc(Entries(init), last);
      assert after == [last] + before;
    }
  }

  /** The persisted copy, when there is one, equals the list in memory. */
  predicate InSync(svc: AuditService) {
    svc.saved.Some? ==> svc.saved.value == svc.logs
  }

  /** Every write keeps memory and storage in step, and a service loaded
      afterwards from storage sees the same list. */
  lemma LogKeepsInSync(svc: AuditService, q: LogRequest)
    ensures InSync(Log(svc, q))
    ensures Load(Log(svc, q).saved).logs == GetLogs(Log(svc, q))
  {
  }

  /** A freshly loaded service is in sync with what it loaded. */
  lemma LoadIsInSync(saved: Option<seq<AuditLog>>)
    ensures InSync(Load(saved))
    ensures GetLogs(Load(Load(saved).saved)) == GetLogs(Load(saved))
  {
  }
}
