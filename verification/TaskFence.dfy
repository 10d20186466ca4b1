/**
 The fence keeps stale workers out. Who passes it is decided by one lock row, two workers of the
 same family never pass together, and a worker that lost its place stays out until it claims again.
 */
module TaskFence {
  import opened TaskTables
  import opened TaskStatements

  /** The pair holds the task, leaving aside whether the lease has lapsed. */
  predicate Held(s: Tables, t: TaskId, r: RunnerId) {
    s.RunningTask(t) && s.tasks[t].lockedBy == r && HasRow(s, s.tasks[t].family.scope != "", t, r)
  }

  /** The fence looks rows up by task id; the row it can find is the one under the task's own key. */
  lemma FenceIsOwnRow(s: Tables, t: TaskId, r: RunnerId, now: int)
    requires RowsFit(s) && t in s.tasks
    ensures var k := s.tasks[t].family.Slot();
            LeaseHeld(s, t, r, now)
            <==> s.RunningTask(t) && s.tasks[t].lockedBy == r && k in s.locks && s.locks[k].Names(t, r)
                 && s.locks[k].lockedUntil >= now
  {
    var k := s.tasks[t].family.Slot();
    assert forall j :: j in s.locks && s.locks[j].taskId == t && j.ScopeSlot? == (s.tasks[t].family.scope != "") ==>
             j == k;
  }

  /** At most one (task, runner) pair passes the fence per type, and per (type, scope). */
  lemma MutualExclusion(s: Tables, t: TaskId, r: RunnerId, now: int, t': TaskId, r': RunnerId, now': int)
    requires RowsFit(s) && LeaseHeld(s, t, r, now) && LeaseHeld(s, t', r', now')
    requires s.tasks[t].family.Slot() == s.tasks[t'].family.Slot()
    ensures t == t' && r == r'
  {
    FenceIsOwnRow(s, t, r, now);
    FenceIsOwnRow(s, t', r', now');
  }

  /** The same over every interleaving from empty tables, whatever clocks the workers read. */
  lemma MutualExclusionAlways(cs: seq<Statement>, t: TaskId, r: RunnerId, now: int, t': TaskId, r': RunnerId, now': int)
    requires LegalRun(EMPTY, cs)
    requires var s := Run(EMPTY, cs);
             LeaseHeld(s, t, r, now) && LeaseHeld(s, t', r', now')
             && s.tasks[t].family.Slot() == s.tasks[t'].family.Slot()
    ensures t == t' && r == r'
  {
    RowsFitRun(EMPTY, cs);
    MutualExclusion(Run(EMPTY, cs), t, r, now, t', r', now');
  }

  // ---------------------------------------------------------------- takeover

  /** The statements by which r itself claims t. */
  predicate Claims(c: Statement, t: TaskId, r: RunnerId) {
    match c
    case Queue(DoInsertLock(_, x, y, _, _)) => x == t && y == r
    case Queue(DoStealLock(_, x, y, _, _)) => x == t && y == r
    case Queue(DoStartRun(x, y, _)) => x == t && y == r
    case _ => false
  }

  predicate NoClaims(cs: seq<Statement>, t: TaskId, r: RunnerId) {
    forall i :: 0 <= i < |cs| ==> !Claims(cs[i], t, r)
  }

  /** The statements that commit something in the name of (t, r). */
  predicate Fenced(c: Statement, t: TaskId, r: RunnerId) {
    match c
    case Queue(DoComplete(x, y, _, _, _, _)) => x == t && y == r
    case Queue(DoSaveState(x, y, _, _)) => x == t && y == r
    case Queue(DoRequeue(x, y, _)) => x == t && y == r
    case Exports(DoRequeueExport(x, y, _)) => x == t && y == r
    case Operations(DoFinishOperation(_, x, y, _, _, _)) => x == t && y == r
    case _ => false
  }

  lemma TakeoverByQueue(s: Tables, q: QueueStatement, t: TaskId, r: RunnerId)
    requires RowsFit(s) && Legal(s, Queue(q)) && !Held(s, t, r) && !Claims(Queue(q), t, r)
    ensures !Held(ApplyQueue(s, q), t, r)
  {
  }

  lemma TakeoverByOthers(s: Tables, c: Statement, t: TaskId, r: RunnerId)
    requires RowsFit(s) && Legal(s, c) && !c.Queue? && !Held(s, t, r)
    ensures !Held(Apply(s, c), t, r)
  {
  }

  /** No renewal, requeue, expiry, release or rival claim gives a lost place back. */
  lemma {:induction false} TakeoverIsPermanent(s: Tables, cs: seq<Statement>, t: TaskId, r: RunnerId)
    requires RowsFit(s) && LegalRun(s, cs) && !Held(s, t, r) && NoClaims(cs, t, r)
    ensures !Held(Run(s, cs), t, r)
  {
    if cs != [] {
      var before, c := cs[..|cs| - 1], cs[|cs| - 1];
      TakeoverIsPermanent(s, before, t, r);
      RowsFitRun(s, before);
      if c.Queue? {
        TakeoverByQueue(Run(s, before), c.q, t, r);
      } else {
        TakeoverByOthers(Run(s, before), c, t, r);
      }
    }
  }

  /** So nothing a stale worker sends from then on changes any table, and every check it makes fails. */
  lemma StaleWorkerNeverCommits(s: Tables, cs: seq<Statement>, t: TaskId, r: RunnerId, c: Statement, now: int)
    requires RowsFit(s) && LegalRun(s, cs) && !Held(s, t, r) && NoClaims(cs, t, r) && Fenced(c, t, r)
    ensures !RequireValidLease(Run(s, cs), t, r, now)
    ensures Apply(Run(s, cs), c) == Run(s, cs)
  {
    TakeoverIsPermanent(s, cs, t, r);
  }

  // ---------------------------------------------------------------- lapse and renewal

  /**
   A lapsed lease can come back without a claim in exactly one way: a renewal that read its clock
   before the lapse and reached the database after it.
   */
  lemma LateRenewal(s: Tables, scoped: bool, t: TaskId, r: RunnerId, read: int, until: int, now: int)
    requires RowsFit(s) && t in s.tasks && !LeaseHeld(s, t, r, now)
    ensures LeaseHeld(RenewRows(s, scoped, t, r, read, until), t, r, now)
            <==> LeaseHeld(s, t, r, read) && scoped == (s.tasks[t].family.scope != "") && until >= now
  {
    var s' := RenewRows(s, scoped, t, r, read, until);
    assert RowsFit(s') by { RowsFitStep(s, Queue(DoRenewRows(scoped, t, r, read, until))); }
    FenceIsOwnRow(s, t, r, now);
    FenceIsOwnRow(s, t, r, read);
    FenceIsOwnRow(s', t, r, now);
  }

  /** A task created, locked until 60 and started at 0. */
  function Started(t: TaskId, r: RunnerId, taskType: string): seq<Statement> {
    [Queue(DoCreate(t, Origin(Family(taskType, ""), false), "", 0)),
     Queue(DoInsertLock(TypeSlot(taskType), t, r, 0, 60)),
     Queue(DoStartRun(t, r, 0))]
  }

  /** It happens: a renewal that read its clock in the last second of the lease revives it a second later. */
  lemma LateRenewalRevives(t: TaskId, r: RunnerId, taskType: string)
    requires t != ""
    ensures LegalRun(EMPTY, Started(t, r, taskType))
    ensures var s := Run(EMPTY, Started(t, r, taskType));
            !LeaseHeld(s, t, r, 61) && LeaseHeld(Apply(s, Queue(DoRenewRows(false, t, r, 60, 120))), t, r, 61)
  {
    var cs := Started(t, r, taskType);
    RunThen(EMPTY, [], cs[0]);
    RunThen(EMPTY, [cs[0]], cs[1]);
    RunThen(EMPTY, [cs[0], cs[1]], cs[2]);
    assert [] + [cs[0]] == [cs[0]] && [cs[0]] + [cs[1]] == [cs[0], cs[1]] && [cs[0], cs[1]] + [cs[2]] == cs;
    var s := Run(EMPTY, cs);
    assert s.locks == map[TypeSlot(taskType) := Lock(t, r, 60, 0)] && s.RunningTask(t);
    var k := TypeSlot(taskType);
    assert k in RenewRows(s, false, t, r, 60, 120).locks;
  }
}
