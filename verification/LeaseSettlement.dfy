/**
 Lease expiry and the business record behind a task. However many expirers race, an operation is
 settled once, with one completion audit; exports and account syncs are only sent back.
 */
module LeaseSettlement {
  import opened TaskTables
  import opened TaskStatements
  import Ordering

  /** Completion audits of one operation. */
  function Completions(audits: seq<Audit>, o: int): nat {
    if audits == [] then 0
    else Completions(audits[..|audits| - 1], o) + if audits[|audits| - 1].operation == o then 1 else 0
  }

  /** A queued, running or settled operation belongs to one operation task of its own; it is audited when settled. */
  predicate OperationFits(s: Tables, o: int)
    requires o in s.operations
  {
    var op := s.operations[o];
    && (!op.status.OpPlanned? ==> op.taskId in s.issued && s.issued[op.taskId].family.taskType == INSTANCE_OPERATION)
    && (op.status.OpPlanned? ==> op.taskId == "")
  }

  ghost predicate OperationsFit(s: Tables) {
    && (forall o :: o in s.operations ==> OperationFits(s, o))
    && (forall o, p ::
          o in s.operations && p in s.operations && s.operations[o].taskId == s.operations[p].taskId != "" ==> o == p)
  }

  ghost predicate AuditsFit(s: Tables) {
    forall o :: Completions(s.audits, o) == if o in s.operations && s.operations[o].status.Settled() then 1 else 0
  }

  ghost predicate Fits(s: Tables) {
    RowsFit(s) && OperationsFit(s) && AuditsFit(s)
  }

  lemma SettleFits(s: Tables, o: int, outcome: OperationStatus, code: string, actor: int, now: int)
    requires Fits(s) && o in s.operations && s.operations[o].status.Active() && outcome.Settled()
    ensures Fits(Settle(s, o, outcome, code, actor, now))
  {
    var s' := Settle(s, o, outcome, code, actor, now);
    assert s'.audits[..|s'.audits| - 1] == s.audits;
    assert forall p :: p in s'.operations && p != o ==> s'.operations[p] == s.operations[p];
  }

  lemma ExpiryFits(s: Tables, t: TaskId, now: int)
    requires Fits(s)
    ensures Fits(MarkExpired(s, t, now))
  {
    if s.RunningTask(t) {
      var marked := s.(tasks := s.tasks[t := ExpiredTask(s.tasks[t], now)]);
      assert Fits(marked);
      var active := ActiveOperations(marked, t);
      if s.tasks[t].family.taskType == INSTANCE_OPERATION && active != {} {
        var o := Ordering.Least(active);
        var op := s.operations[o];
        SettleFits(marked, o, ExpiryOutcome(op), ExpiryCode(op), CompletionActor(op), now);
      }
      RowsFitStep(s, Queue(DoMarkExpired(t, now)));
    }
  }

  /** Operations and audits untouched, and no task forgotten. */
  ghost predicate Framed(s: Tables, s': Tables) {
    && s'.operations == s.operations && s'.audits == s.audits
    && IssuedKept(s, s')
  }

  lemma FramedFits(s: Tables, s': Tables)
    requires Fits(s) && RowsFit(s') && Framed(s, s')
    ensures Fits(s')
  {
    assert forall o :: o in s'.operations ==> OperationFits(s, o);
  }

  lemma QueueFramed(s: Tables, q: QueueStatement)
    requires !q.DoMarkExpired?
    ensures Framed(s, ApplyQueue(s, q))
  {
  }

  lemma ExportsFramed(s: Tables, e: ExportStatement)
    ensures Framed(s, ApplyExports(s, e))
  {
  }

  /** A planned operation takes a fresh task of its own. */
  lemma QueuedOperationsFit(s: Tables, s': Tables, o: int, t: TaskId)
    requires OperationsFit(s) && IssuedKept(s, s') && o in s.operations && t !in s.issued
    requires t in s'.issued && s'.issued[t].family.taskType == INSTANCE_OPERATION
    requires o in s'.operations && s'.operations == s.operations[o := s'.operations[o]]
    requires s'.operations[o].status.OpQueued? && s'.operations[o].taskId == t
    ensures OperationsFit(s')
  {
    assert forall x :: x in s.operations ==> OperationFits(s, x);
  }

  lemma QueuedFits(s: Tables, o: int, t: TaskId, actorId: int, now: int)
    requires Fits(s) && RowsFit(QueueOperation(s, o, t, actorId, now))
    ensures Fits(QueueOperation(s, o, t, actorId, now))
  {
    var s' := QueueOperation(s, o, t, actorId, now);
    if s' != s {
      QueuedOperationsFit(s, s', o, t);
      assert AuditsFit(s');
    }
  }

  /** A planned operation appears, or a queued one starts: no audit, no change of owner. */
  lemma UnsettledFits(s: Tables, s': Tables, o: int)
    requires Fits(s) && s'.operations.Keys == s.operations.Keys + {o} && s' == s.(operations := s'.operations)
    requires forall x :: x in s.operations && x != o ==> s'.operations[x] == s.operations[x]
    requires if o in s.operations then s.operations[o].status.Active() && s'.operations[o].status.Active()
                                       && s'.operations[o].taskId == s.operations[o].taskId
             else s'.operations[o].status.OpPlanned? && s'.operations[o].taskId == ""
    ensures Fits(s')
  {
    assert forall x :: x in s.operations ==> OperationFits(s, x);
    assert forall x :: x in s'.operations ==> OperationFits(s', x);
  }

  lemma QueueFits(s: Tables, q: QueueStatement)
    requires Fits(s) && Legal(s, Queue(q))
    ensures Fits(ApplyQueue(s, q))
  {
    if q.DoMarkExpired? {
      ExpiryFits(s, q.t, q.now);
    } else {
      RowsFitStep(s, Queue(q));
      QueueFramed(s, q);
      FramedFits(s, ApplyQueue(s, q));
    }
  }

  lemma ExportsFits(s: Tables, e: ExportStatement)
    requires Fits(s) && Legal(s, Exports(e))
    ensures Fits(ApplyExports(s, e))
  {
    RowsFitStep(s, Exports(e));
    ExportsFramed(s, e);
    FramedFits(s, ApplyExports(s, e));
  }

  lemma OperationsFits(s: Tables, p: OperationStatement)
    requires Fits(s) && Legal(s, Operations(p))
    ensures Fits(ApplyOperations(s, p))
  {
    RowsFitStep(s, Operations(p));
    var s' := ApplyOperations(s, p);
    if s' != s {
      match p
      case DoPlanOperation(o, _, _, _) => UnsettledFits(s, s', o);
      case DoQueueOperation(o, t, actorId, now) => QueuedFits(s, o, t, actorId, now);
      case DoFailQueuedOperation(o, _, actorId, code, now) => SettleFits(s, o, OpFailed, code, actorId, now);
      case DoStartOperation(o) => UnsettledFits(s, s', o);
      case DoFinishOperation(o, _, _, outcome, code, now) =>
        SettleFits(s, o, outcome, code, CompletionActor(s.operations[o]), now);
    }
  }

  lemma {:induction false} FitsRun(s: Tables, cs: seq<Statement>)
    requires Fits(s) && LegalRun(s, cs)
    ensures Fits(Run(s, cs))
  {
    if cs != [] {
      FitsRun(s, cs[..|cs| - 1]);
      match cs[|cs| - 1]
      case Queue(q) => QueueFits(Run(s, cs[..|cs| - 1]), q);
      case Exports(e) => ExportsFits(Run(s, cs[..|cs| - 1]), e);
      case Operations(p) => OperationsFits(Run(s, cs[..|cs| - 1]), p);
    }
  }

  /** In every interleaving an operation has one completion audit once it is settled, and none before. */
  lemma OneCompletionPerOperation(cs: seq<Statement>, o: int)
    requires LegalRun(EMPTY, cs)
    ensures var s := Run(EMPTY, cs);
            Completions(s.audits, o) == if o in s.operations && s.operations[o].status.Settled() then 1 else 0
  {
    FitsRun(EMPTY, cs);
  }

  // ---------------------------------------------------------------- settled once

  lemma SettledByExpiry(s: Tables, t: TaskId, now: int, o: int)
    requires o in s.operations && s.operations[o].status.Settled()
    ensures o in MarkExpired(s, t, now).operations && MarkExpired(s, t, now).operations[o] == s.operations[o]
  {
    if s.RunningTask(t) {
      var marked := s.(tasks := s.tasks[t := ExpiredTask(s.tasks[t], now)]);
      assert o !in ActiveOperations(marked, t);
    }
  }

  lemma SettledByOperations(s: Tables, p: OperationStatement, o: int)
    requires o in s.operations && s.operations[o].status.Settled()
    ensures o in ApplyOperations(s, p).operations && ApplyOperations(s, p).operations[o] == s.operations[o]
  {
  }

  lemma SettledStep(s: Tables, c: Statement, o: int)
    requires o in s.operations && s.operations[o].status.Settled()
    ensures o in Apply(s, c).operations && Apply(s, c).operations[o] == s.operations[o]
  {
    match c
    case Queue(q) =>
      if q.DoMarkExpired? {
        SettledByExpiry(s, q.t, q.now, o);
      } else {
        QueueFramed(s, q);
      }
    case Exports(e) => ExportsFramed(s, e);
    case Operations(p) => SettledByOperations(s, p, o);
  }

  lemma {:induction false} SettledIsFinal(s: Tables, cs: seq<Statement>, o: int)
    requires o in s.operations && s.operations[o].status.Settled()
    ensures o in Run(s, cs).operations && Run(s, cs).operations[o] == s.operations[o]
  {
    if cs != [] {
      SettledIsFinal(s, cs[..|cs| - 1], o);
      SettledStep(Run(s, cs[..|cs| - 1]), cs[|cs| - 1], o);
    }
  }

  /** One expirer: unknown iff the operation was running and writes remotely, failed otherwise, and one audit. */
  lemma ExpirySettles(s: Tables, t: TaskId, o: int, now: int)
    requires Fits(s) && s.RunningTask(t) && s.tasks[t].family.taskType == INSTANCE_OPERATION
    requires o in s.operations && s.operations[o].taskId == t && s.operations[o].status.Active()
    ensures var s' := MarkExpired(s, t, now);
            && s'.tasks[t].status.Failed?
            && o in s'.operations && s'.operations == s.operations[o := s'.operations[o]]
            && (s'.operations[o].status.OpUnknown?
                <==> s.operations[o].status.OpRunning? && s.operations[o].writesRemote)
            && (s'.operations[o].status.OpFailed?
                <==> !(s.operations[o].status.OpRunning? && s.operations[o].writesRemote))
            && |s'.audits| == |s.audits| + 1 && s'.audits[..|s.audits|] == s.audits
            && s'.audits[|s.audits|].operation == o && s'.audits[|s.audits|].outcome == s'.operations[o].status
  {
    var marked := s.(tasks := s.tasks[t := ExpiredTask(s.tasks[t], now)]);
    forall p | p in ActiveOperations(marked, t)
      ensures p == o
    {
      assert s.operations[p].taskId == s.operations[o].taskId != "";
    }
    assert ActiveOperations(marked, t) == {o};
    assert ExpiredTask(s.tasks[t], now).status.Failed? by {
      assert INSTANCE_OPERATION[8] != USAGE_EXPORT[8] && INSTANCE_OPERATION[8] != ACCOUNT_SYNC[8];
    }
  }

  /**
   Any number of racing expirers: after the first, whatever else happens, later ones change nothing,
   the verdict of the first stands and there is exactly one completion audit.
   */
  lemma RacingExpirersSettleOnce(s: Tables, t: TaskId, o: int, first: int, cs: seq<Statement>, later: int)
    requires Fits(s) && s.RunningTask(t) && s.tasks[t].family.taskType == INSTANCE_OPERATION
    requires o in s.operations && s.operations[o].taskId == t && s.operations[o].status.Active()
    requires LegalRun(MarkExpired(s, t, first), cs)
    ensures var end := Run(MarkExpired(s, t, first), cs);
            && MarkExpired(end, t, later) == end
            && o in end.operations && end.operations[o].status == ExpiryOutcome(s.operations[o])
            && Completions(end.audits, o) == 1
  {
    var once := MarkExpired(s, t, first);
    ExpirySettles(s, t, o, first);
    ExpiryFits(s, t, first);
    SettledIsFinal(once, cs, o);
    DeadIsFinal(once, cs, t);
    FitsRun(once, cs);
  }

  /** Usage exports and account syncs go back to the queue; no operation or audit is touched. */
  lemma ExpirySendsBack(s: Tables, t: TaskId, now: int)
    requires s.RunningTask(t) && s.tasks[t].family.taskType in {USAGE_EXPORT, ACCOUNT_SYNC}
    ensures var s' := MarkExpired(s, t, now);
            && s'.tasks[t].status.Pending? && s'.tasks[t].lockedBy == ""
            && s'.operations == s.operations && s'.audits == s.audits
            && (s.tasks[t].family.taskType == USAGE_EXPORT && t in s.exports ==>
                  s'.exports[t].status.ExportPending? && s'.exports[t].progress == 0 && s'.exports[t].startedAt == 0)
            && (s.tasks[t].family.taskType == ACCOUNT_SYNC ==>
                  s'.exports == s.exports && s'.tasks[t].activeKey == s.tasks[t].activeKey)
  {
    assert USAGE_EXPORT[8] == 'u' && ACCOUNT_SYNC[8] == 'a' && INSTANCE_OPERATION[8] == 'i';
  }
}
