/**
 Every statement a runner, scanner, user or export worker can send, and runs of them. Nothing
 ties the statements of one operation together, so a run is any interleaving of any number of
 processes, each of which may be slow, stale or dead.
 */
module TaskStatements {
  import opened TaskTables
  import Text

  /** Claiming, lock upkeep and the life of a task. */
  datatype QueueStatement =
    | DoCreate(t: TaskId, origin: Origin, state: string, now: int)
    | DoInsertLock(slot: Slot, t: TaskId, r: RunnerId, now: int, until: int)
    | DoStealLock(slot: Slot, t: TaskId, r: RunnerId, now: int, until: int)
    | DoStartRun(t: TaskId, r: RunnerId, now: int)
    | DoRenewRows(scoped: bool, t: TaskId, r: RunnerId, now: int, until: int)
    | DoDropRows(scoped: bool, t: TaskId, r: RunnerId)
    | DoDropStale(slot: Slot, t: TaskId, r: RunnerId, now: int)
    | DoComplete(t: TaskId, r: RunnerId, now: int, ok: bool, result: string, error: string)
    | DoSaveState(t: TaskId, r: RunnerId, now: int, state: string)
    | DoRequeue(t: TaskId, r: RunnerId, now: int)
    | DoRetire(supported: set<string>, now: int)
    | DoMarkExpired(t: TaskId, now: int)

  datatype ExportStatement =
    | DoCreateExport(t: TaskId, rowId: int, actorId: int, instanceId: int, accounts: bool, state: string, now: int)
    | DoStartExport(t: TaskId, now: int)
    | DoReportProgress(t: TaskId, progress: int, processed: int, total: int, now: int)
    | DoFinishExport(t: TaskId, ok: bool, artifact: Artifact, code: string, expiresAt: int, now: int)
    | DoCancelExport(t: TaskId, actorId: int, root: bool, now: int)
    | DoRequeueExport(t: TaskId, r: RunnerId, now: int)
    | DoExpireExports(ids: set<TaskId>, now: int)
    | DoExpireExport(t: TaskId, now: int)
    | DoDeleteExport(t: TaskId, actorId: int, root: bool)

  datatype OperationStatement =
    | DoPlanOperation(o: int, instanceId: int, actorId: int, writesRemote: bool)
    | DoQueueOperation(o: int, t: TaskId, actorId: int, now: int)
    | DoFailQueuedOperation(o: int, t: TaskId, actorId: int, code: string, now: int)
    | DoStartOperation(o: int)
    | DoFinishOperation(o: int, t: TaskId, r: RunnerId, outcome: OperationStatus, code: string, now: int)

  datatype Statement = Queue(q: QueueStatement) | Exports(e: ExportStatement) | Operations(p: OperationStatement)

  function ApplyQueue(s: Tables, c: QueueStatement): Tables {
    match c
    case DoCreate(t, origin, state, now) => CreateTask(s, t, origin, state, now)
    case DoInsertLock(slot, t, r, now, until) => InsertLock(s, slot, t, r, now, until)
    case DoStealLock(slot, t, r, now, until) => StealLock(s, slot, t, r, now, until)
    case DoStartRun(t, r, now) => StartRun(s, t, r, now)
    case DoRenewRows(scoped, t, r, now, until) => RenewRows(s, scoped, t, r, now, until)
    case DoDropRows(scoped, t, r) => DropRows(s, scoped, t, r)
    case DoDropStale(slot, t, r, now) => DropStale(s, slot, t, r, now)
    case DoComplete(t, r, now, ok, result, error) => Completed(s, t, r, now, ok, result, error)
    case DoSaveState(t, r, now, state) => SaveState(s, t, r, now, state)
    case DoRequeue(t, r, now) => Requeue(s, t, r, now)
    case DoRetire(supported, now) => Retire(s, supported, now)
    case DoMarkExpired(t, now) => MarkExpired(s, t, now)
  }

  function ApplyExports(s: Tables, c: ExportStatement): Tables {
    match c
    case DoCreateExport(t, rowId, actorId, instanceId, accounts, state, now) =>
      CreateExport(s, t, rowId, actorId, instanceId, accounts, state, now)
    case DoStartExport(t, now) => StartExport(s, t, now)
    case DoReportProgress(t, progress, processed, total, now) => ReportProgress(s, t, progress, processed, total, now)
    case DoFinishExport(t, ok, artifact, code, expiresAt, now) => FinishExport(s, t, ok, artifact, code, expiresAt, now)
    case DoCancelExport(t, actorId, root, now) => CancelExport(s, t, actorId, root, now)
    case DoRequeueExport(t, r, now) => RequeueExport(s, t, r, now)
    case DoExpireExports(ids, now) => ExpireExports(s, ids, now)
    case DoExpireExport(t, now) => ExpireExport(s, t, now)
    case DoDeleteExport(t, actorId, root) => DeleteExport(s, t, actorId, root)
  }

  function ApplyOperations(s: Tables, c: OperationStatement): Tables {
    match c
    case DoPlanOperation(o, instanceId, actorId, writesRemote) => PlanOperation(s, o, instanceId, actorId, writesRemote)
    case DoQueueOperation(o, t, actorId, now) => QueueOperation(s, o, t, actorId, now)
    case DoFailQueuedOperation(o, t, actorId, code, now) => FailQueuedOperation(s, o, t, actorId, code, now)
    case DoStartOperation(o) => StartOperation(s, o)
    case DoFinishOperation(o, t, r, outcome, code, now) => FinishOperation(s, o, t, r, outcome, code, now)
  }

  function Apply(s: Tables, c: Statement): Tables {
    match c
    case Queue(q) => ApplyQueue(s, q)
    case Exports(e) => ApplyExports(s, e)
    case Operations(p) => ApplyOperations(s, p)
  }

  /**
   What callers guarantee about the arguments: ids are generated and never empty, scoped tasks carry
   a key, a worker reports a finished file only after its task was finished, and the
   second statement of the export expiry pass names rows that the first one read as succeeded.
   */
  predicate Legal(s: Tables, c: Statement) {
    match c
    case Queue(DoCreate(t, origin, _, _)) => t != "" && (origin.family.scope != "" ==> origin.keyed)
    case Exports(DoCreateExport(t, _, _, _, _, _, _)) => t != ""
    case Exports(DoFinishExport(t, ok, _, _, _, _)) => ok && t in s.tasks ==> !s.tasks[t].status.Active()
    case Exports(DoExpireExports(ids, _)) =>
      forall t :: t in ids && t in s.exports ==>
        s.exports[t].status.ExportSucceeded? || s.exports[t].status.ExportExpired?
    case _ => true
  }

  function Run(s: Tables, cs: seq<Statement>): Tables {
    if cs == [] then s else Apply(Run(s, cs[..|cs| - 1]), cs[|cs| - 1])
  }

  predicate LegalRun(s: Tables, cs: seq<Statement>) {
    cs == [] || (LegalRun(s, cs[..|cs| - 1]) && Legal(Run(s, cs[..|cs| - 1]), cs[|cs| - 1]))
  }

  ghost predicate IdsFit(issued: map<TaskId, Origin>) {
    "" !in issued && forall t :: t in issued && issued[t].family.scope != "" ==> issued[t].keyed
  }

  ghost predicate TasksFit(issued: map<TaskId, Origin>, tasks: map<TaskId, Task>) {
    forall t :: t in tasks ==> t in issued && tasks[t].family == issued[t].family
  }

  ghost predicate LocksFit(issued: map<TaskId, Origin>, locks: map<Slot, Lock>) {
    forall k :: k in locks ==> locks[k].taskId in issued && k.Fits(issued[locks[k].taskId].family)
  }

  ghost predicate ExportsFit(issued: map<TaskId, Origin>, exports: map<TaskId, Export>) {
    forall t :: t in exports ==> t in issued && issued[t] == ExportOrigin()
  }

  /** Rows refer to tasks that were created, under keys made from those tasks' own columns. */
  ghost predicate RowsFit(s: Tables) {
    IdsFit(s.issued) && TasksFit(s.issued, s.tasks) && LocksFit(s.issued, s.locks) && ExportsFit(s.issued, s.exports)
  }

  predicate OnLocks(q: QueueStatement) {
    q.DoInsertLock? || q.DoStealLock? || q.DoRenewRows? || q.DoDropRows? || q.DoDropStale?
  }

  lemma RowsFitLocks(s: Tables, q: QueueStatement)
    requires RowsFit(s) && OnLocks(q)
    ensures RowsFit(ApplyQueue(s, q))
  {
  }

  lemma RowsFitTasks(s: Tables, q: QueueStatement)
    requires RowsFit(s) && Legal(s, Queue(q)) && !OnLocks(q)
    ensures RowsFit(ApplyQueue(s, q))
  {
  }

  lemma RowsFitQueue(s: Tables, q: QueueStatement)
    requires RowsFit(s) && Legal(s, Queue(q))
    ensures RowsFit(ApplyQueue(s, q))
  {
    if OnLocks(q) {
      RowsFitLocks(s, q);
    } else {
      RowsFitTasks(s, q);
    }
  }

  lemma RowsFitPairs(s: Tables, e: ExportStatement)
    requires RowsFit(s) && Legal(s, Exports(e))
    requires e.DoCreateExport? || e.DoCancelExport? || e.DoRequeueExport? || e.DoDeleteExport?
    ensures RowsFit(ApplyExports(s, e))
  {
  }

  lemma RowsFitExports(s: Tables, e: ExportStatement)
    requires RowsFit(s) && Legal(s, Exports(e))
    ensures RowsFit(ApplyExports(s, e))
  {
    if e.DoCreateExport? || e.DoCancelExport? || e.DoRequeueExport? || e.DoDeleteExport? {
      RowsFitPairs(s, e);
    }
  }

  lemma RowsFitOperations(s: Tables, p: OperationStatement)
    requires RowsFit(s) && Legal(s, Operations(p))
    ensures RowsFit(ApplyOperations(s, p))
  {
    if p.DoQueueOperation? && p.o in s.operations {
      Text.DecimalShape(s.operations[p.o].instanceId);
    }
  }

  lemma RowsFitStep(s: Tables, c: Statement)
    requires RowsFit(s) && Legal(s, c)
    ensures RowsFit(Apply(s, c))
  {
    match c
    case Queue(q) => RowsFitQueue(s, q);
    case Exports(e) => RowsFitExports(s, e);
    case Operations(p) => RowsFitOperations(s, p);
  }

  lemma {:induction false} RowsFitRun(s: Tables, cs: seq<Statement>)
    requires RowsFit(s) && LegalRun(s, cs)
    ensures RowsFit(Run(s, cs))
  {
    if cs != [] {
      RowsFitRun(s, cs[..|cs| - 1]);
      RowsFitStep(Run(s, cs[..|cs| - 1]), cs[|cs| - 1]);
    }
  }

  // ---------------------------------------------------------------- finished tasks stay finished

  lemma DeadQueue(s: Tables, q: QueueStatement, t: TaskId)
    requires s.Dead(t)
    ensures ApplyQueue(s, q).Dead(t)
  {
  }

  lemma DeadOthers(s: Tables, c: Statement, t: TaskId)
    requires s.Dead(t) && !c.Queue?
    ensures Apply(s, c).Dead(t)
  {
  }

  lemma {:induction false} DeadIsFinal(s: Tables, cs: seq<Statement>, t: TaskId)
    requires s.Dead(t)
    ensures Run(s, cs).Dead(t)
  {
    if cs != [] {
      DeadIsFinal(s, cs[..|cs| - 1], t);
      if cs[|cs| - 1].Queue? {
        DeadQueue(Run(s, cs[..|cs| - 1]), cs[|cs| - 1].q, t);
      } else {
        DeadOthers(Run(s, cs[..|cs| - 1]), cs[|cs| - 1], t);
      }
    }
  }

  // ---------------------------------------------------------------- ids stay known

  ghost predicate IssuedKept(s: Tables, s': Tables) {
    forall t :: t in s.issued ==> t in s'.issued && s'.issued[t] == s.issued[t]
  }

  lemma IssuedKeptByQueue(s: Tables, q: QueueStatement)
    ensures IssuedKept(s, ApplyQueue(s, q))
  {
  }

  lemma IssuedKeptByExports(s: Tables, e: ExportStatement)
    ensures IssuedKept(s, ApplyExports(s, e))
  {
  }

  lemma IssuedKeptByOperations(s: Tables, p: OperationStatement)
    ensures IssuedKept(s, ApplyOperations(s, p))
  {
  }

  lemma {:induction false} IssuedKeptByRun(s: Tables, cs: seq<Statement>)
    ensures IssuedKept(s, Run(s, cs))
  {
    if cs != [] {
      IssuedKeptByRun(s, cs[..|cs| - 1]);
      match cs[|cs| - 1]
      case Queue(q) => IssuedKeptByQueue(Run(s, cs[..|cs| - 1]), q);
      case Exports(e) => IssuedKeptByExports(Run(s, cs[..|cs| - 1]), e);
      case Operations(p) => IssuedKeptByOperations(Run(s, cs[..|cs| - 1]), p);
    }
  }

  // ---------------------------------------------------------------- runs in two parts

  /** One more statement at the end of a run. */
  lemma RunThen(s: Tables, cs: seq<Statement>, c: Statement)
    requires LegalRun(s, cs) && Legal(Run(s, cs), c)
    ensures LegalRun(s, cs + [c]) && Run(s, cs + [c]) == Apply(Run(s, cs), c)
  {
    assert (cs + [c])[..|cs|] == cs;
  }

  lemma {:induction false} RunJoins(s: Tables, first: seq<Statement>, second: seq<Statement>)
    requires LegalRun(s, first) && LegalRun(Run(s, first), second)
    ensures LegalRun(s, first + second) && Run(s, first + second) == Run(Run(s, first), second)
  {
    if second == [] {
      assert first + second == first;
    } else {
      var rest, c := second[..|second| - 1], second[|second| - 1];
      RunJoins(s, first, rest);
      RunThen(s, first + rest, c);
      assert first + second == first + rest + [c];
    }
  }

  // ---------------------------------------------------------------- other processes

  /** The statements of other processes, less those their callers would not send in the state they meet. */
  function LegalPart(s: Tables, cs: seq<Statement>): (legal: seq<Statement>)
    ensures LegalRun(s, legal)
  {
    if cs == [] then []
    else
      var before, c := LegalPart(s, cs[..|cs| - 1]), cs[|cs| - 1];
      assert (before + [c])[..|before|] == before;
      if Legal(Run(s, before), c) then before + [c] else before
  }

  function Others(s: Tables, cs: seq<Statement>): Tables {
    Run(s, LegalPart(s, cs))
  }
}
