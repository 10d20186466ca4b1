/**
 The rows behind the durable task queue and the effect of every SQL statement or
 transaction on them. A statement whose WHERE clause matches nothing leaves the
 tables alone.
 */
module TaskTables {
  import opened Options
  import opened Ordering
  import Text

  type TaskId = string
  type RunnerId = string

  const USAGE_EXPORT := "managed_usage_export"
  const ACCOUNT_SYNC := "managed_account_sync"
  const INSTANCE_OPERATION := "managed_instance_operation"

  datatype TaskStatus = Pending | Running | Succeeded | Failed | Cancelled {
    predicate Active() { Pending? || Running? }
  }

  /** The immutable columns that decide which lock a task competes for. */
  datatype Family = Family(taskType: string, scope: string) {
    function Slot(): Slot {
      if scope == "" then TypeSlot(taskType) else ScopeSlot(taskType, scope)
    }
  }

  /** `keyed` tells an exclusive or scoped creation from a queued one. */
  datatype Origin = Origin(family: Family, keyed: bool) {
    function Key(): Option<string> {
      if !keyed then None
      else if family.scope == "" then Some(family.taskType)
      else Some(ScopedKey(family.taskType, family.scope))
    }
  }

  function ScopedKey(taskType: string, scope: string): string {
    taskType + ":" + scope
  }

  datatype Task = Task(family: Family, status: TaskStatus, activeKey: Option<string>, state: string,
                       result: string, error: string, lockedBy: RunnerId, updatedAt: int)

  /** A primary key of the type-lock table or of the (type, scope)-lock table. */
  datatype Slot = TypeSlot(taskType: string) | ScopeSlot(taskType: string, scope: string) {
    /** Whether a task of this family may be recorded under this key. */
    predicate Fits(family: Family) {
      && taskType == family.taskType
      && (ScopeSlot? ==> scope == family.scope && scope != "")
    }
  }

  datatype Lock = Lock(taskId: TaskId, lockedBy: RunnerId, lockedUntil: int, updatedAt: int) {
    predicate Names(t: TaskId, r: RunnerId) { taskId == t && lockedBy == r }
  }

  datatype ExportStatus = ExportPending | ExportRunning | ExportSucceeded | ExportFailed | ExportCancelled
                        | ExportExpired

  datatype Artifact = Artifact(fileName: string, fileSize: int, recordCount: int, warningCount: int)

  datatype Export = Export(rowId: int, actorId: int, status: ExportStatus, progress: int, processed: int, total: int,
                           artifact: Artifact, errorCode: string, startedAt: int, finishedAt: int, expiresAt: int,
                           updatedAt: int)
  {
    predicate Active() { status.ExportPending? || status.ExportRunning? }

    function Requeued(now: int): Export {
      this.(status := ExportPending, progress := 0, processed := 0, total := 0, startedAt := 0, finishedAt := 0,
            errorCode := "", updatedAt := now)
    }
  }

  datatype OperationStatus = OpPlanned | OpQueued | OpRunning | OpSucceeded | OpFailed | OpUnknown {
    predicate Active() { OpQueued? || OpRunning? }
    predicate Settled() { OpSucceeded? || OpFailed? || OpUnknown? }
  }

  datatype Operation = Operation(taskId: TaskId, status: OperationStatus, writesRemote: bool, instanceId: int,
                                 actorId: int, executedBy: int, errorCode: string, finishedAt: int)

  /** An "operation_complete" audit row. */
  datatype Audit = Audit(operation: int, instanceId: int, actorId: int, outcome: OperationStatus, errorCode: string,
                         createdAt: int)

  /**
   `issued` is bookkeeping of the model: it remembers every task id ever created, so that
   random ids can be taken as fresh and a deleted task keeps its family.
   */
  datatype Tables = Tables(issued: map<TaskId, Origin>, tasks: map<TaskId, Task>, locks: map<Slot, Lock>,
                           exports: map<TaskId, Export>, operations: map<int, Operation>, audits: seq<Audit>)
  {
    predicate RunningTask(t: TaskId) { t in tasks && tasks[t].status.Running? }
    predicate PendingTask(t: TaskId) { t in tasks && tasks[t].status.Pending? }

    /** A task that was finished, retired, cancelled or deleted. */
    predicate Dead(t: TaskId) { t in issued && (t in tasks ==> !tasks[t].status.Active()) }
  }

  const EMPTY := Tables(map[], map[], map[], map[], map[], [])

  // ---------------------------------------------------------------- the fence

  /** A row of the table that belongs to the task's scope names the pair and has not lapsed. */
  predicate LeaseHeld(s: Tables, t: TaskId, r: RunnerId, now: int) {
    && s.RunningTask(t)
    && s.tasks[t].lockedBy == r
    && exists k :: k in s.locks && k.ScopeSlot? == (s.tasks[t].family.scope != "") && s.locks[k].Names(t, r)
                   && s.locks[k].lockedUntil >= now
  }

  predicate RequireValidLease(s: Tables, t: TaskId, r: RunnerId, now: int) {
    t != "" && r != "" && LeaseHeld(s, t, r, now)
  }

  // ---------------------------------------------------------------- creation

  const SCOPE_LIMIT := 128

  function NormalizeScope(raw: string): string {
    var trimmed := Text.Trim(raw);
    if |trimmed| > SCOPE_LIMIT then trimmed[..SCOPE_LIMIT] else trimmed
  }

  predicate KeyTaken(s: Tables, key: Option<string>) {
    key.Some? && exists t :: t in s.tasks && s.tasks[t].activeKey == key
  }

  predicate CanCreate(s: Tables, t: TaskId, origin: Origin) {
    t !in s.issued && !KeyTaken(s, origin.Key())
  }

  function Created(s: Tables, t: TaskId, origin: Origin, state: string, now: int): Tables {
    s.(issued := s.issued[t := origin],
       tasks := s.tasks[t := Task(origin.family, Pending, origin.Key(), state, "", "", "", now)])
  }

  function CreateTask(s: Tables, t: TaskId, origin: Origin, state: string, now: int): Tables {
    if CanCreate(s, t, origin) then Created(s, t, origin, state, now) else s
  }

  // ---------------------------------------------------------------- claiming

  /** The claimer has read the task row, so the id is known and the slot is made from its columns. */
  predicate MayRecord(s: Tables, slot: Slot, t: TaskId) {
    t in s.issued && slot.Fits(s.issued[t].family)
  }

  function InsertLock(s: Tables, slot: Slot, t: TaskId, r: RunnerId, now: int, until: int): Tables {
    if MayRecord(s, slot, t) && slot !in s.locks then s.(locks := s.locks[slot := Lock(t, r, until, now)]) else s
  }

  predicate Stealable(s: Tables, slot: Slot, now: int) {
    slot in s.locks && s.locks[slot].lockedUntil < now
  }

  function StealLock(s: Tables, slot: Slot, t: TaskId, r: RunnerId, now: int, until: int): Tables {
    if MayRecord(s, slot, t) && Stealable(s, slot, now) then s.(locks := s.locks[slot := Lock(t, r, until, now)]) else s
  }

  /** The compare-and-set from pending to running. */
  function StartRun(s: Tables, t: TaskId, r: RunnerId, now: int): Tables {
    if s.PendingTask(t) then s.(tasks := s.tasks[t := s.tasks[t].(status := Running, lockedBy := r, updatedAt := now)])
    else s
  }

  // ---------------------------------------------------------------- lock rows

  predicate Renewable(k: Slot, lock: Lock, scoped: bool, t: TaskId, r: RunnerId, now: int) {
    k.ScopeSlot? == scoped && lock.Names(t, r) && lock.lockedUntil >= now
  }

  function RenewRows(s: Tables, scoped: bool, t: TaskId, r: RunnerId, now: int, until: int): Tables {
    s.(locks := map k | k in s.locks ::
         if Renewable(k, s.locks[k], scoped, t, r, now) then s.locks[k].(lockedUntil := until, updatedAt := now)
         else s.locks[k])
  }

  predicate HasRow(s: Tables, scoped: bool, t: TaskId, r: RunnerId) {
    exists k :: k in s.locks && k.ScopeSlot? == scoped && s.locks[k].Names(t, r)
  }

  function DropRows(s: Tables, scoped: bool, t: TaskId, r: RunnerId): Tables {
    s.(locks := map k | k in s.locks && !(k.ScopeSlot? == scoped && s.locks[k].Names(t, r)) :: s.locks[k])
  }

  /** Type rows first; scope rows only when no type row was deleted. */
  function Release(s: Tables, t: TaskId, r: RunnerId): Tables {
    if HasRow(s, false, t, r) then DropRows(s, false, t, r) else DropRows(s, true, t, r)
  }

  function DropStale(s: Tables, slot: Slot, t: TaskId, r: RunnerId, now: int): Tables {
    if slot in s.locks && s.locks[slot].Names(t, r) && s.locks[slot].lockedUntil < now then
      s.(locks := s.locks - {slot})
    else s
  }

  // ---------------------------------------------------------------- the end of a run

  function Completed(s: Tables, t: TaskId, r: RunnerId, now: int, ok: bool, result: string, error: string): Tables {
    if LeaseHeld(s, t, r, now) then
      s.(tasks := s.tasks[t := s.tasks[t].(status := if ok then Succeeded else Failed, activeKey := None,
                                           result := result, error := error, updatedAt := now)])
    else s
  }

  function SaveState(s: Tables, t: TaskId, r: RunnerId, now: int, state: string): Tables {
    if LeaseHeld(s, t, r, now) then s.(tasks := s.tasks[t := s.tasks[t].(state := state, updatedAt := now)]) else s
  }

  function Requeue(s: Tables, t: TaskId, r: RunnerId, now: int): Tables {
    if RequireValidLease(s, t, r, now) then
      DropRows(s.(tasks := s.tasks[t := s.tasks[t].(status := Pending, lockedBy := "", error := "", updatedAt := now)]),
               s.tasks[t].family.scope != "", t, r)
    else s
  }

  predicate Unsupported(task: Task, supported: set<string>) {
    task.status.Active() && task.family.taskType !in supported
  }

  function Retire(s: Tables, supported: set<string>, now: int): Tables {
    s.(tasks := map t | t in s.tasks ::
         if Unsupported(s.tasks[t], supported) then
           s.tasks[t].(status := Failed, activeKey := None, lockedBy := "", error := "task_type_retired",
                       updatedAt := now)
         else s.tasks[t],
       locks := map k | k in s.locks
                        && !(s.locks[k].taskId in s.tasks && Unsupported(s.tasks[s.locks[k].taskId], supported))
         :: s.locks[k])
  }

  // ---------------------------------------------------------------- lease expiry

  function ActiveOperations(s: Tables, t: TaskId): set<int> {
    set o | o in s.operations && s.operations[o].taskId == t && s.operations[o].status.Active()
  }

  function ExpiryOutcome(op: Operation): OperationStatus {
    if op.status.OpRunning? && op.writesRemote then OpUnknown else OpFailed
  }

  function ExpiryCode(op: Operation): string {
    if op.status.OpRunning? && op.writesRemote then "remote_result_unknown" else "task_lease_expired"
  }

  function Settle(s: Tables, o: int, outcome: OperationStatus, code: string, actor: int, now: int): Tables
    requires o in s.operations
  {
    s.(operations := s.operations[o := s.operations[o].(status := outcome, errorCode := code, finishedAt := now)],
       audits := s.audits + [Audit(o, s.operations[o].instanceId, actor, outcome, code, now)])
  }

  function CompletionActor(op: Operation): int {
    if op.executedBy == 0 then op.actorId else op.executedBy
  }

  function SettleExpired(s: Tables, t: TaskId, now: int): (r: Tables)
    ensures r == s.(operations := r.operations, audits := r.audits)
  {
    var active := ActiveOperations(s, t);
    if active == {} then s
    else
      var o := Least(active);
      Settle(s, o, ExpiryOutcome(s.operations[o]), ExpiryCode(s.operations[o]), CompletionActor(s.operations[o]), now)
  }

  /** What lease expiry makes of a running task: exports and account syncs wait again, anything else has failed. */
  function ExpiredTask(task: Task, now: int): Task {
    if task.family.taskType == USAGE_EXPORT then
      task.(status := Pending, lockedBy := "", activeKey := None, updatedAt := now)
    else if task.family.taskType == ACCOUNT_SYNC then
      task.(status := Pending, lockedBy := "", error := "", updatedAt := now)
    else task.(status := Failed, activeKey := None, error := "task lease expired", updatedAt := now)
  }

  predicate ExpiresExport(s: Tables, t: TaskId) {
    s.RunningTask(t) && s.tasks[t].family.taskType == USAGE_EXPORT && t in s.exports
  }

  function MarkExpired(s: Tables, t: TaskId, now: int): (r: Tables)
    ensures r.issued == s.issued && r.locks == s.locks
    ensures r.exports == if ExpiresExport(s, t) then s.exports[t := s.exports[t].Requeued(now)] else s.exports
    ensures r.tasks == if s.RunningTask(t) then s.tasks[t := ExpiredTask(s.tasks[t], now)] else s.tasks
  {
    if !s.RunningTask(t) then s
    else
      var marked := s.(tasks := s.tasks[t := ExpiredTask(s.tasks[t], now)]);
      if s.tasks[t].family.taskType == USAGE_EXPORT then
        if t in s.exports then marked.(exports := s.exports[t := s.exports[t].Requeued(now)]) else marked
      else if s.tasks[t].family.taskType == INSTANCE_OPERATION then SettleExpired(marked, t, now)
      else marked
  }

  // ---------------------------------------------------------------- exports

  predicate ValidExport(actorId: int, instanceId: int, accounts: bool) {
    actorId > 0 && (accounts || instanceId > 0)
  }

  function ExportOrigin(): Origin { Origin(Family(USAGE_EXPORT, ""), false) }

  predicate CanCreateExport(s: Tables, t: TaskId, rowId: int, actorId: int, instanceId: int, accounts: bool) {
    && ValidExport(actorId, instanceId, accounts)
    && CanCreate(s, t, ExportOrigin())
    && t !in s.exports
    && forall e :: e in s.exports ==> s.exports[e].rowId != rowId
  }

  function CreateExport(s: Tables, t: TaskId, rowId: int, actorId: int, instanceId: int, accounts: bool, state: string,
                        now: int): Tables {
    if CanCreateExport(s, t, rowId, actorId, instanceId, accounts) then
      Created(s, t, ExportOrigin(), state, now).(
        exports := s.exports[t := Export(rowId, actorId, ExportPending, 0, 0, 0, Artifact("", 0, 0, 0), "", 0, 0, 0,
                                         now)])
    else s
  }

  function StartExport(s: Tables, t: TaskId, now: int): Tables {
    if t in s.exports && s.exports[t].status.ExportPending? then
      s.(exports := s.exports[t := s.exports[t].(status := ExportRunning, progress := 0, processed := 0, total := 0,
                                                 errorCode := "", startedAt := now, finishedAt := 0, updatedAt := now)])
    else s
  }

  function ReportProgress(s: Tables, t: TaskId, progress: int, processed: int, total: int, now: int): Tables {
    if t in s.exports && s.exports[t].status.ExportRunning? then
      s.(exports := s.exports[t := s.exports[t].(progress := progress, processed := processed, total := total,
                                                 updatedAt := now)])
    else s
  }

  function FinishExport(s: Tables, t: TaskId, ok: bool, artifact: Artifact, code: string, expiresAt: int,
                        now: int): Tables {
    if t in s.exports && s.exports[t].status.ExportRunning? then
      s.(exports := s.exports[t := s.exports[t].(status := if ok then ExportSucceeded else ExportFailed,
                                                 progress := if ok then 100 else 0, artifact := artifact,
                                                 errorCode := code, finishedAt := now, expiresAt := expiresAt,
                                                 updatedAt := now)])
    else s
  }

  predicate CanCancel(s: Tables, t: TaskId, actorId: int, root: bool) {
    && t in s.exports && s.exports[t].status.ExportPending? && (root || s.exports[t].actorId == actorId)
    && s.PendingTask(t)
  }

  /** Both updates commit together; either one matching no row rolls the transaction back. */
  function CancelExport(s: Tables, t: TaskId, actorId: int, root: bool, now: int): Tables {
    if CanCancel(s, t, actorId, root) then
      s.(exports := s.exports[t := s.exports[t].(status := ExportCancelled, finishedAt := now, updatedAt := now)],
         tasks := s.tasks[t := s.tasks[t].(status := Cancelled, activeKey := None, updatedAt := now)])
    else s
  }

  function RequeueExport(s: Tables, t: TaskId, r: RunnerId, now: int): Tables {
    if RequireValidLease(s, t, r, now) then
      DropRows(s.(tasks := s.tasks[t := s.tasks[t].(status := Pending, lockedBy := "", updatedAt := now)],
                  exports := if t in s.exports then s.exports[t := s.exports[t].Requeued(now)] else s.exports),
               false, t, r)
    else s
  }

  predicate Expirable(e: Export, now: int) {
    e.status.ExportSucceeded? && 0 < e.expiresAt <= now
  }

  function ExpirableExports(s: Tables, now: int): set<TaskId> {
    set t | t in s.exports && Expirable(s.exports[t], now)
  }

  /** The second statement of the expiry pass: an update by id, whatever the status is by then. */
  function ExpireExports(s: Tables, ids: set<TaskId>, now: int): Tables {
    s.(exports := map t | t in s.exports ::
         if t in ids then s.exports[t].(status := ExportExpired, updatedAt := now) else s.exports[t])
  }

  function ExpireExport(s: Tables, t: TaskId, now: int): Tables {
    if t in s.exports && s.exports[t].status.ExportSucceeded? then
      s.(exports := s.exports[t := s.exports[t].(status := ExportExpired, updatedAt := now)])
    else s
  }

  predicate CanDelete(s: Tables, t: TaskId, actorId: int, root: bool) {
    t in s.exports && (root || s.exports[t].actorId == actorId) && !s.exports[t].Active()
  }

  function DeleteExport(s: Tables, t: TaskId, actorId: int, root: bool): Tables {
    if CanDelete(s, t, actorId, root) then s.(tasks := s.tasks - {t}, exports := s.exports - {t}) else s
  }

  // ---------------------------------------------------------------- instance operations

  function PlanOperation(s: Tables, o: int, instanceId: int, actorId: int, writesRemote: bool): Tables {
    if o !in s.operations then
      s.(operations := s.operations[o := Operation("", OpPlanned, writesRemote, instanceId, actorId, 0, "", 0)])
    else s
  }

  function OperationOrigin(instanceId: int): Origin {
    Origin(Family(INSTANCE_OPERATION, Text.Decimal(instanceId)), true)
  }

  function QueueOperation(s: Tables, o: int, t: TaskId, actorId: int, now: int): Tables {
    if o in s.operations && s.operations[o].status.OpPlanned? && t != ""
       && CanCreate(s, t, OperationOrigin(s.operations[o].instanceId)) then
      Created(s, t, OperationOrigin(s.operations[o].instanceId), "{}", now).(
        operations := s.operations[o := s.operations[o].(taskId := t, status := OpQueued, executedBy := actorId)])
    else s
  }

  function FailQueuedOperation(s: Tables, o: int, t: TaskId, actorId: int, code: string, now: int): Tables {
    if o in s.operations && s.operations[o].taskId == t && s.operations[o].status.OpQueued? then
      Settle(s, o, OpFailed, code, actorId, now)
    else s
  }

  function StartOperation(s: Tables, o: int): Tables {
    if o in s.operations && s.operations[o].status.OpQueued? then
      s.(operations := s.operations[o := s.operations[o].(status := OpRunning)])
    else s
  }

  function FinishOperation(s: Tables, o: int, t: TaskId, r: RunnerId, outcome: OperationStatus, code: string,
                           now: int): Tables {
    if RequireValidLease(s, t, r, now) && outcome.Settled() && o in s.operations && s.operations[o].taskId == t
       && s.operations[o].status.OpRunning? then
      Settle(s, o, outcome, code, CompletionActor(s.operations[o]), now)
    else s
  }
}
