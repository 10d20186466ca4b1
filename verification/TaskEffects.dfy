/**
 What each statement of the queue leaves in the rows, column by column: which rows its WHERE clause
 selects, what they hold afterwards, and that everything else stays.
 */
module TaskEffects {
  import opened Options
  import opened TaskTables
  import opened TaskStatements
  import TaskFence
  import Text

  // ---------------------------------------------------------------- creation and claiming

  /** A task is created unless its id is known or its key is held: pending and under the key of its family. */
  lemma CreatesPending(s: Tables, t: TaskId, origin: Origin, state: string, now: int)
    ensures var s' := Apply(s, Queue(DoCreate(t, origin, state, now)));
            var f := origin.family;
            var key := if !origin.keyed then None
                       else Some(if f.scope == "" then f.taskType else f.taskType + ":" + f.scope);
            if t in s.issued || (key.Some? && exists u :: u in s.tasks && s.tasks[u].activeKey == key) then s' == s
            else s' == s.(issued := s.issued[t := origin],
                          tasks := s.tasks[t := Task(f, Pending, key, state, "", "", "", now)])
  {
  }

  /** A lock row is written where there is none or over one that lapsed before now; one that lasts until now stays. */
  lemma LocksFreeOrLapsed(s: Tables, slot: Slot, t: TaskId, r: RunnerId, now: int, until: int)
    requires t in s.issued && slot == s.issued[t].family.Slot()
    ensures var inserted := Apply(s, Queue(DoInsertLock(slot, t, r, now, until)));
            inserted == if slot in s.locks then s else s.(locks := s.locks[slot := Lock(t, r, until, now)])
    ensures var stolen := Apply(s, Queue(DoStealLock(slot, t, r, now, until)));
            stolen == if slot in s.locks && s.locks[slot].lockedUntil < now then
                        s.(locks := s.locks[slot := Lock(t, r, until, now)])
                      else s
  {
  }

  /** The compare-and-set takes pending tasks only, and keeps every column but status, runner and time. */
  lemma StartsPending(s: Tables, t: TaskId, r: RunnerId, now: int)
    ensures var s' := Apply(s, Queue(DoStartRun(t, r, now)));
            if t in s.tasks && s.tasks[t].status == Pending then
              var w := s.tasks[t];
              s' == s.(tasks := s.tasks[t := Task(w.family, Running, w.activeKey, w.state, w.result, w.error, r, now)])
            else s' == s
  {
  }

  // ---------------------------------------------------------------- lock rows

  /** A renewal moves the end of the pair's unlapsed rows of one table, and nothing else. */
  lemma RenewsUnlapsed(s: Tables, scoped: bool, t: TaskId, r: RunnerId, now: int, until: int)
    ensures var s' := Apply(s, Queue(DoRenewRows(scoped, t, r, now, until)));
            && s' == s.(locks := s'.locks) && s'.locks.Keys == s.locks.Keys
            && forall k :: k in s.locks ==>
                 s'.locks[k] == if k.ScopeSlot? == scoped && s.locks[k].taskId == t && s.locks[k].lockedBy == r
                                   && now <= s.locks[k].lockedUntil then Lock(t, r, until, now)
                                else s.locks[k]
  {
  }

  /** A deletion takes the pair's rows of one table, lapsed or not. */
  lemma DropsOwn(s: Tables, scoped: bool, t: TaskId, r: RunnerId)
    ensures var s' := Apply(s, Queue(DoDropRows(scoped, t, r)));
            && s' == s.(locks := s'.locks)
            && (forall k :: k in s'.locks ==> k in s.locks && s'.locks[k] == s.locks[k])
            && (forall k :: k in s.locks ==>
                  (k in s'.locks
                   <==> k.ScopeSlot? != scoped || s.locks[k].taskId != t || s.locks[k].lockedBy != r))
  {
  }

  /** The scan's deletion takes one row, if it still names the pair that was read and is still lapsed. */
  lemma DropsStale(s: Tables, slot: Slot, t: TaskId, r: RunnerId, now: int)
    ensures var s' := Apply(s, Queue(DoDropStale(slot, t, r, now)));
            s' == if slot in s.locks && s.locks[slot].taskId == t && s.locks[slot].lockedBy == r
                     && s.locks[slot].lockedUntil < now then s.(locks := s.locks - {slot})
                  else s
  {
  }

  // ---------------------------------------------------------------- the end of a run

  /** A finish stores result and error and clears the key; saving state touches nothing else. Both need the lease. */
  lemma FinishesUnderLease(s: Tables, t: TaskId, r: RunnerId, now: int, ok: bool, result: string, error: string,
                           state: string)
    ensures !LeaseHeld(s, t, r, now) ==>
              Apply(s, Queue(DoComplete(t, r, now, ok, result, error))) == s
              && Apply(s, Queue(DoSaveState(t, r, now, state))) == s
    ensures LeaseHeld(s, t, r, now) ==>
              var w := s.tasks[t];
              var ended := Task(w.family, if ok then Succeeded else Failed, None, w.state, result, error, r, now);
              var saved := Task(w.family, Running, w.activeKey, state, w.result, w.error, r, now);
              && Apply(s, Queue(DoComplete(t, r, now, ok, result, error))) == s.(tasks := s.tasks[t := ended])
              && Apply(s, Queue(DoSaveState(t, r, now, state))) == s.(tasks := s.tasks[t := saved])
  {
  }

  /** A requeue needs the lease; the task waits again under its key, without runner or error, and loses its lock row. */
  lemma RequeuesUnderLease(s: Tables, t: TaskId, r: RunnerId, now: int)
    requires RowsFit(s) && t in s.tasks
    ensures var s' := Apply(s, Queue(DoRequeue(t, r, now)));
            if t != "" && r != "" && LeaseHeld(s, t, r, now) then
              var w := s.tasks[t];
              && s' == s.(tasks := s'.tasks, locks := s'.locks)
              && s'.tasks == s.tasks[t := Task(w.family, Pending, w.activeKey, w.state, w.result, "", "", now)]
              && s'.locks == s.locks - {if w.family.scope == "" then TypeSlot(w.family.taskType)
                                        else ScopeSlot(w.family.taskType, w.family.scope)}
            else s' == s
  {
    TaskFence.FenceIsOwnRow(s, t, r, now);
    var s' := Apply(s, Queue(DoRequeue(t, r, now)));
    if t != "" && r != "" && LeaseHeld(s, t, r, now) {
      assert forall k :: k in s.locks && s.locks[k].Names(t, r) && k.ScopeSlot? == (s.tasks[t].family.scope != "") ==>
        k == s.tasks[t].family.Slot();
    }
  }

  /** Retirement fails the active tasks of types nobody supports any more and drops their locks; the others stay. */
  lemma RetiresUnsupported(s: Tables, supported: set<string>, now: int)
    ensures var s' := Apply(s, Queue(DoRetire(supported, now)));
            && s' == s.(tasks := s'.tasks, locks := s'.locks) && s'.tasks.Keys == s.tasks.Keys
            && (forall t :: t in s.tasks ==>
                  var w := s.tasks[t];
                  s'.tasks[t] == if (w.status == Pending || w.status == Running) && w.family.taskType !in supported then
                                   Task(w.family, Failed, None, w.state, w.result, "task_type_retired", "", now)
                                 else w)
            && (forall k :: k in s'.locks ==> k in s.locks && s'.locks[k] == s.locks[k])
            && (forall k :: k in s.locks ==>
                  (k !in s'.locks
                   <==> var t := s.locks[k].taskId;
                        t in s.tasks && s.tasks[t].status in {Pending, Running}
                        && s.tasks[t].family.taskType !in supported))
  {
  }

  /** An export whose lease or claim is given back waits as if it had never started. */
  predicate Waits(before: Export, after: Export, now: int) {
    after == before.(status := ExportPending, progress := 0, processed := 0, total := 0, startedAt := 0,
                     finishedAt := 0, errorCode := "", updatedAt := now)
  }

  /** Lease expiry takes running tasks only: the two kinds that can be repeated wait again, anything else has failed. */
  lemma ExpiresRunning(s: Tables, t: TaskId, now: int)
    ensures var s' := Apply(s, Queue(DoMarkExpired(t, now)));
            if t in s.tasks && s.tasks[t].status == Running then
              var w := s.tasks[t];
              && s'.issued == s.issued && s'.locks == s.locks && s'.tasks == s.tasks[t := s'.tasks[t]]
              && (w.family.taskType == "managed_usage_export" ==>
                    s'.tasks[t] == Task(w.family, Pending, None, w.state, w.result, w.error, "", now)
                    && (t in s.exports ==>
                          t in s'.exports && Waits(s.exports[t], s'.exports[t], now)
                          && s'.exports == s.exports[t := s'.exports[t]]))
              && (w.family.taskType == "managed_account_sync" ==>
                    s'.tasks[t] == Task(w.family, Pending, w.activeKey, w.state, w.result, "", "", now))
              && (w.family.taskType !in {"managed_usage_export", "managed_account_sync"} ==>
                    s'.tasks[t] == Task(w.family, Failed, None, w.state, w.result, "task lease expired", w.lockedBy,
                                        now))
            else s' == s
  {
  }

  // ---------------------------------------------------------------- exports

  /** A well-formed export is created with its task, both waiting. */
  lemma CreatesExport(s: Tables, t: TaskId, rowId: int, actorId: int, instanceId: int, accounts: bool, state: string,
                      now: int)
    ensures var s' := Apply(s, Exports(DoCreateExport(t, rowId, actorId, instanceId, accounts, state, now)));
            if actorId > 0 && (accounts || instanceId > 0) && t !in s.issued && t !in s.exports
               && forall e :: e in s.exports ==> s.exports[e].rowId != rowId then
              var f := Family("managed_usage_export", "");
              s' == s.(issued := s.issued[t := Origin(f, false)],
                       tasks := s.tasks[t := Task(f, Pending, None, state, "", "", "", now)],
                       exports := s.exports[t := Export(rowId, actorId, ExportPending, 0, 0, 0,
                                                        Artifact("", 0, 0, 0), "", 0, 0, 0, now)])
            else s' == s
  {
  }

  /** Starting takes pending exports, progress and a finish running ones; a finish reads 100 exactly on success. */
  lemma MovesExport(s: Tables, t: TaskId, progress: int, processed: int, total: int, ok: bool, artifact: Artifact,
                    code: string, expiresAt: int, now: int)
    requires t in s.exports
    ensures var e := s.exports[t];
            && Apply(s, Exports(DoStartExport(t, now)))
               == (if e.status == ExportPending then
                     s.(exports := s.exports[t := Export(e.rowId, e.actorId, ExportRunning, 0, 0, 0, e.artifact, "",
                                                         now, 0, e.expiresAt, now)])
                   else s)
            && Apply(s, Exports(DoReportProgress(t, progress, processed, total, now)))
               == (if e.status == ExportRunning then
                     s.(exports := s.exports[t := Export(e.rowId, e.actorId, ExportRunning, progress, processed, total,
                                                         e.artifact, e.errorCode, e.startedAt, e.finishedAt,
                                                         e.expiresAt, now)])
                   else s)
            && Apply(s, Exports(DoFinishExport(t, ok, artifact, code, expiresAt, now)))
               == (if e.status == ExportRunning then
                     s.(exports := s.exports[t := Export(e.rowId, e.actorId,
                                                         if ok then ExportSucceeded else ExportFailed,
                                                         if ok then 100 else 0, e.processed, e.total, artifact, code,
                                                         e.startedAt, now, expiresAt, now)])
                   else s)
  {
  }

  /** A cancel needs both rows waiting and the owner or the root user. */
  lemma CancelsWaiting(s: Tables, t: TaskId, actorId: int, root: bool, now: int)
    ensures var s' := Apply(s, Exports(DoCancelExport(t, actorId, root, now)));
            if t in s.exports && t in s.tasks && s.exports[t].status == ExportPending && s.tasks[t].status == Pending
               && (root || s.exports[t].actorId == actorId) then
              var e, w := s.exports[t], s.tasks[t];
              s' == s.(exports := s.exports[t := e.(status := ExportCancelled, finishedAt := now, updatedAt := now)],
                       tasks := s.tasks[t := Task(w.family, Cancelled, None, w.state, w.result, w.error, w.lockedBy,
                                                  now)])
            else s' == s
  {
  }

  /** A worker's requeue needs the lease; export and task wait again, and the pair's type rows are gone. */
  lemma RequeuesExportUnderLease(s: Tables, t: TaskId, r: RunnerId, now: int)
    ensures var s' := Apply(s, Exports(DoRequeueExport(t, r, now)));
            if t != "" && r != "" && LeaseHeld(s, t, r, now) then
              var w := s.tasks[t];
              && s' == s.(tasks := s'.tasks, exports := s'.exports, locks := s'.locks)
              && s'.tasks == s.tasks[t := Task(w.family, Pending, w.activeKey, w.state, w.result, w.error, "", now)]
              && (if t in s.exports then t in s'.exports && Waits(s.exports[t], s'.exports[t], now)
                                         && s'.exports == s.exports[t := s'.exports[t]]
                  else s'.exports == s.exports)
              && (forall k :: k in s'.locks ==> k in s.locks && s'.locks[k] == s.locks[k])
              && (forall k :: k in s.locks ==>
                    (k !in s'.locks <==> k.TypeSlot? && s.locks[k].taskId == t && s.locks[k].lockedBy == r))
            else s' == s
  {
  }

  /** Expiring by id changes the status of the given exports and nothing else; a single one must still be succeeded. */
  lemma ExpiresExports(s: Tables, ids: set<TaskId>, t: TaskId, now: int)
    ensures var s' := Apply(s, Exports(DoExpireExports(ids, now)));
            && s' == s.(exports := s'.exports) && s'.exports.Keys == s.exports.Keys
            && forall e :: e in s.exports ==>
                 s'.exports[e] == if e in ids then s.exports[e].(status := ExportExpired, updatedAt := now)
                                  else s.exports[e]
    ensures Apply(s, Exports(DoExpireExport(t, now)))
            == if t in s.exports && s.exports[t].status == ExportSucceeded then
                 s.(exports := s.exports[t := s.exports[t].(status := ExportExpired, updatedAt := now)])
               else s
  {
  }

  /** Deleting takes export and task together, when the export is neither pending nor running and the caller may. */
  lemma DeletesIdle(s: Tables, t: TaskId, actorId: int, root: bool)
    ensures Apply(s, Exports(DoDeleteExport(t, actorId, root)))
            == if t in s.exports && (root || s.exports[t].actorId == actorId)
                  && s.exports[t].status !in {ExportPending, ExportRunning} then
                 s.(tasks := s.tasks - {t}, exports := s.exports - {t})
               else s
  {
  }

  // ---------------------------------------------------------------- instance operations

  /** An operation is planned, queued with a task of its own under its instance, and started. */
  lemma MovesOperation(s: Tables, o: int, t: TaskId, instanceId: int, actorId: int, writesRemote: bool, now: int)
    ensures Apply(s, Operations(DoPlanOperation(o, instanceId, actorId, writesRemote)))
            == if o in s.operations then s
               else
                 var op := Operation("", OpPlanned, writesRemote, instanceId, actorId, 0, "", 0);
                 s.(operations := s.operations[o := op])
    ensures Apply(s, Operations(DoStartOperation(o)))
            == if o in s.operations && s.operations[o].status == OpQueued then
                 s.(operations := s.operations[o := s.operations[o].(status := OpRunning)])
               else s
    ensures o in s.operations && s.operations[o].status == OpPlanned && t != "" && t !in s.issued
            && s.operations[o].instanceId == instanceId ==>
              var f := Family("managed_instance_operation", Text.Decimal(instanceId));
              var key := Some("managed_instance_operation:" + Text.Decimal(instanceId));
              var s' := Apply(s, Operations(DoQueueOperation(o, t, actorId, now)));
              if exists u :: u in s.tasks && s.tasks[u].activeKey == key then s' == s
              else s' == s.(issued := s.issued[t := Origin(f, true)],
                            tasks := s.tasks[t := Task(f, Pending, key, "{}", "", "", "", now)],
                            operations := s.operations[o := s.operations[o].(taskId := t, status := OpQueued,
                                                                            executedBy := actorId)])
  {
    Text.DecimalShape(instanceId);
    assert "managed_instance_operation" + ":" + Text.Decimal(instanceId)
           == "managed_instance_operation:" + Text.Decimal(instanceId);
  }

  /** The operation ends with the given outcome and code, and one audit of it on behalf of `actor` is added. */
  predicate Ends(s: Tables, s': Tables, o: int, outcome: OperationStatus, code: string, actor: int, now: int)
    requires o in s.operations
  {
    s' == s.(operations := s.operations[o := s.operations[o].(status := outcome, errorCode := code, finishedAt := now)],
             audits := s.audits + [Audit(o, s.operations[o].instanceId, actor, outcome, code, now)])
  }

  /** Completions are recorded for whoever executed the operation, or planned it if nobody did. */
  function Completer(op: Operation): int {
    if op.executedBy != 0 then op.executedBy else op.actorId
  }

  /** A queued operation can be failed by its task, a running one ended under its task's lease. */
  lemma EndsOperation(s: Tables, o: int, t: TaskId, r: RunnerId, actorId: int, outcome: OperationStatus, code: string,
                      now: int)
    requires o in s.operations
    ensures var failed := Apply(s, Operations(DoFailQueuedOperation(o, t, actorId, code, now)));
            if s.operations[o].status == OpQueued && s.operations[o].taskId == t then
              Ends(s, failed, o, OpFailed, code, actorId, now)
            else failed == s
    ensures var ended := Apply(s, Operations(DoFinishOperation(o, t, r, outcome, code, now)));
            if s.operations[o].status == OpRunning && s.operations[o].taskId == t && t != "" && r != ""
               && LeaseHeld(s, t, r, now) && outcome in {OpSucceeded, OpFailed, OpUnknown} then
              Ends(s, ended, o, outcome, code, Completer(s.operations[o]), now)
            else ended == s
  {
  }

  /** What an expiry writes into the operation it settles and its audit. */
  lemma ExpirySettlesWith(s: Tables, t: TaskId, o: int, now: int)
    requires t in s.tasks && s.tasks[t].status == Running && s.tasks[t].family.taskType == "managed_instance_operation"
    requires o in s.operations && s.operations[o].taskId == t && s.operations[o].status in {OpQueued, OpRunning}
    requires forall p :: p in s.operations && s.operations[p].taskId == t ==> p == o
    ensures var s' := Apply(s, Queue(DoMarkExpired(t, now)));
            var op := s.operations[o];
            var unknown := op.status == OpRunning && op.writesRemote;
            Ends(s.(tasks := s'.tasks), s', o, if unknown then OpUnknown else OpFailed,
                 if unknown then "remote_result_unknown" else "task_lease_expired", Completer(op), now)
  {
    var marked := s.(tasks := s.tasks[t := ExpiredTask(s.tasks[t], now)]);
    assert forall p :: p in ActiveOperations(marked, t) <==> p == o;
    assert ActiveOperations(marked, t) == {o};
    assert "managed_instance_operation"[8] != "managed_usage_export"[8];
  }
}
