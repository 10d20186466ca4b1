/** The task store as the runner uses it: rows updated in place, one method per exported operation. */
module TaskStore {
  import opened Options
  import opened TaskTables
  import opened TaskStatements
  import opened TaskFence
  import opened ClaimMachine
  import ExportCancellation

  /**
   What other processes do between the statements of a claim, once it has read its task: before it inserts the lock,
   before it looks the lock up, before it steals it, before it marks the previous task at time `markedAt`, before its
   compare-and-set, and before its release.
   */
  datatype Gaps = Gaps(insert: seq<Statement>, look: seq<Statement>, steal: seq<Statement>, mark: seq<Statement>,
                       markedAt: int, start: seq<Statement>, release: seq<Statement>)

  function Quiet(now: int): Gaps { Gaps([], [], [], [], now, [], []) }

  /** An insert, or on a duplicate key a look-up and a conditional update. */
  function AcquiredLock(s: Tables, slot: Slot, t: TaskId, r: RunnerId, now: int, until: int, gaps: Gaps)
    : (Tables, bool, Option<TaskId>)
  {
    if slot !in s.locks then (InsertLock(s, slot, t, r, now, until), true, None)
    else
      var looked := Others(s, gaps.look);
      if !Stealable(looked, slot, now) then (looked, false, None)
      else
        var met := Others(looked, gaps.steal);
        if !Stealable(met, slot, now) then (met, false, None)
        else (StealLock(met, slot, t, r, now, until), true, Some(looked.locks[slot].taskId))
  }

  /** Left alone, the lock is taken exactly when its row is absent or lapsed before now; the old row's task is told. */
  lemma QuietLock(s: Tables, slot: Slot, t: TaskId, r: RunnerId, now: int, until: int)
    requires MayRecord(s, slot, t)
    ensures AcquiredLock(s, slot, t, r, now, until, Quiet(now))
            == if slot in s.locks && s.locks[slot].lockedUntil >= now then (s, false, None)
               else (s.(locks := s.locks[slot := Lock(t, r, until, now)]), true,
                     if slot in s.locks then Some(s.locks[slot].taskId) else None)
  {
    assert forall x :: Others(x, []) == x;
  }

  /** The whole claim among other processes. */
  function Claimed(s: Tables, t: TaskId, r: RunnerId, now: int, until: int, gaps: Gaps): (Tables, bool) {
    if !s.PendingTask(t) then (s, false)
    else
      var (locked, acquired, expired) :=
        AcquiredLock(Others(s, gaps.insert), s.tasks[t].family.Slot(), t, r, now, until, gaps);
      if acquired then Decided(locked, t, r, now, expired, gaps) else (locked, false)
  }

  /** The rest of a claim, once its lock is taken. */
  function Decided(locked: Tables, t: TaskId, r: RunnerId, now: int, expired: Option<TaskId>, gaps: Gaps)
    : (Tables, bool)
  {
    var met := Others(locked, gaps.mark);
    var marked := if expired.Some? && expired.value != t then MarkExpired(met, expired.value, gaps.markedAt) else met;
    var found := Others(marked, gaps.start);
    if found.PendingTask(t) then (StartRun(found, t, r, now), true)
    else (Release(Others(found, gaps.release), t, r), false)
  }

  /** The lock is taken and the task it was stolen from is expired; the compare-and-set is next. */
  function Prepared(s: Tables, t: TaskId, r: RunnerId, now: int, until: int): Tables
    requires t in s.tasks
  {
    var slot := s.tasks[t].family.Slot();
    var locked := s.(locks := s.locks[slot := Lock(t, r, until, now)]);
    if slot in s.locks && s.locks[slot].taskId != t then MarkExpired(locked, s.locks[slot].taskId, now) else locked
  }

  /** Left alone a claim succeeds exactly when the task is pending and its lock is free or lapsed. */
  lemma QuietClaim(s: Tables, t: TaskId, r: RunnerId, now: int, until: int)
    requires s.PendingTask(t) && MayRecord(s, s.tasks[t].family.Slot(), t)
    ensures Claimed(s, t, r, now, until, Quiet(now))
            == if s.tasks[t].family.Slot() in s.locks && !Stealable(s, s.tasks[t].family.Slot(), now) then (s, false)
               else (StartRun(Prepared(s, t, r, now, until), t, r, now), true)
  {
    assert forall x :: Others(x, []) == x;
  }

  // ---------------------------------------------------------------- a claim that fails

  /** No lock row names the pair. */
  predicate NoRow(locks: map<Slot, Lock>, t: TaskId, r: RunnerId) {
    forall k :: k in locks ==> !locks[k].Names(t, r)
  }

  /** Nobody else claims the task for this runner. */
  predicate Unclaimed(gaps: Gaps, t: TaskId, r: RunnerId) {
    && NoClaims(gaps.insert, t, r) && NoClaims(gaps.look, t, r) && NoClaims(gaps.steal, t, r)
    && NoClaims(gaps.mark, t, r) && NoClaims(gaps.start, t, r) && NoClaims(gaps.release, t, r)
  }

  /** At most the row under one key names the pair. */
  predicate OnlyRow(locks: map<Slot, Lock>, slot: Slot, t: TaskId, r: RunnerId) {
    forall k :: k in locks && locks[k].Names(t, r) ==> k == slot
  }

  /** Every row of the pair was one before. */
  predicate NoNewRow(locks: map<Slot, Lock>, locks': map<Slot, Lock>, t: TaskId, r: RunnerId) {
    forall k :: k in locks' && locks'[k].Names(t, r) ==> k in locks && locks[k].Names(t, r)
  }

  lemma QueueAddsNoRow(s: Tables, q: QueueStatement, t: TaskId, r: RunnerId)
    requires !Claims(Queue(q), t, r)
    ensures NoNewRow(s.locks, ApplyQueue(s, q).locks, t, r)
  {
  }

  lemma ExportsAddNoRow(s: Tables, e: ExportStatement, t: TaskId, r: RunnerId)
    ensures NoNewRow(s.locks, ApplyExports(s, e).locks, t, r)
  {
  }

  lemma OperationsAddNoRow(s: Tables, p: OperationStatement, t: TaskId, r: RunnerId)
    ensures NoNewRow(s.locks, ApplyOperations(s, p).locks, t, r)
  {
  }

  lemma AddsNoRow(s: Tables, c: Statement, t: TaskId, r: RunnerId)
    requires !Claims(c, t, r)
    ensures NoNewRow(s.locks, Apply(s, c).locks, t, r)
  {
    match c
    case Queue(q) => QueueAddsNoRow(s, q, t, r);
    case Exports(e) => ExportsAddNoRow(s, e, t, r);
    case Operations(p) => OperationsAddNoRow(s, p, t, r);
  }

  lemma {:induction false} OthersAddNoRow(s: Tables, cs: seq<Statement>, slot: Slot, t: TaskId, r: RunnerId)
    requires NoClaims(cs, t, r)
    ensures NoRow(s.locks, t, r) ==> NoRow(Others(s, cs).locks, t, r)
    ensures OnlyRow(s.locks, slot, t, r) ==> OnlyRow(Others(s, cs).locks, slot, t, r)
  {
    if cs != [] {
      var before, c := cs[..|cs| - 1], cs[|cs| - 1];
      OthersAddNoRow(s, before, slot, t, r);
      if Legal(Others(s, before), c) {
        RunThen(s, LegalPart(s, before), c);
        AddsNoRow(Others(s, before), c, t, r);
      }
    }
  }

  /** A claim that does not succeed leaves no lock behind: whatever it had taken it gives back. */
  lemma FailedClaimLeavesNoLock(s: Tables, t: TaskId, r: RunnerId, now: int, until: int, gaps: Gaps)
    requires NoRow(s.locks, t, r) && Unclaimed(gaps, t, r) && !Claimed(s, t, r, now, until, gaps).1
    ensures NoRow(Claimed(s, t, r, now, until, gaps).0.locks, t, r)
  {
    if s.PendingTask(t) {
      var slot, ready := s.tasks[t].family.Slot(), Others(s, gaps.insert);
      OthersAddNoRow(s, gaps.insert, slot, t, r);
      var (locked, acquired, expired) := AcquiredLock(ready, slot, t, r, now, until, gaps);
      OthersAddNoRow(ready, gaps.look, slot, t, r);
      OthersAddNoRow(Others(ready, gaps.look), gaps.steal, slot, t, r);
      if acquired {
        assert OnlyRow(locked.locks, slot, t, r);
        var met := Others(locked, gaps.mark);
        OthersAddNoRow(locked, gaps.mark, slot, t, r);
        var marked := if expired.Some? && expired.value != t then MarkExpired(met, expired.value, gaps.markedAt)
                      else met;
        OthersAddNoRow(marked, gaps.start, slot, t, r);
        OthersAddNoRow(Others(marked, gaps.start), gaps.release, slot, t, r);
        ReleasesOnlyRow(Others(Others(marked, gaps.start), gaps.release), slot, t, r);
      }
    }
  }

  lemma ReleasesOnlyRow(s: Tables, slot: Slot, t: TaskId, r: RunnerId)
    requires OnlyRow(s.locks, slot, t, r)
    ensures NoRow(Release(s, t, r).locks, t, r)
  {
  }

  /** One pass over the stale rows of a scan, in the order they were read. */
  function Scanned(s: Tables, rows: seq<(Slot, Lock)>, now: int): Tables {
    if rows == [] then s
    else
      var (k, lock) := rows[|rows| - 1];
      DropStale(MarkExpired(Scanned(s, rows[..|rows| - 1], now), lock.taskId, now), k, lock.taskId, lock.lockedBy, now)
  }

  predicate StaleRow(s: Tables, k: Slot, now: int) {
    k in s.locks && s.locks[k].lockedUntil < now
  }

  /** `rows` lists the stale rows of one table, each once. */
  ghost predicate ListsStaleRows(s: Tables, scoped: bool, rows: seq<(Slot, Lock)>, now: int) {
    && (forall i :: 0 <= i < |rows| ==>
          StaleRow(s, rows[i].0, now) && rows[i].0.ScopeSlot? == scoped && rows[i].1 == s.locks[rows[i].0])
    && (forall i, j :: 0 <= i < j < |rows| ==> rows[i].0 != rows[j].0)
    && (forall k :: StaleRow(s, k, now) && k.ScopeSlot? == scoped ==> exists i :: 0 <= i < |rows| && rows[i].0 == k)
  }

  function UnsupportedIds(s: Tables, supported: set<string>): set<TaskId> {
    set t | t in s.tasks && Unsupported(s.tasks[t], supported)
  }

  function FailedTasks(tasks: map<TaskId, Task>, ids: set<TaskId>, now: int): map<TaskId, Task> {
    map t | t in tasks ::
      if t in ids then tasks[t].(status := Failed, activeKey := None, lockedBy := "", error := "task_type_retired",
                                  updatedAt := now)
      else tasks[t]
  }

  lemma RetireById(s: Tables, supported: set<string>, now: int)
    ensures var ids := UnsupportedIds(s, supported);
            Retire(s, supported, now) == s.(tasks := FailedTasks(s.tasks, ids, now),
                                            locks := map k | k in s.locks && s.locks[k].taskId !in ids :: s.locks[k])
  {
  }

  class Store {
    var issued: map<TaskId, Origin>
    var tasks: map<TaskId, Task>
    var locks: map<Slot, Lock>
    var exports: map<TaskId, Export>
    var operations: map<int, Operation>
    var audits: seq<Audit>

    function Rows(): Tables
      reads this
    {
      Tables(issued, tasks, locks, exports, operations, audits)
    }

    ghost predicate Valid()
      reads this
    {
      RowsFit(Rows())
    }

    constructor ()
      ensures Valid() && Rows() == EMPTY
    {
      issued, tasks, locks, exports, operations, audits := map[], map[], map[], map[], map[], [];
    }

    /** Whatever another process sends. */
    method Execute(c: Statement)
      requires Valid() && Legal(Rows(), c)
      modifies this
      ensures Valid() && Rows() == Apply(old(Rows()), c)
    {
      RowsFitStep(Rows(), c);
      var after := Apply(Rows(), c);
      issued, tasks, locks := after.issued, after.tasks, after.locks;
      exports, operations, audits := after.exports, after.operations, after.audits;
    }

    method ExecuteAll(cs: seq<Statement>)
      requires Valid() && LegalRun(Rows(), cs)
      modifies this
      ensures Valid() && Rows() == Run(old(Rows()), cs)
    {
      ghost var start := Rows();
      var i := 0;
      while i < |cs|
        invariant 0 <= i <= |cs| && Valid() && Rows() == Run(start, cs[..i])
        invariant LegalRun(start, cs)
      {
        LegalPrefix(start, cs, i + 1);
        assert cs[..i + 1][..i] == cs[..i];
        Execute(cs[i]);
        i := i + 1;
      }
      assert cs[..|cs|] == cs;
    }

    /** Whatever other processes send; statements that their callers would not send are skipped. */
    method Interfere(cs: seq<Statement>)
      requires Valid()
      modifies this
      ensures Valid() && Rows() == Others(old(Rows()), cs) && IssuedKept(old(Rows()), Rows())
    {
      IssuedKeptByRun(Rows(), LegalPart(Rows(), cs));
      ExecuteAll(LegalPart(Rows(), cs));
    }

    // -------------------------------------------------------------- creation

    method InsertTask(t: TaskId, origin: Origin, state: string, now: int) returns (ok: bool)
      requires Valid() && t != "" && (origin.family.scope != "" ==> origin.keyed)
      modifies this
      ensures Valid() && Rows() == ApplyQueue(old(Rows()), DoCreate(t, origin, state, now))
      ensures ok <==> t !in old(issued) && !KeyTaken(old(Rows()), origin.Key())
      ensures ok ==> tasks == old(tasks)[t := Task(origin.family, Pending, origin.Key(), state, "", "", "", now)]
    {
      RowsFitStep(Rows(), Queue(DoCreate(t, origin, state, now)));
      if t in issued || KeyTaken(Rows(), origin.Key()) {
        return false;
      }
      issued := issued[t := origin];
      tasks := tasks[t := Task(origin.family, Pending, origin.Key(), state, "", "", "", now)];
      return true;
    }

    method CreateSystemTask(t: TaskId, taskType: string, exclusive: bool, state: string, now: int) returns (ok: bool)
      requires Valid() && t != ""
      modifies this
      ensures Valid() && Rows() == CreateTask(old(Rows()), t, Origin(Family(taskType, ""), exclusive), state, now)
      ensures ok ==> t in tasks && tasks[t].activeKey == if exclusive then Some(taskType) else None
    {
      ok := InsertTask(t, Origin(Family(taskType, ""), exclusive), state, now);
    }

    /** A scope that is blank after normalisation is refused before anything is written. */
    method CreateScopedSystemTask(t: TaskId, taskType: string, rawScope: string, state: string, now: int)
      returns (ok: bool)
      requires Valid() && t != ""
      modifies this
      ensures Valid()
      ensures var scope := NormalizeScope(rawScope);
              if scope == "" then !ok && Rows() == old(Rows())
              else Rows() == CreateTask(old(Rows()), t, Origin(Family(taskType, scope), true), state, now)
                   && (ok ==> t in tasks && tasks[t].activeKey == Some(taskType + ":" + scope))
    {
      var scope := NormalizeScope(rawScope);
      if scope == "" {
        return false;
      }
      ok := InsertTask(t, Origin(Family(taskType, scope), true), state, now);
    }

    // -------------------------------------------------------------- claiming

    /** Insert, or on a duplicate key look the row up and steal it if it has lapsed; others may run in between. */
    method AcquireLock(slot: Slot, t: TaskId, r: RunnerId, now: int, until: int, gaps: Gaps)
      returns (acquired: bool, expired: Option<TaskId>)
      requires Valid() && MayRecord(Rows(), slot, t)
      modifies this
      ensures Valid() && (Rows(), acquired, expired) == AcquiredLock(old(Rows()), slot, t, r, now, until, gaps)
      ensures acquired ==> slot in locks && locks[slot] == Lock(t, r, until, now)
      ensures IssuedKept(old(Rows()), Rows())
    {
      if slot !in locks {
        RowsFitStep(Rows(), Queue(DoInsertLock(slot, t, r, now, until)));
        locks := locks[slot := Lock(t, r, until, now)];
        return true, None;
      }
      Interfere(gaps.look);
      if slot !in locks || locks[slot].lockedUntil >= now {
        return false, None;
      }
      var existing := locks[slot];
      Interfere(gaps.steal);
      if slot !in locks || locks[slot].lockedUntil >= now {
        return false, None;
      }
      RowsFitStep(Rows(), Queue(DoStealLock(slot, t, r, now, until)));
      locks := locks[slot := Lock(t, r, until, now)];
      return true, Some(existing.taskId);
    }

    /** A claim by the dispatcher among other processes. */
    method Claim(t: TaskId, r: RunnerId, now: int, until: int, gaps: Gaps) returns (claimed: bool)
      requires Valid()
      modifies this
      ensures Valid() && (Rows(), claimed) == Claimed(old(Rows()), t, r, now, until, gaps)
      ensures claimed ==> Rows().RunningTask(t) && tasks[t].lockedBy == r
      ensures claimed && gaps.mark == gaps.start == [] ==> Held(Rows(), t, r)
    {
      if t !in tasks || !tasks[t].status.Pending? {
        return false;
      }
      var slot := tasks[t].family.Slot();
      Interfere(gaps.insert);
      var acquired, expired := AcquireLock(slot, t, r, now, until, gaps);
      if !acquired {
        return false;
      }
      claimed := Decide(t, r, now, expired, gaps);
    }

    /** With its lock taken, a claim expires the task it took it from, and starts its own or gives the lock back. */
    method Decide(t: TaskId, r: RunnerId, now: int, expired: Option<TaskId>, gaps: Gaps) returns (claimed: bool)
      requires Valid()
      modifies this
      ensures Valid() && (Rows(), claimed) == Decided(old(Rows()), t, r, now, expired, gaps)
      ensures claimed ==> Rows().RunningTask(t) && tasks[t].lockedBy == r
      ensures claimed && gaps.mark == gaps.start == [] ==> locks == old(locks)
    {
      Interfere(gaps.mark);
      if expired.Some? && expired.value != t {
        MarkSystemTaskLeaseExpired(expired.value, gaps.markedAt);
      }
      Interfere(gaps.start);
      claimed := StartOrRelease(t, r, now, gaps.release);
    }

    /** The compare-and-set at the end of a claim; when it matches nothing, the lock is given back. */
    method StartOrRelease(t: TaskId, r: RunnerId, now: int, meanwhile: seq<Statement>) returns (started: bool)
      requires Valid()
      modifies this
      ensures Valid() && started == old(Rows()).PendingTask(t)
      ensures Rows() == if started then StartRun(old(Rows()), t, r, now)
              else Release(Others(old(Rows()), meanwhile), t, r)
    {
      if t !in tasks || !tasks[t].status.Pending? {
        Interfere(meanwhile);
        ReleaseSystemTaskLock(t, r);
        return false;
      }
      RowsFitStep(Rows(), Queue(DoStartRun(t, r, now)));
      tasks := tasks[t := tasks[t].(status := Running, lockedBy := r, updatedAt := now)];
      return true;
    }

    method RenewSystemTaskLock(t: TaskId, r: RunnerId, now: int, until: int) returns (ok: bool)
      requires Valid()
      modifies this`locks
      ensures Valid()
      ensures ok <==> exists k :: k in old(locks) && old(locks)[k].Names(t, r) && old(locks)[k].lockedUntil >= now
      ensures !ok ==> locks == old(locks)
      ensures ok ==> exists scoped :: Rows() == ApplyQueue(old(Rows()), DoRenewRows(scoped, t, r, now, until))
                                      && exists k :: k in locks && k.ScopeSlot? == scoped && locks[k].Names(t, r)
                                                     && locks[k].lockedUntil == until
    {
      if k :| k in locks && Renewable(k, locks[k], false, t, r, now) {
        RowsFitStep(Rows(), Queue(DoRenewRows(false, t, r, now, until)));
        locks := RenewRows(Rows(), false, t, r, now, until).locks;
        assert locks[k].lockedUntil == until;
        return true;
      }
      if k :| k in locks && Renewable(k, locks[k], true, t, r, now) {
        RowsFitStep(Rows(), Queue(DoRenewRows(true, t, r, now, until)));
        locks := RenewRows(Rows(), true, t, r, now, until).locks;
        assert locks[k].lockedUntil == until;
        return true;
      }
      return false;
    }

    /** Deletes the pair's rows of one table and says whether there were any. */
    method DeleteRows(scoped: bool, t: TaskId, r: RunnerId) returns (found: bool)
      requires Valid()
      modifies this`locks
      ensures Valid()
      ensures locks
              == map k | k in old(locks) && !(k.ScopeSlot? == scoped && old(locks)[k].Names(t, r)) :: old(locks)[k]
      ensures found <==> exists k :: k in old(locks) && k.ScopeSlot? == scoped && old(locks)[k].Names(t, r)
      ensures !found ==> Rows() == old(Rows())
    {
      found := HasRow(Rows(), scoped, t, r);
      locks := map k | k in locks && !(k.ScopeSlot? == scoped && locks[k].Names(t, r)) :: locks[k];
    }

    method ReleaseSystemTaskLock(t: TaskId, r: RunnerId)
      requires Valid()
      modifies this`locks
      ensures Valid() && Rows() == Release(old(Rows()), t, r)
      ensures locks == if exists k :: k in old(locks) && k.TypeSlot? && old(locks)[k].Names(t, r) then
                         map k | k in old(locks) && !(k.TypeSlot? && old(locks)[k].Names(t, r)) :: old(locks)[k]
                       else map k | k in old(locks) && !old(locks)[k].Names(t, r) :: old(locks)[k]
    {
      var found := DeleteRows(false, t, r);
      if !found {
        found := DeleteRows(true, t, r);
      }
    }

    // -------------------------------------------------------------- the end of a run

    method FinishSystemTask(t: TaskId, r: RunnerId, now: int, ok: bool, result: string, error: string)
      returns (done: bool)
      requires Valid()
      modifies this`tasks, this`locks
      ensures Valid() && (done <==> LeaseHeld(old(Rows()), t, r, now))
      ensures !done ==> Rows() == old(Rows())
      ensures done ==>
                Rows() == Release(ApplyQueue(old(Rows()), DoComplete(t, r, now, ok, result, error)), t, r)
                && tasks[t].status == (if ok then Succeeded else Failed) && tasks[t].activeKey == None
                && tasks[t].result == result && tasks[t].error == error
    {
      if !LeaseHeld(Rows(), t, r, now) {
        return false;
      }
      RowsFitStep(Rows(), Queue(DoComplete(t, r, now, ok, result, error)));
      tasks := tasks[t := tasks[t].(status := if ok then Succeeded else Failed, activeKey := None, result := result,
                                    error := error, updatedAt := now)];
      ReleaseSystemTaskLock(t, r);
      return true;
    }

    method RequeueSystemTask(t: TaskId, r: RunnerId, now: int) returns (ok: bool)
      requires Valid()
      modifies this`tasks, this`locks
      ensures Valid() && Rows() == ApplyQueue(old(Rows()), DoRequeue(t, r, now))
      ensures ok <==> RequireValidLease(old(Rows()), t, r, now)
    {
      if !RequireValidLease(Rows(), t, r, now) {
        return false;
      }
      RowsFitStep(Rows(), Queue(DoRequeue(t, r, now)));
      var scoped := tasks[t].family.scope != "";
      tasks := tasks[t := tasks[t].(status := Pending, lockedBy := "", error := "", updatedAt := now)];
      var _ := DeleteRows(scoped, t, r);
      return true;
    }

    method MarkSystemTaskLeaseExpired(t: TaskId, now: int)
      requires Valid()
      modifies this`tasks, this`exports, this`operations, this`audits
      ensures Valid() && Rows() == MarkExpired(old(Rows()), t, now)
    {
      RowsFitStep(Rows(), Queue(DoMarkExpired(t, now)));
      if t !in tasks || !tasks[t].status.Running? {
        return;
      }
      var taskType := tasks[t].family.taskType;
      tasks := tasks[t := ExpiredTask(tasks[t], now)];
      if taskType == USAGE_EXPORT {
        if t in exports {
          exports := exports[t := exports[t].Requeued(now)];
        }
      } else if taskType == INSTANCE_OPERATION {
        var after := SettleExpired(Rows(), t, now);
        operations, audits := after.operations, after.audits;
      }
    }

    method FindUnsupported(supported: set<string>) returns (ids: set<TaskId>)
      ensures ids == UnsupportedIds(Rows(), supported)
      ensures ids
              == set t | t in tasks && tasks[t].status in {Pending, Running} && tasks[t].family.taskType !in supported
    {
      ids := {};
      var rest := tasks.Keys;
      while rest != {}
        invariant rest <= tasks.Keys
        invariant ids == set t | t in tasks && t !in rest && Unsupported(tasks[t], supported)
        decreases |rest|
      {
        var t :| t in rest;
        rest := rest - {t};
        if Unsupported(tasks[t], supported) {
          ids := ids + {t};
        }
      }
    }

    /** Collects the ids of the unsupported active tasks, then fails them and deletes their locks. */
    method RetireUnsupportedSystemTasks(supported: set<string>, now: int) returns (retired: Option<nat>)
      requires Valid()
      modifies this`tasks, this`locks
      ensures Valid()
      ensures supported == {} ==> retired == None && Rows() == old(Rows())
      ensures supported != {} ==> Rows() == ApplyQueue(old(Rows()), DoRetire(supported, now))
      ensures supported != {} ==>
                retired == Some(|set t | t in old(tasks) && old(tasks)[t].status in {Pending, Running}
                                         && old(tasks)[t].family.taskType !in supported|)
    {
      if supported == {} {
        return None;
      }
      RowsFitStep(Rows(), Queue(DoRetire(supported, now)));
      RetireById(Rows(), supported, now);
      var ids := FindUnsupported(supported);
      tasks := FailedTasks(tasks, ids, now);
      locks := map k | k in locks && locks[k].taskId !in ids :: locks[k];
      return Some(|ids|);
    }

    // -------------------------------------------------------------- the stale-lock scan

    method FindStaleLocks(scoped: bool, now: int) returns (rows: seq<(Slot, Lock)>)
      ensures ListsStaleRows(Rows(), scoped, rows, now)
    {
      rows := [];
      var rest := locks.Keys;
      while rest != {}
        invariant rest <= locks.Keys
        invariant forall i :: 0 <= i < |rows| ==> StaleRow(Rows(), rows[i].0, now) && rows[i].1 == locks[rows[i].0]
        invariant forall i :: 0 <= i < |rows| ==> rows[i].0.ScopeSlot? == scoped && rows[i].0 !in rest
        invariant forall i, j :: 0 <= i < j < |rows| ==> rows[i].0 != rows[j].0
        invariant forall k :: StaleRow(Rows(), k, now) && k.ScopeSlot? == scoped && k !in rest ==>
          exists i :: 0 <= i < |rows| && rows[i].0 == k
        decreases |rest|
      {
        var k :| k in rest;
        rest := rest - {k};
        if k.ScopeSlot? == scoped && locks[k].lockedUntil < now {
          ghost var before := rows;
          rows := rows + [(k, locks[k])];
          assert rows[|before|].0 == k;
          assert forall i :: 0 <= i < |before| ==> rows[i] == before[i];
        }
      }
    }

    /** Each stale row's task is expired, then the row is deleted if it is still the one that was read. */
    method ExpireRows(rows: seq<(Slot, Lock)>, now: int)
      requires Valid()
      modifies this
      ensures Valid() && Rows() == Scanned(old(Rows()), rows, now)
    {
      ghost var s := Rows();
      var i := 0;
      while i < |rows|
        invariant 0 <= i <= |rows| && Valid() && Rows() == Scanned(s, rows[..i], now)
      {
        var (k, lock) := rows[i];
        MarkSystemTaskLeaseExpired(lock.taskId, now);
        RowsFitStep(Rows(), Queue(DoDropStale(k, lock.taskId, lock.lockedBy, now)));
        if k in locks && locks[k].Names(lock.taskId, lock.lockedBy) && locks[k].lockedUntil < now {
          locks := locks - {k};
        }
        assert rows[..i + 1][..i] == rows[..i];
        i := i + 1;
      }
      assert rows[..|rows|] == rows;
    }

    /** No stale row survives, live rows are untouched, and no task a stale row named is still running. */
    method ExpireStaleSystemTaskLocks(now: int)
      requires Valid()
      modifies this
      ensures Valid()
      ensures locks == map k | k in old(locks) && old(locks)[k].lockedUntil >= now :: old(locks)[k]
      ensures forall k :: StaleRow(old(Rows()), k, now) ==> !Rows().RunningTask(old(locks)[k].taskId)
      ensures forall t :: Rows().RunningTask(t) ==> old(Rows()).RunningTask(t) && tasks[t] == old(tasks)[t]
    {
      ghost var s0 := Rows();
      var byType := FindStaleLocks(false, now);
      ScanEffect(s0, false, byType, now);
      ExpireRows(byType, now);
      ghost var s1 := Rows();
      var byScope := FindStaleLocks(true, now);
      ScanEffect(s1, true, byScope, now);
      ExpireRows(byScope, now);
      ScanBoth(s0, s1, Rows(), now);
    }

    // -------------------------------------------------------------- exports

    method StartManagedUsageExport(t: TaskId, now: int) returns (ok: bool)
      requires Valid()
      modifies this`exports
      ensures Valid() && Rows() == ApplyExports(old(Rows()), DoStartExport(t, now))
      ensures ok <==> t in old(exports) && old(exports)[t].status.ExportPending?
    {
      if t !in exports || !exports[t].status.ExportPending? {
        return false;
      }
      exports := exports[t := exports[t].(status := ExportRunning, progress := 0, processed := 0, total := 0,
                                          errorCode := "", startedAt := now, finishedAt := 0, updatedAt := now)];
      return true;
    }

    /** Updates the export first; when the task update then matches nothing, the transaction is undone. */
    method CancelManagedUsageExport(t: TaskId, actorId: int, root: bool, now: int) returns (ok: bool)
      requires Valid()
      modifies this`exports, this`tasks
      ensures Valid() && Rows() == ApplyExports(old(Rows()), DoCancelExport(t, actorId, root, now))
      ensures ok <==> t in old(exports) && old(exports)[t].status.ExportPending? && old(Rows()).PendingTask(t)
                      && (root || old(exports)[t].actorId == actorId)
    {
      if t !in exports || !exports[t].status.ExportPending? || (!root && exports[t].actorId != actorId) {
        return false;
      }
      var saved := exports;
      exports := exports[t := exports[t].(status := ExportCancelled, finishedAt := now, updatedAt := now)];
      if t !in tasks || !tasks[t].status.Pending? {
        exports := saved;
        return false;
      }
      tasks := tasks[t := tasks[t].(status := Cancelled, activeKey := None, updatedAt := now)];
      return true;
    }

    method RequeueManagedUsageExport(t: TaskId, r: RunnerId, now: int) returns (ok: bool)
      requires Valid()
      modifies this`tasks, this`exports, this`locks
      ensures Valid() && Rows() == ApplyExports(old(Rows()), DoRequeueExport(t, r, now))
      ensures ok <==> RequireValidLease(old(Rows()), t, r, now)
    {
      if !RequireValidLease(Rows(), t, r, now) {
        return false;
      }
      RowsFitStep(Rows(), Exports(DoRequeueExport(t, r, now)));
      tasks := tasks[t := tasks[t].(status := Pending, lockedBy := "", updatedAt := now)];
      if t in exports {
        exports := exports[t := exports[t].Requeued(now)];
      }
      var _ := DeleteRows(false, t, r);
      return true;
    }

    /** Reads the ids of the expired files, lets other processes run, then updates those ids. */
    method ExpireManagedUsageExports(now: int, meanwhile: seq<Statement>) returns (ids: set<TaskId>)
      requires Valid() && ExportCancellation.PairsAgree(Rows()) && LegalRun(Rows(), meanwhile)
      modifies this
      ensures Valid()
      ensures forall t :: t in ids <==> t in old(exports) && old(exports)[t].status.ExportSucceeded?
                                        && 0 < old(exports)[t].expiresAt <= now
      ensures Rows() == Apply(Run(old(Rows()), meanwhile), Exports(DoExpireExports(ids, now)))
      ensures exports.Keys == Run(old(Rows()), meanwhile).exports.Keys
      ensures forall t :: t in exports && t !in ids ==> exports[t] == Run(old(Rows()), meanwhile).exports[t]
      ensures forall t :: t in exports && t in ids ==>
                !Run(old(Rows()), meanwhile).exports[t].status.ExportCancelled? && exports[t].status.ExportExpired?
    {
      ids := ExpirableExports(Rows(), now);
      ExportCancellation.ExpiryPassIsSafe(Rows(), meanwhile, now, now);
      ExecuteAll(meanwhile);
      Execute(Exports(DoExpireExports(ids, now)));
    }

    method DeleteManagedUsageExport(t: TaskId, actorId: int, root: bool)
      returns (deleted: Option<Export>, conflict: bool)
      requires Valid()
      modifies this`tasks, this`exports
      ensures Valid() && Rows() == ApplyExports(old(Rows()), DoDeleteExport(t, actorId, root))
      ensures deleted.Some? <==> t in old(exports) && (root || old(exports)[t].actorId == actorId)
                                 && old(exports)[t].status !in {ExportPending, ExportRunning}
      ensures deleted.Some? ==> deleted.value == old(exports)[t] && t !in tasks && t !in exports
      ensures conflict
              <==> t in old(exports) && (root || old(exports)[t].actorId == actorId) && old(exports)[t].Active()
    {
      if t !in exports || (!root && exports[t].actorId != actorId) {
        return None, false;
      }
      var record := exports[t];
      if record.status.ExportPending? || record.status.ExportRunning? {
        return None, true;
      }
      tasks := tasks - {t};
      exports := exports - {t};
      return Some(record), false;
    }
  }

  lemma {:induction false} LegalPrefix(s: Tables, cs: seq<Statement>, i: nat)
    requires LegalRun(s, cs) && i <= |cs|
    ensures LegalRun(s, cs[..i]) && (0 < i ==> Legal(Run(s, cs[..i - 1]), cs[i - 1]))
    decreases |cs|
  {
    if i < |cs| {
      LegalPrefix(s, cs[..|cs| - 1], i);
      assert cs[..|cs| - 1][..i] == cs[..i];
      assert 0 < i ==> cs[..|cs| - 1][..i - 1] == cs[..i - 1];
    } else {
      assert cs[..i] == cs;
    }
  }

  /** Only stale rows of one table are gone; whatever runs was running, unchanged. */
  ghost predicate OnlyStaleGone(s: Tables, s': Tables) {
    && (forall k :: k in s'.locks ==> k in s.locks && s'.locks[k] == s.locks[k])
    && (forall t :: s'.RunningTask(t) ==> s.RunningTask(t) && s'.tasks[t] == s.tasks[t])
  }

  /** What a scan of the rows of one table leaves behind. */
  ghost predicate TableScanned(s: Tables, s': Tables, scoped: bool, now: int) {
    && OnlyStaleGone(s, s')
    && (forall k :: k in s.locks ==> (k in s'.locks <==> !(StaleRow(s, k, now) && k.ScopeSlot? == scoped)))
    && (forall k :: StaleRow(s, k, now) && k.ScopeSlot? == scoped ==> !s'.RunningTask(s.locks[k].taskId))
  }

  lemma ScanOneFits(s: Tables, k: Slot, lock: Lock, now: int)
    requires RowsFit(s)
    ensures RowsFit(DropStale(MarkExpired(s, lock.taskId, now), k, lock.taskId, lock.lockedBy, now))
  {
    RowsFitStep(s, Queue(DoMarkExpired(lock.taskId, now)));
    RowsFitStep(MarkExpired(s, lock.taskId, now), Queue(DoDropStale(k, lock.taskId, lock.lockedBy, now)));
  }

  lemma ScanOne(s: Tables, k: Slot, lock: Lock, now: int)
    requires k in s.locks && s.locks[k] == lock && lock.lockedUntil < now
    ensures var s' := DropStale(MarkExpired(s, lock.taskId, now), k, lock.taskId, lock.lockedBy, now);
            OnlyStaleGone(s, s') && s'.locks == s.locks - {k} && !s'.RunningTask(lock.taskId)
  {
  }

  lemma {:induction false} ScanProgress(s: Tables, scoped: bool, rows: seq<(Slot, Lock)>, now: int, n: nat)
    requires RowsFit(s) && ListsStaleRows(s, scoped, rows, now) && n <= |rows|
    ensures var s' := Scanned(s, rows[..n], now);
            && RowsFit(s') && OnlyStaleGone(s, s')
            && (forall k :: k in s.locks ==> (k in s'.locks <==> forall i :: 0 <= i < n ==> rows[i].0 != k))
            && (forall i :: 0 <= i < n ==> !s'.RunningTask(rows[i].1.taskId))
  {
    if n > 0 {
      ScanProgress(s, scoped, rows, now, n - 1);
      assert rows[..n][..n - 1] == rows[..n - 1];
      ScanOne(Scanned(s, rows[..n - 1], now), rows[n - 1].0, rows[n - 1].1, now);
      ScanOneFits(Scanned(s, rows[..n - 1], now), rows[n - 1].0, rows[n - 1].1, now);
    }
  }

  lemma ScanEffect(s: Tables, scoped: bool, rows: seq<(Slot, Lock)>, now: int)
    requires RowsFit(s) && ListsStaleRows(s, scoped, rows, now)
    ensures TableScanned(s, Scanned(s, rows, now), scoped, now)
  {
    ScanProgress(s, scoped, rows, now, |rows|);
    assert rows[..|rows|] == rows;
  }

  lemma ScanBoth(s: Tables, mid: Tables, end: Tables, now: int)
    requires TableScanned(s, mid, false, now) && TableScanned(mid, end, true, now)
    ensures OnlyStaleGone(s, end)
    ensures end.locks == map k | k in s.locks && s.locks[k].lockedUntil >= now :: s.locks[k]
    ensures forall k :: StaleRow(s, k, now) ==> !end.RunningTask(s.locks[k].taskId)
  {
  }

  // ---------------------------------------------------------------- a claim among others

  /** The statements of others that follow a run. */
  lemma OthersThen(s: Tables, cs: seq<Statement>, gap: seq<Statement>) returns (all: seq<Statement>)
    requires LegalRun(s, cs)
    ensures LegalRun(s, all) && Run(s, all) == Others(Run(s, cs), gap)
  {
    all := cs + LegalPart(Run(s, cs), gap);
    RunJoins(s, cs, LegalPart(Run(s, cs), gap));
  }

  lemma LockIsItsTrace(s: Tables, cs: seq<Statement>, slot: Slot, t: TaskId, r: RunnerId, now: int, until: int,
                       gaps: Gaps)
    returns (all: seq<Statement>)
    requires LegalRun(s, cs)
    ensures LegalRun(s, all) && Run(s, all) == AcquiredLock(Run(s, cs), slot, t, r, now, until, gaps).0
  {
    if slot !in Run(s, cs).locks {
      all := cs + [Queue(DoInsertLock(slot, t, r, now, until))];
      RunThen(s, cs, Queue(DoInsertLock(slot, t, r, now, until)));
    } else {
      all := OthersThen(s, cs, gaps.look);
      if Stealable(Run(s, all), slot, now) {
        all := OthersThen(s, all, gaps.steal);
        if Stealable(Run(s, all), slot, now) {
          RunThen(s, all, Queue(DoStealLock(slot, t, r, now, until)));
          all := all + [Queue(DoStealLock(slot, t, r, now, until))];
        }
      }
    }
  }

  lemma EndIsItsTrace(s: Tables, cs: seq<Statement>, t: TaskId, r: RunnerId, now: int, gap: seq<Statement>)
    returns (all: seq<Statement>)
    requires LegalRun(s, cs)
    ensures LegalRun(s, all)
    ensures Run(s, all) == if Run(s, cs).PendingTask(t) then StartRun(Run(s, cs), t, r, now)
                           else Release(Others(Run(s, cs), gap), t, r)
  {
    if Run(s, cs).PendingTask(t) {
      all := cs + [Queue(DoStartRun(t, r, now))];
      RunThen(s, cs, Queue(DoStartRun(t, r, now)));
    } else {
      all := OthersThen(s, cs, gap);
      var drop := Queue(DoDropRows(!HasRow(Run(s, all), false, t, r), t, r));
      RunThen(s, all, drop);
      all := all + [drop];
    }
  }

  /**
   A claim among other processes is a legal run of statements, theirs and its own, so whatever is proved of all
   interleavings holds of it.
   */
  lemma ClaimIsItsTrace(s: Tables, t: TaskId, r: RunnerId, now: int, until: int, gaps: Gaps)
    returns (all: seq<Statement>)
    ensures LegalRun(s, all) && Run(s, all) == Claimed(s, t, r, now, until, gaps).0
  {
    all := [];
    if s.PendingTask(t) {
      var slot := s.tasks[t].family.Slot();
      all := OthersThen(s, all, gaps.insert);
      var (locked, acquired, expired) := AcquiredLock(Run(s, all), slot, t, r, now, until, gaps);
      all := LockIsItsTrace(s, all, slot, t, r, now, until, gaps);
      if acquired {
        all := OthersThen(s, all, gaps.mark);
        if expired.Some? && expired.value != t {
          RunThen(s, all, Queue(DoMarkExpired(expired.value, gaps.markedAt)));
          all := all + [Queue(DoMarkExpired(expired.value, gaps.markedAt))];
        }
        all := OthersThen(s, all, gaps.start);
        all := EndIsItsTrace(s, all, t, r, now, gaps.release);
      }
    }
  }

  // ---------------------------------------------------------------- a claim alone

  /** Up to `n` further statements of a claim, with nothing in between. */
  function Advanced(m: Machine, r: RunnerId, n: nat): Machine
    decreases n
  {
    if n == 0 || r !in m.claims then m else Advanced(AdvanceClaim(m, r), r, n - 1)
  }

  /** Taken one after the other without interference, the statements of a claim have the effect of the whole claim. */
  lemma ClaimIsItsStatements(m: Machine, t: TaskId, r: RunnerId, until: int)
    requires r !in m.claims && m.tables.PendingTask(t) && MayRecord(m.tables, m.tables.tasks[t].family.Slot(), t)
    ensures var begun := Next(m, Begin(r, t, until));
            var end := Advanced(begun, r, 6);
            r !in end.claims && end.tables == Claimed(m.tables, t, r, m.clock, until, Quiet(m.clock)).0
  {
    var s, begun := m.tables, Next(m, Begin(r, t, until));
    QuietClaim(s, t, r, m.clock, until);
    assert begun.tables == s && begun.clock == m.clock && begun.claims[r].stage.Inserting?;
    if s.tasks[t].family.Slot() !in s.locks {
      InsertsAlone(begun, r);
    } else {
      LooksAlone(begun, r);
    }
  }

  lemma LooksAlone(m: Machine, r: RunnerId)
    requires r in m.claims && m.claims[r].now == m.clock && m.tables.PendingTask(m.claims[r].t)
    requires m.claims[r].slot == m.tables.tasks[m.claims[r].t].family.Slot()
             && MayRecord(m.tables, m.claims[r].slot, m.claims[r].t)
    requires m.claims[r].stage.Inserting? && m.claims[r].slot in m.tables.locks
    ensures var c, end := m.claims[r], Advanced(m, r, 6);
            r !in end.claims
            && end.tables == if Stealable(m.tables, c.slot, c.now)
                             then StartRun(Prepared(m.tables, c.t, r, c.now, c.until), c.t, r, c.now) else m.tables
  {
    var one := AdvanceClaim(m, r);
    var two := AdvanceClaim(one, r);
    assert Advanced(m, r, 6) == Advanced(one, r, 5) == Advanced(two, r, 4);
    if Stealable(m.tables, m.claims[r].slot, m.clock) {
      StealsAlone(two, r);
    }
  }

  lemma InsertsAlone(m: Machine, r: RunnerId)
    requires r in m.claims && m.claims[r].stage.Inserting? && m.tables.PendingTask(m.claims[r].t)
    requires m.claims[r].slot == m.tables.tasks[m.claims[r].t].family.Slot()
             && MayRecord(m.tables, m.claims[r].slot, m.claims[r].t)
    requires m.claims[r].slot !in m.tables.locks
    ensures var c, end := m.claims[r], Advanced(m, r, 6);
            r !in end.claims && end.tables == StartRun(Prepared(m.tables, c.t, r, c.now, c.until), c.t, r, c.now)
  {
    assert Advanced(m, r, 6) == Advanced(AdvanceClaim(m, r), r, 5);
    StartsAlone(AdvanceClaim(m, r), r, 4);
  }

  lemma StealsAlone(m: Machine, r: RunnerId)
    requires r in m.claims && m.claims[r].now == m.clock && m.tables.PendingTask(m.claims[r].t)
    requires m.claims[r].slot == m.tables.tasks[m.claims[r].t].family.Slot()
             && MayRecord(m.tables, m.claims[r].slot, m.claims[r].t)
    requires Stealable(m.tables, m.claims[r].slot, m.clock)
    requires m.claims[r].stage == Stealing(m.tables.locks[m.claims[r].slot].taskId)
    ensures var c, end := m.claims[r], Advanced(m, r, 4);
            r !in end.claims && end.tables == StartRun(Prepared(m.tables, c.t, r, c.now, c.until), c.t, r, c.now)
  {
    var c, three := m.claims[r], AdvanceClaim(m, r);
    assert Advanced(m, r, 4) == Advanced(three, r, 3);
    if three.claims[r].stage.Marking? {
      var four := AdvanceClaim(three, r);
      assert Advanced(three, r, 3) == Advanced(four, r, 2);
      assert four.tables == Prepared(m.tables, c.t, r, c.now, c.until);
      StartsAlone(four, r, 1);
    } else {
      assert three.tables == Prepared(m.tables, c.t, r, c.now, c.until);
      StartsAlone(three, r, 2);
    }
  }

  lemma StartsAlone(m: Machine, r: RunnerId, n: nat)
    requires r in m.claims && m.claims[r].stage.Starting? && m.tables.PendingTask(m.claims[r].t)
    ensures Advanced(m, r, n + 1).tables == StartRun(m.tables, m.claims[r].t, r, m.claims[r].now)
    ensures r !in Advanced(m, r, n + 1).claims
  {
    assert Advanced(m, r, n + 1) == Advanced(AdvanceClaim(m, r), r, n);
  }
}
