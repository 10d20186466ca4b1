/** In every timely interleaving a running task is named by its own lock row or some claim is about to expire it. */
module TaskOrphans {
  import opened TaskTables
  import opened TaskStatements
  import opened ClaimMachine
  import TaskFence

  /** The row under the task's own key names the task and the runner it runs under. */
  predicate Named(s: Tables, t: TaskId)
    requires t in s.tasks
  {
    var k := s.tasks[t].family.Slot();
    k in s.locks && s.locks[k].Names(t, s.tasks[t].lockedBy)
  }

  /** Some claim stole the task's lock and has its expiry as next statement. */
  ghost predicate BeingExpired(m: Machine, t: TaskId) {
    exists r :: r in m.claims && m.claims[r].stage == Marking(t)
  }

  ghost predicate NoOrphans(m: Machine) {
    forall t :: m.tables.RunningTask(t) ==> Named(m.tables, t) || BeingExpired(m, t)
  }

  /** The dispatcher claims unscoped tasks by type and scoped ones by (type, scope). */
  ghost predicate OwnSlots(s: Tables) {
    forall k :: k in s.locks ==> s.locks[k].taskId in s.issued && k == s.issued[s.locks[k].taskId].family.Slot()
  }

  predicate ClaimFits(m: Machine, r: RunnerId)
    requires r in m.claims
  {
    var c, s := m.claims[r], m.tables;
    && c.now <= m.clock && c.t in s.issued && c.slot == s.issued[c.t].family.Slot()
    && (s.RunningTask(c.t) ==> s.tasks[c.t].lockedBy != r)
    && (c.stage.Holding() && m.clock <= c.until && !s.Dead(c.t) ==>
          c.slot in s.locks && s.locks[c.slot].Names(c.t, r) && c.until <= s.locks[c.slot].lockedUntil)
    && (c.stage.Stealing? && Stealable(s, c.slot, c.now) ==> s.locks[c.slot].taskId == c.stage.seen)
    && (!c.stage.Holding() && s.RunningTask(c.t) && Named(s, c.t) && c.slot in s.locks ==>
        c.now <= s.locks[c.slot].lockedUntil)
  }

  predicate Covers(item: Item, k: Slot, lock: Lock) {
    item.slot == k && item.lock.Names(lock.taskId, lock.lockedBy)
  }

  ghost predicate Covered(scan: Scan, k: Slot, lock: Lock) {
    exists item :: item in scan.todo + scan.marked && Covers(item, k, lock)
  }

  ghost predicate ScanFits(m: Machine, k: int)
    requires k in m.scans
  {
    var scan, s := m.scans[k], m.tables;
    && scan.now <= m.clock
    && (forall j :: Stealable(s, j, scan.now) && j.ScopeSlot? == scan.scoped ==> Covered(scan, j, s.locks[j]))
    && (forall item :: item in scan.marked && Stealable(s, item.slot, scan.now)
                       && Covers(item, item.slot, s.locks[item.slot]) && s.RunningTask(item.lock.taskId) ==>
          !Named(s, item.lock.taskId))
  }

  ghost predicate ClaimsFit(m: Machine) { forall r :: r in m.claims ==> ClaimFits(m, r) }
  ghost predicate ScansFit(m: Machine) { forall k :: k in m.scans ==> ScanFits(m, k) }
  ghost predicate OwedFit(m: Machine) { forall d :: d in m.owed ==> m.tables.Dead(d.0) }

  ghost predicate Invariant(m: Machine) {
    RowsFit(m.tables) && OwnSlots(m.tables) && NoOrphans(m) && ClaimsFit(m) && ScansFit(m) && OwedFit(m)
  }

  // ---------------------------------------------------------------- statements that start nothing

  /** Nothing starts running, dead tasks stay dead, and a lock row only goes with the end of its task's run. */
  ghost predicate Benign(s: Tables, s': Tables) {
    && (forall t :: t in s.issued ==> t in s'.issued && s'.issued[t] == s.issued[t])
    && (forall t :: s'.RunningTask(t) ==> s.RunningTask(t) && s'.tasks[t].lockedBy == s.tasks[t].lockedBy)
    && (forall t :: s.Dead(t) ==> s'.Dead(t))
    && (forall k :: k in s'.locks ==> k in s.locks && s'.locks[k] == s.locks[k])
    && (forall k :: k in s.locks && k !in s'.locks ==>
          s'.Dead(s.locks[k].taskId)
          || (s.RunningTask(s.locks[k].taskId) && s.tasks[s.locks[k].taskId].lockedBy == s.locks[k].lockedBy
              && !s'.RunningTask(s.locks[k].taskId)))
  }

  lemma BenignCompletion(s: Tables, q: QueueStatement)
    requires TasksFit(s.issued, s.tasks) && LocksFit(s.issued, s.locks) && q.DoComplete?
    ensures Benign(s, ApplyQueue(s, q))
  {
  }

  lemma BenignQueue(s: Tables, q: QueueStatement)
    requires TasksFit(s.issued, s.tasks) && LocksFit(s.issued, s.locks)
    requires q.DoCreate? || q.DoSaveState? || q.DoComplete?
    ensures Benign(s, ApplyQueue(s, q))
  {
    if q.DoComplete? {
      BenignCompletion(s, q);
    }
  }

  lemma BenignExpiry(s: Tables, t: TaskId, now: int)
    requires TasksFit(s.issued, s.tasks)
    ensures Benign(s, MarkExpired(s, t, now))
  {
  }

  lemma BenignRetire(s: Tables, supported: set<string>, now: int)
    requires TasksFit(s.issued, s.tasks)
    ensures Benign(s, Retire(s, supported, now))
  {
  }

  lemma BenignRequeue(s: Tables, t: TaskId, r: RunnerId, now: int)
    requires TasksFit(s.issued, s.tasks)
    ensures Benign(s, Requeue(s, t, r, now)) && Benign(s, RequeueExport(s, t, r, now))
  {
  }

  lemma BenignExports(s: Tables, e: ExportStatement)
    requires TasksFit(s.issued, s.tasks) && !e.DoRequeueExport?
    ensures Benign(s, ApplyExports(s, e))
  {
  }

  lemma BenignOperations(s: Tables, p: OperationStatement)
    requires TasksFit(s.issued, s.tasks)
    ensures Benign(s, ApplyOperations(s, p))
  {
  }

  /** Benign statements keep the invariant, all but the claim that owes an expiry. */
  lemma BenignKeepsInvariant(m: Machine, s': Tables)
    requires Invariant(m) && RowsFit(s') && Benign(m.tables, s')
    ensures Invariant(m.(tables := s'))
  {
    var m', s := m.(tables := s'), m.tables;
    forall t | s'.RunningTask(t)
      ensures Named(s, t) ==> Named(s', t)
      ensures Named(s', t) ==> Named(s, t)
      ensures Named(s', t) || BeingExpired(m', t)
    {
      assert t in s.issued && s'.tasks[t].family == s.tasks[t].family == s.issued[t].family;
      if BeingExpired(m, t) {
        var r :| r in m.claims && m.claims[r].stage == Marking(t);
        assert BeingExpired(m', t);
      }
    }
    forall r | r in m'.claims
      ensures ClaimFits(m', r)
    {
      assert ClaimFits(m, r);
    }
    forall k | k in m'.scans
      ensures ScanFits(m', k)
    {
      assert ScanFits(m, k);
    }
  }

  lemma OtherKeepsInvariant(m: Machine, c: Statement)
    requires Invariant(m) && Standalone(c) && Legal(m.tables, c)
    ensures Invariant(m.(tables := Apply(m.tables, c)))
  {
    var s := m.tables;
    RowsFitStep(s, c);
    match c {
      case Queue(DoRequeue(t, r, now)) => BenignRequeue(s, t, r, now);
      case Queue(DoRetire(supported, now)) => BenignRetire(s, supported, now);
      case Queue(q) => BenignQueue(s, q);
      case Exports(DoRequeueExport(t, r, now)) => BenignRequeue(s, t, r, now);
      case Exports(e) => BenignExports(s, e);
      case Operations(p) => BenignOperations(s, p);
    }
    BenignKeepsInvariant(m, Apply(s, c));
  }

  lemma ExpiryKeepsInvariant(m: Machine, t: TaskId)
    requires Invariant(m)
    ensures Invariant(m.(tables := MarkExpired(m.tables, t, m.clock)))
    ensures !MarkExpired(m.tables, t, m.clock).RunningTask(t)
  {
    BenignExpiry(m.tables, t, m.clock);
    RowsFitStep(m.tables, Queue(DoMarkExpired(t, m.clock)));
    BenignKeepsInvariant(m, MarkExpired(m.tables, t, m.clock));
  }

  // ---------------------------------------------------------------- the steps of a claim

  lemma TickKeepsInvariant(m: Machine, to: int)
    requires Invariant(m) && m.clock <= to
    ensures Invariant(m.(clock := to))
  {
    var m' := m.(clock := to);
    assert forall t :: BeingExpired(m, t) ==> BeingExpired(m', t);
    assert forall r :: r in m.claims ==> ClaimFits(m, r);
    assert forall k :: k in m.scans ==> ScanFits(m, k);
  }

  /** A claim's own bookkeeping: the tables stand still and no expiry that was due is dropped. */
  lemma ClaimMoves(m: Machine, m': Machine, r: RunnerId)
    requires Invariant(m) && m' == m.(claims := m'.claims)
    requires m'.claims - {r} == m.claims - {r} && (r in m'.claims ==> ClaimFits(m', r))
    requires r in m.claims && m.claims[r].stage.Marking? ==> !m.tables.RunningTask(m.claims[r].stage.expired)
    ensures Invariant(m')
  {
    forall t | m'.tables.RunningTask(t)
      ensures Named(m'.tables, t) || BeingExpired(m', t)
    {
      if !Named(m.tables, t) {
        var x :| x in m.claims && m.claims[x].stage == Marking(t);
        assert x in m.claims - {r};
        assert x in m'.claims && m'.claims[x] == m.claims[x];
      }
    }
    forall x | x in m'.claims
      ensures ClaimFits(m', x)
    {
      if x != r {
        assert x in m'.claims - {r};
        assert ClaimFits(m, x);
      }
    }
    assert forall k :: k in m.scans ==> ScanFits(m, k);
  }

  /** The tables after claim r wrote its lock row. */
  function Locked(m: Machine, r: RunnerId): Tables
    requires r in m.claims
  {
    var c := m.claims[r];
    m.tables.(locks := m.tables.locks[c.slot := Lock(c.t, r, c.until, c.now)])
  }

  /** Claim r writes its lock row now, in time, into a free slot or over a lapsed row. */
  predicate MayLock(m: Machine, r: RunnerId) {
    && r in m.claims && !m.claims[r].stage.Holding() && m.clock <= m.claims[r].until
    && (m.claims[r].slot in m.tables.locks ==> Stealable(m.tables, m.claims[r].slot, m.claims[r].now))
  }

  /** The row it overwrites names nothing that runs except, possibly, the task it now owes an expiry. */
  lemma LockedRowsNamed(m: Machine, r: RunnerId, t: TaskId)
    requires Invariant(m) && MayLock(m, r) && m.tables.RunningTask(t)
    ensures Named(Locked(m, r), t) <==> Named(m.tables, t) && m.tables.tasks[t].family.Slot() != m.claims[r].slot
    ensures Named(m.tables, t) && m.tables.tasks[t].family.Slot() == m.claims[r].slot ==> t != m.claims[r].t
  {
    assert ClaimFits(m, r);
  }

  lemma LockedScansFit(m: Machine, r: RunnerId)
    requires Invariant(m) && MayLock(m, r)
    ensures ScansFit(m.(tables := Locked(m, r)))
  {
    assert ClaimFits(m, r);
    forall k | k in m.scans
      ensures ScanFits(m.(tables := Locked(m, r)), k)
    {
      assert ScanFits(m, k);
      forall t | m.tables.RunningTask(t)
        ensures Named(Locked(m, r), t) ==> Named(m.tables, t)
      {
        LockedRowsNamed(m, r, t);
      }
    }
  }

  lemma LockedClaimFits(m: Machine, r: RunnerId, x: RunnerId, stage: Stage)
    requires Invariant(m) && MayLock(m, r) && x in m.claims && stage.Holding()
    ensures ClaimFits(m.(tables := Locked(m, r), claims := m.claims[r := m.claims[r].(stage := stage)]), x)
  {
    assert ClaimFits(m, r) && ClaimFits(m, x);
    if m.tables.RunningTask(m.claims[x].t) {
      LockedRowsNamed(m, r, m.claims[x].t);
    }
  }

  lemma LockWritten(m: Machine, r: RunnerId, stage: Stage)
    requires Invariant(m) && MayLock(m, r)
    requires var c, s := m.claims[r], m.tables;
             stage == if c.slot in s.locks && s.locks[c.slot].taskId != c.t then Marking(s.locks[c.slot].taskId)
                      else Starting
    ensures Invariant(m.(tables := Locked(m, r), claims := m.claims[r := m.claims[r].(stage := stage)]))
  {
    var c, s, s' := m.claims[r], m.tables, Locked(m, r);
    var m' := m.(tables := s', claims := m.claims[r := c.(stage := stage)]);
    LockedScansFit(m, r);
    assert forall k :: k in m'.scans ==> ScanFits(m.(tables := s'), k) && ScanFits(m', k);
    forall t | s'.RunningTask(t)
      ensures Named(s', t) || BeingExpired(m', t)
    {
      LockedRowsNamed(m, r, t);
      if BeingExpired(m, t) {
        var x :| x in m.claims && m.claims[x].stage == Marking(t);
        assert x in m'.claims && m'.claims[x].stage == Marking(t);
      } else if s.tasks[t].family.Slot() == c.slot {
        assert r in m'.claims && m'.claims[r].stage == Marking(t);
      }
    }
    forall x | x in m'.claims
      ensures ClaimFits(m', x)
    {
      LockedClaimFits(m, r, x, stage);
    }
    assert ClaimFits(m, r);
  }

  /** Claim r compares-and-sets its pending task, in time. */
  predicate MayStart(m: Machine, r: RunnerId) {
    r in m.claims && m.claims[r].stage.Starting? && m.clock <= m.claims[r].until && m.tables.PendingTask(m.claims[r].t)
  }

  function Started(m: Machine, r: RunnerId): Tables
    requires r in m.claims
  {
    StartRun(m.tables, m.claims[r].t, r, m.claims[r].now)
  }

  /** The row the claim took still names it, and has not lapsed. */
  lemma StartedIsNamed(m: Machine, r: RunnerId)
    requires Invariant(m) && MayStart(m, r)
    ensures var c, s := m.claims[r], m.tables;
            && Named(Started(m, r), c.t) && c.slot == s.tasks[c.t].family.Slot()
            && m.clock <= s.locks[c.slot].lockedUntil
    ensures forall t :: t in m.tables.tasks && t != m.claims[r].t ==>
              Started(m, r).tasks[t] == m.tables.tasks[t] && (Named(Started(m, r), t) <==> Named(m.tables, t))
  {
    assert ClaimFits(m, r) && !m.tables.Dead(m.claims[r].t);
  }

  lemma StartedScansFit(m: Machine, r: RunnerId)
    requires Invariant(m) && MayStart(m, r)
    ensures ScansFit(m.(tables := Started(m, r)))
  {
    StartedIsNamed(m, r);
    forall k | k in m.scans
      ensures ScanFits(m.(tables := Started(m, r)), k)
    {
      assert ScanFits(m, k);
    }
  }

  lemma StartedClaimFits(m: Machine, r: RunnerId, x: RunnerId)
    requires Invariant(m) && MayStart(m, r) && x in m.claims && x != r
    ensures ClaimFits(m.(tables := Started(m, r)), x)
  {
    StartedIsNamed(m, r);
    assert ClaimFits(m, x) && ClaimFits(m, r);
  }

  lemma RunStarted(m: Machine, r: RunnerId)
    requires Invariant(m) && MayStart(m, r)
    ensures Invariant(m.(tables := Started(m, r), claims := m.claims - {r}))
  {
    var c, s, s' := m.claims[r], m.tables, Started(m, r);
    var m' := m.(tables := s', claims := m.claims - {r});
    StartedIsNamed(m, r);
    StartedScansFit(m, r);
    assert forall k :: k in m'.scans ==> ScanFits(m.(tables := s'), k) && ScanFits(m', k);
    RowsFitStep(s, Queue(DoStartRun(c.t, r, c.now)));
    forall t | s'.RunningTask(t)
      ensures Named(s', t) || BeingExpired(m', t)
    {
      if !Named(s', t) {
        var x :| x in m.claims && m.claims[x].stage == Marking(t);
        assert x in m'.claims && m'.claims[x].stage == Marking(t);
      }
    }
    forall x | x in m'.claims
      ensures ClaimFits(m', x)
    {
      StartedClaimFits(m, r, x);
      assert ClaimFits(m.(tables := s'), x);
    }
  }

  /** Rows go that name no task's current run and, unless the task is dead, no claim still in time. */
  lemma RowsDropped(m: Machine, s': Tables)
    requires Invariant(m) && s' == m.tables.(locks := s'.locks)
    requires forall k :: k in s'.locks ==> k in m.tables.locks && s'.locks[k] == m.tables.locks[k]
    requires forall k :: k in m.tables.locks && k !in s'.locks ==>
               var lock := m.tables.locks[k];
               && (m.tables.RunningTask(lock.taskId) ==> m.tables.tasks[lock.taskId].lockedBy != lock.lockedBy)
               && (m.tables.Dead(lock.taskId) || lock.lockedUntil < m.clock || lock.lockedBy !in m.claims)
    ensures Invariant(m.(tables := s'))
  {
    var m', s := m.(tables := s'), m.tables;
    assert forall t :: BeingExpired(m, t) ==> BeingExpired(m', t);
    assert forall t :: s.RunningTask(t) ==> (Named(s', t) <==> Named(s, t));
    forall r | r in m'.claims
      ensures ClaimFits(m', r)
    {
      assert ClaimFits(m, r);
    }
    forall k | k in m'.scans
      ensures ScanFits(m', k)
    {
      assert ScanFits(m, k);
    }
  }

  lemma RenewedScanFits(m: Machine, s': Tables, k: int)
    requires Invariant(m) && k in m.scans && Lengthened(m.tables, s')
    ensures ScanFits(m.(tables := s'), k)
  {
    var s, scan := m.tables, m.scans[k];
    assert ScanFits(m, k);
    forall j | Stealable(s', j, scan.now) && j.ScopeSlot? == scan.scoped
      ensures Covered(scan, j, s'.locks[j])
    {
      assert Covered(scan, j, s.locks[j]);
    }
  }

  /** The same rows for the same pairs, some of them valid for longer. */
  ghost predicate Lengthened(s: Tables, s': Tables) {
    && s' == s.(locks := s'.locks) && s'.locks.Keys == s.locks.Keys
    && forall k :: k in s.locks ==>
         s'.locks[k].Names(s.locks[k].taskId, s.locks[k].lockedBy) && s.locks[k].lockedUntil <= s'.locks[k].lockedUntil
  }

  lemma RenewedClaimFits(m: Machine, s': Tables, x: RunnerId)
    requires Invariant(m) && x in m.claims && Lengthened(m.tables, s')
    ensures ClaimFits(m.(tables := s'), x)
  {
    assert ClaimFits(m, x);
  }

  lemma RowsRenewed(m: Machine, scoped: bool, t: TaskId, r: RunnerId, read: int, until: int)
    requires Invariant(m) && Timely(m, Renew(scoped, t, r, read, until))
    ensures Invariant(m.(tables := RenewRows(m.tables, scoped, t, r, read, until)))
  {
    var s, s' := m.tables, RenewRows(m.tables, scoped, t, r, read, until);
    var m' := m.(tables := s');
    assert Lengthened(s, s');
    assert forall x :: BeingExpired(m, x) ==> BeingExpired(m', x);
    assert forall x :: s.RunningTask(x) ==> (Named(s', x) <==> Named(s, x));
    forall x | x in m'.claims
      ensures ClaimFits(m', x)
    {
      RenewedClaimFits(m, s', x);
    }
    forall k | k in m'.scans
      ensures ScanFits(m', k)
    {
      RenewedScanFits(m, s', k);
    }
  }

  lemma ClaimMarks(m: Machine, r: RunnerId)
    requires Invariant(m) && r in m.claims && m.claims[r].stage.Marking?
    ensures Invariant(AdvanceClaim(m, r))
  {
    ExpiryKeepsInvariant(m, m.claims[r].stage.expired);
    var marked := m.(tables := MarkExpired(m.tables, m.claims[r].stage.expired, m.clock));
    assert ClaimFits(marked, r);
    ClaimMoves(marked, AdvanceClaim(m, r), r);
  }

  lemma ClaimDrops(m: Machine, r: RunnerId)
    requires Invariant(m) && r in m.claims && m.claims[r].stage.Dropping?
    ensures Invariant(AdvanceClaim(m, r))
  {
    assert ClaimFits(m, r);
    var left := m.(claims := m.claims - {r});
    ClaimMoves(m, left, r);
    RowsDropped(left, Release(m.tables, m.claims[r].t, r));
  }

  lemma ClaimLocks(m: Machine, r: RunnerId)
    requires Invariant(m) && Enabled(m, Advance(r)) && Timely(m, Advance(r))
    requires m.claims[r].stage.Inserting? || m.claims[r].stage.Stealing?
    ensures Invariant(AdvanceClaim(m, r))
  {
    var c, s, m' := m.claims[r], m.tables, AdvanceClaim(m, r);
    assert ClaimFits(m, r);
    match c.stage
    case Inserting =>
      if c.slot !in s.locks { LockWritten(m, r, Starting); } else { ClaimMoves(m, m', r); }
    case Stealing(seen) =>
      if Stealable(s, c.slot, c.now) {
        LockWritten(m, r, if seen != c.t then Marking(seen) else Starting);
      } else {
        ClaimMoves(m, m', r);
      }
  }

  lemma ClaimAdvances(m: Machine, r: RunnerId)
    requires Invariant(m) && Enabled(m, Advance(r)) && Timely(m, Advance(r))
    ensures Invariant(AdvanceClaim(m, r))
  {
    var c, s, m' := m.claims[r], m.tables, AdvanceClaim(m, r);
    assert ClaimFits(m, r);
    match c.stage
    case Inserting => ClaimLocks(m, r);
    case Looking => ClaimMoves(m, m', r);
    case Stealing(_) => ClaimLocks(m, r);
    case Marking(_) => ClaimMarks(m, r);
    case Starting =>
      if s.PendingTask(c.t) { RunStarted(m, r); } else { ClaimMoves(m, m', r); }
    case Dropping => ClaimDrops(m, r);
  }

  // ---------------------------------------------------------------- scans and completions

  lemma ScanMoves(m: Machine, k: int, scan: Scan)
    requires Invariant(m) && ScanFits(m.(scans := m.scans[k := scan]), k)
    ensures Invariant(m.(scans := m.scans[k := scan]))
  {
    var m' := m.(scans := m.scans[k := scan]);
    assert forall t :: BeingExpired(m, t) ==> BeingExpired(m', t);
    assert forall r :: r in m.claims ==> ClaimFits(m, r);
    forall j | j in m'.scans
      ensures ScanFits(m', j)
    {
      if j != k { assert ScanFits(m, j); }
    }
  }

  lemma ScanBegins(m: Machine, k: int, scoped: bool)
    requires Invariant(m) && k !in m.scans
    ensures Invariant(Next(m, BeginScan(k, scoped)))
  {
    var scan := Scan(scoped, m.clock, StaleItems(m.tables, scoped, m.clock), {});
    forall j | Stealable(m.tables, j, m.clock) && j.ScopeSlot? == scoped
      ensures Covered(scan, j, m.tables.locks[j])
    {
      assert Item(j, m.tables.locks[j]) in scan.todo + scan.marked;
    }
    ScanMoves(m, k, scan);
  }

  lemma ScanMarks(m: Machine, k: int, item: Item)
    requires Invariant(m) && Enabled(m, ScanMark(k, item))
    ensures Invariant(Next(m, ScanMark(k, item)))
  {
    ExpiryKeepsInvariant(m, item.lock.taskId);
    var marked := m.(tables := MarkExpired(m.tables, item.lock.taskId, m.clock));
    var scan := m.scans[k].(todo := m.scans[k].todo - {item}, marked := m.scans[k].marked + {item});
    assert ScanFits(marked, k);
    assert scan.todo + scan.marked == m.scans[k].todo + m.scans[k].marked;
    ScanMoves(marked, k, scan);
  }

  lemma ScanDeletes(m: Machine, k: int, item: Item)
    requires Invariant(m) && Enabled(m, ScanDelete(k, item))
    ensures Invariant(Next(m, ScanDelete(k, item)))
  {
    var was, s := m.scans[k], m.tables;
    var s' := DropStale(s, item.slot, item.lock.taskId, item.lock.lockedBy, was.now);
    assert ScanFits(m, k);
    RowsDropped(m, s');
    var dropped := m.(tables := s');
    var scan := was.(marked := was.marked - {item});
    assert ScanFits(dropped, k);
    forall j | Stealable(s', j, scan.now) && j.ScopeSlot? == scan.scoped
      ensures Covered(scan, j, s'.locks[j])
    {
      var i :| i in was.todo + was.marked && Covers(i, j, s'.locks[j]);
      assert i != item;
      assert i in scan.todo + scan.marked;
    }
    ScanMoves(dropped, k, scan);
  }

  lemma OwedMoves(m: Machine, owed: set<(TaskId, RunnerId)>)
    requires Invariant(m) && OwedFit(m.(owed := owed))
    ensures Invariant(m.(owed := owed))
  {
    var m' := m.(owed := owed);
    assert forall t :: BeingExpired(m, t) ==> BeingExpired(m', t);
    assert forall r :: r in m.claims ==> ClaimFits(m, r);
    assert forall k :: k in m.scans ==> ScanFits(m, k);
  }

  lemma Completes(m: Machine, t: TaskId, r: RunnerId, read: int, ok: bool, result: string, error: string)
    requires Invariant(m)
    ensures Invariant(Next(m, Complete(t, r, read, ok, result, error)))
  {
    if LeaseHeld(m.tables, t, r, read) {
      var c := DoComplete(t, r, read, ok, result, error);
      BenignQueue(m.tables, c);
      RowsFitStep(m.tables, Queue(c));
      BenignKeepsInvariant(m, ApplyQueue(m.tables, c));
      OwedMoves(m.(tables := ApplyQueue(m.tables, c)), m.owed + {(t, r)});
    }
  }

  lemma OwedReleased(m: Machine, t: TaskId, r: RunnerId)
    requires Invariant(m) && (t, r) in m.owed
    ensures Invariant(Next(m, ReleaseOwed(t, r)))
  {
    RowsDropped(m, Release(m.tables, t, r));
    OwedMoves(m.(tables := Release(m.tables, t, r)), m.owed - {(t, r)});
  }

  // ---------------------------------------------------------------- over whole runs

  lemma StepKeepsInvariant(m: Machine, step: Step)
    requires Invariant(m) && Enabled(m, step) && Timely(m, step)
    ensures Invariant(Next(m, step))
  {
    match step
    case Tick(to) => TickKeepsInvariant(m, to);
    case Begin(r, t, until) => ClaimMoves(m, Next(m, step), r);
    case Advance(r) => ClaimAdvances(m, r);
    case Renew(scoped, t, r, read, until) => RowsRenewed(m, scoped, t, r, read, until);
    case Complete(t, r, read, ok, result, error) => Completes(m, t, r, read, ok, result, error);
    case ReleaseOwed(t, r) => OwedReleased(m, t, r);
    case BeginScan(k, scoped) => ScanBegins(m, k, scoped);
    case ScanMark(k, item) => ScanMarks(m, k, item);
    case ScanDelete(k, item) => ScanDeletes(m, k, item);
    case Other(c) => OtherKeepsInvariant(m, c);
  }

  lemma {:induction false} InvariantAlways(clock: int, steps: seq<Step>)
    requires TimelyRun(Start(clock), steps)
    ensures Invariant(RunMachine(Start(clock), steps))
  {
    if steps != [] {
      var before, step := RunMachine(Start(clock), steps[..|steps| - 1]), steps[|steps| - 1];
      InvariantAlways(clock, steps[..|steps| - 1]);
      if Enabled(before, step) { StepKeepsInvariant(before, step); }
    }
  }

  /** No orphaned work: one lock row names the running task, under its own key, or an expiry is on its way. */
  lemma NoOrphanedWork(clock: int, steps: seq<Step>, t: TaskId)
    requires TimelyRun(Start(clock), steps)
    requires RunMachine(Start(clock), steps).tables.RunningTask(t)
    ensures var m := RunMachine(Start(clock), steps);
            BeingExpired(m, t)
            || (var k := m.tables.tasks[t].family.Slot();
                && k in m.tables.locks && m.tables.locks[k].Names(t, m.tables.tasks[t].lockedBy)
                && forall j :: j in m.tables.locks && m.tables.locks[j].taskId == t ==> j == k)
  {
    InvariantAlways(clock, steps);
  }

  /**
   Once a scan has worked through the rows it read, and for ever after, every task of its table that
   still runs has a lease that was live when the scan began.
   */
  lemma FullScanLeavesLiveLeases(clock: int, steps: seq<Step>, k: int, t: TaskId)
    requires TimelyRun(Start(clock), steps)
    requires var m := RunMachine(Start(clock), steps);
             && k in m.scans && m.scans[k].todo == {} && m.scans[k].marked == {}
             && m.tables.RunningTask(t) && (m.tables.tasks[t].family.scope != "") == m.scans[k].scoped
    ensures var m := RunMachine(Start(clock), steps);
            BeingExpired(m, t)
            || (var j := m.tables.tasks[t].family.Slot();
                j in m.tables.locks && m.scans[k].now <= m.tables.locks[j].lockedUntil)
  {
    InvariantAlways(clock, steps);
    var m := RunMachine(Start(clock), steps);
    assert ScanFits(m, k);
    var j := m.tables.tasks[t].family.Slot();
    assert forall item :: item !in m.scans[k].todo + m.scans[k].marked;
  }

  // ---------------------------------------------------------------- no claim stuck before its mark

  /** Every claim that stole a lock has got as far as expiring the task it stole it from. */
  ghost predicate NonePending(m: Machine) {
    forall r :: r in m.claims ==> !m.claims[r].stage.Marking?
  }

  /** Then every running task is named, with its runner, by the row under its own key and by no other. */
  lemma EveryRunningTaskIsNamed(clock: int, steps: seq<Step>, t: TaskId)
    requires TimelyRun(Start(clock), steps) && NonePending(RunMachine(Start(clock), steps))
    requires RunMachine(Start(clock), steps).tables.RunningTask(t)
    ensures var s := RunMachine(Start(clock), steps).tables;
            Named(s, t) && forall j :: j in s.locks && s.locks[j].taskId == t ==> j == s.tasks[t].family.Slot()
  {
    NoOrphanedWork(clock, steps, t);
  }

  /** And after a full scan every task of its table that still runs passes the fence at the scan's clock. */
  lemma FullScanLeavesOnlyFencedWork(clock: int, steps: seq<Step>, k: int, t: TaskId)
    requires TimelyRun(Start(clock), steps) && NonePending(RunMachine(Start(clock), steps))
    requires var m := RunMachine(Start(clock), steps);
             && k in m.scans && m.scans[k].todo == {} && m.scans[k].marked == {}
             && m.tables.RunningTask(t) && (m.tables.tasks[t].family.scope != "") == m.scans[k].scoped
    ensures var m := RunMachine(Start(clock), steps); LeaseHeld(m.tables, t, m.tables.tasks[t].lockedBy, m.scans[k].now)
  {
    InvariantAlways(clock, steps);
    FullScanLeavesLiveLeases(clock, steps, k, t);
    EveryRunningTaskIsNamed(clock, steps, t);
    var m := RunMachine(Start(clock), steps);
    TaskFence.FenceIsOwnRow(m.tables, t, m.tables.tasks[t].lockedBy, m.scans[k].now);
  }

  // ---------------------------------------------------------------- what a scan can hit

  /** Items of a scan are rows as they once stood: under their task's own key, and lapsed when they were read. */
  ghost predicate ItemsFit(m: Machine) {
    forall k :: k in m.scans ==> ScanItemsFit(m, m.scans[k])
  }

  ghost predicate ScanItemsFit(m: Machine, scan: Scan) {
    forall item :: item in scan.todo + scan.marked ==> ItemFits(m, scan, item)
  }

  predicate ItemFits(m: Machine, scan: Scan, item: Item) {
    && item.lock.taskId in m.tables.issued && item.slot == m.tables.issued[item.lock.taskId].family.Slot()
    && item.lock.lockedUntil < scan.now <= m.clock
  }

  lemma IssuedKeptByStep(m: Machine, step: Step)
    requires Enabled(m, step)
    ensures IssuedKept(m.tables, Next(m, step).tables)
  {
    StepsAreStatements(m, step);
    IssuedKeptByRun(m.tables, StatementsOf(m, step));
  }

  /** A scan gains no items once it has begun. */
  lemma ScanShrinks(m: Machine, step: Step, k: int)
    requires Enabled(m, step) && k in m.scans
    ensures var n := Next(m, step);
            k in n.scans && n.scans[k].now == m.scans[k].now && m.clock <= n.clock
            && n.scans[k].todo + n.scans[k].marked <= m.scans[k].todo + m.scans[k].marked
  {
  }

  lemma ItemsStep(m: Machine, step: Step)
    requires OwnSlots(m.tables) && ItemsFit(m) && Enabled(m, step)
    ensures ItemsFit(Next(m, step))
  {
    var n := Next(m, step);
    IssuedKeptByStep(m, step);
    forall k | k in n.scans
      ensures ScanItemsFit(n, n.scans[k])
    {
      if k in m.scans {
        ScanShrinks(m, step, k);
        assert ScanItemsFit(m, m.scans[k]);
        forall item | item in n.scans[k].todo + n.scans[k].marked
          ensures ItemFits(n, n.scans[k], item)
        {
          assert ItemFits(m, m.scans[k], item);
        }
      }
    }
  }

  lemma {:induction false} ItemsAlways(clock: int, steps: seq<Step>)
    requires TimelyRun(Start(clock), steps)
    ensures ItemsFit(RunMachine(Start(clock), steps))
  {
    if steps != [] {
      var before, step := RunMachine(Start(clock), steps[..|steps| - 1]), steps[|steps| - 1];
      ItemsAlways(clock, steps[..|steps| - 1]);
      InvariantAlways(clock, steps[..|steps| - 1]);
      if Enabled(before, step) { ItemsStep(before, step); }
    }
  }

  /**
   A scan expires by task id alone. It takes away a live lease exactly when the row it read as lapsed has since been
   taken again, or renewed late, for the same task, and that task runs under it.
   */
  lemma ScanHitsLiveLeaseIff(clock: int, steps: seq<Step>, k: int, item: Item, r: RunnerId)
    requires TimelyRun(Start(clock), steps)
    requires Enabled(RunMachine(Start(clock), steps), ScanMark(k, item))
    ensures var m, t := RunMachine(Start(clock), steps), item.lock.taskId;
            var s, s' := m.tables, Next(m, ScanMark(k, item)).tables;
            LeaseHeld(s, t, r, m.clock) && !LeaseHeld(s', t, r, m.clock)
            <==> s.RunningTask(t) && s.tasks[t].lockedBy == r
                 && item.slot in s.locks && s.locks[item.slot].Names(t, r)
                 && item.lock.lockedUntil < m.clock <= s.locks[item.slot].lockedUntil
  {
    InvariantAlways(clock, steps);
    ItemsAlways(clock, steps);
    var m, t := RunMachine(Start(clock), steps), item.lock.taskId;
    assert ItemFits(m, m.scans[k], item);
    if t in m.tables.tasks {
      TaskFence.FenceIsOwnRow(m.tables, t, r, m.clock);
    }
  }

  // ---------------------------------------------------------------- why claims must be in time

  /** A start, timely or not, touches no lock row, no other task and no expiry that is due. */
  lemma StartFrame(m: Machine, r: RunnerId, t: TaskId)
    requires Invariant(m) && r in m.claims && m.claims[r].stage.Starting? && m.tables.PendingTask(m.claims[r].t)
    ensures var m' := Next(m, Advance(r));
            && (BeingExpired(m', t) <==> BeingExpired(m, t))
            && (m'.tables.RunningTask(t) <==> t == m.claims[r].t || m.tables.RunningTask(t))
            && (t != m.claims[r].t && m.tables.RunningTask(t) ==> (Named(m'.tables, t) <==> Named(m.tables, t)))
  {
    var m' := Next(m, Advance(r));
    if BeingExpired(m, t) {
      var x :| x in m.claims && m.claims[x].stage == Marking(t);
      assert x in m'.claims && m'.claims[x].stage == Marking(t);
    }
  }

  /**
   The compare-and-set does not look at the lock. Whenever it runs, it leaves no orphan exactly when
   the row under the claimed key still names this claim, or another claim is about to expire the task.
   */
  lemma StartIsSafeIffStillNamed(m: Machine, r: RunnerId)
    requires Invariant(m) && r in m.claims && m.claims[r].stage.Starting? && m.tables.PendingTask(m.claims[r].t)
    ensures var c := m.claims[r];
            NoOrphans(Next(m, Advance(r)))
            <==> (c.slot in m.tables.locks && m.tables.locks[c.slot].Names(c.t, r)) || BeingExpired(m, c.t)
  {
    assert ClaimFits(m, r);
    var c, m' := m.claims[r], Next(m, Advance(r));
    forall t
      ensures m'.tables.RunningTask(t) && t != c.t ==> Named(m'.tables, t) || BeingExpired(m', t)
    {
      StartFrame(m, r, t);
    }
    StartFrame(m, r, c.t);
  }
}
