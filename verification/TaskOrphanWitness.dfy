/**
 Runs of the very same programs that show what the hypotheses are for: a start that comes late, a claimer that
 dies before its mark, and a scan that expires a task whose lease is live.
 */
module TaskOrphanWitness {
  import opened TaskTables
  import opened TaskStatements
  import opened ClaimMachine
  import opened TaskOrphans

  /** A timely run leads from one state to the other. */
  ghost predicate Leads(m: Machine, end: Machine) {
    exists steps :: RunMachine(m, steps) == end && TimelyRun(m, steps)
  }

  /** One more step. */
  lemma LeadsOn(m: Machine, n: Machine, step: Step)
    requires Leads(m, n) && Enabled(n, step) && Timely(n, step)
    ensures Leads(m, Next(n, step))
  {
    var steps :| RunMachine(m, steps) == n && TimelyRun(m, steps);
    assert (steps + [step])[..|steps + [step]| - 1] == steps;
    assert RunMachine(m, steps + [step]) == Next(n, step);
  }

  lemma {:induction false} StepsJoin(m: Machine, first: seq<Step>, second: seq<Step>)
    requires TimelyRun(m, first) && TimelyRun(RunMachine(m, first), second)
    ensures TimelyRun(m, first + second) && RunMachine(m, first + second) == RunMachine(RunMachine(m, first), second)
  {
    var all := first + second;
    if second == [] {
      assert all == first;
    } else {
      assert all[..|all| - 1] == first + second[..|second| - 1];
      StepsJoin(m, first, second[..|second| - 1]);
    }
  }

  lemma LeadsThrough(m: Machine, n: Machine, end: Machine)
    requires Leads(m, n) && Leads(n, end)
    ensures Leads(m, end)
  {
    var first :| RunMachine(m, first) == n && TimelyRun(m, first);
    var second :| RunMachine(n, second) == end && TimelyRun(n, second);
    StepsJoin(m, first, second);
  }

  /** Claim q stands at the given stage. */
  function At(n: Machine, q: RunnerId, c: Claim, stage: Stage): Machine {
    n.(claims := n.claims[q := c.(stage := stage)])
  }

  /** Claim c holds its lock row. */
  function Holds(n: Machine, q: RunnerId, c: Claim): Machine {
    n.(tables := n.tables.(locks := n.tables.locks[c.slot := Lock(c.t, q, c.until, c.now)]))
  }

  function NewClaim(n: Machine, t: TaskId): Claim
    requires t in n.tables.tasks
  {
    Claim(t, n.tables.tasks[t].family.Slot(), n.clock, n.clock + 60, Inserting)
  }

  /** A claimer takes a free lock. */
  lemma TakesLock(m: Machine, n: Machine, a: TaskId, p: RunnerId)
    requires Leads(m, n) && p !in n.claims && n.tables.PendingTask(a)
    requires var c := NewClaim(n, a); c.slot !in n.tables.locks && MayRecord(n.tables, c.slot, a)
    ensures Leads(m, At(Holds(n, p, NewClaim(n, a)), p, NewClaim(n, a), Starting))
  {
    var c := NewClaim(n, a);
    LeadsOn(m, n, Begin(p, a, n.clock + 60));
    assert Next(n, Begin(p, a, n.clock + 60)) == At(n, p, c, Inserting);
    LeadsOn(m, At(n, p, c, Inserting), Advance(p));
    assert Next(At(n, p, c, Inserting), Advance(p)) == At(Holds(n, p, c), p, c, Starting);
  }

  /** A claimer of b finds the lapsed row of a. */
  lemma FindsLapsedRow(m: Machine, n: Machine, a: TaskId, b: TaskId, q: RunnerId)
    requires Leads(m, n) && q !in n.claims && n.tables.PendingTask(b)
    requires var slot := NewClaim(n, b).slot; Stealable(n.tables, slot, n.clock) && n.tables.locks[slot].taskId == a
    ensures Leads(m, At(n, q, NewClaim(n, b), Stealing(a)))
  {
    var c := NewClaim(n, b);
    LeadsOn(m, n, Begin(q, b, n.clock + 60));
    assert Next(n, Begin(q, b, n.clock + 60)) == At(n, q, c, Inserting);
    LeadsOn(m, At(n, q, c, Inserting), Advance(q));
    assert Next(At(n, q, c, Inserting), Advance(q)) == At(n, q, c, Looking);
    LeadsOn(m, At(n, q, c, Looking), Advance(q));
    assert Next(At(n, q, c, Looking), Advance(q)) == At(n, q, c, Stealing(a));
  }

  /** It steals the row. */
  lemma StealsRow(m: Machine, n: Machine, a: TaskId, q: RunnerId, c: Claim)
    requires Leads(m, At(n, q, c, Stealing(a))) && n.clock <= c.until
    requires Stealable(n.tables, c.slot, c.now) && MayRecord(n.tables, c.slot, c.t)
    ensures Leads(m, At(Holds(n, q, c), q, c, if a != c.t then Marking(a) else Starting))
  {
    LeadsOn(m, At(n, q, c, Stealing(a)), Advance(q));
    var stage := if a != c.t then Marking(a) else Starting;
    assert Next(At(n, q, c, Stealing(a)), Advance(q)) == At(Holds(n, q, c), q, c, stage);
  }

  /** When the row's task is still pending, expiring it changes nothing. */
  lemma Steals(m: Machine, n: Machine, a: TaskId, q: RunnerId, c: Claim)
    requires Leads(m, At(n, q, c, Stealing(a))) && c.now == n.clock <= c.until && a != c.t && n.tables.PendingTask(a)
    requires Stealable(n.tables, c.slot, n.clock) && MayRecord(n.tables, c.slot, c.t)
    ensures Leads(m, At(Holds(n, q, c), q, c, Starting))
  {
    StealsRow(m, n, a, q, c);
    LeadsOn(m, At(Holds(n, q, c), q, c, Marking(a)), Advance(q));
    assert Next(At(Holds(n, q, c), q, c, Marking(a)), Advance(q)) == At(Holds(n, q, c), q, c, Starting);
  }

  lemma Starts(m: Machine, n: Machine, q: RunnerId, c: Claim)
    requires Leads(m, At(n, q, c, Starting)) && q !in n.claims && n.tables.PendingTask(c.t) && n.clock <= c.until
    ensures Leads(m, n.(tables := StartRun(n.tables, c.t, q, c.now)))
  {
    LeadsOn(m, At(n, q, c, Starting), Advance(q));
    assert At(n, q, c, Starting).claims - {q} == n.claims;
  }

  /** The whole claim of b over the lapsed row of a pending task. */
  lemma Overtakes(m: Machine, n: Machine, a: TaskId, b: TaskId, q: RunnerId) returns (end: Machine)
    requires Leads(m, n) && q !in n.claims && n.tables.PendingTask(a) && n.tables.PendingTask(b) && a != b
    requires var slot := NewClaim(n, b).slot;
             Stealable(n.tables, slot, n.clock) && n.tables.locks[slot].taskId == a && MayRecord(n.tables, slot, b)
    ensures Leads(m, end) && end.claims == n.claims && end.tables.tasks.Keys == n.tables.tasks.Keys
    ensures end.tables.RunningTask(b) && end.tables.tasks[a] == n.tables.tasks[a]
    ensures var slot := NewClaim(n, b).slot; slot in end.tables.locks && end.tables.locks[slot].taskId == b
  {
    var d := NewClaim(n, b);
    FindsLapsedRow(m, n, a, b, q);
    Steals(m, n, a, q, d);
    Starts(m, Holds(n, q, d), q, d);
    end := Holds(n, q, d).(tables := StartRun(Holds(n, q, d).tables, b, q, d.now));
  }

  ghost predicate Orphan(m: Machine, t: TaskId) {
    m.tables.RunningTask(t) && !Named(m.tables, t) && !BeingExpired(m, t)
  }

  /** The sleeper wakes up and starts its task under a lock that is no longer its own. */
  lemma WakesUp(n: Machine, a: TaskId, b: TaskId, p: RunnerId, c: Claim)
    requires n.claims == map[p := c] && c.t == a && c.stage == Starting && a != b
    requires n.tables.PendingTask(a) && n.tables.RunningTask(b)
    requires var slot := n.tables.tasks[a].family.Slot(); slot in n.tables.locks && n.tables.locks[slot].taskId == b
    ensures Orphan(Next(n, Advance(p)), a) && Next(n, Advance(p)).tables.RunningTask(b)
  {
    assert Next(n, Advance(p)).claims == map[];
  }

  /** A claimer takes a free lock and sleeps for longer than its lease. */
  lemma FallsAsleep(m: Machine, a: TaskId, p: RunnerId)
    requires m.claims == map[] && m.tables.PendingTask(a)
    requires var c := NewClaim(m, a); c.slot !in m.tables.locks && MayRecord(m.tables, c.slot, a)
    ensures var c := NewClaim(m, a); Leads(m, At(Holds(m, p, c), p, c, Starting).(clock := m.clock + 61))
  {
    assert RunMachine(m, []) == m && TimelyRun(m, []);
    var c := NewClaim(m, a);
    TakesLock(m, m, a, p);
    LeadsOn(m, At(Holds(m, p, c), p, c, Starting), Tick(m.clock + 61));
  }

  /**
   Without the hypothesis on claims, from every state with two pending tasks under one free lock the
   programs can reach one where both run under that lock, one of them orphaned: the first claimer
   pauses for longer than its lease between taking the lock and starting. Only its last step is late.
   */
  lemma LateStartOrphans(m: Machine, a: TaskId, b: TaskId, p: RunnerId, q: RunnerId)
    requires Invariant(m) && m.tables.PendingTask(a) && m.tables.PendingTask(b) && a != b && p != q && m.claims == map[]
    requires m.tables.tasks[a].family == m.tables.tasks[b].family && m.tables.tasks[a].family.Slot() !in m.tables.locks
    ensures exists n :: Leads(m, n) && Enabled(n, Advance(p))
                        && Orphan(Next(n, Advance(p)), a) && Next(n, Advance(p)).tables.RunningTask(b)
  {
    var c := NewClaim(m, a);
    assert MayRecord(m.tables, c.slot, a) && MayRecord(m.tables, c.slot, b);
    FallsAsleep(m, a, p);
    var n := Overtakes(m, At(Holds(m, p, c), p, c, Starting).(clock := m.clock + 61), a, b, q);
    WakesUp(n, a, b, p, c.(stage := Starting));
  }

  /** The claimer r is gone for good. */
  function Crashed(m: Machine, r: RunnerId): Machine {
    m.(claims := m.claims - {r})
  }

  /**
   What a crash leaves behind: there is no orphan unless the claimer died before its mark of a running task that no row
   names and that no other claim is about to expire.
   */
  lemma CrashOrphansIff(m: Machine, r: RunnerId)
    requires Invariant(m) && r in m.claims
    ensures var stage := m.claims[r].stage;
            NoOrphans(Crashed(m, r))
            <==> (stage.Marking? && m.tables.RunningTask(stage.expired) ==>
                    Named(m.tables, stage.expired)
                    || exists q :: q in m.claims && q != r && m.claims[q].stage == Marking(stage.expired))
  {
    var n := Crashed(m, r);
    forall t
      ensures BeingExpired(n, t) <==> exists q :: q in m.claims && q != r && m.claims[q].stage == Marking(t)
      ensures BeingExpired(m, t) <==> BeingExpired(n, t) || m.claims[r].stage == Marking(t)
    {
      if BeingExpired(m, t) && m.claims[r].stage != Marking(t) {
        var q :| q in m.claims && m.claims[q].stage == Marking(t);
        assert q in n.claims;
      }
      if q :| q in m.claims && q != r && m.claims[q].stage == Marking(t) {
        assert q in n.claims;
      }
    }
  }

  /** A claim of b over the lapsed row of a comes as far as the mark. */
  lemma ReachesMark(m: Machine, a: TaskId, b: TaskId, q: RunnerId)
    requires m.claims == map[] && m.tables.PendingTask(b) && a != b
    requires var slot := NewClaim(m, b).slot;
             Stealable(m.tables, slot, m.clock) && m.tables.locks[slot].taskId == a && MayRecord(m.tables, slot, b)
    ensures Leads(m, At(Holds(m, q, NewClaim(m, b)), q, NewClaim(m, b), Marking(a)))
  {
    assert RunMachine(m, []) == m && TimelyRun(m, []);
    FindsLapsedRow(m, m, a, b, q);
    StealsRow(m, m, a, q, NewClaim(m, b));
  }

  /**
   A claimer that dies between stealing a lock and expiring the task it stole it from leaves an orphan that no scan
   can find, because no lock row names it any more. Up to the crash the run is timely.
   */
  lemma CrashAfterStealOrphans(m: Machine, a: TaskId, b: TaskId, q: RunnerId)
    requires Invariant(m) && m.tables.RunningTask(a) && m.tables.PendingTask(b) && m.claims == map[]
    requires m.tables.tasks[a].family == m.tables.tasks[b].family
    requires var slot := m.tables.tasks[a].family.Slot();
             Stealable(m.tables, slot, m.clock) && m.tables.locks[slot].taskId == a
    ensures exists n :: Leads(m, n) && q in n.claims && n.claims[q].stage == Marking(a) && Orphan(Crashed(n, q), a)
                        && forall j :: j in n.tables.locks ==> n.tables.locks[j].taskId != a
  {
    assert MayRecord(m.tables, NewClaim(m, b).slot, b);
    ReachesMark(m, a, b, q);
    var n := At(Holds(m, q, NewClaim(m, b)), q, NewClaim(m, b), Marking(a));
    assert Crashed(n, q).claims == map[];
    assert Orphan(Crashed(n, q), a);
  }

  /** The task is taken up again under its own lapsed row, which another runner left behind. */
  lemma TakesUpAgain(m: Machine, n: Machine, t: TaskId, r: RunnerId)
    requires Leads(m, n) && r !in n.claims && n.tables.PendingTask(t)
    requires var slot := NewClaim(n, t).slot;
             Stealable(n.tables, slot, n.clock) && n.tables.locks[slot].taskId == t && MayRecord(n.tables, slot, t)
    ensures var c := NewClaim(n, t);
            Leads(m, n.(tables := StartRun(Holds(n, r, c).tables, t, r, c.now)))
  {
    var c := NewClaim(n, t);
    FindsLapsedRow(m, n, t, t, r);
    StealsRow(m, n, t, r, c);
    Starts(m, Holds(n, r, c), r, c);
  }

  /** Marking an item fails its running task. */
  lemma MarkFails(n: Machine, k: int, item: Item)
    requires Enabled(n, ScanMark(k, item)) && n.tables.RunningTask(item.lock.taskId)
    requires n.tables.tasks[item.lock.taskId].family.taskType !in {USAGE_EXPORT, ACCOUNT_SYNC}
    ensures item.lock.taskId in Next(n, ScanMark(k, item)).tables.tasks
    ensures Next(n, ScanMark(k, item)).tables.tasks[item.lock.taskId].status.Failed?
  {
  }

  /** A scan reads the stale row under a slot. */
  lemma ReadsStaleRow(m: Machine, k: int, slot: Slot)
    requires k !in m.scans && Stealable(m.tables, slot, m.clock)
    ensures var begun := Next(m, BeginScan(k, slot.ScopeSlot?));
            && begun == m.(scans := begun.scans) && k in begun.scans
            && Item(slot, m.tables.locks[slot]) in begun.scans[k].todo
  {
  }

  /** The scan reads, the task is taken up again: the scan's next mark meets a live lease. */
  lemma ScanMeetsLiveLease(m: Machine, t: TaskId, r: RunnerId, k: int, slot: Slot) returns (n: Machine)
    requires m.tables.PendingTask(t) && r !in m.claims && k !in m.scans && slot == m.tables.tasks[t].family.Slot()
    requires Stealable(m.tables, slot, m.clock) && m.tables.locks[slot].taskId == t && MayRecord(m.tables, slot, t)
    ensures Leads(m, n) && Enabled(n, ScanMark(k, Item(slot, m.tables.locks[slot])))
    ensures n.tables.RunningTask(t) && n.tables.tasks[t].family == m.tables.tasks[t].family
    ensures n.tables.tasks[t].lockedBy == r && slot in n.tables.locks
            && n.tables.locks[slot] == Lock(t, r, n.clock + 60, n.clock)
  {
    assert RunMachine(m, []) == m && TimelyRun(m, []);
    var begun := Next(m, BeginScan(k, slot.ScopeSlot?));
    LeadsOn(m, m, BeginScan(k, slot.ScopeSlot?));
    ReadsStaleRow(m, k, slot);
    TakesUpAgain(m, begun, t, r);
    var c := NewClaim(begun, t);
    n := begun.(tables := StartRun(Holds(begun, r, c).tables, t, r, c.now));
  }

  /**
   A scan that read the row of a pending task just before the task was taken up again expires it although its new
   lease has a minute left: every step is timely, and the fence passed right before.
   */
  lemma ScanHitsLiveLease(m: Machine, t: TaskId, r: RunnerId, k: int)
    requires Invariant(m) && m.tables.PendingTask(t) && r !in m.claims && k !in m.scans
    requires m.tables.tasks[t].family.taskType !in {USAGE_EXPORT, ACCOUNT_SYNC} && r != "" && t != ""
    requires var slot := m.tables.tasks[t].family.Slot();
             Stealable(m.tables, slot, m.clock) && m.tables.locks[slot].taskId == t
    ensures exists n, item :: Leads(m, n) && Enabled(n, ScanMark(k, item))
              && RequireValidLease(n.tables, t, r, n.clock + 60)
              && t in Next(n, ScanMark(k, item)).tables.tasks
              && Next(n, ScanMark(k, item)).tables.tasks[t].status.Failed?
  {
    var slot := m.tables.tasks[t].family.Slot();
    assert MayRecord(m.tables, slot, t);
    var n := ScanMeetsLiveLease(m, t, r, k, slot);
    MarkFails(n, k, Item(slot, m.tables.locks[slot]));
  }

  // ---------------------------------------------------------------- the same from the empty tables

  /** The next task of a type is put on the queue. */
  function Queued(n: Machine, t: TaskId, taskType: string): Machine {
    n.(tables := Created(n.tables, t, Origin(Family(taskType, ""), false), "", n.clock))
  }

  lemma Queues(m: Machine, n: Machine, t: TaskId, taskType: string)
    requires Leads(m, n) && t != "" && t !in n.tables.issued
    ensures Leads(m, Queued(n, t, taskType))
  {
    var step := Other(Statement.Queue(DoCreate(t, Origin(Family(taskType, ""), false), "", n.clock)));
    LeadsOn(m, n, step);
    assert Next(n, step) == Queued(n, t, taskType);
  }

  lemma LeadsKeepsInvariant(clock: int, n: Machine)
    requires Leads(Start(clock), n)
    ensures Invariant(n)
  {
    var steps :| RunMachine(Start(clock), steps) == n && TimelyRun(Start(clock), steps);
    InvariantAlways(clock, steps);
  }

  /** Two tasks of one type are queued. */
  lemma QueuesTwo(clock: int, taskType: string, a: TaskId, b: TaskId) returns (m: Machine)
    requires a != b && a != "" && b != ""
    ensures Leads(Start(clock), m) && m.clock == clock && m.claims == map[] && m.scans == map[]
    ensures m.tables.PendingTask(a) && m.tables.PendingTask(b) && m.tables.locks == map[]
    ensures a in m.tables.issued && b in m.tables.issued
    ensures m.tables.tasks[a].family == m.tables.issued[a].family == Family(taskType, "")
    ensures m.tables.tasks[b].family == m.tables.issued[b].family == Family(taskType, "")
  {
    assert RunMachine(Start(clock), []) == Start(clock) && TimelyRun(Start(clock), []);
    Queues(Start(clock), Start(clock), a, taskType);
    Queues(Start(clock), Queued(Start(clock), a, taskType), b, taskType);
    m := Queued(Queued(Start(clock), a, taskType), b, taskType);
  }

  /** So the late start happens for two queued tasks of any type. */
  lemma LateStartHappens(clock: int, taskType: string, a: TaskId, b: TaskId, p: RunnerId, q: RunnerId)
    requires a != b && a != "" && b != "" && p != q
    ensures exists n :: Leads(Start(clock), n) && Enabled(n, Advance(p))
                        && Orphan(Next(n, Advance(p)), a) && Next(n, Advance(p)).tables.RunningTask(b)
  {
    var m := QueuesTwo(clock, taskType, a, b);
    LeadsKeepsInvariant(clock, m);
    LateStartOrphans(m, a, b, p, q);
    var n :| Leads(m, n) && Enabled(n, Advance(p))
             && Orphan(Next(n, Advance(p)), a) && Next(n, Advance(p)).tables.RunningTask(b);
    LeadsThrough(Start(clock), m, n);
  }

  /** And so does the crash, after the first of them was started and its lease ran out. */
  lemma CrashHappens(clock: int, taskType: string, a: TaskId, b: TaskId, p: RunnerId, q: RunnerId)
    requires a != b && a != "" && b != ""
    ensures exists n :: Leads(Start(clock), n) && q in n.claims && n.claims[q].stage == Marking(a)
                        && Orphan(Crashed(n, q), a) && forall j :: j in n.tables.locks ==> n.tables.locks[j].taskId != a
  {
    var m := QueuesTwo(clock, taskType, a, b);
    var c := NewClaim(m, a);
    TakesLock(Start(clock), m, a, p);
    Starts(Start(clock), Holds(m, p, c), p, c);
    var started := m.(tables := StartRun(Holds(m, p, c).tables, a, p, c.now));
    LeadsOn(Start(clock), started, Tick(clock + 61));
    var lapsed := started.(clock := clock + 61);
    assert Stealable(lapsed.tables, c.slot, lapsed.clock) && lapsed.tables.locks[c.slot].taskId == a;
    LeadsKeepsInvariant(clock, lapsed);
    CrashAfterStealOrphans(lapsed, a, b, q);
    var n :| Leads(lapsed, n) && q in n.claims && n.claims[q].stage == Marking(a)
             && Orphan(Crashed(n, q), a) && forall j :: j in n.tables.locks ==> n.tables.locks[j].taskId != a;
    LeadsThrough(Start(clock), lapsed, n);
  }

  /**
   And so does the scan that expires a live lease, for a task of any type but the two that are only sent back: its
   first claimer p died between taking the lock and starting it.
   */
  lemma LiveLeaseIsHit(clock: int, taskType: string, t: TaskId, p: RunnerId, r: RunnerId, k: int)
    requires taskType !in {USAGE_EXPORT, ACCOUNT_SYNC} && t != "" && r != "" && p != r
    ensures exists n, item :: Leads(Start(clock), n) && Enabled(n, ScanMark(k, item))
              && RequireValidLease(n.tables, t, r, n.clock + 60)
              && t in Next(n, ScanMark(k, item)).tables.tasks
              && Next(n, ScanMark(k, item)).tables.tasks[t].status.Failed?
  {
    var start := Start(clock);
    assert RunMachine(start, []) == start && TimelyRun(start, []);
    Queues(start, start, t, taskType);
    var m := Queued(start, t, taskType);
    var c := NewClaim(m, t);
    TakesLock(start, m, t, p);
    var held := At(Holds(m, p, c), p, c, Starting);
    LeadsOn(start, held, Tick(clock + 61));
    var lapsed := held.(clock := clock + 61);
    assert Stealable(lapsed.tables, c.slot, lapsed.clock) && lapsed.tables.locks[c.slot].taskId == t;
    LeadsKeepsInvariant(clock, lapsed);
    ScanHitsLiveLease(lapsed, t, r, k);
    var n, item :| Leads(lapsed, n) && Enabled(n, ScanMark(k, item))
      && RequireValidLease(n.tables, t, r, n.clock + 60)
      && t in Next(n, ScanMark(k, item)).tables.tasks && Next(n, ScanMark(k, item)).tables.tasks[t].status.Failed?;
    LeadsThrough(start, lapsed, n);
  }
}
