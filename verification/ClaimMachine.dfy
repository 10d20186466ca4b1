/**
 Claims and expiry scans broken into their single statements. A claim reads the pending task, inserts or
 steals the lock, marks the previous task expired, and only then compares-and-sets its own task to
 running; a scan reads stale locks, then marks and deletes them one by one. All of it interleaves with
 renewals, completions, requeues, retirement and every export and operation statement.
 */
module ClaimMachine {
  import opened TaskTables
  import opened TaskStatements

  datatype Stage = Inserting | Looking | Stealing(seen: TaskId) | Marking(expired: TaskId) | Starting | Dropping {
    /** The lock has been taken by this claim. */
    predicate Holding() { Marking? || Starting? || Dropping? }
  }

  /** The local variables of a claim in flight. */
  datatype Claim = Claim(t: TaskId, slot: Slot, now: int, until: int, stage: Stage)

  datatype Item = Item(slot: Slot, lock: Lock)

  /** A scan of one lock table: the stale rows it read, before and after they were marked. */
  datatype Scan = Scan(scoped: bool, now: int, todo: set<Item>, marked: set<Item>)

  /** A runner makes one claim at a time. `owed` are lock releases that completed tasks still have to send. */
  datatype Machine = Machine(tables: Tables, clock: int, claims: map<RunnerId, Claim>, scans: map<int, Scan>,
                             owed: set<(TaskId, RunnerId)>)

  datatype Step =
    | Tick(to: int)
    | Begin(r: RunnerId, t: TaskId, until: int)
    | Advance(r: RunnerId)
    | Renew(scoped: bool, t: TaskId, r: RunnerId, read: int, until: int)
    | Complete(t: TaskId, r: RunnerId, read: int, ok: bool, result: string, error: string)
    | ReleaseOwed(t: TaskId, r: RunnerId)
    | BeginScan(k: int, scoped: bool)
    | ScanMark(k: int, item: Item)
    | ScanDelete(k: int, item: Item)
    | Other(c: Statement)

  function StaleItems(s: Tables, scoped: bool, now: int): set<Item> {
    set k | k in s.locks && k.ScopeSlot? == scoped && s.locks[k].lockedUntil < now :: Item(k, s.locks[k])
  }

  /** The next statement of a claim. Leaving the map means the claim has returned. */
  function AdvanceClaim(m: Machine, r: RunnerId): Machine
    requires r in m.claims
  {
    var c, s := m.claims[r], m.tables;
    match c.stage
    case Inserting =>
      if c.slot !in s.locks then
        m.(tables := InsertLock(s, c.slot, c.t, r, c.now, c.until), claims := m.claims[r := c.(stage := Starting)])
      else m.(claims := m.claims[r := c.(stage := Looking)])
    case Looking =>
      if !Stealable(s, c.slot, c.now) then m.(claims := m.claims - {r})
      else m.(claims := m.claims[r := c.(stage := Stealing(s.locks[c.slot].taskId))])
    case Stealing(seen) =>
      if !Stealable(s, c.slot, c.now) then m.(claims := m.claims - {r})
      else m.(tables := StealLock(s, c.slot, c.t, r, c.now, c.until),
              claims := m.claims[r := c.(stage := if seen != c.t then Marking(seen) else Starting)])
    case Marking(expired) =>
      m.(tables := MarkExpired(s, expired, m.clock), claims := m.claims[r := c.(stage := Starting)])
    case Starting =>
      if s.PendingTask(c.t) then m.(tables := StartRun(s, c.t, r, c.now), claims := m.claims - {r})
      else m.(claims := m.claims[r := c.(stage := Dropping)])
    case Dropping =>
      m.(tables := Release(s, c.t, r), claims := m.claims - {r})
  }

  function Next(m: Machine, step: Step): Machine
    requires Enabled(m, step)
  {
    var s := m.tables;
    match step
    case Tick(to) => m.(clock := to)
    case Begin(r, t, until) =>
      m.(claims := m.claims[r := Claim(t, s.tasks[t].family.Slot(), m.clock, until, Inserting)])
    case Advance(r) => AdvanceClaim(m, r)
    case Renew(scoped, t, r, read, until) => m.(tables := RenewRows(s, scoped, t, r, read, until))
    case Complete(t, r, read, ok, result, error) =>
      if LeaseHeld(s, t, r, read) then
        m.(tables := Completed(s, t, r, read, ok, result, error), owed := m.owed + {(t, r)})
      else m
    case ReleaseOwed(t, r) => m.(tables := Release(s, t, r), owed := m.owed - {(t, r)})
    case BeginScan(k, scoped) => m.(scans := m.scans[k := Scan(scoped, m.clock, StaleItems(s, scoped, m.clock), {})])
    case ScanMark(k, item) =>
      m.(tables := MarkExpired(s, item.lock.taskId, m.clock),
         scans := m.scans[k := m.scans[k].(todo := m.scans[k].todo - {item}, marked := m.scans[k].marked + {item})])
    case ScanDelete(k, item) =>
      m.(tables := DropStale(s, item.slot, item.lock.taskId, item.lock.lockedBy, m.scans[k].now),
         scans := m.scans[k := m.scans[k].(marked := m.scans[k].marked - {item})])
    case Other(c) => m.(tables := Apply(s, c))
  }

  /** Statements that belong to none of the multi-statement operations above. */
  predicate Standalone(c: Statement) {
    c.Queue? ==> c.q.DoCreate? || c.q.DoSaveState? || c.q.DoRequeue? || c.q.DoRetire?
  }

  /** What the programs themselves guarantee: program order, and a clock that does not run backwards. */
  predicate Enabled(m: Machine, step: Step) {
    var s := m.tables;
    match step
    case Tick(to) => m.clock <= to
    case Begin(r, t, _) => r !in m.claims && s.PendingTask(t)
    case Advance(r) => r in m.claims
    case Renew(_, _, _, _, _) => true
    case Complete(_, _, _, _, _, _) => true
    case ReleaseOwed(t, r) => (t, r) in m.owed
    case BeginScan(k, _) => k !in m.scans
    case ScanMark(k, item) => k in m.scans && item in m.scans[k].todo
    case ScanDelete(k, item) => k in m.scans && item in m.scans[k].marked
    case Other(c) => Standalone(c) && Legal(s, c)
  }

  /**
   What the 60 second lease is meant to provide: a claim that writes the lock or starts the task
   does so no later than its own lock time, and a renewal never shortens a lease.
   */
  predicate Timely(m: Machine, step: Step)
    requires Enabled(m, step)
  {
    match step
    case Advance(r) =>
      var c := m.claims[r];
      c.stage.Inserting? || c.stage.Stealing? || c.stage.Starting? ==> m.clock <= c.until
    case Renew(scoped, t, r, read, until) =>
      forall k :: k in m.tables.locks && Renewable(k, m.tables.locks[k], scoped, t, r, read) ==>
        m.tables.locks[k].lockedUntil <= until
    case _ => true
  }

  function Start(clock: int): Machine {
    Machine(EMPTY, clock, map[], map[], {})
  }

  /** A run of the machine; a step that its program would not take is skipped. */
  function RunMachine(m: Machine, steps: seq<Step>): Machine {
    if steps == [] then m
    else
      var before, step := RunMachine(m, steps[..|steps| - 1]), steps[|steps| - 1];
      if Enabled(before, step) then Next(before, step) else before
  }

  predicate TimelyRun(m: Machine, steps: seq<Step>) {
    steps == []
    || (var before, step := RunMachine(m, steps[..|steps| - 1]), steps[|steps| - 1];
        TimelyRun(m, steps[..|steps| - 1]) && (Enabled(before, step) ==> Timely(before, step)))
  }

  /** The statements a step sends. */
  function StatementsOf(m: Machine, step: Step): seq<Statement>
    requires Enabled(m, step)
  {
    var s := m.tables;
    match step
    case Advance(r) =>
      var c := m.claims[r];
      (match c.stage
       case Inserting => if c.slot !in s.locks then [Queue(DoInsertLock(c.slot, c.t, r, c.now, c.until))] else []
       case Looking => []
       case Stealing(_) =>
         if Stealable(s, c.slot, c.now) then [Queue(DoStealLock(c.slot, c.t, r, c.now, c.until))] else []
       case Marking(expired) => [Queue(DoMarkExpired(expired, m.clock))]
       case Starting => if s.PendingTask(c.t) then [Queue(DoStartRun(c.t, r, c.now))] else []
       case Dropping => [Queue(DoDropRows(!HasRow(s, false, c.t, r), c.t, r))])
    case Renew(scoped, t, r, read, until) => [Queue(DoRenewRows(scoped, t, r, read, until))]
    case Complete(t, r, read, ok, result, error) => [Queue(DoComplete(t, r, read, ok, result, error))]
    case ReleaseOwed(t, r) => [Queue(DoDropRows(!HasRow(s, false, t, r), t, r))]
    case ScanMark(_, item) => [Queue(DoMarkExpired(item.lock.taskId, m.clock))]
    case ScanDelete(k, item) => [Queue(DoDropStale(item.slot, item.lock.taskId, item.lock.lockedBy, m.scans[k].now))]
    case Other(c) => [c]
    case _ => []
  }

  /**
   Every step is at most one legal statement, so what holds of all interleavings of statements holds of the machine.
   */
  lemma StepsAreStatements(m: Machine, step: Step)
    requires Enabled(m, step)
    ensures var cs := StatementsOf(m, step);
            |cs| <= 1 && LegalRun(m.tables, cs) && Next(m, step).tables == Run(m.tables, cs)
  {
    var cs := StatementsOf(m, step);
    if cs != [] {
      assert cs[..|cs| - 1] == [];
      assert LegalRun(m.tables, []) && Legal(m.tables, cs[0]);
      assert Run(m.tables, cs) == Apply(m.tables, cs[0]);
    }
  }
}
