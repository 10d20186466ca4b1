/** Locks are given back: a lock row always has a claim, a run or a pending release that will delete it. */
module TaskLocks {
  import opened TaskTables
  import opened TaskStatements
  import opened ClaimMachine
  import opened TaskOrphans

  predicate HasLock(s: Tables, t: TaskId, r: RunnerId) {
    exists k :: k in s.locks && s.locks[k].Names(t, r)
  }

  /** The runner's claim holds the lock, the task runs for it, or the release of its finished task is still to come. */
  predicate Answerable(m: Machine, t: TaskId, r: RunnerId) {
    || (r in m.claims && m.claims[r].t == t && m.claims[r].stage.Holding())
    || (m.tables.RunningTask(t) && m.tables.tasks[t].lockedBy == r)
    || (t, r) in m.owed
  }

  predicate Accounted(m: Machine, t: TaskId, r: RunnerId) {
    HasLock(m.tables, t, r) ==> Answerable(m, t, r)
  }

  /** Somebody else ends the task's run: its lease is expired, or the export it belongs to is deleted. */
  predicate EndsRun(m: Machine, step: Step, t: TaskId) {
    match step
    case Advance(r) => r in m.claims && m.claims[r].stage == Marking(t)
    case ScanMark(_, item) => item.lock.taskId == t
    case Other(Exports(DoDeleteExport(u, _, _))) => u == t
    case _ => false
  }

  /** An export requeue names an export. */
  predicate RequeuesExport(m: Machine, step: Step) {
    step.Other? && step.c.Exports? && step.c.e.DoRequeueExport? ==> step.c.e.t in m.tables.exports
  }

  /** Locks and claims lie under the key their task's columns give. */
  ghost predicate Placed(m: Machine) {
    && RowsFit(m.tables) && OwnSlots(m.tables)
    && forall r :: r in m.claims ==>
         m.claims[r].t in m.tables.issued && m.claims[r].slot == m.tables.issued[m.claims[r].t].family.Slot()
  }

  lemma ReleaseTakesAll(s: Tables, t: TaskId, r: RunnerId)
    requires OwnSlots(s)
    ensures !HasLock(Release(s, t, r), t, r)
    ensures forall u, q :: HasLock(Release(s, t, r), u, q) ==> HasLock(s, u, q)
  {
  }

  /** The claim has written its lock. */
  function Taken(m: Machine, a: RunnerId, stage: Stage): Machine
    requires a in m.claims
  {
    var c := m.claims[a];
    m.(tables := m.tables.(locks := m.tables.locks[c.slot := Lock(c.t, a, c.until, c.now)]),
       claims := m.claims[a := c.(stage := stage)])
  }

  lemma TakingKeeps(m: Machine, a: RunnerId, stage: Stage, t: TaskId, r: RunnerId)
    requires a in m.claims && Accounted(m, t, r) && !m.claims[a].stage.Holding() && stage.Holding()
    ensures Accounted(Taken(m, a, stage), t, r)
  {
    assert HasLock(Taken(m, a, stage).tables, t, r) ==> HasLock(m.tables, t, r) || (m.claims[a].t == t && a == r);
  }

  lemma TakingKeepsPlaced(m: Machine, a: RunnerId, stage: Stage)
    requires Placed(m) && a in m.claims && RowsFit(Taken(m, a, stage).tables)
    ensures Placed(Taken(m, a, stage))
  {
  }

  lemma AdvanceWrites(m: Machine, a: RunnerId)
    requires a in m.claims && MayRecord(m.tables, m.claims[a].slot, m.claims[a].t)
    ensures var c := m.claims[a];
            (c.stage.Inserting? && c.slot !in m.tables.locks ==> AdvanceClaim(m, a) == Taken(m, a, Starting))
            && (c.stage.Stealing? && Stealable(m.tables, c.slot, c.now) ==>
                  AdvanceClaim(m, a) == Taken(m, a, if c.stage.seen != c.t then Marking(c.stage.seen) else Starting))
  {
  }

  lemma MarkingKeeps(m: Machine, a: RunnerId, t: TaskId, r: RunnerId)
    requires a in m.claims && m.claims[a].stage.Marking? && m.claims[a].stage.expired != t && Accounted(m, t, r)
    ensures Accounted(AdvanceClaim(m, a), t, r)
  {
    assert AdvanceClaim(m, a).tables.locks == m.tables.locks;
  }

  lemma StartingKeeps(m: Machine, a: RunnerId, t: TaskId, r: RunnerId)
    requires a in m.claims && m.claims[a].stage.Starting? && Accounted(m, t, r)
    ensures Accounted(AdvanceClaim(m, a), t, r)
  {
    assert AdvanceClaim(m, a).tables.locks == m.tables.locks;
  }

  lemma DroppingKeeps(m: Machine, a: RunnerId, t: TaskId, r: RunnerId)
    requires OwnSlots(m.tables) && a in m.claims && m.claims[a].stage.Dropping? && Accounted(m, t, r)
    ensures Accounted(AdvanceClaim(m, a), t, r)
  {
    ReleaseTakesAll(m.tables, m.claims[a].t, a);
  }

  lemma AdvanceKeeps(m: Machine, a: RunnerId, t: TaskId, r: RunnerId)
    requires Placed(m) && a in m.claims && m.claims[a].stage != Marking(t) && Accounted(m, t, r)
    ensures Accounted(AdvanceClaim(m, a), t, r)
  {
    var c := m.claims[a];
    AdvanceWrites(m, a);
    match c.stage
    case Inserting => TakingKeeps(m, a, Starting, t, r);
    case Looking =>
    case Stealing(seen) => TakingKeeps(m, a, if seen != c.t then Marking(seen) else Starting, t, r);
    case Marking(_) => MarkingKeeps(m, a, t, r);
    case Starting => StartingKeeps(m, a, t, r);
    case Dropping => DroppingKeeps(m, a, t, r);
  }

  lemma QueueKeeps(m: Machine, q: QueueStatement, t: TaskId, r: RunnerId)
    requires Placed(m) && Standalone(Queue(q)) && Accounted(m, t, r)
    ensures Accounted(m.(tables := ApplyQueue(m.tables, q)), t, r)
  {
  }

  lemma ExportsKeep(m: Machine, e: ExportStatement, t: TaskId, r: RunnerId)
    requires Placed(m) && Accounted(m, t, r) && !(e.DoDeleteExport? && e.t == t)
    requires e.DoRequeueExport? ==> e.t in m.tables.exports
    ensures Accounted(m.(tables := ApplyExports(m.tables, e)), t, r)
  {
  }

  lemma OperationsKeep(m: Machine, p: OperationStatement, t: TaskId, r: RunnerId)
    requires Placed(m) && Accounted(m, t, r)
    ensures Accounted(m.(tables := ApplyOperations(m.tables, p)), t, r)
  {
  }

  lemma RenewKeeps(m: Machine, step: Step, t: TaskId, r: RunnerId)
    requires Enabled(m, step) && step.Renew? && Accounted(m, t, r)
    ensures Accounted(Next(m, step), t, r)
  {
  }

  lemma CompleteKeeps(m: Machine, step: Step, t: TaskId, r: RunnerId)
    requires Enabled(m, step) && step.Complete? && Accounted(m, t, r)
    ensures Accounted(Next(m, step), t, r)
  {
    assert Next(m, step).tables.locks == m.tables.locks;
  }

  lemma ScanMarkKeeps(m: Machine, step: Step, t: TaskId, r: RunnerId)
    requires Enabled(m, step) && step.ScanMark? && step.item.lock.taskId != t && Accounted(m, t, r)
    ensures Accounted(Next(m, step), t, r)
  {
    assert Next(m, step).tables.locks == m.tables.locks;
  }

  lemma ScanDeleteKeeps(m: Machine, step: Step, t: TaskId, r: RunnerId)
    requires Enabled(m, step) && step.ScanDelete? && Accounted(m, t, r)
    ensures Accounted(Next(m, step), t, r)
  {
  }

  /** A row loses the last one answerable for it only when another process ends its task's run. */
  lemma StepKeepsAccount(m: Machine, step: Step, t: TaskId, r: RunnerId)
    requires Placed(m) && Enabled(m, step) && RequeuesExport(m, step) && !EndsRun(m, step, t) && Accounted(m, t, r)
    ensures Accounted(Next(m, step), t, r)
  {
    match step
    case Advance(a) => AdvanceKeeps(m, a, t, r);
    case ReleaseOwed(u, q) => ReleaseTakesAll(m.tables, u, q);
    case Other(Queue(q)) => QueueKeeps(m, q, t, r);
    case Other(Exports(e)) => ExportsKeep(m, e, t, r);
    case Other(Operations(p)) => OperationsKeep(m, p, t, r);
    case Renew(_, _, _, _, _) => RenewKeeps(m, step, t, r);
    case ScanMark(_, _) => ScanMarkKeeps(m, step, t, r);
    case ScanDelete(_, _) => ScanDeleteKeeps(m, step, t, r);
    case Complete(_, _, _, _, _, _) => CompleteKeeps(m, step, t, r);
    case _ =>
  }

  /** Known tasks keep their family, and every lock row was there for the same task. */
  ghost predicate NothingRecorded(s: Tables, s': Tables) {
    && (forall t :: t in s.issued ==> t in s'.issued && s'.issued[t] == s.issued[t])
    && (forall k :: k in s'.locks ==> k in s.locks && s'.locks[k].taskId == s.locks[k].taskId)
  }

  lemma ReleaseRecordsNothing(s: Tables, t: TaskId, r: RunnerId)
    ensures NothingRecorded(s, Release(s, t, r))
  {
  }

  lemma QueueRecordsNothing(s: Tables, q: QueueStatement)
    requires Standalone(Queue(q))
    ensures NothingRecorded(s, ApplyQueue(s, q))
  {
  }

  lemma ExportsRecordNothing(s: Tables, e: ExportStatement)
    ensures NothingRecorded(s, ApplyExports(s, e))
  {
  }

  lemma OperationsRecordNothing(s: Tables, p: OperationStatement)
    ensures NothingRecorded(s, ApplyOperations(s, p))
  {
  }

  lemma OtherRecordsNothing(s: Tables, c: Statement)
    requires Standalone(c)
    ensures NothingRecorded(s, Apply(s, c))
  {
    match c
    case Queue(q) => QueueRecordsNothing(s, q);
    case Exports(e) => ExportsRecordNothing(s, e);
    case Operations(p) => OperationsRecordNothing(s, p);
  }

  /** A step that records no lock keeps claims and locks in place. */
  lemma StaysPlaced(m: Machine, m': Machine)
    requires Placed(m) && RowsFit(m'.tables) && NothingRecorded(m.tables, m'.tables)
    requires forall r :: r in m'.claims ==>
               r in m.claims && m'.claims[r].t == m.claims[r].t && m'.claims[r].slot == m.claims[r].slot
    ensures Placed(m')
  {
  }

  /** The next statement of the claim writes its lock. */
  predicate Takes(m: Machine, a: RunnerId)
    requires a in m.claims
  {
    var c := m.claims[a];
    (c.stage.Inserting? && c.slot !in m.tables.locks) || (c.stage.Stealing? && Stealable(m.tables, c.slot, c.now))
  }

  lemma AdvanceRecordsNothing(m: Machine, a: RunnerId)
    requires a in m.claims && !Takes(m, a)
    ensures var m' := AdvanceClaim(m, a);
            && NothingRecorded(m.tables, m'.tables)
            && forall r :: r in m'.claims ==>
                 r in m.claims && m'.claims[r].t == m.claims[r].t && m'.claims[r].slot == m.claims[r].slot
  {
    var c := m.claims[a];
    if c.stage.Dropping? {
      ReleaseRecordsNothing(m.tables, c.t, a);
    }
  }

  lemma AdvanceKeepsPlaced(m: Machine, a: RunnerId)
    requires Placed(m) && a in m.claims && RowsFit(AdvanceClaim(m, a).tables)
    ensures Placed(AdvanceClaim(m, a))
  {
    var c := m.claims[a];
    if Takes(m, a) {
      var stage := if c.stage.Stealing? && c.stage.seen != c.t then Marking(c.stage.seen) else Starting;
      AdvanceWrites(m, a);
      TakingKeepsPlaced(m, a, stage);
    } else {
      AdvanceRecordsNothing(m, a);
      StaysPlaced(m, AdvanceClaim(m, a));
    }
  }

  lemma StepRecordsNothing(m: Machine, step: Step)
    requires Enabled(m, step) && !step.Advance? && !step.Begin?
    ensures NothingRecorded(m.tables, Next(m, step).tables) && Next(m, step).claims == m.claims
  {
    match step
    case ReleaseOwed(t, r) => ReleaseRecordsNothing(m.tables, t, r);
    case Other(c) => OtherRecordsNothing(m.tables, c);
    case _ =>
  }

  lemma PlacedStep(m: Machine, step: Step)
    requires Placed(m) && Enabled(m, step)
    ensures Placed(Next(m, step))
  {
    RowsFitMachineStep(m, step);
    if step.Advance? {
      AdvanceKeepsPlaced(m, step.r);
    } else if !step.Begin? {
      StepRecordsNothing(m, step);
      StaysPlaced(m, Next(m, step));
    }
  }

  lemma RowsFitMachineStep(m: Machine, step: Step)
    requires RowsFit(m.tables) && Enabled(m, step)
    ensures RowsFit(Next(m, step).tables)
  {
    StepsAreStatements(m, step);
    RowsFitRun(m.tables, StatementsOf(m, step));
  }

  /** Nobody else ends the run of the task along these steps. */
  predicate Undisturbed(m: Machine, steps: seq<Step>, t: TaskId) {
    steps == []
    || (var before, step := RunMachine(m, steps[..|steps| - 1]), steps[|steps| - 1];
        Undisturbed(m, steps[..|steps| - 1], t)
        && (Enabled(before, step) ==> RequeuesExport(before, step) && !EndsRun(before, step, t)))
  }

  /**
   No lock is leaked: along every run, timely or not, in which nobody else ends the task's run, whatever lock rows
   its claims leave are held by a claim on its way, by the running task, or by a release that is still owed.
   */
  lemma {:induction false} LocksAreGivenBack(m: Machine, steps: seq<Step>, t: TaskId, r: RunnerId)
    requires Placed(m) && Accounted(m, t, r) && Undisturbed(m, steps, t)
    ensures Placed(RunMachine(m, steps)) && Accounted(RunMachine(m, steps), t, r)
  {
    if steps != [] {
      var before, step := RunMachine(m, steps[..|steps| - 1]), steps[|steps| - 1];
      LocksAreGivenBack(m, steps[..|steps| - 1], t, r);
      if Enabled(before, step) {
        StepKeepsAccount(before, step, t, r);
        PlacedStep(before, step);
      }
    }
  }
}
