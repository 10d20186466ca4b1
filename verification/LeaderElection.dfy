/**
 Control-plane leader election. Each node runs an acquire, heartbeat and step-down loop against one
 lease row. Processes read a nanosecond clock, the row holds truncated seconds, every statement may
 reach the database long after its clock was read, and an acknowledgement may be lost.
 */
module LeaderElection {
  import opened Options
  import opened ControlPlaneLease

  const SECOND := 1_000_000_000
  const TTL := 30 * SECOND
  const HEARTBEAT := 10 * SECOND

  /** Whole seconds since the epoch. */
  function Unix(t: int): int { t / SECOND }

  /** Where a node stands in its loop; `now` is the clock it read when the iteration began. */
  datatype Stage = Waiting | Updating(now: int) | Inserting(now: int) | Renewing(now: int) | Leaving | Stopped

  /** `lastStart` is when its latest completed iteration began, `since` when its leadership did. */
  datatype Node = Node(isLeader: bool, lastRenewed: int, lastStart: int, since: int, stage: Stage)

  const FRESH := Node(false, 0, 0, 0, Waiting)

  datatype Cluster = Cluster(lease: Option<Lease>, clock: int, nodes: map<string, Node>) {
    predicate Leads(h: string) { h in nodes && nodes[h].isLeader }
  }

  datatype Step =
    | Tick(to: int)
    | Join(h: string)
    | Begin(h: string)
    | Update(h: string, applied: bool, acked: bool)
    | Insert(h: string, applied: bool, acked: bool)
    | Renew(h: string, applied: bool, acked: bool)
    | Cancel(h: string)
    | Release(h: string)

  predicate Enabled(c: Cluster, step: Step) {
    match step
    case Tick(to) => c.clock <= to
    case Join(h) => h !in c.nodes
    case Begin(h) => h in c.nodes && c.nodes[h].stage.Waiting?
    case Update(h, _, _) => h in c.nodes && c.nodes[h].stage.Updating?
    case Insert(h, _, _) => h in c.nodes && c.nodes[h].stage.Inserting?
    case Renew(h, _, _) => h in c.nodes && c.nodes[h].stage.Renewing?
    case Cancel(h) => h in c.nodes && c.nodes[h].stage.Waiting?
    case Release(h) => h in c.nodes && c.nodes[h].stage.Leaving?
  }

  function LeaseFor(h: string, now: int): Lease {
    Lease(h, Unix(now + TTL), Unix(now))
  }

  /** The node becomes leader, unless it is told that the attempt failed. */
  function Acquired(c: Cluster, h: string, now: int, acked: bool): Cluster
    requires h in c.nodes
  {
    var n := c.nodes[h];
    var n' := if acked then n.(isLeader := true, lastRenewed := now, since := c.clock) else n;
    c.(lease := Some(LeaseFor(h, now)), nodes := c.nodes[h := n'.(stage := Waiting, lastStart := now)])
  }

  function Next(c: Cluster, step: Step): Cluster
    requires Enabled(c, step)
  {
    match step
    case Tick(to) => c.(clock := to)
    case Join(h) => c.(nodes := c.nodes[h := FRESH.(lastStart := c.clock)])
    case Begin(h) =>
      var n := c.nodes[h];
      c.(nodes := c.nodes[h :=
          if !n.isLeader then n.(stage := Updating(c.clock))
          else if c.clock - n.lastRenewed >= HEARTBEAT then n.(stage := Renewing(c.clock))
          else n.(lastStart := c.clock)])
    case Update(h, applied, acked) =>
      var n := c.nodes[h];
      if !applied then c.(nodes := c.nodes[h := n.(stage := Waiting, lastStart := n.stage.now)])
      else if c.lease.Some? && Takeable(c.lease.value, h, Unix(n.stage.now)) then Acquired(c, h, n.stage.now, acked)
      else c.(nodes := c.nodes[h := n.(stage := Inserting(n.stage.now))])
    case Insert(h, applied, acked) =>
      var n := c.nodes[h];
      if applied && c.lease.None? then Acquired(c, h, n.stage.now, acked)
      else c.(nodes := c.nodes[h := n.(stage := Waiting, lastStart := n.stage.now)])
    case Renew(h, applied, acked) =>
      var n := c.nodes[h];
      var now := n.stage.now;
      var hit := applied && c.lease.Some? && c.lease.value.holder == h;
      c.(lease := if hit then AfterRenew(c.lease, h, Unix(now), Unix(now + TTL)) else c.lease,
         nodes := c.nodes[h :=
           if hit && acked then n.(lastRenewed := now, stage := Waiting, lastStart := now)
           else if now - n.lastRenewed >= TTL then n.(isLeader := false, stage := Leaving)
           else n.(stage := Waiting, lastStart := now)])
    case Cancel(h) =>
      var n := c.nodes[h];
      c.(nodes := c.nodes[h := if n.isLeader then n.(isLeader := false, stage := Leaving) else n.(stage := Stopped)])
    case Release(h) =>
      c.(lease := AfterRelease(c.lease, h), nodes := c.nodes[h := c.nodes[h].(stage := Stopped)])
  }

  function Run(clock: int, steps: seq<Step>): Cluster {
    if steps == [] then Cluster(None, clock, map[])
    else
      var before, step := Run(clock, steps[..|steps| - 1]), steps[|steps| - 1];
      if Enabled(before, step) then Next(before, step) else before
  }

  // ---------------------------------------------------------------- what a step changes

  /**
   A node becomes leader by taking a lease that is its own, run out or missing, and hearing of it. It stops leading when
   its context ends, or when a renewal begun 30 seconds or more after its last one fails, never earlier.
   */
  lemma LeadershipChanges(c: Cluster, step: Step, h: string)
    requires Enabled(c, step) && h in c.nodes
    ensures var n, c' := c.nodes[h], Next(c, step);
            && (!c.Leads(h) ==>
                  (c'.Leads(h)
                   <==> (step == Update(h, true, true) && c.lease.Some?
                         && (c.lease.value.holder == h || c.lease.value.expiresAt <= n.stage.now / 1_000_000_000))
                        || (step == Insert(h, true, true) && c.lease == None)))
            && (c.Leads(h) ==>
                  (!c'.Leads(h)
                   <==> step == Cancel(h)
                        || (step.Renew? && step.h == h && n.stage.now - n.lastRenewed >= 30_000_000_000
                            && !(step.applied && step.acked && c.lease.Some? && c.lease.value.holder == h))))
  {
  }

  /** A leader whose renewal fails before 30 seconds are over goes on leading, whatever became of the statement. */
  lemma LeaderOutlivesFailedRenewal(c: Cluster, h: string, applied: bool, acked: bool)
    requires c.Leads(h) && c.nodes[h].stage.Renewing?
    requires c.nodes[h].stage.now - c.nodes[h].lastRenewed < 30_000_000_000
    ensures var n, n' := c.nodes[h], Next(c, Renew(h, applied, acked)).nodes[h];
            n'.isLeader && n'.stage == Waiting
            && n'.lastRenewed == if applied && acked && c.lease.Some? && c.lease.value.holder == h then n.stage.now
                                 else n.lastRenewed
  {
  }

  /** A waiting leader asks for more time exactly when 10 seconds have passed; a waiting follower tries to acquire. */
  lemma IterationBegins(c: Cluster, h: string)
    requires h in c.nodes && c.nodes[h].stage.Waiting?
    ensures var n, n' := c.nodes[h], Next(c, Step.Begin(h)).nodes[h];
            n'.stage == if !n.isLeader then Updating(c.clock)
                        else if c.clock < n.lastRenewed + 10_000_000_000 then Waiting
                        else Renewing(c.clock)
  {
  }

  /** The row after a step: written for 30 seconds from the clock that was read, or deleted by the one it names. */
  lemma LeaseChanges(c: Cluster, step: Step)
    requires Enabled(c, step)
    ensures var own := !(step.Tick? || step.Join?) && c.lease.Some? && c.lease.value.holder == step.h;
            var writes := || (step.Update? && step.applied && c.lease.Some?
                              && (own || c.lease.value.expiresAt <= c.nodes[step.h].stage.now / 1_000_000_000))
                          || (step.Insert? && step.applied && c.lease == None)
                          || (step.Renew? && step.applied && own);
            Next(c, step).lease == if writes then
                                     var second := c.nodes[step.h].stage.now / 1_000_000_000;
                                     Some(Lease(step.h, second + 30, second))
                                   else if step.Release? && own then None
                                   else c.lease
  {
    if step.Update? || step.Insert? || step.Renew? {
      UnixShift(c.nodes[step.h].stage.now);
    }
  }

  // ---------------------------------------------------------------- the invariant

  /** The moment from which a rival may take the lease a node last renewed. */
  function LapsesAt(n: Node): int {
    (Unix(n.lastRenewed) + 30) * SECOND
  }

  predicate NodeFits(c: Cluster, h: string)
    requires h in c.nodes
  {
    var n := c.nodes[h];
    && n.lastStart <= c.clock
    && (n.stage.Updating? || n.stage.Inserting? ==> n.stage.now <= c.clock && !n.isLeader)
    && (n.stage.Renewing? ==> n.lastRenewed <= n.stage.now <= c.clock && n.isLeader)
    && (n.stage.Leaving? || n.stage.Stopped? ==> !n.isLeader)
    && (n.isLeader ==>
          && n.lastStart - n.lastRenewed < TTL
          && n.lastRenewed <= c.clock && n.since <= c.clock
          && ((c.lease.Some? && c.lease.value.holder == h && Unix(n.lastRenewed) + 30 <= c.lease.value.expiresAt)
              || LapsesAt(n) <= c.clock))
  }

  /** Of two leaders one began after the other's lease had run out; if one still holds the lease, it is that one. */
  predicate PairFits(c: Cluster, a: string, b: string) {
    c.Leads(a) && c.Leads(b) && a != b ==>
      && (LapsesAt(c.nodes[a]) <= c.nodes[b].since || LapsesAt(c.nodes[b]) <= c.nodes[a].since)
      && (c.lease.Some? && c.lease.value.holder == a ==> LapsesAt(c.nodes[b]) <= c.nodes[a].since)
  }

  ghost predicate Fits(c: Cluster) {
    && (forall h :: h in c.nodes ==> NodeFits(c, h))
    && (forall a, b :: a in c.nodes && b in c.nodes ==> PairFits(c, a, b))
  }

  lemma AcquisitionFits(c: Cluster, h: string, now: int, acked: bool)
    requires Fits(c) && h in c.nodes && !c.nodes[h].isLeader && now <= c.clock
    requires c.lease.Some? ==> Takeable(c.lease.value, h, Unix(now))
    ensures Fits(Acquired(c, h, now, acked))
  {
    var c' := Acquired(c, h, now, acked);
    forall x | x in c.nodes
      ensures NodeFits(c', x)
      ensures x != h && c.nodes[x].isLeader ==> LapsesAt(c.nodes[x]) <= c.clock
    {
      assert NodeFits(c, x);
    }
    forall a, b | a in c'.nodes && b in c'.nodes
      ensures PairFits(c', a, b)
    {
      assert PairFits(c, a, b);
    }
  }

  lemma UnixShift(t: int)
    ensures Unix(t + TTL) == Unix(t) + 30
  {
  }

  /** A renewal: the lease stays with the same holder, and lasts no shorter than the holder may believe. */
  lemma RenewalFits(c: Cluster, h: string, applied: bool, acked: bool)
    requires Fits(c) && Enabled(c, Renew(h, applied, acked))
    ensures Fits(Next(c, Renew(h, applied, acked)))
  {
    var c' := Next(c, Renew(h, applied, acked));
    UnixShift(c.nodes[h].stage.now);
    assert NodeFits(c, h);
    assert Unix(c.nodes[h].lastRenewed) <= Unix(c.nodes[h].stage.now);
    forall x | x in c'.nodes
      ensures NodeFits(c', x)
    {
      assert NodeFits(c, x);
    }
    forall a, b | a in c'.nodes && b in c'.nodes
      ensures PairFits(c', a, b)
    {
      assert PairFits(c, a, b) && PairFits(c, b, a);
    }
  }

  /** The statement reaches the database and takes the lease. */
  predicate Acquires(c: Cluster, step: Step)
    requires Enabled(c, step)
  {
    || (step.Update? && step.applied && c.lease.Some?
        && Takeable(c.lease.value, step.h, Unix(c.nodes[step.h].stage.now)))
    || (step.Insert? && step.applied && c.lease.None?)
  }

  /** Steps that leave the lease alone, or delete one's own after stepping down. */
  predicate Quiet(c: Cluster, step: Step)
    requires Enabled(c, step)
  {
    && !step.Renew?
    && !Acquires(c, step)
  }

  lemma QuietNodeFits(c: Cluster, step: Step, x: string)
    requires Fits(c) && Enabled(c, step) && Quiet(c, step) && x in Next(c, step).nodes
    ensures NodeFits(Next(c, step), x)
  {
    if x in c.nodes { assert NodeFits(c, x); }
  }

  lemma QuietPairFits(c: Cluster, step: Step, a: string, b: string)
    requires Fits(c) && Enabled(c, step) && Quiet(c, step) && a in Next(c, step).nodes && b in Next(c, step).nodes
    ensures PairFits(Next(c, step), a, b)
  {
    if a in c.nodes && b in c.nodes { assert PairFits(c, a, b); }
  }

  lemma StepFits(c: Cluster, step: Step)
    requires Fits(c) && Enabled(c, step)
    ensures Fits(Next(c, step))
  {
    if Acquires(c, step) {
      assert NodeFits(c, step.h);
      AcquisitionFits(c, step.h, c.nodes[step.h].stage.now, step.acked);
    } else if step.Renew? {
      RenewalFits(c, step.h, step.applied, step.acked);
    } else {
      forall x | x in Next(c, step).nodes
        ensures NodeFits(Next(c, step), x)
      {
        QuietNodeFits(c, step, x);
      }
      forall a, b | a in Next(c, step).nodes && b in Next(c, step).nodes
        ensures PairFits(Next(c, step), a, b)
      {
        QuietPairFits(c, step, a, b);
      }
    }
  }

  lemma {:induction false} RunFits(clock: int, steps: seq<Step>)
    ensures Fits(Run(clock, steps))
  {
    if steps != [] {
      RunFits(clock, steps[..|steps| - 1]);
      var before := Run(clock, steps[..|steps| - 1]);
      if Enabled(before, steps[|steps| - 1]) { StepFits(before, steps[|steps| - 1]); }
    }
  }

  // ---------------------------------------------------------------- what it gives

  /** The latest completed iteration of a leading loop began at most d ago. */
  predicate Prompt(c: Cluster, h: string, d: int)
    requires h in c.nodes
  {
    c.clock - c.nodes[h].lastStart <= d
  }

  function Later(x: int, y: int): int { if x < y then y else x }

  /** Two nodes that both believe they lead have done so for less than d plus one second. */
  lemma LeadershipOverlapIsBounded(clock: int, steps: seq<Step>, a: string, b: string, d: int)
    requires var c := Run(clock, steps); c.Leads(a) && c.Leads(b) && a != b && Prompt(c, a, d) && Prompt(c, b, d)
    ensures var c := Run(clock, steps); c.clock - Later(c.nodes[a].since, c.nodes[b].since) < d + SECOND
  {
    RunFits(clock, steps);
    var c := Run(clock, steps);
    assert NodeFits(c, a) && NodeFits(c, b) && PairFits(c, a, b);
  }

  /**
   While a leader's last renewal is under 30 whole seconds old it holds the lease, and any other leader is a former
   one.
   */
  lemma NoRivalBeforeLapse(clock: int, steps: seq<Step>, a: string, b: string)
    requires var c := Run(clock, steps);
             c.Leads(a) && a in c.nodes && b in c.nodes && a != b && c.clock < LapsesAt(c.nodes[a])
    ensures var c := Run(clock, steps);
            c.lease.Some? && c.lease.value.holder == a && (c.Leads(b) ==> LapsesAt(c.nodes[b]) <= c.nodes[a].since)
  {
    RunFits(clock, steps);
    var c := Run(clock, steps);
    assert NodeFits(c, a) && PairFits(c, a, b);
  }

  /** No step of a node takes a live lease away from another one, however late it arrives. */
  lemma RivalKeepsLiveLease(c: Cluster, step: Step, rival: string)
    requires Enabled(c, step) && c.lease.Some? && c.lease.value.holder == rival
    requires !(step.Tick? || step.Join?) ==> step.h != rival
    requires step.Update? ==> Unix(c.nodes[step.h].stage.now) < c.lease.value.expiresAt
    ensures Next(c, step).lease == c.lease
  {
  }
}
