/** The election loop of one node as the process runs it, against the lease store. */
module ControlPlaneLeader {
  import opened Options
  import opened ControlPlaneLease
  import opened LeaderElection
  import Text

  const LEASE_NAME := "control-plane-background-services"

  /** The loop's local variables. */
  datatype Loop = Loop(isLeader: bool, lastRenewedAt: int)

  /** One iteration at clock `now`; the flag says that leadership was lost for good. */
  function Iterated(l: Loop, lease: Option<Lease>, holder: string, now: int): (Loop, Option<Lease>, bool) {
    if !l.isLeader then
      if lease.None? || Takeable(lease.value, Text.Trim(holder), Unix(now)) then
        (Loop(true, now), Some(LeaseFor(Text.Trim(holder), now)), false)
      else (l, lease, false)
    else if now - l.lastRenewedAt >= HEARTBEAT then
      if lease.Some? && lease.value.holder == holder then (Loop(true, now), Some(LeaseFor(holder, now)), false)
      else (l, lease, now - l.lastRenewedAt >= TTL)
    else (l, lease, false)
  }

  /**
   What an iteration does, on the row and the readings: a node that does not lead takes a lease that is free, its own or
   run out; a leader asks for more time from 10 seconds on, keeps leading when that fails, and is lost once 30 seconds
   have passed.
   */
  lemma IterationInColumns(l: Loop, lease: Option<Lease>, holder: string, now: int)
    ensures var (l', lease', lost) := Iterated(l, lease, holder, now);
            var free := lease == None || lease.value.holder == Text.Trim(holder)
                        || lease.value.expiresAt <= now / 1_000_000_000;
            var own := lease.Some? && lease.value.holder == holder;
            var due := now - l.lastRenewedAt >= 10_000_000_000;
            && (lost <==> l.isLeader && !own && now - l.lastRenewedAt >= 30_000_000_000)
            && (!l.isLeader && free ==> l' == Loop(true, now) && lease' == Some(Lasting(Text.Trim(holder), now)))
            && (l.isLeader && own && due ==> l' == Loop(true, now) && lease' == Some(Lasting(holder, now)))
            && (!(!l.isLeader && free) && !(l.isLeader && own && due) ==> l' == l && lease' == lease)
  {
    UnixShift(now);
  }

  /** A lease taken now, for 30 seconds. */
  function Lasting(holder: string, now: int): Lease {
    Lease(holder, now / 1_000_000_000 + 30, now / 1_000_000_000)
  }

  /** The loop over successive clock readings, stopping when leadership is lost or the readings end. */
  function Looped(l: Loop, lease: Option<Lease>, holder: string, readings: seq<int>): (Loop, Option<Lease>, bool)
    decreases |readings|
  {
    if readings == [] then (l, lease, false)
    else
      var (l', lease', lost) := Iterated(l, lease, holder, readings[0]);
      if lost then (l', lease', true) else Looped(l', lease', holder, readings[1..])
  }

  class Leader {
    const holder: string
    var isLeader: bool
    var lastRenewedAt: int

    constructor (holder: string)
      ensures this.holder == holder && !isLeader
    {
      this.holder, isLeader, lastRenewedAt := holder, false, 0;
    }

    function State(): Loop
      reads this
    {
      Loop(isLeader, lastRenewedAt)
    }

    method Iterate(store: LeaseStore, now: int) returns (lost: bool)
      requires store.Valid() && Text.Trim(holder) != ""
      modifies this, store
      ensures store.Valid()
      ensures (State(), store.Of(LEASE_NAME), lost) == Iterated(old(State()), old(store.Of(LEASE_NAME)), holder, now)
      ensures lost <==> old(isLeader) && now - old(lastRenewedAt) >= 30 * SECOND
                        && !(LEASE_NAME in old(store.leases) && old(store.leases)[LEASE_NAME].holder == holder)
    {
      UnixShift(now);
      assert Text.Trim(LEASE_NAME) == LEASE_NAME && LEASE_NAME != "" by {
        assert LEASE_NAME[0] == 'c' && LEASE_NAME[|LEASE_NAME| - 1] == 's';
        Text.TrimShape(LEASE_NAME);
      }
      if !isLeader {
        var r := store.TryAcquire(LEASE_NAME, holder, Unix(now), Unix(now + TTL));
        if r == Done(true) {
          isLeader, lastRenewedAt := true, now;
        }
      } else if now - lastRenewedAt >= HEARTBEAT {
        var r := store.Renew(LEASE_NAME, holder, Unix(now), Unix(now + TTL));
        if r == Done(true) {
          lastRenewedAt := now;
        } else if now - lastRenewedAt >= TTL {
          return true;
        }
      }
      return false;
    }

    /** Loops until leadership is lost or the context ends, then releases the lease if it was leading. */
    method Run(store: LeaseStore, readings: seq<int>)
      requires store.Valid() && Text.Trim(holder) != ""
      modifies this, store
      ensures store.Valid()
      ensures var (l, lease, _) := Looped(old(State()), old(store.Of(LEASE_NAME)), holder, readings);
              State() == l && store.Of(LEASE_NAME) == if l.isLeader then AfterRelease(lease, holder) else lease
    {
      ghost var whole := Looped(State(), store.Of(LEASE_NAME), holder, readings);
      var i := 0;
      var lost := false;
      while i < |readings| && !lost
        invariant 0 <= i <= |readings| && store.Valid()
        invariant whole == if lost then (State(), store.Of(LEASE_NAME), true)
                           else Looped(State(), store.Of(LEASE_NAME), holder, readings[i..])
        decreases |readings| - i, !lost
      {
        lost := Iterate(store, readings[i]);
        assert readings[i..][1..] == readings[i + 1..] && readings[i..][0] == readings[i];
        i := i + 1;
      }
      if isLeader {
        assert LEASE_NAME[0] == 'c' && LEASE_NAME[|LEASE_NAME| - 1] == 's';
        Text.TrimShape(LEASE_NAME);
        store.Release(LEASE_NAME, holder);
      }
    }
  }

  /** Without rivals a node whose holder name is trimmed leads from its first reading on and never loses its lease. */
  lemma {:induction false} AloneNeverLost(l: Loop, lease: Option<Lease>, holder: string, readings: seq<int>)
    requires Text.Trimmed(holder) && readings != []
    requires lease == None || lease.value.holder == holder
    requires l.isLeader ==> lease.Some?
    ensures var (l', lease', lost) := Looped(l, lease, holder, readings);
            !lost && l'.isLeader && lease'.Some? && lease'.value.holder == holder
    decreases |readings|
  {
    Text.TrimShape(holder);
    if |readings| > 1 {
      var (l', lease', _) := Iterated(l, lease, holder, readings[0]);
      AloneNeverLost(l', lease', holder, readings[1..]);
    }
  }

  /**
   A holder name with surrounding blanks acquires the lease but cannot renew it: it is lost within two readings 30
   seconds apart.
   */
  lemma BlankHolderIsLost(holder: string, now: int, later: int)
    requires !Text.Trimmed(holder) && later - now >= TTL
    ensures var (l, lease, lost) := Looped(Loop(false, 0), None, holder, [now, later]);
            lost && l.isLeader && lease.Some? && lease.value.holder != holder
  {
    Text.TrimShape(holder);
    assert [now, later][1..] == [later] && [later][1..] == [];
  }

  /** The statements of one iteration of a waiting node, sent without delay, loss or interference. */
  function Undisturbed(c: Cluster, h: string): Cluster
    requires h in c.nodes && c.nodes[h].stage.Waiting?
  {
    var begun := Next(c, Step.Begin(h));
    match begun.nodes[h].stage
    case Updating(_) =>
      var updated := Next(begun, Step.Update(h, true, true));
      if updated.nodes[h].stage.Inserting? then Next(updated, Step.Insert(h, true, true)) else updated
    case Renewing(_) => Next(begun, Step.Renew(h, true, true))
    case _ => begun
  }

  /** An iteration of the loop is the cluster's single steps taken in one go: same lease, same beliefs, same verdict. */
  lemma IterationIsSteps(c: Cluster, h: string)
    requires h in c.nodes && c.nodes[h].stage.Waiting? && Text.Trimmed(h)
    ensures var before := Loop(c.nodes[h].isLeader, c.nodes[h].lastRenewed);
            var (l, lease, lost) := Iterated(before, c.lease, h, c.clock);
            var after := Undisturbed(c, h);
            && after.lease == lease && after.clock == c.clock
            && (lost <==> after.nodes[h].stage.Leaving?)
            && (!lost ==> after.nodes[h].isLeader == l.isLeader && after.nodes[h].lastRenewed == l.lastRenewedAt)
            && forall x :: x in c.nodes && x != h ==> x in after.nodes && after.nodes[x] == c.nodes[x]
  {
    Text.TrimShape(h);
    UnixShift(c.clock);
  }
}
