/** The lease rows behind control-plane leadership and the three operations on them. Times are whole seconds. */
module ControlPlaneLease {
  import opened Options
  import Text

  datatype Lease = Lease(holder: string, expiresAt: int, updatedAt: int)

  /** A call is refused before it reaches the database, or reports whether it took effect. */
  datatype Outcome = Invalid | Done(ok: bool)

  /** The condition of the conditional update: one's own lease, or one that has run out. */
  predicate Takeable(lease: Lease, holder: string, now: int) {
    lease.holder == holder || lease.expiresAt <= now
  }

  /** The lease of one name after an acquisition attempt: an update, then an insert if there was no row at all. */
  function AfterAcquire(lease: Option<Lease>, holder: string, now: int, expiresAt: int): Option<Lease> {
    if lease.None? || Takeable(lease.value, holder, now) then Some(Lease(holder, expiresAt, now)) else lease
  }

  function AfterRenew(lease: Option<Lease>, holder: string, now: int, expiresAt: int): Option<Lease> {
    if lease.Some? && lease.value.holder == holder then Some(Lease(holder, expiresAt, now)) else lease
  }

  function AfterRelease(lease: Option<Lease>, holder: string): Option<Lease> {
    if lease.Some? && lease.value.holder == holder then None else lease
  }

  /** Renewing, releasing or trying again never alters a rival's lease that has not run out. */
  lemma RivalLeaseIsSafe(lease: Lease, holder: string, now: int, expiresAt: int)
    requires lease.holder != holder
    ensures AfterRenew(Some(lease), holder, now, expiresAt) == Some(lease)
    ensures AfterRelease(Some(lease), holder) == Some(lease)
    ensures AfterAcquire(Some(lease), holder, now, expiresAt) == Some(lease)
            <==> now < lease.expiresAt || Lease(holder, expiresAt, now) == lease
  {
  }

  class LeaseStore {
    var leases: map<string, Lease>

    function Of(name: string): Option<Lease>
      reads this
    {
      if name in leases then Some(leases[name]) else None
    }

    /** Names and holders are stored trimmed. */
    predicate Valid()
      reads this
    {
      forall name :: name in leases ==> Text.Trimmed(name) && Text.Trimmed(leases[name].holder)
    }

    constructor ()
      ensures Valid() && leases == map[]
    {
      leases := map[];
    }

    method TryAcquire(name: string, holder: string, now: int, expiresAt: int) returns (r: Outcome)
      requires Valid()
      modifies this
      ensures Valid()
      ensures r == Invalid <==> Text.Trim(name) == "" || Text.Trim(holder) == "" || expiresAt <= now
      ensures r == Done(true) <==> r.Done? && var key := Text.Trim(name);
                                   key in old(leases) ==>
                                     old(leases)[key].holder == Text.Trim(holder) || old(leases)[key].expiresAt <= now
      ensures leases == if r == Done(true) then old(leases)[Text.Trim(name) := Lease(Text.Trim(holder), expiresAt, now)]
              else old(leases)
    {
      var key, owner := Text.Trim(name), Text.Trim(holder);
      Text.TrimShape(name);
      Text.TrimShape(holder);
      if key == "" || owner == "" || expiresAt <= now {
        return Invalid;
      }
      if key in leases && (leases[key].holder == owner || leases[key].expiresAt <= now) {
        leases := leases[key := Lease(owner, expiresAt, now)];
        return Done(true);
      }
      if key in leases {
        return Done(false);
      }
      leases := leases[key := Lease(owner, expiresAt, now)];
      return Done(true);
    }

    /** Unlike an acquisition, a renewal looks for the name and holder exactly as given. */
    method Renew(name: string, holder: string, now: int, expiresAt: int) returns (r: Outcome)
      requires Valid()
      modifies this
      ensures Valid()
      ensures r == Invalid <==> Text.Trim(name) == "" || Text.Trim(holder) == "" || expiresAt <= now
      ensures r == Done(true) <==> r.Done? && name in old(leases) && old(leases)[name].holder == holder
      ensures leases == if r == Done(true) then old(leases)[name := Lease(holder, expiresAt, now)] else old(leases)
    {
      if Text.Trim(name) == "" || Text.Trim(holder) == "" || expiresAt <= now {
        return Invalid;
      }
      if name in leases && leases[name].holder == holder {
        leases := leases[name := Lease(holder, expiresAt, now)];
        return Done(true);
      }
      return Done(false);
    }

    method Release(name: string, holder: string)
      requires Valid()
      modifies this
      ensures Valid()
      ensures leases == if name in old(leases) && old(leases)[name].holder == holder && Text.Trim(name) != ""
                           && Text.Trim(holder) != "" then old(leases) - {name}
                        else old(leases)
    {
      if Text.Trim(name) == "" || Text.Trim(holder) == "" {
        return;
      }
      if name in leases && leases[name].holder == holder {
        leases := leases - {name};
      }
    }
  }

  /**
   A holder that has just acquired can renew exactly when its own name and the lease name carry no
   surrounding blanks: the acquisition stored the trimmed texts, the renewal asks for the raw ones.
   */
  method AcquireThenRenew(store: LeaseStore, name: string, holder: string, now: int, later: int, ttl: int)
    returns (acquired: Outcome, renewed: Outcome)
    requires store.Valid() && ttl > 0
    modifies store
    ensures acquired == Done(true) ==> (renewed == Done(true) <==> Text.Trimmed(name) && Text.Trimmed(holder))
  {
    Text.TrimShape(name);
    Text.TrimShape(holder);
    acquired := store.TryAcquire(name, holder, now, now + ttl);
    assert name != Text.Trim(name) ==> name !in store.leases;
    renewed := store.Renew(name, holder, later, later + ttl);
  }
}
