/** The in-memory sliding-window limiter and its janitor, against a limiter that remembers every admission. */
module RateLimiter {
  type Queues = map<string, seq<int>>

  datatype Event = Request(key: string, max: int, duration: int, now: int) | Sweep(now: int)

  // ---------------------------------------------------------------- what one event does

  predicate Admits(queues: Queues, key: string, max: int, duration: int, now: int) {
    key in queues && queues[key] != [] ==> |queues[key]| < max || now - queues[key][0] >= duration
  }

  /** An admission is queued behind the others; a full queue loses its oldest entry first. */
  function Queued(queues: Queues, key: string, max: int, now: int): seq<int> {
    if key !in queues || queues[key] == [] then [now]
    else if |queues[key]| < max then queues[key] + [now]
    else queues[key][1..] + [now]
  }

  predicate Expired(queue: seq<int>, expiry: int, now: int) {
    queue == [] || now - queue[|queue| - 1] > expiry
  }

  function Swept(queues: Queues, expiry: int, now: int): Queues {
    map key | key in queues && !Expired(queues[key], expiry, now) :: queues[key]
  }

  function After(queues: Queues, expiry: int, e: Event): Queues {
    match e
    case Request(key, max, duration, now) =>
      if Admits(queues, key, max, duration, now) then queues[key := Queued(queues, key, max, now)] else queues
    case Sweep(now) => Swept(queues, expiry, now)
  }

  function Play(expiry: int, events: seq<Event>): Queues {
    if events == [] then map[] else After(Play(expiry, events[..|events| - 1]), expiry, events[|events| - 1])
  }

  /** The limiter's answer to a request that follows the given events. */
  predicate Answer(expiry: int, events: seq<Event>, e: Event)
    requires e.Request?
  {
    Admits(Play(expiry, events), e.key, e.max, e.duration, e.now)
  }

  class InMemoryRateLimiter {
    var store: Queues
    const expiry: int

    constructor (expiry: int)
      ensures this.expiry == expiry && store == map[] && Valid()
    {
      this.expiry, store := expiry, map[];
    }

    predicate Valid()
      reads this
    {
      forall key :: key in store ==> store[key] != []
    }

    method Ask(key: string, max: int, duration: int, now: int) returns (admitted: bool)
      requires Valid() && max >= 0
      modifies this
      ensures Valid() && admitted == old(Admits(store, key, max, duration, now))
      ensures store == After(old(store), expiry, Request(key, max, duration, now))
    {
      if key in store {
        var queue := store[key];
        if |queue| < max {
          store := store[key := queue + [now]];
          return true;
        } else {
          if now - queue[0] >= duration {
            queue := queue[1..];
            store := store[key := queue + [now]];
            return true;
          } else {
            return false;
          }
        }
      } else {
        store := store[key := []];
        store := store[key := store[key] + [now]];
        assert store[key] == [now];
      }
      return true;
    }

    /** One round of the janitor. */
    method ClearExpiredItems(now: int)
      requires Valid()
      modifies this
      ensures Valid() && store == After(old(store), expiry, Sweep(now))
      ensures forall key :: key in store ==> key in old(store) && store[key] == old(store)[key]
      ensures forall key :: key in old(store) ==>
                (key in store <==> now - old(store)[key][|old(store)[key]| - 1] <= expiry)
    {
      ghost var before := store;
      var rest := store.Keys;
      while rest != {}
        invariant rest <= before.Keys
        invariant forall key :: key in store <==> key in before && (key in rest || !Expired(before[key], expiry, now))
        invariant forall key :: key in store ==> store[key] == before[key]
        decreases rest
      {
        var key :| key in rest;
        var queue := store[key];
        var size := |queue|;
        if size == 0 || now - queue[size - 1] > expiry {
          store := store - {key};
        }
        rest := rest - {key};
      }
      assert store == Swept(before, expiry, now);
    }
  }

  // ---------------------------------------------------------------- the limiter with a perfect memory

  function AtLeastOne(max: int): int {
    if max < 1 then 1 else max
  }

  /** How many of the admissions are younger than `duration`. */
  function Young(log: seq<int>, duration: int, now: int): nat {
    if log == [] then 0
    else Young(log[..|log| - 1], duration, now) + if now - log[|log| - 1] < duration then 1 else 0
  }

  predicate Allows(log: seq<int>, max: int, duration: int, now: int) {
    Young(log, duration, now) < AtLeastOne(max)
  }

  /** The admissions of one key when each request is judged on the complete log. */
  function Log(key: string, events: seq<Event>): seq<int> {
    if events == [] then [] else Logged(Log(key, events[..|events| - 1]), key, events[|events| - 1])
  }

  function Logged(log: seq<int>, key: string, e: Event): seq<int> {
    if e.Request? && e.key == key && Allows(log, e.max, e.duration, e.now) then log + [e.now] else log
  }

  /** The clock never goes back. */
  predicate Ordered(events: seq<Event>) {
    forall i, j :: 0 <= i < j < |events| ==> events[i].now <= events[j].now
  }

  /** The key is always asked for with the same maximum and duration. */
  predicate Steady(key: string, max: int, duration: int, events: seq<Event>) {
    forall e :: e in events && e.Request? && e.key == key ==> e.max == max && e.duration == duration
  }

  // ---------------------------------------------------------------- they agree

  lemma {:induction false} YoungSuffix(log: seq<int>, k: nat, duration: int, now: int)
    requires k <= |log|
    ensures (forall i :: 0 <= i < k ==> now - log[i] >= duration) ==> Young(log, duration, now) <= |log| - k
    ensures (forall i :: k <= i < |log| ==> now - log[i] < duration) ==> Young(log, duration, now) >= |log| - k
  {
    if k < |log| {
      YoungSuffix(log[..|log| - 1], k, duration, now);
    } else if k > 0 {
      YoungSuffix(log[..k - 1], k - 1, duration, now);
    }
  }

  predicate Ascending(log: seq<int>) {
    forall i, j :: 0 <= i < j < |log| ==> log[i] <= log[j]
  }

  /** The queue is the tail of the log from `k` on: everything before is old enough, or the queue is full. */
  predicate Tail(queues: Queues, key: string, log: seq<int>, k: nat, max: int, duration: int, now: int) {
    && k <= |log| && Ascending(log) && (log != [] ==> log[|log| - 1] <= now)
    && (if key in queues then queues[key] == log[k..] != [] else k == |log|)
    && |log| - k <= AtLeastOne(max)
    && (|log| - k == AtLeastOne(max) || forall i :: 0 <= i < k ==> now - log[i] >= duration)
  }

  lemma TailAnswers(queues: Queues, key: string, log: seq<int>, k: nat, max: int, duration: int, before: int, now: int)
    requires Tail(queues, key, log, k, max, duration, before) && before <= now
    ensures Admits(queues, key, max, duration, now) == Allows(log, max, duration, now)
  {
    var n := |log| - k;
    if n < AtLeastOne(max) {
      YoungSuffix(log, k, duration, now);
    } else if now - log[k] >= duration {
      YoungSuffix(log, k + 1, duration, now);
    } else {
      YoungSuffix(log, k, duration, now);
    }
  }

  predicate Agree(queues: Queues, key: string, log: seq<int>, max: int, duration: int, now: int) {
    0 <= TailStart(queues, key, log) && Tail(queues, key, log, TailStart(queues, key, log), max, duration, now)
  }

  function TailStart(queues: Queues, key: string, log: seq<int>): int {
    if key in queues then |log| - |queues[key]| else |log|
  }

  lemma {:induction false} QueueIsTail(expiry: int, key: string, max: int, duration: int, events: seq<Event>)
    requires Ordered(events) && Steady(key, max, duration, events) && duration <= expiry + 1
    ensures events != [] ==> Agree(Play(expiry, events), key, Log(key, events), max, duration, events[|events| - 1].now)
  {
    if events != [] {
      var before, e := events[..|events| - 1], events[|events| - 1];
      var queues, log := Play(expiry, before), Log(key, before);
      QueueIsTail(expiry, key, max, duration, before);
      var now := if before == [] then e.now else before[|before| - 1].now;
      assert Agree(queues, key, log, max, duration, now) && now <= e.now && e in events;
      TailStep(expiry, queues, key, log, TailStart(queues, key, log), max, duration, now, e);
    }
  }

  /** An admission joins a queue that has room. */
  lemma TailGrows(queues: Queues, key: string, log: seq<int>, k: nat, max: int, duration: int, before: int, now: int)
    requires Tail(queues, key, log, k, max, duration, before) && before <= now && |log| - k < AtLeastOne(max)
    ensures Queued(queues, key, max, now) == (log + [now])[k..]
    ensures Tail(queues[key := (log + [now])[k..]], key, log + [now], k, max, duration, now)
  {
    var log' := log + [now];
    assert log'[k..] == log[k..] + [now];
    assert key !in queues ==> log[k..] == [];
    forall i | 0 <= i < k
      ensures log'[i] == log[i]
    {
    }
  }

  /** An admission pushes the oldest one out of a full queue. */
  lemma TailShifts(queues: Queues, key: string, log: seq<int>, k: nat, max: int, duration: int, before: int, now: int)
    requires Tail(queues, key, log, k, max, duration, before) && before <= now && |log| - k == AtLeastOne(max)
    ensures Queued(queues, key, max, now) == (log + [now])[k + 1..]
    ensures Tail(queues[key := (log + [now])[k + 1..]], key, log + [now], k + 1, max, duration, now)
  {
    var log' := log + [now];
    assert log'[k + 1..] == log[k..][1..] + [now];
  }

  lemma TailAdmits(queues: Queues, key: string, log: seq<int>, k: nat, max: int, duration: int, before: int, now: int)
    requires Tail(queues, key, log, k, max, duration, before) && before <= now
    ensures Agree(queues[key := Queued(queues, key, max, now)], key, log + [now], max, duration, now)
  {
    if |log| - k < AtLeastOne(max) {
      TailGrows(queues, key, log, k, max, duration, before, now);
    } else {
      TailShifts(queues, key, log, k, max, duration, before, now);
    }
  }

  lemma TailKept(queues: Queues, queues': Queues, key: string, log: seq<int>, k: nat, max: int, duration: int,
                 before: int, now: int)
    requires Tail(queues, key, log, k, max, duration, before) && before <= now
    requires key in queues' <==> key in queues
    requires key in queues ==> queues'[key] == queues[key]
    ensures Agree(queues', key, log, max, duration, now)
  {
  }

  lemma TailDropped(queues: Queues, queues': Queues, expiry: int, key: string, log: seq<int>, k: nat, max: int,
                    duration: int, before: int, now: int)
    requires Tail(queues, key, log, k, max, duration, before) && before <= now && duration <= expiry + 1
    requires key in queues && Expired(queues[key], expiry, now) && key !in queues'
    ensures Agree(queues', key, log, max, duration, now)
  {
    assert log[|log| - 1] == queues[key][|queues[key]| - 1];
    assert forall i :: 0 <= i < |log| ==> log[i] <= log[|log| - 1];
  }

  lemma TailStep(expiry: int, queues: Queues, key: string, log: seq<int>, k: nat, max: int, duration: int, before: int,
                 e: Event)
    requires Tail(queues, key, log, k, max, duration, before) && before <= e.now && duration <= expiry + 1
    requires e.Request? && e.key == key ==> e.max == max && e.duration == duration
    ensures Agree(After(queues, expiry, e), key, Logged(log, key, e), max, duration, e.now)
  {
    var queues' := After(queues, expiry, e);
    if e.Request? && e.key == key {
      TailAnswers(queues, key, log, k, max, duration, before, e.now);
      if Allows(log, max, duration, e.now) {
        TailAdmits(queues, key, log, k, max, duration, before, e.now);
      } else {
        TailKept(queues, queues', key, log, k, max, duration, before, e.now);
      }
    } else if key in queues && key !in queues' {
      TailDropped(queues, queues', expiry, key, log, k, max, duration, before, e.now);
    } else {
      TailKept(queues, queues', key, log, k, max, duration, before, e.now);
    }
  }

  /** For a steady key every answer is the one the complete log gives, whatever other keys and the janitor do. */
  lemma AnswersAreExact(expiry: int, key: string, max: int, duration: int, events: seq<Event>, now: int)
    requires Ordered(events + [Request(key, max, duration, now)]) && Steady(key, max, duration, events)
    requires duration <= expiry + 1
    ensures Answer(expiry, events, Request(key, max, duration, now)) == Allows(Log(key, events), max, duration, now)
  {
    var all := events + [Request(key, max, duration, now)];
    assert forall i :: 0 <= i < |events| ==> all[i] == events[i];
    QueueIsTail(expiry, key, max, duration, events);
    if events != [] {
      assert all[|events| - 1].now <= all[|events|].now;
      var queues, log := Play(expiry, events), Log(key, events);
      TailAnswers(queues, key, log, TailStart(queues, key, log), max, duration, events[|events| - 1].now, now);
    }
  }

  // ---------------------------------------------------------------- no window holds too many

  /** How many admissions fall into the `duration` seconds from `start` on. */
  function InWindow(log: seq<int>, start: int, duration: int): nat {
    if log == [] then 0
    else InWindow(log[..|log| - 1], start, duration) + if start <= log[|log| - 1] < start + duration then 1 else 0
  }

  lemma {:induction false} WindowOfYoung(log: seq<int>, start: int, duration: int, now: int)
    requires now < start + duration
    ensures InWindow(log, start, duration) <= Young(log, duration, now)
  {
    if log != [] {
      WindowOfYoung(log[..|log| - 1], start, duration, now);
    }
  }

  lemma {:induction false} LogWindowsHoldAtMostMax(key: string, max: int, duration: int, events: seq<Event>, start: int)
    requires Steady(key, max, duration, events)
    ensures InWindow(Log(key, events), start, duration) <= AtLeastOne(max)
  {
    if events != [] {
      var before, e := events[..|events| - 1], events[|events| - 1];
      assert e in events;
      LogWindowsHoldAtMostMax(key, max, duration, before, start);
      var log := Log(key, before);
      if Log(key, events) != log {
        assert Log(key, events)[..|log|] == log;
        if start <= e.now < start + duration {
          WindowOfYoung(log, start, duration, e.now);
        }
      }
    }
  }

  /** The requests for a key that the limiter itself let through. */
  function Admissions(expiry: int, key: string, events: seq<Event>): seq<int> {
    if events == [] then []
    else
      var before, e := events[..|events| - 1], events[|events| - 1];
      Admissions(expiry, key, before) + if e.Request? && e.key == key && Answer(expiry, before, e) then [e.now] else []
  }

  /** For a steady key they are the admissions of the limiter with a perfect memory. */
  lemma {:induction false} AdmissionsAreLogged(expiry: int, key: string, max: int, duration: int, events: seq<Event>)
    requires Ordered(events) && Steady(key, max, duration, events) && duration <= expiry + 1
    ensures Admissions(expiry, key, events) == Log(key, events)
  {
    if events != [] {
      var before, e := events[..|events| - 1], events[|events| - 1];
      AdmissionsAreLogged(expiry, key, max, duration, before);
      assert e in events && before + [e] == events;
      if e.Request? && e.key == key {
        AnswersAreExact(expiry, key, max, duration, before, e.now);
      }
    }
  }

  /** No window of the duration, wherever it starts, holds more than max requests that the limiter let through. */
  lemma WindowsHoldAtMostMax(expiry: int, key: string, max: int, duration: int, events: seq<Event>, start: int)
    requires Ordered(events) && Steady(key, max, duration, events) && duration <= expiry + 1
    ensures InWindow(Admissions(expiry, key, events), start, duration) <= AtLeastOne(max)
  {
    AdmissionsAreLogged(expiry, key, max, duration, events);
    LogWindowsHoldAtMostMax(key, max, duration, events, start);
  }

  // ---------------------------------------------------------------- the janitor

  function WithoutSweeps(events: seq<Event>): seq<Event> {
    if events == [] then []
    else WithoutSweeps(events[..|events| - 1]) + if events[|events| - 1].Sweep? then [] else [events[|events| - 1]]
  }

  lemma {:induction false} SweepsLeaveNoLog(key: string, events: seq<Event>)
    ensures Log(key, WithoutSweeps(events)) == Log(key, events)
    ensures forall e :: e in WithoutSweeps(events) ==> e in events
    ensures Ordered(events) ==> Ordered(WithoutSweeps(events))
  {
    if events != [] {
      var before, e := events[..|events| - 1], events[|events| - 1];
      SweepsLeaveNoLog(key, before);
      var kept := WithoutSweeps(before);
      assert e.Sweep? ==> WithoutSweeps(events) == kept;
      if e.Request? {
        assert (kept + [e])[..|kept|] == kept;
        if Ordered(events) {
          forall i | 0 <= i < |kept|
            ensures kept[i].now <= e.now
          {
            assert kept[i] in before;
          }
        }
      }
    }
  }

  /** Deleting idle queues never changes a later answer. */
  lemma JanitorIsInvisible(expiry: int, key: string, max: int, duration: int, events: seq<Event>, now: int)
    requires Ordered(events + [Request(key, max, duration, now)]) && Steady(key, max, duration, events)
    requires duration <= expiry + 1
    ensures Answer(expiry, events, Request(key, max, duration, now))
            == Answer(expiry, WithoutSweeps(events), Request(key, max, duration, now))
  {
    var e := Request(key, max, duration, now);
    var all, kept := events + [e], WithoutSweeps(events);
    AnswersAreExact(expiry, key, max, duration, events, now);
    SweepsLeaveNoLog(key, events);
    SweepsLeaveNoLog(key, all);
    assert all[..|events|] == events;
    AnswersAreExact(expiry, key, max, duration, kept, now);
  }

  predicate OnlyZeros(log: seq<int>) {
    forall i :: 0 <= i < |log| ==> log[i] == 0
  }

  lemma BurstStep(queues: Queues, expiry: int, key: string, max: int, duration: int, log: seq<int>)
    requires |log| < AtLeastOne(max) && duration > 0 && OnlyZeros(log)
    requires queues == if log == [] then map[] else map[key := log]
    ensures Logged(log, key, Request(key, max, duration, 0)) == log + [0] && OnlyZeros(log + [0])
    ensures Admits(queues, key, max, duration, 0)
    ensures After(queues, expiry, Request(key, max, duration, 0)) == map[key := log + [0]]
  {
    YoungAtMost(log, duration, 0);
    assert log == [] ==> log + [0] == [0];
  }

  /** `n` requests at time zero fill the queue of a key. */
  lemma {:induction false} Burst(expiry: int, key: string, max: int, duration: int, n: nat)
    returns (events: seq<Event>, log: seq<int>)
    requires n <= AtLeastOne(max) && duration > 0
    ensures forall i :: 0 <= i < |events| ==> events[i] == Request(key, max, duration, 0)
    ensures log == Log(key, events) == Admissions(expiry, key, events) && |log| == n && OnlyZeros(log)
    ensures Play(expiry, events) == if log == [] then map[] else map[key := log]
  {
    events, log := [], [];
    if n > 0 {
      var before, log' := Burst(expiry, key, max, duration, n - 1);
      var e := Request(key, max, duration, 0);
      BurstStep(Play(expiry, before), expiry, key, max, duration, log');
      events, log := before + [e], log' + [0];
      OneMore(expiry, key, before, e);
    }
  }

  lemma {:induction false} YoungAtMost(log: seq<int>, duration: int, now: int)
    ensures Young(log, duration, now) <= |log|
  {
    if log != [] {
      YoungAtMost(log[..|log| - 1], duration, now);
    }
  }

  lemma OneMore(expiry: int, key: string, events: seq<Event>, e: Event)
    ensures Play(expiry, events + [e]) == After(Play(expiry, events), expiry, e)
    ensures Log(key, events + [e]) == Logged(Log(key, events), key, e)
    ensures Admissions(expiry, key, events + [e])
            == Admissions(expiry, key, events)
               + if e.Request? && e.key == key && Answer(expiry, events, e) then [e.now] else []
  {
    assert (events + [e])[..|events|] == events;
  }

  lemma {:induction false} AllInWindow(log: seq<int>, start: int, duration: int)
    requires forall i :: 0 <= i < |log| ==> start <= log[i] < start + duration
    ensures InWindow(log, start, duration) == |log|
  {
    if log != [] {
      AllInWindow(log[..|log| - 1], start, duration);
    }
  }

  /**
   A window more than a second longer than the idle time is not kept: the janitor lets a full key through again, and
   one window then holds more than max requests.
   */
  lemma LongWindowsAreForgotten(expiry: nat, key: string, max: int, duration: int)
    returns (events: seq<Event>, now: int)
    requires duration > expiry + 1
    ensures var e := Request(key, max, duration, now);
            && Ordered(events + [e]) && Steady(key, max, duration, events + [e])
            && Answer(expiry, events, e) && !Allows(Log(key, events), max, duration, now)
            && InWindow(Admissions(expiry, key, events + [e]), 0, duration) > AtLeastOne(max)
  {
    now := expiry + 1;
    var e := Request(key, max, duration, 0);
    var burst, log := Burst(expiry, key, max, duration, AtLeastOne(max));
    events := burst + [Sweep(now)];
    assert Log(key, events) == log && Admissions(expiry, key, events) == log && Play(expiry, events) == map[] by {
      OneMore(expiry, key, burst, Sweep(now));
      assert Expired(log, expiry, now) && log + [] == log;
    }
    YoungSuffix(log, 0, duration, now);
    BurstOrdered(burst, e, events, now);
    OneMore(expiry, key, events, e.(now := now));
    AllInWindow(log + [now], 0, duration);
  }

  lemma BurstOrdered(burst: seq<Event>, e: Event, events: seq<Event>, now: int)
    requires e.Request? && e.now <= now && events == burst + [Sweep(now)]
    requires forall i :: 0 <= i < |burst| ==> burst[i] == e
    ensures Ordered(events + [e.(now := now)]) && Steady(e.key, e.max, e.duration, events + [e.(now := now)])
  {
    var all := events + [e.(now := now)];
    forall i | 0 <= i < |all|
      ensures all[i].now == if i < |burst| then e.now else now
    {
    }
  }
}
