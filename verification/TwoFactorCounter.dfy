/**
 The failure counter of two-factor authentication. Racing attempts read the row, decide, and then
 send one conditional update each; every interleaving of them is a sequence of such statements.
 Times are in nanoseconds.
 */
module TwoFactorCounter {
  import opened Options

  const MAX_FAIL_ATTEMPTS := 5
  const LOCKOUT := 300_000_000_000
  const MAX_UPDATE_RETRIES := 5

  datatype Counter = Counter(failed: int, lockedUntil: Option<int>) {
    predicate LockedAt(now: int) { lockedUntil.Some? && now < lockedUntil.value }
  }

  const CLEARED := Counter(0, None)

  /**
   `Swap` is the conditional update of one attempt, `Clear` the reset after a success, `Remove` the end of the setup.
   */
  datatype Statement = Swap(expected: int, lock: Option<int>, now: int) | Clear | Remove

  predicate Hits(row: Option<Counter>, s: Statement) {
    s.Swap? && row.Some? && row.value.failed == s.expected && !row.value.LockedAt(s.now)
  }

  function Apply(row: Option<Counter>, s: Statement): Option<Counter> {
    match s
    case Swap(expected, lock, _) => if Hits(row, s) then Some(Counter(expected + 1, lock)) else row
    case Clear => if row.Some? then Some(CLEARED) else row
    case Remove => None
  }

  function Play(row: Option<Counter>, ss: seq<Statement>): Option<Counter> {
    if ss == [] then row else Apply(Play(row, ss[..|ss| - 1]), ss[|ss| - 1])
  }

  /** The update an attempt sends after reading `read` at `now`, a moment the row was not locked. */
  function SwapAfter(read: Counter, now: int): Statement {
    Swap(read.failed, if read.failed + 1 >= MAX_FAIL_ATTEMPTS then Some(now + LOCKOUT) else read.lockedUntil, now)
  }

  /**
   What an attempt's update makes of the row it read: one failure more, and from the fifth on a lock of five minutes.
   A row that has changed since, or is locked, stays.
   */
  lemma UpdateOfAttempt(read: Counter, row: Counter, now: int)
    ensures var free := row.lockedUntil == None || row.lockedUntil.value <= now;
            Apply(Some(row), SwapAfter(read, now))
            == if row.failed == read.failed && free then
                 Some(Counter(read.failed + 1,
                              if read.failed < 4 then read.lockedUntil else Some(now + 300_000_000_000)))
               else Some(row)
  {
  }

  /** A success forgets the failures and the lock. */
  lemma SuccessForgets(row: Option<Counter>)
    ensures Apply(row, Clear) == if row == None then None else Some(Counter(0, None))
    ensures Apply(row, Remove) == None
  {
  }

  /** The statement was sent by some attempt, whatever it had read. */
  ghost predicate Sent(s: Statement) {
    s.Swap? ==> exists read: Counter :: SentAfter(s, read)
  }

  predicate SentAfter(s: Statement, read: Counter) {
    s.Swap? && !read.LockedAt(s.now) && s == SwapAfter(read, s.now)
  }

  ghost predicate AllSent(ss: seq<Statement>) {
    forall s :: s in ss ==> Sent(s)
  }

  // ---------------------------------------------------------------- every interleaving

  predicate LockComesWithFive(row: Option<Counter>) {
    row.Some? && row.value.failed >= MAX_FAIL_ATTEMPTS ==> row.value.lockedUntil.Some?
  }

  /** A stored count of five or more always comes with a lock time. */
  lemma {:induction false} FiveMeansLock(row: Option<Counter>, ss: seq<Statement>)
    requires LockComesWithFive(row) && AllSent(ss)
    ensures LockComesWithFive(Play(row, ss))
  {
    if ss != [] {
      FiveMeansLock(row, ss[..|ss| - 1]);
      assert Sent(ss[|ss| - 1]);
    }
  }

  /** How many of the updates took effect. */
  function Counted(row: Option<Counter>, ss: seq<Statement>): nat {
    if ss == [] then 0
    else Counted(row, ss[..|ss| - 1]) + if Hits(Play(row, ss[..|ss| - 1]), ss[|ss| - 1]) then 1 else 0
  }

  predicate OnlySwaps(ss: seq<Statement>) {
    forall s :: s in ss ==> s.Swap?
  }

  /** The counter is the number of updates that took effect: none is lost and none counts twice. */
  lemma {:induction false} CounterIsExact(row: Counter, ss: seq<Statement>)
    requires OnlySwaps(ss)
    ensures Play(Some(row), ss).Some? && Play(Some(row), ss).value.failed == row.failed + Counted(Some(row), ss)
  {
    if ss != [] {
      CounterIsExact(row, ss[..|ss| - 1]);
    }
  }

  /** While a lock is live no attempt that read its clock before now changes the row. */
  lemma {:induction false} LiveLockFreezes(row: Counter, ss: seq<Statement>, now: int)
    requires row.LockedAt(now) && OnlySwaps(ss) && forall s :: s in ss && s.Swap? ==> s.now <= now
    ensures Play(Some(row), ss) == Some(row)
  {
    if ss != [] {
      LiveLockFreezes(row, ss[..|ss| - 1], now);
      assert ss[|ss| - 1] in ss;
    }
  }

  /** From the fifth failure on each further one costs a whole lockout, however many attempts race. */
  lemma {:induction false} LockoutsAddUp(ss: seq<Statement>, start: int)
    requires OnlySwaps(ss) && AllSent(ss) && forall s :: s in ss && s.Swap? ==> s.now >= start
    ensures var row := Play(Some(CLEARED), ss);
            && row.Some? && row.value.failed >= 0
            && (row.value.failed >= MAX_FAIL_ATTEMPTS ==>
                  row.value.lockedUntil.Some?
                  && row.value.lockedUntil.value >= start + LOCKOUT * (row.value.failed - MAX_FAIL_ATTEMPTS + 1))
  {
    if ss != [] {
      LockoutsAddUp(ss[..|ss| - 1], start);
      var s := ss[|ss| - 1];
      assert s in ss && Sent(s);
    }
  }

  /** So within a span of time at most five failures and one more per lockout are counted. */
  lemma GuessesAreBounded(ss: seq<Statement>, start: int, end: int)
    requires OnlySwaps(ss) && AllSent(ss) && start <= end && forall s :: s in ss && s.Swap? ==> start <= s.now <= end
    ensures Play(Some(CLEARED), ss).Some?
    ensures LOCKOUT * (Play(Some(CLEARED), ss).value.failed - MAX_FAIL_ATTEMPTS) <= end - start
    decreases |ss|
  {
    LockoutsAddUp(ss, start);
    if ss != [] {
      var before, s := ss[..|ss| - 1], ss[|ss| - 1];
      assert s in ss && Sent(s);
      LockoutsAddUp(before, start);
      if Hits(Play(Some(CLEARED), before), s) {
        assert s.now <= end;
      } else {
        GuessesAreBounded(before, start, end);
      }
    }
  }

  // ---------------------------------------------------------------- one attempt

  datatype Outcome = Gone | Locked | Recorded(counter: Counter) | Conflict

  /** The retry loop from try `i` on, with other attempts' statements falling between its read and its update. */
  function Attempted(row: Option<Counter>, nows: seq<int>, meanwhile: seq<seq<Statement>>, i: nat)
    : (Option<Counter>, Outcome)
    requires |nows| == |meanwhile| && i <= |nows|
    decreases |nows| - i
  {
    if i == |nows| then (row, Conflict)
    else if row.None? then (row, Gone)
    else if row.value.LockedAt(nows[i]) then (row, Locked)
    else
      var mine, found := SwapAfter(row.value, nows[i]), Play(row, meanwhile[i]);
      if Hits(found, mine) then (Apply(found, mine), Recorded(Counter(mine.expected + 1, mine.lock)))
      else Attempted(found, nows, meanwhile, i + 1)
  }

  /** The statements the loop and its rivals send, in the order in which they reach the database. */
  function Trace(row: Option<Counter>, nows: seq<int>, meanwhile: seq<seq<Statement>>, i: nat): seq<Statement>
    requires |nows| == |meanwhile| && i <= |nows|
    decreases |nows| - i
  {
    if i == |nows| || row.None? || row.value.LockedAt(nows[i]) then []
    else
      var mine, found := SwapAfter(row.value, nows[i]), Play(row, meanwhile[i]);
      meanwhile[i] + [mine] + if Hits(found, mine) then [] else Trace(found, nows, meanwhile, i + 1)
  }

  lemma {:induction false} PlayJoins(row: Option<Counter>, first: seq<Statement>, second: seq<Statement>)
    ensures Play(row, first + second) == Play(Play(row, first), second)
  {
    var all := first + second;
    if second == [] {
      assert all == first;
    } else {
      assert all[..|all| - 1] == first + second[..|second| - 1];
      PlayJoins(row, first, second[..|second| - 1]);
    }
  }

  /** So an attempt among rivals is one of the interleavings that the theorems on runs speak of. */
  lemma {:induction false} AttemptIsItsTrace(row: Option<Counter>, nows: seq<int>, meanwhile: seq<seq<Statement>>,
                                             i: nat)
    requires |nows| == |meanwhile| && i <= |nows|
    ensures Attempted(row, nows, meanwhile, i).0 == Play(row, Trace(row, nows, meanwhile, i))
    ensures (forall k :: 0 <= k < |meanwhile| ==> AllSent(meanwhile[k])) ==> AllSent(Trace(row, nows, meanwhile, i))
    decreases |nows| - i
  {
    if i < |nows| && row.Some? && !row.value.LockedAt(nows[i]) {
      var mine, found := SwapAfter(row.value, nows[i]), Play(row, meanwhile[i]);
      var own := meanwhile[i] + [mine];
      assert SentAfter(mine, row.value);
      assert own[..|own| - 1] == meanwhile[i];
      if Hits(found, mine) {
        assert Trace(row, nows, meanwhile, i) == own;
      } else {
        assert Trace(row, nows, meanwhile, i) == own + Trace(found, nows, meanwhile, i + 1);
        PlayJoins(row, own, Trace(found, nows, meanwhile, i + 1));
        AttemptIsItsTrace(found, nows, meanwhile, i + 1);
      }
    }
  }

  /** A try that conflicts lost to a change of the row made after its own read. */
  lemma ConflictMeansRivalChange(read: Counter, now: int, meanwhile: seq<Statement>)
    requires !read.LockedAt(now) && !Hits(Play(Some(read), meanwhile), SwapAfter(read, now))
    ensures Play(Some(read), meanwhile) != Some(read)
  {
  }

  /** Left alone, an attempt is recorded at once, unless the row is locked or gone. */
  lemma AloneIsRecorded(row: Option<Counter>, nows: seq<int>, meanwhile: seq<seq<Statement>>)
    requires |nows| == |meanwhile| == 5 && meanwhile[0] == []
    ensures var (after, outcome) := Attempted(row, nows, meanwhile, 0);
            match outcome
            case Recorded(c) => row.Some? && after == Some(c) && c.failed == row.value.failed + 1
                                && (c.failed >= MAX_FAIL_ATTEMPTS ==> c.LockedAt(nows[0]))
            case Locked => row.Some? && row.value.LockedAt(nows[0]) && after == row
            case Gone => row.None? && after == row
            case Conflict => false
  {
  }

  /** The row as rivals leave it after the first `k` gaps, when the attempt itself changes nothing. */
  function Left(row: Option<Counter>, meanwhile: seq<seq<Statement>>, k: nat): Option<Counter>
    requires k <= |meanwhile|
  {
    if k == 0 then row else Play(Left(row, meanwhile, k - 1), meanwhile[k - 1])
  }

  /**
   What an outcome says of the row: a recorded failure is what the row holds now, a lock was live at one of the tries,
   and a conflict means that rivals changed the row under every single try that was left.
   */
  lemma {:induction false} OutcomeTells(row: Option<Counter>, nows: seq<int>, meanwhile: seq<seq<Statement>>, i: nat)
    requires |nows| == |meanwhile| && i <= |nows|
    ensures var (after, outcome) := Attempted(Left(row, meanwhile, i), nows, meanwhile, i);
            match outcome
            case Recorded(c) => after == Some(c)
            case Locked => after.Some? && exists k :: i <= k < |nows| && after.value.LockedAt(nows[k])
            case Gone => after == None
            case Conflict => after == Left(row, meanwhile, |nows|)
                             && forall k :: i <= k < |nows| ==> Left(row, meanwhile, k + 1) != Left(row, meanwhile, k)
    decreases |nows| - i
  {
    var read := Left(row, meanwhile, i);
    if i < |nows| && read.Some? && !read.value.LockedAt(nows[i]) {
      assert Play(read, meanwhile[i]) == Left(row, meanwhile, i + 1);
      if !Hits(Left(row, meanwhile, i + 1), SwapAfter(read.value, nows[i])) {
        OutcomeTells(row, nows, meanwhile, i + 1);
      }
    }
  }

  class TwoFactorStore {
    var row: Option<Counter>

    constructor (row: Option<Counter>)
      ensures this.row == row
    {
      this.row := row;
    }

    method Send(s: Statement) returns (affected: bool)
      modifies this
      ensures row == Apply(old(row), s) && (s.Swap? ==> affected == Hits(old(row), s))
    {
      affected := false;
      match s
      case Swap(expected, lock, now) =>
        if row.Some? && row.value.failed == expected
           && (row.value.lockedUntil.None? || row.value.lockedUntil.value <= now) {
          row := Some(Counter(expected + 1, lock));
          affected := true;
        }
      case Clear =>
        if row.Some? {
          row := Some(CLEARED);
        }
      case Remove =>
        row := None;
    }

    method SendAll(ss: seq<Statement>)
      modifies this
      ensures row == Play(old(row), ss)
    {
      var i := 0;
      while i < |ss|
        invariant 0 <= i <= |ss| && row == Play(old(row), ss[..i])
      {
        assert ss[..i + 1][..i] == ss[..i];
        var _ := Send(ss[i]);
        i := i + 1;
      }
      assert ss[..|ss|] == ss;
    }

    method IncrementFailedAttempts(nows: seq<int>, meanwhile: seq<seq<Statement>>) returns (outcome: Outcome)
      requires |nows| == |meanwhile| == 5
      modifies this
      ensures (row, outcome) == Attempted(old(row), nows, meanwhile, 0)
    {
      for i := 0 to MAX_UPDATE_RETRIES
        invariant Attempted(old(row), nows, meanwhile, 0) == Attempted(row, nows, meanwhile, i)
      {
        if row.None? {
          return Gone;
        }
        var current, now := row.value, nows[i];
        if current.lockedUntil.Some? && now < current.lockedUntil.value {
          return Locked;
        }
        var next, lock := current.failed + 1, current.lockedUntil;
        if next >= MAX_FAIL_ATTEMPTS {
          lock := Some(now + LOCKOUT);
        }
        SendAll(meanwhile[i]);
        var affected := Send(Swap(current.failed, lock, now));
        if affected {
          return Recorded(Counter(next, lock));
        }
      }
      return Conflict;
    }

    method ResetFailedAttempts()
      modifies this
      ensures row == if old(row) == None then None else Some(Counter(0, None))
    {
      var _ := Send(Clear);
    }
  }
}
