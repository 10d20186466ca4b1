/**
 One delivery of an export run to one recipient. A worker that starts it has marked the row
 durably before it talks to the mail server, so the number of starts bounds the number of mails.
 */
module ExportDeliveries {
  const LEASE_SECONDS := 120
  const MAX_RETRIES := 3

  datatype Status = Pending | Retry | Sending | Sent | Failed | Uncertain | Cancelled

  datatype Delivery = Delivery(status: Status, version: int, attempts: int, leaseOwner: string, leaseUntil: int) {
    predicate Startable() { status.Pending? || status.Retry? }

    function Moved(status: Status): Delivery {
      this.(status := status, version := version + 1, leaseOwner := "", leaseUntil := 0)
    }
  }

  /** What the mail server said; `Withdrawn` is a plan that was paused, deleted or lost its rights after the mark. */
  datatype Reply = Accepted | Temporary | Permanent | Unclear | Withdrawn

  datatype Step =
    | Start(copyVersion: int, worker: string, active: bool, now: int)
    | Settle(worker: string, copyAttempts: int, reply: Reply)
    | Recover(now: int)
    | Cancel
    | Reopen(version: int, seen: Status, confirmed: bool)

  /** The WHERE clauses, and the checks made before the statement is sent. */
  predicate Hits(d: Delivery, step: Step) {
    match step
    case Start(v, _, active, _) => active && d.version == v && d.Startable()
    case Settle(worker, _, _) => d.status.Sending? && d.leaseOwner == worker
    case Recover(now) => d.status.Sending? && d.leaseUntil <= now
    case Cancel => d.Startable()
    case Reopen(v, seen, confirmed) =>
      (seen.Failed? || (seen.Uncertain? && confirmed)) && d.version == v && d.status == seen
  }

  function Verdict(copyAttempts: int, reply: Reply): Status {
    match reply
    case Accepted => Sent
    case Temporary => if 0 <= copyAttempts < MAX_RETRIES then Retry else Failed
    case Permanent => Failed
    case Unclear => Uncertain
    case Withdrawn => Cancelled
  }

  function After(d: Delivery, step: Step): Delivery {
    if !Hits(d, step) then d
    else match step
         case Start(_, worker, _, now) =>
           Delivery(Sending, d.version + 1, d.attempts + 1, worker, now + LEASE_SECONDS)
         case Settle(_, copyAttempts, reply) => d.Moved(Verdict(copyAttempts, reply))
         case Recover(_) => d.Moved(Uncertain)
         case Cancel => d.(status := Cancelled, version := d.version + 1)
         case Reopen(_, _, _) => d.(status := Pending, version := d.version + 1, attempts := 0)
  }

  function Play(d: Delivery, steps: seq<Step>): Delivery {
    if steps == [] then d else After(Play(d, steps[..|steps| - 1]), steps[|steps| - 1])
  }

  /** A worker settles the start it made itself, from the copy it started with. */
  predicate Legal(d: Delivery, step: Step) {
    step.Settle? && Hits(d, step) ==> step.copyAttempts == d.attempts - 1
  }

  predicate LegalSteps(d: Delivery, steps: seq<Step>) {
    steps == [] || (LegalSteps(d, steps[..|steps| - 1]) && Legal(Play(d, steps[..|steps| - 1]), steps[|steps| - 1]))
  }

  function One(b: bool): nat { if b then 1 else 0 }

  /** How many mails may have been sent. */
  function Starts(d: Delivery, steps: seq<Step>): nat {
    if steps == [] then 0
    else
      var before, step := steps[..|steps| - 1], steps[|steps| - 1];
      Starts(d, before) + One(step.Start? && Hits(Play(d, before), step))
  }

  /** How many times the server itself asked to try again later. */
  function Rejections(d: Delivery, steps: seq<Step>): nat {
    if steps == [] then 0
    else
      var before, step := steps[..|steps| - 1], steps[|steps| - 1];
      Rejections(d, before) + One(step.Settle? && step.reply.Temporary? && Hits(Play(d, before), step))
  }

  /** How many times a user asked for it. */
  function Requests(d: Delivery, steps: seq<Step>): nat {
    if steps == [] then 0
    else
      var before, step := steps[..|steps| - 1], steps[|steps| - 1];
      Requests(d, before) + One(step.Reopen? && Hits(Play(d, before), step))
  }

  /** Every start after the first is paid for by an explicit temporary rejection or an explicit request. */
  lemma {:induction false} StartsAreAccountedFor(d: Delivery, steps: seq<Step>)
    ensures Starts(d, steps) + One(Play(d, steps).Startable())
            <= One(d.Startable()) + Rejections(d, steps) + Requests(d, steps)
  {
    if steps != [] {
      StartsAreAccountedFor(d, steps[..|steps| - 1]);
    }
  }

  /** The attempt counter against the states that can still lead to a mail. */
  predicate Bounded(d: Delivery) {
    && (d.status.Pending? ==> d.attempts == 0)
    && (d.status.Retry? ==> 1 <= d.attempts <= MAX_RETRIES)
    && (d.status.Sending? ==> 1 <= d.attempts)
    && 0 <= d.attempts <= MAX_RETRIES + 1
  }

  /** Without a user's request a new delivery starts as often as its counter says, and at most four times. */
  lemma {:induction false} AtMostFourStarts(d: Delivery, steps: seq<Step>)
    requires d.status.Pending? && d.attempts == 0 && LegalSteps(d, steps) && Requests(d, steps) == 0
    ensures Bounded(Play(d, steps)) && Starts(d, steps) == Play(d, steps).attempts <= MAX_RETRIES + 1
  {
    if steps != [] {
      AtMostFourStarts(d, steps[..|steps| - 1]);
    }
  }

  /** Without a confirmed request. */
  predicate NoneConfirmed(steps: seq<Step>) {
    forall step :: step in steps && step.Reopen? ==> !step.confirmed
  }

  /** An interrupted attempt stays uncertain, and nothing is sent, until a user confirms the retry. */
  lemma {:induction false} InterruptedIsNeverReplayed(d: Delivery, now: int, steps: seq<Step>)
    requires d.status.Sending? && d.leaseUntil <= now && NoneConfirmed(steps)
    ensures var recovered := After(d, Recover(now));
            Play(recovered, steps) == recovered && recovered.status.Uncertain? && Starts(recovered, steps) == 0
  {
    if steps != [] {
      InterruptedIsNeverReplayed(d, now, steps[..|steps| - 1]);
      assert steps[|steps| - 1] in steps;
    }
  }

  // ---------------------------------------------------------------- histories in two parts

  lemma {:induction false} HistoriesJoin(d: Delivery, first: seq<Step>, second: seq<Step>)
    requires LegalSteps(d, first) && LegalSteps(Play(d, first), second)
    ensures LegalSteps(d, first + second) && Play(d, first + second) == Play(Play(d, first), second)
  {
    var all := first + second;
    if second == [] {
      assert all == first;
    } else {
      assert all[..|all| - 1] == first + second[..|second| - 1];
      HistoriesJoin(d, first, second[..|second| - 1]);
    }
  }
}
