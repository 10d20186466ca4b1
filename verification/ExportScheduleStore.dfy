/** The rows of one export schedule as the claim, the worker and the retry update them. */
module ExportScheduleStore {
  import opened ExportDeliveries
  import opened ExportSchedules
  import opened Options

  class Store {
    var plan: Plan
    var runs: seq<Run>
    var mails: seq<Mail>

    constructor (s: Rows)
      ensures View() == s
    {
      plan, runs, mails := s.plan, s.runs, s.mails;
    }

    function View(): Rows
      reads this
    {
      Rows(plan, runs, mails)
    }

    // -------------------------------------------------------------- claiming

    /**
     The claim itself. It runs inside its caller's transaction: a refusal may leave the plan updated, and the caller
     rolls back.
     */
    method ClaimAccountExportOccurrence(c: Claim) returns (id: Option<nat>)
      modifies this`plan, this`runs
      ensures id.Some? <==> c.Succeeds(old(View()))
      ensures id.Some? ==>
        && id.value == |old(runs)| + 1
        && plan == ClaimedPlan(old(plan), c).(
             activeRun := if c.copy.activeRun == 0 then id.value else old(plan).activeRun)
        && runs == old(runs) + [if c.copy.activeRun == 0 then
             Run(c.occurrence, c.scheduledAt, c.copy.version, c.manual, Preparing, "", "", c.worker,
                 c.now + 120, 0)
           else
             Run(c.occurrence, c.scheduledAt, c.copy.version, c.manual, Skipped, "", "overlapping_run", "", 0, c.now)]
    {
      if c.planId <= 0 || c.copy.version <= 0 || c.occurrence == "" || c.scheduledAt <= 0 || c.worker == ""
         || (!c.manual && c.nextAt <= c.scheduledAt) {
        return None;
      }
      if !c.Matches(plan) {
        return None;
      }
      plan := plan.(version := plan.version + 1);
      if !c.manual {
        plan := plan.(nextAt := c.nextAt);
      }
      var run := Run(c.occurrence, c.scheduledAt, c.copy.version, c.manual, Preparing, "", "", c.worker,
                     c.now + ExportSchedules.LEASE_SECONDS, 0);
      if c.copy.activeRun != 0 {
        run := run.(status := Skipped, errorCode := "overlapping_run", finishedAt := c.now);
        run := run.(leaseOwner := "", leaseUntil := 0);
      }
      var taken := OccurrenceTaken(c.occurrence);
      if taken {
        return None;
      }
      runs := runs + [run];
      if c.copy.activeRun == 0 {
        plan := plan.(activeRun := |runs|);
      }
      return Some(|runs|);
    }

    /** The unique index over occurrences. */
    method OccurrenceTaken(occurrence: string) returns (taken: bool)
      ensures taken <==> exists i :: 0 <= i < |runs| && runs[i].occurrence == occurrence
    {
      var i := 0;
      while i < |runs|
        invariant 0 <= i <= |runs|
        invariant forall j :: 0 <= j < i ==> runs[j].occurrence != occurrence
      {
        if runs[i].occurrence == occurrence {
          return true;
        }
        i := i + 1;
      }
      return false;
    }

    /** One mail for each recipient, refused by the unique index when a recipient is listed twice. */
    method CreateMails(id: nat, recipients: seq<string>) returns (ok: bool)
      modifies this`mails
      ensures ok == Distinct(recipients)
      ensures ok ==> mails == old(mails) + NewMails(id, recipients)
    {
      var i := 0;
      while i < |recipients|
        invariant 0 <= i <= |recipients| && Distinct(recipients[..i])
        invariant mails == old(mails) + NewMails(id, recipients[..i])
      {
        var known := recipients[..i];
        if recipients[i] in known {
          var j :| 0 <= j < i && recipients[j] == recipients[i];
          return false;
        }
        assert recipients[..i + 1] == known + [recipients[i]];
        mails := mails + [Mail(id, recipients[i], NEW_DELIVERY)];
        assert NewMails(id, recipients[..i + 1]) == NewMails(id, known) + [Mail(id, recipients[i], NEW_DELIVERY)];
        i := i + 1;
      }
      assert recipients[..|recipients|] == recipients;
      return true;
    }

    /** The transaction that claims an occurrence and starts, skips or fails its run. */
    method ExecuteOccurrence(c: Claim, p: Preparation) returns (id: Option<nat>)
      modifies this
      ensures View() == Executed(old(View()), c, p)
      ensures id == if Executes(old(View()), c, p) then Some(|old(runs)| + 1) else None
    {
      var savedPlan, savedRuns, savedMails := plan, runs, mails;
      id := ClaimAccountExportOccurrence(c);
      if id.None? {
        plan, runs := savedPlan, savedRuns;
        return;
      }
      var run := runs[id.value - 1];
      if run.status.Skipped? {
        return;
      }
      match p
      case Unprepared(code) =>
        plan := plan.(activeRun := 0);
        if Disabling(code) {
          plan := plan.(enabled := false);
        }
        run := run.(status := if code == NO_DATA then NoData else RunFailed, errorCode := code, finishedAt := c.now);
        run := run.(leaseOwner := "", leaseUntil := 0);
        runs := runs[id.value - 1 := run];
      case Prepared(taskId, recipients) =>
        run := run.(taskId := taskId, status := Exporting, leaseOwner := "", leaseUntil := 0);
        runs := runs[id.value - 1 := run];
        var ok := CreateMails(id.value, recipients);
        if !ok {
          plan, runs, mails := savedPlan, savedRuns, savedMails;
          id := None;
        }
    }

    // -------------------------------------------------------------- the end of a run

    /** Cancels the mails that were not started, of one run or, for run zero, of the whole schedule. */
    method CancelUnsent(run: nat)
      modifies this`mails
      ensures mails == Unsent(old(mails), run)
    {
      var i := 0;
      while i < |mails|
        invariant 0 <= i <= |mails| == |old(mails)|
        invariant forall j :: 0 <= j < |mails| ==>
          mails[j] == if j < i then Unsent(old(mails), run)[j] else old(mails)[j]
      {
        var mail := mails[i];
        if (run == 0 || mail.run == run) && (mail.row.status.Pending? || mail.row.status.Retry?) {
          mails := mails[i := mail.(row := mail.row.(status := Cancelled, version := mail.row.version + 1))];
        }
        i := i + 1;
      }
    }

    method FinishRun(id: nat, status: string, code: string, now: int)
      requires 0 < id <= |runs|
      modifies this
      ensures View() == Finished(old(View()), id, status, code, now)
    {
      var run := runs[id - 1];
      if run.status.Exporting? || run.status.Delivering? {
        runs := runs[id - 1 := run.(status := Ended(status), errorCode := code, finishedAt := now)];
      }
      CancelUnsent(id);
      if plan.activeRun == id {
        plan := plan.(activeRun := 0);
      }
    }

    method Suspend()
      modifies this
      ensures View() == Suspended(old(View()))
    {
      plan := plan.(version := plan.version + 1, enabled := false);
      CancelUnsent(0);
    }

    // -------------------------------------------------------------- mails

    /** The durable mark a worker sets before it talks to the mail server, behind the guard on the plan. */
    method StartMail(i: nat, copyVersion: int, worker: string, now: int) returns (claimed: bool)
      requires i < |mails|
      modifies this
      ensures View() == Started(old(View()), i, copyVersion, worker, now)
      ensures claimed <==> Guard(old(View()), old(mails)[i].run) && old(mails)[i].row.version == copyVersion
                           && old(mails)[i].row.Startable()
    {
      var mail := mails[i];
      if !(plan.enabled && plan.deletedAt == 0 && plan.activeRun == mail.run) {
        return false;
      }
      plan := plan.(version := plan.version + 1);
      var d := mail.row;
      if d.version == copyVersion && (d.status.Pending? || d.status.Retry?) {
        d := Delivery(Sending, d.version + 1, d.attempts + 1, worker, now + ExportDeliveries.LEASE_SECONDS);
        mails := mails[i := mail.(row := d)];
        return true;
      }
      return false;
    }

    method SettleMail(i: nat, worker: string, copyAttempts: int, reply: Reply)
      requires i < |mails|
      modifies this`mails
      ensures View() == Settled(old(View()), i, worker, copyAttempts, reply)
    {
      var status := Cancelled;
      match reply {
        case Accepted => status := Sent;
        case Unclear => status := Uncertain;
        case Permanent => status := Failed;
        case Temporary =>
          if 0 <= copyAttempts < MAX_RETRIES {
            status := Status.Retry;
          } else {
            status := Failed;
          }
        case Withdrawn =>
      }
      var mail := mails[i];
      if mail.row.status.Sending? && mail.row.leaseOwner == worker {
        var d := mail.row.(status := status, version := mail.row.version + 1, leaseOwner := "", leaseUntil := 0);
        mails := mails[i := mail.(row := d)];
      }
    }

    /** One UPDATE over all mails whose lease has run out. */
    method RecoverMails(now: int)
      modifies this`mails
      ensures View() == Recovered(old(View()), now)
    {
      mails := seq(|mails|, i requires 0 <= i < |mails| reads this =>
        if mails[i].row.status.Sending? && mails[i].row.leaseUntil <= now then
          mails[i].(row := mails[i].row.Moved(Uncertain))
        else mails[i]);
      assert mails == Recovered(old(View()), now).mails;
    }

    /** A user's retry: the run is reopened first, and the transaction undone when the mail has changed meanwhile. */
    method RetryMail(copyVersion: int, i: nat, mailVersion: int, seen: Status, confirmed: bool) returns (ok: bool)
      requires i < |mails| && 0 < mails[i].run <= |runs|
      modifies this
      ensures View() == Retried(old(View()), copyVersion, i, Reopen(mailVersion, seen, confirmed))
      ensures ok <==> Retries(old(View()), copyVersion, i, Reopen(mailVersion, seen, confirmed))
    {
      if !seen.Failed? && !seen.Uncertain? {
        return false;
      }
      if seen.Uncertain? && !confirmed {
        return false;
      }
      var mail := mails[i];
      if plan.version != copyVersion || !plan.enabled || plan.deletedAt != 0
         || (plan.activeRun != 0 && plan.activeRun != mail.run) {
        return false;
      }
      var saved := plan;
      plan := plan.(activeRun := mail.run, version := plan.version + 1);
      if mail.row.version != mailVersion || mail.row.status != seen {
        plan := saved;
        return false;
      }
      mails := mails[i := mail.(row := mail.row.(status := Pending, version := mail.row.version + 1, attempts := 0))];
      runs := runs[mail.run - 1 := runs[mail.run - 1].(status := Delivering, errorCode := "", finishedAt := 0)];
      return true;
    }
  }
}
