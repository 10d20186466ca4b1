/**
 What each step of an export schedule leaves in its rows, column by column: what it asks of the rows, what they hold
 afterwards, and that everything else stays.
 */
module ScheduleEffects {
  import D = ExportDeliveries
  import opened ExportSchedules

  // ---------------------------------------------------------------- one mail

  /** A start marks a waiting mail of the version that was read, for 120 seconds. */
  lemma StartMarks(d: D.Delivery, version: int, worker: string, active: bool, now: int)
    ensures D.After(d, D.Start(version, worker, active, now))
            == if active && d.version == version && d.status in {D.Pending, D.Retry} then
                 D.Delivery(D.Sending, version + 1, d.attempts + 1, worker, now + 120)
               else d
  {
  }

  /** The worker that holds the mark files the mail under what the server said, a temporary refusal three times. */
  lemma SettleFiles(d: D.Delivery, worker: string, copyAttempts: int, reply: D.Reply)
    ensures var d' := D.After(d, D.Settle(worker, copyAttempts, reply));
            if d.status == D.Sending && d.leaseOwner == worker then
              && d'.version == d.version + 1 && d'.attempts == d.attempts && d'.leaseOwner == "" && d'.leaseUntil == 0
              && (d'.status == D.Sent <==> reply == D.Accepted)
              && (d'.status == D.Uncertain <==> reply == D.Unclear)
              && (d'.status == D.Cancelled <==> reply == D.Withdrawn)
              && (d'.status == D.Retry <==> reply == D.Temporary && copyAttempts in {0, 1, 2})
              && (d'.status == D.Failed
                  <==> reply == D.Permanent || (reply == D.Temporary && copyAttempts !in {0, 1, 2}))
            else d' == d
  {
  }

  /** A mark that has run out makes the mail uncertain; a cancel takes the mails nobody has started. */
  lemma RecoverAndCancel(d: D.Delivery, now: int)
    ensures D.After(d, D.Recover(now))
            == if d.status == D.Sending && d.leaseUntil <= now then
                 D.Delivery(D.Uncertain, d.version + 1, d.attempts, "", 0)
               else d
    ensures D.After(d, D.Cancel)
            == if d.status in {D.Pending, D.Retry} then
                 D.Delivery(D.Cancelled, d.version + 1, d.attempts, d.leaseOwner, d.leaseUntil)
               else d
  {
  }

  /** A failed mail can be reopened as it was seen, an uncertain one with a confirmation; it has all its tries again. */
  lemma ReopenAsks(d: D.Delivery, version: int, seen: D.Status, confirmed: bool)
    ensures D.After(d, D.Reopen(version, seen, confirmed))
            == if d.version == version && d.status == seen
                  && (d.status == D.Failed || (d.status == D.Uncertain && confirmed)) then
                 D.Delivery(D.Pending, version + 1, 0, d.leaseOwner, d.leaseUntil)
               else d
  {
  }

  // ---------------------------------------------------------------- an occurrence

  /** The call is complete, the plan is as the claimer read it and due then, and the occurrence is new. */
  predicate Claimable(s: Rows, c: Claim) {
    && c.planId > 0 && c.copy.version > 0 && c.occurrence != "" && c.scheduledAt > 0 && c.worker != ""
    && s.plan.enabled && s.plan.deletedAt == 0
    && s.plan.version == c.copy.version && s.plan.activeRun == c.copy.activeRun
    && (c.manual || (s.plan.nextAt == c.scheduledAt < c.nextAt))
    && forall run :: run in s.runs ==> run.occurrence != c.occurrence
  }

  /** A claim that is refused, or whose recipients repeat, changes nothing. */
  lemma RefusedExecution(s: Rows, c: Claim, p: Preparation)
    requires !Claimable(s, c)
             || (c.copy.activeRun == 0 && p.Prepared?
                 && exists i, j :: 0 <= i < j < |p.recipients| && p.recipients[i] == p.recipients[j])
    ensures After(s, Execute(c, p)) == s
  {
    assert c.Succeeds(s) ==> Claimable(s, c);
  }

  /** What every claim that takes effect writes. */
  predicate ClaimWritten(s: Rows, s': Rows, c: Claim) {
    && |s'.runs| == |s.runs| + 1 && s'.runs[..|s.runs|] == s.runs
    && s'.plan.version == s.plan.version + 1 && s'.plan.deletedAt == s.plan.deletedAt
    && s'.plan.nextAt == (if c.manual then s.plan.nextAt else c.nextAt)
    && var run := s'.runs[|s.runs|];
       && run.occurrence == c.occurrence && run.scheduledAt == c.scheduledAt && run.manual == c.manual
       && run.scheduleVersion == c.copy.version && run.leaseOwner == "" && run.leaseUntil == 0
  }

  /** While another run is active the occurrence is skipped. */
  lemma SkippedExecution(s: Rows, c: Claim, p: Preparation)
    requires Claimable(s, c) && c.copy.activeRun != 0
    ensures var s' := After(s, Execute(c, p));
            && ClaimWritten(s, s', c) && s'.mails == s.mails
            && s'.plan.activeRun == s.plan.activeRun && s'.plan.enabled
            && var run := s'.runs[|s.runs|];
               run.status == Skipped && run.errorCode == "overlapping_run" && run.finishedAt == c.now
               && run.taskId == ""
  {
    ClaimSucceeds(s, c);
  }

  /** A prepared occurrence becomes the active run, with one unsent mail to each recipient. */
  lemma PreparedExecution(s: Rows, c: Claim, taskId: string, recipients: seq<string>)
    requires Claimable(s, c) && c.copy.activeRun == 0
    requires forall i, j :: 0 <= i < j < |recipients| ==> recipients[i] != recipients[j]
    ensures var s' := After(s, Execute(c, Prepared(taskId, recipients)));
            && ClaimWritten(s, s', c) && s'.plan.activeRun == |s.runs| + 1 && s'.plan.enabled
            && (var run := s'.runs[|s.runs|];
                run.status == Exporting && run.errorCode == "" && run.finishedAt == 0 && run.taskId == taskId)
            && |s'.mails| == |s.mails| + |recipients| && s'.mails[..|s.mails|] == s.mails
            && forall i :: 0 <= i < |recipients| ==>
                 s'.mails[|s.mails| + i]
                 == Mail(|s.runs| + 1, recipients[i], D.Delivery(D.Pending, 1, 0, "", 0))
  {
    ClaimSucceeds(s, c);
  }

  /** One that cannot be prepared ends at once; lost rights and a missing mail server disable the plan as well. */
  lemma UnpreparedExecution(s: Rows, c: Claim, code: string)
    requires Claimable(s, c) && c.copy.activeRun == 0
    ensures var s' := After(s, Execute(c, Unprepared(code)));
            && ClaimWritten(s, s', c) && s'.mails == s.mails && s'.plan.activeRun == 0
            && (s'.plan.enabled <==> code !in {"permission_revoked", "smtp_not_configured"})
            && var run := s'.runs[|s.runs|];
               && run.status == (if code == "no_data" then NoData else RunFailed)
               && run.errorCode == code && run.finishedAt == c.now && run.taskId == ""
  {
    ClaimSucceeds(s, c);
  }

  lemma ClaimSucceeds(s: Rows, c: Claim)
    requires Claimable(s, c)
    ensures c.Succeeds(s)
  {
    forall i | 0 <= i < |s.runs|
      ensures s.runs[i].occurrence != c.occurrence
    {
      assert s.runs[i] in s.runs;
    }
  }

  // ---------------------------------------------------------------- the other steps

  /** The mails no worker has started are cancelled, of one run or of all; the others stay. */
  predicate UnsentCancelled(before: seq<Mail>, after: seq<Mail>, concerned: Mail -> bool) {
    && |after| == |before|
    && forall i :: 0 <= i < |before| ==>
         var mail := before[i];
         after[i] == if concerned(mail) && mail.row.status in {D.Pending, D.Retry} then
                       mail.(row := mail.row.(status := D.Cancelled, version := mail.row.version + 1))
                     else mail
  }

  /** A run under way ends as it is told; its unsent mails go, and the plan is free again if it was the active one. */
  lemma FinishEnds(s: Rows, id: nat, status: string, code: string, now: int)
    requires 0 < id <= |s.runs|
    ensures var s', run := After(s, Finish(id, status, code, now)), s.runs[id - 1];
            && s'.plan == s.plan.(activeRun := if s.plan.activeRun == id then 0 else s.plan.activeRun)
            && s'.runs == s.runs[id - 1 := if run.status in {Exporting, Delivering} then
                                             run.(status := Ended(status), errorCode := code, finishedAt := now)
                                           else run]
            && UnsentCancelled(s.mails, s'.mails, (mail: Mail) => mail.run == id)
  {
  }

  /** Starting a mail of the active run of an enabled plan moves the plan's version; otherwise nothing happens. */
  lemma SendIsGuarded(s: Rows, i: nat, version: int, worker: string, now: int)
    requires i < |s.mails|
    ensures var s', mail := After(s, Send(i, version, worker, now)), s.mails[i];
            if s.plan.enabled && s.plan.deletedAt == 0 && s.plan.activeRun == mail.run then
              && s'.runs == s.runs && s'.plan == s.plan.(version := s.plan.version + 1)
              && s'.mails
                 == s.mails[i := if mail.row.version == version && mail.row.status in {D.Pending, D.Retry} then
                                   mail.(row := D.Delivery(D.Sending, version + 1, mail.row.attempts + 1, worker,
                                                           now + 120))
                                 else mail]
            else s' == s
  {
  }

  /** Settling touches one mail, recovering those whose mark has run out. */
  lemma SettleAndRecover(s: Rows, i: nat, worker: string, copyAttempts: int, reply: D.Reply, now: int)
    requires i < |s.mails|
    ensures var s' := After(s, Settle(i, worker, copyAttempts, reply));
            && s'.plan == s.plan && s'.runs == s.runs && |s'.mails| == |s.mails|
            && (forall j :: 0 <= j < |s.mails| && j != i ==> s'.mails[j] == s.mails[j])
            && s'.mails[i].run == s.mails[i].run && s'.mails[i].recipient == s.mails[i].recipient
            && s'.mails[i].row == D.After(s.mails[i].row, D.Settle(worker, copyAttempts, reply))
    ensures var s' := After(s, Recover(now));
            && s'.plan == s.plan && s'.runs == s.runs && |s'.mails| == |s.mails|
            && forall j :: 0 <= j < |s.mails| ==>
                 var d := s.mails[j].row;
                 s'.mails[j] == if d.status == D.Sending && d.leaseUntil <= now then
                                  s.mails[j].(row := D.Delivery(D.Uncertain, d.version + 1, d.attempts, "", 0))
                                else s.mails[j]
  {
  }

  /** A retry needs the plan and the mail as the user saw them and no other run under way. */
  lemma RetryReopens(s: Rows, version: int, i: nat, mailVersion: int, seen: D.Status, confirmed: bool)
    requires i < |s.mails| && 0 < s.mails[i].run <= |s.runs|
    ensures var s', mail := After(s, Retry(version, i, D.Reopen(mailVersion, seen, confirmed))), s.mails[i];
            if s.plan.version == version && s.plan.enabled && s.plan.deletedAt == 0
               && (s.plan.activeRun == 0 || s.plan.activeRun == mail.run)
               && mail.row.version == mailVersion && mail.row.status == seen
               && (seen == D.Failed || (seen == D.Uncertain && confirmed)) then
              var run := s.runs[mail.run - 1];
              && s'.plan == s.plan.(activeRun := mail.run, version := s.plan.version + 1)
              && s'.runs == s.runs[mail.run - 1 := run.(status := Delivering, errorCode := "", finishedAt := 0)]
              && s'.mails == s.mails[i := mail.(row := mail.row.(status := D.Pending, version := mailVersion + 1,
                                                                 attempts := 0))]
            else s' == s
  {
  }

  /** An edit of the version that was read writes the plan; a plan left disabled loses its unsent mails. */
  lemma EditIsFenced(s: Rows, version: int, enabled: bool, deletedAt: int, nextAt: int, now: int)
    ensures var s' := After(s, Edit(version, enabled, deletedAt, nextAt, now));
            if s.plan.version == version && s.plan.deletedAt == 0 then
              && s'.runs == s.runs
              && s'.plan == Plan(version + 1, enabled, deletedAt, nextAt, s.plan.activeRun)
              && (if enabled then s'.mails == s.mails else UnsentCancelled(s.mails, s'.mails, (mail: Mail) => true))
            else s' == s
  {
  }

  /** Suspending disables the plan and cancels what is unsent; withdrawing only cancels. */
  lemma SuspendAndWithdraw(s: Rows)
    ensures var s' := After(s, Suspend);
            && s'.runs == s.runs && s'.plan == s.plan.(version := s.plan.version + 1, enabled := false)
            && UnsentCancelled(s.mails, s'.mails, (mail: Mail) => true)
    ensures var s' := After(s, Withdraw);
            s'.runs == s.runs && s'.plan == s.plan && UnsentCancelled(s.mails, s'.mails, (mail: Mail) => true)
  {
  }
}
