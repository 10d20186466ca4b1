/** One export schedule, its runs and their mails, and the versioned statements that claim, finish, send and reopen. */
module ExportSchedules {
  import opened ExportDeliveries

  const LEASE_SECONDS := 120

  datatype Plan = Plan(version: int, enabled: bool, deletedAt: int, nextAt: int, activeRun: nat)

  datatype RunStatus = Preparing | Skipped | NoData | RunFailed | Exporting | Delivering | Ended(status: string) {
    predicate Unfinished() { Preparing? || Exporting? || Delivering? }
  }

  datatype Run = Run(occurrence: string, scheduledAt: int, scheduleVersion: int, manual: bool, status: RunStatus,
                     taskId: string, errorCode: string, leaseOwner: string, leaseUntil: int, finishedAt: int)

  /** The delivery of a run's file to one recipient. */
  datatype Mail = Mail(run: nat, recipient: string, row: Delivery)

  /** The rows of one schedule; run ids count from one, and zero in `activeRun` stands for none. */
  datatype Rows = Rows(plan: Plan, runs: seq<Run>, mails: seq<Mail>)

  /** A claimer's call: `copy` is the plan as it read it, however long ago. */
  datatype Claim = Claim(planId: int, copy: Plan, occurrence: string, scheduledAt: int, nextAt: int, now: int,
                         manual: bool, worker: string)
  {
    predicate WellFormed() {
      && planId > 0 && copy.version > 0 && occurrence != "" && scheduledAt > 0 && worker != ""
      && (!manual ==> nextAt > scheduledAt)
    }

    /** The WHERE clause of the claim. */
    predicate Matches(plan: Plan) {
      && plan.version == copy.version && plan.enabled && plan.deletedAt == 0 && plan.activeRun == copy.activeRun
      && (!manual ==> plan.nextAt == scheduledAt)
    }

    predicate Succeeds(s: Rows) {
      WellFormed() && Matches(s.plan) && forall i :: 0 <= i < |s.runs| ==> s.runs[i].occurrence != occurrence
    }
  }

  /** What became of the preparation, decided before and inside the transaction. */
  datatype Preparation = Prepared(taskId: string, recipients: seq<string>) | Unprepared(code: string)

  const NO_DATA := "no_data"

  predicate Disabling(code: string) {
    code == "permission_revoked" || code == "smtp_not_configured"
  }

  predicate Distinct(recipients: seq<string>) {
    forall i, j :: 0 <= i < j < |recipients| ==> recipients[i] != recipients[j]
  }

  function ClaimedPlan(plan: Plan, c: Claim): Plan {
    plan.(version := plan.version + 1, nextAt := if c.manual then plan.nextAt else c.nextAt)
  }

  const NEW_DELIVERY := Delivery(Pending, 1, 0, "", 0)

  function NewMails(run: nat, recipients: seq<string>): seq<Mail> {
    seq(|recipients|, i requires 0 <= i < |recipients| => Mail(run, recipients[i], NEW_DELIVERY))
  }

  /** A refused claim, or a recipient listed twice, rolls the transaction of an occurrence back. */
  predicate Executes(s: Rows, c: Claim, p: Preparation) {
    c.Succeeds(s) && (c.copy.activeRun == 0 && p.Prepared? ==> Distinct(p.recipients))
  }

  /** The transaction of one occurrence: claim, then skip, fail or start exporting with a mail for each recipient. */
  function Executed(s: Rows, c: Claim, p: Preparation): Rows {
    if !Executes(s, c, p) then s
    else
      var plan, id := ClaimedPlan(s.plan, c), |s.runs| + 1;
      var run := Run(c.occurrence, c.scheduledAt, c.copy.version, c.manual, Exporting, "", "", "", 0, 0);
      if c.copy.activeRun != 0 then
        Rows(plan, s.runs + [run.(status := Skipped, errorCode := "overlapping_run", finishedAt := c.now)], s.mails)
      else match p
           case Prepared(taskId, recipients) =>
             Rows(plan.(activeRun := id), s.runs + [run.(taskId := taskId)], s.mails + NewMails(id, recipients))
           case Unprepared(code) =>
             Rows(plan.(enabled := plan.enabled && !Disabling(code)),
                  s.runs + [run.(status := if code == NO_DATA then NoData else RunFailed, errorCode := code,
                                 finishedAt := c.now)], s.mails)
  }

  function Updated(mail: Mail, step: ExportDeliveries.Step): Mail {
    mail.(row := ExportDeliveries.After(mail.row, step))
  }

  /** Mails that were not started yet are cancelled, those of one run or, for run zero, all of the schedule's. */
  function Unsent(mails: seq<Mail>, run: nat): seq<Mail> {
    seq(|mails|, i requires 0 <= i < |mails| =>
      if run == 0 || mails[i].run == run then Updated(mails[i], ExportDeliveries.Cancel) else mails[i])
  }

  /** Ending a run cancels its unsent mails and releases the schedule when the run is the active one. */
  function Finished(s: Rows, id: nat, status: string, code: string, now: int): Rows
    requires 0 < id <= |s.runs|
  {
    var run := s.runs[id - 1];
    Rows(if s.plan.activeRun == id then s.plan.(activeRun := 0) else s.plan,
         if run.status.Exporting? || run.status.Delivering? then
           s.runs[id - 1 := run.(status := Ended(status), errorCode := code, finishedAt := now)]
         else s.runs,
         Unsent(s.mails, id))
  }

  /** A mail may be started only for the active run of an enabled plan. */
  predicate Guard(s: Rows, run: nat) {
    s.plan.enabled && s.plan.deletedAt == 0 && s.plan.activeRun == run
  }

  /** The guard moves the plan's version, whether or not the mail is still there to be started. */
  function Started(s: Rows, i: nat, copyVersion: int, worker: string, now: int): Rows
    requires i < |s.mails|
  {
    if Guard(s, s.mails[i].run) then
      s.(plan := s.plan.(version := s.plan.version + 1),
         mails := s.mails[i := Updated(s.mails[i], Start(copyVersion, worker, true, now))])
    else s
  }

  function Settled(s: Rows, i: nat, worker: string, copyAttempts: int, reply: Reply): Rows
    requires i < |s.mails|
  {
    s.(mails := s.mails[i := Updated(s.mails[i], ExportDeliveries.Settle(worker, copyAttempts, reply))])
  }

  function Recovered(s: Rows, now: int): Rows {
    s.(mails := seq(|s.mails|, i requires 0 <= i < |s.mails| => Updated(s.mails[i], ExportDeliveries.Recover(now))))
  }

  /** Both rows still match: no other run is active, and the mail is as the user saw it. */
  predicate Retries(s: Rows, copyVersion: int, i: nat, reopen: ExportDeliveries.Step)
    requires i < |s.mails|
  {
    && s.plan.version == copyVersion && s.plan.enabled && s.plan.deletedAt == 0
    && s.plan.activeRun in {0, s.mails[i].run}
    && reopen.Reopen? && Hits(s.mails[i].row, reopen)
  }

  /** Retrying a mail makes its run the active one again and reopens it, or changes nothing at all. */
  function Retried(s: Rows, copyVersion: int, i: nat, reopen: ExportDeliveries.Step): Rows
    requires i < |s.mails| && 0 < s.mails[i].run <= |s.runs|
  {
    if Retries(s, copyVersion, i, reopen) then
      var id := s.mails[i].run;
      Rows(s.plan.(activeRun := id, version := s.plan.version + 1),
           s.runs[id - 1 := s.runs[id - 1].(status := Delivering, errorCode := "", finishedAt := 0)],
           s.mails[i := Updated(s.mails[i], reopen)])
    else s
  }

  /**
   Saving, pausing, resuming and deleting a plan and skipping missed slots are all fenced by the version; a plan that is
   not enabled afterwards loses its unsent mails.
   */
  function Edited(s: Rows, copyVersion: int, enabled: bool, deletedAt: int, nextAt: int): Rows {
    if s.plan.version == copyVersion && s.plan.deletedAt == 0 then
      s.(plan := s.plan.(version := s.plan.version + 1, enabled := enabled, deletedAt := deletedAt, nextAt := nextAt),
         mails := if enabled then s.mails else Unsent(s.mails, 0))
    else s
  }

  function Suspended(s: Rows): Rows {
    s.(plan := s.plan.(version := s.plan.version + 1, enabled := false), mails := Unsent(s.mails, 0))
  }

  datatype Step = Execute(claim: Claim, preparation: Preparation)
                | Finish(run: nat, status: string, code: string, now: int)
                | Send(mail: nat, copyVersion: int, worker: string, now: int)
                | Settle(mail: nat, worker: string, copyAttempts: int, reply: Reply)
                | Recover(now: int)
                | Retry(planVersion: int, mail: nat, reopen: ExportDeliveries.Step)
                | Edit(planVersion: int, enabled: bool, deletedAt: int, nextAt: int, now: int)
                | Suspend
                | Withdraw

  /** The rows a step names exist. */
  predicate Named(s: Rows, step: Step) {
    && (step.Finish? ==> 0 < step.run <= |s.runs|)
    && (step.Send? || step.Settle? || step.Retry? ==> step.mail < |s.mails|)
    && (step.Retry? ==> 0 < s.mails[step.mail].run <= |s.runs|)
  }

  /**
   What callers keep to: a claim that takes effect read its clock no earlier than the steps it follows, scheduled slots
   have come and the next one lies in the future, edits either keep the planned slot or move it into the future, and a
   worker settles the start it made itself. `clock` is the time of the latest step that took effect.
   */
  predicate Legal(s: Rows, step: Step, clock: int) {
    Named(s, step) &&
    match step
    case Execute(c, _) => c.Succeeds(s) ==> clock <= c.now && (!c.manual ==> c.scheduledAt <= c.now < c.nextAt)
    case Edit(v, _, _, nextAt, now) => v == s.plan.version ==> clock <= now && (nextAt == s.plan.nextAt || nextAt > now)
    case Settle(i, worker, copyAttempts, reply) =>
      ExportDeliveries.Legal(s.mails[i].row, ExportDeliveries.Settle(worker, copyAttempts, reply))
    case _ => true
  }

  function After(s: Rows, step: Step): Rows
    requires Named(s, step)
  {
    match step
    case Execute(c, p) => Executed(s, c, p)
    case Finish(id, status, code, now) => Finished(s, id, status, code, now)
    case Send(i, v, worker, now) => Started(s, i, v, worker, now)
    case Settle(i, worker, copyAttempts, reply) => Settled(s, i, worker, copyAttempts, reply)
    case Recover(now) => Recovered(s, now)
    case Retry(v, i, reopen) => Retried(s, v, i, reopen)
    case Edit(v, enabled, deletedAt, nextAt, _) => Edited(s, v, enabled, deletedAt, nextAt)
    case Suspend => Suspended(s)
    case Withdraw => s.(mails := Unsent(s.mails, 0))
  }

  /** The clock moves with the steps that take a time and an effect. */
  function Clock(s: Rows, step: Step, clock: int): int {
    match step
    case Execute(c, p) => if Executes(s, c, p) then c.now else clock
    case Edit(v, _, _, _, now) => if v == s.plan.version then now else clock
    case _ => clock
  }

  predicate LegalSteps(s: Rows, steps: seq<Step>, clock: int)
    decreases |steps|
  {
    steps == []
    || (Legal(s, steps[0], clock) && LegalSteps(After(s, steps[0]), steps[1..], Clock(s, steps[0], clock)))
  }

  function Play(s: Rows, steps: seq<Step>, clock: int): Rows
    requires LegalSteps(s, steps, clock)
    decreases |steps|
  {
    if steps == [] then s else Play(After(s, steps[0]), steps[1..], Clock(s, steps[0], clock))
  }

  // ---------------------------------------------------------------- what every history keeps

  /** The active run is the unfinished one; no transaction leaves a run in preparation. */
  predicate ActiveIsUnfinished(s: Rows) {
    && s.plan.activeRun <= |s.runs|
    && (forall i :: 0 <= i < |s.runs| ==> (s.runs[i].status.Unfinished() <==> s.plan.activeRun == i + 1))
    && (forall i :: 0 <= i < |s.runs| ==> !s.runs[i].status.Preparing?)
  }

  /** Runs hold distinct versions in the order of their ids, all older than the plan's. */
  predicate VersionsIncrease(s: Rows) {
    && (forall i, j :: 0 <= i < j < |s.runs| ==> s.runs[i].scheduleVersion < s.runs[j].scheduleVersion)
    && (forall i :: 0 <= i < |s.runs| ==> s.runs[i].scheduleVersion < s.plan.version)
  }

  /**
   Scheduled runs hold strictly increasing slots, the planned slot lies after all of them, and none lies in the
   future.
   */
  predicate SlotsIncrease(s: Rows, clock: int) {
    && (forall i, j :: 0 <= i < j < |s.runs| && !s.runs[i].manual && !s.runs[j].manual ==>
          s.runs[i].scheduledAt < s.runs[j].scheduledAt)
    && (forall i :: 0 <= i < |s.runs| && !s.runs[i].manual ==> s.runs[i].scheduledAt < s.plan.nextAt)
    && (forall i :: 0 <= i < |s.runs| && !s.runs[i].manual ==> s.runs[i].scheduledAt <= clock)
  }

  /** Every mail belongs to a run, and no run mails one recipient twice. */
  predicate MailsFit(s: Rows) {
    && (forall i :: 0 <= i < |s.mails| ==> 0 < s.mails[i].run <= |s.runs|)
    && (forall i, j :: 0 <= i < j < |s.mails| && s.mails[i].run == s.mails[j].run ==>
          s.mails[i].recipient != s.mails[j].recipient)
  }

  predicate Invariant(s: Rows, clock: int) {
    ActiveIsUnfinished(s) && VersionsIncrease(s) && SlotsIncrease(s, clock) && MailsFit(s)
  }

  lemma ExecuteKeepsActive(s: Rows, c: Claim, p: Preparation)
    requires ActiveIsUnfinished(s)
    ensures ActiveIsUnfinished(Executed(s, c, p))
  {
  }

  lemma ExecuteKeepsVersions(s: Rows, c: Claim, p: Preparation)
    requires VersionsIncrease(s)
    ensures VersionsIncrease(Executed(s, c, p))
  {
  }

  lemma ExecuteKeepsSlots(s: Rows, c: Claim, p: Preparation, clock: int)
    requires SlotsIncrease(s, clock) && Legal(s, Execute(c, p), clock)
    ensures SlotsIncrease(Executed(s, c, p), Clock(s, Execute(c, p), clock))
  {
  }

  lemma ExecuteKeepsMails(s: Rows, c: Claim, p: Preparation)
    requires MailsFit(s)
    ensures MailsFit(Executed(s, c, p))
  {
    var t := Executed(s, c, p);
    assert forall i :: 0 <= i < |s.mails| ==> t.mails[i] == s.mails[i];
    assert forall i :: |s.mails| <= i < |t.mails| ==> t.mails[i].run == |s.runs| + 1;
    assert forall i :: |s.mails| <= i < |t.mails| ==> t.mails[i].recipient == p.recipients[i - |s.mails|];
  }

  /** Same versions, slots and recipients of the rows: only states may differ. */
  lemma SameClaimsKeep(s: Rows, t: Rows, clock: int)
    requires VersionsIncrease(s) && SlotsIncrease(s, clock) && MailsFit(s)
    requires |t.runs| == |s.runs| && t.plan.nextAt == s.plan.nextAt && t.plan.version >= s.plan.version
    requires forall i :: 0 <= i < |s.runs| ==> t.runs[i].scheduleVersion == s.runs[i].scheduleVersion
                                               && t.runs[i].manual == s.runs[i].manual
                                               && t.runs[i].scheduledAt == s.runs[i].scheduledAt
    requires |t.mails| == |s.mails|
    requires forall i :: 0 <= i < |s.mails| ==>
               t.mails[i].run == s.mails[i].run && t.mails[i].recipient == s.mails[i].recipient
    ensures VersionsIncrease(t) && SlotsIncrease(t, clock) && MailsFit(t)
  {
  }

  lemma FinishKeepsActive(s: Rows, id: nat, status: string, code: string, now: int)
    requires ActiveIsUnfinished(s) && 0 < id <= |s.runs|
    ensures ActiveIsUnfinished(Finished(s, id, status, code, now))
  {
  }

  lemma RetryKeepsActive(s: Rows, v: int, i: nat, reopen: ExportDeliveries.Step)
    requires ActiveIsUnfinished(s) && i < |s.mails| && 0 < s.mails[i].run <= |s.runs|
    ensures ActiveIsUnfinished(Retried(s, v, i, reopen))
  {
  }

  lemma EditKeeps(s: Rows, v: int, enabled: bool, deletedAt: int, nextAt: int, now: int, clock: int)
    requires Invariant(s, clock) && Legal(s, Edit(v, enabled, deletedAt, nextAt, now), clock)
    ensures Invariant(Edited(s, v, enabled, deletedAt, nextAt), if v == s.plan.version then now else clock)
  {
    var moved := s.(plan := Edited(s, v, enabled, deletedAt, nextAt).plan);
    assert Invariant(moved, if v == s.plan.version then now else clock);
  }

  /** A step that leaves the runs and the active run alone. */
  lemma MailStepKeeps(s: Rows, step: Step, clock: int)
    requires Invariant(s, clock) && Named(s, step)
    requires step.Send? || step.Settle? || step.Recover? || step.Suspend? || step.Withdraw?
    ensures Invariant(After(s, step), clock)
  {
    SameClaimsKeep(s, After(s, step), clock);
  }

  lemma StepKeeps(s: Rows, step: Step, clock: int)
    requires Invariant(s, clock) && Legal(s, step, clock)
    ensures Invariant(After(s, step), Clock(s, step, clock))
  {
    match step
    case Execute(c, p) =>
      ExecuteKeepsActive(s, c, p);
      ExecuteKeepsVersions(s, c, p);
      ExecuteKeepsSlots(s, c, p, clock);
      ExecuteKeepsMails(s, c, p);
    case Finish(id, status, code, now) =>
      FinishKeepsActive(s, id, status, code, now);
      SameClaimsKeep(s, Finished(s, id, status, code, now), clock);
    case Retry(v, i, reopen) =>
      RetryKeepsActive(s, v, i, reopen);
      SameClaimsKeep(s, Retried(s, v, i, reopen), clock);
    case Edit(v, enabled, deletedAt, nextAt, now) => EditKeeps(s, v, enabled, deletedAt, nextAt, now, clock);
    case _ => MailStepKeeps(s, step, clock);
  }

  lemma VersionNeverFalls(s: Rows, step: Step)
    requires Named(s, step)
    ensures s.plan.version <= After(s, step).plan.version
  {
  }

  /** Along every history, however stale the copies the claimers hold. */
  lemma {:induction false} InvariantAlways(s: Rows, steps: seq<Step>, clock: int) returns (end: int)
    requires Invariant(s, clock) && LegalSteps(s, steps, clock)
    ensures Invariant(Play(s, steps, clock), end) && s.plan.version <= Play(s, steps, clock).plan.version
    decreases |steps|
  {
    if steps == [] {
      end := clock;
    } else {
      StepKeeps(s, steps[0], clock);
      VersionNeverFalls(s, steps[0]);
      end := InvariantAlways(After(s, steps[0]), steps[1..], Clock(s, steps[0], clock));
    }
  }

  function Fresh(nextAt: int, enabled: bool): Rows {
    Rows(Plan(1, enabled, 0, nextAt, 0), [], [])
  }

  /**
   No two runs of a schedule were claimed at one version or, when scheduled, for one slot; at most one is unfinished.
   */
  lemma RunsAreDistinct(nextAt: int, enabled: bool, steps: seq<Step>, clock: int, i: nat, j: nat)
    requires LegalSteps(Fresh(nextAt, enabled), steps, clock)
    requires i < j < |Play(Fresh(nextAt, enabled), steps, clock).runs|
    ensures var runs := Play(Fresh(nextAt, enabled), steps, clock).runs;
            && runs[i].scheduleVersion < runs[j].scheduleVersion
            && (!runs[i].manual && !runs[j].manual ==> runs[i].scheduledAt < runs[j].scheduledAt)
            && !(runs[i].status.Unfinished() && runs[j].status.Unfinished())
  {
    var end := InvariantAlways(Fresh(nextAt, enabled), steps, clock);
  }

  /** A claim takes the planned slot and plans the next one; a manual claim leaves the plan alone. */
  lemma ClaimTakesPlannedSlot(s: Rows, c: Claim, p: Preparation)
    requires Executes(s, c, p)
    ensures var t := Executed(s, c, p);
            && |t.runs| == |s.runs| + 1 && t.runs[..|s.runs|] == s.runs
            && t.runs[|s.runs|].scheduleVersion == s.plan.version < t.plan.version
            && (if c.manual then t.plan.nextAt == s.plan.nextAt
                else t.runs[|s.runs|].scheduledAt == s.plan.nextAt < t.plan.nextAt == c.nextAt)
            && (s.plan.activeRun != 0 ==>
                  t.runs[|s.runs|].status.Skipped? && t.plan.activeRun == s.plan.activeRun && t.mails == s.mails)
  {
  }

  /** Of any number of claimers holding one version of the plan, the first to succeed is the last. */
  lemma OneClaimPerVersion(s: Rows, c: Claim, p: Preparation, steps: seq<Step>, clock: int, late: Claim)
    requires Invariant(s, clock) && Legal(s, Execute(c, p), clock) && Executes(s, c, p)
    requires LegalSteps(Executed(s, c, p), steps, c.now) && late.copy.version <= c.copy.version
    ensures !late.Succeeds(Play(Executed(s, c, p), steps, c.now))
  {
    StepKeeps(s, Execute(c, p), clock);
    var end := InvariantAlways(Executed(s, c, p), steps, c.now);
  }

  // ---------------------------------------------------------------- what happens to one mail

  /** The statements of a step that touch mail i, by themselves. */
  function MailSteps(s: Rows, step: Step, i: nat): seq<ExportDeliveries.Step>
    requires Named(s, step) && i < |s.mails|
  {
    match step
    case Finish(id, _, _, _) => if s.mails[i].run == id then [ExportDeliveries.Cancel] else []
    case Send(j, v, worker, now) => if j == i && Guard(s, s.mails[i].run) then [Start(v, worker, true, now)] else []
    case Settle(j, worker, copyAttempts, reply) =>
      if j == i then [ExportDeliveries.Settle(worker, copyAttempts, reply)] else []
    case Recover(now) => [ExportDeliveries.Recover(now)]
    case Retry(v, j, reopen) => if j == i && Retries(s, v, i, reopen) then [reopen] else []
    case Edit(v, enabled, _, _, _) =>
      if v == s.plan.version && s.plan.deletedAt == 0 && !enabled then [ExportDeliveries.Cancel] else []
    case Suspend => [ExportDeliveries.Cancel]
    case Withdraw => [ExportDeliveries.Cancel]
    case Execute(_, _) => []
  }

  lemma StepOfMail(s: Rows, step: Step, i: nat, clock: int)
    requires Legal(s, step, clock) && i < |s.mails|
    ensures i < |After(s, step).mails| && After(s, step).mails[i].run == s.mails[i].run
    ensures |MailSteps(s, step, i)| <= 1 && ExportDeliveries.LegalSteps(s.mails[i].row, MailSteps(s, step, i))
    ensures After(s, step).mails[i].row == ExportDeliveries.Play(s.mails[i].row, MailSteps(s, step, i))
  {
    var steps := MailSteps(s, step, i);
    if steps != [] {
      assert steps[..|steps| - 1] == [] && ExportDeliveries.Play(s.mails[i].row, []) == s.mails[i].row;
      assert ExportDeliveries.LegalSteps(s.mails[i].row, []) && ExportDeliveries.Legal(s.mails[i].row, steps[0]);
    }
  }

  function MailHistory(s: Rows, steps: seq<Step>, clock: int, i: nat): seq<ExportDeliveries.Step>
    requires LegalSteps(s, steps, clock) && i < |s.mails|
    decreases |steps|
  {
    if steps == [] then []
    else
      StepOfMail(s, steps[0], i, clock);
      MailSteps(s, steps[0], i) + MailHistory(After(s, steps[0]), steps[1..], Clock(s, steps[0], clock), i)
  }

  /** Seen from one mail, a history of the schedule is a legal history of a delivery by itself. */
  lemma {:induction false} HistoryOfMail(s: Rows, steps: seq<Step>, clock: int, i: nat)
    requires LegalSteps(s, steps, clock) && i < |s.mails|
    ensures i < |Play(s, steps, clock).mails|
    ensures ExportDeliveries.LegalSteps(s.mails[i].row, MailHistory(s, steps, clock, i))
    ensures Play(s, steps, clock).mails[i].row == ExportDeliveries.Play(s.mails[i].row, MailHistory(s, steps, clock, i))
    decreases |steps|
  {
    if steps != [] {
      StepOfMail(s, steps[0], i, clock);
      var t, rest := After(s, steps[0]), MailHistory(After(s, steps[0]), steps[1..], Clock(s, steps[0], clock), i);
      HistoryOfMail(t, steps[1..], Clock(s, steps[0], clock), i);
      HistoriesJoin(s.mails[i].row, MailSteps(s, steps[0], i), rest);
    }
  }

  /**
   In every history of a schedule a new mail is started at most once more than the server rejected it for the time
   being and users asked for it, and without a request as often as its counter says and at most four times.
   */
  lemma MailsAreNotRepeated(s: Rows, steps: seq<Step>, clock: int, i: nat)
    requires LegalSteps(s, steps, clock) && i < |s.mails| && s.mails[i].row == NEW_DELIVERY
    ensures i < |Play(s, steps, clock).mails|
    ensures var history := MailHistory(s, steps, clock, i);
            && Starts(NEW_DELIVERY, history) <= 1 + Rejections(NEW_DELIVERY, history) + Requests(NEW_DELIVERY, history)
            && (Requests(NEW_DELIVERY, history) == 0 ==>
                  Starts(NEW_DELIVERY, history) == Play(s, steps, clock).mails[i].row.attempts <= MAX_RETRIES + 1)
  {
    HistoryOfMail(s, steps, clock, i);
    var history := MailHistory(s, steps, clock, i);
    StartsAreAccountedFor(NEW_DELIVERY, history);
    if Requests(NEW_DELIVERY, history) == 0 {
      AtMostFourStarts(NEW_DELIVERY, history);
    }
  }

  /**
   A mail is only ever started while its run is the unfinished one, on an enabled plan, and fences claims and edits.
   */
  lemma StartsBelongToActiveRun(s: Rows, step: Step, i: nat, clock: int)
    requires Invariant(s, clock) && Legal(s, step, clock) && i < |s.mails|
    requires !s.mails[i].row.status.Sending? && After(s, step).mails[i].row.status.Sending?
    ensures s.plan.enabled && s.runs[s.mails[i].run - 1].status.Unfinished()
    ensures After(s, step).plan.version == s.plan.version + 1
  {
    StepOfMail(s, step, i, clock);
  }
}
