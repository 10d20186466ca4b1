/**
 A usage export and its task are cancelled together or not at all, and nothing takes either of
 them out of that state again.
 */
module ExportCancellation {
  import opened TaskTables
  import opened TaskStatements

  /** What must hold of one export row while its task row exists. */
  predicate PairAgrees(e: Export, task: Task) {
    && (e.status.ExportCancelled? <==> task.status.Cancelled?)
    && (e.status.ExportSucceeded? || e.status.ExportExpired? ==> !task.status.Active())
  }

  ghost predicate PairsAgree(s: Tables) {
    forall t :: t in s.exports && t in s.tasks ==> PairAgrees(s.exports[t], s.tasks[t])
  }

  lemma PairsAgreeQueue(s: Tables, q: QueueStatement)
    requires RowsFit(s) && PairsAgree(s)
    ensures PairsAgree(ApplyQueue(s, q))
  {
  }

  lemma PairsAgreeExports(s: Tables, e: ExportStatement)
    requires RowsFit(s) && PairsAgree(s) && Legal(s, Exports(e))
    ensures PairsAgree(ApplyExports(s, e))
  {
  }

  lemma PairsAgreeOperations(s: Tables, p: OperationStatement)
    requires RowsFit(s) && PairsAgree(s)
    ensures PairsAgree(ApplyOperations(s, p))
  {
  }

  lemma {:induction false} PairsAgreeRun(s: Tables, cs: seq<Statement>)
    requires RowsFit(s) && PairsAgree(s) && LegalRun(s, cs)
    ensures RowsFit(Run(s, cs)) && PairsAgree(Run(s, cs))
  {
    if cs != [] {
      var before := cs[..|cs| - 1];
      PairsAgreeRun(s, before);
      RowsFitStep(Run(s, before), cs[|cs| - 1]);
      match cs[|cs| - 1]
      case Queue(q) => PairsAgreeQueue(Run(s, before), q);
      case Exports(e) => PairsAgreeExports(Run(s, before), e);
      case Operations(p) => PairsAgreeOperations(Run(s, before), p);
    }
  }

  /** While both rows exist the export is cancelled iff its task is, in every interleaving. */
  lemma CancelledTogether(cs: seq<Statement>, t: TaskId)
    requires LegalRun(EMPTY, cs)
    requires t in Run(EMPTY, cs).exports && t in Run(EMPTY, cs).tasks
    ensures Run(EMPTY, cs).exports[t].status.ExportCancelled? <==> Run(EMPTY, cs).tasks[t].status.Cancelled?
  {
    PairsAgreeRun(EMPTY, cs);
  }

  /** A cancel racing a claim: whichever statement comes first wins, and the other matches nothing. */
  lemma CancelRacesClaim(s: Tables, t: TaskId, actorId: int, root: bool, r: RunnerId, now: int, now': int)
    ensures var cancelled := CancelExport(s, t, actorId, root, now);
            cancelled == s || (cancelled.exports[t].status.ExportCancelled? && cancelled.tasks[t].status.Cancelled?
                               && StartRun(cancelled, t, r, now') == cancelled)
    ensures var started := StartRun(s, t, r, now');
            started == s || CancelExport(started, t, actorId, root, now) == started
  {
  }

  // ---------------------------------------------------------------- finality

  /** Gone, or in one of the given final states. */
  predicate Cancelled(s: Tables, t: TaskId) {
    && t in s.issued
    && (t in s.exports ==> s.exports[t].status.ExportCancelled?)
    && (t in s.tasks ==> s.tasks[t].status.Cancelled?)
  }

  lemma CancelledQueue(s: Tables, q: QueueStatement, t: TaskId)
    requires RowsFit(s) && Cancelled(s, t)
    ensures Cancelled(ApplyQueue(s, q), t)
  {
  }

  lemma CancelledExports(s: Tables, e: ExportStatement, t: TaskId)
    requires RowsFit(s) && Cancelled(s, t) && Legal(s, Exports(e))
    ensures Cancelled(ApplyExports(s, e), t)
  {
  }

  lemma CancelledOperations(s: Tables, p: OperationStatement, t: TaskId)
    requires RowsFit(s) && Cancelled(s, t)
    ensures Cancelled(ApplyOperations(s, p), t)
  {
  }

  lemma CancelledStep(s: Tables, c: Statement, t: TaskId)
    requires RowsFit(s) && Cancelled(s, t) && Legal(s, c)
    ensures Cancelled(Apply(s, c), t)
  {
    match c
    case Queue(q) => CancelledQueue(s, q, t);
    case Exports(e) => CancelledExports(s, e, t);
    case Operations(p) => CancelledOperations(s, p, t);
  }

  /** No start, requeue, expiry or finish, fenced or not, leaves the cancelled state. */
  lemma {:induction false} CancelIsFinal(s: Tables, cs: seq<Statement>, t: TaskId)
    requires RowsFit(s) && LegalRun(s, cs) && Cancelled(s, t)
    ensures Cancelled(Run(s, cs), t)
  {
    if cs != [] {
      CancelIsFinal(s, cs[..|cs| - 1], t);
      RowsFitRun(s, cs[..|cs| - 1]);
      CancelledStep(Run(s, cs[..|cs| - 1]), cs[|cs| - 1], t);
    }
  }

  /** Gone, or a finished file that may by now have expired. */
  predicate Published(s: Tables, t: TaskId) {
    && t in s.issued
    && (t in s.exports ==> s.exports[t].status.ExportSucceeded? || s.exports[t].status.ExportExpired?)
    && (t in s.tasks ==> !s.tasks[t].status.Active())
  }

  lemma PublishedQueue(s: Tables, q: QueueStatement, t: TaskId)
    requires RowsFit(s) && Published(s, t)
    ensures Published(ApplyQueue(s, q), t)
  {
  }

  lemma PublishedExports(s: Tables, e: ExportStatement, t: TaskId)
    requires RowsFit(s) && Published(s, t)
    ensures Published(ApplyExports(s, e), t)
  {
  }

  lemma PublishedOperations(s: Tables, p: OperationStatement, t: TaskId)
    requires RowsFit(s) && Published(s, t)
    ensures Published(ApplyOperations(s, p), t)
  {
  }

  lemma PublishedStep(s: Tables, c: Statement, t: TaskId)
    requires RowsFit(s) && Published(s, t)
    ensures Published(Apply(s, c), t)
  {
    match c
    case Queue(q) => PublishedQueue(s, q, t);
    case Exports(e) => PublishedExports(s, e, t);
    case Operations(p) => PublishedOperations(s, p, t);
  }

  lemma {:induction false} PublishedStays(s: Tables, cs: seq<Statement>, t: TaskId)
    requires RowsFit(s) && LegalRun(s, cs) && Published(s, t)
    ensures Published(Run(s, cs), t)
  {
    if cs != [] {
      PublishedStays(s, cs[..|cs| - 1], t);
      RowsFitRun(s, cs[..|cs| - 1]);
      PublishedStep(Run(s, cs[..|cs| - 1]), cs[|cs| - 1], t);
    }
  }

  /**
   The export expiry pass reads its ids in one statement and updates them by id alone in another.
   Whatever happens in between, the ids still name finished files, so the unguarded update is safe.
   */
  lemma ExpiryPassIsSafe(s: Tables, cs: seq<Statement>, now: int, later: int)
    requires RowsFit(s) && PairsAgree(s) && LegalRun(s, cs)
    ensures Legal(Run(s, cs), Exports(DoExpireExports(ExpirableExports(s, now), later)))
  {
    forall t | t in ExpirableExports(s, now)
      ensures Published(Run(s, cs), t)
    {
      PublishedStays(s, cs, t);
    }
  }
}
