/** Queue positions: with R running and P pending exports the pending ones stand at exactly R+1..R+P, oldest first. */
module ExportQueue {
  import opened TaskTables
  import opened TaskStatements
  import opened Ordering

  function RunningExports(s: Tables): set<TaskId> {
    set t | t in s.exports && s.exports[t].status.ExportRunning?
  }

  function PendingExports(s: Tables): set<TaskId> {
    set t | t in s.exports && s.exports[t].status.ExportPending?
  }

  /** The rows counted for a pending record. */
  function CountedExports(s: Tables, rowId: int): set<TaskId> {
    set t | t in s.exports && (s.exports[t].status.ExportRunning?
                               || (s.exports[t].status.ExportPending? && s.exports[t].rowId <= rowId))
  }

  /** The position reported for a record read from the table. */
  function QueuePosition(s: Tables, record: Export): int {
    if record.status.ExportRunning? then 1
    else if !record.status.ExportPending? then 0
    else |CountedExports(s, record.rowId)|
  }

  ghost predicate DistinctRows(s: Tables) {
    forall t, u :: t in s.exports && u in s.exports && s.exports[t].rowId == s.exports[u].rowId ==> t == u
  }

  /** Row ids of surviving records do not change. */
  ghost predicate RowsKept(s: Tables, s': Tables) {
    forall t :: t in s'.exports ==> t in s.exports && s'.exports[t].rowId == s.exports[t].rowId
  }

  lemma QueueKeepsRows(s: Tables, q: QueueStatement)
    ensures RowsKept(s, ApplyQueue(s, q))
  {
  }

  lemma ExportsKeepRows(s: Tables, e: ExportStatement)
    requires !e.DoCreateExport?
    ensures RowsKept(s, ApplyExports(s, e))
  {
  }

  lemma {:induction false} DistinctRowsAlways(cs: seq<Statement>)
    ensures DistinctRows(Run(EMPTY, cs))
  {
    if cs != [] {
      var s, c := Run(EMPTY, cs[..|cs| - 1]), cs[|cs| - 1];
      DistinctRowsAlways(cs[..|cs| - 1]);
      match c
      case Queue(q) => QueueKeepsRows(s, q);
      case Exports(e) => if !e.DoCreateExport? { ExportsKeepRows(s, e); }
      case Operations(_) =>
    }
  }

  /** The members of `ids` up to and including `t` in row order. */
  function UpTo(s: Tables, ids: set<TaskId>, t: TaskId): set<TaskId>
    requires ids <= s.exports.Keys && t in s.exports
  {
    set u | u in ids && s.exports[u].rowId <= s.exports[t].rowId
  }

  lemma PositionIsRank(s: Tables, t: TaskId)
    requires t in PendingExports(s)
    ensures QueuePosition(s, s.exports[t]) == |RunningExports(s)| + |UpTo(s, PendingExports(s), t)|
  {
    assert CountedExports(s, s.exports[t].rowId) == RunningExports(s) + UpTo(s, PendingExports(s), t);
    assert RunningExports(s) !! UpTo(s, PendingExports(s), t);
  }

  lemma SubsetCardinality<T>(a: set<T>, b: set<T>)
    requires a <= b
    ensures |a| <= |b| && (a != b ==> |a| < |b|)
  {
    assert b == a + (b - a);
    assert |b| == |a| + |b - a|;
  }

  lemma RanksIncrease(s: Tables, ids: set<TaskId>, t: TaskId, u: TaskId)
    requires ids <= s.exports.Keys && t in ids && u in ids && s.exports[t].rowId < s.exports[u].rowId
    ensures 1 <= |UpTo(s, ids, t)| < |UpTo(s, ids, u)| <= |ids|
  {
    assert u in UpTo(s, ids, u) && u !in UpTo(s, ids, t);
    SubsetCardinality(UpTo(s, ids, t), UpTo(s, ids, u));
    SubsetCardinality(UpTo(s, ids, u), ids);
    SubsetCardinality({t}, UpTo(s, ids, t));
  }

  /** The last of a set of rows. */
  lemma {:induction false} LastExists(s: Tables, ids: set<TaskId>)
    requires ids != {} && ids <= s.exports.Keys
    ensures exists t :: t in ids && UpTo(s, ids, t) == ids
  {
    var t := Any(ids);
    var above := ids - UpTo(s, ids, t);
    if above == {} {
      assert forall u :: u in ids && u !in UpTo(s, ids, t) ==> u in above;
      assert UpTo(s, ids, t) == ids;
    } else {
      LastExists(s, above);
      var l :| l in above && UpTo(s, above, l) == above;
      forall u | u in ids
        ensures u in UpTo(s, ids, l)
      {
        assert u in above ==> u in UpTo(s, above, l);
      }
      assert UpTo(s, ids, l) == ids;
    }
  }

  lemma {:induction false} EveryRankTaken(s: Tables, ids: set<TaskId>, rank: int)
    requires DistinctRows(s) && ids <= s.exports.Keys && 1 <= rank <= |ids|
    ensures exists t :: t in ids && |UpTo(s, ids, t)| == rank
    decreases |ids|
  {
    LastExists(s, ids);
    var l :| l in ids && UpTo(s, ids, l) == ids;
    if rank < |ids| {
      var rest := ids - {l};
      EveryRankTaken(s, rest, rank);
      var t :| t in rest && |UpTo(s, rest, t)| == rank;
      assert t in UpTo(s, ids, l);
      assert UpTo(s, ids, t) == UpTo(s, rest, t);
    }
  }

  ghost predicate Taken(s: Tables, position: int) {
    exists t :: t in PendingExports(s) && QueuePosition(s, s.exports[t]) == position
  }

  /** A running export reports position one, one that has ended none. */
  lemma OtherPositions(s: Tables, record: Export)
    requires record.status != ExportPending
    ensures QueuePosition(s, record) == if record.status == ExportRunning then 1 else 0
  {
  }

  /** The positions of the pending exports are R+1..R+P, each taken once, in ascending id order. */
  lemma PositionsAreConsecutive(cs: seq<Statement>)
    ensures var s := Run(EMPTY, cs);
            var R, P := |RunningExports(s)|, |PendingExports(s)|;
            && (forall t :: t in PendingExports(s) ==> R + 1 <= QueuePosition(s, s.exports[t]) <= R + P)
            && (forall p :: R + 1 <= p <= R + P ==> Taken(s, p))
            && (forall t, u :: t in PendingExports(s) && u in PendingExports(s) ==>
                  (s.exports[t].rowId < s.exports[u].rowId
                   <==> QueuePosition(s, s.exports[t]) < QueuePosition(s, s.exports[u])))
  {
    DistinctRowsAlways(cs);
    var s := Run(EMPTY, cs);
    var ids := PendingExports(s);
    var R, P := |RunningExports(s)|, |ids|;
    forall t | t in ids
      ensures R + 1 <= QueuePosition(s, s.exports[t]) <= R + P
    {
      PositionIsRank(s, t);
      SubsetCardinality({t}, UpTo(s, ids, t));
      SubsetCardinality(UpTo(s, ids, t), ids);
    }
    forall p | R + 1 <= p <= R + P
      ensures Taken(s, p)
    {
      EveryRankTaken(s, ids, p - R);
      var t :| t in ids && |UpTo(s, ids, t)| == p - R;
      PositionIsRank(s, t);
    }
    forall t, u | t in ids && u in ids
      ensures s.exports[t].rowId < s.exports[u].rowId
              <==> QueuePosition(s, s.exports[t]) < QueuePosition(s, s.exports[u])
    {
      PositionIsRank(s, t);
      PositionIsRank(s, u);
      if s.exports[t].rowId < s.exports[u].rowId {
        RanksIncrease(s, ids, t, u);
      } else if s.exports[u].rowId < s.exports[t].rowId {
        RanksIncrease(s, ids, u, t);
      }
    }
  }
}
