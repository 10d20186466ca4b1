/**
 The unique active key. For every exclusive or scoped task outside usage exports the key is set
 exactly while the task is pending or running, so the unique index bounds the active tasks.
 */
module TaskKeys {
  import opened Options
  import opened TaskTables
  import opened TaskStatements
  import Text

  predicate ColonFree(s: Tables) {
    forall t :: t in s.issued ==> ':' !in s.issued[t].family.taskType
  }

  /**
   A key is present exactly while its task is active, and an unkeyed task never has one. Lease
   expiry may strip the key of a usage export that goes on, so for those only one half holds.
   */
  predicate KeyAgrees(origin: Origin, task: Task) {
    if task.family.taskType != USAGE_EXPORT then task.activeKey == if task.status.Active() then origin.Key() else None
    else task.activeKey.Some? ==> task.activeKey == origin.Key()
  }

  ghost predicate KeysAgree(s: Tables) {
    forall t :: t in s.tasks ==> t in s.issued && KeyAgrees(s.issued[t], s.tasks[t])
  }

  /** The unique index on active_key. */
  ghost predicate KeysUnique(s: Tables) {
    forall t, u ::
      t in s.tasks && u in s.tasks && s.tasks[t].activeKey.Some? && s.tasks[t].activeKey == s.tasks[u].activeKey ==>
        t == u
  }

  lemma KeysAgreeQueue(s: Tables, q: QueueStatement)
    requires TasksFit(s.issued, s.tasks) && KeysAgree(s)
    ensures KeysAgree(ApplyQueue(s, q))
  {
  }

  lemma KeysAgreeExports(s: Tables, e: ExportStatement)
    requires TasksFit(s.issued, s.tasks) && KeysAgree(s)
    ensures KeysAgree(ApplyExports(s, e))
  {
  }

  lemma KeysAgreeOperations(s: Tables, p: OperationStatement)
    requires TasksFit(s.issued, s.tasks) && KeysAgree(s)
    ensures KeysAgree(ApplyOperations(s, p))
  {
  }

  predicate Creates(c: Statement) {
    match c
    case Queue(DoCreate(_, _, _, _)) => true
    case Exports(DoCreateExport(_, _, _, _, _, _, _)) => true
    case Operations(DoQueueOperation(_, _, _, _)) => true
    case _ => false
  }

  /** Every key of the new tables was already there, on the same task. */
  ghost predicate NoNewKeys(s: Tables, s': Tables) {
    forall t :: t in s'.tasks && s'.tasks[t].activeKey.Some? ==>
      t in s.tasks && s.tasks[t].activeKey == s'.tasks[t].activeKey
  }

  lemma QueueAddsNoKeys(s: Tables, q: QueueStatement)
    requires !Creates(Queue(q))
    ensures NoNewKeys(s, ApplyQueue(s, q))
  {
  }

  lemma OthersAddNoKeys(s: Tables, c: Statement)
    requires !c.Queue? && !Creates(c)
    ensures NoNewKeys(s, Apply(s, c))
  {
  }

  lemma CreationKeepsKeysUnique(s: Tables, t: TaskId, origin: Origin, state: string, now: int)
    requires RowsFit(s) && KeysUnique(s) && CanCreate(s, t, origin)
    ensures KeysUnique(Created(s, t, origin, state, now))
  {
    var s' := Created(s, t, origin, state, now);
    assert forall u :: u in s.tasks && origin.Key().Some? ==> s.tasks[u].activeKey != origin.Key();
    assert forall u :: u in s'.tasks && u != t ==> s'.tasks[u] == s.tasks[u];
  }

  lemma KeysUniqueStep(s: Tables, c: Statement)
    requires RowsFit(s) && KeysUnique(s)
    ensures KeysUnique(Apply(s, c))
  {
    if !Creates(c) {
      if c.Queue? { QueueAddsNoKeys(s, c.q); } else { OthersAddNoKeys(s, c); }
    } else {
      match c
      case Queue(DoCreate(t, origin, state, now)) =>
        if CanCreate(s, t, origin) { CreationKeepsKeysUnique(s, t, origin, state, now); }
      case Exports(DoCreateExport(t, rowId, actorId, instanceId, accounts, state, now)) =>
        if CanCreateExport(s, t, rowId, actorId, instanceId, accounts) {
          CreationKeepsKeysUnique(s, t, ExportOrigin(), state, now);
        }
      case Operations(DoQueueOperation(o, t, _, now)) =>
        if o in s.operations && CanCreate(s, t, OperationOrigin(s.operations[o].instanceId)) {
          CreationKeepsKeysUnique(s, t, OperationOrigin(s.operations[o].instanceId), "{}", now);
        }
    }
  }

  lemma {:induction false} KeysAlways(cs: seq<Statement>)
    requires LegalRun(EMPTY, cs)
    ensures KeysAgree(Run(EMPTY, cs)) && KeysUnique(Run(EMPTY, cs))
  {
    if cs != [] {
      var before := cs[..|cs| - 1];
      var s, c := Run(EMPTY, before), cs[|cs| - 1];
      KeysAlways(before);
      RowsFitRun(EMPTY, before);
      KeysUniqueStep(s, c);
      match c
      case Queue(q) => KeysAgreeQueue(s, q);
      case Exports(e) => KeysAgreeExports(s, e);
      case Operations(p) => KeysAgreeOperations(s, p);
    }
  }

  /** A stored scope is the text without its outer blanks, cut after 128 characters. */
  lemma ScopeIsCutText(raw: string)
    ensures var scope := NormalizeScope(raw);
            exists before, after, cut :: Text.Blank(before) && Text.Blank(after) && raw == before + scope + cut + after
                                         && |scope| <= 128 && (cut != "" ==> |scope| == 128)
    ensures NormalizeScope(raw) != "" ==> !Text.Blank([NormalizeScope(raw)[0]])
  {
    Text.TrimCutsBlanks(raw);
    var before, after :| Text.Blank(before) && Text.Blank(after) && raw == before + Text.Trim(raw) + after;
    var scope, cut := NormalizeScope(raw), Text.Trim(raw)[|NormalizeScope(raw)|..];
    assert Text.Trim(raw) == scope + cut;
    assert raw == before + scope + cut + after;
  }

  // ---------------------------------------------------------------- what the index buys

  /**
   With colon-free types, keys tell families apart: no two families share one, and a plain type is never a scoped
   key.
   */
  lemma KeysTellFamiliesApart(a: Origin, b: Origin)
    requires a.Key().Some? && a.Key() == b.Key()
    requires ':' !in a.family.taskType && ':' !in b.family.taskType
    ensures a.family == b.family
  {
    var f, g := a.family, b.family;
    assert f.scope != "" ==> ScopedKey(f.taskType, f.scope)[|f.taskType|] in ":";
    assert g.scope != "" ==> ScopedKey(g.taskType, g.scope)[|g.taskType|] in ":";
    if f.scope != "" && g.scope != "" {
      Text.FirstColon(f.taskType, f.scope, g.taskType, g.scope);
    }
  }

  /** The rows the active-task lookups select from. */
  function ActiveTasks(s: Tables, family: Family): set<TaskId> {
    set t | t in s.tasks && s.tasks[t].family == family && s.tasks[t].status.Active()
  }

  function KeyHolders(s: Tables, key: string): set<TaskId> {
    set t | t in s.tasks && s.tasks[t].activeKey == Some(key)
  }

  /** The task was created exclusively or under a scope. */
  predicate Keyed(s: Tables, t: TaskId) {
    t in s.issued && s.issued[t].keyed
  }

  /** At most one exclusive or scoped task of a family is active, in every interleaving. */
  lemma OneActivePerFamily(cs: seq<Statement>, t: TaskId, u: TaskId)
    requires LegalRun(EMPTY, cs)
    requires var s := Run(EMPTY, cs);
             && t in s.tasks && u in s.tasks && Keyed(s, t) && Keyed(s, u)
             && s.tasks[t].family == s.tasks[u].family && s.tasks[t].family.taskType != USAGE_EXPORT
             && s.tasks[t].status.Active() && s.tasks[u].status.Active()
    ensures t == u
  {
    KeysAlways(cs);
    RowsFitRun(EMPTY, cs);
  }

  /**
   The active-task lookup by (type, scope) finds exactly the holder of the key: the set it picks
   its newest row from is empty or holds just that task.
   */
  lemma LookupFindsKeyHolder(cs: seq<Statement>, family: Family)
    requires LegalRun(EMPTY, cs) && ColonFree(Run(EMPTY, cs))
    requires family.taskType != USAGE_EXPORT && family.scope != "" && ':' !in family.taskType
    ensures var s := Run(EMPTY, cs);
            ActiveTasks(s, family) == KeyHolders(s, ScopedKey(family.taskType, family.scope))
            && |ActiveTasks(s, family)| <= 1
  {
    KeysAlways(cs);
    RowsFitRun(EMPTY, cs);
    var s := Run(EMPTY, cs);
    var key := ScopedKey(family.taskType, family.scope);
    forall t | t in KeyHolders(s, key)
      ensures t in ActiveTasks(s, family)
    {
      KeysTellFamiliesApart(s.issued[t], Origin(family, true));
    }
    forall t | t in ActiveTasks(s, family)
      ensures t in KeyHolders(s, key)
    {
      assert s.issued[t].keyed;
    }
    if t :| t in ActiveTasks(s, family) {
      assert ActiveTasks(s, family) == {t};
    }
  }

  /**
   Passing a stored scope key through the normalisation again finds the same key exactly when the cut
   at 128 did not leave a blank at the end.
   */
  lemma NormalizedScopeIsStable(raw: string)
    ensures NormalizeScope(NormalizeScope(raw)) == NormalizeScope(raw)
            <==> |Text.Trim(raw)| <= SCOPE_LIMIT || !Text.IsSpace(Text.Trim(raw)[SCOPE_LIMIT - 1])
  {
    var once := NormalizeScope(raw);
    Text.TrimShape(raw);
    Text.TrimShape(once);
    Text.TrimRightShape(Text.TrimLeft(once));
    assert Text.Trimmed(once) <==> |Text.Trim(raw)| <= SCOPE_LIMIT || !Text.IsSpace(once[SCOPE_LIMIT - 1]);
  }

  /** Such a scope exists: a long name whose 128th character is a blank is stored with it and sought without. */
  lemma UnstableScope() returns (raw: string)
    ensures NormalizeScope(NormalizeScope(raw)) != NormalizeScope(raw)
  {
    raw := seq(SCOPE_LIMIT + 1, i => if i == SCOPE_LIMIT - 1 then ' ' else 'x');
    Text.TrimShape(raw);
    NormalizedScopeIsStable(raw);
  }
}
