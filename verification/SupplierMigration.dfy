/** The start-up migration that materialises legacy supplier flags and introduces the runtime keys. */
module SupplierMigration {
  import opened Options
  import opened Ordering
  import opened SupplierPolicies

  const PAGE := 500

  datatype State = State(defaults: Option<Defaults>, suppliers: map<int, Supplier>, bindings: map<int, Binding>)

  function ExtendedDefaults(d: Defaults): Defaults {
    Defaults(Extended(d.policy), if Extended(d.policy) == d.policy then d.revision else d.revision + 1)
  }

  /** A supplier without overrides gets its legacy flags at version 1; the update wants a row of a positive id. */
  function Materialised(id: int, s: Supplier): Supplier {
    if s.overrides.None? && id > 0 then s.(overrides := Some(LegacyPolicy(s)), version := 1) else s
  }

  function ExtendedSupplier(s: Supplier): Supplier {
    if s.overrides.None? then s
    else
      var policy := s.overrides.value;
      s.(overrides := Some(Extended(policy)),
         version := if Extended(policy) == policy then s.version else s.version + 1)
  }

  function ExtendedBinding(b: Binding): Binding {
    Binding(Extended(b.overrides), if Extended(b.overrides) == b.overrides then b.version else b.version + 1)
  }

  function Seeded(defaults: Option<Defaults>): Defaults {
    if defaults.Some? then defaults.value else Defaults(Initial(), 1)
  }

  function MigratedSupplier(id: int, s: Supplier): Supplier {
    ExtendedSupplier(Materialised(id, s))
  }

  function MaterialisedSuppliers(suppliers: map<int, Supplier>): map<int, Supplier> {
    map id | id in suppliers :: Materialised(id, suppliers[id])
  }

  function ExtendedSuppliers(suppliers: map<int, Supplier>): map<int, Supplier> {
    map id | id in suppliers :: ExtendedSupplier(suppliers[id])
  }

  function ExtendedBindings(bindings: map<int, Binding>): map<int, Binding> {
    map id | id in bindings :: ExtendedBinding(bindings[id])
  }

  function Migrated(s: State): State {
    State(Some(ExtendedDefaults(Seeded(s.defaults))), ExtendedSuppliers(MaterialisedSuppliers(s.suppliers)),
          ExtendedBindings(s.bindings))
  }

  // ---------------------------------------------------------------- the rows after the migration

  /** The migration fills in some runtime key of the layer. */
  predicate FilledIn(policy: Policy) {
    exists key :: key in PARENTS && Fills(policy, key)
  }

  lemma ExtendedWhenFilledIn(policy: Policy)
    ensures Extended(policy) != policy <==> FilledIn(policy)
  {
    if FilledIn(policy) {
      var key :| key in PARENTS && Fills(policy, key);
      assert key in Extended(policy);
    }
  }

  lemma InitialIsComplete()
    ensures !FilledIn(Initial())
  {
    ParentsAreOlderKeys();
  }

  /** The global revision moves by one exactly when a key is filled in; missing global settings start at one. */
  lemma DefaultsAfterwards(s: State)
    ensures Migrated(s).defaults.Some?
    ensures var d := Migrated(s).defaults.value;
            match s.defaults
            case None => d == Defaults(Initial(), 1)
            case Some(g) => d == Defaults(Extended(g.policy), g.revision + if FilledIn(g.policy) then 1 else 0)
  {
    InitialIsComplete();
    ExtendedWhenFilledIn(Initial());
    if s.defaults.Some? {
      ExtendedWhenFilledIn(s.defaults.value.policy);
    }
  }

  /** No row comes or goes, and a binding's version moves by one exactly when a key is filled in. */
  lemma BindingsAfterwards(s: State, id: int)
    ensures Migrated(s).suppliers.Keys == s.suppliers.Keys && Migrated(s).bindings.Keys == s.bindings.Keys
    ensures id in s.bindings ==>
              var b := s.bindings[id];
              Migrated(s).bindings[id]
              == Binding(Extended(b.overrides), b.version + if FilledIn(b.overrides) then 1 else 0)
  {
    if id in s.bindings {
      ExtendedWhenFilledIn(s.bindings[id].overrides);
    }
  }

  /** A supplier of positive id without overrides gets its flags at version one; flags themselves never change. */
  lemma SuppliersAfterwards(s: State, id: int)
    requires id in s.suppliers
    ensures id in Migrated(s).suppliers
    ensures var before, after := s.suppliers[id], Migrated(s).suppliers[id];
            && after.viewAccounts == before.viewAccounts && after.viewUsage == before.viewUsage
            && after.manageProxies == before.manageProxies && after.uploadAccounts == before.uploadAccounts
            && match before.overrides
               case None =>
                 if id > 0 then after.overrides == Some(LegacyPolicy(before)) && after.version == 1 else after == before
               case Some(policy) =>
                 && after.overrides == Some(Extended(policy))
                 && after.version == before.version + if FilledIn(policy) then 1 else 0
  {
    var before := s.suppliers[id];
    LegacyPolicyIsComplete(before);
    if before.overrides.Some? {
      ExtendedWhenFilledIn(before.overrides.value);
    }
  }

  // ---------------------------------------------------------------- what the migration keeps

  function BindingOf(s: State, binding: Option<int>): Option<Binding>
    requires binding.Some? ==> binding.value in s.bindings
  {
    if binding.Some? then Some(s.bindings[binding.value]) else None
  }

  function Effective(s: State, supplier: int, binding: Option<int>, key: string): Decision
    requires s.defaults.Some? && supplier in s.suppliers && (binding.Some? ==> binding.value in s.bindings)
  {
    Decide(s.defaults.value, s.suppliers[supplier], BindingOf(s, binding), key)
  }

  /** Some layer of this supplier and binding mentions the key, be it with null; legacy flags mention every key. */
  predicate Mentioned(s: State, supplier: int, binding: Option<int>, key: string)
    requires s.defaults.Some? && supplier in s.suppliers && (binding.Some? ==> binding.value in s.bindings)
  {
    || key in s.defaults.value.policy
    || s.suppliers[supplier].overrides.None?
    || key in s.suppliers[supplier].overrides.value
    || (binding.Some? && key in s.bindings[binding.value].overrides)
  }

  lemma LegacyPolicyIsComplete(s: Supplier)
    ensures Extended(LegacyPolicy(s)) == LegacyPolicy(s)
    ensures forall key :: RuntimeKey(key) ==> key in LegacyPolicy(s)
  {
    ParentsAreOlderKeys();
  }

  /** What a migrated supplier layer answers. */
  lemma MigratedOverrides(id: int, s: Supplier, key: string)
    ensures Lookup(Overrides(MigratedSupplier(id, s)), key)
            == if RuntimeKey(key) && key !in Overrides(s) then Lookup(Overrides(s), PARENTS[key])
               else Lookup(Overrides(s), key)
  {
    LegacyPolicyIsComplete(s);
    ExtendedLookup(Overrides(s), key);
  }

  /** What a layer answers once it is extended. */
  function Inherited(policy: Policy, key: string): Option<bool> {
    if RuntimeKey(key) && key !in policy then Lookup(policy, PARENTS[key]) else Lookup(policy, key)
  }

  /** After the migration each layer answers for itself, with its own parent value where it did not mention the key. */
  lemma MigratedDecision(s: State, supplier: int, binding: Option<int>, key: string)
    requires s.defaults.Some? && supplier in s.suppliers && (binding.Some? ==> binding.value in s.bindings)
    ensures Effective(Migrated(s), supplier, binding, key)
            == Layered(Inherited(s.defaults.value.policy, key), Inherited(Overrides(s.suppliers[supplier]), key),
                       if binding.Some? then Inherited(s.bindings[binding.value].overrides, key) else None)
  {
    MigratedOverrides(supplier, s.suppliers[supplier], key);
    ExtendedLookup(s.defaults.value.policy, key);
    var t := Migrated(s);
    assert t.defaults.value.policy == Extended(s.defaults.value.policy);
    assert t.suppliers[supplier] == MigratedSupplier(supplier, s.suppliers[supplier]);
    if binding.Some? {
      ExtendedLookup(s.bindings[binding.value].overrides, key);
      assert t.bindings[binding.value] == ExtendedBinding(s.bindings[binding.value]);
      assert t.bindings[binding.value].overrides == Extended(s.bindings[binding.value].overrides);
    }
  }

  /**
   Turning the legacy flags into overrides and extending every layer leaves each older key's value and source alone.
   */
  lemma MigrationKeepsOlderKeys(s: State, supplier: int, binding: Option<int>, key: string)
    requires s.defaults.Some? && supplier in s.suppliers && (binding.Some? ==> binding.value in s.bindings)
    requires !RuntimeKey(key)
    ensures Effective(Migrated(s), supplier, binding, key) == Effective(s, supplier, binding, key)
  {
    MigratedDecision(s, supplier, binding, key);
  }

  /** A runtime key no layer mentioned comes out as its parent did, value and source, in every layering. */
  lemma RuntimeKeyFollowsParent(s: State, supplier: int, binding: Option<int>, key: string)
    requires s.defaults.Some? && supplier in s.suppliers && (binding.Some? ==> binding.value in s.bindings)
    requires RuntimeKey(key) && !Mentioned(s, supplier, binding, key)
    ensures Effective(Migrated(s), supplier, binding, key) == Effective(s, supplier, binding, PARENTS[key])
    ensures Effective(Migrated(s), supplier, binding, PARENTS[key]) == Effective(s, supplier, binding, PARENTS[key])
  {
    MigratedDecision(s, supplier, binding, key);
    ParentIsOlder(key);
    MigrationKeepsOlderKeys(s, supplier, binding, PARENTS[key]);
  }

  /** The layer does not mention the key but sets its parent, so extending it gives the key a value there. */
  predicate Fills(policy: Policy, key: string)
    requires RuntimeKey(key)
  {
    key !in policy && Lookup(policy, PARENTS[key]).Some?
  }

  /**
   What decides a runtime key changes in exactly three cases: the binding is filled in; the supplier is, and the binding
   does not answer the key; or the global layer is filled in with true, and neither binding nor supplier answers it.
   */
  lemma DecisionChangesIff(s: State, supplier: int, binding: Option<int>, key: string)
    requires s.defaults.Some? && supplier in s.suppliers && (binding.Some? ==> binding.value in s.bindings)
    requires RuntimeKey(key)
    ensures var global, own := s.defaults.value.policy, Overrides(s.suppliers[supplier]);
            var bound := if binding.Some? then s.bindings[binding.value].overrides else map[];
            Effective(Migrated(s), supplier, binding, key) != Effective(s, supplier, binding, key)
            <==> Fills(bound, key)
                 || (Fills(own, key) && Lookup(bound, key).None?)
                 || (Fills(global, key) && Lookup(global, PARENTS[key]) == Some(true)
                     && Lookup(bound, key).None? && Lookup(own, key).None?)
  {
    MigratedDecision(s, supplier, binding, key);
  }

  /** A key mentioned with null by the supplier changes although no layer above the global one sets its parent. */
  lemma MentionedKeyChanges(supplier: Supplier)
    requires supplier.overrides == Some(map["account.rpm" := None])
    ensures var s := State(Some(Defaults(map["summary.rpm" := Some(true)], 1)), map[1 := supplier], map[]);
            && Mentioned(s, 1, None, "account.rpm")
            && Effective(s, 1, None, "account.rpm") == Decision(false, Global)
            && Effective(Migrated(s), 1, None, "account.rpm") == Decision(true, Global)
  {
    var s := State(Some(Defaults(map["summary.rpm" := Some(true)], 1)), map[1 := supplier], map[]);
    assert "account.rpm"[0] != "summary.rpm"[0];
    MigratedDecision(s, 1, None, "account.rpm");
  }

  lemma ParentIsOlder(key: string)
    requires RuntimeKey(key)
    ensures !RuntimeKey(PARENTS[key])
  {
    ParentsAreOlderKeys();
  }

  lemma SupplierTwice(id: int, s: Supplier)
    ensures MigratedSupplier(id, MigratedSupplier(id, s)) == MigratedSupplier(id, s)
  {
    if s.overrides.Some? || id > 0 {
      ExtendTwice(Overrides(s));
    }
  }

  lemma BindingTwice(b: Binding)
    ensures ExtendedBinding(ExtendedBinding(b)) == ExtendedBinding(b)
  {
    ExtendTwice(b.overrides);
  }

  lemma DefaultsTwice(d: Defaults)
    ensures ExtendedDefaults(ExtendedDefaults(d)) == ExtendedDefaults(d)
  {
    ExtendTwice(d.policy);
  }

  lemma SuppliersTwice(suppliers: map<int, Supplier>)
    ensures var once := ExtendedSuppliers(MaterialisedSuppliers(suppliers));
            ExtendedSuppliers(MaterialisedSuppliers(once)) == once
  {
    var once := ExtendedSuppliers(MaterialisedSuppliers(suppliers));
    forall id | id in suppliers
      ensures ExtendedSupplier(Materialised(id, once[id])) == once[id]
    {
      assert once[id] == MigratedSupplier(id, suppliers[id]);
      SupplierTwice(id, suppliers[id]);
    }
  }

  lemma BindingsTwice(bindings: map<int, Binding>)
    ensures ExtendedBindings(ExtendedBindings(bindings)) == ExtendedBindings(bindings)
  {
    forall id | id in bindings
      ensures ExtendedBinding(ExtendedBinding(bindings[id])) == ExtendedBinding(bindings[id])
    {
      BindingTwice(bindings[id]);
    }
  }

  /** Running the migration again changes no policy, no revision and no version. */
  lemma MigrationIsIdempotent(s: State)
    ensures Migrated(Migrated(s)) == Migrated(s)
  {
    DefaultsTwice(Seeded(s.defaults));
    SuppliersTwice(s.suppliers);
    BindingsTwice(s.bindings);
  }

  // ---------------------------------------------------------------- the migration itself

  /** Suppliers the paged loop still has to visit. */
  function Unvisited(suppliers: map<int, Supplier>, after: int): set<int> {
    set id | id in suppliers && id > after && suppliers[id].overrides.None?
  }

  /** A page holds the first ids of the unvisited rows in ascending order, at most `PAGE` of them. */
  ghost predicate IsPage(ids: seq<int>, rows: set<int>) {
    && |ids| <= PAGE
    && (forall i :: 0 <= i < |ids| ==> ids[i] in rows)
    && (forall i, j :: 0 <= i < j < |ids| ==> ids[i] < ids[j])
    && (forall id, i :: id in rows && id !in ids && 0 <= i < |ids| ==> ids[i] < id)
    && (ids == [] ==> rows == {})
  }

  /** The paged loop has dealt with every id up to `after` and with none above it. */
  ghost predicate Progress(now: map<int, Supplier>, rows: map<int, Supplier>, visited: seq<int>, after: int) {
    && now.Keys == rows.Keys
    && (forall id :: id in rows ==> now[id] == if id <= after then Materialised(id, rows[id]) else rows[id])
    && (forall id :: id in visited <==> id in rows && 0 < id <= after && rows[id].overrides.None?)
    && (forall i, j :: 0 <= i < j < |visited| ==> visited[i] < visited[j])
  }

  lemma SameUnvisited(now: map<int, Supplier>, rows: map<int, Supplier>, visited: seq<int>, after: int)
    requires Progress(now, rows, visited, after)
    ensures Unvisited(now, after) == Unvisited(rows, after)
  {
  }

  /** Between two consecutive ids of a page lies no unvisited row. */
  lemma NoneSkipped(ids: seq<int>, rows: map<int, Supplier>, i: nat, before: int)
    requires IsPage(ids, Unvisited(rows, before)) && i < |ids|
    ensures ids[i] in rows && rows[ids[i]].overrides.None? && ids[i] > if i == 0 then before else ids[i - 1]
    ensures forall id :: id in rows && (if i == 0 then before else ids[i - 1]) < id < ids[i] ==>
              rows[id].overrides.Some?
  {
    forall id | id in rows && (if i == 0 then before else ids[i - 1]) < id < ids[i]
      ensures rows[id].overrides.Some?
    {
      assert ids[i] in Unvisited(rows, before);
      assert i > 0 ==> ids[i - 1] in Unvisited(rows, before);
      assert id in Unvisited(rows, before) <==> rows[id].overrides.None?;
    }
    assert ids[i] in Unvisited(rows, before);
  }

  lemma ProgressStep(now: map<int, Supplier>, rows: map<int, Supplier>, visited: seq<int>, after: int, id: int)
    requires Progress(now, rows, visited, after) && 0 <= after < id && id in rows && rows[id].overrides.None?
    requires forall other :: other in rows && after < other < id ==> rows[other].overrides.Some?
    ensures now[id] == rows[id] && Progress(now[id := Materialised(id, rows[id])], rows, visited + [id], id)
  {
    assert forall i :: 0 <= i < |visited| ==> visited[i] in visited;
  }

  lemma ProgressDone(now: map<int, Supplier>, rows: map<int, Supplier>, visited: seq<int>, after: int)
    requires Progress(now, rows, visited, after) && after >= 0 && Unvisited(now, after) == {}
    ensures now == MaterialisedSuppliers(rows)
    ensures (set id | id in visited) == Unvisited(rows, 0)
  {
    SameUnvisited(now, rows, visited, after);
    forall id | id in rows && id > after
      ensures rows[id].overrides.Some?
    {
      assert id in Unvisited(rows, after) <==> rows[id].overrides.None?;
    }
    assert forall id :: id in visited <==> id in Unvisited(rows, 0);
  }

  class Store {
    var defaults: Option<Defaults>
    var suppliers: map<int, Supplier>
    var bindings: map<int, Binding>

    constructor (s: State)
      ensures View() == s
    {
      defaults, suppliers, bindings := s.defaults, s.suppliers, s.bindings;
    }

    function View(): State
      reads this
    {
      State(defaults, suppliers, bindings)
    }

    /** The query of one page: rows without overrides above `after`, by id, at most `PAGE`. */
    method FetchPage(after: int) returns (ids: seq<int>)
      ensures IsPage(ids, Unvisited(suppliers, after))
    {
      ids := [];
      var rest := Unvisited(suppliers, after);
      while rest != {} && |ids| < PAGE
        invariant |ids| <= PAGE
        invariant Unvisited(suppliers, after) == rest + set id | id in ids
        invariant forall i, id :: 0 <= i < |ids| && id in rest ==> ids[i] < id
        invariant forall i, j :: 0 <= i < j < |ids| ==> ids[i] < ids[j]
        invariant ids == [] ==> rest == Unvisited(suppliers, after)
        decreases rest
      {
        var id := Least(rest);
        ids, rest := ids + [id], rest - {id};
      }
    }

    /** Pages through the suppliers; every one without overrides and with a positive id is visited exactly once. */
    method MaterialiseLegacy() returns (visited: seq<int>)
      modifies this`suppliers
      ensures suppliers == MaterialisedSuppliers(old(suppliers))
      ensures (set id | id in visited) == Unvisited(old(suppliers), 0)
      ensures forall i, j :: 0 <= i < j < |visited| ==> visited[i] < visited[j]
    {
      ghost var rows := suppliers;
      visited := [];
      var after := 0;
      while true
        invariant after >= 0 && Progress(suppliers, rows, visited, after)
        decreases Unvisited(rows, after)
      {
        var ids := FetchPage(after);
        if |ids| == 0 {
          break;
        }
        ghost var before := after;
        SameUnvisited(suppliers, rows, visited, after);
        var i := 0;
        while i < |ids|
          invariant 0 <= i <= |ids| && after == (if i == 0 then before else ids[i - 1]) && after >= 0
          invariant Progress(suppliers, rows, visited, after)
        {
          var id := ids[i];
          NoneSkipped(ids, rows, i, before);
          ProgressStep(suppliers, rows, visited, after, id);
          var item := suppliers[id];
          item := item.(overrides := Some(LegacyPolicy(item)), version := 1);
          if suppliers[id].overrides.None? {
            suppliers := suppliers[id := item];
          }
          visited := visited + [id];
          after := id;
          i := i + 1;
        }
        assert ids[0] in Unvisited(rows, before) && ids[0] !in Unvisited(rows, after);
      }
      ProgressDone(suppliers, rows, visited, after);
    }

    method ExtendDefaults(order: seq<string>)
      requires defaults.Some? && forall key :: key in order <==> RuntimeKey(key)
      modifies this`defaults
      ensures defaults == Some(ExtendedDefaults(old(defaults).value))
    {
      var policy, changed := Extend(defaults.value.policy, order);
      if changed {
        defaults := Some(Defaults(policy, defaults.value.revision + 1));
      }
    }

    method ExtendOne(policy: Policy, version: int, order: seq<string>) returns (r: Policy, v: int)
      requires forall key :: key in order <==> RuntimeKey(key)
      ensures r == Extended(policy) && v == if Extended(policy) == policy then version else version + 1
    {
      var changed;
      r, changed := Extend(policy, order);
      v := if changed then version + 1 else version;
    }

    method ExtendSuppliers(order: seq<string>)
      requires forall key :: key in order <==> RuntimeKey(key)
      modifies this`suppliers
      ensures suppliers == ExtendedSuppliers(old(suppliers))
    {
      ghost var rows := suppliers;
      var rest := suppliers.Keys;
      while rest != {}
        invariant rest <= rows.Keys == suppliers.Keys
        invariant forall id :: id in rows ==>
          suppliers[id] == if id in rest then rows[id] else ExtendedSupplier(rows[id])
        decreases rest
      {
        var id := Least(rest);
        var item := suppliers[id];
        if item.overrides.Some? {
          var policy, version := ExtendOne(item.overrides.value, item.version, order);
          if version != item.version {
            suppliers := suppliers[id := item.(overrides := Some(policy), version := version)];
          }
        }
        rest := rest - {id};
      }
      assert forall id :: id in rows ==> suppliers[id] == ExtendedSupplier(rows[id]);
    }

    method ExtendBindings(order: seq<string>)
      requires forall key :: key in order <==> RuntimeKey(key)
      modifies this`bindings
      ensures bindings == ExtendedBindings(old(bindings))
    {
      ghost var rows := bindings;
      var rest := bindings.Keys;
      while rest != {}
        invariant rest <= rows.Keys == bindings.Keys
        invariant forall id :: id in rows ==> bindings[id] == if id in rest then rows[id] else ExtendedBinding(rows[id])
        decreases rest
      {
        var id := Least(rest);
        var policy, version := ExtendOne(bindings[id].overrides, bindings[id].version, order);
        if version != bindings[id].version {
          bindings := bindings[id := Binding(policy, version)];
        }
        rest := rest - {id};
      }
      assert forall id :: id in rows ==> bindings[id] == ExtendedBinding(rows[id]);
    }

    /** The whole migration, one transaction; `order` is whatever order the runtime keys happen to be visited in. */
    method Migrate(order: seq<string>)
      requires forall key :: key in order <==> RuntimeKey(key)
      modifies this
      ensures View() == Migrated(old(View()))
    {
      if defaults.None? {
        defaults := Some(Defaults(Initial(), 1));
      }
      var visited := MaterialiseLegacy();
      ExtendDefaults(order);
      ExtendSuppliers(order);
      ExtendBindings(order);
    }
  }
}
