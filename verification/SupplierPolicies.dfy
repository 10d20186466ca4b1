/** Layered supplier policies: what a binding, a supplier and the global default make of each key. */
module SupplierPolicies {
  import opened Options
  import Text

  /** A policy as stored in JSON: a key may be absent, null, or set. */
  type Policy = map<string, Option<bool>>

  const KEYS := [
    "view_accounts", "view_usage", "manage_proxies", "upload_accounts",
    "account.email", "account.group_name", "account.status", "account.created_at",
    "account.total_cost", "account.today_cost", "account.total_requests", "account.total_tokens",
    "account.rpm", "account.tpm", "account.concurrent", "account.active_sessions",
    "summary.total_accounts", "summary.available_accounts", "summary.rpm",
    "summary.pool_rpm", "summary.pool_concurrent", "summary.pool_available_accounts",
    "usage.cost", "usage.requests", "usage.tokens"]

  /** The per-account runtime keys and the older key of the same metric family. */
  const PARENTS: map<string, string> := map[
    "account.rpm" := "summary.rpm", "account.tpm" := "account.total_tokens",
    "account.concurrent" := "summary.pool_concurrent", "account.active_sessions" := "summary.pool_concurrent"]

  predicate RuntimeKey(key: string) { key in PARENTS }

  lemma ParentsAreOlderKeys()
    ensures forall key :: RuntimeKey(key) ==> key in KEYS && PARENTS[key] in KEYS && !RuntimeKey(PARENTS[key])
  {
    assert KEYS[12] == "account.rpm" && KEYS[13] == "account.tpm" && KEYS[14] == "account.concurrent";
    assert KEYS[15] == "account.active_sessions" && KEYS[18] == "summary.rpm" && KEYS[11] == "account.total_tokens";
    assert KEYS[20] == "summary.pool_concurrent";
    assert |"summary.rpm"| == 11 && |"account.total_tokens"| == 20 && |"summary.pool_concurrent"| == 23;
    assert "account.rpm"[0] == 'a' && "summary.rpm"[0] == 's';
    assert |"account.tpm"| == 11 && |"account.concurrent"| == 18 && |"account.active_sessions"| == 23;
    assert "account.active_sessions"[0] == 'a' && "summary.pool_concurrent"[0] == 's';
  }

  datatype Defaults = Defaults(policy: Policy, revision: int)

  /** `overrides` is absent for a supplier created before policies existed. */
  datatype Supplier = Supplier(viewAccounts: bool, viewUsage: bool, manageProxies: bool, uploadAccounts: bool,
                               overrides: Option<Policy>, version: int)

  datatype Binding = Binding(overrides: Policy, version: int)

  datatype Source = Global | OfSupplier | OfBinding

  /** What a key comes out as and which layer decided it. */
  datatype Decision = Decision(value: bool, source: Source)

  function Initial(): Policy {
    map key | key in KEYS :: Some(key != "manage_proxies" && key != "upload_accounts")
  }

  function LegacyPolicy(s: Supplier): Policy {
    Initial()["view_accounts" := Some(s.viewAccounts)]["view_usage" := Some(s.viewUsage)]
             ["manage_proxies" := Some(s.manageProxies)]["upload_accounts" := Some(s.uploadAccounts)]
  }

  function Overrides(s: Supplier): Policy {
    if s.overrides.Some? then s.overrides.value else LegacyPolicy(s)
  }

  function Lookup(policy: Policy, key: string): Option<bool> {
    if key in policy then policy[key] else None
  }

  function LookupIn(policy: Option<Policy>, key: string): Option<bool> {
    if policy.Some? then Lookup(policy.value, key) else None
  }

  /** The most specific layer that sets the key decides it; the global layer falls back to false. */
  function Layered(global: Option<bool>, supplier: Option<bool>, binding: Option<bool>): Decision {
    if binding.Some? then Decision(binding.value, OfBinding)
    else if supplier.Some? then Decision(supplier.value, OfSupplier)
    else Decision(global.Some? && global.value, Global)
  }

  function Decide(defaults: Defaults, s: Supplier, b: Option<Binding>, key: string): Decision {
    Layered(Lookup(defaults.policy, key), Lookup(Overrides(s), key),
            LookupIn(if b.Some? then Some(b.value.overrides) else None, key))
  }

  /** A supplier without overrides answers the four legacy keys by its flags and every other key with yes. */
  lemma LegacyFlags(s: Supplier, key: string)
    requires s.overrides == None
    ensures Lookup(Overrides(s), "view_accounts") == Some(s.viewAccounts)
    ensures Lookup(Overrides(s), "view_usage") == Some(s.viewUsage)
    ensures Lookup(Overrides(s), "manage_proxies") == Some(s.manageProxies)
    ensures Lookup(Overrides(s), "upload_accounts") == Some(s.uploadAccounts)
    ensures key !in {"view_accounts", "view_usage", "manage_proxies", "upload_accounts"} ==>
              Lookup(Overrides(s), key) == if key in KEYS then Some(true) else None
  {
    assert |"view_accounts"| == 13 && |"view_usage"| == 10 && |"manage_proxies"| == 14 && |"upload_accounts"| == 15;
  }

  /** Out of the box everything may be seen, and nothing be managed or uploaded. */
  lemma InitialValues(key: string)
    ensures Lookup(Initial(), key)
            == if key !in KEYS then None else Some(key !in {"manage_proxies", "upload_accounts"})
  {
  }

  /** The binding's word counts first, then the supplier's, then the global one; silence everywhere is a global no. */
  lemma MostSpecificDecides(defaults: Defaults, s: Supplier, b: Option<Binding>, key: string)
    ensures var d := Decide(defaults, s, b, key);
            var own := if s.overrides.Some? then s.overrides.value else LegacyPolicy(s);
            && (d.source == OfBinding <==> b.Some? && key in b.value.overrides && b.value.overrides[key] != None)
            && (d.source == OfBinding ==> b.value.overrides[key] == Some(d.value))
            && (d.source == OfSupplier ==> key in own && own[key] == Some(d.value))
            && (d.source == Global ==>
                  (key in own ==> own[key] == None)
                  && (d.value <==> key in defaults.policy && defaults.policy[key] == Some(true)))
  {
  }

  function VersionTail(version: int, b: Option<Binding>): string {
    Text.Decimal(version) + if b.Some? then ":" + Text.Decimal(b.value.version) else ""
  }

  function Version(defaults: Defaults, s: Supplier, b: Option<Binding>): string {
    Text.Decimal(defaults.revision) + ":" + VersionTail(s.version, b)
  }

  lemma VersionTailsDiffer(v: int, b: Option<Binding>, v': int, b': Option<Binding>)
    requires VersionTail(v, b) == VersionTail(v', b')
    ensures v == v' && b.Some? == b'.Some? && (b.Some? ==> b.value.version == b'.value.version)
  {
    Text.DecimalShape(v);
    Text.DecimalShape(v');
    assert b.Some? ==> VersionTail(v, b)[|Text.Decimal(v)|] == ':';
    assert b'.Some? ==> VersionTail(v', b')[|Text.Decimal(v')|] == ':';
    assert b.None? ==> VersionTail(v, b) == Text.Decimal(v);
    assert b'.None? ==> VersionTail(v', b') == Text.Decimal(v');
    if b.Some? {
      var x, x' := Text.Decimal(b.value.version), Text.Decimal(b'.value.version);
      assert VersionTail(v, b) == Text.Decimal(v) + ":" + x && VersionTail(v', b') == Text.Decimal(v') + ":" + x';
      Text.FirstColon(Text.Decimal(v), x, Text.Decimal(v'), x');
      Text.DecimalInjective(b.value.version, b'.value.version);
    }
    Text.DecimalInjective(v, v');
  }

  /** Two effective policies carry one version text only when every layer has the same revision. */
  lemma VersionTellsRevisionsApart(d: Defaults, s: Supplier, b: Option<Binding>, d': Defaults, s': Supplier,
                                   b': Option<Binding>)
    requires Version(d, s, b) == Version(d', s', b')
    ensures d.revision == d'.revision && s.version == s'.version && b.Some? == b'.Some?
    ensures b.Some? ==> b.value.version == b'.value.version
  {
    Text.DecimalShape(d.revision);
    Text.DecimalShape(d'.revision);
    Text.FirstColon(Text.Decimal(d.revision), VersionTail(s.version, b),
                    Text.Decimal(d'.revision), VersionTail(s'.version, b'));
    Text.DecimalInjective(d.revision, d'.revision);
    VersionTailsDiffer(s.version, b, s'.version, b');
  }

  // ---------------------------------------------------------------- extending a policy by the runtime keys

  /** Every runtime key the policy does not mention takes the value of its parent when the parent has one. */
  function ExtendedBy(parents: map<string, string>, policy: Policy): Policy {
    map key | key in policy.Keys + parents.Keys && (key in policy || Lookup(policy, parents[key]).Some?) ::
      if key in policy then policy[key] else policy[parents[key]]
  }

  function Extended(policy: Policy): Policy {
    ExtendedBy(PARENTS, policy)
  }

  /** No parent is itself a key that inherits. */
  predicate OneGeneration(parents: map<string, string>) {
    forall key :: key in parents ==> parents[key] !in parents
  }

  lemma ExtendByTwice(parents: map<string, string>, policy: Policy)
    requires OneGeneration(parents)
    ensures ExtendedBy(parents, ExtendedBy(parents, policy)) == ExtendedBy(parents, policy)
  {
  }

  lemma ExtendTwice(policy: Policy)
    ensures Extended(Extended(policy)) == Extended(policy)
  {
    ParentsAreOlderKeys();
    ExtendByTwice(PARENTS, policy);
  }

  /** An extended layer answers an older key as before, and a runtime key it did not mention as its parent. */
  lemma ExtendedLookup(policy: Policy, key: string)
    ensures Lookup(Extended(policy), key)
            == if RuntimeKey(key) && key !in policy then Lookup(policy, PARENTS[key]) else Lookup(policy, key)
  {
  }

  /** The four runtime keys by name. */
  lemma RuntimeParents(policy: Policy)
    ensures "account.rpm" !in policy ==> Lookup(Extended(policy), "account.rpm") == Lookup(policy, "summary.rpm")
    ensures "account.tpm" !in policy ==>
              Lookup(Extended(policy), "account.tpm") == Lookup(policy, "account.total_tokens")
    ensures "account.concurrent" !in policy ==>
              Lookup(Extended(policy), "account.concurrent") == Lookup(policy, "summary.pool_concurrent")
    ensures "account.active_sessions" !in policy ==>
              Lookup(Extended(policy), "account.active_sessions") == Lookup(policy, "summary.pool_concurrent")
    ensures forall key :: key !in policy && key in Extended(policy) ==>
              key in {"account.rpm", "account.tpm", "account.concurrent", "account.active_sessions"}
  {
    ExtendedLookup(policy, "account.rpm");
    ExtendedLookup(policy, "account.tpm");
    ExtendedLookup(policy, "account.concurrent");
    ExtendedLookup(policy, "account.active_sessions");
    RuntimeNames();
  }

  lemma RuntimeNames()
    ensures RuntimeKey("account.rpm") && PARENTS["account.rpm"] == "summary.rpm"
    ensures RuntimeKey("account.tpm") && PARENTS["account.tpm"] == "account.total_tokens"
    ensures RuntimeKey("account.concurrent") && PARENTS["account.concurrent"] == "summary.pool_concurrent"
    ensures RuntimeKey("account.active_sessions") && PARENTS["account.active_sessions"] == "summary.pool_concurrent"
  {
    assert |"account.rpm"| == 11 && |"account.tpm"| == 11 && "account.rpm"[8] == 'r' && "account.tpm"[8] == 't';
    assert |"account.concurrent"| == 18 && |"account.active_sessions"| == 23;
  }

  method ExtendBy(parents: map<string, string>, policy: Policy, order: seq<string>) returns (r: Policy, changed: bool)
    requires OneGeneration(parents) && forall key :: key in order <==> key in parents
    ensures r == ExtendedBy(parents, policy) && changed == (r != policy)
  {
    r, changed := policy, false;
    var i := 0;
    while i < |order|
      invariant 0 <= i <= |order|
      invariant forall key :: key in r <==> key in policy
                                            || (key in order[..i] && key in parents
                                                && Lookup(policy, parents[key]).Some?)
      invariant forall key :: key in r ==> r[key] == if key in policy then policy[key] else Lookup(policy, parents[key])
      invariant changed == (r != policy)
    {
      var key := order[i];
      assert order[..i + 1] == order[..i] + [key] && key in order;
      var parent := parents[key];
      assert Lookup(r, parent) == Lookup(policy, parent);
      if key !in r && parent in r && r[parent].Some? {
        r := r[key := r[parent]];
        changed := true;
      }
      i := i + 1;
    }
    assert order[..|order|] == order;
  }

  /** Whatever order the runtime keys are visited in, the result is the same. */
  method Extend(policy: Policy, order: seq<string>) returns (r: Policy, changed: bool)
    requires forall key :: key in order <==> RuntimeKey(key)
    ensures r == Extended(policy) && changed == (r != policy)
  {
    ParentsAreOlderKeys();
    r, changed := ExtendBy(PARENTS, policy, order);
  }

  // ---------------------------------------------------------------- resolution

  method ResolveKeys(keys: seq<string>, global: Policy, overrides: Policy, binding: Option<Policy>)
    returns (values: map<string, bool>, sources: map<string, Source>)
    ensures values.Keys == sources.Keys == (set key | key in keys)
    ensures forall key :: key in keys ==>
              Decision(values[key], sources[key])
              == Layered(Lookup(global, key), Lookup(overrides, key), LookupIn(binding, key))
  {
    values, sources := map[], map[];
    var i := 0;
    while i < |keys|
      invariant 0 <= i <= |keys|
      invariant values.Keys == sources.Keys == (set key | key in keys[..i])
      invariant forall key :: key in keys[..i] ==>
        Decision(values[key], sources[key])
        == Layered(Lookup(global, key), Lookup(overrides, key), LookupIn(binding, key))
    {
      var key := keys[i];
      assert keys[..i + 1] == keys[..i] + [key];
      var value := Lookup(global, key);
      values, sources := values[key := value.Some? && value.value], sources[key := Global];
      value := Lookup(overrides, key);
      if value.Some? {
        values, sources := values[key := value.value], sources[key := OfSupplier];
      }
      if binding.Some? {
        value := Lookup(binding.value, key);
        if value.Some? {
          values, sources := values[key := value.value], sources[key := OfBinding];
        }
      }
      i := i + 1;
    }
    assert keys[..|keys|] == keys;
  }

  method Resolve(defaults: Defaults, s: Supplier, b: Option<Binding>)
    returns (values: map<string, bool>, sources: map<string, Source>, version: string)
    ensures values.Keys == sources.Keys == (set key | key in KEYS)
    ensures forall key :: key in KEYS ==> Decision(values[key], sources[key]) == Decide(defaults, s, b, key)
    ensures version == Version(defaults, s, b)
  {
    var binding := if b.Some? then Some(b.value.overrides) else None;
    values, sources := ResolveKeys(KEYS, defaults.policy, Overrides(s), binding);
    version := Version(defaults, s, b);
  }
}
