/** The access-policy language of custom identity providers: its trees, their meaning, and what makes one acceptable. */
module AccessPolicies {
  import opened Options
  import Text

  /** A floating-point number, rounding aside. */
  datatype Number = NotANumber | NegativeInfinity | PositiveInfinity | Finite(value: real) {
    predicate Less(other: Number) {
      match (this, other)
      case (NotANumber, _) => false
      case (_, NotANumber) => false
      case (Finite(x), Finite(y)) => x < y
      case (NegativeInfinity, _) => !other.NegativeInfinity?
      case (_, PositiveInfinity) => !PositiveInfinity?
      case _ => false
    }
  }

  datatype Value = Null | Flag(flag: bool) | Num(number: Number) | Str(text: string) | List(items: seq<Value>)
                 | Object(raw: string)

  /** The response body and the library routines the comparison leans on: path lookup, printing and number parsing. */
  datatype Context = Context(lookup: string -> Option<Value>, show: Value -> string, parse: string -> Option<Number>)

  datatype Condition = Condition(field: string, op: string, value: Value)

  datatype Policy = Policy(logic: string, conditions: seq<Condition>, groups: seq<Policy>)

  const OPERATORS := {"eq", "ne", "gt", "gte", "lt", "lte", "in", "not_in", "contains", "not_contains",
                      "exists", "not_exists"}

  // ---------------------------------------------------------------- comparison

  function Printed(ctx: Context, v: Value): string {
    Text.Trim(if v.Str? then v.text else ctx.show(v))
  }

  function AsNumber(ctx: Context, v: Value): Option<Number> {
    match v
    case Num(n) => Some(n)
    case Str(s) => ctx.parse(Text.Trim(s))
    case _ => None
  }

  /** The order of texts by their characters. */
  predicate TextLess(a: string, b: string) {
    if a == [] then b != []
    else b != [] && (a[0] < b[0] || (a[0] == b[0] && TextLess(a[1..], b[1..])))
  }

  function CompareNumbers(x: Number, y: Number): int {
    if x.Less(y) then -1 else if y.Less(x) then 1 else 0
  }

  function CompareTexts(x: string, y: string): int {
    if TextLess(x, y) then -1 else if TextLess(y, x) then 1 else 0
  }

  /** Numbers are compared as numbers when both sides read as one, and everything else by its printed text. */
  function Compare(ctx: Context, left: Value, right: Value): int {
    var l, r := AsNumber(ctx, left), AsNumber(ctx, right);
    if l.Some? && r.Some? then CompareNumbers(l.value, r.value)
    else CompareTexts(Printed(ctx, left), Printed(ctx, right))
  }

  predicate HasInfix(s: string, t: string) {
    t <= s || (s != [] && HasInfix(s[1..], t))
  }

  predicate OneOf(ctx: Context, current: Value, expected: Value) {
    expected.List? && exists i :: 0 <= i < |expected.items| && Compare(ctx, current, expected.items[i]) == 0
  }

  predicate Holding(ctx: Context, current: Value, expected: Value) {
    match current
    case Str(s) => HasInfix(s, Printed(ctx, expected))
    case List(items) => exists i :: 0 <= i < |items| && Compare(ctx, items[i], expected) == 0
    case _ => false
  }

  // ---------------------------------------------------------------- meaning

  function Current(ctx: Context, field: string): Value {
    if ctx.lookup(field).Some? then ctx.lookup(field).value else Null
  }

  predicate ConditionHolds(ctx: Context, c: Condition) {
    var current := Current(ctx, c.field);
    match c.op
    case "exists" => ctx.lookup(c.field).Some?
    case "not_exists" => ctx.lookup(c.field).None?
    case "eq" => Compare(ctx, current, c.value) == 0
    case "ne" => Compare(ctx, current, c.value) != 0
    case "gt" => Compare(ctx, current, c.value) > 0
    case "gte" => Compare(ctx, current, c.value) >= 0
    case "lt" => Compare(ctx, current, c.value) < 0
    case "lte" => Compare(ctx, current, c.value) <= 0
    case "in" => OneOf(ctx, current, c.value)
    case "not_in" => !OneOf(ctx, current, c.value)
    case "contains" => Holding(ctx, current, c.value)
    case "not_contains" => !Holding(ctx, current, c.value)
    case _ => false
  }

  function Logic(logic: string): string {
    var l := Text.Lower(Text.Trim(logic));
    if l == "" then "and" else l
  }

  /**
   The boolean reading of a tree: a conjunction or disjunction of its conditions and groups, true when it has none.
   */
  predicate Holds(ctx: Context, p: Policy) {
    || (p.conditions == [] && p.groups == [])
    || (if Logic(p.logic) == "or" then
          || (exists i :: 0 <= i < |p.conditions| && ConditionHolds(ctx, p.conditions[i]))
          || (exists i :: 0 <= i < |p.groups| && Holds(ctx, p.groups[i]))
        else
          && (forall i :: 0 <= i < |p.conditions| ==> ConditionHolds(ctx, p.conditions[i]))
          && (forall i :: 0 <= i < |p.groups| ==> Holds(ctx, p.groups[i])))
  }

  predicate InTree(p: Policy, c: Condition) {
    c in p.conditions || exists i :: 0 <= i < |p.groups| && InTree(p.groups[i], c)
  }

  // ---------------------------------------------------------------- acceptance

  datatype Problem = UnsupportedLogic(logic: string) | NoConditionOrGroup | FieldRequired(index: nat)
                   | UnsupportedOperator(index: nat, op: string) | ArrayRequired(index: nat, op: string)
                   | InGroup(index: nat, inner: Problem)

  function Operator(op: string): string {
    Text.Lower(Text.Trim(op))
  }

  predicate ValidCondition(c: Condition) {
    && Text.Trim(c.field) != ""
    && Operator(c.op) in OPERATORS
    && (Operator(c.op) in ["in", "not_in"] ==> c.value.List?)
  }

  predicate Valid(p: Policy) {
    && Logic(p.logic) in ["and", "or"]
    && (p.conditions != [] || p.groups != [])
    && (forall i :: 0 <= i < |p.conditions| ==> ValidCondition(p.conditions[i]))
    && (forall i :: 0 <= i < |p.groups| ==> Valid(p.groups[i]))
  }

  function NormalCondition(c: Condition): Condition {
    Condition(Text.Trim(c.field), Operator(c.op), c.value)
  }

  /** The tree as the login-time validator rewrites it. */
  function Normal(p: Policy): (r: Policy)
    ensures |r.conditions| == |p.conditions| && |r.groups| == |p.groups|
    ensures forall i :: 0 <= i < |p.conditions| ==> r.conditions[i] == NormalCondition(p.conditions[i])
    ensures forall i :: 0 <= i < |p.groups| ==> r.groups[i] == Normal(p.groups[i])
  {
    Policy(Logic(p.logic), seq(|p.conditions|, i requires 0 <= i < |p.conditions| => NormalCondition(p.conditions[i])),
           seq(|p.groups|, i requires 0 <= i < |p.groups| => Normal(p.groups[i])))
  }

  lemma LogicTwice(logic: string)
    ensures Logic(Logic(logic)) == Logic(logic)
  {
    Text.NormalizeTwice(logic);
    assert Text.Trimmed("and") && Text.Lower("and") == "and";
    Text.TrimShape("and");
  }

  lemma NormalConditionTwice(c: Condition)
    ensures NormalCondition(NormalCondition(c)) == NormalCondition(c)
  {
    Text.NormalizeTwice(c.op);
    Text.TrimShape(c.field);
  }

  /** Normalising again changes nothing, and keeps both valid and invalid trees what they were. */
  lemma {:induction false} NormalTwice(p: Policy)
    ensures Normal(Normal(p)) == Normal(p)
    ensures Valid(Normal(p)) <==> Valid(p)
  {
    LogicTwice(p.logic);
    forall i | 0 <= i < |p.conditions|
      ensures NormalCondition(Normal(p).conditions[i]) == Normal(p).conditions[i]
      ensures ValidCondition(Normal(p).conditions[i]) <==> ValidCondition(p.conditions[i])
    {
      NormalConditionTwice(p.conditions[i]);
    }
    forall i | 0 <= i < |p.groups| {
      NormalTwice(p.groups[i]);
    }
  }

  // ---------------------------------------------------------------- negation

  function Complement(op: string): string {
    match op
    case "eq" => "ne"
    case "ne" => "eq"
    case "gt" => "lte"
    case "lte" => "gt"
    case "lt" => "gte"
    case "gte" => "lt"
    case "in" => "not_in"
    case "not_in" => "in"
    case "contains" => "not_contains"
    case "not_contains" => "contains"
    case "exists" => "not_exists"
    case "not_exists" => "exists"
    case _ => op
  }

  function Negated(p: Policy): (r: Policy)
    ensures |r.conditions| == |p.conditions| && |r.groups| == |p.groups|
    ensures forall i :: 0 <= i < |p.groups| ==> r.groups[i] == Negated(p.groups[i])
  {
    Policy(if Logic(p.logic) == "or" then "and" else "or",
           seq(|p.conditions|, i requires 0 <= i < |p.conditions| =>
             p.conditions[i].(op := Complement(p.conditions[i].op))),
           seq(|p.groups|, i requires 0 <= i < |p.groups| => Negated(p.groups[i])))
  }

  /** Complementing the operator turns the answer around exactly for the operators the evaluator knows as written. */
  lemma ComplementNegates(ctx: Context, c: Condition)
    ensures ConditionHolds(ctx, c.(op := Complement(c.op))) == !ConditionHolds(ctx, c) <==> c.op in OPERATORS
  {
  }

  lemma LogicWords()
    ensures Logic("and") == "and" && Logic("or") == "or"
  {
    assert Text.Lower("and") == "and" && Text.Lower("or") == "or";
    Text.TrimShape("and");
    Text.TrimShape("or");
  }

  /** De Morgan for whole policies: negating every condition and swapping and/or at every level negates the decision. */
  lemma {:induction false} NegatedDecides(ctx: Context, p: Policy)
    requires Valid(p) && Normal(p) == p
    ensures Holds(ctx, Negated(p)) == !Holds(ctx, p)
  {
    var n := Negated(p);
    LogicWords();
    forall i | 0 <= i < |p.conditions|
      ensures ConditionHolds(ctx, n.conditions[i]) == !ConditionHolds(ctx, p.conditions[i])
    {
      assert p.conditions[i] == NormalCondition(p.conditions[i]) && ValidCondition(p.conditions[i]);
      ComplementNegates(ctx, p.conditions[i]);
    }
    forall i | 0 <= i < |p.groups|
      ensures Holds(ctx, n.groups[i]) == !Holds(ctx, p.groups[i])
    {
      assert p.groups[i] == Normal(p.groups[i]);
      NegatedDecides(ctx, p.groups[i]);
    }
  }
}
