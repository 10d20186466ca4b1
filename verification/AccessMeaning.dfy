/**
 What the words of an access policy mean: every operator on numbers and on texts, the reading of a whole tree, and the
 place of the first problem and of the first failing condition.
 */
module AccessMeaning {
  import opened Options
  import opened AccessPolicies
  import opened AccessCheck
  import AccessComparison
  import Text

  // ---------------------------------------------------------------- values

  /** The value is a number, or a text that parses as one once its blanks are gone. */
  predicate Reads(ctx: Context, v: Value, n: Number) {
    v == Num(n) || (v.Str? && ctx.parse(Text.Trim(v.text)) == Some(n))
  }

  predicate Prints(ctx: Context, v: Value, text: string) {
    if v.Str? then text == Text.Trim(v.text) else text == Text.Trim(ctx.show(v))
  }

  /** The usual order of numbers, in which not-a-number stands apart. */
  predicate Exceeds(x: Number, y: Number) {
    && x != NotANumber && y != NotANumber && x != y
    && (x == PositiveInfinity || y == NegativeInfinity || (x.Finite? && y.Finite? && x.value > y.value))
  }

  /** The longer of two texts that begin alike, or the one with the larger character where they first differ. */
  ghost predicate Follows(a: string, b: string) {
    exists k :: 0 <= k <= |b| && k < |a| && a[..k] == b[..k] && (k == |b| || a[k] > b[k])
  }

  ghost predicate ReadAsNumbers(ctx: Context, a: Value, b: Value) {
    exists x, y :: Reads(ctx, a, x) && Reads(ctx, b, y)
  }

  /** Greater as numbers when both values read as numbers, and as printed texts otherwise. */
  ghost predicate Greater(ctx: Context, a: Value, b: Value) {
    if ReadAsNumbers(ctx, a, b) then exists x, y :: Reads(ctx, a, x) && Reads(ctx, b, y) && Exceeds(x, y)
    else exists s, t :: Prints(ctx, a, s) && Prints(ctx, b, t) && Follows(s, t)
  }

  ghost predicate Same(ctx: Context, a: Value, b: Value) {
    !Greater(ctx, a, b) && !Greater(ctx, b, a)
  }

  /** The text, or some item of the list, that was looked up has the expected value in it. */
  ghost predicate Has(ctx: Context, current: Value, expected: Value) {
    || (current.Str? && exists before, t, after :: Prints(ctx, expected, t) && current.text == before + t + after)
    || (current.List? && exists i :: 0 <= i < |current.items| && Same(ctx, current.items[i], expected))
  }

  ghost predicate Listed(ctx: Context, current: Value, expected: Value) {
    expected.List? && exists i :: 0 <= i < |expected.items| && Same(ctx, current, expected.items[i])
  }

  lemma {:induction false} TextLessMeans(a: string, b: string)
    ensures TextLess(a, b) <==> Follows(b, a)
  {
    if a != [] && b != [] && a[0] == b[0] {
      TextLessMeans(a[1..], b[1..]);
      if k :| 0 <= k <= |a[1..]| && k < |b[1..]| && b[1..][..k] == a[1..][..k]
              && (k == |a[1..]| || b[1..][k] > a[1..][k]) {
        assert b[..k + 1] == [b[0]] + b[1..][..k] && a[..k + 1] == [a[0]] + a[1..][..k];
      }
      if k :| 0 <= k <= |a| && k < |b| && b[..k] == a[..k] && (k == |a| || b[k] > a[k]) {
        assert k > 0;
        assert b[1..][..k - 1] == b[..k][1..] && a[1..][..k - 1] == a[..k][1..];
      }
    } else if a == [] {
      assert b != [] ==> b[..0] == a[..0];
    } else if b != [] {
      assert b[..0] == a[..0];
      forall k | 0 < k <= |a| && k < |b|
        ensures b[..k] != a[..k]
      {
        assert b[..k][0] != a[..k][0];
      }
    }
  }

  lemma {:induction false} InfixMeans(s: string, t: string)
    ensures HasInfix(s, t) <==> exists before, after :: s == before + t + after
  {
    if t <= s {
      assert s == [] + t + s[|t|..];
    } else if s != [] {
      InfixMeans(s[1..], t);
      if before, after :| s[1..] == before + t + after {
        assert s == ([s[0]] + before) + t + after;
      }
      if before, after :| s == before + t + after {
        assert before != [];
        assert s[1..] == before[1..] + t + after;
      }
    }
  }

  /** The comparison is positive exactly when the left side is the greater one, and it answers one of three numbers. */
  lemma CompareMeans(ctx: Context, a: Value, b: Value)
    ensures Compare(ctx, a, b) > 0 <==> Greater(ctx, a, b)
    ensures Compare(ctx, a, b) < 0 <==> Greater(ctx, b, a)
    ensures Compare(ctx, a, b) == 0 <==> Same(ctx, a, b)
  {
    var l, r := AsNumber(ctx, a), AsNumber(ctx, b);
    assert forall n :: Reads(ctx, a, n) <==> l == Some(n);
    assert forall n :: Reads(ctx, b, n) <==> r == Some(n);
    if l.Some? && r.Some? {
      assert ReadAsNumbers(ctx, a, b) && ReadAsNumbers(ctx, b, a);
    } else {
      TextLessMeans(Printed(ctx, a), Printed(ctx, b));
      TextLessMeans(Printed(ctx, b), Printed(ctx, a));
      assert Prints(ctx, a, Printed(ctx, a)) && Prints(ctx, b, Printed(ctx, b));
      AccessComparison.TextOrder(Printed(ctx, a), Printed(ctx, b));
    }
  }

  // ---------------------------------------------------------------- the operators

  /** What was looked up, null when there is nothing. */
  predicate Finds(ctx: Context, field: string, v: Value) {
    ctx.lookup(field) == Some(v) || (ctx.lookup(field) == None && v == Null)
  }

  /** The six comparisons: each side may win, and neither does when they are the same. */
  lemma ComparisonOperators(ctx: Context, c: Condition, v: Value)
    requires Finds(ctx, c.field, v)
    ensures c.op == "gt" ==> (ConditionHolds(ctx, c) <==> Greater(ctx, v, c.value))
    ensures c.op == "lt" ==> (ConditionHolds(ctx, c) <==> Greater(ctx, c.value, v))
    ensures c.op == "gte" ==> (ConditionHolds(ctx, c) <==> !Greater(ctx, c.value, v))
    ensures c.op == "lte" ==> (ConditionHolds(ctx, c) <==> !Greater(ctx, v, c.value))
    ensures c.op == "eq" ==> (ConditionHolds(ctx, c) <==> Same(ctx, v, c.value))
    ensures c.op == "ne" ==> (ConditionHolds(ctx, c) <==> !Same(ctx, v, c.value))
  {
    CompareMeans(ctx, v, c.value);
  }

  /** The six others look for something: at the path, in the expected list, or in the value found. */
  lemma SearchOperators(ctx: Context, c: Condition, v: Value)
    requires Finds(ctx, c.field, v)
    ensures c.op == "exists" ==> (ConditionHolds(ctx, c) <==> exists x :: ctx.lookup(c.field) == Some(x))
    ensures c.op == "not_exists" ==> (ConditionHolds(ctx, c) <==> ctx.lookup(c.field) == None)
    ensures c.op == "in" ==> (ConditionHolds(ctx, c) <==> Listed(ctx, v, c.value))
    ensures c.op == "not_in" ==> (ConditionHolds(ctx, c) <==> !Listed(ctx, v, c.value))
    ensures c.op == "contains" ==> (ConditionHolds(ctx, c) <==> Has(ctx, v, c.value))
    ensures c.op == "not_contains" ==> (ConditionHolds(ctx, c) <==> !Has(ctx, v, c.value))
  {
    assert Current(ctx, c.field) == v;
    ListedMeans(ctx, v, c.value);
    HasMeans(ctx, v, c.value);
    if ctx.lookup(c.field).Some? {
      assert ctx.lookup(c.field) == Some(ctx.lookup(c.field).value);
    }
  }

  /** No other word is ever true. */
  lemma OtherOperators(ctx: Context, c: Condition)
    requires c.op !in {"eq", "ne", "gt", "gte", "lt", "lte", "in", "not_in", "contains", "not_contains", "exists",
                       "not_exists"}
    ensures !ConditionHolds(ctx, c)
  {
  }

  lemma ListedMeans(ctx: Context, v: Value, expected: Value)
    ensures OneOf(ctx, v, expected) <==> Listed(ctx, v, expected)
  {
    if expected.List? {
      forall i | 0 <= i < |expected.items|
        ensures Compare(ctx, v, expected.items[i]) == 0 <==> Same(ctx, v, expected.items[i])
      {
        CompareMeans(ctx, v, expected.items[i]);
      }
    }
  }

  lemma HasMeans(ctx: Context, v: Value, expected: Value)
    ensures Holding(ctx, v, expected) <==> Has(ctx, v, expected)
  {
    match v
    case Str(s) =>
      InfixMeans(s, Printed(ctx, expected));
      assert forall t :: Prints(ctx, expected, t) <==> t == Printed(ctx, expected);
    case List(items) =>
      forall i | 0 <= i < |items|
        ensures Compare(ctx, items[i], expected) == 0 <==> Same(ctx, items[i], expected)
      {
        CompareMeans(ctx, items[i], expected);
      }
    case _ =>
  }

  /** On two proper numbers the comparisons are those of arithmetic. */
  lemma OperatorsOnNumbers(ctx: Context, c: Condition, x: real, y: real)
    requires ctx.lookup(c.field) == Some(Num(Finite(x))) && c.value == Num(Finite(y))
    ensures c.op == "gt" ==> ConditionHolds(ctx, c) == (x > y)
    ensures c.op == "gte" ==> ConditionHolds(ctx, c) == (x >= y)
    ensures c.op == "lt" ==> ConditionHolds(ctx, c) == (x < y)
    ensures c.op == "lte" ==> ConditionHolds(ctx, c) == (x <= y)
    ensures c.op == "eq" ==> ConditionHolds(ctx, c) == (x == y)
    ensures c.op == "ne" ==> ConditionHolds(ctx, c) == (x != y)
  {
  }

  // ---------------------------------------------------------------- trees

  /** A tree that asks for nothing admits; "or" asks for one of its parts, and every other word for all of them. */
  lemma TreeMeaning(ctx: Context, p: Policy)
    ensures p.conditions == [] && p.groups == [] ==> Holds(ctx, p)
    ensures (p.conditions != [] || p.groups != []) && Text.Lower(Text.Trim(p.logic)) == "or" ==>
              (Holds(ctx, p) <==> (exists c :: c in p.conditions && ConditionHolds(ctx, c))
                                  || (exists g :: g in p.groups && Holds(ctx, g)))
    ensures (p.conditions != [] || p.groups != []) && Text.Lower(Text.Trim(p.logic)) != "or" ==>
              (Holds(ctx, p) <==> (forall c :: c in p.conditions ==> ConditionHolds(ctx, c))
                                  && (forall g :: g in p.groups ==> Holds(ctx, g)))
  {
    if i :| 0 <= i < |p.conditions| && ConditionHolds(ctx, p.conditions[i]) {
      assert p.conditions[i] in p.conditions;
    }
    if i :| 0 <= i < |p.conditions| && !ConditionHolds(ctx, p.conditions[i]) {
      assert p.conditions[i] in p.conditions;
    }
    if i :| 0 <= i < |p.groups| && Holds(ctx, p.groups[i]) {
      assert p.groups[i] in p.groups;
    }
    if i :| 0 <= i < |p.groups| && !Holds(ctx, p.groups[i]) {
      assert p.groups[i] in p.groups;
    }
  }

  /** A rewritten tree has trimmed fields, trimmed lower-case words, "and" where no logic was given, the same values. */
  lemma NormalMeans(p: Policy)
    ensures var n, logic := Normal(p), Text.Lower(Text.Trim(p.logic));
            && n.logic == (if logic == "" then "and" else logic)
            && |n.conditions| == |p.conditions| && |n.groups| == |p.groups|
            && (forall i :: 0 <= i < |p.conditions| ==>
                  && n.conditions[i].field == Text.Trim(p.conditions[i].field)
                  && n.conditions[i].op == Text.Lower(Text.Trim(p.conditions[i].op))
                  && n.conditions[i].value == p.conditions[i].value)
            && (forall i :: 0 <= i < |p.groups| ==> n.groups[i] == Normal(p.groups[i]))
  {
  }

  /** A condition is well formed when it names a field, its operator is a known one, and lists are given as lists. */
  predicate WellFormed(c: Condition) {
    var op := Text.Lower(Text.Trim(c.op));
    && Text.Trim(c.field) != ""
    && op in {"eq", "ne", "gt", "gte", "lt", "lte", "in", "not_in", "contains", "not_contains", "exists", "not_exists"}
    && (op in {"in", "not_in"} ==> c.value.List?)
  }

  /** What is wrong with one condition: no field, a word that is none, or a value that is no list. */
  predicate Faulty(c: Condition, i: nat, problem: Problem) {
    var op := Text.Lower(Text.Trim(c.op));
    match problem
    case FieldRequired(j) => i == j && Text.Trim(c.field) == ""
    case UnsupportedOperator(j, word) =>
      && i == j && Text.Trim(c.field) != "" && word == op
      && op !in {"eq", "ne", "gt", "gte", "lt", "lte", "in", "not_in", "contains", "not_contains", "exists",
                 "not_exists"}
    case ArrayRequired(j, word) =>
      i == j && Text.Trim(c.field) != "" && word == op && op in {"in", "not_in"} && !c.value.List?
    case _ => false
  }

  /** The problem is that of this node or of one of its groups, and everything to the left of it is in order. */
  predicate Shows(p: Policy, problem: Problem) {
    var logic := Text.Lower(Text.Trim(p.logic));
    var known := logic in {"", "and", "or"};
    match problem
    case UnsupportedLogic(l) => !known && l == logic
    case NoConditionOrGroup => known && p.conditions == [] && p.groups == []
    case InGroup(i, inner) =>
      && known && (forall j :: 0 <= j < |p.conditions| ==> WellFormed(p.conditions[j]))
      && i < |p.groups| && (forall j :: 0 <= j < i ==> Sound(p.groups[j])) && Shows(p.groups[i], inner)
    case _ =>
      && known
      && exists i :: 0 <= i < |p.conditions| && Faulty(p.conditions[i], i, problem)
                     && forall j :: 0 <= j < i ==> WellFormed(p.conditions[j])
  }

  /** Every node knows its logic, asks for something, and has well-formed conditions. */
  predicate Sound(p: Policy) {
    && Text.Lower(Text.Trim(p.logic)) in {"", "and", "or"}
    && (p.conditions != [] || p.groups != [])
    && (forall i :: 0 <= i < |p.conditions| ==> WellFormed(p.conditions[i]))
    && (forall i :: 0 <= i < |p.groups| ==> Sound(p.groups[i]))
  }

  lemma {:induction false} SoundIsValid(p: Policy)
    ensures Sound(p) <==> Valid(p)
  {
    forall i | 0 <= i < |p.groups|
      ensures Sound(p.groups[i]) <==> Valid(p.groups[i])
    {
      SoundIsValid(p.groups[i]);
    }
  }

  lemma ConditionFault(c: Condition, i: nat)
    ensures ConditionProblem(c, i) == None <==> WellFormed(c)
    ensures ConditionProblem(c, i).Some? ==> Faulty(c, i, ConditionProblem(c, i).value)
  {
  }

  /** The first problem among the conditions from the left. */
  lemma {:induction false} ProblemAmongConditions(conditions: seq<Condition>, from: nat)
    requires from <= |conditions|
    ensures var q := ProblemInConditions(conditions, from);
            q.Some? ==> exists i :: from <= i < |conditions| && Faulty(conditions[i], i, q.value)
                                    && forall j :: from <= j < i ==> WellFormed(conditions[j])
    decreases |conditions| - from
  {
    if from < |conditions| {
      ConditionFault(conditions[from], from);
      ProblemAmongConditions(conditions, from + 1);
    }
  }

  lemma {:induction false} ProblemAmongGroups(p: Policy, from: nat)
    requires from <= |p.groups|
    ensures var q := ProblemInGroups(p, from);
            q.Some? ==> q.value.InGroup? && from <= q.value.index < |p.groups|
                        && FirstProblem(p.groups[q.value.index]) == Some(q.value.inner)
                        && forall j :: from <= j < q.value.index ==> Sound(p.groups[j])
    decreases |p.groups| - from
  {
    if from < |p.groups| {
      NoProblemMeansValid(p.groups[from]);
      SoundIsValid(p.groups[from]);
      ProblemAmongGroups(p, from + 1);
    }
  }

  /** The problem reported is the leftmost one, at its true index and with the word that is at fault. */
  lemma {:induction false} ProblemIsTheFirst(p: Policy, problem: Problem)
    requires FirstProblem(p) == Some(problem)
    ensures Shows(p, problem)
  {
    ProblemAmongConditions(p.conditions, 0);
    NoProblemInConditions(p.conditions, 0);
    ProblemAmongGroups(p, 0);
    if problem.InGroup? {
      ProblemIsTheFirst(p.groups[problem.index], problem.inner);
    }
  }

  /** The condition blamed under "and" is the first that fails: all before it hold. */
  lemma {:induction false} FalseAmongIsFirst(ctx: Context, conditions: seq<Condition>, from: nat, i: nat)
    requires from <= i < |conditions| && !ConditionHolds(ctx, conditions[i])
    requires forall j :: from <= j < i ==> ConditionHolds(ctx, conditions[j])
    ensures FalseAmong(ctx, conditions, from) == Some(conditions[i])
    decreases i - from
  {
    if from < i {
      FalseAmongIsFirst(ctx, conditions, from + 1, i);
    }
  }

  lemma {:induction false} FalseInGroupsIsFirst(ctx: Context, p: Policy, from: nat, i: nat)
    requires from <= i < |p.groups| && !Holds(ctx, p.groups[i])
    requires forall j :: from <= j < i ==> Holds(ctx, p.groups[j])
    ensures FalseInGroups(ctx, p, from) == FirstFalse(ctx, p.groups[i])
    decreases i - from
  {
    DenialNamesFalseCondition(ctx, p.groups[from]);
    if from < i {
      FalseInGroupsIsFirst(ctx, p, from + 1, i);
    }
  }

  /**
   The condition a denial is blamed on. Under "or" it is the first alternative; otherwise the first condition that
   fails, or if all hold, the one the first failing group is blamed on.
   */
  lemma BlameIsTheFirst(ctx: Context, p: Policy, i: nat)
    requires !Holds(ctx, p)
    ensures Text.Lower(Text.Trim(p.logic)) == "or" ==>
              FirstFalse(ctx, p) == if p.conditions != [] then Some(p.conditions[0]) else FirstFalse(ctx, p.groups[0])
    ensures Text.Lower(Text.Trim(p.logic)) != "or" && i < |p.conditions| && !ConditionHolds(ctx, p.conditions[i])
            && (forall j :: 0 <= j < i ==> ConditionHolds(ctx, p.conditions[j])) ==>
              FirstFalse(ctx, p) == Some(p.conditions[i])
    ensures Text.Lower(Text.Trim(p.logic)) != "or" && (forall c :: c in p.conditions ==> ConditionHolds(ctx, c))
            && i < |p.groups| && !Holds(ctx, p.groups[i]) && (forall j :: 0 <= j < i ==> Holds(ctx, p.groups[j])) ==>
              FirstFalse(ctx, p) == FirstFalse(ctx, p.groups[i])
  {
    FalseAmongConditions(ctx, p.conditions, 0);
    if i < |p.conditions| && !ConditionHolds(ctx, p.conditions[i])
       && (forall j :: 0 <= j < i ==> ConditionHolds(ctx, p.conditions[j])) {
      FalseAmongIsFirst(ctx, p.conditions, 0, i);
    }
    if i < |p.groups| && !Holds(ctx, p.groups[i]) && (forall j :: 0 <= j < i ==> Holds(ctx, p.groups[j])) {
      FalseInGroupsIsFirst(ctx, p, 0, i);
    }
  }
}
