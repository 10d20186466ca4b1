/** The two validators and the short-circuit evaluator of access policies, proved against the meaning of the tree. */
module AccessCheck {
  import opened AccessPolicies
  import opened Options
  import Text

  // ---------------------------------------------------------------- the first problem and the first false condition

  function ConditionProblem(c: Condition, index: nat): Option<Problem> {
    if Text.Trim(c.field) == "" then Some(FieldRequired(index))
    else if Operator(c.op) !in OPERATORS then Some(UnsupportedOperator(index, Operator(c.op)))
    else if Operator(c.op) in ["in", "not_in"] && !c.value.List? then Some(ArrayRequired(index, Operator(c.op)))
    else None
  }

  function ProblemInConditions(conditions: seq<Condition>, from: nat): Option<Problem>
    requires from <= |conditions|
    decreases |conditions| - from
  {
    if from == |conditions| then None
    else if ConditionProblem(conditions[from], from).Some? then ConditionProblem(conditions[from], from)
    else ProblemInConditions(conditions, from + 1)
  }

  function ProblemInGroups(p: Policy, from: nat): Option<Problem>
    requires from <= |p.groups|
    decreases p, |p.groups| - from
  {
    if from == |p.groups| then None
    else
      var inner := FirstProblem(p.groups[from]);
      if inner.Some? then Some(InGroup(from, inner.value)) else ProblemInGroups(p, from + 1)
  }

  /** The problem reported for a tree: its own logic, then emptiness, then conditions and groups from the left. */
  function FirstProblem(p: Policy): Option<Problem>
    decreases p, |p.groups| + 1
  {
    if Logic(p.logic) !in ["and", "or"] then Some(UnsupportedLogic(Logic(p.logic)))
    else if p.conditions == [] && p.groups == [] then Some(NoConditionOrGroup)
    else if ProblemInConditions(p.conditions, 0).Some? then ProblemInConditions(p.conditions, 0)
    else ProblemInGroups(p, 0)
  }

  lemma {:induction false} NoProblemInConditions(conditions: seq<Condition>, from: nat)
    requires from <= |conditions|
    ensures ProblemInConditions(conditions, from) == None
            <==> forall i :: from <= i < |conditions| ==> ValidCondition(conditions[i])
    decreases |conditions| - from
  {
    if from < |conditions| {
      NoProblemInConditions(conditions, from + 1);
      assert ConditionProblem(conditions[from], from) == None <==> ValidCondition(conditions[from]);
    }
  }

  lemma {:induction false} NoProblemInGroups(p: Policy, from: nat)
    requires from <= |p.groups|
    ensures ProblemInGroups(p, from) == None <==> forall i :: from <= i < |p.groups| ==> Valid(p.groups[i])
    decreases p, |p.groups| - from
  {
    if from < |p.groups| {
      NoProblemMeansValid(p.groups[from]);
      NoProblemInGroups(p, from + 1);
    }
  }

  /** A tree is accepted exactly when every node of it is well formed. */
  lemma {:induction false} NoProblemMeansValid(p: Policy)
    ensures FirstProblem(p) == None <==> Valid(p)
    decreases p, |p.groups| + 1
  {
    NoProblemInConditions(p.conditions, 0);
    NoProblemInGroups(p, 0);
  }

  function FalseAmong(ctx: Context, conditions: seq<Condition>, from: nat): Option<Condition>
    requires from <= |conditions|
    decreases |conditions| - from
  {
    if from == |conditions| then None
    else if !ConditionHolds(ctx, conditions[from]) then Some(conditions[from])
    else FalseAmong(ctx, conditions, from + 1)
  }

  function FalseInGroups(ctx: Context, p: Policy, from: nat): Option<Condition>
    requires from <= |p.groups|
    decreases p, |p.groups| - from
  {
    if from == |p.groups| then None
    else
      var inner := FirstFalse(ctx, p.groups[from]);
      if inner.Some? then inner else FalseInGroups(ctx, p, from + 1)
  }

  /** The condition a denial is blamed on: under "or" the first alternative, under "and" the first that fails. */
  function FirstFalse(ctx: Context, p: Policy): Option<Condition>
    decreases p, |p.groups| + 1
  {
    if p.conditions == [] && p.groups == [] then None
    else if Logic(p.logic) == "or" then
      if Holds(ctx, p) then None
      else if p.conditions != [] then Some(p.conditions[0])
      else FirstFalse(ctx, p.groups[0])
    else if FalseAmong(ctx, p.conditions, 0).Some? then FalseAmong(ctx, p.conditions, 0)
    else FalseInGroups(ctx, p, 0)
  }

  lemma {:induction false} FalseAmongConditions(ctx: Context, conditions: seq<Condition>, from: nat)
    requires from <= |conditions|
    ensures var f := FalseAmong(ctx, conditions, from);
            && (f == None <==> forall i :: from <= i < |conditions| ==> ConditionHolds(ctx, conditions[i]))
            && (f.Some? ==> f.value in conditions && !ConditionHolds(ctx, f.value))
    decreases |conditions| - from
  {
    if from < |conditions| {
      FalseAmongConditions(ctx, conditions, from + 1);
    }
  }

  lemma {:induction false} FalseAmongGroups(ctx: Context, p: Policy, from: nat)
    requires from <= |p.groups|
    ensures var f := FalseInGroups(ctx, p, from);
            && (f == None <==> forall i :: from <= i < |p.groups| ==> Holds(ctx, p.groups[i]))
            && (f.Some? ==> InTree(p, f.value) && !ConditionHolds(ctx, f.value))
    decreases p, |p.groups| - from
  {
    if from < |p.groups| {
      DenialNamesFalseCondition(ctx, p.groups[from]);
      FalseAmongGroups(ctx, p, from + 1);
    }
  }

  /** Every denial names a condition of the tree that is false on the body, and nothing is named otherwise. */
  lemma {:induction false} DenialNamesFalseCondition(ctx: Context, p: Policy)
    ensures FirstFalse(ctx, p).Some? <==> !Holds(ctx, p)
    ensures FirstFalse(ctx, p).Some? ==>
              InTree(p, FirstFalse(ctx, p).value) && !ConditionHolds(ctx, FirstFalse(ctx, p).value)
    decreases p, |p.groups| + 1
  {
    if p.conditions != [] || p.groups != [] {
      if Logic(p.logic) != "or" {
        FalseAmongConditions(ctx, p.conditions, 0);
        FalseAmongGroups(ctx, p, 0);
      } else if p.conditions == [] {
        DenialNamesFalseCondition(ctx, p.groups[0]);
      }
    }
  }

  // ---------------------------------------------------------------- the validators

  /** The login-time validator, which rewrites the policy as it goes. */
  method ValidateAccessPolicy(p: Policy) returns (problem: Option<Problem>, rewritten: Policy)
    ensures problem == FirstProblem(p)
    ensures problem == None ==> rewritten == Normal(p)
    decreases p
  {
    rewritten := p;
    var logic := Text.Lower(Text.Trim(p.logic));
    if logic == "" {
      logic := "and";
    }
    if logic !in ["and", "or"] {
      return Some(UnsupportedLogic(logic)), rewritten;
    }
    rewritten := rewritten.(logic := logic);
    if |p.conditions| == 0 && |p.groups| == 0 {
      return Some(NoConditionOrGroup), rewritten;
    }
    var i := 0;
    while i < |p.conditions|
      invariant 0 <= i <= |p.conditions| == |rewritten.conditions|
      invariant rewritten.logic == Logic(p.logic) && rewritten.groups == p.groups
      invariant forall j :: 0 <= j < |p.conditions| ==>
        rewritten.conditions[j] == if j < i then NormalCondition(p.conditions[j]) else p.conditions[j]
      invariant ProblemInConditions(p.conditions, 0) == ProblemInConditions(p.conditions, i)
    {
      var failed, c := ValidateAccessCondition(rewritten.conditions[i], i);
      rewritten := rewritten.(conditions := rewritten.conditions[i := c]);
      if failed.Some? {
        return failed, rewritten;
      }
      i := i + 1;
    }
    i := 0;
    while i < |p.groups|
      invariant 0 <= i <= |p.groups| == |rewritten.groups|
      invariant rewritten.logic == Logic(p.logic) && rewritten.conditions == Normal(p).conditions
      invariant forall j :: 0 <= j < |p.groups| ==>
        rewritten.groups[j] == if j < i then Normal(p.groups[j]) else p.groups[j]
      invariant ProblemInGroups(p, 0) == ProblemInGroups(p, i)
    {
      assert rewritten.groups[i] == p.groups[i];
      var failed, g := ValidateAccessPolicy(p.groups[i]);
      rewritten := rewritten.(groups := rewritten.groups[i := g]);
      if failed.Some? {
        return Some(InGroup(i, failed.value)), rewritten;
      }
      i := i + 1;
    }
    assert rewritten.groups == Normal(p).groups;
    return None, rewritten;
  }

  method ValidateAccessCondition(c: Condition, index: nat) returns (problem: Option<Problem>, rewritten: Condition)
    ensures problem == ConditionProblem(c, index)
    ensures problem == None ==> rewritten == NormalCondition(c)
  {
    rewritten := c.(field := Text.Trim(c.field));
    if rewritten.field == "" {
      return Some(FieldRequired(index)), rewritten;
    }
    rewritten := rewritten.(op := Text.Lower(Text.Trim(c.op)));
    if rewritten.op !in OPERATORS {
      return Some(UnsupportedOperator(index, rewritten.op)), rewritten;
    }
    if rewritten.op in ["in", "not_in"] && !rewritten.value.List? {
      return Some(ArrayRequired(index, rewritten.op)), rewritten;
    }
    return None, rewritten;
  }

  /** The store-time validator, which only reads: it reports the same problem for the same tree. */
  method ValidateAccessPolicyPayload(p: Policy) returns (problem: Option<Problem>)
    ensures problem == FirstProblem(p)
    decreases p
  {
    var logic := Text.Lower(Text.Trim(p.logic));
    if logic == "" {
      logic := "and";
    }
    if logic != "and" && logic != "or" {
      return Some(UnsupportedLogic(logic));
    }
    if |p.conditions| == 0 && |p.groups| == 0 {
      return Some(NoConditionOrGroup);
    }
    var i := 0;
    while i < |p.conditions|
      invariant 0 <= i <= |p.conditions|
      invariant ProblemInConditions(p.conditions, 0) == ProblemInConditions(p.conditions, i)
    {
      var field := Text.Trim(p.conditions[i].field);
      if field == "" {
        return Some(FieldRequired(i));
      }
      var op := Text.Lower(Text.Trim(p.conditions[i].op));
      if op !in OPERATORS {
        return Some(UnsupportedOperator(i, op));
      }
      if op == "in" || op == "not_in" {
        if !p.conditions[i].value.List? {
          return Some(ArrayRequired(i, op));
        }
      }
      i := i + 1;
    }
    i := 0;
    while i < |p.groups|
      invariant 0 <= i <= |p.groups|
      invariant ProblemInGroups(p, 0) == ProblemInGroups(p, i)
    {
      var inner := ValidateAccessPolicyPayload(p.groups[i]);
      if inner.Some? {
        return Some(InGroup(i, inner.value));
      }
      i := i + 1;
    }
    return None;
  }

  // ---------------------------------------------------------------- the evaluator

  datatype Failure = Failure(field: string, op: string, expected: Value, current: Value)

  function FailureOf(ctx: Context, c: Condition): Failure {
    Failure(c.field, c.op, c.value, Current(ctx, c.field))
  }

  function Report(ctx: Context, c: Option<Condition>): Option<Failure> {
    if c.Some? then Some(FailureOf(ctx, c.value)) else None
  }

  /** The short-circuit evaluation with its record of the first failure. */
  method EvaluateAccessPolicy(ctx: Context, p: Policy) returns (allowed: bool, failure: Option<Failure>)
    ensures allowed == Holds(ctx, p)
    ensures failure == Report(ctx, FirstFalse(ctx, p))
    decreases p, 1
  {
    if |p.conditions| == 0 && |p.groups| == 0 {
      return true, None;
    }
    if Logic(p.logic) == "or" {
      allowed, failure := EvaluateAlternatives(ctx, p);
    } else {
      allowed, failure := EvaluateRequirements(ctx, p);
    }
  }

  method EvaluateAlternatives(ctx: Context, p: Policy) returns (allowed: bool, failure: Option<Failure>)
    requires (p.conditions != [] || p.groups != []) && Logic(p.logic) == "or"
    ensures allowed == Holds(ctx, p)
    ensures failure == Report(ctx, FirstFalse(ctx, p))
    decreases p, 0
  {
    var first: Option<Failure> := None;
    var i := 0;
    while i < |p.conditions|
      invariant 0 <= i <= |p.conditions|
      invariant forall j :: 0 <= j < i ==> !ConditionHolds(ctx, p.conditions[j])
      invariant first == if i == 0 then None else Some(FailureOf(ctx, p.conditions[0]))
    {
      if ConditionHolds(ctx, p.conditions[i]) {
        return true, None;
      }
      if first.None? {
        first := Some(FailureOf(ctx, p.conditions[i]));
      }
      i := i + 1;
    }
    i := 0;
    while i < |p.groups|
      invariant 0 <= i <= |p.groups|
      invariant forall j :: 0 <= j < i ==> !Holds(ctx, p.groups[j])
      invariant first == if p.conditions != [] then Some(FailureOf(ctx, p.conditions[0]))
                         else if i == 0 then None else Report(ctx, FirstFalse(ctx, p.groups[0]))
    {
      DenialNamesFalseCondition(ctx, p.groups[i]);
      var ok, f := EvaluateAccessPolicy(ctx, p.groups[i]);
      if ok {
        return true, None;
      }
      if first.None? {
        DenialNamesFalseCondition(ctx, p.groups[0]);
        first := f;
      }
      i := i + 1;
    }
    return false, first;
  }

  method EvaluateRequirements(ctx: Context, p: Policy) returns (allowed: bool, failure: Option<Failure>)
    requires (p.conditions != [] || p.groups != []) && Logic(p.logic) != "or"
    ensures allowed == Holds(ctx, p)
    ensures failure == Report(ctx, FirstFalse(ctx, p))
    decreases p, 0
  {
    FalseAmongConditions(ctx, p.conditions, 0);
    FalseAmongGroups(ctx, p, 0);
    var i := 0;
    while i < |p.conditions|
      invariant 0 <= i <= |p.conditions|
      invariant FalseAmong(ctx, p.conditions, 0) == FalseAmong(ctx, p.conditions, i)
    {
      if !ConditionHolds(ctx, p.conditions[i]) {
        return false, Some(FailureOf(ctx, p.conditions[i]));
      }
      i := i + 1;
    }
    i := 0;
    while i < |p.groups|
      invariant 0 <= i <= |p.groups|
      invariant FalseInGroups(ctx, p, 0) == FalseInGroups(ctx, p, i)
    {
      DenialNamesFalseCondition(ctx, p.groups[i]);
      var ok, f := EvaluateAccessPolicy(ctx, p.groups[i]);
      if !ok {
        return false, f;
      }
      i := i + 1;
    }
    return true, None;
  }

  // ---------------------------------------------------------------- a login

  datatype Verdict = Misconfigured(problem: Problem) | Admitted | Denied(failure: Failure)

  /** The policy step of a login: the stored tree is validated and normalised, then evaluated on the response body. */
  method CheckLogin(ctx: Context, stored: Policy) returns (v: Verdict)
    ensures v.Misconfigured? <==> !Valid(stored)
    ensures v.Admitted? <==> Valid(stored) && Holds(ctx, Normal(stored))
    ensures v.Denied? ==>
              exists c :: InTree(Normal(stored), c) && !ConditionHolds(ctx, c)
                          && v.failure.field == c.field && v.failure.op == c.op && v.failure.expected == c.value
                          && (if ctx.lookup(c.field) == None then v.failure.current == Null
                              else ctx.lookup(c.field) == Some(v.failure.current))
  {
    var problem, policy := ValidateAccessPolicy(stored);
    NoProblemMeansValid(stored);
    if problem.Some? {
      return Misconfigured(problem.value);
    }
    DenialNamesFalseCondition(ctx, policy);
    var allowed, failure := EvaluateAccessPolicy(ctx, policy);
    if allowed {
      return Admitted;
    }
    return Denied(failure.value);
  }
}
