/**
 * policy.js: deciding a call against the rules, rate limits and budgets of a policy,
 * and the prior activity that budgets are read back from. A match clause, a scope and
 * a budget's field are functions of the evaluation context.
 */
module Policies {
  import opened Wrappers
  import opened Hashing
  import opened Canonical

  datatype Outcome = Allow | Deny | Escalate

  /** What a clause can look at. A metric the call does not carry is not in the map. */
  datatype Context = Context(kind: Text, target: Text, params: Json, metrics: map<Text, real>, actor: Json)

  type Clause = Context -> bool

  /** The value of a rule's `per` path, where it has one. */
  type Scope = Context -> Option<Text>

  datatype Rule = Rule(id: Text, matches: Clause, then': Option<Outcome>)

  /** What a rate limit and a budget share: which calls they are about, over how many milliseconds, and per what. */
  datatype Meter = Meter(matches: Clause, window: int, scope: Scope, weight: Context -> real)

  datatype RateLimit = RateLimit(id: Text, meter: Meter, limit: real, then': Outcome)

  datatype Budget = Budget(id: Text, meter: Meter, limit: real, then': Outcome)

  /** `egress` says whether the guard refuses the arguments of a call. */
  datatype Policy = Policy(egress: Clause, rules: seq<Rule>, fallback: Outcome, rateLimits: seq<RateLimit>,
                           budgets: seq<Budget>)

  datatype Phase = Atomic | Intent | OutcomePhase

  /** A receipt as far as a policy reads it back. */
  datatype Record = Record(phase: Phase, ts: int, context: Context, outcome: Outcome, approval: bool, declined: bool,
                           wouldBe: Option<Outcome>)

  datatype Decision = Decision(outcome: Outcome, rules: seq<Text>)

  const EGRESS_GUARD: Text := Lift([0x65, 0x67, 0x72, 0x65, 0x73, 0x73, 0x2E, 0x67, 0x75, 0x61, 0x72, 0x64])

  // -------------------------------------------------------------- prior activity

  /** An allowed call, not the restatement of one, that the meter is about, in scope. */
  predicate Counts(meter: Meter, scope: Option<Text>, e: Record) {
    e.phase != OutcomePhase && e.outcome == Allow && meter.scope(e.context) == scope && meter.matches(e.context)
  }

  /** `_relevant`, summed: what counts since `from` among the first `n` entries. */
  function Used(meter: Meter, scope: Option<Text>, entries: seq<Record>, n: nat, from: int): real
    requires n <= |entries|
  {
    if n == 0 then 0.0
    else
      var e := entries[n - 1];
      Used(meter, scope, entries, n - 1, from)
      + if Counts(meter, scope, e) && e.ts >= from then meter.weight(e.context) else 0.0
  }

  function UsedSince(meter: Meter, context: Context, entries: seq<Record>, now: int): real {
    Used(meter, meter.scope(context), entries, |entries|, now - meter.window)
  }

  // ------------------------------------------------------------------- deciding

  /** The ids of the rules that match, up to and with the first that decides, and what it decides. */
  function RuleVerdict(rules: seq<Rule>, context: Context): (seq<Text>, Option<Outcome>) {
    if |rules| == 0 then ([], None)
    else if !rules[0].matches(context) then RuleVerdict(rules[1..], context)
    else if rules[0].then'.Some? then ([rules[0].id], rules[0].then')
    else
      var rest := RuleVerdict(rules[1..], context);
      ([rules[0].id] + rest.0, rest.1)
  }

  /** Rule `i` is the first that matches and states an outcome. */
  predicate Decides(rules: seq<Rule>, i: nat, context: Context)
    requires i < |rules|
  {
    && rules[i].matches(context) && rules[i].then'.Some?
    && forall j | 0 <= j < i :: !(rules[j].matches(context) && rules[j].then'.Some?)
  }

  function MatchingIds(rules: seq<Rule>, context: Context): seq<Text> {
    if |rules| == 0 then []
    else (if rules[0].matches(context) then [rules[0].id] else []) + MatchingIds(rules[1..], context)
  }

  /** The ids reported are those of the matching rules, up to and with the one that decides. */
  lemma {:induction false} FiredAreMatching(rules: seq<Rule>, context: Context)
    ensures forall i | 0 <= i < |rules| && Decides(rules, i, context) ::
              RuleVerdict(rules, context).0 == MatchingIds(rules[..i + 1], context)
    ensures RuleVerdict(rules, context).1.None? ==> RuleVerdict(rules, context).0 == MatchingIds(rules, context)
    decreases |rules|
  {
    if |rules| > 0 {
      FiredAreMatching(rules[1..], context);
      forall i | 0 <= i < |rules| && Decides(rules, i, context)
        ensures RuleVerdict(rules, context).0 == MatchingIds(rules[..i + 1], context)
      {
        assert rules[..i + 1][1..] == rules[1..][..i];
        if i > 0 {
          assert forall j | 0 < j < |rules| :: rules[j] == rules[1..][j - 1];
          assert Decides(rules[1..], i - 1, context);
        }
      }
    }
  }

  /** The first rule that matches and states an outcome decides, and no rule after it is looked at. */
  lemma {:induction false} FirstRuleDecides(rules: seq<Rule>, context: Context)
    ensures forall i | 0 <= i < |rules| && Decides(rules, i, context) :: RuleVerdict(rules, context).1 == rules[i].then'
    ensures RuleVerdict(rules, context).1.None? <==>
            forall i | 0 <= i < |rules| :: !(rules[i].matches(context) && rules[i].then'.Some?)
    decreases |rules|
  {
    if |rules| > 0 {
      FirstRuleDecides(rules[1..], context);
      assert forall i | 0 < i < |rules| :: rules[i] == rules[1..][i - 1];
      forall i | 0 <= i < |rules| && Decides(rules, i, context) ensures RuleVerdict(rules, context).1 == rules[i].then' {
        if i > 0 {
          assert Decides(rules[1..], i - 1, context);
        }
      }
    }
  }

  predicate LimitReached(limit: RateLimit, context: Context, entries: seq<Record>, now: int) {
    limit.meter.matches(context) && UsedSince(limit.meter, context, entries, now) >= limit.limit
  }

  predicate BudgetExceeded(budget: Budget, context: Context, entries: seq<Record>, now: int) {
    budget.meter.matches(context)
    && UsedSince(budget.meter, context, entries, now) + budget.meter.weight(context) > budget.limit
  }

  /** The first rate limit, in written order, that the call would run into. */
  predicate IsFirstLimit(policy: Policy, i: nat, context: Context, entries: seq<Record>, now: int)
    requires i <= |policy.rateLimits|
  {
    && (forall j | 0 <= j < i :: !LimitReached(policy.rateLimits[j], context, entries, now))
    && (i < |policy.rateLimits| ==> LimitReached(policy.rateLimits[i], context, entries, now))
  }

  predicate IsFirstBudget(policy: Policy, i: nat, context: Context, entries: seq<Record>, now: int)
    requires i <= |policy.budgets|
  {
    && (forall j | 0 <= j < i :: !BudgetExceeded(policy.budgets[j], context, entries, now))
    && (i < |policy.budgets| ==> BudgetExceeded(policy.budgets[i], context, entries, now))
  }

  function FirstLimit(policy: Policy, n: nat, context: Context, entries: seq<Record>, now: int): (i: nat)
    requires n <= |policy.rateLimits|
    requires forall j | 0 <= j < n :: !LimitReached(policy.rateLimits[j], context, entries, now)
    ensures i <= |policy.rateLimits| && IsFirstLimit(policy, i, context, entries, now)
    decreases |policy.rateLimits| - n
  {
    if n == |policy.rateLimits| || LimitReached(policy.rateLimits[n], context, entries, now) then n
    else FirstLimit(policy, n + 1, context, entries, now)
  }

  function FirstBudget(policy: Policy, n: nat, context: Context, entries: seq<Record>, now: int): (i: nat)
    requires n <= |policy.budgets|
    requires forall j | 0 <= j < n :: !BudgetExceeded(policy.budgets[j], context, entries, now)
    ensures i <= |policy.budgets| && IsFirstBudget(policy, i, context, entries, now)
    decreases |policy.budgets| - n
  {
    if n == |policy.budgets| || BudgetExceeded(policy.budgets[n], context, entries, now) then n
    else FirstBudget(policy, n + 1, context, entries, now)
  }

  /** Rules decide first; permission by rule or default is not permission to exceed a limit or a budget. */
  function Decide(policy: Policy, context: Context, entries: seq<Record>, now: int): Decision {
    if policy.egress(context) then Decision(Deny, [EGRESS_GUARD])
    else
      var (fired, verdict) := RuleVerdict(policy.rules, context);
      if verdict == Some(Deny) || verdict == Some(Escalate) then Decision(verdict.value, fired)
      else if verdict.None? && policy.fallback != Allow then Decision(policy.fallback, fired)
      else
        var limit := FirstLimit(policy, 0, context, entries, now);
        if limit < |policy.rateLimits| then
          Decision(policy.rateLimits[limit].then', fired + [policy.rateLimits[limit].id])
        else
          var budget := FirstBudget(policy, 0, context, entries, now);
          if budget < |policy.budgets| then Decision(policy.budgets[budget].then', fired + [policy.budgets[budget].id])
          else Decision(Allow, fired)
  }

  /** Neither the egress guard nor a rule nor the default stops the call before the limits are looked at. */
  predicate Permitted(policy: Policy, context: Context) {
    && !policy.egress(context)
    && var verdict := RuleVerdict(policy.rules, context).1;
       verdict == Some(Allow) || (verdict.None? && policy.fallback == Allow)
  }

  /** Exactly when a call is allowed, for any policy, whatever its limits and budgets are set to answer. */
  lemma {:induction false} AllowedExactly(policy: Policy, context: Context, entries: seq<Record>, now: int)
    ensures Decide(policy, context, entries, now).outcome == Allow <==>
            && Permitted(policy, context)
            && forall i | 0 <= i <= |policy.rateLimits| && IsFirstLimit(policy, i, context, entries, now) ::
                 if i < |policy.rateLimits| then policy.rateLimits[i].then' == Allow
                 else forall j | 0 <= j < |policy.budgets| && IsFirstBudget(policy, j, context, entries, now) ::
                        policy.budgets[j].then' == Allow
  {
    hide RuleVerdict, LimitReached, BudgetExceeded, EGRESS_GUARD;
    var limit, budget := FirstLimit(policy, 0, context, entries, now), FirstBudget(policy, 0, context, entries, now);
    forall i | 0 <= i <= |policy.rateLimits| && IsFirstLimit(policy, i, context, entries, now) ensures i == limit {
      OneFirstLimit(policy, i, context, entries, now);
    }
    forall j | 0 <= j < |policy.budgets| && IsFirstBudget(policy, j, context, entries, now) ensures j == budget {
      OneFirstBudget(policy, j, context, entries, now);
    }
    assert IsFirstLimit(policy, limit, context, entries, now) && IsFirstBudget(policy, budget, context, entries, now);
    var verdict := RuleVerdict(policy.rules, context).1;
    assert verdict.Some? ==> verdict.value.Allow? || verdict.value.Deny? || verdict.value.Escalate?;
    var metersAllow := if limit < |policy.rateLimits| then policy.rateLimits[limit].then' == Allow
                       else budget < |policy.budgets| ==> policy.budgets[budget].then' == Allow;
    assert Decide(policy, context, entries, now).outcome == Allow <==> Permitted(policy, context) && metersAllow;
  }

  /** A policy in which running into a limit or a budget never lets the call through. */
  predicate Binding(policy: Policy) {
    && (forall i | 0 <= i < |policy.rateLimits| :: policy.rateLimits[i].then' != Allow)
    && (forall i | 0 <= i < |policy.budgets| :: policy.budgets[i].then' != Allow)
  }

  /** An allowed call has room under every limit and every budget. */
  lemma {:induction false} AllowedHasRoom(policy: Policy, context: Context, entries: seq<Record>, now: int)
    requires Binding(policy) && Decide(policy, context, entries, now).outcome == Allow
    ensures forall i | 0 <= i < |policy.rateLimits| :: !LimitReached(policy.rateLimits[i], context, entries, now)
    ensures forall i | 0 <= i < |policy.budgets| :: !BudgetExceeded(policy.budgets[i], context, entries, now)
  {
    hide LimitReached, BudgetExceeded, RuleVerdict;
  }

  /** `used` is what the filtered entries add up to, one by one. */
  method SumSince(meter: Meter, context: Context, entries: seq<Record>, now: int) returns (used: real)
    ensures used == UsedSince(meter, context, entries, now)
  {
    used := 0.0;
    var cutoff, scope := now - meter.window, meter.scope(context);
    for i := 0 to |entries|
      invariant used == Used(meter, scope, entries, i, cutoff)
    {
      var e := entries[i];
      if e.phase == OutcomePhase || e.outcome != Allow || e.ts < cutoff || meter.scope(e.context) != scope {
        continue;
      }
      if meter.matches(e.context) {
        used := used + meter.weight(e.context);
      }
    }
  }

  method DecideCall(policy: Policy, context: Context, entries: seq<Record>, now: int) returns (decision: Decision)
    ensures decision == Decide(policy, context, entries, now)
  {
    hide UsedSince, FirstLimit, FirstBudget, EGRESS_GUARD;
    if policy.egress(context) {
      return Decision(Deny, [EGRESS_GUARD]);
    }
    var fired: seq<Text> := [];
    var verdict: Option<Outcome> := None;
    ghost var expected := RuleVerdict(policy.rules, context);
    assert policy.rules[0..] == policy.rules;
    var i := 0;
    while i < |policy.rules|
      invariant 0 <= i <= |policy.rules| && verdict.None?
      invariant expected.0 == fired + RuleVerdict(policy.rules[i..], context).0
      invariant expected.1 == RuleVerdict(policy.rules[i..], context).1
    {
      var rule := policy.rules[i];
      assert policy.rules[i..][1..] == policy.rules[i + 1..];
      if rule.matches(context) {
        ghost var before := fired;
        fired := fired + [rule.id];
        assert before + RuleVerdict(policy.rules[i..], context).0
            == fired + if rule.then'.Some? then [] else RuleVerdict(policy.rules[i + 1..], context).0;
        if rule.then'.Some? {
          verdict := rule.then';
          break;
        }
      }
      i := i + 1;
    }
    assert expected.0 == fired && expected.1 == verdict;
    if verdict == Some(Deny) || verdict == Some(Escalate) {
      return Decision(verdict.value, fired);
    }
    if verdict.None? && policy.fallback != Allow {
      return Decision(policy.fallback, fired);
    }
    decision := CheckMeters(policy, context, entries, now, fired);
  }

  method CheckMeters(policy: Policy, context: Context, entries: seq<Record>, now: int, fired: seq<Text>)
    returns (decision: Decision)
    ensures decision ==
      var limit, budget := FirstLimit(policy, 0, context, entries, now), FirstBudget(policy, 0, context, entries, now);
      if limit < |policy.rateLimits| then Decision(policy.rateLimits[limit].then', fired + [policy.rateLimits[limit].id])
      else if budget < |policy.budgets| then Decision(policy.budgets[budget].then', fired + [policy.budgets[budget].id])
      else Decision(Allow, fired)
  {
    hide UsedSince;
    for i := 0 to |policy.rateLimits|
      invariant forall j | 0 <= j < i :: !LimitReached(policy.rateLimits[j], context, entries, now)
    {
      var limit := policy.rateLimits[i];
      if limit.meter.matches(context) {
        var used := SumSince(limit.meter, context, entries, now);
        if used >= limit.limit {
          assert IsFirstLimit(policy, i, context, entries, now);
          OneFirstLimit(policy, i, context, entries, now);
          return Decision(limit.then', fired + [limit.id]);
        }
      }
    }
    for i := 0 to |policy.budgets|
      invariant forall j | 0 <= j < i :: !BudgetExceeded(policy.budgets[j], context, entries, now)
    {
      var budget := policy.budgets[i];
      if budget.meter.matches(context) {
        var spent := SumSince(budget.meter, context, entries, now);
        if spent + budget.meter.weight(context) > budget.limit {
          OneFirstBudget(policy, i, context, entries, now);
          OneFirstLimit(policy, |policy.rateLimits|, context, entries, now);
          return Decision(budget.then', fired + [budget.id]);
        }
      }
    }
    OneFirstLimit(policy, |policy.rateLimits|, context, entries, now);
    OneFirstBudget(policy, |policy.budgets|, context, entries, now);
    return Decision(Allow, fired);
  }

  lemma {:induction false} OneFirstLimit(policy: Policy, i: nat, context: Context, entries: seq<Record>, now: int)
    requires i <= |policy.rateLimits| && IsFirstLimit(policy, i, context, entries, now)
    ensures FirstLimit(policy, 0, context, entries, now) == i
  {
    hide LimitReached;
  }

  lemma {:induction false} OneFirstBudget(policy: Policy, i: nat, context: Context, entries: seq<Record>, now: int)
    requires i <= |policy.budgets| && IsFirstBudget(policy, i, context, entries, now)
    ensures FirstBudget(policy, 0, context, entries, now) == i
  {
    hide BudgetExceeded;
  }
}
