/** policy-test.js: replaying a recorded log against a policy, and why it is faithful. */
module Replays {
  import opened Wrappers
  import opened Hashing
  import opened Canonical
  import opened Policies
  import opened Proxies

  /** What the policy in force decided, as opposed to what happened. */
  function RecordedVerdict(r: Record): Outcome {
    if r.wouldBe.Some? then r.wouldBe.value
    else if r.approval || r.declined then Escalate
    else r.outcome
  }

  predicate Ran(r: Record) {
    r.outcome == Allow
  }

  /** What the replayed policy's budgets and limits would have seen of a call. */
  function Pushed(r: Record): Record {
    Record(r.phase, r.ts, r.context, Allow, false, false, None)
  }

  datatype Verdicts = Verdicts(before: Outcome, after: Outcome)

  /** The history the replay has built, and the verdicts it has reached, after the first `n` entries. */
  function Replayed(entries: seq<Record>, n: nat, policy: Policy): (seq<Record>, seq<Verdicts>)
    requires n <= |entries|
  {
    if n == 0 then ([], [])
    else
      var (history, results) := Replayed(entries, n - 1, policy);
      var r := entries[n - 1];
      if r.phase == OutcomePhase then (history, results)
      else
        var after := Decide(policy, r.context, history, r.ts).outcome;
        (history + if after == Allow || (after == Escalate && Ran(r)) then [Pushed(r)] else [],
         results + [Verdicts(RecordedVerdict(r), after)])
  }

  predicate Changed(v: Verdicts) {
    v.before != v.after
  }

  function CountChanged(results: seq<Verdicts>): nat {
    if |results| == 0 then 0
    else CountChanged(results[..|results| - 1]) + if Changed(results[|results| - 1]) then 1 else 0
  }

  function CountOf(results: seq<Verdicts>, v: Verdicts): nat {
    if |results| == 0 then 0
    else CountOf(results[..|results| - 1], v) + if results[|results| - 1] == v then 1 else 0
  }

  lemma {:induction false} CountOfAbsent(results: seq<Verdicts>, v: Verdicts)
    ensures CountOf(results, v) == 0 <==> v !in results
    decreases |results|
  {
    if |results| > 0 {
      CountOfAbsent(results[..|results| - 1], v);
      assert results == results[..|results| - 1] + [results[|results| - 1]];
    }
  }

  method Replay(entries: seq<Record>, policy: Policy)
    returns (results: seq<Verdicts>, changed: nat, transitions: map<(Outcome, Outcome), nat>)
    ensures results == Replayed(entries, |entries|, policy).1
    ensures changed == CountChanged(results)
    ensures forall before, after :: (before, after) in transitions <==> before != after && Verdicts(before, after) in results
    ensures forall key | key in transitions :: transitions[key] == CountOf(results, Verdicts(key.0, key.1)) > 0
  {
    hide Decide;
    var history: seq<Record> := [];
    results, changed, transitions := [], 0, map[];
    for i := 0 to |entries|
      invariant (history, results) == Replayed(entries, i, policy)
      invariant changed == CountChanged(results)
      invariant forall before, after ::
        (before, after) in transitions <==> before != after && Verdicts(before, after) in results
      invariant forall key | key in transitions :: transitions[key] == CountOf(results, Verdicts(key.0, key.1)) > 0
    {
      var r := entries[i];
      assert history + [] == history;
      if r.phase == OutcomePhase {
        continue;
      }
      var decision := DecideCall(policy, r.context, history, r.ts);
      var before, after := RecordedVerdict(r), decision.outcome;
      ghost var so := results;
      results := results + [Verdicts(before, after)];
      assert results[..|so|] == so;
      CountOfAbsent(so, Verdicts(before, after));
      if before != after {
        changed := changed + 1;
        var seen := if (before, after) in transitions then transitions[(before, after)] else 0;
        transitions := transitions[(before, after) := seen + 1];
      }
      if after == Allow || (after == Escalate && Ran(r)) {
        history := history + [Pushed(r)];
      }
    }
  }

  // --------------------------------------------------------------- recorded logs

  /** Entry `n` restates a call, or carries the verdict the policy gives on the entries before it at its recorded time. */
  predicate JudgedAt(policy: Policy, entries: seq<Record>, n: nat)
    requires n < |entries|
  {
    var r := entries[n];
    r.phase == OutcomePhase || RecordedVerdict(r) == Decide(policy, r.context, entries[..n], r.ts).outcome
  }

  predicate JudgedInPlace(policy: Policy, entries: seq<Record>) {
    forall n | 0 <= n < |entries| :: JudgedAt(policy, entries, n)
  }

  /** No entry was recorded in monitor mode against the policy's verdict. */
  predicate Enforced(entries: seq<Record>) {
    forall i | 0 <= i < |entries| :: entries[i].wouldBe.None?
  }

  /** Two histories that every meter reads alike. */
  ghost predicate ReadAlike(a: seq<Record>, b: seq<Record>) {
    forall meter, scope, from: int :: SameUse(meter, scope, from, a, b)
  }

  predicate SameUse(meter: Meter, scope: Option<Text>, from: int, a: seq<Record>, b: seq<Record>) {
    Used(meter, scope, a, |a|, from) == Used(meter, scope, b, |b|, from)
  }

  lemma {:induction false} UsedAppends(meter: Meter, scope: Option<Text>, entries: seq<Record>, record: Record, from: int,
                                       more: seq<Record>)
    requires more == entries + [record]
    ensures Used(meter, scope, more, |more|, from)
         == Used(meter, scope, entries, |entries|, from)
            + if Counts(meter, scope, record) && record.ts >= from then meter.weight(record.context) else 0.0
  {
    hide Counts;
    UsedOfPrefix(meter, scope, more, entries, |entries|, from);
  }

  lemma {:induction false} UsedOfPrefix(meter: Meter, scope: Option<Text>, a: seq<Record>, b: seq<Record>, n: nat, from: int)
    requires n <= |a| && n <= |b| && forall i | 0 <= i < n :: a[i] == b[i]
    ensures Used(meter, scope, a, n, from) == Used(meter, scope, b, n, from)
    decreases n
  {
    hide Counts;
    if n > 0 {
      UsedOfPrefix(meter, scope, a, b, n - 1, from);
    }
  }

  /** A policy decides alike on histories that read alike. */
  lemma {:induction false} DecidesAlike(policy: Policy, context: Context, a: seq<Record>, b: seq<Record>, now: int)
    requires ReadAlike(a, b)
    ensures Decide(policy, context, a, now) == Decide(policy, context, b, now)
  {
    hide RuleVerdict, LimitReached, BudgetExceeded, ReadAlike, EGRESS_GUARD;
    forall i | 0 <= i < |policy.rateLimits|
      ensures LimitReached(policy.rateLimits[i], context, a, now) <==> LimitReached(policy.rateLimits[i], context, b, now)
    {
      LimitAlike(policy.rateLimits[i], context, a, b, now);
    }
    forall i | 0 <= i < |policy.budgets|
      ensures BudgetExceeded(policy.budgets[i], context, a, now) <==> BudgetExceeded(policy.budgets[i], context, b, now)
    {
      BudgetAlike(policy.budgets[i], context, a, b, now);
    }
    OneFirstLimit(policy, FirstLimit(policy, 0, context, a, now), context, b, now);
    OneFirstBudget(policy, FirstBudget(policy, 0, context, a, now), context, b, now);
  }

  lemma {:induction false} LimitAlike(limit: RateLimit, context: Context, a: seq<Record>, b: seq<Record>, now: int)
    requires ReadAlike(a, b)
    ensures LimitReached(limit, context, a, now) <==> LimitReached(limit, context, b, now)
  {
    hide Used;
    assert SameUse(limit.meter, limit.meter.scope(context), now - limit.meter.window, a, b);
  }

  lemma {:induction false} BudgetAlike(budget: Budget, context: Context, a: seq<Record>, b: seq<Record>, now: int)
    requires ReadAlike(a, b)
    ensures BudgetExceeded(budget, context, a, now) <==> BudgetExceeded(budget, context, b, now)
  {
    hide Used;
    assert SameUse(budget.meter, budget.meter.scope(context), now - budget.meter.window, a, b);
  }

  // --------------------------------------------------------------- faithfulness

  /** Appending to the log and to the replayed history what they take of one record keeps them reading alike. */
  lemma {:induction false} PushedAlike(log: seq<Record>, history: seq<Record>, r: Record, more: seq<Record>, next: seq<Record>)
    requires ReadAlike(log, history) && more == log + [r]
    requires next == history + if r.phase != OutcomePhase && r.outcome == Allow then [Pushed(r)] else []
    ensures ReadAlike(more, next)
  {
    hide Used;
    assert history + [] == history;
    forall meter, scope, from: int ensures SameUse(meter, scope, from, more, next) {
      assert SameUse(meter, scope, from, log, history);
      UsedAppends(meter, scope, log, r, from, more);
      if r.phase != OutcomePhase && r.outcome == Allow {
        UsedAppends(meter, scope, history, Pushed(r), from, next);
      }
    }
  }

  /**
   * As long as every verdict has stood, the replayed history reads like the log; and verdicts stand exactly
   * while they were given in place.
   */
  lemma {:induction false} ReplayFollows(entries: seq<Record>, n: nat, policy: Policy)
    requires n <= |entries| && Enforced(entries)
    ensures (forall v | v in Replayed(entries, n, policy).1 :: !Changed(v)) <==>
            (forall k | 0 <= k < n :: JudgedAt(policy, entries, k))
    ensures (forall k | 0 <= k < n :: JudgedAt(policy, entries, k)) ==> ReadAlike(entries[..n], Replayed(entries, n, policy).0)
    decreases n
  {
    hide ReadAlike, JudgedAt, Decide;
    if n == 0 {
      NothingAlike();
    } else {
      ReplayFollows(entries, n - 1, policy);
      if forall k | 0 <= k < n - 1 :: JudgedAt(policy, entries, k) {
        ReplayFollowsOne(entries, n, policy);
      } else {
        var v :| v in Replayed(entries, n - 1, policy).1 && Changed(v);
        assert v in Replayed(entries, n, policy).1;
      }
    }
  }

  lemma {:induction false} ReplayFollowsOne(entries: seq<Record>, n: nat, policy: Policy)
    requires 0 < n <= |entries| && Enforced(entries)
    requires ReadAlike(entries[..n - 1], Replayed(entries, n - 1, policy).0)
    requires forall v | v in Replayed(entries, n - 1, policy).1 :: !Changed(v)
    ensures (forall v | v in Replayed(entries, n, policy).1 :: !Changed(v)) <==> JudgedAt(policy, entries, n - 1)
    ensures JudgedAt(policy, entries, n - 1) ==> ReadAlike(entries[..n], Replayed(entries, n, policy).0)
  {
    hide ReadAlike, Decide;
    var r, before := entries[n - 1], Replayed(entries, n - 1, policy);
    assert entries[..n] == entries[..n - 1] + [r];
    assert entries[..n][..n - 1] == entries[..n - 1];
    DecidesAlike(policy, r.context, entries[..n - 1], before.0, r.ts);
    if r.phase != OutcomePhase {
      var v := Verdicts(RecordedVerdict(r), Decide(policy, r.context, before.0, r.ts).outcome);
      assert Replayed(entries, n, policy).1 == before.1 + [v];
      assert v in Replayed(entries, n, policy).1 && (Changed(v) <==> !JudgedAt(policy, entries, n - 1));
    }
    if JudgedAt(policy, entries, n - 1) {
      PushedAlike(entries[..n - 1], before.0, r, entries[..n], Replayed(entries, n, policy).0);
    }
  }

  lemma {:induction false} NothingAlike()
    ensures ReadAlike([], [])
  {
  }

  /**
   * Replay is faithful: a log recorded in enforcement mode with nothing redacted replays against a policy
   * without a changed verdict exactly when each call carries the verdict of that policy on the entries
   * before it, at its recorded time; budgets, rate limits, approvals and refusals included.
   */
  lemma {:induction false} ReplayIsFaithful(entries: seq<Record>, policy: Policy)
    requires Enforced(entries)
    ensures CountChanged(Replayed(entries, |entries|, policy).1) == 0 <==> JudgedInPlace(policy, entries)
  {
    hide ReadAlike, Replayed, JudgedAt;
    ReplayFollows(entries, |entries|, policy);
    NoneChanged(Replayed(entries, |entries|, policy).1);
  }

  lemma {:induction false} NoneChanged(results: seq<Verdicts>)
    ensures CountChanged(results) == 0 <==> forall v | v in results :: !Changed(v)
    decreases |results|
  {
    if |results| > 0 {
      NoneChanged(results[..|results| - 1]);
      assert results == results[..|results| - 1] + [results[|results| - 1]];
    }
  }

  // ---------------------------------------------------- logs the proxy recorded

  /**
   * What a step records is judged alike when it is decided and when it is recorded; an escalation, still an
   * escalation when its answer is in.
   */
  predicate InPlace(proxy: Proxy, event: Event, policy: Policy) {
    match event
    case Called(_, context, decidedAt, recordedAt) =>
      var outcome := Decide(policy, context, proxy.entries, decidedAt).outcome;
      outcome != Escalate ==> Decide(policy, context, proxy.entries, recordedAt).outcome == outcome
    case Resolved(i, _, recordedAt) =>
      i < |proxy.waiting| ==> Decide(policy, proxy.waiting[i].context, proxy.entries, recordedAt).outcome == Escalate
    case Answered(_, _) => true
  }

  predicate AllInPlace(log: seq<Record>, events: seq<Event>, policy: Policy, redact: Json -> Json) {
    forall i | 0 <= i < |events| :: InPlace(Run(log, events[..i], policy, redact), events[i], policy)
  }

  predicate Whole(context: Context, redact: Json -> Json) {
    redact(context.params) == context.params
  }

  predicate NothingRedacted(events: seq<Event>, redact: Json -> Json) {
    forall i | 0 <= i < |events| && events[i].Called? :: Whole(events[i].context, redact)
  }

  predicate WaitingWhole(proxy: Proxy, redact: Json -> Json) {
    forall i | 0 <= i < |proxy.waiting| :: Whole(proxy.waiting[i].context, redact)
  }

  /** What one step adds to the log: nothing, a restatement, or a record that is judged in place exactly when the step is. */
  lemma {:induction false} StepRecords(proxy: Proxy, event: Event, policy: Policy, redact: Json -> Json)
    returns (added: seq<Record>)
    requires WaitingWhole(proxy, redact) && (event.Called? ==> Whole(event.context, redact))
    ensures var next := Apply(proxy, event, policy, redact);
      WaitingWhole(next, redact) && next.entries == proxy.entries + added && |added| <= 1
    ensures forall r | r in added :: r.wouldBe.None?
    ensures InPlace(proxy, event, policy) <==>
            forall r | r in added && r.phase != OutcomePhase ::
              RecordedVerdict(r) == Decide(policy, r.context, proxy.entries, r.ts).outcome
  {
    hide Decide;
    var next := Apply(proxy, event, policy, redact);
    added := next.entries[|proxy.entries|..];
    if event.Resolved? && event.index < |proxy.waiting| {
      assert Whole(proxy.waiting[event.index].context, redact);
    }
    assert |added| == 1 ==> added[0] in added;
  }

  lemma {:induction false} JudgedAppends(policy: Policy, entries: seq<Record>, added: seq<Record>)
    requires |added| <= 1
    ensures JudgedInPlace(policy, entries + added) <==>
            && JudgedInPlace(policy, entries)
            && forall r | r in added && r.phase != OutcomePhase ::
                 RecordedVerdict(r) == Decide(policy, r.context, entries, r.ts).outcome
  {
    hide Decide;
    var more := entries + added;
    assert forall n | 0 <= n < |entries| :: more[..n] == entries[..n] && more[n] == entries[n];
    assert more[..|entries|] == entries;
    assert forall n | 0 <= n < |entries| :: JudgedAt(policy, more, n) <==> JudgedAt(policy, entries, n);
    assert JudgedInPlace(policy, more) ==> JudgedInPlace(policy, entries);
    if |added| == 1 {
      assert added[0] in added && more[|entries|] == added[0];
      assert JudgedAt(policy, more, |entries|) <==>
        added[0].phase == OutcomePhase
        || RecordedVerdict(added[0]) == Decide(policy, added[0].context, entries, added[0].ts).outcome;
    }
  }

  lemma {:induction false} RunIsJudged(log: seq<Record>, events: seq<Event>, policy: Policy, redact: Json -> Json)
    requires NothingRedacted(events, redact) && Enforced(log) && JudgedInPlace(policy, log)
    ensures WaitingWhole(Run(log, events, policy, redact), redact) && Enforced(Run(log, events, policy, redact).entries)
    ensures JudgedInPlace(policy, Run(log, events, policy, redact).entries) <==> AllInPlace(log, events, policy, redact)
    decreases |events|
  {
    hide JudgedInPlace, Apply, InPlace, Decide;
    if |events| > 0 {
      var front, event := events[..|events| - 1], events[|events| - 1];
      RunIsJudged(log, front, policy, redact);
      var proxy := Run(log, front, policy, redact);
      var added := StepRecords(proxy, event, policy, redact);
      JudgedAppends(policy, proxy.entries, added);
      assert forall i | 0 <= i < |front| :: front[..i] == events[..i] && front[i] == events[i];
    }
  }

  /**
   * What the proxy records in enforcement mode, on top of a log that replays unchanged itself, replays without
   * a changed verdict exactly when every step was in place: however late replies and people's answers come.
   */
  lemma {:induction false} RunReplaysExactly(log: seq<Record>, events: seq<Event>, policy: Policy, redact: Json -> Json)
    requires NothingRedacted(events, redact) && Enforced(log) && JudgedInPlace(policy, log)
    ensures var entries := Run(log, events, policy, redact).entries;
      CountChanged(Replayed(entries, |entries|, policy).1) == 0 <==> AllInPlace(log, events, policy, redact)
  {
    hide *;
    RunIsJudged(log, events, policy, redact);
    ReplayIsFaithful(Run(log, events, policy, redact).entries, policy);
  }

  /** Decided and recorded at one reading of the clock; a person asked answers before anything else happens. */
  predicate AtOnce(log: seq<Record>, events: seq<Event>, i: nat, policy: Policy, redact: Json -> Json)
    requires i < |events|
  {
    match events[i]
    case Called(_, _, decidedAt, recordedAt) => decidedAt == recordedAt
    case Resolved(k, _, ts) =>
      k < |Run(log, events[..i], policy, redact).waiting| ==>
        && i > 0 && events[i - 1].Called? && events[i - 1].decidedAt == ts
        && k == |Run(log, events[..i], policy, redact).waiting| - 1
        && Decide(policy, events[i - 1].context, Run(log, events[..i - 1], policy, redact).entries, ts).outcome == Escalate
    case Answered(_, _) => true
  }

  /** With calls and answers taken at once no verdict changes. */
  lemma {:induction false} ProxyReplaysUnchanged(log: seq<Record>, events: seq<Event>, policy: Policy, redact: Json -> Json)
    requires NothingRedacted(events, redact) && Enforced(log) && JudgedInPlace(policy, log)
    requires forall i | 0 <= i < |events| :: AtOnce(log, events, i, policy, redact)
    ensures var entries := Run(log, events, policy, redact).entries;
      CountChanged(Replayed(entries, |entries|, policy).1) == 0
  {
    hide AtOnce, InPlace, Run, JudgedInPlace, Replayed;
    forall i | 0 <= i < |events| ensures InPlace(Run(log, events[..i], policy, redact), events[i], policy) {
      AtOnceInPlace(log, events, i, policy, redact);
    }
    RunReplaysExactly(log, events, policy, redact);
  }

  lemma {:induction false} AtOnceInPlace(log: seq<Record>, events: seq<Event>, i: nat, policy: Policy, redact: Json -> Json)
    requires i < |events| && AtOnce(log, events, i, policy, redact)
    ensures InPlace(Run(log, events[..i], policy, redact), events[i], policy)
  {
    hide Decide;
    if events[i].Resolved? && i > 0 {
      assert events[..i][..i - 1] == events[..i - 1];
    }
  }

  // ------------------------------------------------------------ a delayed answer

  /** One call in any window of ten, and a person is asked about any more. */
  function OneInTen(): Policy {
    Policy(_ => false, [], Allow, [], [Budget([], Meter(_ => true, 10, _ => None, _ => 1.0), 1.0, Escalate)])
  }

  /**
   * Two calls at 0, the second escalated and answered at 11, when the window is empty again: replay says it
   * would have been allowed.
   */
  lemma {:induction false} DelayedAnswerChanges(context: Context, redact: Json -> Json)
    requires Whole(context, redact)
    ensures var events := [Called([], context, 0, 0), Called([], context, 0, 0), Resolved(0, true, 11)];
      var entries := Run([], events, OneInTen(), redact).entries;
      CountChanged(Replayed(entries, |entries|, OneInTen()).1) > 0
  {
    hide Decide, OneInTen, Replayed, InPlace;
    var policy, call := OneInTen(), Called([], context, 0, 0);
    var events := [call, call, Resolved(0, true, 11)];
    assert events[..2] == [call, call] && [call, call][..1] == [call] && [call][..0] == [];
    var record := Intended(context, 0, false, redact);
    OneInTenDecides(context, [], 0);
    OneInTenDecides(context, [record], 0);
    OneInTenDecides(context, [record], 11);
    assert Run([], [call], policy, redact).entries == [record];
    var asked := Run([], [call, call], policy, redact);
    assert asked.entries == [record] && asked.waiting == [Waiting([], context)];
    LateIsNotInPlace(asked, policy);
    RunReplaysExactly([], events, policy, redact);
  }

  lemma {:induction false} LateIsNotInPlace(proxy: Proxy, policy: Policy)
    requires |proxy.waiting| > 0 && Decide(policy, proxy.waiting[0].context, proxy.entries, 11).outcome == Allow
    ensures !InPlace(proxy, Resolved(0, true, 11), policy)
  {
    hide Decide;
  }

  /** Room for one: a call is escalated exactly when one was allowed within ten before it. */
  lemma {:induction false} OneInTenDecides(context: Context, entries: seq<Record>, now: int)
    requires |entries| == 0 || (|entries| == 1 && entries[0].phase == Intent && entries[0].outcome == Allow)
    ensures Decide(OneInTen(), context, entries, now).outcome
         == if |entries| == 1 && entries[0].ts >= now - 10 then Escalate else Allow
  {
    hide RuleVerdict, EGRESS_GUARD;
    var policy := OneInTen();
    var meter := policy.budgets[0].meter;
    assert RuleVerdict(policy.rules, context) == ([], None) by {
      NoRules(context);
    }
    assert UsedSince(meter, context, entries, now) == if |entries| == 1 && entries[0].ts >= now - 10 then 1.0 else 0.0 by {
      assert Used(meter, meter.scope(context), entries, 0, now - 10) == 0.0;
    }
    hide UsedSince;
    assert BudgetExceeded(policy.budgets[0], context, entries, now) <==> |entries| == 1 && entries[0].ts >= now - 10;
  }

  lemma {:induction false} NoRules(context: Context)
    ensures RuleVerdict([], context) == ([], None)
  {
  }
}
