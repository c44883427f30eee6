/** policy.js and proxy.js: budgets and rate limits hold over whole runs, however the calls are interleaved. */
module Caps {
  import opened Wrappers
  import opened Hashing
  import opened Canonical
  import opened Policies
  import opened Proxies

  /** What counts for a meter with a time in the closed window from `from` to `to`. */
  function Total(meter: Meter, scope: Option<Text>, entries: seq<Record>, n: nat, from: int, to: int): real
    requires n <= |entries|
  {
    if n == 0 then 0.0
    else
      var e := entries[n - 1];
      Total(meter, scope, entries, n - 1, from, to)
      + if Counts(meter, scope, e) && from <= e.ts <= to then meter.weight(e.context) else 0.0
  }

  /** The spend in the window of the meter's length that ends at entry `k`, in the scope of entry `k`. */
  function WindowTotal(meter: Meter, entries: seq<Record>, k: nat): real
    requires k < |entries|
  {
    var e := entries[k];
    Total(meter, meter.scope(e.context), entries, |entries|, e.ts - meter.window, e.ts)
  }

  /** Entry `k` is an allowed call the meter is about. */
  predicate Metered(meter: Meter, entries: seq<Record>, k: nat)
    requires k < |entries|
  {
    Counts(meter, meter.scope(entries[k].context), entries[k])
  }

  /** The meter reads the kind, the target, the actor and the metrics, never the arguments. */
  ghost predicate Plain(meter: Meter) {
    meter.window >= 0 && forall context: Context, params :: SameReading(meter, context, context.(params := params))
  }

  /** No recorded call has a negative metric where the meter reads one. */
  predicate NonNegative(meter: Meter, entries: seq<Record>, n: nat)
    requires n <= |entries|
  {
    forall i | 0 <= i < n && entries[i].phase != OutcomePhase :: meter.weight(entries[i].context) >= 0.0
  }

  predicate SameReading(meter: Meter, a: Context, b: Context) {
    meter.matches(a) == meter.matches(b) && meter.scope(a) == meter.scope(b) && meter.weight(a) == meter.weight(b)
  }

  /** Every window that ends at a metered call of this run is within the limit. */
  predicate CapHolds(meter: Meter, limit: real, entries: seq<Record>, start: nat) {
    forall k | start <= k < |entries| && Metered(meter, entries, k) :: WindowTotal(meter, entries, k) <= limit
  }

  /** No entry of this run is later than `now`. */
  predicate NotLater(entries: seq<Record>, start: nat, now: int) {
    forall k | start <= k < |entries| :: entries[k].ts <= now
  }

  // --------------------------------------------------------------------- totals

  lemma {:induction false} TotalOfPrefix(meter: Meter, scope: Option<Text>, a: seq<Record>, b: seq<Record>, n: nat, from: int,
                                         to: int)
    requires n <= |a| && n <= |b| && forall i | 0 <= i < n :: a[i] == b[i]
    ensures Total(meter, scope, a, n, from, to) == Total(meter, scope, b, n, from, to)
    decreases n
  {
    hide Counts;
    if n > 0 {
      TotalOfPrefix(meter, scope, a, b, n - 1, from, to);
    }
  }

  /** A window's total is part of what the decision looked at, which had no end and began no later. */
  lemma {:induction false} TotalWithinUsed(meter: Meter, scope: Option<Text>, entries: seq<Record>, n: nat, from: int, to: int,
                                           cutoff: int)
    requires n <= |entries| && cutoff <= from && NonNegative(meter, entries, n)
    ensures Total(meter, scope, entries, n, from, to) <= Used(meter, scope, entries, n, cutoff)
    decreases n
  {
    if n > 0 {
      TotalWithinUsed(meter, scope, entries, n - 1, from, to, cutoff);
      assert entries[n - 1].phase != OutcomePhase ==> meter.weight(entries[n - 1].context) >= 0.0;
    }
  }

  /** Appending a record: the total grows by what it weighs, if it counts and falls in the window. */
  lemma {:induction false} TotalAppends(meter: Meter, scope: Option<Text>, entries: seq<Record>, record: Record, from: int,
                                        to: int, more: seq<Record>)
    requires more == entries + [record]
    ensures Total(meter, scope, more, |more|, from, to)
         == Total(meter, scope, entries, |entries|, from, to)
            + if Counts(meter, scope, record) && from <= record.ts <= to then meter.weight(record.context) else 0.0
  {
    hide Counts;
    TotalOfPrefix(meter, scope, more, entries, |entries|, from, to);
  }

  // ---------------------------------------------------------------------- steps

  /** A record that does not count changes no window. */
  lemma {:induction false} UncountedKeepsCap(meter: Meter, limit: real, entries: seq<Record>, start: nat, record: Record,
                                             more: seq<Record>)
    requires CapHolds(meter, limit, entries, start) && more == entries + [record]
    requires !Counts(meter, meter.scope(record.context), record)
    ensures CapHolds(meter, limit, more, start)
  {
    hide Total;
    forall k | start <= k < |more| && Metered(meter, more, k) ensures WindowTotal(meter, more, k) <= limit {
      assert more[k] == entries[k] && Metered(meter, entries, k);
      WindowUnchanged(meter, entries, record, more, k);
    }
  }

  lemma {:induction false} WindowUnchanged(meter: Meter, entries: seq<Record>, record: Record, more: seq<Record>, k: nat)
    requires k < |entries| && more == entries + [record]
    requires !Counts(meter, meter.scope(entries[k].context), record) || record.ts > entries[k].ts
    ensures WindowTotal(meter, more, k) == WindowTotal(meter, entries, k)
  {
    hide Total, Counts;
    var e := entries[k];
    TotalAppends(meter, meter.scope(e.context), entries, record, e.ts - meter.window, e.ts, more);
  }

  /** The window that ends at a call allowed with room is within the limit. */
  lemma {:induction false} OwnWindow(meter: Meter, limit: real, entries: seq<Record>, record: Record, more: seq<Record>,
                                     decidedAt: int)
    requires Plain(meter) && NonNegative(meter, entries, |entries|) && more == entries + [record] && decidedAt <= record.ts
    requires Counts(meter, meter.scope(record.context), record)
    requires Used(meter, meter.scope(record.context), entries, |entries|, decidedAt - meter.window)
             + meter.weight(record.context) <= limit
    ensures WindowTotal(meter, more, |entries|) <= limit
  {
    hide Total, Counts, Used, SameReading, NonNegative;
    var scope := meter.scope(record.context);
    TotalAppends(meter, scope, entries, record, record.ts - meter.window, record.ts, more);
    TotalWithinUsed(meter, scope, entries, |entries|, record.ts - meter.window, record.ts, decidedAt - meter.window);
  }

  lemma {:induction false} AllowedKeepsCap(meter: Meter, limit: real, entries: seq<Record>, start: nat, record: Record,
                                           more: seq<Record>, decidedAt: int)
    requires CapHolds(meter, limit, entries, start) && more == entries + [record]
    requires Plain(meter) && NonNegative(meter, entries, |entries|)
    requires decidedAt <= record.ts && NotLater(entries, start, record.ts)
    requires Counts(meter, meter.scope(record.context), record)
    requires Used(meter, meter.scope(record.context), entries, |entries|, decidedAt - meter.window)
             + meter.weight(record.context) <= limit
    ensures CapHolds(meter, limit, more, start)
  {
    hide Total, Counts, Used, Plain, NonNegative;
    OwnWindow(meter, limit, entries, record, more, decidedAt);
    forall k | start <= k < |more| && Metered(meter, more, k) ensures WindowTotal(meter, more, k) <= limit {
      if k < |entries| {
        EarlierWindow(meter, limit, entries, start, record, more, k);
      }
    }
  }

  /** An earlier window of the same instant and scope is the new call's own window; any other is unchanged. */
  lemma {:induction false} EarlierWindow(meter: Meter, limit: real, entries: seq<Record>, start: nat, record: Record,
                                         more: seq<Record>, k: nat)
    requires CapHolds(meter, limit, entries, start) && more == entries + [record]
    requires NotLater(entries, start, record.ts) && WindowTotal(meter, more, |entries|) <= limit
    requires start <= k < |entries| && Metered(meter, more, k)
    ensures WindowTotal(meter, more, k) <= limit
  {
    hide Total, Used;
    assert more[k] == entries[k] && Metered(meter, entries, k);
    if Counts(meter, meter.scope(entries[k].context), record) && record.ts == entries[k].ts {
      assert more[|entries|] == record;
    } else {
      WindowUnchanged(meter, entries, record, more, k);
    }
  }

  /** The window of the meter's length that ends now has room for the call. */
  predicate HasRoom(meter: Meter, limit: real, entries: seq<Record>, context: Context, now: int) {
    Total(meter, meter.scope(context), entries, |entries|, now - meter.window, now) + meter.weight(context) <= limit
  }

  /**
   * A call recorded as allowed, whoever allowed it: the cap still holds exactly when the call's own window had
   * room for it.
   */
  lemma {:induction false} CountedKeepsCapExactly(meter: Meter, limit: real, entries: seq<Record>, start: nat, record: Record,
                                                  more: seq<Record>)
    requires CapHolds(meter, limit, entries, start) && more == entries + [record] && start <= |entries|
    requires NotLater(entries, start, record.ts) && meter.window >= 0
    requires Counts(meter, meter.scope(record.context), record)
    ensures CapHolds(meter, limit, more, start) <==> HasRoom(meter, limit, entries, record.context, record.ts)
  {
    hide Total, Counts, NotLater;
    TotalAppends(meter, meter.scope(record.context), entries, record, record.ts - meter.window, record.ts, more);
    assert Metered(meter, more, |entries|);
    if HasRoom(meter, limit, entries, record.context, record.ts) {
      forall k | start <= k < |more| && Metered(meter, more, k) ensures WindowTotal(meter, more, k) <= limit {
        if k < |entries| {
          EarlierWindow(meter, limit, entries, start, record, more, k);
        }
      }
    }
  }

  /** A window never empties, so a cap that is broken stays broken. */
  lemma {:induction false} CapHeldBefore(meter: Meter, limit: real, entries: seq<Record>, start: nat, more: seq<Record>)
    requires CapHolds(meter, limit, more, start) && entries <= more && NonNegative(meter, more, |more|)
    ensures CapHolds(meter, limit, entries, start)
  {
    hide Total;
    forall k | start <= k < |entries| && Metered(meter, entries, k) ensures WindowTotal(meter, entries, k) <= limit {
      assert more[k] == entries[k] && Metered(meter, more, k);
      var e := entries[k];
      TotalGrows(meter, meter.scope(e.context), entries, more, |more|, e.ts - meter.window, e.ts);
    }
  }

  lemma {:induction false} TotalGrows(meter: Meter, scope: Option<Text>, a: seq<Record>, b: seq<Record>, n: nat, from: int,
                                      to: int)
    requires a <= b && |a| <= n <= |b| && NonNegative(meter, b, |b|)
    ensures Total(meter, scope, a, |a|, from, to) <= Total(meter, scope, b, n, from, to)
    decreases n
  {
    if n == |a| {
      TotalOfPrefix(meter, scope, a, b, n, from, to);
    } else {
      TotalGrows(meter, scope, a, b, n - 1, from, to);
      assert b[n - 1].phase != OutcomePhase ==> meter.weight(b[n - 1].context) >= 0.0;
    }
  }

  // ----------------------------------------------------------------------- runs

  /**
   * The clock does not step back: every reading is at or after the last record of the run, and a call is
   * recorded after it is decided.
   */
  predicate OnTime(proxy: Proxy, start: nat, event: Event) {
    && NotLater(proxy.entries, start, event.recordedAt)
    && (event.Called? ==> event.decidedAt <= event.recordedAt)
  }

  predicate OrderlyRun(log: seq<Record>, events: seq<Event>, policy: Policy, redact: Json -> Json) {
    forall i | 0 <= i < |events| :: OnTime(Run(log, events[..i], policy, redact), |log|, events[i])
  }

  /** A person who approves a call the meter is about approves one that there is room for, in the window that ends then. */
  predicate ApprovalFits(meter: Meter, limit: real, proxy: Proxy, event: Event) {
    event.Resolved? && event.approves && event.index < |proxy.waiting| ==>
      var context := proxy.waiting[event.index].context;
      meter.matches(context) ==> HasRoom(meter, limit, proxy.entries, context, event.recordedAt)
  }

  predicate ApprovalsFit(meter: Meter, limit: real, log: seq<Record>, events: seq<Event>, policy: Policy,
                         redact: Json -> Json)
  {
    forall i | 0 <= i < |events| :: ApprovalFits(meter, limit, Run(log, events[..i], policy, redact), events[i])
  }

  /** Whatever has happened before, a call the policy allows has room left under the limit. */
  ghost predicate Roomy(meter: Meter, limit: real, policy: Policy) {
    forall context, entries, now: int | Decide(policy, context, entries, now).outcome == Allow && meter.matches(context) ::
      UsedSince(meter, context, entries, now) + meter.weight(context) <= limit
  }

  /** One step keeps the cap exactly when, if it is an approval, there was room for the approved call. */
  lemma {:induction false} StepKeepsCapExactly(meter: Meter, limit: real, proxy: Proxy, start: nat, event: Event,
                                               policy: Policy, redact: Json -> Json)
    requires CapHolds(meter, limit, proxy.entries, start) && Plain(meter) && start <= |proxy.entries|
    requires NonNegative(meter, proxy.entries, |proxy.entries|)
    requires OnTime(proxy, start, event)
    requires event.Called? && Decide(policy, event.context, proxy.entries, event.decidedAt).outcome == Allow
             && meter.matches(event.context) ==>
               UsedSince(meter, event.context, proxy.entries, event.decidedAt) + meter.weight(event.context) <= limit
    ensures CapHolds(meter, limit, Apply(proxy, event, policy, redact).entries, start) <==>
            ApprovalFits(meter, limit, proxy, event)
  {
    hide CapHolds, Decide, Used, Plain, NotLater, NonNegative, HasRoom;
    var next := Apply(proxy, event, policy, redact).entries;
    if next != proxy.entries {
      var record := next[|proxy.entries|];
      assert next == proxy.entries + [record];
      if event.Called? && Decide(policy, event.context, proxy.entries, event.decidedAt).outcome == Allow
         && meter.matches(event.context) {
        ReadingKept(meter, event.context, redact);
        AllowedKeepsCap(meter, limit, proxy.entries, start, record, next, event.decidedAt);
      } else if event.Resolved? && event.approves && meter.matches(proxy.waiting[event.index].context) {
        ApprovedKeepsCapExactly(meter, limit, proxy, start, event, policy, redact);
      } else {
        if !event.Answered? {
          ReadingKept(meter, if event.Called? then event.context else proxy.waiting[event.index].context, redact);
        }
        UncountedKeepsCap(meter, limit, proxy.entries, start, record, next);
      }
    }
  }

  lemma {:induction false} ApprovedKeepsCapExactly(meter: Meter, limit: real, proxy: Proxy, start: nat, event: Event,
                                                   policy: Policy, redact: Json -> Json)
    requires CapHolds(meter, limit, proxy.entries, start) && Plain(meter) && start <= |proxy.entries|
    requires event.Resolved? && event.approves && event.index < |proxy.waiting|
    requires NotLater(proxy.entries, start, event.recordedAt) && meter.matches(proxy.waiting[event.index].context)
    ensures CapHolds(meter, limit, Apply(proxy, event, policy, redact).entries, start) <==>
            HasRoom(meter, limit, proxy.entries, proxy.waiting[event.index].context, event.recordedAt)
  {
    hide CapHolds, NotLater, Total;
    var context := proxy.waiting[event.index].context;
    var record := Intended(context, event.recordedAt, true, redact);
    ReadingKept(meter, context, redact);
    CountedKeepsCapExactly(meter, limit, proxy.entries, start, record, proxy.entries + [record]);
  }

  lemma {:induction false} ReadingKept(meter: Meter, context: Context, redact: Json -> Json)
    requires Plain(meter)
    ensures SameReading(meter, context, Kept(context, redact))
  {
  }

  lemma {:induction false} RoomInStep(meter: Meter, limit: real, proxy: Proxy, event: Event, policy: Policy)
    requires Roomy(meter, limit, policy)
    ensures event.Called? && Decide(policy, event.context, proxy.entries, event.decidedAt).outcome == Allow
            && meter.matches(event.context) ==>
              UsedSince(meter, event.context, proxy.entries, event.decidedAt) + meter.weight(event.context) <= limit
  {
    hide Decide, UsedSince;
  }

  /** What is asked of every event of a run is asked of those before the last, and of the last. */
  lemma {:induction false} RunFront(meter: Meter, limit: real, log: seq<Record>, events: seq<Event>, policy: Policy,
                                    redact: Json -> Json)
    requires |events| > 0
    ensures var front, event := events[..|events| - 1], events[|events| - 1];
      var proxy := Run(log, front, policy, redact);
      && (OrderlyRun(log, events, policy, redact) <==> OrderlyRun(log, front, policy, redact) && OnTime(proxy, |log|, event))
      && (ApprovalsFit(meter, limit, log, events, policy, redact) <==>
            ApprovalsFit(meter, limit, log, front, policy, redact) && ApprovalFits(meter, limit, proxy, event))
  {
    hide Run, OnTime, ApprovalFits;
    var front := events[..|events| - 1];
    assert forall i | 0 <= i < |front| :: front[..i] == events[..i] && front[i] == events[i];
  }

  predicate RunNonNegative(meter: Meter, log: seq<Record>, events: seq<Event>, policy: Policy, redact: Json -> Json) {
    NonNegative(meter, Run(log, events, policy, redact).entries, |Run(log, events, policy, redact).entries|)
  }

  lemma {:induction false} EarlierNonNegative(meter: Meter, log: seq<Record>, events: seq<Event>, policy: Policy,
                                              redact: Json -> Json)
    requires |events| > 0 && RunNonNegative(meter, log, events, policy, redact)
    ensures RunNonNegative(meter, log, events[..|events| - 1], policy, redact)
  {
    hide Apply;
    var before := Run(log, events[..|events| - 1], policy, redact);
    StepAppends(before, events[|events| - 1], policy, redact);
    NonNegativePrefix(meter, before.entries, Run(log, events, policy, redact).entries);
  }

  lemma {:induction false} StepAppends(proxy: Proxy, event: Event, policy: Policy, redact: Json -> Json)
    ensures proxy.entries <= Apply(proxy, event, policy, redact).entries
  {
    hide Decide;
  }

  lemma {:induction false} RunAppends(log: seq<Record>, events: seq<Event>, policy: Policy, redact: Json -> Json)
    ensures log <= Run(log, events, policy, redact).entries
    decreases |events|
  {
    hide Apply;
    if |events| > 0 {
      var front := events[..|events| - 1];
      RunAppends(log, front, policy, redact);
      StepAppends(Run(log, front, policy, redact), events[|events| - 1], policy, redact);
    }
  }

  lemma {:induction false} NonNegativePrefix(meter: Meter, a: seq<Record>, b: seq<Record>)
    requires a <= b && NonNegative(meter, b, |b|)
    ensures NonNegative(meter, a, |a|)
  {
    assert forall i | 0 <= i < |a| :: a[i] == b[i];
  }

  /** A meter a policy always leaves room under is kept within its limit by exactly the runs whose approvals fit. */
  lemma {:induction false} RunKeepsCapExactly(meter: Meter, limit: real, log: seq<Record>, events: seq<Event>, policy: Policy,
                                              redact: Json -> Json)
    requires Plain(meter) && Roomy(meter, limit, policy) && OrderlyRun(log, events, policy, redact)
    requires RunNonNegative(meter, log, events, policy, redact)
    ensures CapHolds(meter, limit, Run(log, events, policy, redact).entries, |log|) <==>
            ApprovalsFit(meter, limit, log, events, policy, redact)
    decreases |events|
  {
    hide Apply, Roomy, Plain, OrderlyRun, OnTime, ApprovalFits, ApprovalsFit, CapHolds, NonNegative;
    if |events| > 0 {
      var front, event := events[..|events| - 1], events[|events| - 1];
      var proxy := Run(log, front, policy, redact);
      RunFront(meter, limit, log, events, policy, redact);
      EarlierNonNegative(meter, log, events, policy, redact);
      RunKeepsCapExactly(meter, limit, log, front, policy, redact);
      RoomInStep(meter, limit, proxy, event, policy);
      RunAppends(log, front, policy, redact);
      StepAppends(proxy, event, policy, redact);
      if CapHolds(meter, limit, Apply(proxy, event, policy, redact).entries, |log|) {
        CapHeldBefore(meter, limit, proxy.entries, |log|, Apply(proxy, event, policy, redact).entries);
      }
      if CapHolds(meter, limit, proxy.entries, |log|) {
        StepKeepsCapExactly(meter, limit, proxy, |log|, event, policy, redact);
      }
    } else {
      NothingSpent(meter, limit, log, policy, redact);
    }
  }

  lemma {:induction false} NothingSpent(meter: Meter, limit: real, log: seq<Record>, policy: Policy, redact: Json -> Json)
    ensures CapHolds(meter, limit, log, |log|) && ApprovalsFit(meter, limit, log, [], policy, redact)
  {
  }

  /**
   * Budgets hold. In a policy whose limits and budgets refuse or escalate, every closed window of a
   * budget's length that ends at a call the run allowed has a total within the budget, in that call's
   * scope, exactly when each call a person approved had room in its own window when it was recorded.
   */
  lemma {:induction false} BudgetHolds(i: nat, log: seq<Record>, events: seq<Event>, policy: Policy, redact: Json -> Json)
    requires i < |policy.budgets| && Binding(policy) && Plain(policy.budgets[i].meter)
    requires OrderlyRun(log, events, policy, redact) && RunNonNegative(policy.budgets[i].meter, log, events, policy, redact)
    ensures CapHolds(policy.budgets[i].meter, policy.budgets[i].limit, Run(log, events, policy, redact).entries, |log|) <==>
            ApprovalsFit(policy.budgets[i].meter, policy.budgets[i].limit, log, events, policy, redact)
  {
    hide Run, OrderlyRun, CapHolds, Plain, NonNegative, ApprovalsFit;
    BudgetRoom(policy, i);
    RunKeepsCapExactly(policy.budgets[i].meter, policy.budgets[i].limit, log, events, policy, redact);
  }

  /** In a run without an approval nothing is left to check. */
  lemma {:induction false} NoApprovalsFit(meter: Meter, limit: real, log: seq<Record>, events: seq<Event>, policy: Policy,
                                          redact: Json -> Json)
    requires forall i | 0 <= i < |events| && events[i].Resolved? :: !events[i].approves
    ensures ApprovalsFit(meter, limit, log, events, policy, redact)
  {
    hide Run, HasRoom;
  }

  lemma {:induction false} BudgetRoom(policy: Policy, i: nat)
    requires i < |policy.budgets| && Binding(policy)
    ensures Roomy(policy.budgets[i].meter, policy.budgets[i].limit, policy)
  {
    hide Decide, UsedSince, Binding;
    var budget := policy.budgets[i];
    forall context, entries, now: int | Decide(policy, context, entries, now).outcome == Allow && budget.meter.matches(context)
      ensures UsedSince(budget.meter, context, entries, now) + budget.meter.weight(context) <= budget.limit
    {
      AllowedHasRoom(policy, context, entries, now);
      assert !BudgetExceeded(policy.budgets[i], context, entries, now);
    }
  }

  ghost predicate CountsCalls(meter: Meter) {
    forall context :: meter.weight(context) == 1.0
  }

  lemma {:induction false} UsedIsWhole(meter: Meter, scope: Option<Text>, entries: seq<Record>, n: nat, from: int)
    returns (count: nat)
    requires n <= |entries| && CountsCalls(meter)
    ensures Used(meter, scope, entries, n, from) == count as real
    decreases n
  {
    hide Counts;
    if n == 0 {
      count := 0;
    } else {
      count := UsedIsWhole(meter, scope, entries, n - 1, from);
      var e := entries[n - 1];
      if Counts(meter, scope, e) && e.ts >= from {
        count := count + 1;
        assert meter.weight(e.context) == 1.0;
      }
    }
  }

  /** Below a limit, one more call is at most the limit, rounded up. */
  lemma {:induction false} LimitRoom(policy: Policy, i: nat, whole: int)
    requires i < |policy.rateLimits| && Binding(policy)
    requires CountsCalls(policy.rateLimits[i].meter) && policy.rateLimits[i].limit <= whole as real
    ensures Roomy(policy.rateLimits[i].meter, whole as real, policy)
  {
    hide Decide, UsedSince, Binding, CountsCalls;
    var limit := policy.rateLimits[i];
    forall context, entries, now: int | Decide(policy, context, entries, now).outcome == Allow && limit.meter.matches(context)
      ensures UsedSince(limit.meter, context, entries, now) + limit.meter.weight(context) <= whole as real
    {
      AllowedHasRoom(policy, context, entries, now);
      RoomForOne(limit, whole, context, entries, now);
    }
  }

  lemma {:induction false} RoomForOne(limit: RateLimit, whole: int, context: Context, entries: seq<Record>, now: int)
    requires CountsCalls(limit.meter) && limit.limit <= whole as real
    requires limit.meter.matches(context) && !LimitReached(limit, context, entries, now)
    ensures UsedSince(limit.meter, context, entries, now) + limit.meter.weight(context) <= whole as real
  {
    hide Used;
    var count := UsedIsWhole(limit.meter, limit.meter.scope(context), entries, |entries|, now - limit.meter.window);
    OneMore(count, limit.limit, whole);
  }

  lemma {:induction false} OneMore(count: nat, limit: real, whole: int)
    requires count as real < limit <= whole as real
    ensures count as real + 1.0 <= whole as real
  {
    assert count < whole;
  }

  /**
   * Rate limits hold: no window that ends at a call the run allowed holds more calls than the limit,
   * rounded up, exactly when each call a person approved had room in its own window.
   */
  lemma {:induction false} RateLimitHolds(i: nat, whole: int, log: seq<Record>, events: seq<Event>, policy: Policy,
                                          redact: Json -> Json)
    requires i < |policy.rateLimits| && Binding(policy) && Plain(policy.rateLimits[i].meter)
    requires CountsCalls(policy.rateLimits[i].meter) && policy.rateLimits[i].limit <= whole as real
    requires OrderlyRun(log, events, policy, redact)
    ensures CapHolds(policy.rateLimits[i].meter, whole as real, Run(log, events, policy, redact).entries, |log|) <==>
            ApprovalsFit(policy.rateLimits[i].meter, whole as real, log, events, policy, redact)
  {
    hide Run, OrderlyRun, CapHolds, Plain, Roomy, ApprovalsFit;
    LimitRoom(policy, i, whole);
    OnesNonNegative(policy.rateLimits[i].meter, Run(log, events, policy, redact).entries);
    RunKeepsCapExactly(policy.rateLimits[i].meter, whole as real, log, events, policy, redact);
  }

  lemma {:induction false} OnesNonNegative(meter: Meter, entries: seq<Record>)
    requires CountsCalls(meter)
    ensures NonNegative(meter, entries, |entries|)
  {
    forall i | 0 <= i < |entries| ensures meter.weight(entries[i].context) >= 0.0 {
      assert meter.weight(entries[i].context) == 1.0;
    }
  }

  /**
   * Why approvals are set apart: a call that a rule escalates is never checked against the budgets, so
   * one that alone is over a budget goes through when a person approves it.
   */
  lemma {:induction false} ApprovalSkipsBudgets(policy: Policy, i: nat, context: Context, redact: Json -> Json, ts: int)
    requires i < |policy.budgets| && Plain(policy.budgets[i].meter)
    requires !policy.egress(context) && RuleVerdict(policy.rules, context).1 == Some(Escalate)
    requires policy.budgets[i].meter.matches(context) && policy.budgets[i].meter.weight(context) > policy.budgets[i].limit
    ensures var run := Apply(Apply(Start([]), Called([], context, ts, ts), policy, redact), Resolved(0, true, ts), policy, redact);
      !CapHolds(policy.budgets[i].meter, policy.budgets[i].limit, run.entries, 0)
  {
    hide Plain, UsedSince, Total;
    var meter := policy.budgets[i].meter;
    var asked := Apply(Start([]), Called([], context, ts, ts), policy, redact);
    assert Decide(policy, context, [], ts).outcome == Escalate;
    assert asked.waiting == [Waiting([], context)] && asked.entries == [];
    var record := Intended(context, ts, true, redact);
    var run := Apply(asked, Resolved(0, true, ts), policy, redact);
    assert run.entries == [record];
    OverAlone(meter, context, redact, record, policy.budgets[i].limit);
  }

  lemma {:induction false} OverAlone(meter: Meter, context: Context, redact: Json -> Json, record: Record, limit: real)
    requires Plain(meter) && meter.matches(context) && meter.weight(context) > limit
    requires record.context == Kept(context, redact) && record.phase == Intent && record.outcome == Allow
    ensures !CapHolds(meter, limit, [record], 0)
  {
    ReadingKept(meter, context, redact);
    assert Metered(meter, [record], 0);
    var scope := meter.scope(record.context);
    assert Total(meter, scope, [record], 0, record.ts - meter.window, record.ts) == 0.0;
    assert Total(meter, scope, [record], 1, record.ts - meter.window, record.ts) == meter.weight(record.context);
  }
}
