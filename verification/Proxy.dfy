/**
 * proxy.js, `McpProxy`: calls decided against the log so far, recorded before they run, and
 * resolved, answered or left unanswered later, in any order.
 */
module Proxies {
  import opened Wrappers
  import opened Hashing
  import opened Canonical
  import opened Policies

  /** A call that waits for a person's answer. */
  datatype Waiting = Waiting(id: Text, context: Context)

  /** A forwarded call that has not been answered, and whether a person approved it. */
  datatype Pending = Pending(context: Context, approval: bool)

  datatype Stats = Stats(forwarded: nat, denied: nat, escalated: nat, approved: nat)

  /** The records of the log, the calls out for approval, and the calls forwarded and not yet answered. */
  datatype Proxy = Proxy(entries: seq<Record>, waiting: seq<Waiting>, pending: map<Text, Pending>, stats: Stats)

  /** A call is decided and, unless a person is asked, recorded; both read the clock. */
  datatype Event =
    | Called(id: Text, context: Context, decidedAt: int, recordedAt: int)
    | Resolved(index: nat, approves: bool, recordedAt: int)
    | Answered(id: Text, recordedAt: int)

  /** What the log keeps of a call: the arguments only as redacted. */
  function Kept(context: Context, redact: Json -> Json): Context {
    context.(params := redact(context.params))
  }

  function Intended(context: Context, ts: int, approval: bool, redact: Json -> Json): Record {
    Record(Intent, ts, Kept(context, redact), Allow, approval, false, None)
  }

  function Refused(context: Context, ts: int, declined: bool, redact: Json -> Json): Record {
    Record(Atomic, ts, Kept(context, redact), Deny, false, declined, None)
  }

  /** The restatement of a call, under its decision, when its result is in; its metrics were committed by the first record. */
  function Restated(call: Pending, ts: int, redact: Json -> Json): Record {
    Record(OutcomePhase, ts, Kept(call.context, redact).(metrics := map[]), Allow, call.approval, false, None)
  }

  function Forwarded(proxy: Proxy, id: Text, context: Context, record: Record): Proxy {
    proxy.(entries := proxy.entries + [record], pending := proxy.pending[id := Pending(context, record.approval)],
           stats := proxy.stats.(forwarded := proxy.stats.forwarded + 1))
  }

  function Denied(proxy: Proxy, record: Record): Proxy {
    proxy.(entries := proxy.entries + [record], stats := proxy.stats.(denied := proxy.stats.denied + 1))
  }

  function Apply(proxy: Proxy, event: Event, policy: Policy, redact: Json -> Json): Proxy {
    match event
    case Called(id, context, decidedAt, recordedAt) =>
      (match Decide(policy, context, proxy.entries, decidedAt).outcome
       case Allow => Forwarded(proxy, id, context, Intended(context, recordedAt, false, redact))
       case Deny => Denied(proxy, Refused(context, recordedAt, false, redact))
       case Escalate =>
         proxy.(waiting := proxy.waiting + [Waiting(id, context)],
                stats := proxy.stats.(escalated := proxy.stats.escalated + 1)))
    case Resolved(i, approves, recordedAt) =>
      if i >= |proxy.waiting| then proxy
      else
        var call := proxy.waiting[i];
        var rest := proxy.(waiting := RemoveAt(proxy.waiting, i));
        if approves then
          Forwarded(rest.(stats := rest.stats.(approved := rest.stats.approved + 1)), call.id, call.context,
                    Intended(call.context, recordedAt, true, redact))
        else Denied(rest, Refused(call.context, recordedAt, true, redact))
    case Answered(id, recordedAt) =>
      if id !in proxy.pending then proxy
      else proxy.(entries := proxy.entries + [Restated(proxy.pending[id], recordedAt, redact)], pending := proxy.pending - {id})
  }

  /** A proxy starts on a log that may already hold entries. */
  function Start(log: seq<Record>): Proxy {
    Proxy(log, [], map[], Stats(0, 0, 0, 0))
  }

  function Run(log: seq<Record>, events: seq<Event>, policy: Policy, redact: Json -> Json): Proxy {
    if |events| == 0 then Start(log)
    else Apply(Run(log, events[..|events| - 1], policy, redact), events[|events| - 1], policy, redact)
  }

  /** The proxy itself, in enforcement mode. */
  class McpProxy {
    const policy: Policy
    const redact: Json -> Json
    var entries: seq<Record>
    var waiting: seq<Waiting>
    var pending: map<Text, Pending>
    var stats: Stats

    ghost function State(): Proxy
      reads this
    {
      Proxy(entries, waiting, pending, stats)
    }

    constructor (policy: Policy, redact: Json -> Json, log: seq<Record>)
      ensures State() == Start(log) && this.policy == policy && this.redact == redact
    {
      this.policy, this.redact := policy, redact;
      entries, waiting, pending, stats := log, [], map[], Stats(0, 0, 0, 0);
    }

    /** The record is in the log, and in what later calls are decided against, before the call goes out. */
    method HandleClientMessage(id: Text, context: Context, decidedAt: int, recordedAt: int) returns (forwarded: bool)
      modifies this
      ensures State() == Apply(old(State()), Called(id, context, decidedAt, recordedAt), policy, redact)
      ensures forwarded <==> Decide(policy, context, old(entries), decidedAt).outcome == Allow
      ensures forwarded ==> id in pending && pending[id] == Pending(context, false) && |entries| == |old(entries)| + 1
    {
      hide Decide;
      var decision := DecideCall(policy, context, entries, decidedAt);
      match decision.outcome
      case Escalate =>
        stats := stats.(escalated := stats.escalated + 1);
        waiting := waiting + [Waiting(id, context)];
        return false;
      case Deny =>
        stats := stats.(denied := stats.denied + 1);
        entries := entries + [Refused(context, recordedAt, false, redact)];
        return false;
      case Allow =>
        entries := entries + [Intended(context, recordedAt, false, redact)];
        pending := pending[id := Pending(context, false)];
        stats := stats.(forwarded := stats.forwarded + 1);
        return true;
    }

    /** The approver answers for one of the calls that wait, which may be any of them. */
    method Resolve(index: nat, approves: bool, recordedAt: int)
      requires index < |waiting|
      modifies this
      ensures State() == Apply(old(State()), Resolved(index, approves, recordedAt), policy, redact)
    {
      var call := waiting[index];
      waiting := RemoveAt(waiting, index);
      if approves {
        stats := stats.(approved := stats.approved + 1);
        entries := entries + [Intended(call.context, recordedAt, true, redact)];
        pending := pending[call.id := Pending(call.context, true)];
        stats := stats.(forwarded := stats.forwarded + 1);
      } else {
        stats := stats.(denied := stats.denied + 1);
        entries := entries + [Refused(call.context, recordedAt, true, redact)];
      }
    }

    method HandleServerMessage(id: Text, recordedAt: int)
      modifies this
      ensures State() == Apply(old(State()), Answered(id, recordedAt), policy, redact)
    {
      if id in pending {
        var call := pending[id];
        pending := pending - {id};
        entries := entries + [Restated(call, recordedAt, redact)];
      }
    }

    /** Every call that was never answered gets its restatement; nothing else is recorded. */
    method Finalize(ids: seq<Text>, recordedAt: int)
      requires forall id :: id in ids <==> id in pending
      requires forall i, j | 0 <= i < j < |ids| :: ids[i] != ids[j]
      modifies this
      ensures pending == map[] && waiting == old(waiting)
      ensures |entries| == |old(entries)| + |ids| && entries[..|old(entries)|] == old(entries)
      ensures forall i | 0 <= i < |ids| ::
        entries[|old(entries)| + i] == Restated(old(pending)[ids[i]], recordedAt, redact)
    {
      for i := 0 to |ids|
        invariant waiting == old(waiting) && pending == old(pending)
        invariant |entries| == |old(entries)| + i && entries[..|old(entries)|] == old(entries)
        invariant forall j | 0 <= j < i :: entries[|old(entries)| + j] == Restated(old(pending)[ids[j]], recordedAt, redact)
      {
        assert ids[i] in pending;
        entries := entries + [Restated(pending[ids[i]], recordedAt, redact)];
      }
      pending := map[];
    }
  }
}
