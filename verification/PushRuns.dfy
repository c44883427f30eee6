/** remote.js and store.js: pushing is exactly-once, over every run of the network. */
module PushRuns {
  import opened Wrappers
  import opened Hashing
  import opened Canonical
  import opened Utf8
  import opened Receipts
  import opened RemoteSinks
  import opened Push
  import Checkpoints
  import H = Hubs
  import R = HubRuns

  lemma {:induction false} ConnectKeeps(net: Net, event: Event, log: Text, verifies: Verifier)
    requires event.Connected? && Inv(net, log, verifies) && Possible(net, event, log, verifies)
    ensures Inv(Step(net, event, log, verifies), log, verifies)
  {
    hide H.Inv, H.Replica, BatchesKnown, RequestsHold, AnswersHold, Good;
  }

  lemma {:induction false} SendKeeps(net: Net, event: Event, log: Text, verifies: Verifier)
    requires event.Sent? && Inv(net, log, verifies) && Possible(net, event, log, verifies)
    ensures Inv(Step(net, event, log, verifies), log, verifies)
  {
    hide H.Inv, H.Replica, BatchesKnown, AnswersHold, BatchId;
    NextIsGood(log, net.local, net.senders[event.sender].sink.cursor, event.batchSize);
    hide NextRequest, Good;
    assert SenderHolds(net.senders[event.sender], net.local, |net.history.entries|, log);
  }

  lemma {:induction false} NextIsGood(log: Text, local: seq<Json>, cursor: nat, batchSize: nat)
    requires cursor < |local| && batchSize > 0
    ensures Good(NextRequest(log, local, cursor, batchSize), local, log)
    ensures NextRequest(log, local, cursor, batchSize).start == cursor
  {
    hide BatchId;
  }

  /** An answer a sender is waiting for moves its cursor forward, and never further than the hub has got. */
  lemma {:induction false} AnswerAdvances(senders: seq<Sender>, answer: Answer, local: seq<Json>, held: nat, log: Text)
    requires answer.message.sender < |senders|
    requires SendersHold(senders, local, held, log) && AnswerHolds(answer, held)
    ensures var sender := senders[answer.message.sender];
      var next := Deliver(sender, answer);
      && SenderHolds(next, local, held, log)
      && !next.sink.fatal
      && (sender.waiting == Some(answer.message.request) && answer.response != Failed ==>
            sender.sink.cursor < next.sink.cursor && GoesOn(sender.sink, answer.response))
      && (sender.waiting != Some(answer.message.request) || answer.response == Failed ==>
            next.sink.cursor == sender.sink.cursor)
  {
    hide Good;
    assert SenderHolds(senders[answer.message.sender], local, held, log);
  }

  lemma {:induction false} DeliverKeeps(net: Net, event: Event, log: Text, verifies: Verifier)
    requires event.Delivered? && Inv(net, log, verifies) && Possible(net, event, log, verifies)
    ensures Inv(Step(net, event, log, verifies), log, verifies)
  {
    hide H.Inv, H.Replica, BatchesKnown, RequestsHold, SenderHolds, Deliver, AnswerHolds;
    assert AnswerHolds(net.answers[event.index], |net.history.entries|);
    AnswerAdvances(net.senders, net.answers[event.index], net.local, |net.history.entries|, log);
  }

  lemma {:induction false} GiveUpKeeps(net: Net, event: Event, log: Text, verifies: Verifier)
    requires event.GaveUp? && Inv(net, log, verifies) && Possible(net, event, log, verifies)
    ensures Inv(Step(net, event, log, verifies), log, verifies)
  {
    hide H.Inv, H.Replica, BatchesKnown, RequestsHold, AnswersHold, Good;
    assert SenderHolds(net.senders[event.sender], net.local, |net.history.entries|, log);
  }

  /** Retention, checkpoints and evictions at the hub change nothing a sender depends on. */
  lemma {:induction false} HubStepKeeps(net: Net, event: Event, log: Text, verifies: Verifier)
    requires event.HubStep? && Inv(net, log, verifies) && Possible(net, event, log, verifies)
    ensures Inv(Step(net, event, log, verifies), log, verifies)
  {
    hide BatchesKnown, SendersHold, RequestsHold, AnswersHold, H.Inv, H.Replica, H.Step, H.SameNames;
    R.StepKeepsInv(net.history, event.step, verifies);
    HubStepIs(net.history, event.step, verifies);
    var next := H.Step(net.history, event.step, verifies);
    H.ReplicaUnder(net.local, net.history.hub.log, next.hub.log, verifies);
  }

  lemma {:induction false} HubStepIs(history: H.History, step: H.Event, verifies: Verifier)
    requires !step.Ingested?
    ensures var next := H.Step(history, step, verifies);
      && next.entries == history.entries && next.hub.batches == history.hub.batches
      && next.hub.elsewhere <= history.hub.elsewhere + (if step.BatchElsewhere? then {Repaired(step.id)} else {})
      && H.SameNames(history.hub.log, next.hub.log) && !H.TakenElsewhere(history.hub, step, verifies)
  {
    hide H.PrunedRows, H.TreeLeaves, H.FinishCheckpoint;
    R.OnlyIngestAdds(history, step, verifies);
    if step.CheckpointSigned? && step.index < |history.hub.signing| {
      FinishIs(history.hub, step.index, step.signature);
    }
  }

  lemma {:induction false} FinishIs(hub: H.Hub, i: nat, signature: Checkpoints.Signed)
    requires i < |hub.signing|
    ensures var next := H.FinishCheckpoint(hub, i, signature);
      next.batches == hub.batches && next.elsewhere == hub.elsewhere && next.log == hub.log
  {
  }

  lemma {:induction false} StepKeepsInv(net: Net, event: Event, log: Text, verifies: Verifier)
    requires Inv(net, log, verifies) && Possible(net, event, log, verifies)
    ensures Inv(Step(net, event, log, verifies), log, verifies)
  {
    hide *;
    match event
    case Recorded(_) => RecordKeeps(net, event, log, verifies);
    case Connected(_, _) => ConnectKeeps(net, event, log, verifies);
    case Sent(_, _) => SendKeeps(net, event, log, verifies);
    case Handled(_) => HandleKeeps(net, event, log, verifies);
    case HubStep(_) => HubStepKeeps(net, event, log, verifies);
    case Delivered(_) => DeliverKeeps(net, event, log, verifies);
    case GaveUp(_) => GiveUpKeeps(net, event, log, verifies);
  }

  /** Every state of the run leads to the next by a possible step. */
  ghost predicate IsRun(states: seq<Net>, log: Text, verifies: Verifier) {
    forall i | 0 < i < |states| :: Follows(states[i - 1], states[i], log, verifies)
  }

  ghost predicate Follows(before: Net, after: Net, log: Text, verifies: Verifier) {
    exists event :: Possible(before, event, log, verifies) && after == Step(before, event, log, verifies)
  }

  /** A new hub log, a local log whose receipts it is registered for, and senders that have yet to connect. */
  predicate Starts(net: Net, row: H.LogRow, verifies: Verifier) {
    && net.history == H.Created(row)
    && H.Replica(net.local, net.history.hub.log, verifies)
    && net.requests == [] && net.answers == []
    && forall i | 0 <= i < |net.senders| :: net.senders[i] == Sender(Sink(0, 0, 0, false), None)
  }

  lemma {:induction false} StartHolds(net: Net, row: H.LogRow, log: Text, verifies: Verifier)
    requires Starts(net, row, verifies)
    ensures Inv(net, log, verifies)
  {
    hide H.Inv, H.Replica, Good;
    R.CreatedInv(row, verifies);
  }

  /**
   * Exactly once. Whatever is lost, delayed or repeated, the hub's log is always a prefix of the
   * local log, and no sender's cursor is past what the hub holds.
   */
  lemma {:induction false} ExactlyOnce(states: seq<Net>, row: H.LogRow, log: Text, verifies: Verifier, n: nat)
    requires n < |states| && IsRun(states, log, verifies) && Starts(states[0], row, verifies)
    ensures Inv(states[n], log, verifies)
    ensures states[n].history.entries <= states[n].local
    ensures forall i | 0 <= i < |states[n].senders| ::
      0 <= states[n].senders[i].sink.cursor <= |states[n].history.entries| && !states[n].senders[i].sink.fatal
    decreases n
  {
    hide Possible, Step, Starts, H.Inv, H.Replica, Good, BatchesKnown, RequestsHold, AnswersHold;
    if n == 0 {
      StartHolds(states[0], row, log, verifies);
    } else {
      ExactlyOnce(states, row, log, verifies, n - 1);
      assert Follows(states[n - 1], states[n], log, verifies);
      var event :| Possible(states[n - 1], event, log, verifies) && states[n] == Step(states[n - 1], event, log, verifies);
      StepKeepsInv(states[n - 1], event, log, verifies);
    }
    assert forall i | 0 <= i < |states[n].senders| ::
      SenderHolds(states[n].senders[i], states[n].local, |states[n].history.entries|, log);
  }

  /** A sender whose cursor is at the end of the local log has everything on the hub, once, in order. */
  lemma {:induction false} CaughtUp(net: Net, log: Text, verifies: Verifier, i: nat)
    requires Inv(net, log, verifies) && i < |net.senders| && net.senders[i].sink.cursor == |net.local|
    ensures net.history.entries == net.local
  {
    hide H.Inv, H.Replica, Good, BatchesKnown, RequestsHold, AnswersHold;
    assert SenderHolds(net.senders[i], net.local, |net.history.entries|, log);
  }

  /**
   * A request that starts where the hub's log ends adds its whole batch when it is handled, unless the log
   * has been archived; any other adds nothing.
   */
  lemma {:induction false} HandlingAppends(net: Net, i: nat, log: Text, verifies: Verifier)
    requires Inv(net, log, verifies) && i < |net.requests|
    ensures var request, next := net.requests[i].request, Step(net, Handled(i), log, verifies);
      next.history.entries
      == net.history.entries
         + if !net.history.hub.log.archived && request.start == |net.history.entries| then request.receipts else []
  {
    hide HubHolds, BatchesKnown, BatchId, SendersHold, AnswersHold, ReplyTo, H.Step, H.TakenElsewhere;
    var request := net.requests[i].request;
    assert MessageHolds(net.requests[i], net.local, |net.history.entries|, log);
    HubAnswers(net, request, log, verifies);
    assert net.history.entries + [] == net.history.entries;
  }
}
