/**
 * remote.js against store.js: several senders of one append-only local log push it to a
 * hub over a network that may lose, delay or repeat any request and lose or delay any reply.
 */
module Push {
  import opened Wrappers
  import opened Hashing
  import opened Canonical
  import opened Utf8
  import opened Receipts
  import opened Bundles
  import opened RemoteSinks
  import H = Hubs
  import R = HubRuns

  datatype Sender = Sender(sink: Sink, waiting: Option<Request>)

  datatype Message = Message(sender: nat, request: Request)

  datatype Answer = Answer(message: Message, response: Response)

  /** The local log, the hub, the senders, and everything ever sent either way. */
  datatype Net = Net(local: seq<Json>, history: H.History, senders: seq<Sender>, requests: seq<Message>, answers: seq<Answer>)

  datatype Event =
    | Recorded(receipt: Json)
    | Connected(sender: nat, size: int)
    | Sent(sender: nat, batchSize: nat)
    | Handled(index: nat)
    | HubStep(step: H.Event)
    | Delivered(index: nat)
    | GaveUp(sender: nat)

  /** How `flush` sees what `ingest` answers with, by status and code. */
  function ResponseOf(reply: Result<H.Reply, H.IngestError>): Response {
    match reply
    case Ok(r) => Accepted(r.size, r.accepted)
    case Err(SequenceGap(expected)) => Gap(Some(expected))
    case Err(ReceiptRejected) => Refused
    case Err(WrongLog) => Refused
    case Err(_) => Failed
  }

  function Ingested(request: Request): H.Event {
    H.Ingested(request.receipts, Some(request.batchId))
  }

  function ReplyTo(history: H.History, request: Request, verifies: Verifier): Response {
    ResponseOf(H.Ingest(history.hub, request.receipts, Some(request.batchId), verifies).1)
  }

  /** The id a request's batch is stored under. */
  function StoredId(request: Request): Text {
    Repaired(request.batchId)
  }

  /** The id, as it is stored, of a batch that can be cut from the local log. */
  predicate IsBatchOf(id: Text, local: seq<Json>, log: Text) {
    exists start, end :: 0 <= start < end <= |local| && id == Repaired(BatchId(log, start, local[start..end]))
  }

  /** No other log has used an id of this one's. */
  predicate NoClash(elsewhere: set<Text>, local: seq<Json>, log: Text) {
    forall id | id in elsewhere :: !IsBatchOf(id, local, log)
  }

  /**
   * A step the environment can take: the next receipt of the local chain, an answer the hub can give, a step of the
   * hub itself, retiring the log included. Other logs may use any batch id but this log's own.
   */
  predicate Possible(net: Net, event: Event, log: Text, verifies: Verifier) {
    match event
    case Recorded(receipt) =>
      && H.Replica(net.local + [receipt], net.history.hub.log, verifies)
      && NoClash(net.history.hub.elsewhere, net.local + [receipt], log)
    case Connected(i, size) => i < |net.senders| && net.senders[i].waiting.None? && 0 <= size <= |net.history.entries|
    case Sent(i, batchSize) =>
      && i < |net.senders| && net.senders[i].waiting.None?
      && 0 <= net.senders[i].sink.cursor < |net.local| && batchSize > 0
    case Handled(i) => i < |net.requests|
    case HubStep(step) => !step.Ingested? && (step.BatchElsewhere? ==> !IsBatchOf(Repaired(step.id), net.local, log))
    case Delivered(i) => i < |net.answers| && net.answers[i].message.sender < |net.senders|
    case GaveUp(i) => i < |net.senders|
  }

  function Deliver(sender: Sender, answer: Answer): Sender {
    if sender.waiting == Some(answer.message.request) then Sender(Handle(sender.sink, answer.response), None) else sender
  }

  function Step(net: Net, event: Event, log: Text, verifies: Verifier): Net
    requires Possible(net, event, log, verifies)
  {
    match event
    case Recorded(receipt) => net.(local := net.local + [receipt])
    case Connected(i, size) =>
      net.(senders := net.senders[i := net.senders[i].(sink := net.senders[i].sink.(cursor := size))])
    case Sent(i, batchSize) =>
      var request := NextRequest(log, net.local, net.senders[i].sink.cursor, batchSize);
      net.(senders := net.senders[i := net.senders[i].(waiting := Some(request))],
           requests := net.requests + [Message(i, request)])
    case Handled(i) =>
      var message := net.requests[i];
      net.(history := H.Step(net.history, Ingested(message.request), verifies),
           answers := net.answers + [Answer(message, ReplyTo(net.history, message.request, verifies))])
    case HubStep(step) => net.(history := H.Step(net.history, step, verifies))
    case Delivered(i) =>
      var at := net.answers[i].message.sender;
      net.(senders := net.senders[at := Deliver(net.senders[at], net.answers[i])])
    case GaveUp(i) => net.(senders := net.senders[i := net.senders[i].(waiting := None)])
  }

  // ------------------------------------------------------------------ invariant

  /** A batch is consecutive receipts of the local log under its own id. */
  predicate Good(request: Request, local: seq<Json>, log: Text) {
    && 0 < |request.receipts| && request.start + |request.receipts| <= |local|
    && request.receipts == local[request.start..request.start + |request.receipts|]
    && request.batchId == BatchId(log, request.start, request.receipts)
  }

  predicate SenderHolds(sender: Sender, local: seq<Json>, held: nat, log: Text) {
    && 0 <= sender.sink.cursor <= held
    && !sender.sink.fatal
    && (sender.waiting.Some? ==> Good(sender.waiting.value, local, log) && sender.waiting.value.start == sender.sink.cursor)
  }

  /** A request starts at or before what the hub holds. */
  predicate MessageHolds(message: Message, local: seq<Json>, held: nat, log: Text) {
    Good(message.request, local, log) && message.request.start <= held
  }

  /** Every answer that is not a failure names a place after the batch's start that the hub has reached. */
  predicate AnswerHolds(answer: Answer, held: nat) {
    var start := answer.message.request.start;
    match answer.response
    case Accepted(size, _) => start < size <= held
    case Gap(expected) => expected.Some? && start < expected.value <= held
    case RateLimited => false
    case Refused => false
    case Failed => true
  }

  /** What is recorded under a batch id is the batch of the local log with that id. */
  predicate BatchKnown(id: Text, size: int, local: seq<Json>, log: Text) {
    exists start, end ::
      0 <= start < end <= |local| && id == Repaired(BatchId(log, start, local[start..end])) && size == end
  }

  predicate BatchesKnown(batches: map<Text, H.BatchRow>, local: seq<Json>, log: Text) {
    forall id | id in batches :: BatchKnown(id, batches[id].size, local, log)
  }

  predicate SendersHold(senders: seq<Sender>, local: seq<Json>, held: nat, log: Text) {
    forall i | 0 <= i < |senders| :: SenderHolds(senders[i], local, held, log)
  }

  predicate RequestsHold(requests: seq<Message>, local: seq<Json>, held: nat, log: Text) {
    forall i | 0 <= i < |requests| :: MessageHolds(requests[i], local, held, log)
  }

  predicate AnswersHold(answers: seq<Answer>, held: nat) {
    forall i | 0 <= i < |answers| :: AnswerHolds(answers[i], held)
  }

  /** The hub holds a prefix of the local log, and no id of its batches is known to another log. */
  predicate HubHolds(net: Net, log: Text, verifies: Verifier) {
    && H.Inv(net.history, verifies)
    && NoClash(net.history.hub.elsewhere, net.local, log)
    && net.history.entries <= net.local
    && H.Replica(net.local, net.history.hub.log, verifies)
  }

  predicate Inv(net: Net, log: Text, verifies: Verifier) {
    var held := |net.history.entries|;
    && HubHolds(net, log, verifies)
    && BatchesKnown(net.history.hub.batches, net.local, log)
    && SendersHold(net.senders, net.local, held, log)
    && RequestsHold(net.requests, net.local, held, log)
    && AnswersHold(net.answers, held)
  }

  // -------------------------------------------------------- what the hub answers

  lemma {:induction false} LocalAt(local: seq<Json>, log: H.LogRow, verifies: Verifier, i: nat)
    requires H.Replica(local, log, verifies) && i < |local|
    ensures ReceiptSound(local[i], H.HubKeyring(log), verifies) && H.Named(local[i], log)
    ensures SeqOf(local[i]) == Some(i) && PrevOf(local[i]) == Some(HeadOf(local[..i], GenesisPrev()))
  {
    hide ReceiptSound, H.Named, SeqOf, PrevOf, EntryHash, Raw, GenesisPrev;
    assert H.EntryInChain(local, i, log, verifies);
  }

  /** A batch that does not start where the hub's log ends is refused with the place where it does. */
  lemma {:induction false} WrongPlace(local: seq<Json>, receipts: seq<Json>, start: nat, log: H.LogRow, verifies: Verifier)
    requires H.Replica(local, log, verifies) && 0 < |receipts| && start + |receipts| <= |local|
    requires receipts == local[start..start + |receipts|] && start != log.size
    ensures H.Fault(receipts, |receipts|, log, verifies) == Some(H.SequenceGap(log.size))
  {
    hide ReceiptSound, H.Named, SeqOf, PrevOf, Linked, H.Replica;
    LocalAt(local, log, verifies, start);
    assert receipts[0] == local[start];
    assert H.Fault(receipts, 0, log, verifies) == None;
    assert H.FaultAt(receipts, 0, log, verifies) == Some(H.SequenceGap(log.size));
    H.FaultStays(receipts, 1, |receipts|, log, verifies);
  }

  lemma {:induction false} RightPlaceAt(local: seq<Json>, receipts: seq<Json>, start: nat, log: H.LogRow, verifies: Verifier,
                                        entries: seq<Json>, i: nat)
    requires H.Replica(local, log, verifies) && i < |receipts| && start + |receipts| <= |local|
    requires receipts == local[start..start + |receipts|]
    requires entries == local[..start] && log.size == start && log.head == HeadOf(entries, GenesisPrev())
    ensures H.FaultAt(receipts, i, log, verifies) == None
  {
    hide ReceiptSound, H.Named, SeqOf, PrevOf, H.Replica, EntryHash, Raw, GenesisPrev;
    LocalAt(local, log, verifies, start + i);
    assert receipts[i] == local[start + i];
    if i > 0 {
      assert receipts[i - 1] == local[start + i - 1];
      assert HeadOf(local[..start + i], GenesisPrev()) == Raw(EntryHash(receipts[i - 1]));
    }
  }

  /** A batch that starts where the hub's log ends has no fault. */
  lemma {:induction false} RightPlace(local: seq<Json>, receipts: seq<Json>, log: H.LogRow, verifies: Verifier,
                                      entries: seq<Json>)
    requires H.Replica(local, log, verifies) && H.LogHolds(log, entries) && entries <= local
    requires |entries| + |receipts| <= |local| && receipts == local[|entries|..|entries| + |receipts|]
    ensures H.Fault(receipts, |receipts|, log, verifies) == None
    ensures entries + receipts <= local
  {
    hide H.Replica, H.FaultAt, HeadOf, H.Fault, GenesisPrev;
    H.NoFault(receipts, |receipts|, log, verifies);
    forall i | 0 <= i < |receipts| ensures H.FaultAt(receipts, i, log, verifies) == None {
      RightPlaceAt(local, receipts, |entries|, log, verifies, entries, i);
    }
    assert entries == local[..|entries|];
    assert local[..|entries| + |receipts|] == entries + receipts;
  }

  /** A batch recorded under a good request's id is that request's batch. */
  lemma {:induction false} KnownBatch(request: Request, local: seq<Json>, log: Text, size: int)
    requires Good(request, local, log) && BatchKnown(StoredId(request), size, local, log)
    ensures size == request.start + |request.receipts|
  {
    hide BatchId;
    var start, end :| 0 <= start < end <= |local| && StoredId(request) == Repaired(BatchId(log, start, local[start..end])) && size == end;
    BatchIdDetermines(log, request.start, request.receipts, start, local[start..end]);
  }

  /** The answers a good request can get, and what each does to the hub: once the log is archived, a failure and nothing. */
  predicate GoodOutcome(net: Net, request: Request, next: H.History, response: Response) {
    var held, end := |net.history.entries|, request.start + |request.receipts|;
    || (next.entries == net.history.entries && next.hub.batches == net.history.hub.batches
        && response.Accepted? && response.size == end <= held)
    || (next.entries == net.history.entries && next.hub.batches == net.history.hub.batches
        && response == Gap(Some(held)) && request.start < held)
    || (net.history.hub.log.archived && next.entries == net.history.entries
        && next.hub.batches == net.history.hub.batches && response == Failed)
    || (!net.history.hub.log.archived && next.entries == net.history.entries + request.receipts && request.start == held
        && StoredId(request) in next.hub.batches && next.hub.batches[StoredId(request)].size == end
        && next.hub.batches == net.history.hub.batches[StoredId(request) := next.hub.batches[StoredId(request)]]
        && response == Accepted(end, |request.receipts|))
  }

  lemma {:induction false} HubAnswers(net: Net, request: Request, log: Text, verifies: Verifier)
    requires HubHolds(net, log, verifies) && BatchesKnown(net.history.hub.batches, net.local, log)
    requires Good(request, net.local, log) && request.start <= |net.history.entries|
    ensures GoodOutcome(net, request, H.Step(net.history, Ingested(request), verifies), ReplyTo(net.history, request, verifies))
    ensures !H.TakenElsewhere(net.history.hub, Ingested(request), verifies)
  {
    hide *;
    HubParts(net, log, verifies);
    RequestParts(request, net.local, log);
    OwnBatch(net, request, log);
    if net.history.hub.log.archived {
      ArchivedOutcome(net, request, verifies);
    } else if StoredId(request) in net.history.hub.batches {
      KnownSize(net.history.hub.batches, StoredId(request), net.local, log);
      KnownBatch(request, net.local, log, net.history.hub.batches[StoredId(request)].size);
      BatchSize(net.history, StoredId(request), verifies);
      RetryOutcome(net, request, verifies);
    } else if request.start != |net.history.entries| {
      WrongPlace(net.local, request.receipts, request.start, net.history.hub.log, verifies);
      GapOutcome(net, request, verifies);
    } else {
      RightPlace(net.local, request.receipts, net.history.hub.log, verifies, net.history.entries);
      CommitOutcome(net, request, verifies);
    }
  }

  lemma {:induction false} HubParts(net: Net, log: Text, verifies: Verifier)
    requires HubHolds(net, log, verifies)
    ensures H.Inv(net.history, verifies) && H.LogHolds(net.history.hub.log, net.history.entries)
    ensures net.history.hub.log.size == |net.history.entries|
    ensures net.history.entries <= net.local && H.Replica(net.local, net.history.hub.log, verifies)
    ensures NoClash(net.history.hub.elsewhere, net.local, log)
  {
    hide H.Inv, H.Replica, H.LogHolds, NoClash;
    H.InvParts(net.history, verifies);
    H.SizeIs(net.history, verifies);
  }

  lemma {:induction false} RequestParts(request: Request, local: seq<Json>, log: Text)
    requires Good(request, local, log)
    ensures 0 < |request.receipts| && request.start + |request.receipts| <= |local|
    ensures request.receipts == local[request.start..request.start + |request.receipts|]
  {
    hide BatchId;
  }

  lemma {:induction false} OwnBatch(net: Net, request: Request, log: Text)
    requires Good(request, net.local, log) && NoClash(net.history.hub.elsewhere, net.local, log)
    ensures StoredId(request) !in net.history.hub.elsewhere
  {
    hide BatchId;
    var start, end := request.start, request.start + |request.receipts|;
    assert 0 <= start < end <= |net.local| && StoredId(request) == Repaired(BatchId(log, start, net.local[start..end]));
  }

  lemma {:induction false} ArchivedOutcome(net: Net, request: Request, verifies: Verifier)
    requires net.history.hub.log.archived
    ensures GoodOutcome(net, request, H.Step(net.history, Ingested(request), verifies), ReplyTo(net.history, request, verifies))
    ensures !H.TakenElsewhere(net.history.hub, Ingested(request), verifies)
  {
    assert net.history.entries + [] == net.history.entries;
  }

  lemma {:induction false} KnownSize(batches: map<Text, H.BatchRow>, id: Text, local: seq<Json>, log: Text)
    requires BatchesKnown(batches, local, log) && id in batches
    ensures BatchKnown(id, batches[id].size, local, log)
  {
    hide BatchKnown;
  }

  lemma {:induction false} BatchSize(history: H.History, id: Text, verifies: Verifier)
    requires H.Inv(history, verifies) && id in history.hub.batches
    ensures 0 < history.hub.batches[id].size <= |history.entries|
  {
    hide H.Replica, H.RowsHold, H.LogHolds, H.CheckpointsHold, H.SigningHolds, H.CacheHolds, LeavesOf, HeadOf;
  }

  lemma {:induction false} RetryOutcome(net: Net, request: Request, verifies: Verifier)
    requires !net.history.hub.log.archived && StoredId(request) in net.history.hub.batches
    requires net.history.hub.batches[StoredId(request)].size == request.start + |request.receipts| <= |net.history.entries|
    ensures GoodOutcome(net, request, H.Step(net.history, Ingested(request), verifies), ReplyTo(net.history, request, verifies))
    ensures !H.TakenElsewhere(net.history.hub, Ingested(request), verifies)
  {
    hide H.Fault, H.Commit, H.Committed, LeavesOf, H.TreeLeaves;
    assert net.history.entries + [] == net.history.entries;
  }

  lemma {:induction false} GapOutcome(net: Net, request: Request, verifies: Verifier)
    requires !net.history.hub.log.archived && StoredId(request) !in net.history.hub.batches && |request.receipts| > 0
    requires H.Fault(request.receipts, |request.receipts|, net.history.hub.log, verifies)
          == Some(H.SequenceGap(|net.history.entries|))
    requires request.start < |net.history.entries|
    ensures GoodOutcome(net, request, H.Step(net.history, Ingested(request), verifies), ReplyTo(net.history, request, verifies))
    ensures !H.TakenElsewhere(net.history.hub, Ingested(request), verifies)
  {
    hide H.Fault, H.Commit, H.Committed, LeavesOf, H.TreeLeaves;
    assert net.history.entries + [] == net.history.entries;
  }

  lemma {:induction false} CommitOutcome(net: Net, request: Request, verifies: Verifier)
    requires !net.history.hub.log.archived && StoredId(request) !in net.history.hub.elsewhere
    requires StoredId(request) !in net.history.hub.batches && |request.receipts| > 0
    requires H.Fault(request.receipts, |request.receipts|, net.history.hub.log, verifies) == None
    requires request.start == |net.history.entries| == net.history.hub.log.size
    ensures GoodOutcome(net, request, H.Step(net.history, Ingested(request), verifies), ReplyTo(net.history, request, verifies))
    ensures !H.TakenElsewhere(net.history.hub, Ingested(request), verifies)
  {
    hide H.Fault, LeavesOf, H.TreeLeaves, H.RowsFor, EntryHash, Raw;
  }

  // ----------------------------------------------------------------- growing logs

  lemma {:induction false} GoodStays(request: Request, local: seq<Json>, receipt: Json, log: Text)
    requires Good(request, local, log)
    ensures Good(request, local + [receipt], log)
  {
    hide BatchId;
    var end := request.start + |request.receipts|;
    assert (local + [receipt])[request.start..end] == local[request.start..end];
  }

  lemma {:induction false} KnownStays(id: Text, size: int, local: seq<Json>, receipt: Json, log: Text)
    requires BatchKnown(id, size, local, log)
    ensures BatchKnown(id, size, local + [receipt], log)
  {
    hide BatchId;
    var start, end :| 0 <= start < end <= |local| && id == Repaired(BatchId(log, start, local[start..end])) && size == end;
    assert (local + [receipt])[start..end] == local[start..end];
  }

  /** Recording one more receipt locally disturbs nothing that is under way. */
  lemma {:induction false} RecordKeeps(net: Net, event: Event, log: Text, verifies: Verifier)
    requires event.Recorded? && Inv(net, log, verifies) && Possible(net, event, log, verifies)
    ensures Inv(Step(net, event, log, verifies), log, verifies)
  {
    hide H.Inv, H.Replica, Good, BatchKnown, AnswersHold;
    var local := net.local + [event.receipt];
    forall id | id in net.history.hub.batches ensures BatchKnown(id, net.history.hub.batches[id].size, local, log) {
      KnownStays(id, net.history.hub.batches[id].size, net.local, event.receipt, log);
    }
    forall i | 0 <= i < |net.senders| ensures SenderHolds(net.senders[i], local, |net.history.entries|, log) {
      if net.senders[i].waiting.Some? {
        GoodStays(net.senders[i].waiting.value, net.local, event.receipt, log);
      }
    }
    forall i | 0 <= i < |net.requests| ensures MessageHolds(net.requests[i], local, |net.history.entries|, log) {
      GoodStays(net.requests[i].request, net.local, event.receipt, log);
    }
  }

  /** What holds at one size of the hub holds at a larger one. */
  lemma {:induction false} HeldGrows(net: Net, held: nat, more: nat, log: Text)
    requires held <= more
    requires SendersHold(net.senders, net.local, held, log) && RequestsHold(net.requests, net.local, held, log)
    requires AnswersHold(net.answers, held)
    ensures SendersHold(net.senders, net.local, more, log) && RequestsHold(net.requests, net.local, more, log)
    ensures AnswersHold(net.answers, more)
  {
    hide Good;
    forall i | 0 <= i < |net.senders| ensures SenderHolds(net.senders[i], net.local, more, log) {
      assert SenderHolds(net.senders[i], net.local, held, log);
    }
    forall i | 0 <= i < |net.requests| ensures MessageHolds(net.requests[i], net.local, more, log) {
      assert MessageHolds(net.requests[i], net.local, held, log);
    }
    forall i | 0 <= i < |net.answers| ensures AnswerHolds(net.answers[i], more) {
      assert AnswerHolds(net.answers[i], held);
    }
  }

  lemma {:induction false} HandleKeeps(net: Net, event: Event, log: Text, verifies: Verifier)
    requires event.Handled? && Inv(net, log, verifies) && Possible(net, event, log, verifies)
    ensures Inv(Step(net, event, log, verifies), log, verifies)
  {
    hide *;
    var message := RequestAt(net, event, log, verifies);
    var next, response := H.Step(net.history, Ingested(message.request), verifies), ReplyTo(net.history, message.request, verifies);
    HubAnswers(net, message.request, log, verifies);
    HubParts(net, log, verifies);
    R.StepKeepsInv(net.history, Ingested(message.request), verifies);
    IngestKeepsRow(net.history, message.request, verifies);
    OutcomeKeepsHub(net, message.request, log, verifies, next, response);
    HeldGrows(net, |net.history.entries|, |next.entries|, log);
    NewAnswer(net.answers, Answer(message, response), |next.entries|);
    HandledIs(net, event, log, verifies, message, next, response);
  }

  lemma {:induction false} RequestAt(net: Net, event: Event, log: Text, verifies: Verifier) returns (message: Message)
    requires event.Handled? && Inv(net, log, verifies) && Possible(net, event, log, verifies)
    ensures event.index < |net.requests| && message == net.requests[event.index]
    ensures Good(message.request, net.local, log) && message.request.start <= |net.history.entries|
    ensures HubHolds(net, log, verifies) && BatchesKnown(net.history.hub.batches, net.local, log)
    ensures SendersHold(net.senders, net.local, |net.history.entries|, log)
    ensures RequestsHold(net.requests, net.local, |net.history.entries|, log) && AnswersHold(net.answers, |net.history.entries|)
  {
    hide HubHolds, BatchesKnown, SendersHold, AnswersHold, Good;
    message := net.requests[event.index];
    assert MessageHolds(message, net.local, |net.history.entries|, log);
  }

  lemma {:induction false} IngestKeepsRow(history: H.History, request: Request, verifies: Verifier)
    ensures var next := H.Step(history, Ingested(request), verifies);
      && H.SameNames(history.hub.log, next.hub.log) && next.hub.log.archived == history.hub.log.archived
      && next.hub.elsewhere == history.hub.elsewhere
  {
    hide H.Fault, LeavesOf, H.TreeLeaves, H.RowsFor, EntryHash, Raw, H.Accepted;
  }

  lemma {:induction false} OutcomeKeepsHub(net: Net, request: Request, log: Text, verifies: Verifier, next: H.History,
                                           response: Response)
    requires HubHolds(net, log, verifies) && BatchesKnown(net.history.hub.batches, net.local, log)
    requires Good(request, net.local, log) && GoodOutcome(net, request, next, response)
    requires H.Inv(next, verifies) && next.hub.elsewhere == net.history.hub.elsewhere
    requires H.SameNames(net.history.hub.log, next.hub.log)
    ensures HubHolds(net.(history := next), log, verifies) && BatchesKnown(next.hub.batches, net.local, log)
    ensures |net.history.entries| <= |next.entries|
    ensures AnswerHolds(Answer(Message(0, request), response), |next.entries|)
  {
    hide H.Inv, H.Replica, BatchId, BatchKnown, H.SameNames;
    H.ReplicaUnder(net.local, net.history.hub.log, next.hub.log, verifies);
    NewKnown(request, net.local, log);
    if next.entries != net.history.entries {
      var held, end := |net.history.entries|, request.start + |request.receipts|;
      assert net.history.entries == net.local[..held];
      assert net.local[..end] == net.history.entries + request.receipts;
    }
  }

  lemma {:induction false} NewKnown(request: Request, local: seq<Json>, log: Text)
    requires Good(request, local, log)
    ensures BatchKnown(StoredId(request), request.start + |request.receipts|, local, log)
  {
    hide BatchId;
    var start, end := request.start, request.start + |request.receipts|;
    assert 0 <= start < end <= |local| && StoredId(request) == Repaired(BatchId(log, start, local[start..end]));
  }

  lemma {:induction false} NewAnswer(answers: seq<Answer>, answer: Answer, held: nat)
    requires AnswersHold(answers, held)
    requires AnswerHolds(Answer(Message(0, answer.message.request), answer.response), held)
    ensures AnswersHold(answers + [answer], held)
  {
  }

  lemma {:induction false} HandledIs(net: Net, event: Event, log: Text, verifies: Verifier, message: Message,
                                     next: H.History, response: Response)
    requires event.Handled? && Possible(net, event, log, verifies) && message == net.requests[event.index]
    requires next == H.Step(net.history, Ingested(message.request), verifies)
    requires response == ReplyTo(net.history, message.request, verifies)
    requires HubHolds(net.(history := next), log, verifies) && BatchesKnown(next.hub.batches, net.local, log)
    requires SendersHold(net.senders, net.local, |next.entries|, log) && RequestsHold(net.requests, net.local, |next.entries|, log)
    requires AnswersHold(net.answers + [Answer(message, response)], |next.entries|)
    ensures Inv(Step(net, event, log, verifies), log, verifies)
  {
    hide H.Inv, H.Replica, BatchesKnown, SendersHold, RequestsHold, AnswersHold, H.Step, ReplyTo;
  }
}
