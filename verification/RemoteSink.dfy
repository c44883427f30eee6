/** remote.js, `RemoteSink`: what a sender of a local log asks of the hub and how it takes each answer. */
module RemoteSinks {
  import opened Wrappers
  import opened Hashing
  import opened Numbers
  import opened Canonical
  import opened JsonObjects
  import opened Utf8
  import opened JsonBytes
  import opened Receipts

  const UNDERSCORE := Unit(0x5F)

  /** A batch on its way: consecutive receipts of the local log from `start` on. */
  datatype Request = Request(start: nat, receipts: seq<Json>, batchId: Text)

  /** An answer as `flush` tells them apart; `Failed` is everything it throws on, a lost connection included. */
  datatype Response = Accepted(size: int, accepted: nat) | Gap(expected: Option<int>) | RateLimited | Refused | Failed

  /** `cursor` is the next local sequence number the hub has not confirmed. */
  datatype Sink = Sink(cursor: int, shipped: nat, failures: nat, fatal: bool)

  // ------------------------------------------------------------------- batch ids

  predicate IsAlphanumeric(c: Symbol) {
    c.Unit? && (0x30 <= c.code < 0x3A || 0x41 <= c.code < 0x5B || 0x61 <= c.code < 0x7B)
  }

  function Alphanumeric(t: Text): Text {
    if |t| == 0 then [] else (if IsAlphanumeric(t[0]) then [t[0]] else []) + Alphanumeric(t[1..])
  }

  /** `_salt`: part of the last receipt's signature. */
  function Salt(slice: seq<Json>): Text
    requires |slice| > 0
  {
    var sig := TextAt(GetIn(slice[|slice| - 1], ATTEST, SIG));
    var text := if sig.Some? then sig.value else [];
    Alphanumeric(if |text| <= 16 then text else text[..16])
  }

  /** What follows the log's name in an id. */
  function IdTail(start: nat, slice: seq<Json>): Text
    requires |slice| > 0
  {
    [UNDERSCORE] + (DigitText(NatDigits(start)) + ([UNDERSCORE] + (DigitText(NatDigits(|slice|)) + ([UNDERSCORE] + Salt(slice)))))
  }

  function BatchId(log: Text, start: nat, slice: seq<Json>): Text
    requires |slice| > 0
  {
    [Unit(0x62), UNDERSCORE] + log + IdTail(start, slice)
  }

  /** One log's batch ids are stored alike only for batches of the same length from the same place. */
  lemma {:induction false} BatchIdDetermines(log: Text, i: nat, a: seq<Json>, j: nat, b: seq<Json>)
    requires |a| > 0 && |b| > 0 && Repaired(BatchId(log, i, a)) == Repaired(BatchId(log, j, b))
    ensures i == j && |a| == |b|
  {
    hide *;
    StoredBatchId(log, i, a);
    StoredBatchId(log, j, b);
    var t := Repaired(BatchId(log, i, a));
    IdReads(log, i, a, t);
    IdReads(log, j, b, t);
  }

  /** Only the log's name can change when an id is stored. */
  lemma {:induction false} StoredBatchId(log: Text, start: nat, slice: seq<Json>)
    requires |slice| > 0
    ensures |Repaired(log)| == |log|
    ensures Repaired(BatchId(log, start, slice)) == [Unit(0x62), UNDERSCORE] + Repaired(log) + IdTail(start, slice)
  {
    hide Repaired, DigitText, Salt, NatDigits;
    var head, tail := [Unit(0x62), UNDERSCORE], IdTail(start, slice);
    DigitsPlain(NatDigits(start));
    DigitsPlain(NatDigits(|slice|));
    SaltPlain(slice);
    assert BatchId(log, start, slice) == head + (log + tail);
    RepairedSkips(head, log + tail);
    RepairedJoin(log, tail);
    PlainRepairs(tail);
    assert head + (Repaired(log) + tail) == head + Repaired(log) + tail;
  }

  lemma {:induction false} SaltPlain(slice: seq<Json>)
    requires |slice| > 0
    ensures NoSurrogate(Salt(slice))
  {
    hide GetIn;
    var sig := TextAt(GetIn(slice[|slice| - 1], ATTEST, SIG));
    var text := if sig.Some? then sig.value else [];
    AlphanumericPlain(if |text| <= 16 then text else text[..16]);
  }

  lemma {:induction false} AlphanumericPlain(t: Text)
    ensures NoSurrogate(Alphanumeric(t))
    decreases |t|
  {
    if |t| > 0 {
      AlphanumericPlain(t[1..]);
    }
  }

  /** The two numbers of an id, read back from its stored text. */
  lemma {:induction false} IdReads(log: Text, start: nat, slice: seq<Json>, t: Text)
    requires |slice| > 0 && |Repaired(log)| == |log|
    requires t == [Unit(0x62), UNDERSCORE] + Repaired(log) + IdTail(start, slice)
    ensures |log| + 3 <= |t|
    ensures var first := ReadDigits(t, |log| + 3);
      && DigitsValue(first.0) == start
      && first.1 + 1 <= |t| && DigitsValue(ReadDigits(t, first.1 + 1).0) == |slice|
  {
    hide Salt, DigitsValue, NatDigits, ReadDigits, DigitText, Repaired;
    var head := [Unit(0x62), UNDERSCORE] + Repaired(log) + [UNDERSCORE];
    var last := [UNDERSCORE] + Salt(slice);
    var middle := DigitText(NatDigits(|slice|)) + last;
    var tail := DigitText(NatDigits(start)) + ([UNDERSCORE] + middle);
    assert t == head + tail && At(t, 0, t);
    AtSplit(t, 0, head, tail);
    DigitsThenUnderscore(t, |log| + 3, NatDigits(start), middle);
    DigitsThenUnderscore(t, |log| + 3 + |DigitText(NatDigits(start))| + 1, NatDigits(|slice|), Salt(slice));
  }

  lemma {:induction false} DigitsThenUnderscore(t: Text, i: nat, digits: seq<Digit>, rest: Text)
    requires At(t, i, DigitText(digits) + ([UNDERSCORE] + rest))
    ensures i <= |t| && ReadDigits(t, i) == (digits, i + |DigitText(digits)|)
    ensures i + |DigitText(digits)| + 1 <= |t| && At(t, i + |DigitText(digits)| + 1, rest)
  {
    hide ReadDigits;
    AtSplit(t, i, DigitText(digits), [UNDERSCORE] + rest);
    AtHead(t, i + |DigitText(digits)|, UNDERSCORE, rest);
    DigitsReadBack(t, i, digits);
  }

  // ----------------------------------------------------------------------- flush

  /** `entries.slice(cursor, cursor + batchSize)` under its batch id. */
  function NextRequest(log: Text, local: seq<Json>, cursor: nat, batchSize: nat): (request: Request)
    requires cursor < |local| && batchSize > 0
    ensures |request.receipts| > 0 && request.start == cursor && cursor + |request.receipts| <= |local|
    ensures request.receipts == local[cursor..cursor + |request.receipts|]
  {
    var end := if cursor + batchSize <= |local| then cursor + batchSize else |local|;
    var slice := local[cursor..end];
    Request(cursor, slice, BatchId(log, cursor, slice))
  }

  /** How one answer changes the sender. */
  function Handle(sink: Sink, response: Response): Sink {
    match response
    case Accepted(size, accepted) => sink.(cursor := size, shipped := sink.shipped + accepted, failures := 0)
    case Gap(expected) =>
      if expected.Some? && expected.value != sink.cursor then sink.(cursor := expected.value)
      else sink.(failures := sink.failures + 1)
    case RateLimited => sink
    case Refused => sink.(fatal := true)
    case Failed => sink.(failures := sink.failures + 1)
  }

  /** Whether `flush` goes on to send the next batch. */
  predicate GoesOn(sink: Sink, response: Response) {
    response.Accepted? || response.RateLimited?
    || (response.Gap? && response.expected.Some? && response.expected.value != sink.cursor)
  }

  /** What the hub says to a registration: `Unregistered` is every other status, and no answer at all. */
  datatype Registration = Registered | KeyMismatch | Unregistered

  class RemoteSink {
    const log: Text
    const batchSize: nat
    var cursor: int
    var shipped: nat
    var failures: nat
    var fatal: bool
    var started: bool
    var inFlight: bool
    var stopped: bool

    ghost function State(): Sink
      reads this
    {
      Sink(cursor, shipped, failures, fatal)
    }

    constructor (log: Text, batchSize: nat)
      ensures State() == Sink(0, 0, 0, false) && !started && !inFlight && !stopped
      ensures this.log == log && this.batchSize == batchSize
    {
      this.log, this.batchSize := log, batchSize;
      cursor, shipped, failures, fatal := 0, 0, 0, false;
      started, inFlight, stopped := false, false, false;
    }

    /**
     * `connect`: registers, then asks the hub how much it holds; `size` is its answer, where there is one. A log that
     * is bound to another key ends the sending for good; any other failure leaves the sink as it was, to try again.
     */
    method Connect(registration: Registration, size: Option<int>) returns (usable: bool)
      modifies this`cursor, this`started, this`fatal
      ensures usable <==> registration.Registered? && size.Some?
      ensures usable ==> State() == old(State()).(cursor := size.value) && started
      ensures !usable ==> State() == old(State()).(fatal := old(fatal) || registration.KeyMismatch?) && started == old(started)
    {
      if registration.KeyMismatch? {
        fatal := true;
        return false;
      }
      if registration.Unregistered? || size.None? {
        return false;
      }
      cursor := size.value;
      started := true;
      return true;
    }

    /**
     * `answers` are what the hub replies to the requests of this call, in order; running out of them is a
     * lost connection. Each request is the batch at the cursor that the answers before it have left, and the
     * call ends early only on an answer that is not to be gone on from. `local(k)` is the local log when request
     * `k` is made: it may grow while an answer is awaited.
     */
    method Flush(local: nat -> seq<Json>, answers: seq<Response>) returns (asked: seq<Request>, sent: nat)
      requires batchSize > 0
      requires cursor >= 0 && forall i | 0 <= i < |answers| :: NonNegative(answers[i])
      modifies this`cursor, this`shipped, this`failures, this`fatal, this`inFlight
      ensures shipped == old(shipped) + sent
      ensures old(inFlight || fatal || stopped) ==> asked == [] && State() == old(State()) && inFlight == old(inFlight)
      ensures !old(inFlight || fatal || stopped) ==>
                && !inFlight
                && Asked(log, batchSize, local, old(State()), answers, asked)
                && State() == Answered(old(State()), answers, |asked|)
                && (cursor < |local(|asked|)| ==> |asked| > 0 && !GoesOn(Answered(old(State()), answers, |asked| - 1),
                                                                          AnswerAt(answers, |asked| - 1)))
    {
      hide NextRequest, AskedAt, GoesOn, Handle, Answered, AnswerAt, NonNegative;
      asked, sent := [], 0;
      if inFlight || fatal || stopped {
        return;
      }
      ghost var start := State();
      inFlight := true;
      NothingAnswered(start, answers);
      while cursor < |local(|asked|)|
        invariant |asked| <= |answers| && inFlight && cursor >= 0
        invariant State() == Answered(start, answers, |asked|) && shipped == old(shipped) + sent
        invariant Asked(log, batchSize, local, start, answers, asked)
        invariant |asked| > 0 ==> GoesOn(Answered(start, answers, |asked| - 1), AnswerAt(answers, |asked| - 1))
        decreases |answers| - |asked|
      {
        var k := |asked|;
        var request := NextRequest(log, local(k), cursor, batchSize);
        AskGrows(log, batchSize, local, start, answers, asked, request);
        asked := asked + [request];
        var response := AnswerAt(answers, k);
        var goesOn := GoesOn(Sink(cursor, shipped, failures, fatal), response);
        AnsweredStep(start, answers, k);
        AnswerIs(start, answers, k);
        var accepted := Take(response);
        sent := sent + accepted;
        if !goesOn {
          break;
        }
      }
      inFlight := false;
    }

    /** One answer. */
    method Take(response: Response) returns (accepted: nat)
      modifies this`cursor, this`shipped, this`failures, this`fatal
      ensures State() == Handle(old(State()), response)
      ensures shipped == old(shipped) + accepted
    {
      accepted := 0;
      match response
      case Accepted(size, count) =>
        cursor, shipped, failures, accepted := size, shipped + count, 0, count;
      case Gap(expected) =>
        if expected.Some? && expected.value != cursor {
          cursor := expected.value;
        } else {
          failures := failures + 1;
        }
      case RateLimited =>
      case Refused =>
        fatal := true;
      case Failed =>
        failures := failures + 1;
    }
  }

  function AnswerAt(answers: seq<Response>, k: nat): Response {
    if k < |answers| then answers[k] else Failed
  }

  /** The sender after `n` answers. */
  function Answered(sink: Sink, answers: seq<Response>, n: nat): Sink {
    if n == 0 then sink else Handle(Answered(sink, answers, n - 1), AnswerAt(answers, n - 1))
  }

  /** Request `k` is the batch at the cursor after `k` answers, each of which was to be gone on from. */
  predicate AskedAt(log: Text, batchSize: nat, local: nat -> seq<Json>, start: Sink, answers: seq<Response>,
                    asked: seq<Request>, k: nat)
    requires k < |asked| && batchSize > 0
  {
    var before := Answered(start, answers, k);
    && 0 <= before.cursor < |local(k)|
    && asked[k] == NextRequest(log, local(k), before.cursor, batchSize)
    && (k > 0 ==> GoesOn(Answered(start, answers, k - 1), AnswerAt(answers, k - 1)))
  }

  predicate Asked(log: Text, batchSize: nat, local: nat -> seq<Json>, start: Sink, answers: seq<Response>,
                  asked: seq<Request>)
    requires batchSize > 0
  {
    forall k | 0 <= k < |asked| :: AskedAt(log, batchSize, local, start, answers, asked, k)
  }

  lemma {:induction false} NothingAnswered(start: Sink, answers: seq<Response>)
    ensures Answered(start, answers, 0) == start
  {
  }

  lemma {:induction false} AnsweredStep(start: Sink, answers: seq<Response>, k: nat)
    ensures Answered(start, answers, k + 1) == Handle(Answered(start, answers, k), AnswerAt(answers, k))
  {
  }

  /** An answer that is gone on from was received, and leaves the cursor at a sequence number. */
  lemma {:induction false} AnswerIs(start: Sink, answers: seq<Response>, k: nat)
    requires forall i | 0 <= i < |answers| :: NonNegative(answers[i])
    ensures GoesOn(Answered(start, answers, k), AnswerAt(answers, k)) ==> k < |answers|
    ensures Answered(start, answers, k).cursor >= 0 ==> Handle(Answered(start, answers, k), AnswerAt(answers, k)).cursor >= 0
  {
    hide Answered;
  }

  lemma {:induction false} AskGrows(log: Text, batchSize: nat, local: nat -> seq<Json>, start: Sink, answers: seq<Response>,
                                    asked: seq<Request>, request: Request)
    requires batchSize > 0 && Asked(log, batchSize, local, start, answers, asked)
    requires 0 <= Answered(start, answers, |asked|).cursor < |local(|asked|)|
    requires request == NextRequest(log, local(|asked|), Answered(start, answers, |asked|).cursor, batchSize)
    requires |asked| > 0 ==> GoesOn(Answered(start, answers, |asked| - 1), AnswerAt(answers, |asked| - 1))
    ensures Asked(log, batchSize, local, start, answers, asked + [request])
  {
    hide Answered, AnswerAt, GoesOn, NextRequest;
    var more := asked + [request];
    forall k | 0 <= k < |more| ensures AskedAt(log, batchSize, local, start, answers, more, k) {
      if k < |asked| {
        assert AskedAt(log, batchSize, local, start, answers, asked, k);
      }
    }
  }

  predicate NonNegative(response: Response) {
    (response.Accepted? ==> response.size >= 0)
    && (response.Gap? && response.expected.Some? ==> response.expected.value >= 0)
  }
}
