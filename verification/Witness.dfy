/**
 * app.js `POST /v1/witness/cosign`, bin.js `witness-rebind`: the witness as a step
 * system. A request claims a position in one transaction; the signature is made
 * later, in any order, or never; an operator may rebind a log to another key.
 */
module Witnesses {
  import opened Wrappers
  import opened Hashing
  import opened Numbers
  import opened Canonical
  import opened JsonObjects
  import opened Utf8
  import opened Merkle
  import opened JsShifts
  import opened Receipts
  import opened Checkpoints
  import opened Positions

  /** The key a log's checkpoints must be signed with. */
  datatype Binding = Binding(kid: Text, publicKey: Text)

  /** What a request asks for. `offered` is a well-formed public key, with its key id. */
  datatype Request = Request(org: Text, body: Json, sigs: seq<Signed>, proof: Option<seq<Bytes>>, offered: Option<Binding>)

  /** A position claimed for an organisation's checkpoint, with the binding and the log signature it was claimed under. */
  datatype Claim = Claim(org: Text, body: Json, key: Binding, sig: Text)

  /** The rows of one witness, the requests still waiting for their signature, and the signatures given out. */
  datatype Rows = Rows(positions: map<Text, Position>, bindings: map<Text, Binding>, pending: seq<Claim>,
                       signed: seq<Claim>)

  datatype Event =
    | Requested(request: Request)
    | SignatureMade(index: nat)
    | SigningFailed(index: nat)
    | Rebound(org: Text, log: Text, key: Binding)

  /** `${org}:${log}` as the column holds it, under which the witness keeps a log's position and key. */
  function PositionKey(org: Text, log: Text): Text {
    Repaired(org + [COLON] + log)
  }

  function LogName(body: Json, c: Coercions): Text {
    match Get(body, LOG)
    case Some(Str(t)) => t
    case other => c.template(other)
  }

  function KeyOf(org: Text, body: Json, c: Coercions): Text {
    PositionKey(org, LogName(body, c))
  }

  /** `sigs.find((s) => s.role === 'log' && s.kid === kid)` */
  function FindLogSignature(sigs: seq<Signed>, kid: Text): (sig: Option<Text>)
    ensures sig.Some? ==> exists i | 0 <= i < |sigs| :: sigs[i] == Signed(LogRole, kid, sig.value)
  {
    if |sigs| == 0 then None
    else if sigs[0].role == LogRole && sigs[0].kid == kid then
      assert sigs[0] == Signed(LogRole, kid, sigs[0].sig);
      Some(sigs[0].sig)
    else
      var rest := FindLogSignature(sigs[1..], kid);
      assert forall i | 0 <= i < |sigs| - 1 :: sigs[1..][i] == sigs[i + 1];
      rest
  }

  /** The key the checkpoint must be signed with: the bound one, or on first use the one offered. */
  function RequiredKey(rows: Rows, request: Request, c: Coercions): Result<Binding, Refusal> {
    var position := KeyOf(request.org, request.body, c);
    if position in rows.bindings then
      if request.offered.Some? && request.offered.value.kid != rows.bindings[position].kid then Err(LogKeyMismatch)
      else Ok(rows.bindings[position])
    else if request.offered.None? then Err(MissingLogKey)
    else Ok(request.offered.value)
  }

  function LogSignature(request: Request, key: Binding, verifies: Verifier): Result<Text, Refusal> {
    match FindLogSignature(request.sigs, key.kid)
    case None => Err(BadLogSignature)
    case Some(sig) =>
      if SignedBy(request.body, key.publicKey, sig, verifies) then Ok(sig) else Err(BadLogSignature)
  }

  /** `witnessPosition` */
  function PriorAt(rows: Rows, position: Text): Option<Position> {
    if position in rows.positions then Some(rows.positions[position]) else None
  }

  /** The transaction: every check, in order, and the claim it makes when all pass. */
  function ClaimFor(rows: Rows, request: Request, verifies: Verifier, c: Coercions): Result<Claim, Refusal> {
    match RequiredKey(rows, request, c)
    case Err(refusal) => Err(refusal)
    case Ok(key) =>
      match LogSignature(request, key, verifies)
      case Err(refusal) => Err(refusal)
      case Ok(sig) =>
        match Refused(PriorAt(rows, KeyOf(request.org, request.body, c)), request.body, request.proof, c)
        case Some(refusal) => Err(refusal)
        case None => Ok(Claim(request.org, request.body, key, sig))
  }

  predicate Sized(claim: Claim, c: Coercions) {
    Recorded(claim.body, c).Some?
  }

  function PositionOf(claim: Claim, c: Coercions): Position
    requires Sized(claim, c)
  {
    Recorded(claim.body, c).value
  }

  function ClaimKey(claim: Claim, c: Coercions): Text {
    KeyOf(claim.org, claim.body, c)
  }

  function Claimed(rows: Rows, claim: Claim, c: Coercions): Rows
    requires Sized(claim, c)
  {
    var position := ClaimKey(claim, c);
    rows.(positions := rows.positions[position := PositionOf(claim, c)],
          bindings := rows.bindings[position := claim.key],
          pending := rows.pending + [claim])
  }

  lemma {:induction false} ClaimIs(rows: Rows, request: Request, verifies: Verifier, c: Coercions, claim: Claim)
    requires ClaimFor(rows, request, verifies, c) == Ok(claim)
    ensures claim.body == request.body && claim.org == request.org && Sized(claim, c)
    ensures Authentic(claim, verifies)
    ensures Signed(LogRole, claim.key.kid, claim.sig) in request.sigs
    ensures var position := ClaimKey(claim, c);
      && (position in rows.bindings ==> claim.key == rows.bindings[position])
      && Refused(PriorAt(rows, position), claim.body, request.proof, c) == None
  {
    hide SignedBy, Get, KeyOf, Extension, Recorded;
  }

  function Apply(rows: Rows, event: Event, verifies: Verifier, c: Coercions): Rows {
    match event
    case Requested(request) =>
      (match ClaimFor(rows, request, verifies, c)
       case Err(_) => rows
       case Ok(claim) => ClaimIs(rows, request, verifies, c, claim); Claimed(rows, claim, c))
    case SignatureMade(i) =>
      if i < |rows.pending| then
        rows.(pending := RemoveAt(rows.pending, i), signed := rows.signed + [rows.pending[i]])
      else rows
    case SigningFailed(i) =>
      if i < |rows.pending| then rows.(pending := RemoveAt(rows.pending, i)) else rows
    case Rebound(org, log, key) =>
      var position := PositionKey(org, log);
      if position !in rows.bindings && position !in rows.positions then rows
      else if position in rows.bindings && rows.bindings[position].kid == key.kid then rows
      else rows.(bindings := rows.bindings[position := key])
  }

  predicate Authentic(claim: Claim, verifies: Verifier) {
    SignedBy(claim.body, claim.key.publicKey, claim.sig, verifies)
  }

  // ---------------------------------------------------------------------- steps

  /** The request this step accepts, if it accepts one. */
  function Accepted(rows: Rows, event: Event, verifies: Verifier, c: Coercions): Option<Claim> {
    if event.Requested? then
      match ClaimFor(rows, event.request, verifies, c)
      case Ok(claim) => Some(claim)
      case Err(_) => None
    else None
  }

  /** An accepted request is the first for its log, or orderly: both sizes are numbers, growing to 2 to the 32 at most. */
  predicate OrderlyStep(rows: Rows, event: Event, verifies: Verifier, c: Coercions) {
    var claim := Accepted(rows, event, verifies, c);
    claim.Some? ==>
      var prior := PriorAt(rows, ClaimKey(claim.value, c));
      prior.Some? ==> Orderly(prior.value, claim.value.body, c)
  }

  /** No request of these offers a size past 2 to the 32. */
  predicate WithinBound(event: Event) {
    event.Requested? && OfferedSize(event.request.body).Some? && OfferedSize(event.request.body).value.Amount? ==>
      OfferedSize(event.request.body).value.value <= TWO_TO_32 as real
  }

  /**
   * A step shrinks no position and replaces no root at its size where the request it accepts for that log is
   * orderly, and, for sizes within the bound, nowhere else.
   */
  lemma {:induction false} PositionNeverShrinks(rows: Rows, event: Event, verifies: Verifier, c: Coercions, position: Text)
    requires Coherent(c) && position in rows.positions && IntactText(rows.positions[position].root)
    ensures position in Apply(rows, event, verifies, c).positions
    ensures var holds := Extends(rows.positions[position], Apply(rows, event, verifies, c).positions[position]);
      var claim := Accepted(rows, event, verifies, c);
      var orderly := claim.Some? && ClaimKey(claim.value, c) == position ==> Orderly(rows.positions[position], claim.value.body, c);
      (orderly ==> holds) && (WithinBound(event) && holds ==> orderly)
  {
    hide Refused, Recorded, SignedBy, KeyOf, ClaimFor, RemoveAt, PositionKey, Grows, Coherent, IntactText;
    var claim := Accepted(rows, event, verifies, c);
    if claim.Some? {
      ClaimIs(rows, event.request, verifies, c, claim.value);
      if ClaimKey(claim.value, c) == position {
        AllowedExtendsExactly(rows.positions[position], claim.value.body, event.request.proof, c);
      }
    }
  }

  /** A rebind changes one log's key and nothing else. */
  lemma {:induction false} RebindKeepsPositions(rows: Rows, event: Event, verifies: Verifier, c: Coercions)
    requires event.Rebound?
    ensures var next := Apply(rows, event, verifies, c);
      && next.positions == rows.positions && next.pending == rows.pending && next.signed == rows.signed
      && forall position | position in rows.bindings && position != PositionKey(event.org, event.log) ::
           position in next.bindings && next.bindings[position] == rows.bindings[position]
  {
    hide PositionKey;
  }

  // ----------------------------------------------------------------------- runs

  /** The claims a run has made, oldest first, and the state it has led to. */
  datatype History = History(rows: Rows, claims: seq<Claim>)

  function Step(history: History, event: Event, verifies: Verifier, c: Coercions): History {
    var claim := Accepted(history.rows, event, verifies, c);
    History(Apply(history.rows, event, verifies, c), history.claims + if claim.Some? then [claim.value] else [])
  }

  const FRESH := Rows(map[], map[], [], [])

  function Run(events: seq<Event>, verifies: Verifier, c: Coercions): History {
    if |events| == 0 then History(FRESH, [])
    else Step(Run(events[..|events| - 1], verifies, c), events[|events| - 1], verifies, c)
  }

  /** Every accepted request of the run was orderly when it came. */
  predicate OrderlyRun(events: seq<Event>, verifies: Verifier, c: Coercions) {
    |events| > 0 ==>
      var front := events[..|events| - 1];
      OrderlyRun(front, verifies, c) && OrderlyStep(Run(front, verifies, c).rows, events[|events| - 1], verifies, c)
  }

  /** Claim `i` is the last one made under a key. */
  predicate LastFor(claims: seq<Claim>, i: nat, position: Text, c: Coercions) {
    && i < |claims| && ClaimKey(claims[i], c) == position
    && forall j | i < j < |claims| :: ClaimKey(claims[j], c) != position
  }

  predicate Tracked(history: History, i: nat, position: Text, c: Coercions) {
    && LastFor(history.claims, i, position, c)
    && PriorAt(history.rows, position) == Recorded(history.claims[i].body, c)
  }

  /**
   * Whatever was asked: each position is that of the last claim for it, each claim carries its key's
   * signature, and only claims are signed.
   */
  ghost predicate Inv(history: History, verifies: Verifier, c: Coercions) {
    && (forall claim | claim in history.claims ::
          Sized(claim, c) && Authentic(claim, verifies) && ClaimKey(claim, c) in history.rows.positions)
    && (forall position | position in history.rows.positions :: exists i :: Tracked(history, i, position, c))
    && (forall claim | claim in history.rows.pending :: claim in history.claims)
    && (forall claim | claim in history.rows.signed :: claim in history.claims)
  }

  lemma {:induction false} ClaimStep(history: History, event: Event, verifies: Verifier, c: Coercions, claim: Claim)
    requires Inv(history, verifies, c) && Accepted(history.rows, event, verifies, c) == Some(claim)
    ensures Inv(Step(history, event, verifies, c), verifies, c)
  {
    hide SignedBy, Recorded, Refused, KeyOf, ClaimFor;
    ClaimIs(history.rows, event.request, verifies, c, claim);
    var next := Step(history, event, verifies, c);
    assert next == History(Claimed(history.rows, claim, c), history.claims + [claim]);
    forall position | position in next.rows.positions ensures exists i :: Tracked(next, i, position, c) {
      if position == ClaimKey(claim, c) {
        assert Tracked(next, |history.claims|, position, c);
      } else {
        var i :| Tracked(history, i, position, c);
        assert Tracked(next, i, position, c);
      }
    }
  }

  /** Signing, failing to sign, rebinding and a refusal move no position and make no claim. */
  lemma {:induction false} OtherStep(history: History, event: Event, verifies: Verifier, c: Coercions)
    requires Inv(history, verifies, c) && Accepted(history.rows, event, verifies, c) == None
    ensures Inv(Step(history, event, verifies, c), verifies, c)
    ensures Step(history, event, verifies, c).claims == history.claims
  {
    hide ClaimFor, Authentic, RemoveAt, Recorded, ClaimKey, PositionKey;
    var next := Step(history, event, verifies, c);
    assert next.rows.positions == history.rows.positions;
    forall position | position in next.rows.positions ensures exists i :: Tracked(next, i, position, c) {
      var i :| Tracked(history, i, position, c);
      assert Tracked(next, i, position, c);
    }
    forall claim | claim in next.rows.pending ensures claim in history.claims {
      if claim !in history.rows.pending {
        RemovedMember(history.rows.pending, event.index, claim);
      }
    }
  }

  /** Over every interleaving of requests, late or failed signatures and rebinds. */
  lemma {:induction false} RunKeepsInv(events: seq<Event>, verifies: Verifier, c: Coercions)
    ensures Inv(Run(events, verifies, c), verifies, c)
    decreases |events|
  {
    hide Step, Inv, Accepted;
    if |events| > 0 {
      RunKeepsInv(events[..|events| - 1], verifies, c);
      var history, event := Run(events[..|events| - 1], verifies, c), events[|events| - 1];
      var claim := Accepted(history.rows, event, verifies, c);
      if claim.Some? {
        ClaimStep(history, event, verifies, c, claim.value);
      } else {
        OtherStep(history, event, verifies, c);
      }
    } else {
      FreshInv(verifies, c);
    }
  }

  lemma {:induction false} FreshInv(verifies: Verifier, c: Coercions)
    ensures Inv(History(FRESH, []), verifies, c)
  {
  }

  /** Each claim is extended by every later one under the same key. */
  ghost predicate OneHistory(claims: seq<Claim>, c: Coercions) {
    forall i, j | 0 <= i < j < |claims| && ClaimKey(claims[i], c) == ClaimKey(claims[j], c) ::
      Sized(claims[i], c) && Sized(claims[j], c) && Extends(PositionOf(claims[i], c), PositionOf(claims[j], c))
  }

  lemma {:induction false} OneMoreClaim(history: History, event: Event, verifies: Verifier, c: Coercions, claim: Claim)
    requires Coherent(c) && Inv(history, verifies, c) && Accepted(history.rows, event, verifies, c) == Some(claim)
    ensures OneHistory(history.claims, c) && OrderlyStep(history.rows, event, verifies, c) ==>
              OneHistory(history.claims + [claim], c)
    ensures OneHistory(history.claims + [claim], c) ==>
              OneHistory(history.claims, c) && (WithinBound(event) ==> OrderlyStep(history.rows, event, verifies, c))
  {
    hide SignedBy, Recorded, Refused, KeyOf, ClaimFor, Orderly, Extends, OneHistory, Coherent, Authentic, IntactText;
    ClaimIs(history.rows, event.request, verifies, c, claim);
    var claims, position := history.claims, ClaimKey(claim, c);
    if position in history.rows.positions {
      var prior := history.rows.positions[position];
      var last: nat :| Tracked(history, last, position, c);
      assert claims[last] in claims && prior == PositionOf(claims[last], c);
      RecordedIntact(claims[last].body, c);
      AllowedExtendsExactly(prior, claim.body, event.request.proof, c);
      OneMoreAfter(claims, last, claim, c);
    } else {
      FirstOfItsKey(claims, claim, c);
    }
  }

  lemma {:induction false} OneMoreAfter(claims: seq<Claim>, last: nat, claim: Claim, c: Coercions)
    requires LastFor(claims, last, ClaimKey(claim, c), c) && Sized(claim, c)
    requires Sized(claims[last], c)
    ensures OneHistory(claims + [claim], c) <==>
            OneHistory(claims, c) && Extends(PositionOf(claims[last], c), PositionOf(claim, c))
  {
    hide Extends, ClaimKey, Recorded;
    var all := claims + [claim];
    assert forall i | 0 <= i < |claims| :: all[i] == claims[i];
    if OneHistory(all, c) {
      assert ClaimKey(all[last], c) == ClaimKey(all[|claims|], c);
      assert Extends(PositionOf(all[last], c), PositionOf(all[|claims|], c));
    }
    if OneHistory(claims, c) && Extends(PositionOf(claims[last], c), PositionOf(claim, c)) {
      forall i | 0 <= i < |claims| && ClaimKey(claims[i], c) == ClaimKey(claim, c)
        ensures Sized(claims[i], c) && Extends(PositionOf(claims[i], c), PositionOf(claim, c))
      {
        if i < last {
          ExtendsTransitive(PositionOf(claims[i], c), PositionOf(claims[last], c), PositionOf(claim, c));
        }
      }
    }
  }

  lemma {:induction false} FirstOfItsKey(claims: seq<Claim>, claim: Claim, c: Coercions)
    requires forall other | other in claims :: ClaimKey(other, c) != ClaimKey(claim, c)
    ensures OneHistory(claims + [claim], c) <==> OneHistory(claims, c)
  {
    hide Extends, ClaimKey, Recorded;
    var all := claims + [claim];
    assert forall i | 0 <= i < |claims| :: all[i] == claims[i] && claims[i] in claims;
  }

  predicate AllWithinBound(events: seq<Event>) {
    forall i | 0 <= i < |events| :: WithinBound(events[i])
  }

  /**
   * The claims of a run are one history for each position key where every accepted request was orderly, and, when
   * no size goes past the bound, nowhere else: over every interleaving of requests, late or failed signatures and
   * rebinds. `TwoHistoriesPastTheBound` is a run that goes past it.
   */
  lemma {:induction false} OneHistoryExactly(events: seq<Event>, verifies: Verifier, c: Coercions)
    requires Coherent(c)
    ensures OrderlyRun(events, verifies, c) ==> OneHistory(Run(events, verifies, c).claims, c)
    ensures AllWithinBound(events) && OneHistory(Run(events, verifies, c).claims, c) ==> OrderlyRun(events, verifies, c)
    decreases |events|
  {
    hide Inv, Accepted, OneHistory, Coherent, Apply, WithinBound;
    if |events| > 0 {
      var front, event := events[..|events| - 1], events[|events| - 1];
      OneHistoryExactly(front, verifies, c);
      RunKeepsInv(front, verifies, c);
      var history := Run(front, verifies, c);
      var claim := Accepted(history.rows, event, verifies, c);
      assert AllWithinBound(events) ==> AllWithinBound(front) && WithinBound(event);
      if claim.Some? {
        OneMoreClaim(history, event, verifies, c, claim.value);
      } else {
        assert history.claims + [] == history.claims;
      }
    } else {
      NoClaims(c);
    }
  }

  lemma {:induction false} NoClaims(c: Coercions)
    ensures OneHistory([], c)
  {
  }

  /**
   * What one witness has signed for one position key is one history: of any two signed bodies,
   * the larger extends the smaller, and each carried a valid signature of the key bound when it was claimed.
   */
  lemma {:induction false} SignedOneHistory(events: seq<Event>, verifies: Verifier, c: Coercions, a: Claim, b: Claim)
    requires Coherent(c) && OrderlyRun(events, verifies, c)
    requires a in Run(events, verifies, c).rows.signed && b in Run(events, verifies, c).rows.signed
    requires ClaimKey(a, c) == ClaimKey(b, c)
    ensures Sized(a, c) && Sized(b, c)
    ensures Extends(PositionOf(a, c), PositionOf(b, c)) || Extends(PositionOf(b, c), PositionOf(a, c))
    ensures Authentic(a, verifies) && Authentic(b, verifies)
  {
    hide Run, Extends, Authentic, OrderlyRun, Coherent, Recorded, ClaimKey;
    RunKeepsInv(events, verifies, c);
    OneHistoryExactly(events, verifies, c);
    var claims := Run(events, verifies, c).claims;
    var i :| 0 <= i < |claims| && claims[i] == a;
    var j :| 0 <= j < |claims| && claims[j] == b;
    if i == j {
      ExtendsItself(PositionOf(a, c));
    }
  }

  lemma {:induction false} ExtendsItself(p: Position)
    ensures Extends(p, p)
  {
  }

  // ------------------------------------------------------------- sizes as texts

  /** A run whose requests all offer a number up to 2 to the 32 as the size is orderly. */
  lemma {:induction false} NumbersAreOrderly(events: seq<Event>, verifies: Verifier, c: Coercions)
    requires forall i | 0 <= i < |events| && events[i].Requested? ::
               OfferedSize(events[i].request.body).Some? ==> OfferedSize(events[i].request.body).value.Amount?
    requires AllWithinBound(events)
    ensures OrderlyRun(events, verifies, c)
    ensures forall position | position in Run(events, verifies, c).rows.positions ::
              Run(events, verifies, c).rows.positions[position].size.Amount?
    decreases |events|
  {
    hide ClaimFor, KeyOf, Refused, OfferedSize, PositionKey;
    if |events| > 0 {
      var front, event := events[..|events| - 1], events[|events| - 1];
      NumbersAreOrderly(front, verifies, c);
      var rows := Run(front, verifies, c).rows;
      var claim := Accepted(rows, event, verifies, c);
      if claim.Some? {
        ClaimIs(rows, event.request, verifies, c, claim.value);
      }
    }
  }

  const FIVE_TEXT: Text := [Unit(0x35)]
  const FIVE := Num(Decimal(false, [5], 0))

  function SizedBody(size: Json, root: Text): Json {
    Obj([Field(ROOT, Str(root)), Field(SIZE, size)])
  }

  /** A first request or a repeated one, by the holder of the log's key. */
  function Asking(org: Text, size: Json, root: Text, proof: Option<seq<Bytes>>, key: Binding, sign: Json -> Text): Event {
    var body := SizedBody(size, root);
    Requested(Request(org, body, [Signed(LogRole, key.kid, sign(body))], proof, Some(key)))
  }

  predicate Holds(key: Binding, sign: Json -> Text, verifies: Verifier, body: Json) {
    SignedBy(body, key.publicKey, sign(body), verifies)
  }

  lemma {:induction false} SizedBodyReads(size: Json, root: Text)
    ensures Get(SizedBody(size, root), SIZE) == Some(size) && Get(SizedBody(size, root), ROOT) == Some(Str(root))
    ensures Get(SizedBody(size, root), LOG) == None
  {
    var fields := SizedBody(size, root).fields;
    assert ROOT[0] != SIZE[0] && ROOT[0] != LOG[0] && SIZE[0] != LOG[0];
    assert fields[1..] == [fields[1]] && fields[1..][1..] == [];
    assert Lookup(fields[1..], SIZE) == Some(size) && Lookup(fields[1..], LOG) == None;
  }

  lemma {:induction false} AskedIsClaimed(rows: Rows, org: Text, size: Json, root: Text, proof: Option<seq<Bytes>>, key: Binding,
                                          sign: Json -> Text,
                                          verifies: Verifier, c: Coercions)
    requires var position := PositionKey(org, c.template(None));
      && (position in rows.bindings ==> rows.bindings[position] == key)
      && Refused(PriorAt(rows, position), SizedBody(size, root), proof, c) == None
    requires Holds(key, sign, verifies, SizedBody(size, root))
    ensures var claim, next := Claim(org, SizedBody(size, root), key, sign(SizedBody(size, root))),
                               Apply(rows, Asking(org, size, root, proof, key, sign), verifies, c);
      && Sized(claim, c) && ClaimKey(claim, c) == PositionKey(org, c.template(None))
      && next == Claimed(rows, claim, c)
  {
    hide Refused, Recorded, SignedBy, PositionKey, Get;
    SizedBodyReads(size, root);
    var request := Asking(org, size, root, proof, key, sign).request;
    assert KeyOf(org, request.body, c) == PositionKey(org, c.template(None));
    assert ClaimFor(rows, request, verifies, c) == Ok(Claim(org, request.body, key, sign(request.body)));
    ClaimIs(rows, request, verifies, c, Claim(org, request.body, key, sign(request.body)));
  }

  lemma {:induction false} RunStep(events: seq<Event>, event: Event, verifies: Verifier, c: Coercions)
    ensures Run(events + [event], verifies, c) == Step(Run(events, verifies, c), event, verifies, c)
  {
    hide Step;
    assert (events + [event])[..|events|] == events;
  }

  /** What the rows hold for the log of these requests, once `held` was claimed for it. */
  predicate Holding(rows: Rows, org: Text, key: Binding, held: Position, c: Coercions) {
    var position := PositionKey(org, c.template(None));
    && position in rows.positions && rows.positions[position] == held
    && position in rows.bindings && rows.bindings[position] == key
  }

  lemma {:induction false} AskedIsHeld(rows: Rows, org: Text, size: Json, root: Text, proof: Option<seq<Bytes>>, key: Binding,
                                          sign: Json -> Text,
                                       verifies: Verifier, c: Coercions, prior: Option<Position>)
    requires Holds(key, sign, verifies, SizedBody(size, root))
    requires match prior
             case None => rows.positions == map[] && rows.bindings == map[]
             case Some(held) => Holding(rows, org, key, held, c)
    requires Refused(prior, SizedBody(size, root), proof, c) == None
    ensures var claim, next := Claim(org, SizedBody(size, root), key, sign(SizedBody(size, root))),
                               Apply(rows, Asking(org, size, root, proof, key, sign), verifies, c);
      && Sized(claim, c) && ClaimKey(claim, c) == PositionKey(org, c.template(None))
      && Holding(next, org, key, PositionOf(claim, c), c)
      && next.pending == rows.pending + [claim] && next.signed == rows.signed
  {
    hide Refused, Recorded, Apply, Holds, PositionKey;
    AskedIsClaimed(rows, org, size, root, proof, key, sign, verifies, c);
  }

  lemma {:induction false} FiveAllowed(prior: Option<Position>, root: Text, c: Coercions)
    requires Repaired(root) == root && (prior.None? || prior == Some(Position(Amount(5.0), root)))
    ensures Refused(prior, SizedBody(FIVE, root), None, c) == None
    ensures Recorded(SizedBody(FIVE, root), c) == Some(Position(Amount(5.0), root))
  {
    hide Get, SizedBody, Repaired;
    SizedBodyReads(FIVE, root);
    assert Value(FIVE.number) == 5.0 by {
      assert DigitsValue([5]) == 10 * DigitsValue([5][..0]) + 5;
    }
  }

  /** Size 5, the text "5" with another root, then size 5 with that root: the witness signs both roots at size 5. */
  lemma {:induction false} TwoRootsAtOneSize(org: Text, key: Binding, sign: Json -> Text, first: Text, second: Text,
                                             verifies: Verifier, c: Coercions)
    requires Coherent(c) && c.column(FIVE_TEXT) == Amount(5.0) && IntactText(first) && IntactText(second)
    requires forall body :: Holds(key, sign, verifies, body)
    ensures var events := [Asking(org, FIVE, first, None, key, sign), SignatureMade(0)]
                          + [Asking(org, Str(FIVE_TEXT), second, None, key, sign)]
                          + [Asking(org, FIVE, second, None, key, sign)] + [SignatureMade(1)];
      var signed := Run(events, verifies, c).rows.signed;
      && |signed| == 2 && ClaimKey(signed[0], c) == ClaimKey(signed[1], c)
      && Recorded(signed[0].body, c) == Some(Position(Amount(5.0), first))
      && Recorded(signed[1].body, c) == Some(Position(Amount(5.0), second))
  {
    hide Holds, Refused, Recorded, Holding, ClaimKey, Asking, SizedBody, Repaired;
    var held, swapped := Position(Amount(5.0), first), Position(Amount(5.0), second);
    var e1 := [Asking(org, FIVE, first, None, key, sign)];
    FiveAllowed(None, first, c);
    AskedIsHeld(FRESH, org, FIVE, first, None, key, sign, verifies, c, None);
    assert [] + e1 == e1;
    RunStep([], e1[0], verifies, c);
    RunStep(e1, SignatureMade(0), verifies, c);
    var e2 := e1 + [SignatureMade(0)];
    assert e2 == [Asking(org, FIVE, first, None, key, sign), SignatureMade(0)];
    var asked := Str(FIVE_TEXT);
    SizedBodyReads(asked, second);
    TextSizeReplacesRoot(held, SizedBody(asked, second), FIVE_TEXT, second, None, c);
    SignedHolds(Run(e1, verifies, c).rows, 0, org, key, held, verifies, c);
    AskedIsHeld(Run(e2, verifies, c).rows, org, asked, second, None, key, sign, verifies, c, Some(held));
    var e3 := e2 + [Asking(org, asked, second, None, key, sign)];
    RunStep(e2, Asking(org, asked, second, None, key, sign), verifies, c);
    FiveAllowed(Some(swapped), second, c);
    AskedIsHeld(Run(e3, verifies, c).rows, org, FIVE, second, None, key, sign, verifies, c, Some(swapped));
    RunStep(e3, Asking(org, FIVE, second, None, key, sign), verifies, c);
    RunStep(e3 + [Asking(org, FIVE, second, None, key, sign)], SignatureMade(1), verifies, c);
  }

  lemma {:induction false} SignedHolds(rows: Rows, i: nat, org: Text, key: Binding, held: Position, verifies: Verifier,
                                       c: Coercions)
    requires Holding(rows, org, key, held, c)
    ensures Holding(Apply(rows, SignatureMade(i), verifies, c), org, key, held, c)
  {
    hide PositionKey;
  }

  // ---------------------------------------------------------- past 2 to the 32

  lemma {:induction false} IntegerBody(n: int, root: Text, c: Coercions)
    requires IntactText(root)
    ensures var body := SizedBody(Num(FromInt(n)), root);
      && SizeOf(body) == Some(n) && Get(body, ROOT) == Some(Str(root))
      && Recorded(body, c) == Some(Position(Amount(n as real), root))
  {
    hide Get, FromInt, AsInt, Repaired, SizedBody;
    SizedBodyReads(Num(FromInt(n)), root);
    AsIntFromInt(n);
    IntegerRecorded(SizedBody(Num(FromInt(n)), root), n, root, c);
  }

  /**
   * For every list of more than 2 to the 32 leaf hashes: a root at size 1, and then the root of the list with a proof
   * that is too short. The witness signs both, and the second does not extend the first.
   */
  lemma {:induction false} TwoHistoriesPastTheBound(org: Text, key: Binding, sign: Json -> Text, leaves: seq<Digest>, data: Bytes,
                                                    verifies: Verifier, c: Coercions)
    returns (first: Text, proof: seq<Bytes>)
    requires |leaves| > TWO_TO_32 && leaves[0] == LeafHash(data)
    requires forall body :: Holds(key, sign, verifies, body)
    ensures var events := [Asking(org, Num(FromInt(1)), first, None, key, sign), SignatureMade(0)]
                          + [Asking(org, Num(FromInt(|leaves|)), Raw(MerkleRoot(leaves)), Some(proof), key, sign)]
                          + [SignatureMade(0)];
      var signed := Run(events, verifies, c).rows.signed;
      && |signed| == 2 && ClaimKey(signed[0], c) == ClaimKey(signed[1], c)
      && Recorded(signed[0].body, c) == Some(Position(Amount(1.0), first))
      && Recorded(signed[1].body, c) == Some(Position(Amount(|leaves| as real), Raw(MerkleRoot(leaves))))
      && !Extends(Recorded(signed[0].body, c).value, Recorded(signed[1].body, c).value)
  {
    hide Holds, Refused, Recorded, Holding, ClaimKey, Asking, SizedBody, Repaired, MerkleRoot, Raw, FromInt, GrowthAccepted,
      Extends, LeafHash, SizeOf, Get;
    var prior: Position;
    prior, proof := GrowthPastTheBound(leaves, data);
    first := prior.root;
    var one, many, root := Num(FromInt(1)), Num(FromInt(|leaves|)), Raw(MerkleRoot(leaves));
    IntegerBody(1, first, c);
    IntegerBody(|leaves|, root, c);
    FirstAllowed(SizedBody(one, first), c);
    GrowthIsAllowed(prior, SizedBody(many, root), |leaves|, root, proof, c);
    var e1 := [Asking(org, one, first, None, key, sign)];
    AskedIsHeld(FRESH, org, one, first, None, key, sign, verifies, c, None);
    assert [] + e1 == e1;
    RunStep([], e1[0], verifies, c);
    RunStep(e1, SignatureMade(0), verifies, c);
    var e2 := e1 + [SignatureMade(0)];
    assert e2 == [Asking(org, one, first, None, key, sign), SignatureMade(0)];
    SignedHolds(Run(e1, verifies, c).rows, 0, org, key, prior, verifies, c);
    AskedIsHeld(Run(e2, verifies, c).rows, org, many, root, Some(proof), key, sign, verifies, c, Some(prior));
    RunStep(e2, Asking(org, many, root, Some(proof), key, sign), verifies, c);
    RunStep(e2 + [Asking(org, many, root, Some(proof), key, sign)], SignatureMade(0), verifies, c);
  }

  lemma {:induction false} FirstAllowed(body: Json, c: Coercions)
    requires Recorded(body, c).Some?
    ensures Refused(None, body, None, c) == None
  {
    hide Recorded;
  }
}
