/**
 * receipt.js: receipts, what their signatures cover, and the checks of one
 * receipt and of a run of receipts. A receipt is a JSON object as it was parsed,
 * so fields this code never reads are signed and hashed like the rest.
 */
module Receipts {
  import opened Wrappers
  import opened Hashing
  import opened Numbers
  import opened Canonical
  import opened JsonObjects
  import opened Utf8
  import opened JsonBytes

  /** Key id to public key. */
  type Keyring = map<Text, Text>

  /** Whether the signature that a text spells, over a message, verifies under a public key. */
  type Verifier = (Text, Bytes, Text) -> bool

  predicate Base64url(t: Text) {
    forall i | 0 <= i < |t| ::
      t[i].Unit? && (0x30 <= t[i].code < 0x3A || 0x41 <= t[i].code < 0x5B || 0x61 <= t[i].code < 0x7B
                     || t[i].code == 0x2D || t[i].code == 0x5F)
  }

  /** `verify`: false for a signature that is not base64url. */
  predicate Verified(key: Text, message: Bytes, sig: Text, verifies: Verifier) {
    Base64url(sig) && verifies(key, message, sig)
  }

  const V: Plain := [0x76]
  const LOG: Plain := [0x6C, 0x6F, 0x67]
  const SEQ: Plain := [0x73, 0x65, 0x71]
  const PREV: Plain := [0x70, 0x72, 0x65, 0x76]
  const TS: Plain := [0x74, 0x73]
  const PHASE: Plain := [0x70, 0x68, 0x61, 0x73, 0x65]
  const REF: Plain := [0x72, 0x65, 0x66]
  const ACTOR: Plain := [0x61, 0x63, 0x74, 0x6F, 0x72]
  const ACTION: Plain := [0x61, 0x63, 0x74, 0x69, 0x6F, 0x6E]
  const DECISION: Plain := [0x64, 0x65, 0x63, 0x69, 0x73, 0x69, 0x6F, 0x6E]
  const RESULT: Plain := [0x72, 0x65, 0x73, 0x75, 0x6C, 0x74]
  const ATTEST: Plain := [0x61, 0x74, 0x74, 0x65, 0x73, 0x74]
  const PRINCIPAL: Plain := [0x70, 0x72, 0x69, 0x6E, 0x63, 0x69, 0x70, 0x61, 0x6C]
  const AGENT: Plain := [0x61, 0x67, 0x65, 0x6E, 0x74]
  const SESSION: Plain := [0x73, 0x65, 0x73, 0x73, 0x69, 0x6F, 0x6E]
  const KIND: Plain := [0x6B, 0x69, 0x6E, 0x64]
  const TARGET: Plain := [0x74, 0x61, 0x72, 0x67, 0x65, 0x74]
  const OUTCOME: Plain := [0x6F, 0x75, 0x74, 0x63, 0x6F, 0x6D, 0x65]
  const ALG: Plain := [0x61, 0x6C, 0x67]
  const KID: Plain := [0x6B, 0x69, 0x64]
  const SIG: Plain := [0x73, 0x69, 0x67]

  const ED25519: Plain := [0x65, 0x64, 0x32, 0x35, 0x35, 0x31, 0x39]
  const ATOMIC: Plain := [0x61, 0x74, 0x6F, 0x6D, 0x69, 0x63]
  const INTENT: Plain := [0x69, 0x6E, 0x74, 0x65, 0x6E, 0x74]

  const RECEIPT_VERSION := 1

  /** `prev` of the first entry: 32 zero bytes. */
  function GenesisPrev(): Text {
    seq(DIGEST_LENGTH, _ => Unit(0))
  }

  function Word(s: Plain): Json {
    Str(Lift(s))
  }

  function IntOf(value: Option<Json>): Option<int> {
    match value
    case Some(Num(n)) => AsInt(n)
    case _ => None
  }

  function TextAt(value: Option<Json>): Option<Text> {
    match value
    case Some(Str(text)) => Some(text)
    case _ => None
  }

  function SeqOf(receipt: Json): Option<int> {
    IntOf(Get(receipt, SEQ))
  }

  function PrevOf(receipt: Json): Option<Text> {
    TextAt(Get(receipt, PREV))
  }

  function TimeOf(receipt: Json): Option<Text> {
    TextAt(Get(receipt, TS))
  }

  // --------------------------------------------------------------------- hashes

  /** The object without its attestation: what the signature covers. */
  function BodyOf(receipt: Json): Json {
    if receipt.Obj? then Obj(Without(receipt.fields, ATTEST)) else receipt
  }

  function ReceiptDigest(body: Json): Digest {
    Sha256(RECEIPT_PREFIX + CanonicalBytes(BodyOf(body)))
  }

  /** What identifies a receipt, links the next one to it and is its Merkle leaf. */
  function EntryHash(receipt: Json): Digest {
    LeafHash(CanonicalBytes(receipt))
  }

  /** The hash of an entry determines every field of it, unpaired surrogates aside. */
  lemma {:induction false} EntryHashExactly(a: Json, b: Json)
    ensures EntryHash(a) == EntryHash(b) <==> RepairedJson(a) == RepairedJson(b)
  {
    hide CanonicalBytes, RepairedJson;
    SameBytesExactly(a, b);
    if EntryHash(a) == EntryHash(b) {
      LeafHashInjective(CanonicalBytes(a), CanonicalBytes(b));
    }
  }

  /** So does what its signature covers, for all but the attestation. */
  lemma {:induction false} ReceiptDigestExactly(a: Json, b: Json)
    ensures ReceiptDigest(a) == ReceiptDigest(b) <==> RepairedJson(BodyOf(a)) == RepairedJson(BodyOf(b))
  {
    hide CanonicalBytes, RepairedJson;
    SameBytesExactly(BodyOf(a), BodyOf(b));
    if ReceiptDigest(a) == ReceiptDigest(b) {
      var x, y := RECEIPT_PREFIX + CanonicalBytes(BodyOf(a)), RECEIPT_PREFIX + CanonicalBytes(BodyOf(b));
      assert CanonicalBytes(BodyOf(a)) == x[1..] == y[1..] == CanonicalBytes(BodyOf(b));
    }
  }

  // ------------------------------------------------------------------ one receipt

  datatype IssueKind = Format | UnknownKey | Signature | Sequence | Chain | Time

  predicate Filled(value: Option<Json>) {
    TextAt(value).Some? && TextAt(value) != Some([])
  }

  predicate FieldsFilled(receipt: Json) {
    && Filled(Get(receipt, TS))
    && Filled(GetIn(receipt, ACTOR, PRINCIPAL))
    && Filled(GetIn(receipt, ACTOR, AGENT))
    && Filled(GetIn(receipt, ACTOR, SESSION))
    && Filled(GetIn(receipt, ACTION, KIND))
    && Filled(GetIn(receipt, ACTION, TARGET))
    && Filled(GetIn(receipt, DECISION, OUTCOME))
  }

  predicate PhaseKnown(phase: Option<Json>) {
    phase == Some(Word(ATOMIC)) || phase == Some(Word(INTENT)) || phase == Some(Word(OUTCOME))
  }

  /** The fields a hub stores in columns that must not be null, and a known version and phase. */
  predicate WellFormed(receipt: Json) {
    && IntOf(Get(receipt, V)) == Some(RECEIPT_VERSION)
    && FieldsFilled(receipt)
    && PhaseKnown(Get(receipt, PHASE))
  }

  predicate Attested(receipt: Json) {
    GetIn(receipt, ATTEST, ALG) == Some(Word(ED25519)) && TextAt(GetIn(receipt, ATTEST, SIG)).Some?
  }

  /** The public key the keyring holds for the receipt's key id. */
  function KeyFor(receipt: Json, keyring: Keyring): Option<Text> {
    match TextAt(GetIn(receipt, ATTEST, KID))
    case Some(kid) => if kid in keyring then Some(keyring[kid]) else None
    case None => None
  }

  predicate SignatureHolds(receipt: Json, key: Text, verifies: Verifier)
    requires Attested(receipt)
  {
    Verified(key, Raw(ReceiptDigest(receipt)), TextAt(GetIn(receipt, ATTEST, SIG)).value, verifies)
  }

  predicate ReceiptSound(receipt: Json, keyring: Keyring, verifies: Verifier) {
    && WellFormed(receipt)
    && Attested(receipt)
    && KeyFor(receipt, keyring).Some?
    && SignatureHolds(receipt, KeyFor(receipt, keyring).value, verifies)
  }

  /** No issue exactly when the receipt is sound, and each kind of issue for its own reason only. */
  method VerifyReceipt(receipt: Json, keyring: Keyring, verifies: Verifier) returns (issues: seq<IssueKind>)
    ensures issues == [] <==> ReceiptSound(receipt, keyring, verifies)
    ensures Format in issues <==> !WellFormed(receipt) || !Attested(receipt)
    ensures UnknownKey in issues <==> Attested(receipt) && KeyFor(receipt, keyring).None?
    ensures Signature in issues <==>
            Attested(receipt) && KeyFor(receipt, keyring).Some?
            && !SignatureHolds(receipt, KeyFor(receipt, keyring).value, verifies)
    ensures Sequence !in issues && Chain !in issues && Time !in issues
  {
    hide Get, GetIn, IntOf, TextAt, PhaseKnown, KeyFor, SignatureHolds, Attested;
    issues := [];
    if IntOf(Get(receipt, V)) != Some(RECEIPT_VERSION) {
      issues := issues + [Format];
    }
    var required := [Get(receipt, TS),
                     GetIn(receipt, ACTOR, PRINCIPAL), GetIn(receipt, ACTOR, AGENT), GetIn(receipt, ACTOR, SESSION),
                     GetIn(receipt, ACTION, KIND), GetIn(receipt, ACTION, TARGET), GetIn(receipt, DECISION, OUTCOME)];
    RequiredFields(receipt, required);
    for i := 0 to |required|
      invariant forall issue | issue in issues :: issue == Format
      invariant issues == [] <==>
        IntOf(Get(receipt, V)) == Some(RECEIPT_VERSION) && forall j | 0 <= j < i :: Filled(required[j])
    {
      if !Filled(required[i]) {
        issues := issues + [Format];
      }
    }
    if !PhaseKnown(Get(receipt, PHASE)) {
      issues := issues + [Format];
    }
    assert issues == [] <==> WellFormed(receipt);
    assert Format in issues <==> issues != [] by {
      assert issues != [] ==> issues[0] in issues;
    }
    if !Attested(receipt) {
      issues := issues + [Format];
      return;
    }
    var key := KeyFor(receipt, keyring);
    if key.None? {
      issues := issues + [UnknownKey];
      return;
    }
    if !SignatureHolds(receipt, key.value, verifies) {
      issues := issues + [Signature];
    }
  }

  lemma {:induction false} RequiredFields(receipt: Json, required: seq<Option<Json>>)
    requires required == [Get(receipt, TS),
      GetIn(receipt, ACTOR, PRINCIPAL), GetIn(receipt, ACTOR, AGENT), GetIn(receipt, ACTOR, SESSION),
      GetIn(receipt, ACTION, KIND), GetIn(receipt, ACTION, TARGET), GetIn(receipt, DECISION, OUTCOME)]
    ensures FieldsFilled(receipt) <==> forall j | 0 <= j < |required| :: Filled(required[j])
  {
    hide Filled, Get, GetIn;
    assert |required| == 7;
    if forall j | 0 <= j < |required| :: Filled(required[j]) {
      assert Filled(required[0]) && Filled(required[1]) && Filled(required[2]) && Filled(required[3]);
      assert Filled(required[4]) && Filled(required[5]) && Filled(required[6]);
    }
  }

  // ------------------------------------------------------------------ a whole run

  /** String order; bytes of a digest are not ordered. */
  predicate TextLess(a: Text, b: Text) {
    && |b| > 0
    && (|a| == 0
        || (a[0].Unit? && b[0].Unit? && a[0].code < b[0].code)
        || (a[0] == b[0] && TextLess(a[1..], b[1..])))
  }

  predicate Earlier(a: Option<Text>, b: Option<Text>) {
    a.Some? && b.Some? && TextLess(a.value, b.value)
  }

  /** The chain hash after a run that starts from `start`. */
  function HeadOf(receipts: seq<Json>, start: Text): Text {
    if |receipts| == 0 then start else Raw(EntryHash(receipts[|receipts| - 1]))
  }

  predicate Linked(receipts: seq<Json>, i: nat, start: Text)
    requires i < |receipts|
  {
    PrevOf(receipts[i]) == Some(if i == 0 then start else Raw(EntryHash(receipts[i - 1])))
  }

  predicate Numbered(receipts: seq<Json>, i: nat, expectSeq: int)
    requires i < |receipts|
  {
    SeqOf(receipts[i]) == Some(expectSeq + i)
  }

  predicate InTime(receipts: seq<Json>, i: nat)
    requires i < |receipts|
  {
    i > 0 ==> !Earlier(TimeOf(receipts[i]), TimeOf(receipts[i - 1]))
  }

  predicate LinkSound(receipts: seq<Json>, i: nat, keyring: Keyring, verifies: Verifier, expectSeq: int, start: Text)
    requires i < |receipts|
  {
    && ReceiptSound(receipts[i], keyring, verifies)
    && Numbered(receipts, i, expectSeq)
    && Linked(receipts, i, start)
    && InTime(receipts, i)
  }

  predicate ChainSound(receipts: seq<Json>, keyring: Keyring, verifies: Verifier, expectSeq: int, start: Text) {
    forall i | 0 <= i < |receipts| :: LinkSound(receipts, i, keyring, verifies, expectSeq, start)
  }

  /**
   * No issue exactly when every receipt is sound and is the next one of the chain. A broken
   * link is reported as such whatever else is wrong, before or after it.
   */
  method VerifyChain(receipts: seq<Json>, keyring: Keyring, verifies: Verifier, expectSeq: int, start: Text)
    returns (issues: seq<IssueKind>, head: Text)
    ensures issues == [] <==> ChainSound(receipts, keyring, verifies, expectSeq, start)
    ensures Chain in issues <==> exists i | 0 <= i < |receipts| :: !Linked(receipts, i, start)
    ensures head == HeadOf(receipts, start)
  {
    hide ReceiptSound, SeqOf, PrevOf, TimeOf, TextLess, EntryHash, Raw, WellFormed, Attested, KeyFor, SignatureHolds;
    issues := [];
    head := start;
    var expected, last := Some(expectSeq), None;
    for k := 0 to |receipts|
      invariant head == HeadOf(receipts[..k], start)
      invariant issues == [] ==> expected == Some(expectSeq + k)
      invariant last == if k == 0 then None else TimeOf(receipts[k - 1])
      invariant issues == [] <==> forall i | 0 <= i < k :: LinkSound(receipts, i, keyring, verifies, expectSeq, start)
      invariant Chain in issues <==> exists i | 0 <= i < k :: !Linked(receipts, i, start)
    {
      var receipt := receipts[k];
      var own := VerifyReceipt(receipt, keyring, verifies);
      if SeqOf(receipt).None? || SeqOf(receipt) != expected {
        own := own + [Sequence];
      }
      var linked := PrevOf(receipt) == Some(head);
      if !linked {
        own := own + [Chain];
      }
      if Earlier(TimeOf(receipt), last) {
        own := own + [Time];
      }
      assert issues == [] ==> (own == [] <==> LinkSound(receipts, k, keyring, verifies, expectSeq, start));
      assert Chain in own <==> !Linked(receipts, k, start);
      issues := issues + own;
      last := TimeOf(receipt);
      head := Raw(EntryHash(receipt));
      expected := if SeqOf(receipt).Some? then Some(SeqOf(receipt).value + 1) else None;
    }
    assert receipts[..|receipts|] == receipts;
  }

  lemma {:induction false} ChainUnfold(receipts: seq<Json>, keyring: Keyring, verifies: Verifier, expectSeq: int,
                                       start: Text, i: nat)
    requires ChainSound(receipts, keyring, verifies, expectSeq, start) && i < |receipts|
    ensures ReceiptSound(receipts[i], keyring, verifies)
    ensures SeqOf(receipts[i]) == Some(expectSeq + i)
    ensures PrevOf(receipts[i]) == Some(HeadOf(receipts[..i], start))
  {
    hide ReceiptSound, SeqOf, PrevOf, EntryHash, Raw;
    assert LinkSound(receipts, i, keyring, verifies, expectSeq, start);
  }

  /**
   * Two runs from one start with one head are one run, unpaired surrogates aside: nothing can be removed,
   * added or reordered.
   */
  lemma {:induction false} HeadDeterminesChain(a: seq<Json>, b: seq<Json>, ka: Keyring, kb: Keyring,
                                               verifies: Verifier, expectSeq: int, start: Text)
    requires ChainSound(a, ka, verifies, expectSeq, start) && ChainSound(b, kb, verifies, expectSeq, start)
    requires |a| > 0 && |b| > 0 && HeadOf(a, start) == HeadOf(b, start)
    ensures RepairedItems(a) == RepairedItems(b)
  {
    hide *;
    LastShared(a, b, start);
    ChainUnfold(a, ka, verifies, expectSeq, start, |a| - 1);
    ChainUnfold(b, kb, verifies, expectSeq, start, |b| - 1);
    SeqShared(a[|a| - 1], b[|b| - 1]);
    PrefixesAgree(a, b, ka, kb, verifies, expectSeq, start, |a|);
    ItemsAlike(a, b);
  }

  lemma {:induction false} LastShared(a: seq<Json>, b: seq<Json>, start: Text)
    requires |a| > 0 && |b| > 0 && HeadOf(a, start) == HeadOf(b, start)
    ensures RepairedJson(a[|a| - 1]) == RepairedJson(b[|b| - 1])
  {
    hide EntryHash, Raw, RepairedJson;
    RawInjective(EntryHash(a[|a| - 1]), EntryHash(b[|b| - 1]));
    EntryHashExactly(a[|a| - 1], b[|b| - 1]);
  }

  lemma {:induction false} SeqShared(a: Json, b: Json)
    requires RepairedJson(a) == RepairedJson(b)
    ensures SeqOf(a) == SeqOf(b)
  {
    hide AsInt, Get;
    GetRepaired(a, SEQ);
    GetRepaired(b, SEQ);
  }

  /** Receipts with the same bytes link to the same receipt. */
  lemma {:induction false} PrevShared(a: Json, b: Json, before: Digest, other: Digest)
    requires RepairedJson(a) == RepairedJson(b)
    requires PrevOf(a) == Some(Raw(before)) && PrevOf(b) == Some(Raw(other))
    ensures before == other
  {
    hide Get, Raw, Repaired;
    GetRepaired(a, PREV);
    GetRepaired(b, PREV);
    RawPlain(before);
    RawPlain(other);
    RawInjective(before, other);
  }

  lemma {:induction false} RawPlain(digest: Digest)
    ensures Repaired(Raw(digest)) == Raw(digest)
  {
    hide Repaired;
    PlainRepairs(Raw(digest));
  }

  lemma {:induction false} PrefixesAgree(a: seq<Json>, b: seq<Json>, ka: Keyring, kb: Keyring,
                                         verifies: Verifier, expectSeq: int, start: Text, n: nat)
    requires ChainSound(a, ka, verifies, expectSeq, start) && ChainSound(b, kb, verifies, expectSeq, start)
    requires n <= |a| && |a| == |b| && (n > 0 ==> RepairedJson(a[n - 1]) == RepairedJson(b[n - 1]))
    ensures forall i | 0 <= i < n :: RepairedJson(a[i]) == RepairedJson(b[i])
    decreases n
  {
    hide *;
    if n > 1 {
      ChainUnfold(a, ka, verifies, expectSeq, start, n - 1);
      ChainUnfold(b, kb, verifies, expectSeq, start, n - 1);
      HeadOfSome(a[..n - 1], start);
      HeadOfSome(b[..n - 1], start);
      PrevShared(a[n - 1], b[n - 1], EntryHash(a[n - 2]), EntryHash(b[n - 2]));
      EntryHashExactly(a[n - 2], b[n - 2]);
      PrefixesAgree(a, b, ka, kb, verifies, expectSeq, start, n - 1);
    }
  }

  lemma {:induction false} HeadOfSome(receipts: seq<Json>, start: Text)
    requires |receipts| > 0
    ensures HeadOf(receipts, start) == Raw(EntryHash(receipts[|receipts| - 1]))
  {
    hide EntryHash, Raw;
  }
}
