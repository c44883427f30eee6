/** receipt.js `buildReceipt`, `signReceipt`: a receipt as an honest log makes it, and why it verifies. */
module ReceiptBuilding {
  import opened Wrappers
  import opened Hashing
  import opened Numbers
  import opened Canonical
  import opened JsonObjects
  import opened Receipts

  /** What a caller records: `action` with its parameters sealed, `result` null or with its payload sealed. */
  datatype Args = Args(ts: Text, phase: Text, actor: Json, action: Json, decision: Json, result: Json, ref: Text)

  /** A signing key: its id, its public key, and what it signs a message with. */
  datatype Identity = Identity(kid: Text, publicKey: Text, sign: Bytes -> Text)

  predicate ArgsComplete(args: Args) {
    && Filled(Get(args.actor, PRINCIPAL)) && Filled(Get(args.actor, AGENT)) && Filled(Get(args.actor, SESSION))
    && Filled(Get(args.action, KIND)) && Filled(Get(args.action, TARGET))
    && Filled(Get(args.decision, OUTCOME))
  }

  /** The properties of a body, in the order they are written. */
  function Properties(log: Text, seq': nat, prev: Text, args: Args): seq<Field> {
    [Field(V, Num(FromInt(RECEIPT_VERSION))), Field(LOG, Str(log)), Field(SEQ, Num(FromInt(seq'))),
     Field(PREV, Str(prev)), Field(TS, Str(args.ts)), Field(PHASE, Str(args.phase)), Field(ACTOR, args.actor),
     Field(ACTION, args.action), Field(DECISION, args.decision), Field(RESULT, args.result)]
    + if args.ref == [] then [] else [Field(REF, Str(args.ref))]
  }

  function BuildReceipt(log: Text, seq': nat, prev: Text, args: Args): Result<Json, string> {
    if ArgsComplete(args) then Ok(Obj(Object(Properties(log, seq', prev, args)))) else Err("Error")
  }

  function Attestation(identity: Identity, body: Json): seq<Field> {
    [Field(ALG, Word(ED25519)), Field(KID, Str(identity.kid)), Field(SIG, Str(identity.sign(Raw(ReceiptDigest(body)))))]
  }

  function SignReceipt(identity: Identity, body: Json): Json
    requires body.Obj?
  {
    Obj(Insert(body.fields, Field(ATTEST, Obj(Object(Attestation(identity, body))))))
  }

  ghost predicate Signs(identity: Identity, verifies: Verifier) {
    forall message :: Verified(identity.publicKey, message, identity.sign(message), verifies)
  }

  // ------------------------------------------------------ reading a body back

  /** Where `Properties` writes a key; lengths and first letters tell the keys apart. */
  function Place(key: Plain): nat {
    match |key|
    case 1 => 0
    case 2 => 4
    case 3 => if key[0] == 0x6C then 1 else if key[0] == 0x73 then 2 else 10
    case 4 => 3
    case 5 => if key[0] == 0x70 then 5 else 6
    case 6 => if key[0] == 0x72 then 9 else if key[1] == 0x63 then 7 else 11
    case _ => 8
  }

  lemma {:induction false} Places()
    ensures Place(V) == 0 && Place(LOG) == 1 && Place(SEQ) == 2 && Place(PREV) == 3 && Place(TS) == 4
    ensures Place(PHASE) == 5 && Place(ACTOR) == 6 && Place(ACTION) == 7 && Place(DECISION) == 8
    ensures Place(RESULT) == 9 && Place(REF) == 10 && Place(ATTEST) == 11
  {
  }

  lemma {:induction false} PropertiesPlaced(properties: seq<Field>, log: Text, seq': nat, prev: Text, args: Args)
    requires properties == Properties(log, seq', prev, args)
    ensures forall i | 0 <= i < |properties| :: Place(properties[i].key) == i
    ensures DistinctKeys(properties) && forall i | 0 <= i < |properties| :: properties[i].key != ATTEST
  {
    hide Place;
    Places();
  }

  /** The fields the verifiers read, as they were given. */
  predicate BodyHolds(body: Json, seq': nat, prev: Text, args: Args) {
    && body.Obj?
    && Get(body, V) == Some(Num(FromInt(RECEIPT_VERSION)))
    && Get(body, SEQ) == Some(Num(FromInt(seq')))
    && Get(body, PREV) == Some(Str(prev))
    && Get(body, TS) == Some(Str(args.ts))
    && Get(body, PHASE) == Some(Str(args.phase))
    && Get(body, ACTOR) == Some(args.actor)
    && Get(body, ACTION) == Some(args.action)
    && Get(body, DECISION) == Some(args.decision)
  }

  lemma {:induction false} BodyRead(body: Json, log: Text, seq': nat, prev: Text, args: Args)
    requires BuildReceipt(log, seq', prev, args) == Ok(body)
    ensures body.Obj? && BodyHolds(body, seq', prev, args)
    ensures Get(body, ATTEST) == None && Ordered(body.fields)
  {
    hide Lookup, Object, Ordered, FromInt, DistinctKeys, ArgsComplete;
    var p := Properties(log, seq', prev, args);
    PropertiesPlaced(p, log, seq', prev, args);
    ObjectOrdered(p);
    PropertyRead(p, 0);
    PropertyRead(p, 2);
    PropertyRead(p, 3);
    PropertyRead(p, 4);
    PropertyRead(p, 5);
    PropertyRead(p, 6);
    PropertyRead(p, 7);
    PropertyRead(p, 8);
    ObjectLookup(p, ATTEST);
  }

  lemma {:induction false} PropertyRead(properties: seq<Field>, i: nat)
    requires DistinctKeys(properties) && i < |properties|
    ensures Lookup(Object(properties), properties[i].key) == Some(properties[i].value)
  {
    hide Lookup, Object;
    ObjectLookup(properties, properties[i].key);
  }

  /** Signing adds the attestation and changes nothing else, and removing it gives the body back. */
  lemma {:induction false} SignedRead(identity: Identity, body: Json, key: Plain)
    requires body.Obj? && Get(body, ATTEST) == None
    ensures Get(SignReceipt(identity, body), key)
         == if key == ATTEST then Some(Obj(Object(Attestation(identity, body)))) else Get(body, key)
    ensures BodyOf(SignReceipt(identity, body)) == body
  {
    hide Lookup, Object, Insert, Without, ReceiptDigest;
    LookupInsert(body.fields, Field(ATTEST, Obj(Object(Attestation(identity, body)))), key);
    WithoutInsert(body.fields, Field(ATTEST, Obj(Object(Attestation(identity, body)))));
  }

  lemma {:induction false} AttestationRead(identity: Identity, body: Json, attest: Json)
    requires attest == Obj(Object(Attestation(identity, body)))
    ensures Get(attest, ALG) == Some(Word(ED25519)) && Get(attest, KID) == Some(Str(identity.kid))
    ensures Get(attest, SIG) == Some(Str(identity.sign(Raw(ReceiptDigest(body)))))
  {
    hide Lookup, Object, ReceiptDigest, Raw;
    var p := Attestation(identity, body);
    assert ALG[0] != KID[0] && KID[0] != SIG[0] && ALG[0] != SIG[0];
    PropertyRead(p, 0);
    PropertyRead(p, 1);
    PropertyRead(p, 2);
  }

  /** A body of its own digest: without an attestation, `BodyOf` changes nothing. */
  lemma {:induction false} BodyOfBody(body: Json)
    requires body.Obj? && Get(body, ATTEST) == None
    ensures BodyOf(body) == body
  {
    WithoutAbsent(body.fields, ATTEST);
  }

  /** What an honest log signs is sound under every keyring that holds its key, and says what was recorded. */
  lemma {:induction false} SignedSound(identity: Identity, body: Json, log: Text, seq': nat, prev: Text, args: Args,
                                       keyring: Keyring, verifies: Verifier)
    requires BuildReceipt(log, seq', prev, args) == Ok(body)
    requires args.ts != [] && PhaseKnown(Some(Str(args.phase)))
    requires Signs(identity, verifies)
    requires identity.kid in keyring && keyring[identity.kid] == identity.publicKey
    ensures ReceiptSound(SignReceipt(identity, body), keyring, verifies)
    ensures SignedSays(SignReceipt(identity, body), seq', prev, args.ts)
  {
    hide *;
    BodyRead(body, log, seq', prev, args);
    ArgsHold(log, seq', prev, args);
    SignedWellFormed(identity, body, seq', prev, args);
    SignedAttested(identity, body, keyring, verifies);
    SoundFrom(SignReceipt(identity, body), keyring, verifies);
  }

  predicate SignedSays(receipt: Json, seq': nat, prev: Text, ts: Text) {
    SeqOf(receipt) == Some(seq') && PrevOf(receipt) == Some(prev) && TimeOf(receipt) == Some(ts)
  }

  lemma {:induction false} ArgsHold(log: Text, seq': nat, prev: Text, args: Args)
    requires BuildReceipt(log, seq', prev, args).Ok?
    ensures ArgsComplete(args)
  {
  }

  lemma {:induction false} SignedWellFormed(identity: Identity, body: Json, seq': nat, prev: Text, args: Args)
    requires BodyHolds(body, seq', prev, args) && Get(body, ATTEST) == None
    requires ArgsComplete(args) && args.ts != [] && PhaseKnown(Some(Str(args.phase)))
    ensures WellFormed(SignReceipt(identity, body))
    ensures SignedSays(SignReceipt(identity, body), seq', prev, args.ts)
  {
    var receipt := SignReceipt(identity, body);
    CopiedFields(identity, body, receipt);
    SignedFields(receipt, body, seq', prev, args);
  }

  /** The keys read from a body are not the attestation's. */
  lemma {:induction false} CopiedFields(identity: Identity, body: Json, receipt: Json)
    requires body.Obj? && Get(body, ATTEST) == None && receipt == SignReceipt(identity, body)
    ensures Get(receipt, V) == Get(body, V) && Get(receipt, SEQ) == Get(body, SEQ)
    ensures Get(receipt, PREV) == Get(body, PREV) && Get(receipt, TS) == Get(body, TS)
    ensures Get(receipt, PHASE) == Get(body, PHASE) && Get(receipt, ACTOR) == Get(body, ACTOR)
    ensures Get(receipt, ACTION) == Get(body, ACTION) && Get(receipt, DECISION) == Get(body, DECISION)
  {
    hide *;
    Places();
    SignedRead(identity, body, V);
    SignedRead(identity, body, SEQ);
    SignedRead(identity, body, PREV);
    SignedRead(identity, body, TS);
    SignedRead(identity, body, PHASE);
    SignedRead(identity, body, ACTOR);
    SignedRead(identity, body, ACTION);
    SignedRead(identity, body, DECISION);
  }

  lemma {:induction false} SignedFields(receipt: Json, body: Json, seq': nat, prev: Text, args: Args)
    requires BodyHolds(body, seq', prev, args) && ArgsComplete(args)
    requires args.ts != [] && PhaseKnown(Some(Str(args.phase)))
    requires Get(receipt, V) == Get(body, V) && Get(receipt, SEQ) == Get(body, SEQ)
    requires Get(receipt, PREV) == Get(body, PREV) && Get(receipt, TS) == Get(body, TS)
    requires Get(receipt, PHASE) == Get(body, PHASE) && Get(receipt, ACTOR) == Get(body, ACTOR)
    requires Get(receipt, ACTION) == Get(body, ACTION) && Get(receipt, DECISION) == Get(body, DECISION)
    ensures WellFormed(receipt) && SignedSays(receipt, seq', prev, args.ts)
  {
    hide Get, AsInt, FromInt, PhaseKnown;
    AsIntFromInt(seq');
    AsIntFromInt(RECEIPT_VERSION);
  }

  lemma {:induction false} SignedAttested(identity: Identity, body: Json, keyring: Keyring, verifies: Verifier)
    requires body.Obj? && Get(body, ATTEST) == None && Signs(identity, verifies)
    requires identity.kid in keyring && keyring[identity.kid] == identity.publicKey
    ensures var receipt := SignReceipt(identity, body);
      && Attested(receipt)
      && KeyFor(receipt, keyring) == Some(identity.publicKey)
      && SignatureHolds(receipt, identity.publicKey, verifies)
  {
    hide Get, SignReceipt, BodyOf, TextOf, Object, Raw, Attestation;
    var receipt, attest := SignReceipt(identity, body), Obj(Object(Attestation(identity, body)));
    SignedRead(identity, body, ATTEST);
    AttestationRead(identity, body, attest);
    BodyOfBody(body);
    assert GetIn(receipt, ATTEST, SIG) == Get(attest, SIG);
    assert ReceiptDigest(receipt) == ReceiptDigest(body);
  }

  lemma {:induction false} SoundFrom(receipt: Json, keyring: Keyring, verifies: Verifier)
    requires WellFormed(receipt) && Attested(receipt) && KeyFor(receipt, keyring).Some?
    requires SignatureHolds(receipt, KeyFor(receipt, keyring).value, verifies)
    ensures ReceiptSound(receipt, keyring, verifies)
  {
  }
}
