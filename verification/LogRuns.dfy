/**
 * log.js, as values: what each operation of a log does to its files, and what every
 * run of them keeps. The class in ProofLog.dfy carries out exactly these steps.
 */
module LogRuns {
  import opened Wrappers
  import opened Hashing
  import opened Canonical
  import opened JsonObjects
  import opened Merkle
  import opened Receipts
  import opened ReceiptBuilding
  import opened Checkpoints
  import opened CheckpointBuilding
  import opened Bundles

  /** One line of salts.jsonl: the entry it opens. */
  datatype Salt = Salt(seq': nat, params: Text, result: Text)

  /** The files of a log. */
  datatype Log = Log(name: Text, keyring: Keyring, entries: seq<Json>, checkpoints: seq<Checkpoint>, salts: seq<Salt>) {
    function Leaves(): seq<Digest> {
      LeavesOf(entries)
    }

    function Head(): Text {
      HeadOf(entries, GenesisPrev())
    }
  }

  datatype Event =
    | Appended(args: Args, params: Text, result: Text)
    | Checkpointed(ts: Text)
    | SignatureAdded(size: int, signature: Signed)
    | KeyTrusted(kid: Text, publicKey: Text)
    | Shredded(doomed: Json -> bool)

  // ---------------------------------------------------------------- operations

  function CheckpointOf(log: Log, ts: Text): Json {
    BuildCheckpoint(log.name, |log.entries|, Raw(MerkleRoot(log.Leaves())), log.Head(), ts)
  }

  /** The receipt of an append, or nothing where `buildReceipt` throws. */
  function NextReceipt(log: Log, identity: Identity, args: Args): Option<Json> {
    match BuildReceipt(log.name, |log.entries|, log.Head(), args)
    case Ok(body) => Some(SignReceipt(identity, body))
    case Err(_) => None
  }

  /** `entries.filter(predicate)` */
  function Select(entries: seq<Json>, keep: Json -> bool): seq<Json> {
    if |entries| == 0 then []
    else (if keep(entries[0]) then [entries[0]] else []) + Select(entries[1..], keep)
  }

  function SeqsOf(receipts: seq<Json>): set<Option<int>> {
    set i | 0 <= i < |receipts| :: SeqOf(receipts[i])
  }

  function KeptSalts(salts: seq<Salt>, doomed: set<Option<int>>): seq<Salt> {
    if |salts| == 0 then []
    else (if Some(salts[0].seq' as int) in doomed then [] else [salts[0]]) + KeptSalts(salts[1..], doomed)
  }

  function Apply(log: Log, identity: Identity, event: Event): Log {
    match event
    case Appended(args, params, result) =>
      (match NextReceipt(log, identity, args)
       case None => log
       case Some(receipt) =>
         log.(entries := log.entries + [receipt], salts := log.salts + [Salt(|log.entries|, params, result)]))
    case Checkpointed(ts) =>
      log.(checkpoints := log.checkpoints + [SignCheckpoint(identity, CheckpointOf(log, ts))])
    case SignatureAdded(size, signature) => log.(checkpoints := WithSignature(log.checkpoints, size, signature))
    case KeyTrusted(kid, publicKey) => log.(keyring := log.keyring[kid := publicKey])
    case Shredded(doomed) => log.(salts := KeptSalts(log.salts, SeqsOf(Select(log.entries, doomed))))
  }

  function Run(log: Log, identity: Identity, events: seq<Event>): Log {
    if |events| == 0 then log
    else Apply(Run(log, identity, events[..|events| - 1]), identity, events[|events| - 1])
  }

  function Created(name: Text, identity: Identity): Log {
    Log(name, map[identity.kid := identity.publicKey], [], [], [])
  }

  // -------------------------------------------------------------------- honesty

  /** Clocks do not step back, phases are known, added signatures are good, and no key id changes its key. */
  predicate Proper(log: Log, identity: Identity, event: Event, verifies: Verifier) {
    match event
    case Appended(args, _, _) =>
      && args.ts != [] && PhaseKnown(Some(Str(args.phase)))
      && (|log.entries| > 0 ==> !Earlier(Some(args.ts), TimeOf(log.entries[|log.entries| - 1])))
    case SignatureAdded(size, signature) =>
      && signature.kid != identity.kid
      && signature.kid in log.keyring
      && (FindSize(log.checkpoints, size).Some? ==>
            SignedBy(log.checkpoints[FindSize(log.checkpoints, size).value].body, log.keyring[signature.kid],
                     signature.sig, verifies))
    case KeyTrusted(kid, publicKey) => kid in log.keyring ==> log.keyring[kid] == publicKey
    case _ => true
  }

  predicate ProperRun(log: Log, identity: Identity, events: seq<Event>, verifies: Verifier) {
    forall i | 0 <= i < |events| :: Proper(Run(log, identity, events[..i]), identity, events[i], verifies)
  }

  /** The body names a prefix of these leaves. */
  predicate NamesPrefix(body: Json, leaves: seq<Digest>) {
    && SizeOf(body).Some? && 0 <= SizeOf(body).value <= |leaves|
    && Get(body, ROOT) == PrefixRoot(leaves, SizeOf(body).value)
  }

  /** Signed by the log itself, and every signature on it is good. */
  predicate WellSigned(checkpoint: Checkpoint, kid: Text, keyring: Keyring, verifies: Verifier) {
    && IntOf(Get(checkpoint.body, V)) == Some(CHECKPOINT_VERSION)
    && (forall i | 0 <= i < |checkpoint.sigs| ::
          KeyringSignature(checkpoint.body, checkpoint.sigs[i], keyring, None, verifies))
    && exists i | 0 <= i < |checkpoint.sigs| :: checkpoint.sigs[i].role == LogRole && checkpoint.sigs[i].kid == kid
  }

  predicate CheckpointsHonest(checkpoints: seq<Checkpoint>, leaves: seq<Digest>, kid: Text, keyring: Keyring,
                              verifies: Verifier)
  {
    forall i | 0 <= i < |checkpoints| ::
      WellSigned(checkpoints[i], kid, keyring, verifies) && NamesPrefix(checkpoints[i].body, leaves)
  }

  predicate KeyHeld(identity: Identity, keyring: Keyring) {
    identity.kid in keyring && keyring[identity.kid] == identity.publicKey
  }

  predicate Honest(log: Log, identity: Identity, verifies: Verifier) {
    && KeyHeld(identity, log.keyring)
    && ChainSound(log.entries, log.keyring, verifies, 0, GenesisPrev())
    && CheckpointsHonest(log.checkpoints, log.Leaves(), identity.kid, log.keyring, verifies)
  }

  // ----------------------------------------------------- every step keeps honesty

  lemma {:induction false} ChainExtends(receipts: seq<Json>, receipt: Json, keyring: Keyring, verifies: Verifier,
                                        expectSeq: int, start: Text)
    requires ChainSound(receipts, keyring, verifies, expectSeq, start)
    requires ReceiptSound(receipt, keyring, verifies)
    requires SeqOf(receipt) == Some(expectSeq + |receipts|) && PrevOf(receipt) == Some(HeadOf(receipts, start))
    requires |receipts| > 0 ==> !Earlier(TimeOf(receipt), TimeOf(receipts[|receipts| - 1]))
    ensures ChainSound(receipts + [receipt], keyring, verifies, expectSeq, start)
  {
    hide ReceiptSound, SeqOf, PrevOf, TimeOf, Earlier, EntryHash, Raw;
    var all := receipts + [receipt];
    forall i | 0 <= i < |all| ensures LinkSound(all, i, keyring, verifies, expectSeq, start) {
      if i < |receipts| {
        assert LinkSound(receipts, i, keyring, verifies, expectSeq, start);
      }
    }
  }

  lemma {:induction false} LeavesGrow(entries: seq<Json>, receipt: Json)
    ensures LeavesOf(entries + [receipt]) == LeavesOf(entries) + [EntryHash(receipt)]
  {
    hide EntryHash;
  }

  /** A body that names a prefix goes on naming it as the log grows. */
  lemma {:induction false} PrefixStays(body: Json, leaves: seq<Digest>, leaf: Digest)
    requires NamesPrefix(body, leaves)
    ensures NamesPrefix(body, leaves + [leaf])
  {
    hide SizeOf, Get, MerkleRoot, Raw;
    var size := SizeOf(body).value;
    assert (leaves + [leaf])[..size] == leaves[..size];
  }

  lemma {:induction false} CheckpointsStay(checkpoints: seq<Checkpoint>, leaves: seq<Digest>, leaf: Digest, kid: Text,
                                           keyring: Keyring, verifies: Verifier)
    requires CheckpointsHonest(checkpoints, leaves, kid, keyring, verifies)
    ensures CheckpointsHonest(checkpoints, leaves + [leaf], kid, keyring, verifies)
  {
    hide NamesPrefix, WellSigned;
    forall i | 0 <= i < |checkpoints| ensures NamesPrefix(checkpoints[i].body, leaves + [leaf]) {
      PrefixStays(checkpoints[i].body, leaves, leaf);
    }
  }

  lemma {:induction false} NextReceiptSound(log: Log, identity: Identity, args: Args, verifies: Verifier, receipt: Json)
    requires Signs(identity, verifies) && KeyHeld(identity, log.keyring)
    requires args.ts != [] && PhaseKnown(Some(Str(args.phase)))
    requires NextReceipt(log, identity, args) == Some(receipt)
    ensures ReceiptSound(receipt, log.keyring, verifies)
    ensures SeqOf(receipt) == Some(|log.entries|) && PrevOf(receipt) == Some(log.Head()) && TimeOf(receipt) == Some(args.ts)
  {
    hide BuildReceipt, SignReceipt, ReceiptSound, SeqOf, PrevOf, TimeOf, PhaseKnown, HeadOf;
    var body := BuildReceipt(log.name, |log.entries|, log.Head(), args).value;
    SignedSound(identity, body, log.name, |log.entries|, log.Head(), args, log.keyring, verifies);
  }

  lemma {:induction false} AppendKeepsHonest(log: Log, identity: Identity, event: Event, verifies: Verifier)
    requires event.Appended? && Honest(log, identity, verifies) && Proper(log, identity, event, verifies)
    requires Signs(identity, verifies)
    ensures Honest(Apply(log, identity, event), identity, verifies)
  {
    hide NextReceipt, ReceiptSound, SeqOf, PrevOf, TimeOf, Earlier, ChainSound, CheckpointsHonest, PhaseKnown, LeavesOf,
      HeadOf, KeyHeld, EntryHash;
    var next := NextReceipt(log, identity, event.args);
    if next.Some? {
      NextReceiptSound(log, identity, event.args, verifies, next.value);
      ChainExtends(log.entries, next.value, log.keyring, verifies, 0, GenesisPrev());
      LeavesGrow(log.entries, next.value);
      CheckpointsStay(log.checkpoints, log.Leaves(), EntryHash(next.value), identity.kid, log.keyring, verifies);
    }
  }

  lemma {:induction false} NewCheckpointHonest(log: Log, identity: Identity, ts: Text, verifies: Verifier, checkpoint: Checkpoint)
    requires Signs(identity, verifies) && KeyHeld(identity, log.keyring)
    requires checkpoint == SignCheckpoint(identity, CheckpointOf(log, ts))
    ensures WellSigned(checkpoint, identity.kid, log.keyring, verifies)
    ensures NamesPrefix(checkpoint.body, log.Leaves())
  {
    hide BuildCheckpoint, IntOf, Get, SizeOf, MerkleRoot, Raw, CheckpointDigest, HeadOf, LeavesOf;
    CheckpointRead(checkpoint.body, log.name, |log.entries|, Raw(MerkleRoot(log.Leaves())), log.Head(), ts);
    assert log.Leaves()[..|log.entries|] == log.Leaves();
    assert checkpoint.sigs[0].role == LogRole;
  }

  lemma {:induction false} CheckpointKeepsHonest(log: Log, identity: Identity, event: Event, verifies: Verifier)
    requires event.Checkpointed? && Honest(log, identity, verifies) && Signs(identity, verifies)
    ensures Honest(Apply(log, identity, event), identity, verifies)
  {
    hide ChainSound, LeavesOf, KeyHeld, WellSigned, NamesPrefix, CheckpointOf, SignCheckpoint;
    NewCheckpointHonest(log, identity, event.ts, verifies, SignCheckpoint(identity, CheckpointOf(log, event.ts)));
  }

  lemma {:induction false} CountersignedWellSigned(checkpoint: Checkpoint, signature: Signed, kid: Text, keyring: Keyring,
                                                   verifies: Verifier)
    requires WellSigned(checkpoint, kid, keyring, verifies) && signature.kid != kid
    requires KeyringSignature(checkpoint.body, signature, keyring, None, verifies)
    ensures WellSigned(Countersigned(checkpoint, signature), kid, keyring, verifies)
  {
    hide KeyringSignature, IntOf, Get, WithoutKid;
    var signed := Countersigned(checkpoint, signature);
    forall i | 0 <= i < |signed.sigs| ensures KeyringSignature(signed.body, signed.sigs[i], keyring, None, verifies) {
      WithoutKidMember(checkpoint.sigs, signature.kid, signed.sigs[i]);
    }
    var i :| 0 <= i < |checkpoint.sigs| && checkpoint.sigs[i].role == LogRole && checkpoint.sigs[i].kid == kid;
    var own := checkpoint.sigs[i];
    WithoutKidMember(checkpoint.sigs, signature.kid, own);
    assert own in signed.sigs;
  }

  lemma {:induction false} SignatureKeepsHonest(log: Log, identity: Identity, event: Event, verifies: Verifier)
    requires event.SignatureAdded? && Honest(log, identity, verifies) && Proper(log, identity, event, verifies)
    ensures Honest(Apply(log, identity, event), identity, verifies)
  {
    hide ChainSound, LeavesOf, KeyHeld, WellSigned, NamesPrefix, SignedBy, WithoutKid, FindSize;
    var found := FindSize(log.checkpoints, event.size);
    if found.Some? {
      CountersignedWellSigned(log.checkpoints[found.value], event.signature, identity.kid, log.keyring, verifies);
    }
  }

  lemma {:induction false} SoundUnderMore(receipt: Json, keyring: Keyring, kid: Text, key: Text, verifies: Verifier)
    requires ReceiptSound(receipt, keyring, verifies) && (kid in keyring ==> keyring[kid] == key)
    ensures ReceiptSound(receipt, keyring[kid := key], verifies)
  {
    hide WellFormed, Attested, SignatureHolds, GetIn, TextAt;
  }

  lemma {:induction false} ChainUnderMore(receipts: seq<Json>, keyring: Keyring, kid: Text, key: Text, verifies: Verifier,
                                          expectSeq: int, start: Text)
    requires ChainSound(receipts, keyring, verifies, expectSeq, start) && (kid in keyring ==> keyring[kid] == key)
    ensures ChainSound(receipts, keyring[kid := key], verifies, expectSeq, start)
  {
    hide ReceiptSound, Numbered, Linked, InTime;
    var more := keyring[kid := key];
    forall i | 0 <= i < |receipts| ensures LinkSound(receipts, i, more, verifies, expectSeq, start) {
      assert LinkSound(receipts, i, keyring, verifies, expectSeq, start);
      SoundUnderMore(receipts[i], keyring, kid, key, verifies);
    }
  }

  lemma {:induction false} KeyKeepsHonest(log: Log, identity: Identity, event: Event, verifies: Verifier)
    requires event.KeyTrusted? && Honest(log, identity, verifies) && Proper(log, identity, event, verifies)
    ensures Honest(Apply(log, identity, event), identity, verifies)
  {
    hide ChainSound, LeavesOf, NamesPrefix, WellSigned;
    ChainUnderMore(log.entries, log.keyring, event.kid, event.publicKey, verifies, 0, GenesisPrev());
    forall i | 0 <= i < |log.checkpoints|
      ensures WellSigned(log.checkpoints[i], identity.kid, log.keyring[event.kid := event.publicKey], verifies)
    {
      WellSignedUnderMore(log.checkpoints[i], identity.kid, log.keyring, event.kid, event.publicKey, verifies);
    }
  }

  lemma {:induction false} WellSignedUnderMore(checkpoint: Checkpoint, own: Text, keyring: Keyring, kid: Text, key: Text,
                                               verifies: Verifier)
    requires WellSigned(checkpoint, own, keyring, verifies) && (kid in keyring ==> keyring[kid] == key)
    ensures WellSigned(checkpoint, own, keyring[kid := key], verifies)
  {
    hide SignedBy, IntOf, Get;
    assert forall i | 0 <= i < |checkpoint.sigs| :: KeyringSignature(checkpoint.body, checkpoint.sigs[i], keyring, None, verifies);
  }

  lemma {:induction false} StepKeepsHonest(log: Log, identity: Identity, event: Event, verifies: Verifier)
    requires Honest(log, identity, verifies) && Proper(log, identity, event, verifies) && Signs(identity, verifies)
    ensures Honest(Apply(log, identity, event), identity, verifies)
  {
    hide Honest, Proper, Apply;
    match event
    case Appended(_, _, _) => AppendKeepsHonest(log, identity, event, verifies);
    case Checkpointed(_) => CheckpointKeepsHonest(log, identity, event, verifies);
    case SignatureAdded(_, _) => SignatureKeepsHonest(log, identity, event, verifies);
    case KeyTrusted(_, _) => KeyKeepsHonest(log, identity, event, verifies);
    case Shredded(_) => ShredKeepsHonest(log, identity, event, verifies);
  }

  lemma {:induction false} ShredKeepsHonest(log: Log, identity: Identity, event: Event, verifies: Verifier)
    requires event.Shredded? && Honest(log, identity, verifies)
    ensures Honest(Apply(log, identity, event), identity, verifies)
  {
    hide ChainSound, CheckpointsHonest, KeyHeld, LeavesOf;
  }

  /** A log that has only ever done proper steps is honest. */
  lemma {:induction false} RunIsHonest(name: Text, identity: Identity, events: seq<Event>, verifies: Verifier)
    requires Signs(identity, verifies) && ProperRun(Created(name, identity), identity, events, verifies)
    ensures Honest(Run(Created(name, identity), identity, events), identity, verifies)
    decreases |events|
  {
    hide Proper, Apply, Honest;
    if |events| == 0 {
      CreatedHonest(name, identity, verifies);
    } else {
      var last := |events| - 1;
      RunPrefix(Created(name, identity), identity, events, verifies);
      RunIsHonest(name, identity, events[..last], verifies);
      StepKeepsHonest(Run(Created(name, identity), identity, events[..last]), identity, events[last], verifies);
    }
  }

  lemma {:induction false} RunPrefix(log: Log, identity: Identity, events: seq<Event>, verifies: Verifier)
    requires |events| > 0 && ProperRun(log, identity, events, verifies)
    ensures ProperRun(log, identity, events[..|events| - 1], verifies)
    ensures Proper(Run(log, identity, events[..|events| - 1]), identity, events[|events| - 1], verifies)
  {
    hide Proper, Run;
    var front := events[..|events| - 1];
    forall i | 0 <= i < |front| ensures Proper(Run(log, identity, front[..i]), identity, front[i], verifies) {
      assert front[..i] == events[..i];
    }
  }

  lemma {:induction false} CreatedHonest(name: Text, identity: Identity, verifies: Verifier)
    ensures Honest(Created(name, identity), identity, verifies)
  {
  }

  lemma {:induction false} KeptSaltsExactly(salts: seq<Salt>, doomed: set<Option<int>>, salt: Salt)
    ensures salt in KeptSalts(salts, doomed) <==> salt in salts && Some(salt.seq' as int) !in doomed
    decreases |salts|
  {
    if |salts| > 0 {
      KeptSaltsExactly(salts[1..], doomed, salt);
      assert salts == [salts[0]] + salts[1..];
    }
  }

  /** Crypto-shredding destroys exactly the doomed entries' salts, and every piece of evidence stays as it was. */
  lemma {:induction false} ShredLeavesEvidence(log: Log, identity: Identity, doomed: Json -> bool, salt: Salt)
    ensures var next := Apply(log, identity, Shredded(doomed));
      && next.(salts := log.salts) == log
      && (salt in next.salts <==> salt in log.salts && Some(salt.seq' as int) !in SeqsOf(Select(log.entries, doomed)))
  {
    hide SeqsOf, Select, KeptSalts;
    KeptSaltsExactly(log.salts, SeqsOf(Select(log.entries, doomed)), salt);
  }
}
