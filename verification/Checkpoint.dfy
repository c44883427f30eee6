/** checkpoint.js: signed tree heads and the count of witnesses that signed one. */
module Checkpoints {
  import opened Wrappers
  import opened Hashing
  import opened Canonical
  import opened JsonObjects
  import opened Utf8
  import opened JsonBytes
  import opened Receipts

  const SIZE: Plain := [0x73, 0x69, 0x7A, 0x65]
  const ROOT: Plain := [0x72, 0x6F, 0x6F, 0x74]
  const HEAD: Plain := [0x68, 0x65, 0x61, 0x64]

  const CHECKPOINT_VERSION := 1

  datatype Role = LogRole | WitnessRole | OtherRole

  /** The role is a label: no signature covers it. */
  datatype Signed = Signed(role: Role, kid: Text, sig: Text)

  datatype Checkpoint = Checkpoint(body: Json, sigs: seq<Signed>)

  function SizeOf(body: Json): Option<int> {
    IntOf(Get(body, SIZE))
  }

  function RootOf(body: Json): Option<Text> {
    TextAt(Get(body, ROOT))
  }

  function CheckpointDigest(body: Json): Digest {
    Sha256(CHECKPOINT_PREFIX + CanonicalBytes(body))
  }

  lemma {:induction false} CheckpointDigestExactly(a: Json, b: Json)
    ensures CheckpointDigest(a) == CheckpointDigest(b) <==> RepairedJson(a) == RepairedJson(b)
  {
    hide CanonicalBytes, RepairedJson;
    SameBytesExactly(a, b);
    if CheckpointDigest(a) == CheckpointDigest(b) {
      var x, y := CHECKPOINT_PREFIX + CanonicalBytes(a), CHECKPOINT_PREFIX + CanonicalBytes(b);
      assert CanonicalBytes(a) == x[1..] == y[1..] == CanonicalBytes(b);
    }
  }

  /** A signature over a checkpoint is over no receipt: the tags differ. */
  lemma {:induction false} DigestsSeparate(body: Json, receipt: Json)
    ensures CheckpointDigest(body) != ReceiptDigest(receipt)
  {
    assert (CHECKPOINT_PREFIX + CanonicalBytes(body))[0] != (RECEIPT_PREFIX + CanonicalBytes(BodyOf(receipt)))[0];
  }

  function WithoutKid(sigs: seq<Signed>, kid: Text): seq<Signed> {
    if |sigs| == 0 then []
    else (if sigs[0].kid == kid then [] else [sigs[0]]) + WithoutKid(sigs[1..], kid)
  }

  /** `cosign`: the body is unchanged, and a signature replaces any other under its key id. */
  function Countersigned(checkpoint: Checkpoint, signature: Signed): Checkpoint {
    checkpoint.(sigs := WithoutKid(checkpoint.sigs, signature.kid) + [signature])
  }

  /** Where the first checkpoint of a size is. */
  function FindSize(checkpoints: seq<Checkpoint>, size: int): (index: Option<nat>)
    ensures index.Some? ==> index.value < |checkpoints| && SizeOf(checkpoints[index.value].body) == Some(size)
  {
    if |checkpoints| == 0 then None
    else if SizeOf(checkpoints[0].body) == Some(size) then Some(0)
    else
      match FindSize(checkpoints[1..], size)
      case Some(i) => Some(i + 1)
      case None => None
  }

  function WithSignature(checkpoints: seq<Checkpoint>, size: int, signature: Signed): seq<Checkpoint> {
    match FindSize(checkpoints, size)
    case None => checkpoints
    case Some(i) => checkpoints[i := Countersigned(checkpoints[i], signature)]
  }

  lemma {:induction false} FindSizeFirst(checkpoints: seq<Checkpoint>, size: int)
    ensures FindSize(checkpoints, size).None? <==>
            forall i | 0 <= i < |checkpoints| :: SizeOf(checkpoints[i].body) != Some(size)
    ensures FindSize(checkpoints, size).Some? ==>
              forall i | 0 <= i < FindSize(checkpoints, size).value :: SizeOf(checkpoints[i].body) != Some(size)
    decreases |checkpoints|
  {
    hide SizeOf;
    if |checkpoints| > 0 {
      FindSizeFirst(checkpoints[1..], size);
      assert forall i | 0 < i < |checkpoints| :: checkpoints[i] == checkpoints[1..][i - 1];
    }
  }

  /** The new signature, and every other that is not under its key id. */
  lemma {:induction false} CountersignedExactly(checkpoint: Checkpoint, signature: Signed, s: Signed)
    ensures Countersigned(checkpoint, signature).body == checkpoint.body
    ensures s in Countersigned(checkpoint, signature).sigs <==>
            s == signature || (s in checkpoint.sigs && s.kid != signature.kid)
  {
    hide WithoutKid;
    WithoutKidMember(checkpoint.sigs, signature.kid, s);
  }

  lemma {:induction false} WithoutKidMember(sigs: seq<Signed>, kid: Text, s: Signed)
    ensures s in WithoutKid(sigs, kid) <==> s in sigs && s.kid != kid
    decreases |sigs|
  {
    if |sigs| > 0 {
      WithoutKidMember(sigs[1..], kid, s);
    }
  }

  predicate SignedBy(body: Json, key: Text, sig: Text, verifies: Verifier) {
    Verified(key, Raw(CheckpointDigest(body)), sig, verifies)
  }

  // -------------------------------------------------------------------- verdicts

  /** A `witness` signature that verifies under the key pinned for its key id. */
  predicate PinnedWitness(body: Json, s: Signed, trusted: Keyring, verifies: Verifier) {
    s.role == WitnessRole && s.kid in trusted && SignedBy(body, trusted[s.kid], s.sig, verifies)
  }

  /** What a signature not counted as a pinned witness's must be: good under the keyring, and not a relabelled witness. */
  predicate KeyringSignature(body: Json, s: Signed, keyring: Keyring, trusted: Option<Keyring>, verifies: Verifier) {
    && !(trusted.Some? && s.role == LogRole && s.kid in trusted.value)
    && s.kid in keyring
    && SignedBy(body, keyring[s.kid], s.sig, verifies)
  }

  /** The key under which a signature counts as a witness, where it does. */
  function WitnessKey(body: Json, s: Signed, keyring: Keyring, trusted: Option<Keyring>, verifies: Verifier): Option<Text> {
    if s.role != WitnessRole then None
    else if trusted.Some? then
      if PinnedWitness(body, s, trusted.value, verifies) then Some(trusted.value[s.kid]) else None
    else if KeyringSignature(body, s, keyring, trusted, verifies) then Some(keyring[s.kid])
    else None
  }

  /** The distinct public keys whose owners signed the checkpoint as witnesses. */
  function WitnessKeys(checkpoint: Checkpoint, n: nat, keyring: Keyring, trusted: Option<Keyring>, verifies: Verifier): set<Text>
    requires n <= |checkpoint.sigs|
  {
    set i | 0 <= i < n && WitnessKey(checkpoint.body, checkpoint.sigs[i], keyring, trusted, verifies).Some? ::
      WitnessKey(checkpoint.body, checkpoint.sigs[i], keyring, trusted, verifies).value
  }

  /** A pinned key's signature that fails is an issue unless that key has already counted. */
  predicate SignatureOk(checkpoint: Checkpoint, i: nat, keyring: Keyring, trusted: Option<Keyring>, verifies: Verifier)
    requires i < |checkpoint.sigs|
  {
    var s := checkpoint.sigs[i];
    if trusted.Some? && s.role == WitnessRole then
      s.kid in trusted.value ==>
        PinnedWitness(checkpoint.body, s, trusted.value, verifies)
        || trusted.value[s.kid] in WitnessKeys(checkpoint, i, keyring, trusted, verifies)
    else KeyringSignature(checkpoint.body, s, keyring, trusted, verifies)
  }

  predicate LogSigned(checkpoint: Checkpoint, n: nat, keyring: Keyring, trusted: Option<Keyring>, verifies: Verifier)
    requires n <= |checkpoint.sigs|
  {
    exists i | 0 <= i < n ::
      checkpoint.sigs[i].role == LogRole && KeyringSignature(checkpoint.body, checkpoint.sigs[i], keyring, trusted, verifies)
  }

  predicate CheckpointOk(checkpoint: Checkpoint, keyring: Keyring, minWitnesses: int, trusted: Option<Keyring>,
                         verifies: Verifier)
  {
    && IntOf(Get(checkpoint.body, V)) == Some(CHECKPOINT_VERSION)
    && (forall i | 0 <= i < |checkpoint.sigs| :: SignatureOk(checkpoint, i, keyring, trusted, verifies))
    && LogSigned(checkpoint, |checkpoint.sigs|, keyring, trusted, verifies)
    && |WitnessKeys(checkpoint, |checkpoint.sigs|, keyring, trusted, verifies)| >= minWitnesses
  }

  datatype CheckpointIssue =
    BadVersion | BadWitnessSignature | Relabelled | NoKey | BadSignature | NoLogSignature | TooFewWitnesses

  /** The count is of distinct public keys, and with pinned keys each one is pinned and its signature verifies. */
  method VerifyCheckpoint(checkpoint: Checkpoint, keyring: Keyring, minWitnesses: int, trusted: Option<Keyring>,
                          verifies: Verifier)
    returns (issues: seq<CheckpointIssue>, witnesses: nat)
    ensures issues == [] <==> CheckpointOk(checkpoint, keyring, minWitnesses, trusted, verifies)
    ensures witnesses == |WitnessKeys(checkpoint, |checkpoint.sigs|, keyring, trusted, verifies)|
  {
    hide WitnessKeys, LogSigned, SignatureOk, SignedBy, Get, IntOf;
    issues := [];
    witnesses := 0;
    NothingCounted(checkpoint, keyring, trusted, verifies);
    if IntOf(Get(checkpoint.body, V)) != Some(CHECKPOINT_VERSION) {
      issues := issues + [BadVersion];
    }
    var counted: set<Text> := {};
    var hasLogSig := false;
    for i := 0 to |checkpoint.sigs|
      invariant counted == WitnessKeys(checkpoint, i, keyring, trusted, verifies)
      invariant witnesses == |counted|
      invariant hasLogSig <==> LogSigned(checkpoint, i, keyring, trusted, verifies)
      invariant issues == [] <==>
        IntOf(Get(checkpoint.body, V)) == Some(CHECKPOINT_VERSION)
        && forall j | 0 <= j < i :: SignatureOk(checkpoint, j, keyring, trusted, verifies)
    {
      var s := checkpoint.sigs[i];
      WitnessKeysGrow(checkpoint, i, keyring, trusted, verifies);
      LogSignedGrows(checkpoint, i, keyring, trusted, verifies);
      SignatureOkIs(checkpoint, i, keyring, trusted, verifies);
      if trusted.Some? && s.role == WitnessRole {
        if s.kid !in trusted.value || trusted.value[s.kid] in counted {
          continue;
        }
        if SignedBy(checkpoint.body, trusted.value[s.kid], s.sig, verifies) {
          counted := counted + {trusted.value[s.kid]};
          witnesses := witnesses + 1;
        } else {
          issues := issues + [BadWitnessSignature];
        }
        continue;
      }
      if trusted.Some? && s.role == LogRole && s.kid in trusted.value {
        issues := issues + [Relabelled];
        continue;
      }
      if s.kid !in keyring {
        issues := issues + [NoKey];
        continue;
      }
      if !SignedBy(checkpoint.body, keyring[s.kid], s.sig, verifies) {
        issues := issues + [BadSignature];
        continue;
      }
      if s.role == WitnessRole {
        if keyring[s.kid] in counted {
          continue;
        }
        counted := counted + {keyring[s.kid]};
        witnesses := witnesses + 1;
      }
      if s.role == LogRole {
        hasLogSig := true;
      }
    }
    if !hasLogSig {
      issues := issues + [NoLogSignature];
    }
    if witnesses < minWitnesses {
      issues := issues + [TooFewWitnesses];
    }
  }

  lemma {:induction false} WitnessKeysGrow(checkpoint: Checkpoint, i: nat, keyring: Keyring, trusted: Option<Keyring>,
                                           verifies: Verifier)
    requires i < |checkpoint.sigs|
    ensures var key := WitnessKey(checkpoint.body, checkpoint.sigs[i], keyring, trusted, verifies);
      WitnessKeys(checkpoint, i + 1, keyring, trusted, verifies)
      == WitnessKeys(checkpoint, i, keyring, trusted, verifies) + if key.Some? then {key.value} else {}
  {
    hide WitnessKey;
  }

  lemma {:induction false} LogSignedGrows(checkpoint: Checkpoint, i: nat, keyring: Keyring, trusted: Option<Keyring>,
                                          verifies: Verifier)
    requires i < |checkpoint.sigs|
    ensures LogSigned(checkpoint, i + 1, keyring, trusted, verifies) <==>
            LogSigned(checkpoint, i, keyring, trusted, verifies)
            || (checkpoint.sigs[i].role == LogRole
                && KeyringSignature(checkpoint.body, checkpoint.sigs[i], keyring, trusted, verifies))
  {
    hide KeyringSignature;
  }

  lemma {:induction false} SignatureOkIs(checkpoint: Checkpoint, i: nat, keyring: Keyring, trusted: Option<Keyring>,
                                         verifies: Verifier)
    requires i < |checkpoint.sigs|
    ensures SignatureOk(checkpoint, i, keyring, trusted, verifies) <==>
            var s := checkpoint.sigs[i];
            if trusted.Some? && s.role == WitnessRole then
              s.kid in trusted.value ==>
                PinnedWitness(checkpoint.body, s, trusted.value, verifies)
                || trusted.value[s.kid] in WitnessKeys(checkpoint, i, keyring, trusted, verifies)
            else KeyringSignature(checkpoint.body, s, keyring, trusted, verifies)
  {
    hide KeyringSignature, PinnedWitness, WitnessKeys;
  }

  lemma {:induction false} NothingCounted(checkpoint: Checkpoint, keyring: Keyring, trusted: Option<Keyring>,
                                          verifies: Verifier)
    ensures WitnessKeys(checkpoint, 0, keyring, trusted, verifies) == {}
    ensures !LogSigned(checkpoint, 0, keyring, trusted, verifies)
  {
  }
}
