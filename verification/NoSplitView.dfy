/**
 * The end-to-end guarantee of docs and code together: log.js's bundle verifier, the
 * witness of app.js and the Merkle proofs between them.
 */
module NoSplitView {
  import opened Wrappers
  import opened Hashing
  import opened Canonical
  import opened JsonObjects
  import opened JsonBytes
  import opened Merkle
  import opened Receipts
  import opened Checkpoints
  import opened Bundles
  import opened Positions
  import MerkleUnique
  import W = Witnesses

  /** The verifier pinned one public key, under however many names. */
  predicate PinsOnly(trusted: Keyring, key: Text) {
    forall kid | kid in trusted :: trusted[kid] == key
  }

  /** A checkpoint the verdict rests on: it vouches for the bundle's entries and covers the witnessed size. */
  predicate Carries(bundle: Bundle, i: nat, size: int, options: Options, verifies: Verifier)
    requires i < |bundle.checkpoints|
  {
    Vouches(bundle, i, options, RebuiltLeaves(bundle), verifies) && SizeOf(bundle.checkpoints[i].body) == Some(size)
  }

  /**
   * What the witness's key verifies on a checkpoint the verdict rests on, the witness signed, for this
   * organisation's log.
   */
  ghost predicate SignedByWitness(bundle: Bundle, size: int, options: Options, key: Text, events: seq<W.Event>,
                                  org: Text, log: Text, verifies: Verifier, c: Coercions)
  {
    forall i, sig | 0 <= i < |bundle.checkpoints| && Carries(bundle, i, size, options, verifies)
                    && SignedBy(bundle.checkpoints[i].body, key, sig, verifies) ::
      W.LogName(bundle.checkpoints[i].body, c) == log && HasSigned(events, org, bundle.checkpoints[i].body, verifies, c)
  }

  ghost predicate HasSigned(events: seq<W.Event>, org: Text, body: Json, verifies: Verifier, c: Coercions) {
    exists claim :: claim in W.Run(events, verifies, c).rows.signed && claim.body == body && claim.org == org
  }

  function PrefixPosition(leaves: seq<Digest>, n: nat): Position
    requires n <= |leaves|
  {
    Position(Amount(n as real), Raw(MerkleRoot(leaves[..n])))
  }

  lemma {:induction false} PrefixRecorded(body: Json, size: int, leaves: seq<Digest>, c: Coercions)
    requires 0 <= size <= |leaves| && SizeOf(body) == Some(size)
    requires Get(body, ROOT) == Some(Str(Raw(MerkleRoot(leaves[..size]))))
    ensures Recorded(body, c) == Some(PrefixPosition(leaves, size))
  {
    hide SizeOf, Get, Recorded, MerkleRoot, Raw;
    IntegerRecorded(body, size, Raw(MerkleRoot(leaves[..size])), c);
    DigestStored(Raw(MerkleRoot(leaves[..size])), MerkleRoot(leaves[..size]));
  }

  /** The witnessed size comes with a position the witness signed: the root of that many leaves of the bundle's tree. */
  lemma {:induction false} WitnessedPosition(bundle: Bundle, options: Options, verifies: Verifier, size: int, key: Text,
                                             events: seq<W.Event>, org: Text, log: Text, c: Coercions, leaves: seq<Digest>)
    returns (claim: W.Claim)
    requires BundleOk(bundle, options, verifies) && options.minWitnesses > 0 && options.trusted.Some?
    requires Largest(bundle, |bundle.checkpoints|, options, RebuiltLeaves(bundle), verifies, Some(size))
    requires PinsOnly(options.trusted.value, key) && SignedByWitness(bundle, size, options, key, events, org, log, verifies, c)
    requires TreeOf(bundle, leaves)
    ensures claim in W.Run(events, verifies, c).rows.signed && W.ClaimKey(claim, c) == W.PositionKey(org, log)
    ensures 0 <= size <= |leaves|
    ensures Recorded(claim.body, c) == Some(PrefixPosition(leaves, size))
  {
    hide *;
    CompleteWhenNotPartial(bundle, options, verifies);
    var i := Carrier(bundle, options, verifies, size);
    VouchingAnchors(bundle, i, options, verifies);
    AnchorSays(bundle, i, size, options, verifies, leaves);
    var sig := AnchorSignature(bundle, i, size, options, verifies, key);
    claim := ClaimOf(bundle, i, sig, size, options, key, events, org, log, verifies, c);
    PrefixRecorded(claim.body, size, leaves, c);
  }

  lemma {:induction false} Carrier(bundle: Bundle, options: Options, verifies: Verifier, size: int) returns (i: nat)
    requires Largest(bundle, |bundle.checkpoints|, options, RebuiltLeaves(bundle), verifies, Some(size))
    ensures i < |bundle.checkpoints| && Carries(bundle, i, size, options, verifies)
    ensures Vouches(bundle, i, options, RebuiltLeaves(bundle), verifies)
    ensures SizeOf(bundle.checkpoints[i].body) == Some(size)
  {
    hide Vouches, SizeOf, RebuiltLeaves;
    i :| 0 <= i < |bundle.checkpoints| && Vouches(bundle, i, options, RebuiltLeaves(bundle), verifies)
         && SizeOf(bundle.checkpoints[i].body) == Some(size);
  }

  lemma {:induction false} AnchorSays(bundle: Bundle, i: nat, size: int, options: Options, verifies: Verifier, leaves: seq<Digest>)
    requires i < |bundle.checkpoints| && options.trusted.Some? && Anchors(bundle, i, size, options, verifies)
    requires TreeOf(bundle, leaves)
    ensures SizeOf(bundle.checkpoints[i].body) == Some(size) && 0 <= size <= |leaves|
    ensures Get(bundle.checkpoints[i].body, ROOT) == Some(Str(Raw(MerkleRoot(leaves[..size]))))
  {
    hide TreeOf, SizeOf, Get, MerkleRoot, Raw, Witnessed;
  }

  lemma {:induction false} AnchorSignature(bundle: Bundle, i: nat, size: int, options: Options, verifies: Verifier, key: Text)
    returns (sig: Text)
    requires i < |bundle.checkpoints| && options.trusted.Some? && Anchors(bundle, i, size, options, verifies)
    requires options.minWitnesses > 0 && PinsOnly(options.trusted.value, key)
    ensures SignedBy(bundle.checkpoints[i].body, key, sig, verifies)
  {
    hide TreeOf, SizeOf, Get, SignedBy;
    var keys: set<Text> :|
      |keys| >= options.minWitnesses && AllSigned(bundle.checkpoints[i], keys, options.trusted.value, verifies);
    assert keys != {};
    var k :| k in keys;
    sig := PinnedSignature(bundle.checkpoints[i], k, options.trusted.value, verifies);
  }

  lemma {:induction false} PinnedSignature(checkpoint: Checkpoint, key: Text, trusted: Keyring, verifies: Verifier)
    returns (sig: Text)
    requires PinnedKeySigned(checkpoint, key, trusted, verifies)
    ensures SignedBy(checkpoint.body, key, sig, verifies) && exists kid | kid in trusted :: trusted[kid] == key
  {
    hide SignedBy;
    var j :| 0 <= j < |checkpoint.sigs| && PinnedBy(checkpoint, j, key, trusted, verifies);
    sig := checkpoint.sigs[j].sig;
  }

  lemma {:induction false} ClaimOf(bundle: Bundle, i: nat, sig: Text, size: int, options: Options, key: Text,
                                   events: seq<W.Event>, org: Text, log: Text, verifies: Verifier, c: Coercions)
    returns (claim: W.Claim)
    requires i < |bundle.checkpoints| && Carries(bundle, i, size, options, verifies)
    requires SignedBy(bundle.checkpoints[i].body, key, sig, verifies)
    requires SignedByWitness(bundle, size, options, key, events, org, log, verifies, c)
    ensures claim in W.Run(events, verifies, c).rows.signed && claim.body == bundle.checkpoints[i].body
    ensures W.ClaimKey(claim, c) == W.PositionKey(org, log)
  {
    hide SignedBy, W.Run, Carries, W.LogName, W.PositionKey;
    assert HasSigned(events, org, bundle.checkpoints[i].body, verifies, c);
    claim :| claim in W.Run(events, verifies, c).rows.signed && claim.body == bundle.checkpoints[i].body && claim.org == org;
  }

  /** Trees that a witness signed prefixes of are one tree as far as the shorter prefix goes. */
  lemma {:induction false} PrefixesAgree(la: seq<Digest>, lb: seq<Digest>, sa: nat, sb: nat)
    requires sa <= |la| && sb <= |lb|
    requires Extends(PrefixPosition(la, sa), PrefixPosition(lb, sb))
    ensures sa <= sb && la[..sa] == lb[..sa]
  {
    hide MerkleRoot, Raw;
    if sa > 0 {
      assert sa <= sb && Raw(MerkleRoot(la[..sa])) == Raw(MerkleRoot(lb[..sa])) by {
        assert lb[..sb][..sa] == lb[..sa] || sb < sa;
      }
      RawInjective(MerkleRoot(la[..sa]), MerkleRoot(lb[..sa]));
      MerkleUnique.RootDeterminesLeaves(la[..sa], lb[..sa]);
    }
  }

  lemma {:induction false} SharedPrefix(la: seq<Digest>, lb: seq<Digest>, sa: nat, sb: nat, events: seq<W.Event>,
                                        verifies: Verifier, c: Coercions, ca: W.Claim, cb: W.Claim)
    requires sa <= |la| && sb <= |lb| && Coherent(c) && W.OrderlyRun(events, verifies, c)
    requires ca in W.Run(events, verifies, c).rows.signed && cb in W.Run(events, verifies, c).rows.signed
    requires W.ClaimKey(ca, c) == W.ClaimKey(cb, c)
    requires Recorded(ca.body, c) == Some(PrefixPosition(la, sa)) && Recorded(cb.body, c) == Some(PrefixPosition(lb, sb))
    ensures forall n | 0 <= n < sa && n < sb :: la[n] == lb[n]
  {
    hide W.Run, W.OrderlyRun, W.ClaimKey, Recorded, PrefixPosition, Extends, Coherent, W.Authentic;
    W.SignedOneHistory(events, verifies, c, ca, cb);
    if Extends(PrefixPosition(la, sa), PrefixPosition(lb, sb)) {
      PrefixesAgree(la, lb, sa, sb);
    } else {
      PrefixesAgree(lb, la, sb, sa);
    }
    var least := if sa <= sb then sa else sb;
    forall n | 0 <= n < sa && n < sb ensures la[n] == lb[n] {
      assert la[n] == la[..least][n] && lb[n] == lb[..least][n];
    }
  }

  /** Receipts with the same canonical bytes, which are the same where no text in them has an unpaired surrogate. */
  predicate SameReceipt(a: Json, b: Json) {
    RepairedJson(a) == RepairedJson(b) && (Intact(a) && Intact(b) ==> a == b)
  }

  lemma {:induction false} AlikeIsSameReceipt(a: Json, b: Json)
    requires RepairedJson(a) == RepairedJson(b)
    ensures SameReceipt(a, b)
  {
    hide RepairedJson;
  }

  /**
   * No split view. Two bundles pass with at least one witness demanded, both verifiers pin only one
   * honest witness, and the checkpoints their verdicts rest on name one log, for which it signed them
   * for one organisation. The requests that witness accepted were orderly, which all are whose size is
   * a number up to 2 to the 32. Then every sequence number below both witnessed sizes that both bundles hold carries the
   * same receipt in both, complete or filtered, whatever trees they were exported from. The same receipt
   * is one with the same canonical bytes, and so the same value, unpaired surrogates aside.
   */
  lemma {:induction false} NoSplitView(a: Bundle, oa: Options, sa: int, la: seq<Digest>, i: nat,
                                       b: Bundle, ob: Options, sb: int, lb: seq<Digest>, j: nat,
                                       key: Text, events: seq<W.Event>, org: Text, log: Text, verifies: Verifier,
                                       c: Coercions, n: int)
    requires BundleOk(a, oa, verifies) && oa.minWitnesses > 0 && oa.trusted.Some?
    requires BundleOk(b, ob, verifies) && ob.minWitnesses > 0 && ob.trusted.Some?
    requires Largest(a, |a.checkpoints|, oa, RebuiltLeaves(a), verifies, Some(sa))
    requires Largest(b, |b.checkpoints|, ob, RebuiltLeaves(b), verifies, Some(sb))
    requires PinsOnly(oa.trusted.value, key) && PinsOnly(ob.trusted.value, key)
    requires Coherent(c) && W.OrderlyRun(events, verifies, c)
    requires SignedByWitness(a, sa, oa, key, events, org, log, verifies, c)
    requires SignedByWitness(b, sb, ob, key, events, org, log, verifies, c)
    requires TreeOf(a, la) && TreeOf(b, lb)
    requires i < |a.entries| && j < |b.entries|
    requires SeqOf(a.entries[i].receipt) == Some(n) && SeqOf(b.entries[j].receipt) == Some(n) && n < sa && n < sb
    ensures SameReceipt(a.entries[i].receipt, b.entries[j].receipt)
  {
    hide *;
    var ca := WitnessedPosition(a, oa, verifies, sa, key, events, org, log, c, la);
    var cb := WitnessedPosition(b, ob, verifies, sb, key, events, org, log, c, lb);
    SharedPrefix(la, lb, sa, sb, events, verifies, c, ca, cb);
    EntryInTree(a, oa, verifies, i, la);
    SameEntry(a, oa, b, ob, verifies, la, lb, i, j, n);
    AlikeIsSameReceipt(a.entries[i].receipt, b.entries[j].receipt);
  }

  /** For complete bundles the tree is the bundle's own: the shorter witnessed run of entries is a prefix of both. */
  lemma {:induction false} CompleteBundlesAgree(a: Bundle, oa: Options, sa: int, b: Bundle, ob: Options, sb: int,
                                                key: Text, events: seq<W.Event>, org: Text, log: Text, verifies: Verifier,
                                                c: Coercions, n: nat)
    requires BundleOk(a, oa, verifies) && oa.minWitnesses > 0 && oa.trusted.Some? && !a.partial
    requires BundleOk(b, ob, verifies) && ob.minWitnesses > 0 && ob.trusted.Some? && !b.partial
    requires Largest(a, |a.checkpoints|, oa, RebuiltLeaves(a), verifies, Some(sa))
    requires Largest(b, |b.checkpoints|, ob, RebuiltLeaves(b), verifies, Some(sb))
    requires PinsOnly(oa.trusted.value, key) && PinsOnly(ob.trusted.value, key)
    requires Coherent(c) && W.OrderlyRun(events, verifies, c)
    requires SignedByWitness(a, sa, oa, key, events, org, log, verifies, c)
    requires SignedByWitness(b, sb, ob, key, events, org, log, verifies, c)
    requires n < sa && n < sb
    ensures n < |a.entries| && n < |b.entries| && SameReceipt(a.entries[n].receipt, b.entries[n].receipt)
  {
    hide *;
    OwnTree(a, oa, verifies);
    OwnTree(b, ob, verifies);
    var la, lb := LeavesOf(ReceiptsOf(a.entries)), LeavesOf(ReceiptsOf(b.entries));
    var ca := WitnessedPosition(a, oa, verifies, sa, key, events, org, log, c, la);
    var cb := WitnessedPosition(b, ob, verifies, sb, key, events, org, log, c, lb);
    OwnSeq(a, oa, verifies, n);
    OwnSeq(b, ob, verifies, n);
    NoSplitView(a, oa, sa, la, n, b, ob, sb, lb, n, key, events, org, log, verifies, c, n);
  }

  lemma {:induction false} OwnTree(bundle: Bundle, options: Options, verifies: Verifier)
    requires BundleOk(bundle, options, verifies) && !bundle.partial
    ensures TreeOf(bundle, LeavesOf(ReceiptsOf(bundle.entries)))
    ensures |bundle.entries| == bundle.treeSize == |LeavesOf(ReceiptsOf(bundle.entries))|
  {
    hide BundleOk, ReceiptsOf, LeavesOf, MerkleRoot, ChainSound, HistoriesOk, HeadOf, GenesisPrev;
    CompleteBundle(bundle, options, verifies, ReceiptsOf(bundle.entries));
  }

  lemma {:induction false} OwnSeq(bundle: Bundle, options: Options, verifies: Verifier, n: nat)
    requires BundleOk(bundle, options, verifies) && !bundle.partial && n < |bundle.entries|
    ensures SeqOf(bundle.entries[n].receipt) == Some(n)
  {
    hide BundleOk, LeavesOf, MerkleRoot, ChainSound, HistoriesOk, HeadOf, GenesisPrev, SeqOf, ReceiptSound, PrevOf;
    var receipts := ReceiptsOf(bundle.entries);
    CompleteBundle(bundle, options, verifies, receipts);
    ChainUnfold(receipts, bundle.keyring, verifies, 0, GenesisPrev(), n);
    assert receipts[n] == bundle.entries[n].receipt;
  }
}
