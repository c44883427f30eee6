/** log.js `verifyBundleUnchecked`, `anchorCheckpoints`: the bundle verifier, step by step. */
module BundleVerifier {
  import opened Wrappers
  import opened Hashing
  import opened Canonical
  import opened JsonObjects
  import opened Merkle
  import opened MerkleProofs
  import opened MerkleTrees
  import opened Receipts
  import opened Checkpoints
  import opened Bundles

  datatype BundleIssue =
    | NotABundle | UnexpectedRoot | BadMinimum | NoTrustedKeys | BadCheckpoint | BadEntry | MalformedEntry
    | BadTreeSize | BadHead | EntriesLeftOut | BadRoot | CheckpointBeyond | HistoryRewritten | NotWitnessed | BadReceipt

  method VerifyCheckpoints(bundle: Bundle, options: Options, verifies: Verifier)
    returns (results: seq<bool>, issues: seq<BundleIssue>)
    ensures |results| == |bundle.checkpoints|
    ensures forall i | 0 <= i < |results| ::
      results[i] <==> CheckpointOk(bundle.checkpoints[i], bundle.keyring, Demanded(options), options.trusted, verifies)
    ensures issues == [] <==> CheckpointsOk(bundle, options, verifies)
  {
    hide CheckpointOk, Demanded;
    results, issues := [], [];
    for i := 0 to |bundle.checkpoints|
      invariant |results| == i
      invariant forall j | 0 <= j < i ::
        results[j] <==> CheckpointOk(bundle.checkpoints[j], bundle.keyring, Demanded(options), options.trusted, verifies)
      invariant issues == [] <==> forall j | 0 <= j < i :: results[j]
    {
      var found, _ := VerifyCheckpoint(bundle.checkpoints[i], bundle.keyring, Demanded(options), options.trusted, verifies);
      results := results + [found == []];
      if found != [] {
        issues := issues + [BadCheckpoint];
      }
    }
  }

  /** Receipts without a sequence number are reported and left out of everything that follows. */
  method VerifyEntries(bundle: Bundle) returns (receipts: seq<Json>, leaves: seq<Digest>, issues: seq<BundleIssue>)
    ensures issues == [] <==> EntriesOk(bundle)
    ensures issues == [] ==> receipts == ReceiptsOf(bundle.entries)
    ensures leaves == LeavesOf(receipts)
  {
    hide InclusionAccepted, EntryHash, SeqOf;
    receipts, leaves, issues := [], [], [];
    for k := 0 to |bundle.entries|
      invariant leaves == LeavesOf(receipts)
      invariant issues == [] <==> forall i | 0 <= i < k :: EntryOk(bundle, bundle.entries[i])
      invariant issues == [] ==> receipts == ReceiptsOf(bundle.entries[..k])
    {
      var entry := bundle.entries[k];
      if SeqOf(entry.receipt).None? {
        issues := issues + [MalformedEntry];
      } else {
        var leaf := EntryHash(entry.receipt);
        receipts := receipts + [entry.receipt];
        leaves := leaves + [leaf];
        var ok := VerifyInclusion(Raw(leaf), SeqOf(entry.receipt).value, bundle.treeSize, entry.proof, bundle.root);
        if !ok {
          issues := issues + [BadEntry];
        }
      }
    }
    assert bundle.entries[..|bundle.entries|] == bundle.entries;
  }

  method CheckHead(bundle: Bundle, receipts: seq<Json>) returns (issues: seq<BundleIssue>)
    ensures issues == [] <==> HeadOk(bundle, receipts)
  {
    hide EntryHash, SeqOf, Raw;
    issues := [];
    for i := 0 to |receipts|
      invariant issues == [] && forall j | 0 <= j < i :: SeqOf(receipts[j]) != Some(bundle.treeSize - 1)
    {
      if SeqOf(receipts[i]) == Some(bundle.treeSize - 1) {
        assert IsTip(receipts, i, bundle.treeSize);
        if bundle.head != Raw(EntryHash(receipts[i])) {
          issues := [BadHead];
        }
        return;
      }
    }
  }

  /** One pass over the entries gives the final root and every earlier root a checkpoint names. */
  method RebuildRoots(leaves: seq<Digest>, wanted: set<int>) returns (root: Digest, prefixRoots: map<int, Bytes>)
    ensures root == MerkleRoot(leaves)
    ensures forall size | size in prefixRoots ::
      0 <= size <= |leaves| && prefixRoots[size] == Raw(MerkleRoot(leaves[..size]))
    ensures forall size | size in wanted && 0 <= size <= |leaves| :: size in prefixRoots
  {
    hide MerkleRoot, StackFor, Raw;
    prefixRoots := map[];
    var tree := new MerkleTree([]);
    if 0 in wanted {
      var empty := tree.Root();
      prefixRoots := prefixRoots[0 := Raw(empty)];
      assert leaves[..0] == [];
    }
    for k := 0 to |leaves|
      invariant tree.Valid() && fresh(tree) && tree.leaves == leaves[..k]
      invariant forall size | size in prefixRoots ::
        0 <= size <= k && prefixRoots[size] == Raw(MerkleRoot(leaves[..size]))
      invariant forall size | size in wanted && 0 <= size <= k :: size in prefixRoots
    {
      var _ := tree.Append(leaves[k]);
      assert leaves[..k + 1] == leaves[..k] + [leaves[k]];
      if k + 1 in wanted {
        var current := tree.Root();
        prefixRoots := prefixRoots[k + 1 := Raw(current)];
      }
    }
    assert leaves[..|leaves|] == leaves;
    root := tree.Root();
  }

  /** `prefixRoots.get(size)` */
  function RootFor(prefixRoots: map<int, Bytes>, size: int): Option<Json> {
    if size in prefixRoots then Some(Str(prefixRoots[size])) else None
  }

  /** The map answers for every size a checkpoint names. */
  predicate RootsKnown(prefixRoots: map<int, Bytes>, leaves: seq<Digest>, checkpoints: seq<Checkpoint>) {
    forall i | 0 <= i < |checkpoints| && SizeOf(checkpoints[i].body).Some? ::
      RootFor(prefixRoots, SizeOf(checkpoints[i].body).value) == PrefixRoot(leaves, SizeOf(checkpoints[i].body).value)
  }

  lemma {:induction false} RootsAreKnown(prefixRoots: map<int, Bytes>, leaves: seq<Digest>, checkpoints: seq<Checkpoint>,
                                         wanted: set<int>)
    requires forall i | 0 <= i < |checkpoints| && SizeOf(checkpoints[i].body).Some? ::
      SizeOf(checkpoints[i].body).value in wanted
    requires forall size | size in prefixRoots ::
      0 <= size <= |leaves| && prefixRoots[size] == Raw(MerkleRoot(leaves[..size]))
    requires forall size | size in wanted && 0 <= size <= |leaves| :: size in prefixRoots
    ensures RootsKnown(prefixRoots, leaves, checkpoints)
  {
    hide SizeOf, Raw, MerkleRoot;
  }

  method CheckComplete(bundle: Bundle, receipts: seq<Json>, leaves: seq<Digest>)
    returns (prefixRoots: Option<map<int, Bytes>>, issues: seq<BundleIssue>)
    requires leaves == LeavesOf(receipts)
    ensures issues == [] <==> CompleteOk(bundle, receipts)
    ensures prefixRoots.Some? ==> RootsKnown(prefixRoots.value, leaves, bundle.checkpoints)
    ensures issues == [] ==> prefixRoots.Some?
  {
    hide SizeOf, Get, LeavesOf, Raw, RootsKnown, PrefixRoot, MerkleRoot, GenesisPrev;
    issues := [];
    if |receipts| != bundle.treeSize {
      return None, [EntriesLeftOut];
    }
    var wanted := set i | 0 <= i < |bundle.checkpoints| && SizeOf(bundle.checkpoints[i].body).Some? ::
      SizeOf(bundle.checkpoints[i].body).value;
    var root, roots := RebuildRoots(leaves, wanted);
    RootsAreKnown(roots, leaves, bundle.checkpoints, wanted);
    if Raw(root) != bundle.root {
      issues := issues + [BadRoot];
    }
    if bundle.treeSize == 0 && bundle.head != GenesisPrev() {
      issues := issues + [BadHead];
    }
    var found := CheckHistory(bundle, roots, leaves);
    return Some(roots), issues + found;
  }

  method CheckHistory(bundle: Bundle, roots: map<int, Bytes>, leaves: seq<Digest>) returns (issues: seq<BundleIssue>)
    requires RootsKnown(roots, leaves, bundle.checkpoints) && |leaves| == bundle.treeSize
    ensures issues == [] <==> HistoriesOk(bundle.checkpoints, leaves)
  {
    hide SizeOf, Get, PrefixRoot, RootFor;
    issues := [];
    for i := 0 to |bundle.checkpoints|
      invariant issues == [] <==> forall j | 0 <= j < i :: HistoryOk(bundle.checkpoints[j], leaves)
    {
      var body := bundle.checkpoints[i].body;
      var size := SizeOf(body);
      if size.None? {
        continue;
      }
      if size.value > bundle.treeSize {
        issues := issues + [CheckpointBeyond];
        continue;
      }
      if RootFor(roots, size.value) != Get(body, ROOT) {
        issues := issues + [HistoryRewritten];
      }
    }
  }

  method AnchorCheckpoints(bundle: Bundle, prefixRoots: Option<map<int, Bytes>>, results: seq<bool>,
                           ghost leaves: Option<seq<Digest>>, ghost options: Options, ghost verifies: Verifier)
    returns (best: Option<int>, issues: seq<BundleIssue>)
    requires |results| == |bundle.checkpoints|
    requires forall i | 0 <= i < |results| ::
      results[i] <==> CheckpointOk(bundle.checkpoints[i], bundle.keyring, Demanded(options), options.trusted, verifies)
    requires prefixRoots.Some? <==> leaves.Some?
    requires prefixRoots.Some? ==> RootsKnown(prefixRoots.value, leaves.value, bundle.checkpoints)
    ensures Largest(bundle, |bundle.checkpoints|, options, leaves, verifies, best)
    ensures issues == [] <==>
            prefixRoots.Some? || forall i | 0 <= i < |bundle.checkpoints| :: !Contradicted(bundle, bundle.checkpoints[i].body)
  {
    hide CheckpointOk, Demanded, Anchored, Contradicted, Largest, RootsKnown, SizeOf;
    best, issues := None, [];
    NoneYet(bundle, options, leaves, verifies);
    for i := 0 to |bundle.checkpoints|
      invariant Largest(bundle, i, options, leaves, verifies, best)
      invariant issues == [] <==>
        prefixRoots.Some? || forall j | 0 <= j < i :: !Contradicted(bundle, bundle.checkpoints[j].body)
    {
      var anchored, found := Anchor(bundle, prefixRoots, bundle.checkpoints[i].body, i, leaves);
      issues := issues + found;
      var before := best;
      if anchored && results[i] {
        AnchoredSize(bundle, leaves, bundle.checkpoints[i].body);
        var size := SizeOf(bundle.checkpoints[i].body).value;
        if best.None? || size > best.value {
          best := Some(size);
        }
      }
      LargestGrows(bundle, i, options, leaves, verifies, before, best);
    }
  }

  lemma {:induction false} NoneYet(bundle: Bundle, options: Options, leaves: Option<seq<Digest>>, verifies: Verifier)
    ensures Largest(bundle, 0, options, leaves, verifies, None)
  {
  }

  lemma {:induction false} LargestGrows(bundle: Bundle, i: nat, options: Options, leaves: Option<seq<Digest>>,
                                        verifies: Verifier, before: Option<int>, best: Option<int>)
    requires i < |bundle.checkpoints| && Largest(bundle, i, options, leaves, verifies, before)
    requires Vouches(bundle, i, options, leaves, verifies) ==> SizeOf(bundle.checkpoints[i].body).Some?
    requires best ==
      if Vouches(bundle, i, options, leaves, verifies)
         && (before.None? || SizeOf(bundle.checkpoints[i].body).value > before.value)
      then SizeOf(bundle.checkpoints[i].body) else before
    ensures Largest(bundle, i + 1, options, leaves, verifies, best)
  {
    hide Vouches, SizeOf;
  }

  /** One checkpoint: is its root tied to the bundle's tree, and is it contradicted by it? */
  method Anchor(bundle: Bundle, prefixRoots: Option<map<int, Bytes>>, body: Json, ghost i: nat,
                ghost leaves: Option<seq<Digest>>)
    returns (anchored: bool, issues: seq<BundleIssue>)
    requires i < |bundle.checkpoints| && body == bundle.checkpoints[i].body
    requires prefixRoots.Some? <==> leaves.Some?
    requires prefixRoots.Some? ==> RootsKnown(prefixRoots.value, leaves.value, bundle.checkpoints)
    ensures anchored <==> Anchored(bundle, leaves, body)
    ensures issues == [] <==> prefixRoots.Some? || !Contradicted(bundle, body)
  {
    hide SizeOf, Get, ConsistencyAccepted, PrefixRoot, MerkleRoot, Raw;
    anchored, issues := false, [];
    if SizeOf(body).None? || SizeOf(body).value < 0 {
      return;
    }
    var size, n := SizeOf(body).value, bundle.treeSize;
    if prefixRoots.Some? {
      anchored := size <= n && size in prefixRoots.value && Get(body, ROOT) == Some(Str(prefixRoots.value[size]));
    } else if size > n {
      issues := [CheckpointBeyond];
    } else if size == n {
      anchored := Get(body, ROOT) == Some(Str(bundle.root));
      if !anchored {
        issues := [HistoryRewritten];
      }
    } else if size == 0 {
      anchored := Get(body, ROOT) == Some(Str(Raw(EmptyRoot())));
    } else if size in bundle.consistency {
      if RootOf(body).Some? {
        anchored := VerifyConsistency(size, n, RootOf(body).value, bundle.root, bundle.consistency[size]);
      }
      if !anchored {
        issues := [HistoryRewritten];
      }
    }
  }

  method VerifyReceipts(bundle: Bundle, receipts: seq<Json>, verifies: Verifier) returns (issues: seq<BundleIssue>)
    ensures issues == [] <==> ReceiptsOk(bundle, receipts, verifies)
  {
    hide ChainSound, ReceiptSound, WellFormed, Attested, KeyFor, SignatureHolds, Linked, GenesisPrev, HeadOf;
    issues := [];
    if !bundle.partial {
      var found, _ := VerifyChain(receipts, bundle.keyring, verifies, 0, GenesisPrev());
      if found != [] {
        issues := [BadReceipt];
      }
      return;
    }
    for i := 0 to |receipts|
      invariant issues == [] <==> forall j | 0 <= j < i :: ReceiptSound(receipts[j], bundle.keyring, verifies)
    {
      var found := VerifyReceipt(receipts[i], bundle.keyring, verifies);
      if found != [] {
        issues := issues + [BadReceipt];
      }
    }
  }

  /** The verdict is exactly `BundleOk`, and a passing verdict reports the largest size that is vouched for. */
  method VerifyBundle(bundle: Bundle, options: Options, verifies: Verifier)
    returns (issues: seq<BundleIssue>, checked: nat, witnessedSize: Option<int>)
    ensures issues == [] <==> BundleOk(bundle, options, verifies)
    ensures checked == if bundle.known && options.minWitnesses >= 0 then |bundle.entries| else 0
    ensures issues == [] ==>
            Largest(bundle, |bundle.checkpoints|, options, RebuiltLeaves(bundle), verifies, witnessedSize)
  {
    hide CheckpointsOk, EntriesOk, HeadOk, CompleteOk, Contradicted, Vouches, ReceiptsOk, ReceiptsOf, LeavesOf, Largest,
      CheckpointOk, RootsKnown, SomeVouches;
    issues, checked, witnessedSize := [], 0, None;
    if !bundle.known {
      return [NotABundle], 0, None;
    }
    if options.expectRoot.Some? && options.expectRoot.value != bundle.root {
      issues := issues + [UnexpectedRoot];
    }
    if options.minWitnesses < 0 {
      return [BadMinimum], 0, None;
    }
    if options.minWitnesses > 0 && options.trusted.None? {
      issues := issues + [NoTrustedKeys];
    }
    assert issues == [] <==> OptionsOk(bundle, options);
    var results, badCheckpoints := VerifyCheckpoints(bundle, options, verifies);
    var receipts, leaves, badEntries := VerifyEntries(bundle);
    checked := |bundle.entries|;
    issues := issues + badCheckpoints + badEntries;
    if bundle.treeSize < 0 {
      issues := issues + [BadTreeSize];
    }
    var badHead := CheckHead(bundle, receipts);
    issues := issues + badHead;
    var prefixRoots: Option<map<int, Bytes>> := None;
    if !bundle.partial {
      var incomplete;
      prefixRoots, incomplete := CheckComplete(bundle, receipts, leaves);
      issues := issues + incomplete;
    }
    ghost var rebuilt := if prefixRoots.Some? then Some(leaves) else None;
    var badAnchors;
    witnessedSize, badAnchors := AnchorCheckpoints(bundle, prefixRoots, results, rebuilt, options, verifies);
    issues := issues + badAnchors;
    if options.trusted.Some? && options.minWitnesses > 0 && witnessedSize.None? {
      issues := issues + [NotWitnessed];
    }
    LargestExists(bundle, options, rebuilt, verifies, witnessedSize);
    var badReceipts := VerifyReceipts(bundle, receipts, verifies);
    issues := issues + badReceipts;
  }

  lemma {:induction false} LargestExists(bundle: Bundle, options: Options, leaves: Option<seq<Digest>>, verifies: Verifier,
                                         best: Option<int>)
    requires Largest(bundle, |bundle.checkpoints|, options, leaves, verifies, best)
    ensures best.Some? <==> SomeVouches(bundle, options, leaves, verifies)
  {
    hide Vouches, SizeOf;
  }
}
