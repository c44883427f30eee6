/** log.js: evidence bundles, what a passing verdict requires, and which checkpoints vouch for the entries. */
module Bundles {
  import opened Wrappers
  import opened Hashing
  import opened Canonical
  import opened JsonObjects
  import opened Utf8
  import opened JsonBytes
  import opened Merkle
  import opened MerkleProofs
  import opened Receipts
  import opened Checkpoints
  import MerkleUnique

  datatype Entry = Entry(receipt: Json, proof: seq<Bytes>)

  /** `known` says that the file calls itself a version 1 bundle. */
  datatype Bundle = Bundle(known: bool, log: Text, treeSize: int, root: Bytes, head: Text, keyring: Keyring,
                           checkpoints: seq<Checkpoint>, consistency: map<int, seq<Bytes>>, partial: bool,
                           entries: seq<Entry>)

  datatype Options = Options(expectRoot: Option<Bytes>, minWitnesses: int, trusted: Option<Keyring>)

  function ReceiptsOf(entries: seq<Entry>): (receipts: seq<Json>)
    ensures |receipts| == |entries|
  {
    seq(|entries|, i requires 0 <= i < |entries| => entries[i].receipt)
  }

  function LeavesOf(receipts: seq<Json>): (leaves: seq<Digest>)
    ensures |leaves| == |receipts|
  {
    seq(|receipts|, i requires 0 <= i < |receipts| => EntryHash(receipts[i]))
  }

  /** The entry's receipt is provably at its own sequence number in the tree. */
  predicate EntryOk(bundle: Bundle, entry: Entry) {
    && SeqOf(entry.receipt).Some?
    && InclusionAccepted(Raw(EntryHash(entry.receipt)), SeqOf(entry.receipt).value, bundle.treeSize, entry.proof, bundle.root)
  }

  /** The first receipt that claims to be the last entry. */
  predicate IsTip(receipts: seq<Json>, i: nat, treeSize: int)
    requires i < |receipts|
  {
    && SeqOf(receipts[i]) == Some(treeSize - 1)
    && forall j | 0 <= j < i :: SeqOf(receipts[j]) != Some(treeSize - 1)
  }

  predicate HeadOk(bundle: Bundle, receipts: seq<Json>) {
    forall i | 0 <= i < |receipts| && IsTip(receipts, i, bundle.treeSize) :: bundle.head == Raw(EntryHash(receipts[i]))
  }

  /** What `prefixRoots.get(size)` answers for a rebuilt tree. */
  function PrefixRoot(leaves: seq<Digest>, size: int): Option<Json> {
    if 0 <= size <= |leaves| then Some(Str(Raw(MerkleRoot(leaves[..size])))) else None
  }

  /** A complete bundle's checkpoint names the root its own entries had at that size. */
  predicate HistoryOk(checkpoint: Checkpoint, leaves: seq<Digest>) {
    var size := SizeOf(checkpoint.body);
    size.Some? ==> size.value <= |leaves| && Get(checkpoint.body, ROOT) == PrefixRoot(leaves, size.value)
  }

  predicate HistoriesOk(checkpoints: seq<Checkpoint>, leaves: seq<Digest>) {
    forall i | 0 <= i < |checkpoints| :: HistoryOk(checkpoints[i], leaves)
  }

  predicate CompleteOk(bundle: Bundle, receipts: seq<Json>) {
    && |receipts| == bundle.treeSize
    && bundle.root == Raw(MerkleRoot(LeavesOf(receipts)))
    && (bundle.treeSize == 0 ==> bundle.head == GenesisPrev())
    && HistoriesOk(bundle.checkpoints, LeavesOf(receipts))
  }

  // ----------------------------------------------------------------- anchoring

  predicate ProofHolds(bundle: Bundle, body: Json, size: int) {
    && size in bundle.consistency
    && RootOf(body).Some?
    && ConsistencyAccepted(size, bundle.treeSize, RootOf(body).value, bundle.root, bundle.consistency[size])
  }

  /** The checkpoint's root is tied to the bundle's own tree. */
  predicate Anchored(bundle: Bundle, leaves: Option<seq<Digest>>, body: Json) {
    SizeOf(body).Some? && SizeOf(body).value >= 0 &&
    var size, root := SizeOf(body).value, Get(body, ROOT);
    if leaves.Some? then size <= bundle.treeSize && root == PrefixRoot(leaves.value, size) && root.Some?
    else if size > bundle.treeSize then false
    else if size == bundle.treeSize then root == Some(Str(bundle.root))
    else if size == 0 then root == Some(Str(Raw(EmptyRoot())))
    else ProofHolds(bundle, body, size)
  }

  /** Where anchoring applies and fails: an issue of its own in a filtered bundle. */
  predicate Contradicted(bundle: Bundle, body: Json) {
    SizeOf(body).Some? && SizeOf(body).value >= 0 &&
    var size := SizeOf(body).value;
    || size > bundle.treeSize
    || (size == bundle.treeSize && Get(body, ROOT) != Some(Str(bundle.root)))
    || (0 < size < bundle.treeSize && size in bundle.consistency && !ProofHolds(bundle, body, size))
  }

  function Demanded(options: Options): int {
    if options.trusted.Some? then options.minWitnesses else 0
  }

  /** A checkpoint that passed its own verification and is tied to the bundle's tree. */
  predicate Vouches(bundle: Bundle, i: nat, options: Options, leaves: Option<seq<Digest>>, verifies: Verifier)
    requires i < |bundle.checkpoints|
  {
    && CheckpointOk(bundle.checkpoints[i], bundle.keyring, Demanded(options), options.trusted, verifies)
    && Anchored(bundle, leaves, bundle.checkpoints[i].body)
  }

  predicate SomeVouches(bundle: Bundle, options: Options, leaves: Option<seq<Digest>>, verifies: Verifier) {
    exists i | 0 <= i < |bundle.checkpoints| :: Vouches(bundle, i, options, leaves, verifies)
  }

  /** The largest size some vouching checkpoint among the first `n` covers. */
  predicate Largest(bundle: Bundle, n: nat, options: Options, leaves: Option<seq<Digest>>, verifies: Verifier,
                    best: Option<int>)
    requires n <= |bundle.checkpoints|
  {
    && (best.Some? ==> exists i | 0 <= i < n ::
          Vouches(bundle, i, options, leaves, verifies) && SizeOf(bundle.checkpoints[i].body) == best)
    && forall i | 0 <= i < n && Vouches(bundle, i, options, leaves, verifies) ::
         best.Some? && SizeOf(bundle.checkpoints[i].body).value <= best.value
  }

  function RebuiltLeaves(bundle: Bundle): Option<seq<Digest>> {
    if bundle.partial then None else Some(LeavesOf(ReceiptsOf(bundle.entries)))
  }

  // ------------------------------------------------------------------- verdict

  predicate OptionsOk(bundle: Bundle, options: Options) {
    && bundle.known
    && (options.expectRoot.Some? ==> options.expectRoot.value == bundle.root)
    && options.minWitnesses >= 0
    && (options.minWitnesses > 0 ==> options.trusted.Some?)
  }

  predicate WitnessesOk(bundle: Bundle, options: Options, verifies: Verifier) {
    options.trusted.Some? && options.minWitnesses > 0 ==>
      SomeVouches(bundle, options, RebuiltLeaves(bundle), verifies)
  }

  predicate CheckpointsOk(bundle: Bundle, options: Options, verifies: Verifier) {
    forall i | 0 <= i < |bundle.checkpoints| ::
      CheckpointOk(bundle.checkpoints[i], bundle.keyring, Demanded(options), options.trusted, verifies)
  }

  predicate EntriesOk(bundle: Bundle) {
    forall i | 0 <= i < |bundle.entries| :: EntryOk(bundle, bundle.entries[i])
  }

  predicate ReceiptsOk(bundle: Bundle, receipts: seq<Json>, verifies: Verifier) {
    if bundle.partial then forall i | 0 <= i < |receipts| :: ReceiptSound(receipts[i], bundle.keyring, verifies)
    else ChainSound(receipts, bundle.keyring, verifies, 0, GenesisPrev())
  }

  predicate ClaimsOk(bundle: Bundle, receipts: seq<Json>) {
    && bundle.treeSize >= 0
    && HeadOk(bundle, receipts)
    && if bundle.partial then forall i | 0 <= i < |bundle.checkpoints| :: !Contradicted(bundle, bundle.checkpoints[i].body)
       else CompleteOk(bundle, receipts)
  }

  predicate BundleOk(bundle: Bundle, options: Options, verifies: Verifier) {
    && OptionsOk(bundle, options)
    && CheckpointsOk(bundle, options, verifies)
    && EntriesOk(bundle)
    && ClaimsOk(bundle, ReceiptsOf(bundle.entries))
    && WitnessesOk(bundle, options, verifies)
    && ReceiptsOk(bundle, ReceiptsOf(bundle.entries), verifies)
  }

  // ------------------------------------------------- what a passing verdict says

  /** `leaves` could be the tree the bundle was exported from. */
  predicate TreeOf(bundle: Bundle, leaves: seq<Digest>) {
    |leaves| == bundle.treeSize && bundle.root == Raw(MerkleRoot(leaves))
  }

  /** An anchored checkpoint's root is the root of that many leaves of every tree the bundle could be of. */
  lemma {:induction false} AnchoredRoot(bundle: Bundle, body: Json, leaves: seq<Digest>)
    requires Anchored(bundle, RebuiltLeaves(bundle), body) && TreeOf(bundle, leaves)
    requires bundle.partial || CompleteOk(bundle, ReceiptsOf(bundle.entries))
    ensures 0 <= SizeOf(body).value <= |leaves|
    ensures Get(body, ROOT) == Some(Str(Raw(MerkleRoot(leaves[..SizeOf(body).value]))))
  {
    hide SizeOf, Get, MerkleRoot, InclusionAccepted, ConsistencyAccepted, ReceiptsOf, LeavesOf;
    var size := SizeOf(body).value;
    if !bundle.partial {
      CompleteTree(bundle, leaves);
    } else if size == bundle.treeSize {
      assert leaves[..size] == leaves;
    } else if size == 0 {
      EmptyPrefix(leaves);
    } else {
      ConsistencySound(leaves, size, RootOf(body).value, bundle.consistency[size]);
    }
  }

  lemma {:induction false} EmptyPrefix(leaves: seq<Digest>)
    ensures MerkleRoot(leaves[..0]) == EmptyRoot()
  {
  }

  lemma {:induction false} CompleteTree(bundle: Bundle, leaves: seq<Digest>)
    requires CompleteOk(bundle, ReceiptsOf(bundle.entries)) && TreeOf(bundle, leaves)
    ensures leaves == LeavesOf(ReceiptsOf(bundle.entries))
  {
    hide MerkleRoot, LeavesOf, ReceiptsOf, HistoryOk;
    var rebuilt := LeavesOf(ReceiptsOf(bundle.entries));
    RawInjective(MerkleRoot(leaves), MerkleRoot(rebuilt));
    MerkleUnique.RootDeterminesLeaves(leaves, rebuilt);
  }

  /** A pinned public key whose owner signed the body as a witness. */
  predicate PinnedKeySigned(checkpoint: Checkpoint, key: Text, trusted: Keyring, verifies: Verifier) {
    exists i | 0 <= i < |checkpoint.sigs| :: PinnedBy(checkpoint, i, key, trusted, verifies)
  }

  predicate PinnedBy(checkpoint: Checkpoint, i: nat, key: Text, trusted: Keyring, verifies: Verifier)
    requires i < |checkpoint.sigs|
  {
    var s := checkpoint.sigs[i];
    s.role == WitnessRole && s.kid in trusted && trusted[s.kid] == key && SignedBy(checkpoint.body, key, s.sig, verifies)
  }

  /** With pinned keys, the bundle's own keyring adds no witness. */
  lemma {:induction false} CountedArePinned(checkpoint: Checkpoint, keyring: Keyring, trusted: Keyring, verifies: Verifier)
    ensures AllSigned(checkpoint, WitnessKeys(checkpoint, |checkpoint.sigs|, keyring, Some(trusted), verifies), trusted, verifies)
  {
    hide SignedBy, Get, KeyringSignature;
    forall key | key in WitnessKeys(checkpoint, |checkpoint.sigs|, keyring, Some(trusted), verifies)
      ensures PinnedKeySigned(checkpoint, key, trusted, verifies)
    {
      var i :| 0 <= i < |checkpoint.sigs|
        && WitnessKey(checkpoint.body, checkpoint.sigs[i], keyring, Some(trusted), verifies) == Some(key);
      assert PinnedBy(checkpoint, i, key, trusted, verifies);
    }
  }

  /** At least `count` distinct pinned public keys signed the checkpoint. */
  ghost predicate Witnessed(checkpoint: Checkpoint, count: int, trusted: Keyring, verifies: Verifier) {
    exists keys: set<Text> :: |keys| >= count && AllSigned(checkpoint, keys, trusted, verifies)
  }

  predicate AllSigned(checkpoint: Checkpoint, keys: set<Text>, trusted: Keyring, verifies: Verifier) {
    forall key | key in keys :: PinnedKeySigned(checkpoint, key, trusted, verifies)
  }

  /** Checkpoint `i` carries the signatures, covers `size` entries and names the root every matching tree had there. */
  ghost predicate Anchors(bundle: Bundle, i: nat, size: int, options: Options, verifies: Verifier)
    requires i < |bundle.checkpoints| && options.trusted.Some?
  {
    var checkpoint := bundle.checkpoints[i];
    && SizeOf(checkpoint.body) == Some(size)
    && Witnessed(checkpoint, options.minWitnesses, options.trusted.value, verifies)
    && forall leaves | TreeOf(bundle, leaves) ::
         0 <= size <= |leaves| && Get(checkpoint.body, ROOT) == Some(Str(Raw(MerkleRoot(leaves[..size]))))
  }

  lemma {:induction false} VouchingAnchors(bundle: Bundle, i: nat, options: Options, verifies: Verifier)
    requires i < |bundle.checkpoints| && options.trusted.Some?
    requires Vouches(bundle, i, options, RebuiltLeaves(bundle), verifies)
    requires bundle.partial || CompleteOk(bundle, ReceiptsOf(bundle.entries))
    ensures SizeOf(bundle.checkpoints[i].body).Some?
    ensures Anchors(bundle, i, SizeOf(bundle.checkpoints[i].body).value, options, verifies)
  {
    hide SizeOf, Get, TreeOf, RebuiltLeaves, CompleteOk, ReceiptsOf, WitnessKeys, LogSigned, SignatureOk, PinnedKeySigned;
    var checkpoint := bundle.checkpoints[i];
    CountedArePinned(checkpoint, bundle.keyring, options.trusted.value, verifies);
    AnchoredSize(bundle, RebuiltLeaves(bundle), checkpoint.body);
    forall leaves | TreeOf(bundle, leaves)
      ensures 0 <= SizeOf(checkpoint.body).value <= |leaves|
      ensures Get(checkpoint.body, ROOT) == Some(Str(Raw(MerkleRoot(leaves[..SizeOf(checkpoint.body).value]))))
    {
      AnchoredRoot(bundle, checkpoint.body, leaves);
    }
  }

  lemma {:induction false} AnchoredSize(bundle: Bundle, leaves: Option<seq<Digest>>, body: Json)
    requires Anchored(bundle, leaves, body)
    ensures SizeOf(body).Some? && SizeOf(body).value >= 0
  {
  }

  /**
   * Witness anchoring. If a bundle passes with `k` witnesses demanded of pinned keys, some checkpoint
   * is signed by at least `k` distinct pinned public keys and names the root of the first
   * `witnessedSize` leaves of every tree that has the bundle's size and root; no vouching
   * checkpoint covers more.
   */
  lemma {:induction false} WitnessAnchoring(bundle: Bundle, options: Options, verifies: Verifier, witnessedSize: Option<int>)
    requires BundleOk(bundle, options, verifies) && options.minWitnesses > 0
    requires Largest(bundle, |bundle.checkpoints|, options, RebuiltLeaves(bundle), verifies, witnessedSize)
    ensures options.trusted.Some? && witnessedSize.Some?
    ensures exists i | 0 <= i < |bundle.checkpoints| :: Anchors(bundle, i, witnessedSize.value, options, verifies)
  {
    hide CheckpointsOk, EntriesOk, ClaimsOk, ReceiptsOk, Vouches, SizeOf, Anchors, RebuiltLeaves, CompleteOk, ReceiptsOf;
    CompleteWhenNotPartial(bundle, options, verifies);
    var i :| 0 <= i < |bundle.checkpoints| && Vouches(bundle, i, options, RebuiltLeaves(bundle), verifies)
             && SizeOf(bundle.checkpoints[i].body) == witnessedSize;
    VouchingAnchors(bundle, i, options, verifies);
  }

  lemma {:induction false} CompleteWhenNotPartial(bundle: Bundle, options: Options, verifies: Verifier)
    requires BundleOk(bundle, options, verifies)
    ensures bundle.partial || CompleteOk(bundle, ReceiptsOf(bundle.entries))
  {
    hide CompleteOk, ReceiptsOf, EntriesOk, CheckpointsOk, ReceiptsOk, HeadOk, Contradicted;
  }

  // ---------------------------------------------------------- entries and trees

  /** An entry of a passing bundle is the leaf at its own sequence number in every tree the bundle could be of. */
  lemma {:induction false} EntryInTree(bundle: Bundle, options: Options, verifies: Verifier, i: nat, leaves: seq<Digest>)
    requires BundleOk(bundle, options, verifies) && TreeOf(bundle, leaves) && i < |bundle.entries|
    ensures var receipt := bundle.entries[i].receipt;
      && SeqOf(receipt).Some? && 0 <= SeqOf(receipt).value < |leaves|
      && EntryHash(receipt) == leaves[SeqOf(receipt).value]
  {
    hide ClaimsOk, OptionsOk, CheckpointsOk, WitnessesOk, ReceiptsOk, SeqOf, EntryHash, InclusionAccepted, ReceiptsOf;
    var entry := bundle.entries[i];
    assert EntryOk(bundle, entry);
    var index := SeqOf(entry.receipt).value;
    InclusionExact(leaves, Raw(EntryHash(entry.receipt)), index, entry.proof);
    RawInjective(EntryHash(entry.receipt), leaves[index]);
  }

  /** Two passing bundles, filtered or not, of trees that agree at a position hold the same receipt there. */
  lemma {:induction false} SameEntry(a: Bundle, oa: Options, b: Bundle, ob: Options, verifies: Verifier,
                                     la: seq<Digest>, lb: seq<Digest>, i: nat, j: nat, n: int)
    requires BundleOk(a, oa, verifies) && TreeOf(a, la) && i < |a.entries|
    requires BundleOk(b, ob, verifies) && TreeOf(b, lb) && j < |b.entries|
    requires SeqOf(a.entries[i].receipt) == SeqOf(b.entries[j].receipt) == Some(n)
    requires 0 <= n < |la| && n < |lb| && la[n] == lb[n]
    ensures RepairedJson(a.entries[i].receipt) == RepairedJson(b.entries[j].receipt)
  {
    hide *;
    EntryInTree(a, oa, verifies, i, la);
    EntryInTree(b, ob, verifies, j, lb);
    EntryHashExactly(a.entries[i].receipt, b.entries[j].receipt);
  }

  // ------------------------------------------------------- uniqueness of history

  /** A passing complete bundle: the entries 0 to n - 1, one chain from genesis, and every checkpoint a true prefix. */
  lemma {:induction false} CompleteBundle(bundle: Bundle, options: Options, verifies: Verifier, receipts: seq<Json>)
    requires BundleOk(bundle, options, verifies) && !bundle.partial && receipts == ReceiptsOf(bundle.entries)
    ensures |receipts| == bundle.treeSize && bundle.root == Raw(MerkleRoot(LeavesOf(receipts)))
    ensures ChainSound(receipts, bundle.keyring, verifies, 0, GenesisPrev())
    ensures HistoriesOk(bundle.checkpoints, LeavesOf(receipts))
    ensures bundle.head == HeadOf(receipts, GenesisPrev())
  {
    hide OptionsOk, CheckpointsOk, EntriesOk, WitnessesOk, ReceiptsOf, LeavesOf, HistoriesOk, ChainSound, EntryHash,
      GenesisPrev, MerkleRoot, SeqOf;
    if |receipts| > 0 {
      LastIsTip(receipts, bundle.keyring, verifies, bundle.treeSize);
    }
  }

  lemma {:induction false} LastIsTip(receipts: seq<Json>, keyring: Keyring, verifies: Verifier, treeSize: int)
    requires ChainSound(receipts, keyring, verifies, 0, GenesisPrev()) && |receipts| == treeSize > 0
    ensures IsTip(receipts, treeSize - 1, treeSize)
  {
    hide ReceiptSound, SeqOf, Linked, GenesisPrev, InTime;
    forall j | 0 <= j < treeSize ensures SeqOf(receipts[j]) == Some(j) {
      assert LinkSound(receipts, j, keyring, verifies, 0, GenesisPrev());
    }
  }

  /** Runs of receipts with the same canonical bytes are the same, where no text in them has an unpaired surrogate. */
  predicate SameRun(a: seq<Json>, b: seq<Json>) {
    RepairedItems(a) == RepairedItems(b) && (AllIntact(a) && AllIntact(b) ==> a == b)
  }

  lemma {:induction false} AlikeIsSame(a: seq<Json>, b: seq<Json>)
    requires RepairedItems(a) == RepairedItems(b)
    ensures SameRun(a, b)
  {
    hide RepairedItems, AllIntact;
    if AllIntact(a) && AllIntact(b) {
      IntactItems(a);
      IntactItems(b);
    }
  }

  /** Passing complete bundles with one head hold the same receipts in the same order. */
  lemma {:induction false} HeadDeterminesHistory(a: Bundle, oa: Options, b: Bundle, ob: Options, verifies: Verifier)
    requires BundleOk(a, oa, verifies) && BundleOk(b, ob, verifies) && !a.partial && !b.partial
    requires a.head == b.head
    ensures SameRun(ReceiptsOf(a.entries), ReceiptsOf(b.entries))
  {
    hide *;
    var ra, rb := ReceiptsOf(a.entries), ReceiptsOf(b.entries);
    CompleteBundle(a, oa, verifies, ra);
    CompleteBundle(b, ob, verifies, rb);
    GenesisIsNoHash(ra);
    GenesisIsNoHash(rb);
    if |ra| > 0 && |rb| > 0 {
      HeadDeterminesChain(ra, rb, a.keyring, b.keyring, verifies, 0, GenesisPrev());
    } else {
      assert ra == rb == [];
    }
    AlikeIsSame(ra, rb);
  }

  lemma {:induction false} GenesisIsNoHash(receipts: seq<Json>)
    ensures HeadOf(receipts, GenesisPrev()) == GenesisPrev() <==> |receipts| == 0
  {
    hide EntryHash;
    if |receipts| > 0 {
      assert Raw(EntryHash(receipts[|receipts| - 1]))[0] != GenesisPrev()[0];
    }
  }

  /** Passing complete bundles with one root hold the same receipts, even if they claim different sizes. */
  lemma {:induction false} RootDeterminesHistory(a: Bundle, oa: Options, b: Bundle, ob: Options, verifies: Verifier)
    requires BundleOk(a, oa, verifies) && BundleOk(b, ob, verifies) && !a.partial && !b.partial
    requires a.root == b.root
    ensures SameRun(ReceiptsOf(a.entries), ReceiptsOf(b.entries)) && a.treeSize == b.treeSize
  {
    hide *;
    var ra, rb := ReceiptsOf(a.entries), ReceiptsOf(b.entries);
    CompleteBundle(a, oa, verifies, ra);
    CompleteBundle(b, ob, verifies, rb);
    RawInjective(MerkleRoot(LeavesOf(ra)), MerkleRoot(LeavesOf(rb)));
    LeavesAreTagged(ra);
    LeavesAreTagged(rb);
    MerkleUnique.TaggedRootDeterminesLeaves(LeavesOf(ra), LeavesOf(rb));
    LeavesDetermineReceipts(ra, rb);
    AlikeIsSame(ra, rb);
  }

  lemma {:induction false} LeavesAreTagged(receipts: seq<Json>)
    ensures MerkleUnique.LeafHashes(LeavesOf(receipts))
  {
    hide CanonicalBytes;
    forall i | 0 <= i < |receipts| ensures MerkleUnique.IsLeafHash(LeavesOf(receipts)[i]) {
      assert LeavesOf(receipts)[i] == LeafHash(CanonicalBytes(receipts[i]));
    }
  }

  lemma {:induction false} LeavesDetermineReceipts(a: seq<Json>, b: seq<Json>)
    requires LeavesOf(a) == LeavesOf(b)
    ensures RepairedItems(a) == RepairedItems(b)
  {
    hide EntryHash, RepairedJson, RepairedItems;
    assert |LeavesOf(a)| == |LeavesOf(b)|;
    forall i | 0 <= i < |a| ensures RepairedJson(a[i]) == RepairedJson(b[i]) {
      assert LeavesOf(a)[i] == LeavesOf(b)[i];
      EntryHashExactly(a[i], b[i]);
    }
    ItemsAlike(a, b);
  }
}
