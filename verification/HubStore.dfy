/** store.js, `Store`: one log of the hub, with its rows and its cached tree updated in place. */
module HubStores {
  import opened Wrappers
  import opened Hashing
  import opened Canonical
  import opened Merkle
  import opened MerkleProofs
  import opened MerkleTrees
  import opened Receipts
  import opened Checkpoints
  import opened CheckpointBuilding
  import opened Bundles
  import opened Hubs
  import opened HubRuns
  import opened LogExports
  import X = HubExports

  datatype AuditIssue =
    | BadReceipt | BadSequence | ChainBreak | HashMismatch | SizeMismatch | RootMismatch | EntriesRemoved | NotExtended

  class Store {
    var log: LogRow
    var rows: seq<Row>
    var checkpoints: seq<Checkpoint>
    var batches: map<Text, BatchRow>
    var elsewhere: set<Text>
    var cached: MerkleTree?
    var signing: seq<Json>

    ghost predicate Valid()
      reads this, if cached == null then {} else {cached}
    {
      cached != null ==> cached.Valid()
    }

    ghost function State(): Hub
      reads this, if cached == null then {} else {cached}
    {
      Hub(log, rows, checkpoints, batches, elsewhere, if cached == null then None else Some(cached.leaves), signing)
    }

    constructor (row: LogRow)
      ensures Valid() && State() == Created(row).hub && cached == null
    {
      log := StoredLog(row).(size := 0, head := GenesisPrev(), root := Raw(EmptyRoot()));
      rows, checkpoints, batches, elsewhere, cached, signing := [], [], map[], {}, null, [];
    }

    /** The log's tree, loaded from the stored hashes on first use. */
    method Tree() returns (tree: MerkleTree)
      requires Valid()
      modifies this`cached
      ensures Valid() && cached == tree && tree.leaves == TreeLeaves(old(State()))
      ensures old(cached) != null ==> tree == old(cached)
      ensures old(cached) == null ==> fresh(tree)
      ensures State() == old(State()).(cached := Some(TreeLeaves(old(State()))))
    {
      if cached != null {
        return cached;
      }
      tree := new MerkleTree(HashesOf(rows));
      cached := tree;
    }

    method ForgetTree()
      requires Valid()
      modifies this`cached
      ensures Valid() && forall verifies :: State() == Apply(old(State()), Evicted, verifies)
    {
      cached := null;
    }

    /** The checks of a batch, receipt by receipt; the first fault refuses all of it. */
    method CheckBatch(receipts: seq<Json>, verifies: Verifier) returns (fault: Option<IngestError>)
      ensures fault == Fault(receipts, |receipts|, log, verifies)
    {
      hide ReceiptSound, SeqOf, PrevOf, Named, EntryHash, Raw, WellFormed, Attested, KeyFor, SignatureHolds;
      var expectSeq, expectPrev := log.size, log.head;
      for i := 0 to |receipts|
        invariant Fault(receipts, i, log, verifies) == None
        invariant expectSeq == log.size + i
        invariant expectPrev == if i == 0 then log.head else Raw(EntryHash(receipts[i - 1]))
      {
        var receipt := receipts[i];
        assert Fault(receipts, i + 1, log, verifies) == FaultAt(receipts, i, log, verifies);
        var issues := VerifyReceipt(receipt, HubKeyring(log), verifies);
        var found := None;
        if issues != [] {
          found := Some(ReceiptRejected);
        } else if !Named(receipt, log) {
          found := Some(WrongLog);
        } else if SeqOf(receipt) != Some(expectSeq) {
          found := Some(SequenceGap(expectSeq));
        } else if PrevOf(receipt) != Some(expectPrev) {
          found := Some(ChainMismatch);
        }
        if found.Some? {
          FaultStays(receipts, i + 1, |receipts|, log, verifies);
          return found;
        }
        expectSeq := expectSeq + 1;
        expectPrev := Raw(EntryHash(receipt));
      }
      return None;
    }

    /** A refused batch changes no row; the tree is appended to only once the rows are in. */
    method Ingest(receipts: seq<Json>, batchId: Option<Text>, verifies: Verifier) returns (reply: Result<Reply, IngestError>)
      requires Valid()
      modifies this, cached
      ensures Valid()
      ensures (State(), reply) == Hubs.Ingest(old(State()), receipts, batchId, verifies)
    {
      hide Fault, EntryHash, MerkleRoot, StackFor, RowFor, Raw, TreeLeaves;
      if log.archived {
        return Err(LogArchived);
      }
      var id := Column(batchId);
      if id.Some? && id.value in batches {
        return Ok(ReplyOf(batches[id.value], true));
      }
      if |receipts| == 0 {
        return Err(EmptyBatch);
      }
      var tree := Tree();
      var fault := CheckBatch(receipts, verifies);
      if fault.Some? {
        return Err(fault.value);
      }
      ghost var loaded := tree.leaves;
      for i := 0 to |receipts|
        invariant tree.Valid() && cached == tree && tree.leaves == loaded + LeavesOf(receipts[..i])
        invariant log == old(log) && rows == old(rows) && checkpoints == old(checkpoints) && batches == old(batches)
        invariant elsewhere == old(elsewhere) && signing == old(signing)
      {
        var _ := tree.Append(EntryHash(receipts[i]));
        assert receipts[..i + 1] == receipts[..i] + [receipts[i]];
        LeavesAppend(receipts[..i], [receipts[i]]);
      }
      assert receipts[..|receipts|] == receipts;
      if id.Some? && id.value in elsewhere {
        return Err(BatchIdTaken);
      }
      var root := tree.Root();
      var batch := BatchRow(|receipts|, log.size + |receipts|, Raw(EntryHash(receipts[|receipts| - 1])), Raw(root));
      rows := rows + RowsFor(receipts);
      log := log.(size := batch.size, head := batch.head, root := batch.root);
      if id.Some? {
        batches := batches[id.value := batch];
      }
      return Ok(ReplyOf(batch, false));
    }

    method Prune(before: Text) returns (count: nat)
      requires Valid()
      modifies this`rows
      ensures Valid() && forall verifies :: State() == Apply(old(State()), Pruned(before), verifies)
      ensures count == Clearable(old(rows), |old(rows)|, before) && Clearable(rows, |rows|, before) == 0
    {
      hide OlderThan;
      var kept: seq<Row> := [];
      count := 0;
      for i := 0 to |rows|
        invariant |kept| == i && rows == old(rows)
        invariant forall j | 0 <= j < i :: kept[j] == PrunedRow(rows[j], before)
        invariant count == Clearable(rows, i, before)
      {
        if OlderThan(rows[i], before) && rows[i].body.Some? {
          count := count + 1;
        }
        kept := kept + [PrunedRow(rows[i], before)];
      }
      assert kept == PrunedRows(rows, before);
      NoneClearable(kept, |kept|, before);
      rows := kept;
    }

    /** Reads the log row; the body it signs is fixed here, however late the signature comes. */
    method BeginCheckpoint(ts: Text) returns (body: Option<Json>)
      requires Valid()
      modifies this`signing
      ensures Valid() && forall verifies :: State() == Apply(old(State()), CheckpointBegun(ts), verifies)
      ensures signing == old(signing) + if body.Some? then [body.value] else []
    {
      hide BuildCheckpoint, StackFor, FindSize;
      if log.size == 0 || FindSize(checkpoints, log.size).Some? {
        return None;
      }
      var made := BuildCheckpoint(log.slug, log.size, log.root, log.head, ts);
      signing := signing + [made];
      return Some(made);
    }

    /** Whichever checkpoint of a size landed first is the one that counts. */
    method StoreCheckpoint(index: nat, signature: Signed)
      requires Valid() && index < |signing|
      modifies this`signing, this`checkpoints
      ensures Valid() && forall verifies :: State() == Apply(old(State()), CheckpointSigned(index, signature), verifies)
    {
      hide StackFor, RemoveAt, SizeOf, FindSize;
      var body := signing[index];
      signing := RemoveAt(signing, index);
      var size := SizeOf(body);
      if size.Some? && FindSize(checkpoints, size.value).None? {
        checkpoints := checkpoints + [Checkpoint(body, [signature])];
      }
    }

    method AddWitnessSignature(size: int, signature: Signed) returns (ok: bool)
      requires Valid()
      modifies this`checkpoints
      ensures Valid() && forall verifies :: State() == Apply(old(State()), WitnessSigned(size, signature), verifies)
      ensures ok <==> exists i | 0 <= i < |old(checkpoints)| :: SizeOf(old(checkpoints)[i].body) == Some(size)
    {
      hide StackFor, WithoutKid, FindSize, SizeOf;
      FindSizeFirst(checkpoints, size);
      var found := FindSize(checkpoints, size);
      if found.None? {
        return false;
      }
      checkpoints := checkpoints[found.value := Countersigned(checkpoints[found.value], signature)];
      return true;
    }

    /** The keyring of an export: the log's key, and the known keys of everyone who signed a checkpoint it lists. */
    method ExportKeys(listed: seq<Checkpoint>, known: Keyring) returns (keyring: Keyring)
      ensures keyring == X.ExportKeyring(log, listed, |listed|, known)
    {
      keyring := HubKeyring(log);
      for i := 0 to |listed|
        invariant keyring == X.ExportKeyring(log, listed, i, known)
      {
        ghost var before := keyring;
        for j := 0 to |listed[i].sigs|
          invariant keyring == X.WithSigners(before, listed[i].sigs, j, known)
        {
          var kid := listed[i].sigs[j].kid;
          if kid !in keyring && kid in known {
            keyring := keyring[kid := known[kid]];
          }
        }
      }
    }

    /** The receipts retention has kept and `keep` selects, each with its proof in the whole log's tree. */
    method Export(keep: Row -> bool, listed: seq<Checkpoint>, known: Keyring) returns (bundle: Result<Bundle, string>)
      requires Valid()
      modifies this`cached, cached
      ensures Valid() && State() == old(State()).(cached := Some(TreeLeaves(old(State()))))
      ensures bundle.Ok? ==> X.HubExportOf(bundle.value, old(State()), X.Kept(rows, keep), listed, known)
      ensures bundle.Ok? <==> forall row | row in X.Kept(rows, keep) :: 0 <= row.index < |TreeLeaves(old(State()))|
    {
      hide StackFor, MerkleRoot, TreeLeaves, InclusionPath, X.Kept, X.ExportKeyring, ConsistencyFor;
      var tree := Tree();
      var keyring := ExportKeys(listed, known);
      var root := tree.Root();
      var kept := X.Kept(rows, keep);
      var out: seq<Entry> := [];
      for i := 0 to |kept|
        invariant Valid() && cached == tree && tree.leaves == TreeLeaves(old(State())) && |out| == i
        invariant State() == old(State()).(cached := Some(tree.leaves))
        invariant forall j | 0 <= j < i :: X.ProvenRow(out[j], kept[j], tree.leaves)
      {
        assert kept[i] in kept;
        var proof := tree.InclusionProof(kept[i].index, |tree.leaves|);
        if proof.Err? {
          return Err(proof.error);
        }
        out := out + [Entry(kept[i].body.value, RawAll(proof.value))];
      }
      return Ok(Bundle(true, log.slug, log.size, Raw(root), log.head, keyring, listed, ConsistencyFor(tree.leaves, listed),
                       |kept| != log.size, out));
    }

    /** Clean exactly when every row, the log row and every checkpoint say the same as a rebuild from the rows. */
    method Audit(verifies: Verifier) returns (issues: seq<AuditIssue>)
      requires Valid()
      ensures issues == [] <==> HubAuditOk(State(), verifies)
    {
      hide StackFor, RowAudited, MerkleRoot, AuditedHash, CheckpointsAudited, Raw;
      issues := [];
      var prev := GenesisPrev();
      var tree := new MerkleTree([]);
      for i := 0 to |rows|
        invariant fresh(tree) && tree.Valid() && tree.leaves == AuditedHashes(rows[..i])
        invariant prev == PrevAt(rows, i)
        invariant issues == [] <==> forall j | 0 <= j < i :: RowAudited(rows, j, log, verifies)
      {
        var found := AuditRow(i, prev, verifies);
        issues := issues + found;
        prev := Raw(AuditedHash(rows[i]));
        var _ := tree.Append(AuditedHash(rows[i]));
        assert rows[..i + 1] == rows[..i] + [rows[i]];
      }
      assert rows[..|rows|] == rows;
      var root := tree.Root();
      if |rows| != log.size {
        issues := issues + [SizeMismatch];
      }
      if |rows| > 0 && Raw(root) != log.root {
        issues := issues + [RootMismatch];
      }
      var found := AuditCheckpoints(tree, root);
      issues := issues + found;
    }

    method AuditRow(i: nat, prev: Text, verifies: Verifier) returns (issues: seq<AuditIssue>)
      requires i < |rows| && prev == PrevAt(rows, i)
      ensures issues == [] <==> RowAudited(rows, i, log, verifies)
    {
      hide ReceiptSound, PrevOf, EntryHash, PrevAt, WellFormed, Attested, KeyFor, SignatureHolds;
      issues := [];
      var row := rows[i];
      if row.index != i {
        issues := issues + [BadSequence];
      }
      if row.body.None? {
        if row.prev != prev {
          issues := issues + [ChainBreak];
        }
        return;
      }
      var receipt := row.body.value;
      var found := VerifyReceipt(receipt, HubKeyring(log), verifies);
      if found != [] {
        issues := issues + [BadReceipt];
      }
      if PrevOf(receipt) != Some(prev) {
        issues := issues + [ChainBreak];
      }
      if EntryHash(receipt) != row.hash {
        issues := issues + [HashMismatch];
      }
    }

    method AuditCheckpoints(tree: MerkleTree, root: Digest) returns (issues: seq<AuditIssue>)
      requires tree.Valid() && root == MerkleRoot(tree.leaves)
      ensures issues == [] <==> CheckpointsAudited(checkpoints, tree.leaves)
    {
      hide StackFor, CheckpointAudited, MerkleRoot;
      issues := [];
      for i := 0 to |checkpoints|
        invariant issues == [] <==> forall j | 0 <= j < i :: CheckpointAudited(checkpoints[j], tree.leaves)
      {
        var found := AuditCheckpoint(checkpoints[i], tree, root);
        issues := issues + found;
      }
    }

    method AuditCheckpoint(checkpoint: Checkpoint, tree: MerkleTree, root: Digest) returns (issues: seq<AuditIssue>)
      requires tree.Valid() && root == MerkleRoot(tree.leaves)
      ensures issues == [] <==> CheckpointAudited(checkpoint, tree.leaves)
    {
      hide StackFor, MerkleRoot, SizeOf, RootOf, ConsistencyAccepted, ConsistencyPath, Raw;
      var size, named, n := SizeOf(checkpoint.body), RootOf(checkpoint.body), |tree.leaves|;
      if size.Some? && size.value > n {
        return [EntriesRemoved];
      }
      if size.None? || size.value < 0 || named.None? {
        return [NotExtended];
      }
      var proof := tree.ConsistencyProof(size.value, n);
      assert Prefix(tree.leaves, n) == tree.leaves;
      ConsistencyExact(tree.leaves, size.value, named.value);
      var ok := VerifyConsistency(size.value, n, named.value, Raw(root), RawAll(proof.value));
      return if ok then [] else [NotExtended];
    }
  }

  /** How many of the first `n` rows are older than `before` and still have their content. */
  function Clearable(rows: seq<Row>, n: nat, before: Text): nat
    requires n <= |rows|
  {
    if n == 0 then 0
    else
      Clearable(rows, n - 1, before) + if OlderThan(rows[n - 1], before) && rows[n - 1].body.Some? then 1 else 0
  }

  lemma {:induction false} NoneClearable(rows: seq<Row>, n: nat, before: Text)
    requires n <= |rows| && forall i | 0 <= i < n :: OlderThan(rows[i], before) ==> rows[i].body.None?
    ensures Clearable(rows, n, before) == 0
  {
    hide OlderThan;
    if n > 0 {
      NoneClearable(rows, n - 1, before);
    }
  }
}
