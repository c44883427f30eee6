/**
 * log.js, `ProofLog`: the log itself. Every operation carries out the step of `LogRuns` and keeps tree, head
 * and file in line.
 */
module ProofLogs {
  import opened Wrappers
  import opened Hashing
  import opened Canonical
  import opened Utf8
  import opened JsonBytes
  import opened JsonObjects
  import opened Merkle
  import opened MerkleProofs
  import opened MerkleTrees
  import opened Receipts
  import opened ReceiptBuilding
  import opened Checkpoints
  import opened CheckpointBuilding
  import opened Bundles
  import opened LogFiles
  import opened LogRuns
  import opened LogExports

  datatype AuditIssue = BadChain | NotInTree | CheckpointInvalid | EntriesRemoved | HistoryRewritten | RangeError

  class ProofLog {
    const name: Text
    const identity: Identity
    var keyring: Keyring
    var entries: seq<Json>
    var tree: MerkleTree
    var head: Text
    var entriesFile: Text
    var checkpoints: seq<Checkpoint>
    var salts: seq<Salt>

    ghost function State(): Log
      reads this
    {
      Log(name, keyring, entries, checkpoints, salts)
    }

    ghost predicate Valid()
      reads this, tree
    {
      tree.Valid() && tree.leaves == LeavesOf(entries) && head == HeadOf(entries, GenesisPrev())
    }

    constructor Create(name: Text, identity: Identity)
      ensures Valid() && fresh(tree)
      ensures this.name == name && this.identity == identity
      ensures State() == Created(name, identity) && entriesFile == FileText([])
    {
      this.name, this.identity := name, identity;
      keyring := map[identity.kid := identity.publicKey];
      entries, checkpoints, salts, entriesFile := [], [], [], [];
      head := GenesisPrev();
      tree := new MerkleTree([]);
    }

    /** Rebuilds the tree and the head from the text of the entry file. */
    constructor Open(name: Text, identity: Identity, files: Log, text: Text, parsed: seq<Json>)
      requires ParseAll(Lines(text, 0)) == Some(parsed)
      ensures Valid() && fresh(tree)
      ensures this.name == name && this.identity == identity && entriesFile == text
      ensures State() == Log(name, files.keyring, parsed, files.checkpoints, files.salts)
    {
      hide StackFor, GenesisPrev, Lines, ParseAll, EntryHash, Raw, Get;
      this.name, this.identity := name, identity;
      keyring, checkpoints, salts := files.keyring, files.checkpoints, files.salts;
      entries, entriesFile := [], text;
      head := GenesisPrev();
      tree := new MerkleTree([]);
      new;
      for i := 0 to |parsed|
        invariant Valid() && fresh(tree) && entries == parsed[..i]
        invariant keyring == files.keyring && checkpoints == files.checkpoints && salts == files.salts
        invariant entriesFile == text
      {
        LeavesGrow(entries, parsed[i]);
        HeadAfter(entries, parsed[i]);
        entries := entries + [parsed[i]];
        var _ := tree.Append(EntryHash(parsed[i]));
        head := Raw(EntryHash(parsed[i]));
      }
    }

    /** The receipt is the next of the chain; where `buildReceipt` throws nothing changes. */
    method Append(args: Args, params: Text, result: Text) returns (receipt: Result<Json, string>)
      requires Valid()
      modifies this, tree
      ensures Valid() && tree == old(tree)
      ensures State() == Apply(old(State()), identity, Appended(args, params, result))
      ensures receipt.Ok? <==> ArgsComplete(args)
      ensures receipt.Ok? ==> NextReceipt(old(State()), identity, args) == Some(receipt.value)
      ensures entriesFile == old(entriesFile) + if receipt.Ok? then TextOf(receipt.value) + [NEWLINE] else []
      ensures old(entriesFile == FileText(entries)) ==> entriesFile == FileText(entries)
    {
      hide HeadOf, StackFor, TextOf, SignReceipt, GenesisPrev, ArgsComplete, Raw, EntryHash, LeavesOf, Apply, NextReceipt,
        BuildReceipt, FileText;
      AppendIs(State(), identity, args, params, result);
      var built := BuildReceipt(name, |entries|, head, args);
      if built.Err? {
        return Err(built.error);
      }
      var signed := SignReceipt(identity, built.value);
      HeadAfter(entries, signed);
      LeavesGrow(entries, signed);
      FileGrows(entries, signed);
      entriesFile := entriesFile + (TextOf(signed) + [NEWLINE]);
      salts := salts + [Salt(|entries|, params, result)];
      entries := entries + [signed];
      var _ := tree.Append(EntryHash(signed));
      head := Raw(EntryHash(signed));
      return Ok(signed);
    }

    method TakeCheckpoint(ts: Text) returns (checkpoint: Checkpoint)
      requires Valid()
      modifies this`checkpoints
      ensures Valid() && State() == Apply(old(State()), identity, Checkpointed(ts))
      ensures checkpoint == SignCheckpoint(identity, CheckpointOf(old(State()), ts))
    {
      hide HeadOf, StackFor, GenesisPrev, MerkleRoot, BuildCheckpoint;
      var root := tree.Root();
      var body := BuildCheckpoint(name, |entries|, Raw(root), head, ts);
      checkpoint := SignCheckpoint(identity, body);
      checkpoints := checkpoints + [checkpoint];
    }

    /** Replaces what the first checkpoint of that size holds under the same key id. */
    method AddSignature(size: int, signature: Signed) returns (target: Result<Checkpoint, string>)
      requires Valid()
      modifies this`checkpoints
      ensures Valid() && State() == Apply(old(State()), identity, SignatureAdded(size, signature))
      ensures target.Err? <==> forall i | 0 <= i < |old(checkpoints)| :: SizeOf(old(checkpoints)[i].body) != Some(size)
    {
      hide StackFor, SizeOf, WithoutKid;
      FindSizeFirst(checkpoints, size);
      var i := FindSize(checkpoints, size);
      if i.None? {
        return Err("Error");
      }
      var changed := Countersigned(checkpoints[i.value], signature);
      checkpoints := checkpoints[i.value := changed];
      return Ok(changed);
    }

    method TrustKey(kid: Text, publicKey: Text)
      requires Valid()
      modifies this`keyring
      ensures Valid() && State() == Apply(old(State()), identity, KeyTrusted(kid, publicKey))
    {
      keyring := keyring[kid := publicKey];
    }

    /** Destroys salts and nothing else. */
    method Shred(doomed: Json -> bool) returns (count: nat)
      requires Valid()
      modifies this`salts
      ensures Valid() && State() == Apply(old(State()), identity, Shredded(doomed))
      ensures count == |SeqsOf(Select(entries, doomed))|
    {
      hide StackFor, Select, SeqOf;
      var seqs := SeqsOf(Select(entries, doomed));
      if |seqs| == 0 {
        KeepsAll(salts, seqs);
        return 0;
      }
      salts := KeptSalts(salts, seqs);
      return |seqs|;
    }

    /** Clean exactly when the chain is sound and every checkpoint is well signed and names a root the log had. */
    method Audit(verifies: Verifier) returns (issues: seq<AuditIssue>)
      requires Valid()
      modifies tree`levels
      ensures Valid()
      ensures issues == [] <==> AuditOk(entries, keyring, checkpoints, verifies)
    {
      hide StackFor, ChainSound, GenesisPrev, HeadOf, LeavesOf, AuditedCheckpoint, Linked, MerkleRoot, CheckpointOk, SizeOf;
      var chain, _ := VerifyChain(entries, keyring, verifies, 0, GenesisPrev());
      issues := if chain == [] then [] else [BadChain];
      var root := tree.Root();
      for i := 0 to |entries|
        invariant Valid()
        invariant issues == [] <==> chain == []
      {
        var proof := tree.InclusionProof(i, |tree.leaves|);
        var ok := VerifyInclusion(Raw(tree.leaves[i]), i, |entries|, RawAll(proof.value), Raw(root));
        InclusionExact(tree.leaves, Raw(tree.leaves[i]), i, RawAll(proof.value));
        if !ok {
          issues := issues + [NotInTree];
        }
      }
      for i := 0 to |checkpoints|
        invariant Valid()
        invariant issues == [] <==>
          chain == [] && forall j | 0 <= j < i :: AuditedCheckpoint(checkpoints[j], LeavesOf(entries), keyring, verifies)
      {
        var found := AuditCheckpoint(checkpoints[i], root, verifies);
        issues := issues + found;
      }
    }

    method AuditCheckpoint(checkpoint: Checkpoint, root: Digest, verifies: Verifier) returns (issues: seq<AuditIssue>)
      requires Valid() && root == MerkleRoot(tree.leaves)
      ensures issues == [] <==> AuditedCheckpoint(checkpoint, LeavesOf(entries), keyring, verifies)
    {
      hide StackFor, HeadOf, LeavesOf, MerkleRoot, CheckpointOk, SizeOf, RootOf, ConsistencyAccepted, ConsistencyPath, Raw;
      var found, _ := VerifyCheckpoint(checkpoint, keyring, 0, None, verifies);
      if found != [] {
        return [CheckpointInvalid];
      }
      var size, named := SizeOf(checkpoint.body), RootOf(checkpoint.body);
      if size.Some? && size.value > |entries| {
        return [EntriesRemoved];
      }
      if size.None? || size.value < 0 || named.None? {
        return [RangeError];
      }
      var proof := tree.ConsistencyProof(size.value, |entries|);
      assert Prefix(tree.leaves, |entries|) == tree.leaves;
      ConsistencyExact(tree.leaves, size.value, named.value);
      var ok := VerifyConsistency(size.value, |entries|, named.value, Raw(root), RawAll(proof.value));
      return if ok then [] else [HistoryRewritten];
    }

    method Export(filter: Option<Json -> bool>) returns (bundle: Result<Bundle, string>)
      requires Valid()
      modifies tree`levels
      ensures Valid()
      ensures bundle.Ok? ==> ExportOf(bundle.value, State(), Selected(entries, filter))
      ensures bundle.Ok? <==>
              forall i | 0 <= i < |Selected(entries, filter)| :: Exported(Selected(entries, filter)[i], LeavesOf(entries)).Ok?
    {
      hide StackFor, HeadOf, LeavesOf, MerkleRoot, Selected, SeqOf, InclusionPath, ConsistencyFor;
      var selected := Selected(entries, filter);
      var root := tree.Root();
      var out: seq<Entry> := [];
      for i := 0 to |selected|
        invariant Valid() && |out| == i
        invariant forall j | 0 <= j < i :: Exported(selected[j], LeavesOf(entries)) == Ok(out[j])
      {
        var at := SeqOf(selected[i]);
        if at.None? {
          return Err("RangeError");
        }
        var proof := tree.InclusionProof(at.value, |tree.leaves|);
        if proof.Err? {
          return Err(proof.error);
        }
        out := out + [Entry(selected[i], RawAll(proof.value))];
      }
      return Ok(Bundle(true, name, |entries|, Raw(root), head, keyring, checkpoints,
                       ConsistencyFor(tree.leaves, checkpoints), |selected| != |entries|, out));
    }
  }

  lemma {:induction false} AppendIs(log: Log, identity: Identity, args: Args, params: Text, result: Text)
    ensures var built := BuildReceipt(log.name, |log.entries|, log.Head(), args);
      var next := Apply(log, identity, Appended(args, params, result));
      && (built.Ok? <==> ArgsComplete(args))
      && (built.Err? ==> next == log)
      && (built.Ok? ==>
            && built.value.Obj?
            && NextReceipt(log, identity, args) == Some(SignReceipt(identity, built.value))
            && next == log.(entries := log.entries + [SignReceipt(identity, built.value)],
                            salts := log.salts + [Salt(|log.entries|, params, result)]))
  {
    hide ArgsComplete, Object, Properties, SignReceipt, HeadOf;
  }

  lemma {:induction false} HeadAfter(entries: seq<Json>, receipt: Json)
    ensures HeadOf(entries + [receipt], GenesisPrev()) == Raw(EntryHash(receipt))
  {
    hide EntryHash, Raw;
  }

  lemma {:induction false} KeepsAll(salts: seq<Salt>, doomed: set<Option<int>>)
    requires |doomed| == 0
    ensures KeptSalts(salts, doomed) == salts
  {
    if |salts| > 0 {
      KeepsAll(salts[1..], doomed);
    }
  }

  /**
   * `ProofLog.open`: throws on a line that does not parse, and otherwise gives back what was appended, or, as the
   * file is UTF-8, what was appended with unpaired surrogates replaced: the tree and the head are the same.
   */
  method OpenLog(name: Text, identity: Identity, files: Log, text: Text) returns (log: Result<ProofLog, string>)
    ensures log.Ok? <==> ParseAll(Lines(text, 0)).Some?
    ensures log.Ok? ==>
              && fresh(log.value) && log.value.Valid() && log.value.entriesFile == text
              && log.value.entries == ParseAll(Lines(text, 0)).value
    ensures text == FileText(files.entries) ==>
              && log.Ok? && log.value.State() == files.(name := name)
              && log.value.tree.leaves == files.Leaves() && log.value.head == files.Head()
    ensures text == Repaired(FileText(files.entries)) ==>
              && log.Ok? && log.value.State() == files.(name := name, entries := RepairedItems(files.entries))
              && log.value.tree.leaves == files.Leaves() && log.value.head == files.Head()
  {
    hide Lines, ParseAll, FileText, LeavesOf, HeadOf, StackFor, GenesisPrev, Repaired, RepairedItems;
    if text == FileText(files.entries) {
      FileReadsBack(files.entries);
    }
    if text == Repaired(FileText(files.entries)) {
      FileDecodes(files.entries);
      FileReadsBack(RepairedItems(files.entries));
      LeavesKept(files.entries);
    }
    var parsed := ParseAll(Lines(text, 0));
    if parsed.None? {
      return Err("Error");
    }
    var rebuilt := new ProofLog.Open(name, identity, files, text, parsed.value);
    return Ok(rebuilt);
  }
}
