/** log.js `audit`, `bundle`, `consistencyFor`: what an audit finds and what an export holds, and that honest logs pass. */
module LogExports {
  import opened Wrappers
  import opened Hashing
  import opened Canonical
  import opened JsonObjects
  import opened Utf8
  import opened JsonBytes
  import opened Merkle
  import opened MerkleProofs
  import opened Receipts
  import opened StoredReceipts
  import opened ReceiptBuilding
  import opened Checkpoints
  import opened Bundles
  import opened LogRuns

  // ---------------------------------------------------------------------- audit

  /**
   * Well signed, no larger than the log, and naming the root the log had then; a size of 0 is checked in an
   * empty log only.
   */
  predicate AuditedCheckpoint(checkpoint: Checkpoint, leaves: seq<Digest>, keyring: Keyring, verifies: Verifier) {
    && CheckpointOk(checkpoint, keyring, 0, None, verifies)
    && SizeOf(checkpoint.body).Some? && 0 <= SizeOf(checkpoint.body).value <= |leaves|
    && RootOf(checkpoint.body).Some?
    && (0 == SizeOf(checkpoint.body).value < |leaves|
        || RootOf(checkpoint.body).value == Raw(MerkleRoot(leaves[..SizeOf(checkpoint.body).value])))
  }

  predicate AuditOk(entries: seq<Json>, keyring: Keyring, checkpoints: seq<Checkpoint>, verifies: Verifier) {
    && ChainSound(entries, keyring, verifies, 0, GenesisPrev())
    && forall i | 0 <= i < |checkpoints| :: AuditedCheckpoint(checkpoints[i], LeavesOf(entries), keyring, verifies)
  }

  lemma {:induction false} HonestCheckpointAudited(checkpoint: Checkpoint, leaves: seq<Digest>, kid: Text, keyring: Keyring,
                                                   verifies: Verifier)
    requires WellSigned(checkpoint, kid, keyring, verifies) && NamesPrefix(checkpoint.body, leaves)
    ensures AuditedCheckpoint(checkpoint, leaves, keyring, verifies)
  {
    hide WellSigned, CheckpointOk, SizeOf, Get, MerkleRoot, Raw;
    FittingPasses(checkpoint, kid, keyring, None, verifies);
  }

  lemma {:induction false} HonestAudit(log: Log, identity: Identity, verifies: Verifier)
    requires Honest(log, identity, verifies)
    ensures AuditOk(log.entries, log.keyring, log.checkpoints, verifies)
  {
    hide ChainSound, WellSigned, NamesPrefix, AuditedCheckpoint, LeavesOf;
    forall i | 0 <= i < |log.checkpoints|
      ensures AuditedCheckpoint(log.checkpoints[i], LeavesOf(log.entries), log.keyring, verifies)
    {
      HonestCheckpointAudited(log.checkpoints[i], log.Leaves(), identity.kid, log.keyring, verifies);
    }
  }

  // -------------------------------------------------------------------- exports

  predicate HasWitness(checkpoint: Checkpoint) {
    exists i | 0 <= i < |checkpoint.sigs| :: checkpoint.sigs[i].role == WitnessRole
  }

  /** The size `consistencyFor` considers a checkpoint under, or 0 where it does not. */
  function LinkableSize(checkpoint: Checkpoint, n: nat): nat {
    if HasWitness(checkpoint) && SizeOf(checkpoint.body).Some? && 0 < SizeOf(checkpoint.body).value < n
    then SizeOf(checkpoint.body).value else 0
  }

  /** The largest of them. */
  function LatestWitnessed(checkpoints: seq<Checkpoint>, n: nat): (size: nat)
    ensures forall i | 0 <= i < |checkpoints| :: LinkableSize(checkpoints[i], n) <= size
    ensures size > 0 ==> size < n && exists i | 0 <= i < |checkpoints| :: LinkableSize(checkpoints[i], n) == size
  {
    if |checkpoints| == 0 then 0
    else
      var last := |checkpoints| - 1;
      var before, own := LatestWitnessed(checkpoints[..last], n), LinkableSize(checkpoints[last], n);
      assert forall i | 0 <= i < last :: checkpoints[..last][i] == checkpoints[i];
      if own > before then own else before
  }

  function ConsistencyFor(leaves: seq<Digest>, checkpoints: seq<Checkpoint>): map<int, seq<Bytes>> {
    var size := LatestWitnessed(checkpoints, |leaves|);
    if size == 0 then map[] else map[size as int := RawAll(ConsistencyPath(leaves, size))]
  }

  function Selected(entries: seq<Json>, filter: Option<Json -> bool>): seq<Json> {
    if filter.Some? then Select(entries, filter.value) else entries
  }

  /** An entry and its proof at the sequence number it carries. */
  function Exported(receipt: Json, leaves: seq<Digest>): Result<Entry, string> {
    match SeqOf(receipt)
    case Some(i) =>
      if 0 <= i < |leaves| then Ok(Entry(receipt, RawAll(InclusionPath(leaves, i)))) else Err("RangeError")
    case None => Err("RangeError")
  }

  /** `bundle` is what exporting the selected receipts of the log produces. */
  predicate ExportOf(bundle: Bundle, log: Log, selected: seq<Json>) {
    && bundle.known && bundle.log == log.name
    && bundle.treeSize == |log.entries| && bundle.root == Raw(MerkleRoot(log.Leaves())) && bundle.head == log.Head()
    && bundle.keyring == log.keyring && bundle.checkpoints == log.checkpoints
    && bundle.consistency == ConsistencyFor(log.Leaves(), log.checkpoints)
    && (bundle.partial <==> |selected| != |log.entries|)
    && |bundle.entries| == |selected|
    && forall i | 0 <= i < |selected| :: Exported(selected[i], log.Leaves()) == Ok(bundle.entries[i])
  }

  /** Some of the entries; all of them only if nothing was left out. */
  predicate Selection(selected: seq<Json>, entries: seq<Json>) {
    (forall receipt | receipt in selected :: receipt in entries) && (|selected| == |entries| ==> selected == entries)
  }

  lemma {:induction false} SelectMembers(entries: seq<Json>, keep: Json -> bool)
    ensures |Select(entries, keep)| <= |entries|
    ensures Selection(Select(entries, keep), entries)
  {
    if |entries| > 0 {
      SelectMembers(entries[1..], keep);
    }
  }

  lemma {:induction false} SelectedMembers(entries: seq<Json>, filter: Option<Json -> bool>)
    ensures Selection(Selected(entries, filter), entries)
  {
    if filter.Some? {
      SelectMembers(entries, filter.value);
    }
  }

  /** Sound entries in their places and checkpoints that name prefixes of them: all that an export rests on. */
  predicate Exportable(log: Log, verifies: Verifier) {
    && AllJoined(log.entries, log.keyring, verifies)
    && forall i | 0 <= i < |log.checkpoints| :: NamesPrefix(log.checkpoints[i].body, log.Leaves())
  }

  /** The receipt at position `j` of such a log is sound, carries `j` as its number and is leaf `j`. */
  lemma {:induction false} EntryInPlace(log: Log, verifies: Verifier, receipt: Json)
    requires AllJoined(log.entries, log.keyring, verifies) && receipt in log.entries
    ensures ReceiptSound(receipt, log.keyring, verifies)
    ensures SeqOf(receipt).Some? && 0 <= SeqOf(receipt).value < |log.entries|
    ensures log.entries[SeqOf(receipt).value] == receipt && log.Leaves()[SeqOf(receipt).value] == EntryHash(receipt)
  {
    hide ReceiptSound, SeqOf, Linked, EntryHash;
    var j :| 0 <= j < |log.entries| && log.entries[j] == receipt;
    assert Joined(log.entries, j, log.keyring, verifies);
  }

  lemma {:induction false} ExportedEntryOk(bundle: Bundle, log: Log, verifies: Verifier, selected: seq<Json>, i: nat)
    requires ExportOf(bundle, log, selected) && i < |selected| && selected[i] in log.entries
    requires AllJoined(log.entries, log.keyring, verifies)
    ensures EntryOk(bundle, bundle.entries[i]) && bundle.entries[i].receipt == selected[i]
  {
    hide AllJoined, SeqOf, EntryHash, LeavesOf, InclusionAccepted, ConsistencyFor, MerkleRoot;
    var receipt := selected[i];
    EntryInPlace(log, verifies, receipt);
    assert Exported(selected[i], log.Leaves()) == Ok(bundle.entries[i]);
    InclusionExact(log.Leaves(), Raw(EntryHash(receipt)), SeqOf(receipt).value, bundle.entries[i].proof);
  }

  lemma {:induction false} ExportedEntries(bundle: Bundle, log: Log, verifies: Verifier, selected: seq<Json>)
    requires ExportOf(bundle, log, selected) && Selection(selected, log.entries)
    requires AllJoined(log.entries, log.keyring, verifies)
    ensures EntriesOk(bundle) && ReceiptsOf(bundle.entries) == selected
  {
    hide AllJoined, ExportOf, EntryOk;
    ExportLength(bundle, log, selected);
    forall i | 0 <= i < |selected| ensures EntryOk(bundle, bundle.entries[i]) && bundle.entries[i].receipt == selected[i] {
      ExportedEntryOk(bundle, log, verifies, selected, i);
    }
  }

  lemma {:induction false} ExportLength(bundle: Bundle, log: Log, selected: seq<Json>)
    requires ExportOf(bundle, log, selected)
    ensures |bundle.entries| == |selected|
  {
  }

  lemma {:induction false} ExportedReceipts(bundle: Bundle, log: Log, verifies: Verifier, receipts: seq<Json>)
    requires ExportOf(bundle, log, receipts) && Selection(receipts, log.entries)
    requires AllJoined(log.entries, log.keyring, verifies)
    ensures ReceiptsOk(bundle, receipts, verifies) <==> bundle.partial || AllInTime(log.entries)
  {
    hide AllJoined, ReceiptSound, Exported, SeqOf, ConsistencyFor, MerkleRoot, LeavesOf, AllInTime, ChainSound, GenesisPrev;
    ChainIs(log.entries, log.keyring, verifies);
    if bundle.partial {
      forall i | 0 <= i < |receipts| ensures ReceiptSound(receipts[i], bundle.keyring, verifies) {
        EntryInPlace(log, verifies, receipts[i]);
      }
    }
  }

  lemma {:induction false} ExportedHead(bundle: Bundle, log: Log, verifies: Verifier, receipts: seq<Json>)
    requires ExportOf(bundle, log, receipts) && Selection(receipts, log.entries)
    requires AllJoined(log.entries, log.keyring, verifies)
    ensures HeadOk(bundle, receipts)
  {
    hide AllJoined, ReceiptSound, Exported, SeqOf, ConsistencyFor, MerkleRoot, LeavesOf, EntryHash, GenesisPrev, Raw;
    forall i | 0 <= i < |receipts| && IsTip(receipts, i, bundle.treeSize) ensures bundle.head == Raw(EntryHash(receipts[i])) {
      EntryInPlace(log, verifies, receipts[i]);
    }
  }

  lemma {:induction false} ExportedHistory(checkpoints: seq<Checkpoint>, leaves: seq<Digest>)
    requires forall i | 0 <= i < |checkpoints| :: NamesPrefix(checkpoints[i].body, leaves)
    ensures HistoriesOk(checkpoints, leaves)
  {
    hide SizeOf, Get, PrefixRoot;
    forall i | 0 <= i < |checkpoints| ensures HistoryOk(checkpoints[i], leaves) {
      assert NamesPrefix(checkpoints[i].body, leaves);
    }
  }

  /** Every checkpoint of an honest log is anchored, or has nothing said against it, in every export. */
  lemma {:induction false} ExportedCheckpoint(bundle: Bundle, log: Log, selected: seq<Json>, body: Json)
    requires ExportOf(bundle, log, selected) && NamesPrefix(body, log.Leaves())
    ensures !Contradicted(bundle, body)
    ensures SizeOf(body).value in bundle.consistency || SizeOf(body).value in {0, |log.entries| as int} ==>
              Anchored(bundle, None, body)
  {
    hide SizeOf, Get, MerkleRoot, Raw, ConsistencyAccepted, LatestWitnessed, LeavesOf, Exported, HeadOf, ConsistencyPath;
    var leaves, size := log.Leaves(), SizeOf(body).value;
    ConsistencyComplete(leaves, size);
    if size == |leaves| {
      assert leaves[..size] == leaves;
    }
    EmptyPrefix(leaves);
  }

  lemma {:induction false} ExportedClaims(bundle: Bundle, log: Log, verifies: Verifier, receipts: seq<Json>)
    requires Exportable(log, verifies) && ExportOf(bundle, log, receipts) && Selection(receipts, log.entries)
    ensures ClaimsOk(bundle, receipts)
  {
    hide AllJoined, Exported, ConsistencyFor, MerkleRoot, LeavesOf, HeadOk, Contradicted, HistoriesOk, NamesPrefix,
      GenesisPrev;
    ExportedHead(bundle, log, verifies, receipts);
    if bundle.partial {
      forall i | 0 <= i < |bundle.checkpoints| ensures !Contradicted(bundle, bundle.checkpoints[i].body) {
        ExportedCheckpoint(bundle, log, receipts, log.checkpoints[i].body);
      }
    } else {
      ExportedHistory(log.checkpoints, log.Leaves());
    }
  }

  /** With witnesses demanded, the largest checkpoint that carries them is the one the export links to its root. */
  lemma {:induction false} ExportedWitness(bundle: Bundle, log: Log, verifies: Verifier, options: Options, selected: seq<Json>)
    requires Exportable(log, verifies) && ExportOf(bundle, log, selected) && bundle.partial
    requires options.trusted.Some? && options.minWitnesses > 0
    requires CheckpointsOk(bundle, options, verifies) && |log.checkpoints| > 0
    ensures SomeVouches(bundle, options, None, verifies)
  {
    hide AllJoined, ExportOf, NamesPrefix, CheckpointOk, Anchored, SizeOf, LeavesOf;
    var checkpoints, n := log.checkpoints, |log.entries|;
    ExportLinks(bundle, log, selected);
    var size := LatestWitnessed(checkpoints, n);
    var i := 0;
    if size > 0 {
      i :| 0 <= i < |checkpoints| && LinkableSize(checkpoints[i], n) == size;
    }
    CountedHasWitness(checkpoints[i], bundle.keyring, options, verifies);
    PrefixSize(checkpoints[i].body, log.Leaves());
    assert LinkableSize(checkpoints[i], n) <= size;
    ExportedCheckpoint(bundle, log, selected, checkpoints[i].body);
    assert Vouches(bundle, i, options, None, verifies);
  }

  lemma {:induction false} ExportLinks(bundle: Bundle, log: Log, selected: seq<Json>)
    requires ExportOf(bundle, log, selected)
    ensures bundle.checkpoints == log.checkpoints && bundle.keyring == log.keyring
    ensures LatestWitnessed(log.checkpoints, |log.entries|) > 0 ==>
              LatestWitnessed(log.checkpoints, |log.entries|) as int in bundle.consistency
  {
    hide LatestWitnessed, RawAll, ConsistencyPath, Exported, MerkleRoot;
  }

  lemma {:induction false} PrefixSize(body: Json, leaves: seq<Digest>)
    requires NamesPrefix(body, leaves)
    ensures SizeOf(body).Some? && 0 <= SizeOf(body).value <= |leaves|
  {
  }

  lemma {:induction false} CountedHasWitness(checkpoint: Checkpoint, keyring: Keyring, options: Options, verifies: Verifier)
    requires options.trusted.Some? && options.minWitnesses > 0
    requires CheckpointOk(checkpoint, keyring, Demanded(options), options.trusted, verifies)
    ensures HasWitness(checkpoint)
  {
    hide SignatureOk, LogSigned, IntOf, Get, PinnedWitness, KeyringSignature;
    var keys := WitnessKeys(checkpoint, |checkpoint.sigs|, keyring, options.trusted, verifies);
    assert keys != {};
    var key :| key in keys;
  }

  lemma {:induction false} CompleteVouches(bundle: Bundle, log: Log, verifies: Verifier, options: Options, receipts: seq<Json>)
    requires Exportable(log, verifies) && ExportOf(bundle, log, receipts) && receipts == log.entries
    requires CheckpointsOk(bundle, options, verifies) && |log.checkpoints| > 0
    ensures SomeVouches(bundle, options, Some(LeavesOf(receipts)), verifies)
  {
    hide AllJoined, CheckpointOk, SizeOf, LeavesOf, Exported, ConsistencyFor, MerkleRoot, Get, Raw;
    assert NamesPrefix(log.checkpoints[0].body, log.Leaves());
    assert Vouches(bundle, 0, options, Some(LeavesOf(receipts)), verifies);
  }

  /**
   * An export of any selection of such entries passes as far as the entries are concerned, if it is partial or their
   * times do not step back: the rest is left to the verifier's options, the root and the witnesses it asks for.
   */
  lemma {:induction false} ExportVerdict(bundle: Bundle, log: Log, verifies: Verifier, selected: seq<Json>, options: Options)
    requires Exportable(log, verifies) && ExportOf(bundle, log, selected) && Selection(selected, log.entries)
    ensures BundleOk(bundle, options, verifies) <==>
            && OptionsOk(bundle, options)
            && CheckpointsOk(bundle, options, verifies)
            && (options.minWitnesses > 0 ==> |log.checkpoints| > 0)
            && (bundle.partial || AllInTime(log.entries))
  {
    hide *;
    EntriesJoined(log, verifies);
    ExportedEntries(bundle, log, verifies, selected);
    ExportedReceipts(bundle, log, verifies, selected);
    ExportedClaims(bundle, log, verifies, selected);
    VerdictLeft(bundle, options, verifies);
    WitnessesLeft(bundle, log, verifies, selected, options);
  }

  lemma {:induction false} EntriesJoined(log: Log, verifies: Verifier)
    requires Exportable(log, verifies)
    ensures AllJoined(log.entries, log.keyring, verifies)
  {
    hide AllJoined, NamesPrefix;
  }

  /**
   * Every export of an honest log, whatever the filter, passes as far as the log itself is concerned:
   * what is left to the verifier's options is the root and the witnesses it asks for.
   */
  lemma {:induction false} HonestExport(bundle: Bundle, log: Log, identity: Identity, verifies: Verifier,
                                        filter: Option<Json -> bool>, options: Options)
    requires Honest(log, identity, verifies) && ExportOf(bundle, log, Selected(log.entries, filter))
    ensures BundleOk(bundle, options, verifies) <==>
            && OptionsOk(bundle, options)
            && CheckpointsOk(bundle, options, verifies)
            && (options.minWitnesses > 0 ==> |log.checkpoints| > 0)
  {
    hide *;
    HonestIsExportable(log, identity, verifies);
    SelectedMembers(log.entries, filter);
    ExportVerdict(bundle, log, verifies, Selected(log.entries, filter), options);
  }

  lemma {:induction false} HonestIsExportable(log: Log, identity: Identity, verifies: Verifier)
    requires Honest(log, identity, verifies)
    ensures Exportable(log, verifies) && AllInTime(log.entries) && AllJoined(log.entries, log.keyring, verifies)
  {
    hide ChainSound, AllJoined, AllInTime, NamesPrefix, WellSigned, KeyHeld, LeavesOf, GenesisPrev;
    ChainIs(log.entries, log.keyring, verifies);
  }

  lemma {:induction false} VerdictLeft(bundle: Bundle, options: Options, verifies: Verifier)
    requires EntriesOk(bundle) && ClaimsOk(bundle, ReceiptsOf(bundle.entries))
    ensures BundleOk(bundle, options, verifies) <==>
            && OptionsOk(bundle, options) && CheckpointsOk(bundle, options, verifies) && WitnessesOk(bundle, options, verifies)
            && ReceiptsOk(bundle, ReceiptsOf(bundle.entries), verifies)
  {
    hide EntriesOk, ClaimsOk, ReceiptsOk, OptionsOk, CheckpointsOk, WitnessesOk, ReceiptsOf;
  }

  lemma {:induction false} WitnessesLeft(bundle: Bundle, log: Log, verifies: Verifier, selected: seq<Json>, options: Options)
    requires Exportable(log, verifies) && ExportOf(bundle, log, selected) && Selection(selected, log.entries)
    requires ReceiptsOf(bundle.entries) == selected
    ensures OptionsOk(bundle, options) && CheckpointsOk(bundle, options, verifies) ==>
              (WitnessesOk(bundle, options, verifies) <==> (options.minWitnesses > 0 ==> |log.checkpoints| > 0))
  {
    hide Exportable, ExportOf, CheckpointsOk, ReceiptsOf, LeavesOf, Vouches;
    ExportShape(bundle, log, selected);
    if OptionsOk(bundle, options) && CheckpointsOk(bundle, options, verifies) && options.minWitnesses > 0
       && |log.checkpoints| > 0 {
      if bundle.partial {
        ExportedWitness(bundle, log, verifies, options, selected);
      } else {
        CompleteVouches(bundle, log, verifies, options, selected);
      }
    }
  }

  lemma {:induction false} ExportShape(bundle: Bundle, log: Log, selected: seq<Json>)
    requires ExportOf(bundle, log, selected)
    ensures bundle.checkpoints == log.checkpoints && (bundle.partial <==> |selected| != |log.entries|)
  {
    hide ConsistencyFor, Exported, MerkleRoot;
  }

  /** What exporting the selected receipts produces, where each has a place in the tree. */
  function BundleOf(log: Log, selected: seq<Json>): (bundle: Bundle)
    requires forall i | 0 <= i < |selected| :: Exported(selected[i], log.Leaves()).Ok?
    ensures ExportOf(bundle, log, selected)
  {
    var entries := seq(|selected|, i requires 0 <= i < |selected| => Exported(selected[i], log.Leaves()).value);
    Bundle(true, log.name, |log.entries|, Raw(MerkleRoot(log.Leaves())), log.Head(), log.keyring, log.checkpoints,
           ConsistencyFor(log.Leaves(), log.checkpoints), |selected| != |log.entries|, entries)
  }

  /** No filter makes exporting an honest log throw: there is a bundle. */
  lemma {:induction false} HonestLogExports(log: Log, identity: Identity, verifies: Verifier, filter: Option<Json -> bool>)
    returns (bundle: Bundle)
    requires Honest(log, identity, verifies)
    ensures forall i | 0 <= i < |Selected(log.entries, filter)| :: Exported(Selected(log.entries, filter)[i], log.Leaves()).Ok?
    ensures ExportOf(bundle, log, Selected(log.entries, filter))
  {
    hide Honest, AllJoined, Selected, SeqOf, ReceiptSound, EntryHash, LeavesOf, InclusionPath, ExportOf, Exportable, AllInTime;
    HonestIsExportable(log, identity, verifies);
    SelectedMembers(log.entries, filter);
    var selected := Selected(log.entries, filter);
    forall i | 0 <= i < |selected| ensures Exported(selected[i], log.Leaves()).Ok? {
      EntryInPlace(log, verifies, selected[i]);
    }
    bundle := BundleOf(log, selected);
  }

  /** The keys a verifier pins are not the log's own, and are the ones the log knows under those ids. */
  predicate PinsFit(log: Log, trusted: Keyring) {
    forall i, j | 0 <= i < |log.checkpoints| && 0 <= j < |log.checkpoints[i].sigs| ::
      var s := log.checkpoints[i].sigs[j];
      s.kid in trusted ==> s.role == WitnessRole && s.kid in log.keyring && trusted[s.kid] == log.keyring[s.kid]
  }

  /**
   * With no witnesses demanded every export of an honest log passes, against its own root or none, and
   * whatever fitting keys are pinned.
   */
  lemma {:induction false} HonestExportPasses(bundle: Bundle, log: Log, identity: Identity, verifies: Verifier,
                                              filter: Option<Json -> bool>, options: Options)
    requires Honest(log, identity, verifies) && ExportOf(bundle, log, Selected(log.entries, filter))
    requires options.minWitnesses == 0 && (options.trusted.Some? ==> PinsFit(log, options.trusted.value))
    requires options.expectRoot.None? || options.expectRoot == Some(Raw(MerkleRoot(log.Leaves())))
    ensures BundleOk(bundle, options, verifies)
  {
    hide BundleOk, CheckpointOk, Honest, Selected, MerkleRoot, Exported, ConsistencyFor, LeavesOf, PinsFit;
    HonestExport(bundle, log, identity, verifies, filter, options);
    forall i | 0 <= i < |log.checkpoints|
      ensures CheckpointOk(log.checkpoints[i], log.keyring, 0, options.trusted, verifies)
    {
      HonestCheckpointPasses(log, identity, verifies, i, options.trusted);
    }
  }

  lemma {:induction false} HonestCheckpointPasses(log: Log, identity: Identity, verifies: Verifier, i: nat,
                                                  trusted: Option<Keyring>)
    requires Honest(log, identity, verifies) && i < |log.checkpoints|
    requires trusted.Some? ==> PinsFit(log, trusted.value)
    ensures CheckpointOk(log.checkpoints[i], log.keyring, 0, trusted, verifies)
  {
    hide ChainSound, NamesPrefix, WellSigned, KeyHeld, CheckpointOk;
    FittingPasses(log.checkpoints[i], identity.kid, log.keyring, trusted, verifies);
  }

  lemma {:induction false} FittingPasses(checkpoint: Checkpoint, kid: Text, keyring: Keyring, trusted: Option<Keyring>,
                                         verifies: Verifier)
    requires WellSigned(checkpoint, kid, keyring, verifies)
    requires trusted.Some? ==> forall j | 0 <= j < |checkpoint.sigs| ::
               var s := checkpoint.sigs[j];
               s.kid in trusted.value ==> s.role == WitnessRole && s.kid in keyring && trusted.value[s.kid] == keyring[s.kid]
    ensures CheckpointOk(checkpoint, keyring, 0, trusted, verifies)
  {
    hide SignedBy, WitnessKeys, IntOf, Get;
    forall i | 0 <= i < |checkpoint.sigs| ensures SignatureOk(checkpoint, i, keyring, trusted, verifies) {
      assert KeyringSignature(checkpoint.body, checkpoint.sigs[i], keyring, None, verifies);
    }
    var i :| 0 <= i < |checkpoint.sigs| && checkpoint.sigs[i].role == LogRole && checkpoint.sigs[i].kid == kid;
    assert KeyringSignature(checkpoint.body, checkpoint.sigs[i], keyring, trusted, verifies);
  }

  /** Over every proper run and for every filter: the audit is clean, there is an export, and it passes. */
  lemma {:induction false} HonestRunsVerify(name: Text, identity: Identity, events: seq<Event>, verifies: Verifier,
                                            filter: Option<Json -> bool>)
    requires Signs(identity, verifies) && ProperRun(Created(name, identity), identity, events, verifies)
    ensures var log := Run(Created(name, identity), identity, events);
      && AuditOk(log.entries, log.keyring, log.checkpoints, verifies)
      && (exists bundle :: ExportOf(bundle, log, Selected(log.entries, filter)))
      && (forall bundle | ExportOf(bundle, log, Selected(log.entries, filter)) ::
            BundleOk(bundle, Options(None, 0, None), verifies))
  {
    hide *;
    var log := Run(Created(name, identity), identity, events);
    RunIsHonest(name, identity, events, verifies);
    HonestAudit(log, identity, verifies);
    var exported := HonestLogExports(log, identity, verifies, filter);
    forall bundle | ExportOf(bundle, log, Selected(log.entries, filter))
      ensures BundleOk(bundle, Options(None, 0, None), verifies)
    {
      HonestExportPasses(bundle, log, identity, verifies, filter, Options(None, 0, None));
    }
  }

  // ------------------------------------------------------------------ reopening

  /** Entries read back from the file have the hashes of the entries that were written. */
  lemma {:induction false} LeavesKept(entries: seq<Json>)
    ensures LeavesOf(RepairedItems(entries)) == LeavesOf(entries)
    ensures HeadOf(RepairedItems(entries), GenesisPrev()) == HeadOf(entries, GenesisPrev())
  {
    hide EntryHash, RepairedItems, RepairedJson, Raw, GenesisPrev;
    forall i | 0 <= i < |entries| ensures EntryHash(RepairedItems(entries)[i]) == EntryHash(entries[i]) {
      RepairedItem(entries, i);
      HashKept(entries[i]);
    }
  }

  /** The log that opening the files of an honest log gives. */
  function Reopened(log: Log): Log {
    log.(entries := RepairedItems(log.entries))
  }

  /** It is honest, so it audits clean and exports, exactly when reading the times back has not put them out of order. */
  lemma {:induction false} ReopenedIsHonestExactly(log: Log, identity: Identity, verifies: Verifier)
    requires Honest(log, identity, verifies) && IntactKeys(log.keyring)
    ensures Honest(Reopened(log), identity, verifies) <==> AllInTime(RepairedItems(log.entries))
  {
    hide ChainSound, AllJoined, AllInTime, CheckpointsHonest, KeyHeld, LeavesOf, GenesisPrev, RepairedItems, IntactKeys;
    ChainIs(log.entries, log.keyring, verifies);
    StoredChain(log.entries, log.keyring, verifies);
    LeavesKept(log.entries);
  }

  /** Which it never does to times that hold no unpaired surrogate, as those an append is given by the clock. */
  lemma {:induction false} ReopenedIsHonest(log: Log, identity: Identity, verifies: Verifier)
    requires Honest(log, identity, verifies) && IntactKeys(log.keyring)
    requires forall i | 0 <= i < |log.entries| && TimeOf(log.entries[i]).Some? :: IntactText(TimeOf(log.entries[i]).value)
    ensures Honest(Reopened(log), identity, verifies)
  {
    hide Honest, AllInTime, TimeOf, RepairedItems, IntactKeys, Exportable, AllJoined;
    HonestIsExportable(log, identity, verifies);
    TimesKept(log.entries);
    ReopenedIsHonestExactly(log, identity, verifies);
  }
}
