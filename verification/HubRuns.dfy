/** store.js: what every run of one hub log keeps, what its audit finds, and the one step that breaks the cached tree. */
module HubRuns {
  import opened Wrappers
  import opened Hashing
  import opened Canonical
  import opened JsonObjects
  import opened Utf8
  import opened JsonBytes
  import opened Merkle
  import opened Receipts
  import opened StoredReceipts
  import opened Checkpoints
  import opened CheckpointBuilding
  import opened Bundles
  import opened Hubs
  import MerkleUnique

  // ------------------------------------------------------------- the other steps

  lemma {:induction false} OnlyIngestAdds(history: History, event: Event, verifies: Verifier)
    requires !event.Ingested?
    ensures Step(history, event, verifies) == History(Apply(history.hub, event, verifies), history.entries)
  {
    hide Apply, Accepted;
    assert history.entries + [] == history.entries;
  }

  lemma {:induction false} PruneKeepsInv(history: History, event: Event, verifies: Verifier)
    requires event.Pruned? && Inv(history, verifies)
    ensures Inv(Step(history, event, verifies), verifies)
  {
    hide *;
    var hub := history.hub.(rows := PrunedRows(history.hub.rows, event.before));
    PruneIs(history, event, verifies);
    InvParts(history, verifies);
    PrunedRowsHold(history.hub.rows, history.entries, event.before);
    RowHashes(history.hub.rows, history.entries);
    RowHashes(PrunedRows(history.hub.rows, event.before), history.entries);
    CacheIs(history.hub);
    InvFrom(History(hub, history.entries), verifies);
  }

  lemma {:induction false} PruneIs(history: History, event: Event, verifies: Verifier)
    requires event.Pruned?
    ensures Step(history, event, verifies)
         == History(history.hub.(rows := PrunedRows(history.hub.rows, event.before)), history.entries)
  {
    hide Ingest, Accepted, PrunedRows, BuildCheckpoint, FinishCheckpoint;
  }

  lemma {:induction false} CacheIs(hub: Hub)
    requires CacheHolds(hub)
    ensures hub.cached.Some? ==> hub.cached.value == HashesOf(hub.rows)
  {
  }

  lemma {:induction false} PrunedRowsHold(rows: seq<Row>, entries: seq<Json>, before: Text)
    requires RowsHold(rows, entries)
    ensures RowsHold(PrunedRows(rows, before), entries)
  {
    hide RowFor, OlderThan;
    forall i | 0 <= i < |rows| ensures RowHolds(PrunedRows(rows, before)[i], entries[i]) {
      assert RowHolds(rows[i], entries[i]);
    }
  }

  /** A body built from the log row describes a true prefix, and goes on doing so while it waits for its signature. */
  lemma {:induction false} NewBodyTrue(log: LogRow, entries: seq<Json>, ts: Text)
    requires LogHolds(log, entries) && log.size != 0
    ensures BodyTrue(BuildCheckpoint(log.slug, log.size, log.root, log.head, ts), entries)
  {
    hide BuildCheckpoint, Get, SizeOf, LogHolds, TruePrefix;
    var body := BuildCheckpoint(log.slug, log.size, log.root, log.head, ts);
    CheckpointRead(body, log.slug, log.size, log.root, log.head, ts);
    LogCounts(log, entries);
    WholePrefix(log, entries);
  }

  lemma {:induction false} LogCounts(log: LogRow, entries: seq<Json>)
    requires LogHolds(log, entries)
    ensures log.size == |entries|
  {
    hide HeadOf, MerkleRoot, Raw;
  }

  lemma {:induction false} SigningKeepsInv(history: History, event: Event, verifies: Verifier)
    requires event.CheckpointBegun? || event.SigningFailed?
    requires Inv(history, verifies)
    ensures Inv(Step(history, event, verifies), verifies)
  {
    hide Replica, RowsHold, LogHolds, BatchesHold, CheckpointsHold, BodyTrue, BuildCheckpoint, RemoveAt, HashesOf, FindSize;
    OnlyIngestAdds(history, event, verifies);
    var hub := history.hub;
    if event.CheckpointBegun? && hub.log.size != 0 {
      NewBodyTrue(hub.log, history.entries, event.ts);
    }
    if event.SigningFailed? && event.index < |hub.signing| {
      RemainingHold(hub.signing, event.index, history.entries);
    }
  }

  lemma {:induction false} RemainingHold(signing: seq<Json>, i: nat, entries: seq<Json>)
    requires i < |signing| && SigningHolds(signing, entries)
    ensures SigningHolds(RemoveAt(signing, i), entries)
  {
    hide BodyTrue;
  }

  lemma {:induction false} SignedKeepsInv(history: History, event: Event, verifies: Verifier)
    requires event.CheckpointSigned? && Inv(history, verifies)
    ensures Inv(Step(history, event, verifies), verifies)
  {
    hide Replica, RowsHold, LogHolds, BatchesHold, BodyTrue, SizeOf, RemoveAt, HashesOf, SigningHolds, FindSize;
    OnlyIngestAdds(history, event, verifies);
    var hub := history.hub;
    if event.index < |hub.signing| {
      RemainingHold(hub.signing, event.index, history.entries);
      SigningBody(hub.signing, event.index, history.entries);
      if SizeOf(hub.signing[event.index]).Some? {
        FindSizeFirst(hub.checkpoints, SizeOf(hub.signing[event.index]).value);
      }
    }
  }

  lemma {:induction false} SigningBody(signing: seq<Json>, i: nat, entries: seq<Json>)
    requires i < |signing| && SigningHolds(signing, entries)
    ensures BodyTrue(signing[i], entries)
  {
    hide BodyTrue;
  }

  lemma {:induction false} WitnessKeepsInv(history: History, event: Event, verifies: Verifier)
    requires event.WitnessSigned? && Inv(history, verifies)
    ensures Inv(Step(history, event, verifies), verifies)
  {
    hide Replica, RowsHold, LogHolds, BatchesHold, BodyTrue, SizeOf, SigningHolds, WithoutKid, HashesOf, FindSize;
    OnlyIngestAdds(history, event, verifies);
  }

  /** Dropping or loading the cached tree, an id used by another log, and archiving change no row of the log's data. */
  lemma {:induction false} QuietKeepsInv(history: History, event: Event, verifies: Verifier)
    requires event.Evicted? || event.TreeUsed? || event.BatchElsewhere? || event.Archived?
    requires Inv(history, verifies)
    ensures Inv(Step(history, event, verifies), verifies)
  {
    hide Replica, RowsHold, BatchesHold, CheckpointsHold, SigningHolds, HashesOf, HeadOf, MerkleRoot, LeavesOf;
    OnlyIngestAdds(history, event, verifies);
    ReplicaUnder(history.entries, history.hub.log, history.hub.log.(archived := true), verifies);
  }

  lemma {:induction false} StepKeepsInv(history: History, event: Event, verifies: Verifier)
    requires Inv(history, verifies) && !TakenElsewhere(history.hub, event, verifies)
    ensures Inv(Step(history, event, verifies), verifies)
  {
    hide *;
    match event
    case Ingested(_, _) => IngestKeepsInv(history, event, verifies);
    case Pruned(_) => PruneKeepsInv(history, event, verifies);
    case CheckpointBegun(_) => SigningKeepsInv(history, event, verifies);
    case SigningFailed(_) => SigningKeepsInv(history, event, verifies);
    case CheckpointSigned(_, _) => SignedKeepsInv(history, event, verifies);
    case WitnessSigned(_, _) => WitnessKeepsInv(history, event, verifies);
    case _ => QuietKeepsInv(history, event, verifies);
  }

  lemma {:induction false} CreatedInv(log: LogRow, verifies: Verifier)
    ensures Inv(Created(log), verifies)
  {
    hide GenesisPrev, Raw, Repaired;
    assert LeavesOf([]) == [];
    RepairedIsIntact(log.kid);
  }

  /** Over every run of committed steps the rows, the log row, the checkpoints and the cached tree describe one chain. */
  lemma {:induction false} RunKeepsInv(log: LogRow, events: seq<Event>, verifies: Verifier)
    requires CommittedRun(log, events, verifies)
    ensures Inv(Run(log, events, verifies), verifies)
    decreases |events|
  {
    hide Inv, Step, TakenElsewhere, Created;
    if |events| == 0 {
      CreatedInv(log, verifies);
    } else {
      RunFront(log, events, verifies);
      RunKeepsInv(log, events[..|events| - 1], verifies);
      StepKeepsInv(Run(log, events[..|events| - 1], verifies), events[|events| - 1], verifies);
    }
  }

  lemma {:induction false} RunFront(log: LogRow, events: seq<Event>, verifies: Verifier)
    requires |events| > 0 && CommittedRun(log, events, verifies)
    ensures CommittedRun(log, events[..|events| - 1], verifies)
    ensures !TakenElsewhere(Run(log, events[..|events| - 1], verifies).hub, events[|events| - 1], verifies)
  {
    hide Run, TakenElsewhere;
    var front := events[..|events| - 1];
    forall i | 0 <= i < |front| ensures !TakenElsewhere(Run(log, front[..i], verifies).hub, front[i], verifies) {
      assert front[..i] == events[..i];
    }
  }

  /** Nothing a log has accepted is ever removed, replaced or reordered. */
  lemma {:induction false} AppendOnly(log: LogRow, events: seq<Event>, n: nat, verifies: Verifier)
    requires n <= |events|
    ensures Run(log, events[..n], verifies).entries <= Run(log, events, verifies).entries
    decreases |events|
  {
    hide Step;
    if n == |events| {
      assert events[..n] == events;
    } else {
      var front := events[..|events| - 1];
      assert front[..n] == events[..n];
      AppendOnly(log, front, n, verifies);
      StepAppends(Run(log, front, verifies), events[|events| - 1], verifies);
    }
  }

  lemma {:induction false} StepAppends(history: History, event: Event, verifies: Verifier)
    ensures history.entries <= Step(history, event, verifies).entries
  {
    hide Accepted, Apply;
  }

  /** A retried batch is answered with what was committed, and nothing is added. */
  lemma {:induction false} RetryIsIdempotent(history: History, receipts: seq<Json>, batchId: Text, verifies: Verifier)
    requires Inv(history, verifies) && !history.hub.log.archived && Repaired(batchId) in history.hub.batches
    ensures Ingest(history.hub, receipts, Some(batchId), verifies).0 == history.hub
    ensures Accepted(history.hub, receipts, Some(batchId), verifies) == []
    ensures var reply := Ingest(history.hub, receipts, Some(batchId), verifies).1;
      reply.Ok? && reply.value.duplicate && TruePrefix(reply.value.size, reply.value.root, reply.value.head, history.entries)
  {
    hide Replica, RowsHold, LogHolds, CheckpointsHold, SigningHolds, CacheHolds, TruePrefix, Fault, Commit;
  }

  // ---------------------------------------------------------------------- audit

  /** The hash of a row as the audit sees it: recomputed, or as stored once the content is gone. */
  function AuditedHash(row: Row): Digest {
    if row.body.Some? then EntryHash(row.body.value) else row.hash
  }

  function AuditedHashes(rows: seq<Row>): (hashes: seq<Digest>)
    ensures |hashes| == |rows|
  {
    seq(|rows|, i requires 0 <= i < |rows| => AuditedHash(rows[i]))
  }

  function PrevAt(rows: seq<Row>, i: nat): Text
    requires i <= |rows|
  {
    if i == 0 then GenesisPrev() else Raw(AuditedHash(rows[i - 1]))
  }

  predicate RowAudited(rows: seq<Row>, i: nat, log: LogRow, verifies: Verifier)
    requires i < |rows|
  {
    && rows[i].index == i
    && match rows[i].body
       case None => rows[i].prev == PrevAt(rows, i)
       case Some(receipt) =>
         && ReceiptSound(receipt, HubKeyring(log), verifies)
         && PrevOf(receipt) == Some(PrevAt(rows, i))
         && EntryHash(receipt) == rows[i].hash
  }

  predicate CheckpointAudited(checkpoint: Checkpoint, hashes: seq<Digest>) {
    var size, root := SizeOf(checkpoint.body), RootOf(checkpoint.body);
    && size.Some? && root.Some? && 0 <= size.value <= |hashes|
    && (0 == size.value < |hashes| || root.value == Raw(MerkleRoot(hashes[..size.value])))
  }

  predicate RowsAudited(rows: seq<Row>, log: LogRow, verifies: Verifier) {
    forall i | 0 <= i < |rows| :: RowAudited(rows, i, log, verifies)
  }

  predicate CheckpointsAudited(checkpoints: seq<Checkpoint>, hashes: seq<Digest>) {
    forall i | 0 <= i < |checkpoints| :: CheckpointAudited(checkpoints[i], hashes)
  }

  predicate HubAuditOk(hub: Hub, verifies: Verifier) {
    && RowsAudited(hub.rows, hub.log, verifies)
    && |hub.rows| == hub.log.size
    && (|hub.rows| > 0 ==> hub.log.root == Raw(MerkleRoot(AuditedHashes(hub.rows))))
    && CheckpointsAudited(hub.checkpoints, AuditedHashes(hub.rows))
  }

  lemma {:induction false} AuditedAre(rows: seq<Row>, entries: seq<Json>)
    requires RowsHold(rows, entries)
    ensures AuditedHashes(rows) == LeavesOf(entries)
  {
    hide SeqOf, PrevOf, TimeOf, EntryHash;
    forall i | 0 <= i < |rows| ensures AuditedHashes(rows)[i] == LeavesOf(entries)[i] {
      assert RowHolds(rows[i], entries[i]);
      HashKept(entries[i]);
    }
  }

  lemma {:induction false} RowPasses(rows: seq<Row>, entries: seq<Json>, i: nat, log: LogRow, verifies: Verifier)
    requires RowsHold(rows, entries) && i < |rows| && EntryInChain(entries, i, log, verifies) && IntactText(log.kid)
    ensures RowAudited(rows, i, log, verifies)
  {
    hide *;
    RowIs(rows, entries, i);
    EntryIs(entries, i, log, verifies);
    AuditedPrev(rows, entries, i);
    LinkPlain(PrevAt(rows, i));
    PrevKept(entries[i], PrevAt(rows, i));
    PlainRepairs(PrevAt(rows, i));
    HashKept(entries[i]);
    OneKey(log);
    SoundKept(entries[i], HubKeyring(log), verifies);
    RowAuditedFrom(rows, entries[i], i, log, verifies);
  }

  lemma {:induction false} RowIs(rows: seq<Row>, entries: seq<Json>, i: nat)
    requires RowsHold(rows, entries) && i < |rows|
    ensures i < |entries| && RowHolds(rows[i], entries[i])
  {
    hide RowHolds;
  }

  lemma {:induction false} EntryIs(entries: seq<Json>, i: nat, log: LogRow, verifies: Verifier)
    requires i < |entries| && EntryInChain(entries, i, log, verifies)
    ensures ReceiptSound(entries[i], HubKeyring(log), verifies) && SeqOf(entries[i]) == Some(i)
    ensures PrevOf(entries[i]) == Some(if i == 0 then GenesisPrev() else Raw(EntryHash(entries[i - 1])))
  {
    hide ReceiptSound, SeqOf, PrevOf, EntryHash, Raw, GenesisPrev, Named;
  }

  lemma {:induction false} AuditedPrev(rows: seq<Row>, entries: seq<Json>, i: nat)
    requires RowsHold(rows, entries) && i < |rows|
    ensures PrevAt(rows, i) == if i == 0 then GenesisPrev() else Raw(EntryHash(entries[i - 1]))
  {
    hide EntryHash, Raw, GenesisPrev, SeqOf, PrevOf, TimeOf, RepairedJson, Repaired;
    if i > 0 {
      assert RowHolds(rows[i - 1], entries[i - 1]);
      HashKept(entries[i - 1]);
    }
  }

  lemma {:induction false} OneKey(log: LogRow)
    requires IntactText(log.kid)
    ensures IntactKeys(HubKeyring(log))
  {
    hide IntactText;
  }

  lemma {:induction false} RowAuditedFrom(rows: seq<Row>, entry: Json, i: nat, log: LogRow, verifies: Verifier)
    requires i < |rows| && RowHolds(rows[i], entry) && SeqOf(entry) == Some(i)
    requires PrevOf(entry) == Some(PrevAt(rows, i)) && Repaired(PrevAt(rows, i)) == PrevAt(rows, i)
    requires PrevOf(RepairedJson(entry)) == Some(PrevAt(rows, i))
    requires ReceiptSound(RepairedJson(entry), HubKeyring(log), verifies)
    requires EntryHash(RepairedJson(entry)) == EntryHash(entry)
    ensures RowAudited(rows, i, log, verifies)
  {
    hide SeqOf, PrevOf, TimeOf, EntryHash, ReceiptSound, RepairedJson, Repaired, PrevAt;
  }

  lemma {:induction false} CheckpointsPass(checkpoints: seq<Checkpoint>, entries: seq<Json>)
    requires CheckpointsHold(checkpoints, entries)
    ensures CheckpointsAudited(checkpoints, LeavesOf(entries))
  {
    hide SizeOf, RootOf, TextAt, Get, MerkleRoot, Raw, LeavesOf, HeadOf, GenesisPrev;
  }

  /** The audit passes after every run of committed steps, whatever has been pruned. */
  lemma {:induction false} AuditPasses(history: History, verifies: Verifier)
    requires Inv(history, verifies)
    ensures HubAuditOk(history.hub, verifies)
  {
    hide RowAudited, RowHolds, MerkleRoot, Raw, HeadOf, CheckpointsAudited, CheckpointsHold, BatchesHold, SigningHolds,
      AuditedHashes, LeavesOf, EntryInChain;
    AuditedAre(history.hub.rows, history.entries);
    forall i | 0 <= i < |history.hub.rows| ensures RowAudited(history.hub.rows, i, history.hub.log, verifies) {
      RowPasses(history.hub.rows, history.entries, i, history.hub.log, verifies);
    }
    CheckpointsPass(history.hub.checkpoints, history.entries);
  }

  lemma {:induction false} RunsPassAudit(log: LogRow, events: seq<Event>, verifies: Verifier)
    requires CommittedRun(log, events, verifies)
    ensures HubAuditOk(Run(log, events, verifies).hub, verifies)
  {
    hide Inv, Run, CommittedRun, HubAuditOk;
    RunKeepsInv(log, events, verifies);
    AuditPasses(Run(log, events, verifies), verifies);
  }

  // --------------------------------------------------------------- the broken cache

  /**
   * The cached tree stays the tree of the rows exactly when no faultless batch comes under an id that only
   * another log has used.
   */
  lemma {:induction false} CacheBreaksExactly(history: History, event: Event, verifies: Verifier)
    requires Inv(history, verifies)
    ensures CacheHolds(Apply(history.hub, event, verifies)) <==> !TakenElsewhere(history.hub, event, verifies)
    ensures TakenElsewhere(history.hub, event, verifies) ==> Thrown(history, event, verifies)
  {
    hide Inv, Apply, CacheHolds, TakenElsewhere, Thrown;
    if TakenElsewhere(history.hub, event, verifies) {
      ThrownIs(history, event, verifies);
      ThrownCache(history, event, verifies);
    } else {
      StepKeepsInv(history, event, verifies);
      StepHub(history, event, verifies);
      InvParts(Step(history, event, verifies), verifies);
    }
  }

  lemma {:induction false} StepHub(history: History, event: Event, verifies: Verifier)
    ensures Step(history, event, verifies).hub == Apply(history.hub, event, verifies)
  {
    hide Apply, Accepted;
  }

  /** Rows and log row roll back; the tree keeps the leaves of the refused batch. */
  predicate Thrown(history: History, event: Event, verifies: Verifier) {
    && event.Ingested? && |event.receipts| > 0
    && Apply(history.hub, event, verifies)
       == history.hub.(cached := Some(LeavesOf(history.entries) + LeavesOf(event.receipts)))
  }

  lemma {:induction false} ThrownIs(history: History, event: Event, verifies: Verifier)
    requires Inv(history, verifies) && TakenElsewhere(history.hub, event, verifies)
    ensures Thrown(history, event, verifies)
  {
    hide Inv, Fault, Commit, LeavesOf, TreeLeaves, HashesOf;
    TreeIsRows(history, verifies);
  }

  lemma {:induction false} ThrownCache(history: History, event: Event, verifies: Verifier)
    requires Inv(history, verifies) && Thrown(history, event, verifies)
    ensures !CacheHolds(Apply(history.hub, event, verifies))
  {
    hide Inv, Apply;
    TreeIsRows(history, verifies);
  }

  /**
   * What the broken cache does: the next batch accepted on top of it writes a root that is not
   * the root of the stored rows, and the audit reports it.
   */
  lemma {:induction false} BrokenCacheFailsAudit(history: History, event: Event, receipts: seq<Json>, batchId: Option<Text>,
                                                 verifies: Verifier, broken: Hub)
    requires Inv(history, verifies) && event.Ingested? && TakenElsewhere(history.hub, event, verifies)
    requires broken == Apply(history.hub, event, verifies)
    requires Ingest(broken, receipts, batchId, verifies).1.Ok? && !Ingest(broken, receipts, batchId, verifies).1.value.duplicate
    ensures !HubAuditOk(Ingest(broken, receipts, batchId, verifies).0, verifies)
  {
    hide *;
    ThrownIs(history, event, verifies);
    var after := Ingest(broken, receipts, batchId, verifies).0;
    BrokenCommit(history, event, receipts, batchId, verifies, broken, after);
    InvParts(history, verifies);
    NewRowsHold(history.hub.rows, history.entries, receipts);
    AuditedAre(after.rows, history.entries + receipts);
    LeavesAppend(history.entries, receipts);
    LeavesAppend(history.entries + event.receipts, receipts);
    LeavesAppend(history.entries, event.receipts);
    RootsDiffer(history.entries + event.receipts + receipts, history.entries + receipts);
    if HubAuditOk(after, verifies) {
      AuditRoot(after, verifies);
      assert false;
    }
  }

  lemma {:induction false} BrokenCommit(history: History, event: Event, receipts: seq<Json>, batchId: Option<Text>,
                                        verifies: Verifier, broken: Hub, after: Hub)
    requires event.Ingested? && Thrown(history, event, verifies) && broken == Apply(history.hub, event, verifies)
    requires Ingest(broken, receipts, batchId, verifies).1.Ok? && !Ingest(broken, receipts, batchId, verifies).1.value.duplicate
    requires after == Ingest(broken, receipts, batchId, verifies).0
    ensures |event.receipts| > 0 && |receipts| > 0
    ensures after.rows == history.hub.rows + RowsFor(receipts)
    ensures after.log.root == Raw(MerkleRoot(LeavesOf(history.entries) + LeavesOf(event.receipts) + LeavesOf(receipts)))
  {
    hide Apply, Fault, LeavesOf, HashesOf, RowsFor, MerkleRoot, Raw;
  }

  lemma {:induction false} AuditRoot(hub: Hub, verifies: Verifier)
    requires HubAuditOk(hub, verifies) && |hub.rows| > 0
    ensures hub.log.root == Raw(MerkleRoot(AuditedHashes(hub.rows)))
  {
    hide RowsAudited, CheckpointsAudited, AuditedHashes, MerkleRoot;
  }

  lemma {:induction false} RootsDiffer(a: seq<Json>, b: seq<Json>)
    requires |a| != |b|
    ensures Raw(MerkleRoot(LeavesOf(a))) != Raw(MerkleRoot(LeavesOf(b)))
  {
    hide MerkleRoot, Raw, EntryHash;
    if Raw(MerkleRoot(LeavesOf(a))) == Raw(MerkleRoot(LeavesOf(b))) {
      RawInjective(MerkleRoot(LeavesOf(a)), MerkleRoot(LeavesOf(b)));
      LeavesAreTagged(a);
      LeavesAreTagged(b);
      MerkleUnique.TaggedRootDeterminesLeaves(LeavesOf(a), LeavesOf(b));
      assert false;
    }
  }
}
