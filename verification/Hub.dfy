/**
 * store.js, one log of the hub as rows: ingest, retention, checkpoints that wait for
 * a signer, and the cached tree. A transaction is one step; a step that fails
 * inside its transaction leaves the rows, but not always the cached tree, as they were.
 */
module Hubs {
  import opened Wrappers
  import opened Hashing
  import opened Canonical
  import opened JsonObjects
  import opened Utf8
  import opened JsonBytes
  import opened Merkle
  import opened Receipts
  import opened StoredReceipts
  import opened Checkpoints
  import opened CheckpointBuilding
  import opened Bundles

  datatype LogRow = LogRow(id: Text, slug: Text, canonical: Text, kid: Text, publicKey: Text, archived: bool, size: int,
                           head: Text, root: Text)

  /** A stored receipt; `body` is gone once retention has cleared it. */
  datatype Row = Row(index: int, hash: Digest, prev: Text, ts: Text, body: Option<Json>)

  datatype BatchRow = BatchRow(accepted: nat, size: int, head: Text, root: Text)

  datatype Reply = Reply(accepted: nat, size: int, head: Text, root: Text, duplicate: bool)

  datatype IngestError =
    | LogArchived | EmptyBatch | ReceiptRejected | WrongLog | SequenceGap(expected: int) | ChainMismatch | BatchIdTaken

  /** The columns are UTF-8: a text is stored with unpaired surrogates replaced. */
  function Column(t: Option<Text>): Option<Text> {
    if t.Some? then Some(Repaired(t.value)) else None
  }

  function StoredLog(log: LogRow): LogRow {
    log.(id := Repaired(log.id), slug := Repaired(log.slug), canonical := Repaired(log.canonical), kid := Repaired(log.kid),
         publicKey := Repaired(log.publicKey))
  }

  /**
   * `elsewhere` holds the batch ids other logs have used, as they are stored; `signing` the checkpoint bodies
   * a signer has not returned yet.
   */
  datatype Hub = Hub(log: LogRow, rows: seq<Row>, checkpoints: seq<Checkpoint>, batches: map<Text, BatchRow>,
                     elsewhere: set<Text>, cached: Option<seq<Digest>>, signing: seq<Json>)

  function HubKeyring(log: LogRow): Keyring {
    map[log.kid := log.publicKey]
  }

  function HashesOf(rows: seq<Row>): (hashes: seq<Digest>)
    ensures |hashes| == |rows|
  {
    seq(|rows|, i requires 0 <= i < |rows| => rows[i].hash)
  }

  /** `Store.tree`: the cached tree, or one loaded from the stored hashes. */
  function TreeLeaves(hub: Hub): seq<Digest> {
    if hub.cached.Some? then hub.cached.value else HashesOf(hub.rows)
  }

  predicate Named(receipt: Json, log: LogRow) {
    var name := TextAt(Get(receipt, LOG));
    name == Some(log.canonical) || name == Some(log.slug) || name == Some(log.id)
  }

  /** The first thing wrong with receipt `i` of a batch, in the order it is checked. */
  function FaultAt(receipts: seq<Json>, i: nat, log: LogRow, verifies: Verifier): Option<IngestError>
    requires i < |receipts|
  {
    if !ReceiptSound(receipts[i], HubKeyring(log), verifies) then Some(ReceiptRejected)
    else if !Named(receipts[i], log) then Some(WrongLog)
    else if !Numbered(receipts, i, log.size) then Some(SequenceGap(log.size + i))
    else if !Linked(receipts, i, log.head) then Some(ChainMismatch)
    else None
  }

  function Fault(receipts: seq<Json>, n: nat, log: LogRow, verifies: Verifier): Option<IngestError>
    requires n <= |receipts|
  {
    if n == 0 then None
    else
      var before := Fault(receipts, n - 1, log, verifies);
      if before.Some? then before else FaultAt(receipts, n - 1, log, verifies)
  }

  function RowFor(receipt: Json): Row {
    var index, prev, ts := SeqOf(receipt), Column(PrevOf(receipt)), Column(TimeOf(receipt));
    Row(if index.Some? then index.value else 0, EntryHash(receipt), if prev.Some? then prev.value else [],
        if ts.Some? then ts.value else [], Some(RepairedJson(receipt)))
  }

  function RowsFor(receipts: seq<Json>): (rows: seq<Row>)
    ensures |rows| == |receipts|
  {
    seq(|receipts|, i requires 0 <= i < |receipts| => RowFor(receipts[i]))
  }

  /** The reply of a batch that is committed on top of `tree`. */
  function Committed(log: LogRow, receipts: seq<Json>, tree: seq<Digest>): BatchRow
    requires |receipts| > 0
  {
    BatchRow(|receipts|, log.size + |receipts|, Raw(EntryHash(receipts[|receipts| - 1])), Raw(MerkleRoot(tree)))
  }

  function ReplyOf(batch: BatchRow, duplicate: bool): Reply {
    Reply(batch.accepted, batch.size, batch.head, batch.root, duplicate)
  }

  function Commit(hub: Hub, receipts: seq<Json>, batchId: Option<Text>, tree: seq<Digest>): Hub
    requires |receipts| > 0
  {
    var batch, id := Committed(hub.log, receipts, tree), Column(batchId);
    hub.(rows := hub.rows + RowsFor(receipts),
         log := hub.log.(size := batch.size, head := batch.head, root := batch.root),
         batches := if id.Some? then hub.batches[id.value := batch] else hub.batches,
         cached := Some(tree))
  }

  /** `Store.ingest`: the state after the call, and its answer. */
  function Ingest(hub: Hub, receipts: seq<Json>, batchId: Option<Text>, verifies: Verifier): (Hub, Result<Reply, IngestError>) {
    var id := Column(batchId);
    if hub.log.archived then (hub, Err(LogArchived))
    else if id.Some? && id.value in hub.batches then (hub, Ok(ReplyOf(hub.batches[id.value], true)))
    else if |receipts| == 0 then (hub, Err(EmptyBatch))
    else
      var loaded := TreeLeaves(hub);
      var fault := Fault(receipts, |receipts|, hub.log, verifies);
      if fault.Some? then (hub.(cached := Some(loaded)), Err(fault.value))
      else
        var tree := loaded + LeavesOf(receipts);
        if id.Some? && id.value in hub.elsewhere then (hub.(cached := Some(tree)), Err(BatchIdTaken))
        else (Commit(hub, receipts, batchId, tree), Ok(ReplyOf(Committed(hub.log, receipts, tree), false)))
  }

  /** The receipts a call adds: all of the batch or none of it. */
  function Accepted(hub: Hub, receipts: seq<Json>, batchId: Option<Text>, verifies: Verifier): seq<Json> {
    var reply := Ingest(hub, receipts, batchId, verifies).1;
    if reply.Ok? && !reply.value.duplicate then receipts else []
  }

  /** `ts < ?`: the column's order is that of the bytes. */
  predicate OlderThan(row: Row, before: Text) {
    TextLess(Encoded(row.ts), Encoded(before))
  }

  function PrunedRow(row: Row, before: Text): Row {
    if OlderThan(row, before) then row.(body := None) else row
  }

  function PrunedRows(rows: seq<Row>, before: Text): (pruned: seq<Row>)
    ensures |pruned| == |rows|
  {
    seq(|rows|, i requires 0 <= i < |rows| => PrunedRow(rows[i], before))
  }

  datatype Event =
    | Ingested(receipts: seq<Json>, batchId: Option<Text>)
    | Pruned(before: Text)
    | CheckpointBegun(ts: Text)
    | CheckpointSigned(index: nat, signature: Signed)
    | SigningFailed(index: nat)
    | WitnessSigned(size: int, signature: Signed)
    | Evicted
    | TreeUsed
    | BatchElsewhere(id: Text)
    | Archived

  /** A checkpoint is written from the log row as it was when it was asked for, however late its signature comes. */
  function FinishCheckpoint(hub: Hub, i: nat, signature: Signed): Hub
    requires i < |hub.signing|
  {
    var body := hub.signing[i];
    var size := SizeOf(body);
    hub.(signing := RemoveAt(hub.signing, i),
         checkpoints := if size.None? || FindSize(hub.checkpoints, size.value).Some? then hub.checkpoints
                        else hub.checkpoints + [Checkpoint(body, [signature])])
  }

  function Apply(hub: Hub, event: Event, verifies: Verifier): Hub {
    match event
    case Ingested(receipts, batchId) => Ingest(hub, receipts, batchId, verifies).0
    case Pruned(before) => hub.(rows := PrunedRows(hub.rows, before))
    case CheckpointBegun(ts) =>
      if hub.log.size == 0 || FindSize(hub.checkpoints, hub.log.size).Some? then hub
      else hub.(signing := hub.signing + [BuildCheckpoint(hub.log.slug, hub.log.size, hub.log.root, hub.log.head, ts)])
    case CheckpointSigned(i, signature) => if i < |hub.signing| then FinishCheckpoint(hub, i, signature) else hub
    case SigningFailed(i) => if i < |hub.signing| then hub.(signing := RemoveAt(hub.signing, i)) else hub
    case WitnessSigned(size, signature) => hub.(checkpoints := WithSignature(hub.checkpoints, size, signature))
    case Evicted => hub.(cached := None)
    case TreeUsed => hub.(cached := Some(TreeLeaves(hub)))
    case BatchElsewhere(id) =>
      if Repaired(id) in hub.batches then hub else hub.(elsewhere := hub.elsewhere + {Repaired(id)})
    case Archived => hub.(log := hub.log.(archived := true))
  }

  /** A batch without a fault under an id that, as it is stored, only another log has used. */
  predicate TakenElsewhere(hub: Hub, event: Event, verifies: Verifier) {
    && event.Ingested? && !hub.log.archived && |event.receipts| > 0
    && event.batchId.Some?
    && Repaired(event.batchId.value) !in hub.batches && Repaired(event.batchId.value) in hub.elsewhere
    && Fault(event.receipts, |event.receipts|, hub.log, verifies) == None
  }

  /** That is what a call is refused for as taken: the one refusal that comes after the tree has grown. */
  lemma {:induction false} TakenElsewhereIs(hub: Hub, event: Event, verifies: Verifier)
    requires event.Ingested?
    ensures TakenElsewhere(hub, event, verifies) <==>
            Ingest(hub, event.receipts, event.batchId, verifies).1 == Err(BatchIdTaken)
  {
    hide Fault, Commit, Committed, TreeLeaves, LeavesOf;
    FaultNeverTaken(event.receipts, |event.receipts|, hub.log, verifies);
  }

  lemma {:induction false} FaultNeverTaken(receipts: seq<Json>, n: nat, log: LogRow, verifies: Verifier)
    requires n <= |receipts|
    ensures Fault(receipts, n, log, verifies) != Some(BatchIdTaken)
    decreases n
  {
    hide ReceiptSound, Named, Numbered, Linked;
    if n > 0 {
      FaultNeverTaken(receipts, n - 1, log, verifies);
    }
  }

  // ----------------------------------------------------------------------- runs

  /** The state of the log and every receipt it has ever accepted, in order. */
  datatype History = History(hub: Hub, entries: seq<Json>)

  function Step(history: History, event: Event, verifies: Verifier): History {
    History(Apply(history.hub, event, verifies),
            history.entries
            + if event.Ingested? then Accepted(history.hub, event.receipts, event.batchId, verifies) else [])
  }

  function Created(log: LogRow): History {
    History(Hub(StoredLog(log).(size := 0, head := GenesisPrev(), root := Raw(EmptyRoot())), [], [], map[], {}, None, []), [])
  }

  function Run(log: LogRow, events: seq<Event>, verifies: Verifier): History {
    if |events| == 0 then Created(log)
    else Step(Run(log, events[..|events| - 1], verifies), events[|events| - 1], verifies)
  }

  /** No step offers a batch that would be accepted but for an id taken elsewhere. */
  predicate CommittedRun(log: LogRow, events: seq<Event>, verifies: Verifier) {
    forall i | 0 <= i < |events| :: !TakenElsewhere(Run(log, events[..i], verifies).hub, events[i], verifies)
  }

  // ------------------------------------------------------------------ invariant

  /** Entry `i` is the next of the log's chain. */
  predicate EntryInChain(entries: seq<Json>, i: nat, log: LogRow, verifies: Verifier)
    requires i < |entries|
  {
    Joined(entries, i, HubKeyring(log), verifies) && Named(entries[i], log)
  }

  predicate Replica(entries: seq<Json>, log: LogRow, verifies: Verifier) {
    forall i | 0 <= i < |entries| :: EntryInChain(entries, i, log, verifies)
  }

  /** A row is that of the entry, or of the entry with its content cleared. */
  predicate RowHolds(row: Row, entry: Json) {
    row == RowFor(entry) || row == RowFor(entry).(body := None)
  }

  predicate RowsHold(rows: seq<Row>, entries: seq<Json>) {
    |rows| == |entries| && forall i | 0 <= i < |rows| :: RowHolds(rows[i], entries[i])
  }

  /** The size, head and root of a true, non-empty prefix. */
  predicate TruePrefix(size: int, root: Text, head: Text, entries: seq<Json>) {
    && 0 < size <= |entries|
    && root == Raw(MerkleRoot(LeavesOf(entries)[..size]))
    && head == HeadOf(entries[..size], GenesisPrev())
  }

  predicate BodyTrue(body: Json, entries: seq<Json>) {
    var size, root, head := SizeOf(body), RootOf(body), TextAt(Get(body, HEAD));
    size.Some? && root.Some? && head.Some? && TruePrefix(size.value, root.value, head.value, entries)
  }

  predicate LogHolds(log: LogRow, entries: seq<Json>) {
    && log.size == |entries| && IntactText(log.kid)
    && log.head == HeadOf(entries, GenesisPrev())
    && log.root == Raw(MerkleRoot(LeavesOf(entries)))
  }

  predicate BatchesHold(batches: map<Text, BatchRow>, entries: seq<Json>) {
    forall id | id in batches :: TruePrefix(batches[id].size, batches[id].root, batches[id].head, entries)
  }

  /** One checkpoint of a size, each of them true. */
  predicate CheckpointsHold(checkpoints: seq<Checkpoint>, entries: seq<Json>) {
    && (forall i | 0 <= i < |checkpoints| :: BodyTrue(checkpoints[i].body, entries))
    && forall i, j | 0 <= i < j < |checkpoints| :: SizeOf(checkpoints[i].body) != SizeOf(checkpoints[j].body)
  }

  predicate SigningHolds(signing: seq<Json>, entries: seq<Json>) {
    forall i | 0 <= i < |signing| :: BodyTrue(signing[i], entries)
  }

  /** The cached tree is the one that loading the stored hashes would give. */
  predicate CacheHolds(hub: Hub) {
    hub.cached.Some? ==> hub.cached.value == HashesOf(hub.rows)
  }

  /** Rows, log row, checkpoints and batches all describe one append-only chain. */
  predicate Inv(history: History, verifies: Verifier) {
    var hub, entries := history.hub, history.entries;
    && Replica(entries, hub.log, verifies)
    && RowsHold(hub.rows, entries)
    && LogHolds(hub.log, entries)
    && BatchesHold(hub.batches, entries)
    && CheckpointsHold(hub.checkpoints, entries)
    && SigningHolds(hub.signing, entries)
    && CacheHolds(hub)
  }

  // ------------------------------------------------------------- entries growing

  predicate SameNames(a: LogRow, b: LogRow) {
    a.id == b.id && a.slug == b.slug && a.canonical == b.canonical && a.kid == b.kid && a.publicKey == b.publicKey
  }

  lemma {:induction false} ReplicaUnder(entries: seq<Json>, a: LogRow, b: LogRow, verifies: Verifier)
    requires Replica(entries, a, verifies) && SameNames(a, b)
    ensures Replica(entries, b, verifies)
  {
    hide ReceiptSound, SeqOf, Linked, Numbered, Get, GenesisPrev;
    forall i | 0 <= i < |entries| ensures EntryInChain(entries, i, b, verifies) {
      assert EntryInChain(entries, i, a, verifies);
    }
  }

  lemma {:induction false} NoFault(receipts: seq<Json>, n: nat, log: LogRow, verifies: Verifier)
    requires n <= |receipts|
    ensures Fault(receipts, n, log, verifies) == None <==>
            forall i | 0 <= i < n :: FaultAt(receipts, i, log, verifies) == None
    decreases n
  {
    hide FaultAt;
    if n > 0 {
      NoFault(receipts, n - 1, log, verifies);
    }
  }

  lemma {:induction false} FaultStays(receipts: seq<Json>, n: nat, m: nat, log: LogRow, verifies: Verifier)
    requires n <= m <= |receipts| && Fault(receipts, n, log, verifies).Some?
    ensures Fault(receipts, m, log, verifies) == Fault(receipts, n, log, verifies)
    decreases m
  {
    hide FaultAt;
    if n < m {
      FaultStays(receipts, n, m - 1, log, verifies);
    }
  }

  /** A batch without a fault carries the chain on. */
  lemma {:induction false} BatchExtends(entries: seq<Json>, receipts: seq<Json>, log: LogRow, verifies: Verifier)
    requires Replica(entries, log, verifies) && LogHolds(log, entries)
    requires Fault(receipts, |receipts|, log, verifies) == None
    ensures Replica(entries + receipts, log, verifies)
  {
    hide ReceiptSound, SeqOf, PrevOf, Named, GenesisPrev, EntryHash, Raw, MerkleRoot, Fault;
    var all := entries + receipts;
    NoFault(receipts, |receipts|, log, verifies);
    forall i | 0 <= i < |all| ensures EntryInChain(all, i, log, verifies) {
      if i < |entries| {
        assert EntryInChain(entries, i, log, verifies);
      } else {
        assert FaultAt(receipts, i - |entries|, log, verifies) == None;
      }
    }
  }

  lemma {:induction false} LeavesAppend(entries: seq<Json>, more: seq<Json>)
    ensures LeavesOf(entries + more) == LeavesOf(entries) + LeavesOf(more)
  {
    hide EntryHash;
  }

  lemma {:induction false} HeadAppend(entries: seq<Json>, more: seq<Json>)
    requires |more| > 0
    ensures HeadOf(entries + more, GenesisPrev()) == Raw(EntryHash(more[|more| - 1]))
  {
    hide EntryHash, Raw;
  }

  lemma {:induction false} TruePrefixStays(size: int, root: Text, head: Text, entries: seq<Json>, more: seq<Json>)
    requires TruePrefix(size, root, head, entries)
    ensures TruePrefix(size, root, head, entries + more)
  {
    hide MerkleRoot, HeadOf, Raw, LeavesOf, GenesisPrev;
    LeavesAppend(entries, more);
    assert (LeavesOf(entries) + LeavesOf(more))[..size] == LeavesOf(entries)[..size];
    assert (entries + more)[..size] == entries[..size];
  }

  lemma {:induction false} WholePrefix(log: LogRow, entries: seq<Json>)
    requires LogHolds(log, entries) && |entries| > 0
    ensures TruePrefix(log.size, log.root, log.head, entries)
  {
    hide MerkleRoot, HeadOf, Raw, LeavesOf, GenesisPrev;
    assert LeavesOf(entries)[..|entries|] == LeavesOf(entries);
    assert entries[..|entries|] == entries;
  }

  lemma {:induction false} BatchesStay(batches: map<Text, BatchRow>, entries: seq<Json>, more: seq<Json>)
    requires BatchesHold(batches, entries)
    ensures BatchesHold(batches, entries + more)
  {
    hide TruePrefix;
    forall id | id in batches ensures TruePrefix(batches[id].size, batches[id].root, batches[id].head, entries + more) {
      TruePrefixStays(batches[id].size, batches[id].root, batches[id].head, entries, more);
    }
  }

  lemma {:induction false} BodyStays(body: Json, entries: seq<Json>, more: seq<Json>)
    requires BodyTrue(body, entries)
    ensures BodyTrue(body, entries + more)
  {
    hide TruePrefix, SizeOf, RootOf, TextAt, Get;
    TruePrefixStays(SizeOf(body).value, RootOf(body).value, TextAt(Get(body, HEAD)).value, entries, more);
  }

  lemma {:induction false} CheckpointsStay(checkpoints: seq<Checkpoint>, signing: seq<Json>, entries: seq<Json>,
                                           more: seq<Json>)
    requires CheckpointsHold(checkpoints, entries) && SigningHolds(signing, entries)
    ensures CheckpointsHold(checkpoints, entries + more) && SigningHolds(signing, entries + more)
  {
    hide BodyTrue, SizeOf;
    forall i | 0 <= i < |checkpoints| ensures BodyTrue(checkpoints[i].body, entries + more) {
      BodyStays(checkpoints[i].body, entries, more);
    }
    forall i | 0 <= i < |signing| ensures BodyTrue(signing[i], entries + more) {
      BodyStays(signing[i], entries, more);
    }
  }

  /** Receipts that were checked fill their columns, so each row says what its receipt does. */
  lemma {:induction false} NewRowsHold(rows: seq<Row>, entries: seq<Json>, receipts: seq<Json>)
    requires RowsHold(rows, entries)
    ensures RowsHold(rows + RowsFor(receipts), entries + receipts)
  {
    hide RowFor;
    var all, more := rows + RowsFor(receipts), entries + receipts;
    forall i | 0 <= i < |all| ensures RowHolds(all[i], more[i]) {
      if i < |rows| {
        assert RowHolds(rows[i], entries[i]);
      } else {
        RowForHolds(receipts[i - |rows|]);
      }
    }
  }

  lemma {:induction false} RowForHolds(receipt: Json)
    ensures RowHolds(RowFor(receipt), receipt)
  {
    hide SeqOf, PrevOf, TimeOf, EntryHash;
  }

  lemma {:induction false} RowHashes(rows: seq<Row>, entries: seq<Json>)
    requires RowsHold(rows, entries)
    ensures HashesOf(rows) == LeavesOf(entries)
  {
    hide EntryHash, SeqOf, PrevOf, TimeOf;
    forall i | 0 <= i < |rows| ensures HashesOf(rows)[i] == LeavesOf(entries)[i] {
      assert RowHolds(rows[i], entries[i]);
    }
  }

  // ------------------------------------------------------------------------ steps

  lemma {:induction false} CommitKeepsInv(history: History, receipts: seq<Json>, batchId: Option<Text>, verifies: Verifier,
                                          hub: Hub)
    requires Inv(history, verifies) && |receipts| > 0
    requires Fault(receipts, |receipts|, history.hub.log, verifies) == None
    requires hub == Commit(history.hub, receipts, batchId, TreeLeaves(history.hub) + LeavesOf(receipts))
    ensures Inv(History(hub, history.entries + receipts), verifies)
  {
    hide *;
    var all := history.entries + receipts;
    InvParts(history, verifies);
    BatchExtends(history.entries, receipts, history.hub.log, verifies);
    CommittedLog(history, receipts, batchId, verifies, hub, all);
    ReplicaUnder(all, history.hub.log, hub.log, verifies);
    NewRowsHold(history.hub.rows, history.entries, receipts);
    BatchesStay(history.hub.batches, history.entries, receipts);
    CommittedBatches(history.hub, receipts, batchId, hub, all);
    CheckpointsStay(history.hub.checkpoints, history.hub.signing, history.entries, receipts);
    RowHashes(hub.rows, all);
    InvFrom(History(hub, all), verifies);
  }

  lemma {:induction false} InvParts(history: History, verifies: Verifier)
    requires Inv(history, verifies)
    ensures Replica(history.entries, history.hub.log, verifies) && RowsHold(history.hub.rows, history.entries)
    ensures LogHolds(history.hub.log, history.entries) && BatchesHold(history.hub.batches, history.entries)
    ensures CheckpointsHold(history.hub.checkpoints, history.entries) && SigningHolds(history.hub.signing, history.entries)
    ensures CacheHolds(history.hub)
  {
    hide Replica, RowsHold, LogHolds, BatchesHold, CheckpointsHold, SigningHolds, CacheHolds;
  }

  lemma {:induction false} InvFrom(history: History, verifies: Verifier)
    requires Replica(history.entries, history.hub.log, verifies) && RowsHold(history.hub.rows, history.entries)
    requires LogHolds(history.hub.log, history.entries) && BatchesHold(history.hub.batches, history.entries)
    requires CheckpointsHold(history.hub.checkpoints, history.entries) && SigningHolds(history.hub.signing, history.entries)
    requires history.hub.cached.Some? ==> history.hub.cached.value == HashesOf(history.hub.rows)
    ensures Inv(history, verifies)
  {
    hide Replica, RowsHold, LogHolds, BatchesHold, CheckpointsHold, SigningHolds;
  }

  /** The tree a call works on is the tree of the stored rows. */
  lemma {:induction false} TreeIsRows(history: History, verifies: Verifier)
    requires Inv(history, verifies)
    ensures TreeLeaves(history.hub) == HashesOf(history.hub.rows) == LeavesOf(history.entries)
  {
    hide Replica, LogHolds, BatchesHold, CheckpointsHold, SigningHolds, RowsHold;
    RowHashes(history.hub.rows, history.entries);
  }

  lemma {:induction false} CommittedLog(history: History, receipts: seq<Json>, batchId: Option<Text>, verifies: Verifier,
                                        hub: Hub, all: seq<Json>)
    requires Inv(history, verifies) && |receipts| > 0 && all == history.entries + receipts
    requires hub == Commit(history.hub, receipts, batchId, TreeLeaves(history.hub) + LeavesOf(receipts))
    ensures SameNames(history.hub.log, hub.log) && LogHolds(hub.log, all)
    ensures hub.rows == history.hub.rows + RowsFor(receipts)
    ensures hub.checkpoints == history.hub.checkpoints && hub.signing == history.hub.signing
    ensures hub.cached == Some(LeavesOf(all))
  {
    hide Inv, TreeLeaves, LeavesOf, MerkleRoot, HeadOf, Raw, EntryHash, GenesisPrev, RowsFor, IntactText, Repaired;
    TreeIsRows(history, verifies);
    LeavesAppend(history.entries, receipts);
    HeadAppend(history.entries, receipts);
    SizeIs(history, verifies);
  }

  lemma {:induction false} SizeIs(history: History, verifies: Verifier)
    requires Inv(history, verifies)
    ensures history.hub.log.size == |history.entries| && IntactText(history.hub.log.kid)
  {
    hide Replica, RowsHold, BatchesHold, CheckpointsHold, SigningHolds, CacheHolds, MerkleRoot, HeadOf, Raw;
  }

  lemma {:induction false} CommittedBatches(before: Hub, receipts: seq<Json>, batchId: Option<Text>, hub: Hub, all: seq<Json>)
    requires |receipts| > 0 && |all| > 0 && LogHolds(hub.log, all)
    requires BatchesHold(before.batches, all)
    requires exists tree :: hub == Commit(before, receipts, batchId, tree)
    ensures BatchesHold(hub.batches, all)
  {
    hide LogHolds, TruePrefix, RowsFor, Raw, EntryHash, MerkleRoot;
    WholePrefix(hub.log, all);
  }

  lemma {:induction false} IngestKeepsInv(history: History, event: Event, verifies: Verifier)
    requires event.Ingested? && Inv(history, verifies) && !TakenElsewhere(history.hub, event, verifies)
    ensures Inv(Step(history, event, verifies), verifies)
  {
    hide Inv, Commit, Fault, TreeLeaves, LeavesOf, Committed;
    var hub, receipts := history.hub, event.receipts;
    var loaded := TreeLeaves(hub);
    if hub.log.archived || (event.batchId.Some? && Repaired(event.batchId.value) in hub.batches) || |receipts| == 0 {
      assert history.entries + [] == history.entries;
    } else if Fault(receipts, |receipts|, hub.log, verifies).Some? {
      assert history.entries + [] == history.entries;
      LoadKeepsInv(history, verifies);
    } else {
      CommitKeepsInv(history, receipts, event.batchId, verifies,
                     Commit(hub, receipts, event.batchId, loaded + LeavesOf(receipts)));
    }
  }

  lemma {:induction false} LoadKeepsInv(history: History, verifies: Verifier)
    requires Inv(history, verifies)
    ensures Inv(History(history.hub.(cached := Some(TreeLeaves(history.hub))), history.entries), verifies)
  {
    hide Replica, RowsHold, LogHolds, BatchesHold, CheckpointsHold, SigningHolds;
    RowHashes(history.hub.rows, history.entries);
  }

  /** Exactly when a batch is added: every receipt of it is sound, named, numbered and linked from where the log ends. */
  lemma {:induction false} AddsExactly(hub: Hub, receipts: seq<Json>, batchId: Option<Text>, verifies: Verifier)
    ensures Accepted(hub, receipts, batchId, verifies) == receipts != [] <==>
            && !hub.log.archived && |receipts| > 0
            && (batchId.Some? ==> Repaired(batchId.value) !in hub.batches && Repaired(batchId.value) !in hub.elsewhere)
            && forall i | 0 <= i < |receipts| ::
                 && ReceiptSound(receipts[i], HubKeyring(hub.log), verifies) && Named(receipts[i], hub.log)
                 && Numbered(receipts, i, hub.log.size) && Linked(receipts, i, hub.log.head)
  {
    hide ReceiptSound, Named, Numbered, Linked, Fault, Commit, Committed, LeavesOf, TreeLeaves;
    NoFault(receipts, |receipts|, hub.log, verifies);
    assert forall i | 0 <= i < |receipts| :: FaultAt(receipts, i, hub.log, verifies) == None <==>
      ReceiptSound(receipts[i], HubKeyring(hub.log), verifies) && Named(receipts[i], hub.log)
      && Numbered(receipts, i, hub.log.size) && Linked(receipts, i, hub.log.head);
  }

  /** A call that adds nothing changes no row, whether it is refused or a retry: at most the cached tree is touched. */
  lemma {:induction false} AllOrNothing(hub: Hub, receipts: seq<Json>, batchId: Option<Text>, verifies: Verifier)
    requires Accepted(hub, receipts, batchId, verifies) == []
    ensures Ingest(hub, receipts, batchId, verifies).0.(cached := hub.cached) == hub
  {
    hide Fault, Committed, LeavesOf, TreeLeaves, RowsFor;
  }
}
