/** store.js `Store.bundle`: the hub's own exports of the receipts retention has kept, and exactly when one passes. */
module HubExports {
  import opened Wrappers
  import opened Hashing
  import opened Canonical
  import opened JsonObjects
  import opened Utf8
  import opened JsonBytes
  import opened Merkle
  import opened MerkleProofs
  import opened Receipts
  import opened StoredReceipts
  import opened Checkpoints
  import opened Bundles
  import opened LogRuns
  import opened LogExports
  import H = Hubs
  import R = HubRuns

  predicate HasContent(rows: seq<H.Row>) {
    forall i | 0 <= i < |rows| :: rows[i].body.Some?
  }

  /** The rows an export selects, of those that still have their content. */
  function Kept(rows: seq<H.Row>, keep: H.Row -> bool): (kept: seq<H.Row>)
    ensures HasContent(kept) && |kept| <= |rows|
  {
    if |rows| == 0 then []
    else (if rows[0].body.Some? && keep(rows[0]) then [rows[0]] else []) + Kept(rows[1..], keep)
  }

  function BodiesOf(rows: seq<H.Row>): (bodies: seq<Json>)
    requires HasContent(rows)
    ensures |bodies| == |rows|
  {
    seq(|rows|, i requires 0 <= i < |rows| => rows[i].body.value)
  }

  /** The keyring after the first `n` signatures: the first key of an id stays, and unknown ids are left out. */
  function WithSigners(keyring: Keyring, sigs: seq<Signed>, n: nat, known: Keyring): Keyring
    requires n <= |sigs|
  {
    if n == 0 then keyring
    else
      var before, kid := WithSigners(keyring, sigs, n - 1, known), sigs[n - 1].kid;
      if kid in before || kid !in known then before else before[kid := known[kid]]
  }

  /** The log's key, and the known keys of everyone who signed one of the first `n` checkpoints. */
  function ExportKeyring(log: H.LogRow, checkpoints: seq<Checkpoint>, n: nat, known: Keyring): Keyring
    requires n <= |checkpoints|
  {
    if n == 0 then H.HubKeyring(log)
    else
      var sigs := checkpoints[n - 1].sigs;
      WithSigners(ExportKeyring(log, checkpoints, n - 1, known), sigs, |sigs|, known)
  }

  /** What the hub exports when it lists these checkpoints and knows these keys. */
  predicate HubExportOf(bundle: Bundle, hub: H.Hub, kept: seq<H.Row>, listed: seq<Checkpoint>, known: Keyring)
    requires HasContent(kept)
  {
    var leaves := H.TreeLeaves(hub);
    && bundle.known && bundle.log == hub.log.slug
    && bundle.treeSize == hub.log.size && bundle.root == Raw(MerkleRoot(leaves)) && bundle.head == hub.log.head
    && bundle.keyring == ExportKeyring(hub.log, listed, |listed|, known) && bundle.checkpoints == listed
    && bundle.consistency == ConsistencyFor(leaves, listed)
    && (bundle.partial <==> |kept| != hub.log.size)
    && |bundle.entries| == |kept|
    && forall i | 0 <= i < |kept| :: ProvenRow(bundle.entries[i], kept[i], leaves)
  }

  /** A row's receipt, with its inclusion proof. */
  predicate ProvenRow(entry: Entry, row: H.Row, leaves: seq<Digest>)
    requires row.body.Some?
  {
    0 <= row.index < |leaves| && entry == Entry(row.body.value, RawAll(InclusionPath(leaves, row.index)))
  }

  /** The log as its rows tell it, had nothing been pruned. */
  function LogOfRows(history: H.History, listed: seq<Checkpoint>, known: Keyring): Log {
    Log(history.hub.log.slug, ExportKeyring(history.hub.log, listed, |listed|, known), RepairedItems(history.entries), listed, [])
  }

  // --------------------------------------------------------------- what is kept

  lemma {:induction false} KeptMembers(rows: seq<H.Row>, keep: H.Row -> bool)
    ensures forall row | row in Kept(rows, keep) :: row in rows
    ensures |Kept(rows, keep)| == |rows| <==> forall row | row in rows :: row.body.Some? && keep(row)
    ensures |Kept(rows, keep)| == |rows| ==> Kept(rows, keep) == rows
    decreases |rows|
  {
    if |rows| > 0 {
      KeptMembers(rows[1..], keep);
      assert rows == [rows[0]] + rows[1..];
    }
  }

  /** A row with content holds its entry as it was written and read back, at the entry's number. */
  lemma {:induction false} RowWithContent(history: H.History, verifies: Verifier, row: H.Row) returns (i: nat)
    requires H.Inv(history, verifies) && row in history.hub.rows && row.body.Some?
    ensures i < |history.entries| == |history.hub.rows| && row == history.hub.rows[i] && row.index == i
    ensures row.body.value == RepairedJson(history.entries[i]) && SeqOf(row.body.value) == Some(i)
  {
    hide *;
    H.InvParts(history, verifies);
    i := FindRow(history.hub.rows, row);
    RowOf(history.hub.rows, history.entries, i);
    JoinedAt(history, verifies, i);
    SeqKept(history.entries[i]);
    RowSays(row, history.entries[i], i);
  }

  lemma {:induction false} FindRow(rows: seq<H.Row>, row: H.Row) returns (i: nat)
    requires row in rows
    ensures i < |rows| && rows[i] == row
  {
    i :| 0 <= i < |rows| && rows[i] == row;
  }

  lemma {:induction false} RowOf(rows: seq<H.Row>, entries: seq<Json>, i: nat)
    requires H.RowsHold(rows, entries) && i < |rows|
    ensures |entries| == |rows| && H.RowHolds(rows[i], entries[i])
  {
    hide H.RowHolds;
  }

  lemma {:induction false} JoinedAt(history: H.History, verifies: Verifier, i: nat)
    requires H.Replica(history.entries, history.hub.log, verifies) && i < |history.entries|
    ensures Joined(history.entries, i, H.HubKeyring(history.hub.log), verifies) && SeqOf(history.entries[i]) == Some(i)
  {
    hide ReceiptSound, SeqOf, Linked, H.Named;
    assert H.EntryInChain(history.entries, i, history.hub.log, verifies);
  }

  lemma {:induction false} RowSays(row: H.Row, entry: Json, i: nat)
    requires H.RowHolds(row, entry) && row.body.Some? && SeqOf(entry) == Some(i)
    ensures row.index == i && row.body.value == RepairedJson(entry)
  {
    hide SeqOf, PrevOf, TimeOf, EntryHash, RepairedJson, Repaired;
  }

  lemma {:induction false} KeptIsSelection(history: H.History, verifies: Verifier, keep: H.Row -> bool)
    requires H.Inv(history, verifies)
    ensures Selection(BodiesOf(Kept(history.hub.rows, keep)), RepairedItems(history.entries))
  {
    hide H.Inv, RepairedItems, RepairedJson, Kept;
    var rows, kept := history.hub.rows, Kept(history.hub.rows, keep);
    KeptMembers(rows, keep);
    RowCount(history, verifies);
    forall i | 0 <= i < |kept| ensures BodiesOf(kept)[i] in RepairedItems(history.entries) {
      assert kept[i] in kept;
      var j := RowWithContent(history, verifies, kept[i]);
      RepairedItem(history.entries, j);
    }
    if |kept| == |rows| {
      forall i | 0 <= i < |rows| ensures BodiesOf(kept)[i] == RepairedItems(history.entries)[i] {
        RowAt(history, verifies, i);
        RepairedItem(history.entries, i);
      }
    }
  }

  lemma {:induction false} RowCount(history: H.History, verifies: Verifier)
    requires H.Inv(history, verifies)
    ensures |history.hub.rows| == |history.entries| == history.hub.log.size
  {
    hide H.Inv, H.RowHolds, H.Replica, H.LogHolds, H.BatchesHold, H.CheckpointsHold, H.SigningHolds, H.CacheHolds;
    H.InvParts(history, verifies);
    H.SizeIs(history, verifies);
  }

  lemma {:induction false} RowAt(history: H.History, verifies: Verifier, i: nat)
    requires H.Inv(history, verifies) && i < |history.hub.rows| && history.hub.rows[i].body.Some?
    ensures i < |history.entries| && history.hub.rows[i].body.value == RepairedJson(history.entries[i])
  {
    hide *;
    H.InvParts(history, verifies);
    RowOf(history.hub.rows, history.entries, i);
    JoinedAt(history, verifies, i);
    RowSays(history.hub.rows[i], history.entries[i], i);
  }

  // --------------------------------------------------------------- the stored log

  lemma {:induction false} KeyStays(keyring: Keyring, sigs: seq<Signed>, n: nat, known: Keyring, kid: Text)
    requires n <= |sigs| && kid in keyring
    ensures kid in WithSigners(keyring, sigs, n, known) && WithSigners(keyring, sigs, n, known)[kid] == keyring[kid]
    decreases n
  {
    if n > 0 {
      KeyStays(keyring, sigs, n - 1, known, kid);
    }
  }

  lemma {:induction false} LogKeyStays(log: H.LogRow, checkpoints: seq<Checkpoint>, n: nat, known: Keyring)
    requires n <= |checkpoints|
    ensures var keyring := ExportKeyring(log, checkpoints, n, known); log.kid in keyring && keyring[log.kid] == log.publicKey
    decreases n
  {
    hide WithSigners;
    if n > 0 {
      LogKeyStays(log, checkpoints, n - 1, known);
      KeyStays(ExportKeyring(log, checkpoints, n - 1, known), checkpoints[n - 1].sigs, |checkpoints[n - 1].sigs|, known, log.kid);
    }
  }

  lemma {:induction false} SoundUnderMore(receipt: Json, log: H.LogRow, keyring: Keyring, verifies: Verifier)
    requires ReceiptSound(receipt, H.HubKeyring(log), verifies)
    requires log.kid in keyring && keyring[log.kid] == log.publicKey
    ensures ReceiptSound(receipt, keyring, verifies)
  {
    hide WellFormed, Attested, SignatureHolds, GetIn;
  }

  /** What the rows tell, read back, is sound, numbered and linked. */
  lemma {:induction false} StoredJoined(history: H.History, verifies: Verifier, listed: seq<Checkpoint>, known: Keyring)
    requires H.Inv(history, verifies)
    ensures AllJoined(LogOfRows(history, listed, known).entries, LogOfRows(history, listed, known).keyring, verifies)
  {
    hide H.Inv, ExportKeyring, RepairedItems, H.Replica, IntactKeys, IntactText, H.HubKeyring;
    H.InvParts(history, verifies);
    H.SizeIs(history, verifies);
    var log, entries := history.hub.log, history.entries;
    var keyring, stored := ExportKeyring(log, listed, |listed|, known), RepairedItems(entries);
    R.OneKey(log);
    LogKeyStays(log, listed, |listed|, known);
    forall i | 0 <= i < |stored| ensures Joined(stored, i, keyring, verifies) {
      JoinedAt(history, verifies, i);
      JoinedKept(entries, i, H.HubKeyring(log), verifies);
      JoinedUnderMore(stored, i, log, keyring, verifies);
    }
  }

  lemma {:induction false} JoinedUnderMore(receipts: seq<Json>, i: nat, log: H.LogRow, keyring: Keyring, verifies: Verifier)
    requires i < |receipts| && Joined(receipts, i, H.HubKeyring(log), verifies)
    requires log.kid in keyring && keyring[log.kid] == log.publicKey
    ensures Joined(receipts, i, keyring, verifies)
  {
    hide ReceiptSound, Numbered, Linked, H.HubKeyring, GenesisPrev;
    SoundUnderMore(receipts[i], log, keyring, verifies);
  }

  lemma {:induction false} StoredExportable(history: H.History, verifies: Verifier, listed: seq<Checkpoint>, known: Keyring)
    requires H.Inv(history, verifies) && forall checkpoint | checkpoint in listed :: checkpoint in history.hub.checkpoints
    ensures Exportable(LogOfRows(history, listed, known), verifies)
  {
    hide H.Inv, ExportKeyring, RepairedItems, AllJoined, NamesPrefix, LeavesOf, H.BodyTrue;
    StoredJoined(history, verifies, listed, known);
    LeavesKept(history.entries);
    H.InvParts(history, verifies);
    forall i | 0 <= i < |listed| ensures NamesPrefix(listed[i].body, LeavesOf(RepairedItems(history.entries))) {
      assert listed[i] in history.hub.checkpoints;
      TrueNamesPrefix(listed[i].body, history.entries);
    }
  }

  lemma {:induction false} TrueNamesPrefix(body: Json, entries: seq<Json>)
    requires H.BodyTrue(body, entries)
    ensures NamesPrefix(body, LeavesOf(entries))
  {
    hide Get, LeavesOf, MerkleRoot, Raw, HeadOf, SizeOf;
  }

  lemma {:induction false} HubExportIsExport(bundle: Bundle, history: H.History, verifies: Verifier, keep: H.Row -> bool,
                                             listed: seq<Checkpoint>, known: Keyring)
    requires H.Inv(history, verifies)
    requires HubExportOf(bundle, history.hub, Kept(history.hub.rows, keep), listed, known)
    ensures ExportOf(bundle, LogOfRows(history, listed, known), BodiesOf(Kept(history.hub.rows, keep)))
  {
    hide H.Inv, H.TreeLeaves, Kept, ExportKeyring, RepairedItems, LeavesOf, HeadOf, MerkleRoot, ConsistencyFor, InclusionPath,
      SeqOf, GenesisPrev;
    var kept := Kept(history.hub.rows, keep);
    KeptMembers(history.hub.rows, keep);
    RowCount(history, verifies);
    TreeAndHead(history, verifies);
    LeavesKept(history.entries);
    forall i | 0 <= i < |kept|
      ensures Exported(BodiesOf(kept)[i], LeavesOf(RepairedItems(history.entries))) == Ok(bundle.entries[i])
    {
      assert kept[i] in kept && ProvenRow(bundle.entries[i], kept[i], H.TreeLeaves(history.hub));
      var j := RowWithContent(history, verifies, kept[i]);
    }
  }

  lemma {:induction false} TreeAndHead(history: H.History, verifies: Verifier)
    requires H.Inv(history, verifies)
    ensures H.TreeLeaves(history.hub) == LeavesOf(history.entries)
    ensures history.hub.log.head == HeadOf(history.entries, GenesisPrev())
  {
    hide H.Inv, H.TreeLeaves, H.HashesOf, LeavesOf, HeadOf, MerkleRoot, GenesisPrev;
    H.InvParts(history, verifies);
    H.TreeIsRows(history, verifies);
  }

  // ------------------------------------------------------------------- verdicts

  /**
   * An export of a hub log passes as far as the log is concerned if it is partial, or if the times of its receipts do
   * not step back, which the hub never checks; it is complete exactly when retention has pruned nothing and the
   * selection leaves nothing out. The rest is left to the root and the witnesses the verifier asks for and to the
   * signatures on the checkpoints listed.
   */
  lemma {:induction false} HubExportVerdict(bundle: Bundle, history: H.History, verifies: Verifier, keep: H.Row -> bool,
                                            listed: seq<Checkpoint>, known: Keyring, options: Options)
    requires H.Inv(history, verifies) && forall checkpoint | checkpoint in listed :: checkpoint in history.hub.checkpoints
    requires HubExportOf(bundle, history.hub, Kept(history.hub.rows, keep), listed, known)
    ensures bundle.partial <==> exists row | row in history.hub.rows :: row.body.None? || !keep(row)
    ensures BundleOk(bundle, options, verifies) <==>
            && OptionsOk(bundle, options)
            && CheckpointsOk(bundle, options, verifies)
            && (options.minWitnesses > 0 ==> |listed| > 0)
            && (bundle.partial || AllInTime(RepairedItems(history.entries)))
  {
    hide *;
    StoredExportable(history, verifies, listed, known);
    HubExportIsExport(bundle, history, verifies, keep, listed, known);
    KeptIsSelection(history, verifies, keep);
    var log := LogOfRows(history, listed, known);
    LogOfRowsIs(history, listed, known);
    ExportVerdict(bundle, log, verifies, BodiesOf(Kept(history.hub.rows, keep)), options);
    KeptMembers(history.hub.rows, keep);
    RowCount(history, verifies);
    PartialIs(bundle, history.hub, Kept(history.hub.rows, keep), listed, known);
  }

  lemma {:induction false} LogOfRowsIs(history: H.History, listed: seq<Checkpoint>, known: Keyring)
    ensures LogOfRows(history, listed, known).entries == RepairedItems(history.entries)
    ensures LogOfRows(history, listed, known).checkpoints == listed
  {
    hide RepairedItems, ExportKeyring;
  }

  lemma {:induction false} PartialIs(bundle: Bundle, hub: H.Hub, kept: seq<H.Row>, listed: seq<Checkpoint>, known: Keyring)
    requires HasContent(kept) && HubExportOf(bundle, hub, kept, listed, known)
    ensures bundle.partial <==> |kept| != hub.log.size
  {
    hide ProvenRow, ExportKeyring, ConsistencyFor, MerkleRoot, H.TreeLeaves;
  }

  /** After every run of committed steps every export is there to be made. */
  lemma {:induction false} HubExportsExist(history: H.History, verifies: Verifier, keep: H.Row -> bool)
    requires H.Inv(history, verifies)
    ensures forall row | row in Kept(history.hub.rows, keep) :: 0 <= row.index < |H.TreeLeaves(history.hub)|
  {
    hide H.Inv, H.TreeLeaves, Kept, LeavesOf, HeadOf, GenesisPrev;
    KeptMembers(history.hub.rows, keep);
    TreeAndHead(history, verifies);
    forall row | row in Kept(history.hub.rows, keep) ensures 0 <= row.index < |H.TreeLeaves(history.hub)| {
      var i :| 0 <= i < |Kept(history.hub.rows, keep)| && Kept(history.hub.rows, keep)[i] == row;
      var j := RowWithContent(history, verifies, row);
    }
  }

  /** The same over runs: with no witnesses demanded and the signatures on its checkpoints good, a partial export passes. */
  lemma {:induction false} RunsExport(row: H.LogRow, events: seq<H.Event>, verifies: Verifier, keep: H.Row -> bool,
                                      listed: seq<Checkpoint>, known: Keyring, bundle: Bundle)
    requires H.CommittedRun(row, events, verifies)
    requires forall checkpoint | checkpoint in listed :: checkpoint in H.Run(row, events, verifies).hub.checkpoints
    requires HubExportOf(bundle, H.Run(row, events, verifies).hub, Kept(H.Run(row, events, verifies).hub.rows, keep), listed,
                         known)
    requires CheckpointsOk(bundle, Options(None, 0, None), verifies)
    ensures BundleOk(bundle, Options(None, 0, None), verifies) <==>
            bundle.partial || AllInTime(RepairedItems(H.Run(row, events, verifies).entries))
  {
    hide *;
    R.RunKeepsInv(row, events, verifies);
    HubExportVerdict(bundle, H.Run(row, events, verifies), verifies, keep, listed, known, Options(None, 0, None));
    KnownBundle(bundle, H.Run(row, events, verifies).hub, Kept(H.Run(row, events, verifies).hub.rows, keep), listed, known);
  }

  lemma {:induction false} KnownBundle(bundle: Bundle, hub: H.Hub, kept: seq<H.Row>, listed: seq<Checkpoint>, known: Keyring)
    requires HasContent(kept) && HubExportOf(bundle, hub, kept, listed, known)
    ensures OptionsOk(bundle, Options(None, 0, None))
  {
    hide ProvenRow, ExportKeyring, ConsistencyFor, MerkleRoot, H.TreeLeaves;
  }
}
