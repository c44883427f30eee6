# Proofwire: a verified model

Proofwire records what an agent did in a tamper-evident log: receipts that are
signed and hash-chained, an RFC 6962 Merkle tree over them, checkpoints that
witnesses co-sign, evidence bundles that a third party checks alone, a hub that
holds a replica, and a policy engine that reads its budgets back out of the log.
This project models those parts in Dafny and proves what the system promises of
them, over every input and every run.

Check it with `dafny verify dfyconfig.toml`.

## The main results

- **No split view** (`NoSplitView.NoSplitView`). Two bundles, complete or
  filtered, pass with at least one witness demanded of one pinned, honest
  witness. Then both carry the same receipt at every sequence number they share
  below both witnessed sizes. It joins the bundle verifier, the witness and the
  Merkle proofs, and holds over every interleaving of cosigning requests, late
  or failed signatures and operator rebinds, as long as the requests the witness
  accepted were orderly, which those with a number up to 2^32 as their size always
  are (`Witnesses.NumbersAreOrderly`). For sizes within that bound the claims of a
  run are one history exactly under that condition (`Witnesses.OneHistoryExactly`).
- **The proof verifiers are exact.** `VerifyInclusion` accepts exactly the leaf
  and the PATH of the index (`MerkleProofs.InclusionExact`), and
  `VerifyConsistency` accepts every generated proof and nothing that is not a
  prefix, whatever the proof holds (`ConsistencySound`, `ConsistencyComplete`).
  The recursive tree, the stack of subtrees and the level table are one tree.
- **A complete bundle is one history** (`Bundles.HeadDeterminesHistory`,
  `Bundles.RootDeterminesHistory`), and a passing filtered bundle is anchored to
  the witnesses the verifier chose (`Bundles.WitnessAnchoring`).
- **Honest runs always verify** (`LogExports.HonestRunsVerify`): for every filter
  there is an export and it passes, and with witnesses demanded exactly when the checkpoints carry them
  (`LogExports.HonestExport`). So does a log that is opened again from its file
  (`LogExports.ReopenedIsHonest`).
- **The hub is an append-only replica** over every run of committed steps
  (`HubRuns.RunKeepsInv`, `HubRuns.RunsPassAudit`), with the one step that breaks
  its cached tree characterised exactly (`HubRuns.CacheBreaksExactly`), its own
  exports pass whatever retention has pruned (`HubExports.HubExportVerdict`), and
  **pushing is exactly-once** (`PushRuns.ExactlyOnce`).
- **Canonical JSON reads back** (`Canonicalizer.CanonicalTextIsMeaning`), is
  independent of key order (`Canonicalizer.KeyOrderIrrelevant`) and lays numbers
  out exactly (`Numbers.EsNumberIsExact`).
- **Caps hold over whole runs** (`Caps.BudgetHolds`, `Caps.RateLimitHolds`), and
  **replay is faithful** (`Replays.RunReplaysExactly`), each with the exact
  condition on what people approve and when.

Eight statements are false of the code as one might first put them. Each is kept,
with the input that breaks it and the condition under which it holds:

- `splitPoint` ends, and is right, exactly for sizes up to 2^30, and both
  verifiers are the unbounded algorithms exactly for sizes up to 2^32
  (`JsShifts.SplitPointTerminates`, `JsShifts.VerifierExact`,
  `JsShifts.ConsistencyVerifierExact`). That is also where they stop being sound:
  in every list of more than 2^32 leaf hashes a node above the first leaf is
  accepted for that leaf, and as the root at size 1
  (`JsConsistency.UnsoundPastTheBound`, `JsConsistency.ConsistencySoundExactly`,
  `JsConsistency.InclusionSoundExactly`).
- A consistency check from size 0 says nothing about the first root
  (`MerkleProofs.ConsistencyFromEmpty`), so a log's audit does not look at the
  root of a size 0 checkpoint once the log has entries
  (`MerkleProofs.ConsistencyExact`).
- The cosign handler never checks the type or the range of an offered size. The text of the
  recorded size passes every comparison and brings any root with it, so a witness
  can sign two roots at one size (`Witnesses.TwoRootsAtOneSize`); after a text
  that is no number every size is accepted, smaller ones too
  (`Positions.UnreadableSizeForgets`); past 2^32 its verifier accepts growth from
  a root of size 1 that is no first leaf (`Witnesses.TwoHistoriesPastTheBound`).
  An accepted request extends the recorded position where it is orderly: both
  sizes are numbers and growth ends at 2^32 at most, or the row would not change.
  Within the bound nothing else does (`Positions.AllowedExtendsExactly`), and no
  larger bound would do (`Positions.GrowthSoundExactly`).
- Canonical bytes do not tell an unpaired surrogate from U+FFFD
  (`JsonBytes.LoneSurrogateMerges`). Two values have the same bytes, and so the
  same hashes, exactly when they are equal with unpaired surrogates replaced
  (`JsonBytes.SameBytesExactly`), and the uniqueness results say so.
- The hub's cached tree follows its rows exactly when no faultless batch comes
  under an id that, stored as UTF-8, only another log has used; after such a call the next accepted
  batch writes a wrong root, which the audit reports
  (`HubRuns.BrokenCacheFailsAudit`).
- The hub does not check that times do not step back, and the bundle verifier
  does: a complete export of a hub log passes exactly when they do not, as far as
  the log is concerned, and a partial one always does
  (`HubExports.HubExportVerdict`).
- A call that a rule escalates and a person approves is never checked against the
  budgets (`Caps.ApprovalSkipsBudgets`). A cap holds exactly when each approved
  call had room in the window that ends when it is recorded (`Caps.BudgetHolds`).
- A log in which an escalation is answered late can replay with a changed verdict
  (`Replays.DelayedAnswerChanges`); none changes exactly when every call would
  have been judged alike when it was recorded (`Replays.RunReplaysExactly`).

## How it is modelled

- **Hashes.** `Hashing` has an ideal hash: a digest is known by its preimage, so
  equal digests have equal preimages. Byte strings are sequences of symbols, each
  a code unit or one of a digest's 32 bytes, so lengths and concatenation are
  real: a node hash of two byte strings does not tell where the first one ends
  (`Hashing.NodeHashAmbiguous`), and the 32-byte checks in the verifiers are what
  the proofs rest on.
- **Signatures.** Every verifier takes a function from key, message and signature
  to true or false. Nothing is assumed of it except, where a lemma says so, that
  it accepts what an honest signer signs, and in `NoSplitView` that what it
  accepts under the witness's key the witness signed.
- **Coercions.** What JavaScript and SQLite make of a text where they want a
  number, and of a number where they want a text, is a parameter of the witness
  (`Positions.Coercions`). One law is asked of it: a text that the INTEGER column
  turns into a number is that number to JavaScript (`Positions.Coherent`).
- **JSON.** Receipts and checkpoint bodies are JSON values as they were parsed,
  read by field name. Fields that no code reads are hashed and signed with the
  rest, so the uniqueness results cover them.
- **Hex** is the identity: a root in a body is the 32 bytes it stands for.
- **Sizes** are unbounded, as in merkle.py, except in the witness, which has the
  32-bit shifts of merkle.js; `JsShifts` and `JsConsistency` say up to which sizes
  the two are the same algorithms, and `BundleShifts` that a bundle of at most
  2^32 entries is checked alike by both.
- **Columns and files** are UTF-8: a text, a batch id or a receipt that is written
  comes back with unpaired surrogates replaced (`StoredReceipts`).
- **State.** `MerkleTree`, `ProofLog`, `Store`, `WitnessService`, `RemoteSink` and
  `McpProxy` are classes whose methods are proved against steps on values; what
  every run keeps is proved about those steps. Files are sequences of lines,
  tables are sequences or maps, a transaction is one step.
- **Policy.** A match clause, a `per` scope and a budget's field are functions of
  the evaluation context; metrics are real numbers.

| file | what it covers |
|---|---|
| `Hashing`, `Merkle`, `MerkleTree`, `MerkleProofs`, `MerkleUnique`, `JsShifts`, `JsConsistency` | the tree, its three representations, both verifiers, what a root determines |
| `Numbers`, `Canonical`, `JsonObjects`, `Canonicalize` | canonical JSON, its reader, and the encoder on JavaScript values |
| `Utf8`, `JsonBytes` | canonical bytes: what the UTF-8 of a text and of a value determines |
| `Receipt`, `ReceiptBuilding`, `StoredReceipt`, `Checkpoint`, `CheckpointBuilding` | receipts, chains, checkpoints and their witnesses |
| `Bundle`, `BundleVerify`, `BundleShifts` | evidence bundles: what a verdict means, and the verifier |
| `LogRuns`, `LogExports`, `LogFile`, `ProofLog` | the local log: runs, audits, exports, files |
| `Positions`, `Witness`, `WitnessService`, `NoSplitView` | the cosigning protocol and the end-to-end theorem |
| `Hub`, `HubRuns`, `HubExports`, `HubStore`, `RemoteSink`, `Push`, `PushRuns` | the replica and the push protocol |
| `Policy`, `Proxy`, `Caps`, `Replay` | decisions, enforcement runs, caps, replay |

## Model

| member | source | states |
|---|---|---|
| Hashing.RawInjective | packages/core/src/hash.js:26-30 | Equal digest bytes are equal digests. |
| Hashing.LeafHashInjective | packages/core/src/merkle.js:23-25 | A leaf hash determines the leaf's bytes. |
| Hashing.NodeHashInjective | packages/core/src/merkle.js:32-34 | A node hash determines both parts once the length of either is known. |
| Hashing.NodeHashAmbiguous | packages/core/src/merkle.js:32-34 | Without a known length it does not: bytes can move between the parts. |
| Hashing.TagsSeparate | packages/core/src/hash.js:7-20 | Leaf, node and empty hashes never coincide. |
| Merkle.SplitPoint | packages/core/src/merkle.js:42-46 | The split is below n and at least half of it; with SplitPointIs, the largest power of two below n. |
| Merkle.SplitPointIs | packages/core/src/merkle.js:37-46 | Any power of two k with k < n <= 2k is the split point. |
| Merkle.SplitPointEven | packages/core/src/merkle.js:97-98 | Splitting commutes with pairing: the split point of n is twice that of n paired up. |
| Merkle.PairUpKeepsRoot | packages/core/src/merkle.js:97-117 | Pairing adjacent nodes and promoting the odd one keeps the recursive root. |
| Merkle.RangePathAbove | packages/core/src/merkle.js:188-232 | The recursive PATH of a range is the sibling followed by the PATH in the level above. |
| Merkle.LevelPathIsInclusionPath | packages/core/src/merkle.js:188-232 | The level-table proof is the recursive RFC 6962 PATH, for every index and size. |
| Merkle.SubProofAbove | packages/core/src/merkle.js:299-307 | SUBPROOF of whole pairs is SUBPROOF one level up. |
| Merkle.SubProofIsPath | packages/core/src/merkle.js:299-307 | SUBPROOF from an odd size is the old tree's last node, unless it is the old root, and its PATH. |
| MerkleProofs.ClimbSound | packages/core/src/merkle.js:253-272 | A climb that reaches the root of a level started at the true node and used the true path. |
| MerkleProofs.ClimbComplete | packages/core/src/merkle.js:253-272 | Along the true path the climb reaches the root. |
| MerkleProofs.ClimbOldComplete | packages/core/src/merkle.js:354-374 | The same climb, skipping right siblings, reaches the root of the older tree that ends at the node. |
| MerkleProofs.InclusionExact | packages/core/src/merkle.js:246-273 | Against the root of a list, acceptance holds exactly for the leaf at the index with the unique PATH. |
| MerkleProofs.VerifyInclusion | packages/core/src/merkle.js:246-273 | The loop accepts exactly when the climb by levels reaches the root. |
| MerkleProofs.ExtensionSound | packages/core/src/merkle.js:335-374 | After the shared levels are stripped, an accepted first root is the root of the prefix. |
| MerkleProofs.ExtensionComplete | packages/core/src/merkle.js:335-374 | After the shared levels are stripped, the generated SUBPROOF is accepted. |
| MerkleProofs.ConsistencySound | packages/core/src/merkle.js:323-375 | If the second root is that of a list, an accepted first root of size m > 0 is the root of its first m leaves, whatever the proof holds. |
| MerkleProofs.ConsistencyComplete | packages/core/src/merkle.js:283-375 | Every generated proof is accepted, for every m from 0 to n. |
| MerkleProofs.ConsistencyFromEmpty | packages/core/src/merkle.js:327-331 | From size 0 an empty proof is accepted with any first root of a longer log. |
| MerkleProofs.ConsistencyExact | packages/core/src/merkle.js:323-375 | With the tree's own proof, acceptance holds exactly when the first root is the prefix's, or the size is 0 below n. |
| MerkleProofs.VerifyConsistency | packages/core/src/merkle.js:323-375 | The loop accepts exactly when both climbs reach the two roots. |
| MerkleTrees.TailIsSmaller | packages/core/src/merkle.js:132-156 | In the stack, what follows a subtree is smaller than the subtree. |
| MerkleTrees.FoldStep | packages/core/src/merkle.js:149-156 | Each step of the right-to-left fold is a split of the recursive tree. |
| MerkleTrees.PushStartsMerging | packages/core/src/merkle.js:132-136 | Pushing a leaf leaves at most the last two subtrees of equal size. |
| MerkleTrees.MergeKeepsMerging | packages/core/src/merkle.js:136-144 | Merging the last two keeps complete, decreasing subtrees with the roots of their slices. |
| MerkleTrees.MerkleTree.constructor | packages/core/src/merkle.js:72-85 | A tree of the given leaves, in order. |
| MerkleTrees.MerkleTree.Append | packages/core/src/merkle.js:132-146 | The merge loop ends, and the stack again covers the leaves by strictly decreasing powers of two. |
| MerkleTrees.MerkleTree.Root | packages/core/src/merkle.js:149-156 | The fold of the stack is the recursive root. |
| MerkleTrees.MerkleTree.RootAt | packages/core/src/merkle.js:165-170 | The root of the first `size` leaves, or a range error outside 0 to n. |
| MerkleTrees.MerkleTree.BuildLevels | packages/core/src/merkle.js:103-121 | The loops build the level table of the current leaves. |
| MerkleTrees.MerkleTree.InclusionProof | packages/core/src/merkle.js:177-202 | The walk up the table gives the recursive PATH, a range error for a bad index. |
| MerkleTrees.MerkleTree.ConsistencyProof | packages/core/src/merkle.js:209-211 | PROOF between the sizes, a range error for a bad one. |
| MerkleUnique.RootDeterminesLeaves | packages/core/src/merkle.js:54-59 | Lists of one length with one root are equal. |
| MerkleUnique.TaggedRootDeterminesLeaves | packages/core/src/hash.js:7-20 | For leaf hashes the domain tags make the root determine the size as well. |
| JsShifts.SplitPointTerminates | packages/core/src/merkle.js:42-46 | With 32-bit shifts the loop ends exactly for sizes up to 2^30, at the split point. |
| JsShifts.JsSplitPoint | packages/core/src/merkle.js:42-46 | The loop itself, for those sizes. |
| JsShifts.WalkIsClimb | packages/core/src/merkle.js:250-272 | With sizes up to 2^32 the shifting loop is the climb by levels. |
| JsShifts.WalkTooShort | packages/core/src/merkle.js:250-272 | Past 2^32 it accepts a proof that is too short for the size. |
| JsShifts.VerifierExact | packages/core/src/merkle.js:246-273 | The shifting loop agrees with the unbounded one on all inputs exactly for sizes up to 2^32. |
| JsShifts.WalkBothIsClimbs | packages/core/src/merkle.js:354-371 | With sizes up to 2^32 the shifting consistency loop computes both climbs, the one to the old root and the one to the new root. |
| JsShifts.ConsistencyVerifierExact | packages/core/src/merkle.js:323-375 | The shifting consistency verifier agrees with the unbounded one for every first size, pair of roots and proof exactly for second sizes up to 2^32. |
| JsConsistency.ShiftsAgree | packages/core/src/merkle.js:323-375 | For second sizes up to 2^32 the whole verifier, its early answers included, is the unbounded one. |
| JsConsistency.JsVerifyConsistency | packages/core/src/merkle.js:323-375 | The verifier with its 32-bit shifts, loop by loop. |
| JsConsistency.NodeForLeaf | packages/core/src/merkle.js:246-273 | In a tree of more than 2^32 leaves a node above the first leaf, with its own path, reaches the root as the first leaf. |
| JsConsistency.UnsoundPastTheBound | packages/core/src/merkle.js:246-375 | Every list of more than 2^32 leaf hashes has a false leaf, and a false root at size 1, that the verifiers accept. |
| JsConsistency.ConsistencySoundExactly | packages/core/src/merkle.js:323-375 | Every accepted first root of a positive size below n is the prefix's, for every list of n leaves, exactly for n up to 2^32. |
| JsConsistency.InclusionSoundExactly | packages/core/src/merkle.js:246-273 | Every accepted leaf is the one at its index, for every list of n leaves, exactly for n up to 2^32. |
| Numbers.LayoutDenotes | sdk/python/src/proof_wire/canonical.py:55-79 | Each of the four layouts denotes the digits and exponent laid out. |
| Numbers.LayoutKeepsValue | sdk/python/src/proof_wire/canonical.py:55-79 | As a real number, the layout is worth digits times ten to the exponent. |
| Numbers.EsNumberIsExact | sdk/python/src/proof_wire/canonical.py:55-79 | The printed number reads back as exactly the sign, digits and exponent given, zeros stripped. |
| Numbers.EsNumberInjective | sdk/python/src/proof_wire/canonical.py:55-79 | Different numbers print differently. |
| Numbers.NumberReadsBack | packages/core/src/canonical.js:45-51 | The text of a number, in any JSON context, reads back as that number. |
| Numbers.SafeIntegersPrintAsDigits | sdk/python/src/proof_wire/canonical.py:82-102 | `str(n)` and the layout agree on every safe integer. |
| Numbers.FromIntInjective | packages/core/src/canonical.js:45-51 | Different integers are different numbers. |
| Numbers.AsIntFromInt | packages/core/src/canonical.js:45-51 | An integer written as a number is read as that integer. |
| Canonical.TailReadsBack | packages/core/src/canonical.js:26-36 | The escaped characters of a string read back as the string. |
| Canonical.ValueReadsBack | packages/core/src/canonical.js:63-99 | The text of a value, whatever follows it, reads back as the value. |
| Canonical.TextReadsBack | packages/core/src/canonical.js:63-99 | The whole canonical text reads back. |
| Canonical.TextInjective | packages/core/src/canonical.js:63-99 | Values with equal canonical text are equal. |
| JsonObjects.KeyLessTotal | packages/core/src/canonical.js:88-91 | The key order is total and antisymmetric. |
| JsonObjects.WithoutInsert | packages/core/src/receipt.js:233-261 | Removing an inserted field gives the object back. |
| JsonObjects.ObjectLookup | packages/core/src/canonical.js:88-98 | An object written as a literal has each property's value under its name and no other field. |
| JsonObjects.ObjectOrdered | packages/core/src/canonical.js:88-98 | Its fields are in key order, as canonical text lists them. |
| Canonicalizer.EncodeString | packages/core/src/canonical.js:26-36 | The loop writes the escaped string. |
| Canonicalizer.EncodeNumber | packages/core/src/canonical.js:45-51 | -0 is written as 0 and a non-finite number throws. |
| Canonicalizer.Canonicalize | packages/core/src/canonical.js:63-99 | Throws exactly where the value denotes nothing, else writes the text of what it denotes. |
| Canonicalizer.CanonicalizeArray | packages/core/src/canonical.js:81-84 | `undefined` items are written as null; one item that throws makes the array throw. |
| Canonicalizer.CanonicalizeItem | packages/core/src/canonical.js:82 | An `undefined` item is null. |
| Canonicalizer.CanonicalizeObject | packages/core/src/canonical.js:88-98 | Sorted keys, `undefined` properties dropped. |
| Canonicalizer.CanonicalizeProp | packages/core/src/canonical.js:93-97 | One property: its quoted name, a colon and its value's text. |
| Canonicalizer.DenoteSorted | packages/core/src/canonical.js:91-97 | Sorting properties before denoting them is sorting what they denote. |
| Canonicalizer.ObjectFields | packages/core/src/canonical.js:88-98 | The denoted object has, under each name, exactly the property's value, and nothing where it is `undefined`. |
| Canonicalizer.KeyOrderIrrelevant | packages/core/src/canonical.js:1-9 | The same properties in any order canonicalize alike, throwing included. |
| Canonicalizer.CanonicalTextIsMeaning | packages/core/src/canonical.js:63-99 | Two values canonicalize alike exactly when they denote one JSON value, and a reader gets it back. |
| Canonicalizer.SortKeyKeepsOrder | sdk/python/src/proof_wire/canonical.py:105-108 | Big-endian bytes sort as UTF-16 code units do. |
| Utf8.EncodedInjective | packages/core/src/canonical.js:107-109 | Texts without unpaired surrogates that have the same UTF-8 bytes are the same. |
| Utf8.BytesExactly | packages/core/src/canonical.js:107-109 | Texts have the same bytes exactly when they are the same with unpaired surrogates replaced. |
| JsonBytes.TextRepaired | packages/core/src/canonical.js:63-99 | Replacing unpaired surrogates in the text of a value gives the text of the value with them replaced. |
| JsonBytes.SameBytesExactly | packages/core/src/canonical.js:107-109 | Values have the same canonical bytes exactly when they are the same with unpaired surrogates replaced. |
| JsonBytes.IntactBytesInjective | packages/core/src/canonical.js:107-109 | Where no text in them has one, the bytes determine the value. |
| JsonBytes.LoneSurrogateMerges | packages/core/src/canonical.js:107-109 | An unpaired surrogate and U+FFFD have the same bytes. |
| Receipts.EntryHashExactly | packages/core/src/receipt.js:247-249 | An entry's hash determines every field of it, unpaired surrogates aside. |
| Receipts.ReceiptDigestExactly | packages/core/src/receipt.js:233-236 | The signed digest determines everything but the attestation, unpaired surrogates aside. |
| Receipts.VerifyReceipt | packages/core/src/receipt.js:279-325 | No issue exactly when the receipt is sound; each kind of issue for its own reason only. |
| Receipts.VerifyChain | packages/core/src/receipt.js:342-380 | No issue exactly when each receipt is sound and the next of the chain; a broken link is always reported as one. |
| Receipts.HeadDeterminesChain | packages/core/src/receipt.js:342-380 | Two sound runs from one start with one head are the same run, unpaired surrogates aside. |
| StoredReceipts.SoundKept | packages/core/src/receipt.js:281-326 | A sound receipt is sound when it is read back from UTF-8, under a keyring whose ids hold no unpaired surrogate. |
| StoredReceipts.DigestKept | packages/core/src/receipt.js:233-236 | What its signature covers keeps its bytes. |
| StoredReceipts.StoredChain | packages/core/src/log.js:148-157 | Read back, the receipts of a chain are sound, numbered and linked; it is a sound chain exactly when their times are still in order. |
| ReceiptBuilding.BodyRead | packages/core/src/receipt.js:179-225 | A built body has the given fields, in key order and without an attestation. |
| ReceiptBuilding.SignedRead | packages/core/src/receipt.js:256-259 | Signing adds the attestation and changes nothing else. |
| ReceiptBuilding.SignedSound | packages/core/src/receipt.js:179-325 | What is built and signed is sound under every keyring that holds the key, and says what was recorded. |
| Checkpoints.CheckpointDigestExactly | packages/core/src/checkpoint.js:66-68 | The signed digest determines the body, unpaired surrogates aside. |
| Checkpoints.DigestsSeparate | packages/core/src/hash.js:17-20 | No checkpoint digest is a receipt digest. |
| Checkpoints.CountersignedExactly | packages/core/src/checkpoint.js:90-99 | Co-signing keeps the body and every signature under another key id, and adds the new one. |
| Checkpoints.VerifyCheckpoint | packages/core/src/checkpoint.js:133-203 | Exactly when a checkpoint passes; the count is of distinct public keys, pinned where keys are pinned. |
| Checkpoints.FindSizeFirst | packages/core/src/log.js:255-261 | The checkpoint found is the first of its size, and none is found only where there is none. |
| CheckpointBuilding.CheckpointRead | packages/core/src/checkpoint.js:51-60 | A built body says the size, root and head it was built from. |
| Bundles.AnchoredRoot | packages/core/src/log.js:732-781 | An anchored checkpoint names the root of that many leaves of every tree with the bundle's size and root. |
| Bundles.CountedArePinned | packages/core/src/checkpoint.js:98-120 | With pinned keys every counted witness is a pinned key that signed; the bundle's keyring adds none. |
| Bundles.WitnessAnchoring | packages/core/src/log.js:678-781 | A pass with k > 0 witnesses: some checkpoint of the reported size has at least k distinct pinned signers and the true prefix root, and no larger one vouches. |
| Bundles.EntryInTree | packages/core/src/log.js:565-593 | Each entry is the leaf at its own sequence number in every tree the bundle could be of. |
| Bundles.SameEntry | packages/core/src/log.js:565-593 | Bundles of trees that agree at a position hold receipts with the same canonical bytes there. |
| Bundles.CompleteBundle | packages/core/src/log.js:605-694 | A passing complete bundle holds entries 0 to n - 1 as one chain from genesis, with its head, its root and every checkpoint's prefix root. |
| Bundles.HeadDeterminesHistory | packages/core/src/log.js:605-694 | Passing complete bundles with one head hold receipts with the same canonical bytes in order; the same receipts, where they hold no unpaired surrogate. |
| Bundles.RootDeterminesHistory | packages/core/src/log.js:605-694 | So do those with one root, even if the sizes they claim differ. |
| BundleVerifier.VerifyEntries | packages/core/src/log.js:559-593 | No issue exactly when every entry is provably at its own number. |
| BundleVerifier.VerifyCheckpoints | packages/core/src/log.js:546-557 | Each checkpoint's own verdict, under the pinned keys and the minimum asked for. |
| BundleVerifier.CheckHead | packages/core/src/log.js:612-617 | The head is the hash of the first receipt that claims to be the last entry. |
| BundleVerifier.RebuildRoots | packages/core/src/log.js:631-643 | The incremental pass gives the true final root and the true root of every wanted prefix. |
| BundleVerifier.CheckComplete | packages/core/src/log.js:620-664 | No issue exactly when the bundle is complete and every checkpoint names its own prefix root. |
| BundleVerifier.CheckHistory | packages/core/src/log.js:652-664 | No issue exactly when every checkpoint names the rebuilt root at its size. |
| BundleVerifier.Anchor | packages/core/src/log.js:738-776 | One checkpoint: whether its root is tied to the bundle's tree, and whether it is contradicted. |
| BundleVerifier.VerifyReceipts | packages/core/src/log.js:690-706 | A complete bundle is one sound chain; in a filtered one each receipt is sound. |
| BundleVerifier.AnchorCheckpoints | packages/core/src/log.js:732-781 | The answer is the largest size that a valid, anchored checkpoint covers; issues exactly where one is contradicted. |
| BundleVerifier.VerifyBundle | packages/core/src/log.js:499-716 | The verdict is exactly the bundle predicate, and a pass reports the largest vouched-for size. |
| BundleShifts.ChecksAgree | packages/core/src/log.js:565-593 | In a bundle of at most 2^32 entries every inclusion and consistency check answers the same with 32-bit shifts. |
| LogRuns.AppendKeepsHonest | packages/core/src/log.js:190-218 | Appending keeps the chain sound and every checkpoint a true prefix. |
| LogRuns.CheckpointKeepsHonest | packages/core/src/log.js:225-235 | A new checkpoint is well signed and names the current root. |
| LogRuns.SignatureKeepsHonest | packages/core/src/log.js:255-269 | Adding a good signature under another key id keeps every checkpoint valid. |
| LogRuns.KeyKeepsHonest | packages/core/src/log.js:333-339 | Trusting a key under a new id keeps every signature valid. |
| LogRuns.ShredLeavesEvidence | packages/core/src/log.js:318-325 | Shredding destroys exactly the doomed salts and nothing else. |
| LogRuns.RunIsHonest | packages/core/src/log.js:190-339 | Every proper run leaves a sound chain and valid checkpoints of true prefixes. |
| LogExports.HonestAudit | packages/core/src/log.js:367-422 | An honest log's audit is clean. |
| LogExports.ExportedCheckpoint | packages/core/src/log.js:476-484 | In every export of an honest log each checkpoint is anchored or uncontradicted. |
| LogExports.ExportVerdict | packages/core/src/log.js:436-484 | An export of any selection of sound, numbered and linked entries, with checkpoints of true prefixes, passes exactly when it is partial or the times are in order, and the root and witness options are met. |
| LogExports.HonestExport | packages/core/src/log.js:436-484 | For every filter, an honest export passes exactly when the root and witness options are met and, with witnesses demanded, there is a checkpoint. |
| LogExports.HonestLogExports | packages/core/src/log.js:436-460 | No filter makes exporting an honest log throw. |
| LogExports.HonestExportPasses | packages/core/src/log.js:436-460 | With no witnesses demanded every honest export passes, whatever keys are pinned that are none of the log's own and are those the log knows under their ids. |
| LogExports.HonestRunsVerify | packages/core/src/log.js:190-460 | After every proper run the audit is clean, and for every filter there is an export and it passes. |
| LogExports.ReopenedIsHonestExactly | packages/core/src/log.js:121-161 | A log opened again from the UTF-8 file of an honest one is honest exactly when reading the times back has left them in order. |
| LogExports.ReopenedIsHonest | packages/core/src/log.js:121-161 | Which it does to times without unpaired surrogates. |
| LogFiles.TextOneLine | packages/core/src/log.js:201-203 | Canonical text never breaks a line. |
| LogFiles.FileReadsBack | packages/core/src/log.js:50-53 | Reading back the lines that appends wrote gives the entries. |
| LogFiles.FileDecodes | packages/core/src/log.js:203-212 | Decoded from UTF-8 the file is the one that appending the entries with unpaired surrogates replaced would have left. |
| ProofLogs.ProofLog.Create | packages/core/src/log.js:85-111 | A new log holds its own key and nothing else. |
| ProofLogs.OpenLog | packages/core/src/log.js:121-161 | A line that does not parse throws; a file that appends wrote gives back the same entries, tree and head; decoded from UTF-8, the same tree and head and the entries with unpaired surrogates replaced. |
| ProofLogs.ProofLog.Append | packages/core/src/log.js:190-218 | The next signed receipt, in entries, file, tree and head alike; nothing changes where building it throws. |
| ProofLogs.ProofLog.TakeCheckpoint | packages/core/src/log.js:225-235 | Signs and stores the size, root and head of the log. |
| ProofLogs.ProofLog.AddSignature | packages/core/src/log.js:255-269 | Replaces by key id at the first checkpoint of the size, and throws where there is none. |
| ProofLogs.ProofLog.TrustKey | packages/core/src/log.js:333-339 | Only the keyring changes, at one key id. |
| ProofLogs.ProofLog.Shred | packages/core/src/log.js:318-325 | Only the salts change; the count is of entries shredded. |
| ProofLogs.ProofLog.Audit | packages/core/src/log.js:367-422 | No issue exactly when the chain is sound and each checkpoint is well signed and names the root the log had (size 0 aside). |
| ProofLogs.ProofLog.AuditCheckpoint | packages/core/src/log.js:387-419 | One checkpoint: its signatures, its size, and the root the log had then. |
| ProofLogs.ProofLog.Export | packages/core/src/log.js:436-461 | The bundle of the selected entries, or a range error exactly where one has no place in the tree. |
| Positions.AllowedExtendsExactly | packages/server/src/app.js:670-725 | A request that passes the checks extends the recorded position where both sizes are numbers and growth ends at 2^32 at most, or the row stays as it is; and nowhere else, unless it grows past 2^32. |
| Positions.GrowthSoundExactly | packages/server/src/app.js:690-716 | Every accepted growth to size n extends the recorded position exactly for n up to 2^32. |
| Positions.GrowthPastTheBound | packages/server/src/app.js:690-716 | For every list of more than 2^32 leaf hashes, a recorded root of size 1 after which its root is accepted, and which it does not extend. |
| Positions.TextSizeReplacesRoot | packages/server/src/app.js:672-681 | The recorded size offered as a text passes every check, and any root replaces the recorded one. |
| Positions.UnreadableSizeForgets | packages/server/src/app.js:672-689 | After a text that is no number every number and root is accepted. |
| Positions.IntegerRecorded | packages/server/src/app.js:718-725 | The row of a body with an integer size holds that size and the root as UTF-8 stores it. |
| Witnesses.ClaimIs | packages/server/src/app.js:629-732 | A claim is for the body offered, under the key bound before or offered on first use, whose signature it carries, at a size and root that can be stored and passed the checks. |
| Witnesses.PositionNeverShrinks | packages/server/src/app.js:670-732 | A step shrinks no position and replaces no root at its size where the request it accepts for that log is orderly, and, for sizes up to 2^32, nowhere else. |
| Witnesses.RebindKeepsPositions | packages/server/src/store.js:628-651 | A rebind changes one log's key and no position. |
| Witnesses.RunKeepsInv | packages/server/src/app.js:629-739 | Over every interleaving and for every request, each position is that of the last claim for it, and each claim and signature carries a valid signature of its key. |
| Witnesses.OneHistoryExactly | packages/server/src/app.js:629-739 | The claims of a run under one key extend each other, in order, where every accepted request was orderly, and, when no size is past 2^32, nowhere else. |
| Witnesses.NumbersAreOrderly | packages/server/src/app.js:672-716 | Requests that offer numbers up to 2^32 as sizes are orderly. |
| Witnesses.TwoRootsAtOneSize | packages/server/src/app.js:672-739 | Size 5, the text "5" with a second root, size 5 with that root: both roots are signed at size 5. |
| Witnesses.TwoHistoriesPastTheBound | packages/server/src/app.js:629-739 | A root at size 1, then the root of any list of more than 2^32 leaf hashes with a proof that is too short: both are signed, and the second does not extend the first. |
| Witnesses.SignedOneHistory | packages/server/src/app.js:586-756 | In an orderly run, of any two bodies signed for one position key one extends the other: one root per size, and prefixes of one tree. |
| WitnessServices.WitnessService.ClaimPosition | packages/server/src/app.js:629-732 | The transaction's checks in order, its claim when all pass, and no row changed on a refusal. |
| WitnessServices.WitnessService.FinishSigning | packages/server/src/app.js:734-739 | Any waiting claim may be signed, whenever its signer answers. |
| WitnessServices.WitnessService.FailSigning | packages/server/src/app.js:616-624 | A signer that fails leaves the position taken. |
| WitnessServices.WitnessService.CheckExtension | packages/server/src/app.js:672-716 | Shrinking, a second root at one size and unproven growth are refused, each as itself, with sizes compared as JavaScript compares numbers and texts and proofs checked with 32-bit shifts. |
| WitnessServices.WitnessService.BindLogKey | packages/server/src/store.js:639-651 | Writes one binding and no position. |
| WitnessServices.WitnessService.Rebind | packages/server/src/bin.js:473-491 | Only a log the witness knows is rebound, and only its key. |
| NoSplitView.WitnessedPosition | packages/core/src/log.js:666-692 | The witnessed size comes with a position the witness signed: the true root at that size. |
| NoSplitView.NoSplitView | packages/server/src/app.js:576-581 | Bundles anchored by one honest witness, which accepted orderly requests, carry the same receipt at every shared number below both witnessed sizes. |
| NoSplitView.CompleteBundlesAgree | packages/core/src/checkpoint.js:7-17 | For complete bundles those entries are all there, and equal. |
| Hubs.AddsExactly | packages/server/src/store.js:221-324 | A batch is added exactly when every receipt is sound, named, in sequence and chained from the hub's end, and its id is new. |
| Hubs.AllOrNothing | packages/server/src/store.js:221-324 | Otherwise no row changes. |
| Hubs.BatchExtends | packages/server/src/store.js:278-324 | A batch without a fault carries the chain on. |
| HubRuns.PruneKeepsInv | packages/server/src/store.js:687-708 | Retention leaves hashes, links and numbers as they were. |
| HubRuns.NewBodyTrue | packages/server/src/store.js:521-540 | A checkpoint body is of a true prefix when it is built. |
| HubRuns.SignedKeepsInv | packages/server/src/store.js:539-558 | However late its signature, the stored checkpoint is a true prefix, one to a size. |
| HubRuns.RunKeepsInv | packages/server/src/store.js:191-397 | Over every run of committed steps, rows, log row, checkpoints, batch answers and cached tree describe one chain. |
| HubRuns.AppendOnly | packages/server/src/store.js:326-397 | What a log has accepted is never removed, replaced or reordered. |
| HubRuns.RetryIsIdempotent | packages/server/src/store.js:251-267 | A retried batch changes nothing and is answered with a true prefix. |
| HubRuns.RunsPassAudit | packages/server/src/store.js:790-880 | The audit passes after every run of committed steps, whatever was pruned. |
| Hubs.TakenElsewhereIs | packages/server/src/store.js:251-397 | Exactly such a batch is refused because its id is taken. |
| HubRuns.CacheBreaksExactly | packages/server/src/store.js:361-397 | The cached tree follows the rows exactly when no faultless batch comes under an id that, as stored, only another log has used; then the rows roll back and the tree does not. |
| HubRuns.BrokenCacheFailsAudit | packages/server/src/store.js:361-397 | After such a refusal, the next batch accepted on that tree fails the audit. |
| HubExports.HubExportIsExport | packages/server/src/store.js:889-943 | A hub export is an export of the log its rows tell, of the kept receipts as they were written and read back. |
| HubExports.HubExportVerdict | packages/server/src/store.js:889-943 | It is complete exactly when nothing was pruned or left out, and passes exactly when it is partial or the times are in order, the listed checkpoints are well signed and the root and witness options are met. |
| HubExports.HubExportsExist | packages/server/src/store.js:889-943 | Every row an export keeps has its place in the tree. |
| HubExports.RunsExport | packages/server/src/store.js:889-943 | So it is after every run of committed steps. |
| HubStores.Store.Tree | packages/server/src/store.js:191-213 | The cached tree, or one loaded from the stored hashes. |
| HubStores.Store.CheckBatch | packages/server/src/store.js:278-324 | The first fault, in the order receipts and checks are written. |
| HubStores.Store.Ingest | packages/server/src/store.js:244-397 | State and answer of the call: all of the batch, a retry's answer, or a refusal. |
| HubStores.Store.Prune | packages/server/src/store.js:700-708 | Clears exactly the bodies of rows older than the time given. |
| HubStores.Store.BeginCheckpoint | packages/server/src/store.js:521-539 | Nothing for an empty log or a size already stored; otherwise a body fixed before the signer is asked. |
| HubStores.Store.StoreCheckpoint | packages/server/src/store.js:541-558 | Of two checkpoints of one size the first stored stays. |
| HubStores.Store.AddWitnessSignature | packages/server/src/store.js:583-599 | Co-signs the stored checkpoint of the size, and only where there is one. |
| HubStores.Store.ForgetTree | packages/server/src/store.js:216-218 | Drops the cached tree and nothing else. |
| HubStores.Store.ExportKeys | packages/server/src/store.js:909-922 | The log's key, and the known keys of everyone who signed a listed checkpoint. |
| HubStores.Store.Export | packages/server/src/store.js:889-943 | The bundle of the kept rows with their proofs, or a range error exactly where a row has no place in the tree. |
| HubStores.Store.Audit | packages/server/src/store.js:790-880 | No issue exactly when rows, log row and checkpoints agree with a rebuild from the rows. |
| HubStores.Store.AuditRow | packages/server/src/store.js:801-841 | One row: its number, its link, and where its content is kept its signature and hash. |
| HubStores.Store.AuditCheckpoint | packages/server/src/store.js:854-877 | One checkpoint against the rebuilt tree. |
| RemoteSinks.BatchIdDetermines | packages/proxy/src/remote.js:155-157 | One log's batch ids are stored alike only for batches of one length from one place. |
| RemoteSinks.RemoteSink.Connect | packages/proxy/src/remote.js:94-138 | A registration and a size make the hub usable from that size; a log bound to another key ends the sending; any other failure changes nothing. |
| RemoteSinks.RemoteSink.Take | packages/proxy/src/remote.js:165-214 | What each kind of answer changes, and what it adds to the count shipped. |
| RemoteSinks.RemoteSink.Flush | packages/proxy/src/remote.js:146-220 | Each request is the batch at the cursor the answers so far left, of the local log as it is then; the call ends early only on an answer not to go on from. |
| Push.HubAnswers | packages/server/src/store.js:251-324 | A batch of the local log is added, answered as a retry, refused with the hub's true end past its start, or, once the log is archived, fails. |
| Push.HandleKeeps | packages/proxy/src/remote.js:146-220 | A request handled late or twice keeps the hub a prefix and every answer truthful. |
| PushRuns.AnswerAdvances | packages/proxy/src/remote.js:164-184 | Every acceptance or gap answer moves the sender forward, never past the hub; no answer is fatal. |
| PushRuns.ExactlyOnce | packages/proxy/src/remote.js:146-220 | Over every run the hub holds a prefix of the local log, each receipt once and in order, and no cursor is past it. |
| PushRuns.CaughtUp | packages/proxy/src/remote.js:152 | A cursor at the end of the local log means the two logs are equal. |
| PushRuns.HandlingAppends | packages/proxy/src/remote.js:146-220 | A request at the end of a hub log that is not archived adds its whole batch; any other adds nothing. |
| Policies.FirstRuleDecides | packages/core/src/policy.js:308-317 | The first matching rule with a verdict decides, and none after it. |
| Policies.FiredAreMatching | packages/core/src/policy.js:308-317 | The ids reported are those of the matching rules, up to and with the one that decides. |
| Policies.AllowedExactly | packages/core/src/policy.js:266-384 | Exactly when a call is allowed: egress, rules and default permit it and the first limit or budget it runs into, if any, says allow. |
| Policies.AllowedHasRoom | packages/core/src/policy.js:334-374 | Where limits and budgets do not say allow, an allowed call has room under all of them. |
| Policies.SumSince | packages/core/src/policy.js:429-476 | The loop adds up exactly the counted entries in the window and scope. |
| Policies.DecideCall | packages/core/src/policy.js:266-384 | The loops reach the decision and the ids of the rules that fired. |
| Proxies.McpProxy.HandleClientMessage | packages/proxy/src/proxy.js:339-440 | An allowed call is in the log, and in what later calls are judged by, before it goes out; a refused one is recorded. |
| Proxies.McpProxy.Resolve | packages/proxy/src/proxy.js:364-388 | An approved escalation is recorded as allowed and goes out; any other is recorded as declined. |
| Proxies.McpProxy.HandleServerMessage | packages/proxy/src/proxy.js:481-505 | A reply adds one restatement, under the call's decision and without metrics, for a pending call. |
| Proxies.McpProxy.Finalize | packages/proxy/src/proxy.js:534-545 | Each unanswered call gets its restatement, under its decision, and nothing else is recorded. |
| Caps.StepKeepsCapExactly | packages/proxy/src/proxy.js:339-440 | A step keeps a cap exactly when, if it is an approval, the window that ends then has room for the approved call. |
| Caps.BudgetHolds | packages/core/src/policy.js:353-374 | Every window ending at an allowed call is within the budget, in that call's scope, however calls are pipelined, exactly when each approved call had room in its own window when it was recorded. |
| Caps.RateLimitHolds | packages/core/src/policy.js:334-351 | Likewise for call counts, with a fractional limit rounded up. |
| Caps.NoApprovalsFit | packages/proxy/src/proxy.js:364-388 | A run without an approval meets that condition. |
| Caps.ApprovalSkipsBudgets | packages/core/src/policy.js:319-321 | A call a rule escalates goes over a budget when a person approves it. |
| Replays.Replay | packages/cli/src/policy-test.js:61-112 | The loop's verdicts, the number that changed, and a transition for exactly the changed pairs. |
| Replays.DecidesAlike | packages/core/src/policy.js:419-476 | A policy decides alike on histories that every meter reads alike. |
| Replays.ReplayIsFaithful | packages/cli/src/policy-test.js:61-112 | A log recorded in enforcement mode replays against a policy without a changed verdict exactly when each call carries that policy's verdict on the entries before it at its recorded time. |
| Replays.RunReplaysExactly | packages/proxy/src/proxy.js:339-440 | What the proxy records on top of a log that replays unchanged does so too, exactly when each call would have been judged alike when it was recorded, and each escalation still escalated when it was answered. |
| Replays.ProxyReplaysUnchanged | packages/proxy/src/proxy.js:339-440 | So with calls recorded at the time they are decided and escalations answered at once, replies, approvals and refusals included. |
| Replays.DelayedAnswerChanges | packages/proxy/src/proxy.js:364-388 | A call escalated by a budget and approved after the window has passed replays as allowed. |

## Left out

- SHA-256, Ed25519, key ids, PEM, base64url and hex digits: library calls. A digest is ideal, a signature is a predicate, hex is the identity.
- Malformed roots and proofs: a root that is not hex is not a value of the model, so the code's reports of bad hex have no counterpart.
- Values of the wrong JSON type where JavaScript coerces them, outside the witness's sizes, roots and log names (a numeric key id): a field that is not a string or an integer reads as absent.
- Sizes that a double does not hold exactly, which the witness's table gives back as other numbers or not at all; and which refusal a cosigning request meets whose size or root no row can hold.
- `seal`, `openSeal`, `reveal` and redaction: an append takes the action and result as they are sealed.
- ProofLogs.OpenLog: the model's reader accepts canonical text, which is what appends write; other JSON spellings of a receipt, which `JSON.parse` takes, are not read.
- config.json, key.pem, read-only mode and the check that the key matches the configuration.
- Durability: a crash between the write of a line and the update of memory, fsync, several processes on one directory.
- Finding the shortest digits of a floating-point number: the layout takes the digits and exponent as given; integers beyond 2^53 become floats before it is reached.
- MerkleTrees.MerkleTree.InclusionProof: the index is shifted as an unbounded number; beyond 2^31 leaves `i ^ 1` would be 32-bit.
- The bundle's `exported` time and `checked` count of a failing bundle; which of several issues is reported first.
- The checkpoint the proxy takes when it shuts down.
- Hubs.AddsExactly: a sound receipt whose `ref`, result status or latency has a type that no column takes, which makes the insert throw before the tree grows, is taken like any other.
- The order and the number, at most 1000, of the checkpoints the hub lists: an export is proved for any list of them. Its usage counters, logs of other tenants, and re-registration.
- Push: rate-limit pauses, back-off timers, permanent refusals of an unsound local log, and a hub restored from an older copy; a request is assumed to reach the hub whole or not at all.
- PushRuns.ExactlyOnce: no other log uses the id of a batch that can be cut from the local log; ids hold the log's name and part of a signature.
- Caps.BudgetHolds: metrics are real numbers, so rounding of sums is not modelled, and a metric that is not a number, which the code skips, does not occur.
- Match clauses, operators, globs, regular expressions, windows written as text, and reasons: a clause is a function of the context.
- Monitor mode: it lets every call through, so caps and faithful replay are not claimed of it.
- The SDK's log, receipt, checkpoint and remote modules, the console, the dashboard, the site's verifier, authentication, Slack, OIDC and reports.
