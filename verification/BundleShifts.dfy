/**
 * log.js, the proofs a bundle verifier checks, with the 32-bit shifts of merkle.js: in a bundle of at most 2 to
 * the 32 entries each check is the one that `Bundles` states with unbounded sizes.
 */
module BundleShifts {
  import opened Hashing
  import opened Canonical
  import opened Receipts
  import opened Checkpoints
  import opened Bundles
  import opened JsShifts
  import opened JsConsistency

  predicate JsEntryOk(bundle: Bundle, entry: Entry) {
    && SeqOf(entry.receipt).Some?
    && JsInclusionAccepted(Raw(EntryHash(entry.receipt)), SeqOf(entry.receipt).value, bundle.treeSize, entry.proof, bundle.root)
  }

  predicate JsProofHolds(bundle: Bundle, body: Json, size: int) {
    && size in bundle.consistency
    && RootOf(body).Some?
    && JsConsistencyAccepted(size, bundle.treeSize, RootOf(body).value, bundle.root, bundle.consistency[size])
  }

  lemma {:induction false} ChecksAgree(bundle: Bundle, entry: Entry, body: Json, size: int)
    requires bundle.treeSize <= TWO_TO_32
    ensures JsEntryOk(bundle, entry) <==> EntryOk(bundle, entry)
    ensures JsProofHolds(bundle, body, size) <==> ProofHolds(bundle, body, size)
  {
    hide SeqOf, RootOf, EntryHash, Raw, JsInclusionAccepted, JsConsistencyAccepted;
    if SeqOf(entry.receipt).Some? {
      InclusionShiftsAgree(Raw(EntryHash(entry.receipt)), SeqOf(entry.receipt).value, bundle.treeSize, entry.proof, bundle.root);
    }
    if size in bundle.consistency && RootOf(body).Some? {
      ShiftsAgree(size, bundle.treeSize, RootOf(body).value, bundle.root, bundle.consistency[size]);
    }
  }
}
