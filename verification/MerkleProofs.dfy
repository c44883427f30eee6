/**
 * merkle.js, merkle.py: the two proof verifiers (the algorithms of RFC 9162
 * sections 2.1.3.2 and 2.1.4.2), proved to accept exactly the true statements.
 * Sizes are unbounded, as in merkle.py.
 */
module MerkleProofs {
  import opened Wrappers
  import opened Hashing
  import opened Merkle

  // --------------------------------------------------- climbing a proof by levels

  /** `proof` from position `i` on is exactly the bytes of `path`. */
  predicate ProofFrom(proof: seq<Bytes>, i: nat, path: seq<Digest>) {
    |proof| == i + |path| && forall j | 0 <= j < |path| :: proof[i + j] == Raw(path[j])
  }

  /** A proof as it is sent: the bytes of each hash. */
  function RawAll(path: seq<Digest>): (proof: seq<Bytes>)
    ensures ProofFrom(proof, 0, path)
  {
    seq(|path|, j requires 0 <= j < |path| => Raw(path[j]))
  }

  /**
   * The root a proof implies for the node `fn` of a level whose last node is `sn`.
   * An unpaired last node rises without using up a proof element.
   */
  function Climb(fn: nat, sn: nat, node: Bytes, proof: seq<Bytes>, i: nat): Option<Bytes>
    requires fn <= sn && i <= |proof|
    decreases sn
  {
    if sn == 0 then (if i == |proof| then Some(node) else None)
    else if fn % 2 == 0 && fn == sn then Climb(fn / 2, sn / 2, node, proof, i)
    else if i == |proof| || |proof[i]| != DIGEST_LENGTH then None
    else if fn % 2 == 1 then Climb(fn / 2, sn / 2, Raw(NodeHash(proof[i], node)), proof, i + 1)
    else Climb(fn / 2, sn / 2, Raw(NodeHash(node, proof[i])), proof, i + 1)
  }

  /** The same climb for a tree that ends at node `fn`: a right sibling is not in it. */
  function ClimbOld(fn: nat, sn: nat, node: Bytes, proof: seq<Bytes>, i: nat): Option<Bytes>
    requires fn <= sn && i <= |proof|
    decreases sn
  {
    if sn == 0 then (if i == |proof| then Some(node) else None)
    else if fn % 2 == 0 && fn == sn then ClimbOld(fn / 2, sn / 2, node, proof, i)
    else if i == |proof| || |proof[i]| != DIGEST_LENGTH then None
    else if fn % 2 == 1 then ClimbOld(fn / 2, sn / 2, Raw(NodeHash(proof[i], node)), proof, i + 1)
    else ClimbOld(fn / 2, sn / 2, node, proof, i + 1)
  }

  /** The node above `fn`, in terms of `fn` and its sibling. */
  lemma {:induction false} NodeAbove(level: seq<Digest>, fn: nat, sn: nat)
    requires fn <= sn && |level| == sn + 1
    ensures fn / 2 <= sn / 2 && |PairUp(level)| == sn / 2 + 1
    ensures fn % 2 == 1 ==> PairUp(level)[fn / 2] == Parent(level[fn - 1], level[fn])
    ensures fn % 2 == 0 && fn < sn ==> PairUp(level)[fn / 2] == Parent(level[fn], level[fn + 1])
    ensures fn % 2 == 0 && fn == sn ==> PairUp(level)[fn / 2] == level[fn]
    ensures MerkleRoot(level) == MerkleRoot(PairUp(level))
  {
    var h := fn / 2;
    assert fn % 2 == 0 ==> 2 * h == fn;
    assert fn % 2 == 1 ==> 2 * h + 1 == fn;
    PairUpKeepsRoot(level);
  }

  /** Using up a proof: its first element is the sibling, where there is one. */
  lemma {:induction false} ProofStep(proof: seq<Bytes>, i: nat, level: seq<Digest>, fn: nat)
    requires fn < |level| && |level| > 1 && i <= |proof|
    ensures ProofFrom(proof, i, LevelPath(level, fn)) <==>
            var sibling, rest := Sibling(level, fn), LevelPath(PairUp(level), fn / 2);
            if sibling == [] then ProofFrom(proof, i, rest)
            else i < |proof| && proof[i] == Raw(sibling[0]) && ProofFrom(proof, i + 1, rest)
  {
    var sibling, rest := Sibling(level, fn), LevelPath(PairUp(level), fn / 2);
    if sibling == [] {
      assert sibling + rest == rest;
    } else {
      ProofCons(proof, i, sibling[0], rest);
      assert sibling == [sibling[0]];
    }
  }

  lemma {:induction false} ProofCons(proof: seq<Bytes>, i: nat, first: Digest, rest: seq<Digest>)
    requires i <= |proof|
    ensures ProofFrom(proof, i, [first] + rest) <==>
            i < |proof| && proof[i] == Raw(first) && ProofFrom(proof, i + 1, rest)
  {
    var path := [first] + rest;
    if ProofFrom(proof, i, path) {
      assert proof[i + 0] == Raw(path[0]);
      forall j | 0 <= j < |rest| ensures proof[i + 1 + j] == Raw(rest[j]) {
        assert proof[i + (j + 1)] == Raw(path[j + 1]);
      }
    }
  }

  /** A climb reaches the root of a level only from the true node and along the true path. */
  lemma {:induction false} ClimbSound(level: seq<Digest>, fn: nat, sn: nat, node: Bytes, proof: seq<Bytes>, i: nat)
    requires fn <= sn && |level| == sn + 1 && i <= |proof|
    requires Climb(fn, sn, node, proof, i) == Some(Raw(MerkleRoot(level)))
    ensures node == Raw(level[fn]) && ProofFrom(proof, i, LevelPath(level, fn))
    decreases sn
  {
    if sn > 0 {
      var up := PairUp(level);
      NodeAbove(level, fn, sn);
      ProofStep(proof, i, level, fn);
      if fn % 2 == 0 && fn == sn {
        ClimbSound(up, fn / 2, sn / 2, node, proof, i);
      } else if fn % 2 == 1 {
        ClimbSound(up, fn / 2, sn / 2, Raw(NodeHash(proof[i], node)), proof, i + 1);
        ParentFromBytes(proof[i], node, level[fn - 1], level[fn]);
      } else {
        ClimbSound(up, fn / 2, sn / 2, Raw(NodeHash(node, proof[i])), proof, i + 1);
        ParentFromBytes(node, proof[i], level[fn], level[fn + 1]);
      }
    }
  }

  lemma {:induction false} ParentFromBytes(left: Bytes, right: Bytes, a: Digest, b: Digest)
    requires Raw(NodeHash(left, right)) == Raw(Parent(a, b))
    requires |left| == DIGEST_LENGTH || |right| == DIGEST_LENGTH
    ensures left == Raw(a) && right == Raw(b)
  {
    RawInjective(NodeHash(left, right), Parent(a, b));
    NodeHashInjective(left, right, Raw(a), Raw(b));
  }

  lemma {:induction false} ClimbComplete(level: seq<Digest>, fn: nat, sn: nat, proof: seq<Bytes>, i: nat)
    requires fn <= sn && |level| == sn + 1 && i <= |proof| && ProofFrom(proof, i, LevelPath(level, fn))
    ensures Climb(fn, sn, Raw(level[fn]), proof, i) == Some(Raw(MerkleRoot(level)))
    decreases sn
  {
    if sn > 0 {
      NodeAbove(level, fn, sn);
      ProofStep(proof, i, level, fn);
      if fn % 2 == 0 && fn == sn {
        ClimbComplete(PairUp(level), fn / 2, sn / 2, proof, i);
      } else {
        ClimbComplete(PairUp(level), fn / 2, sn / 2, proof, i + 1);
      }
    }
  }

  /** `prior` is a level that ends at node `fn` of `level` and agrees with it before that node. */
  predicate EndsAt(prior: seq<Digest>, level: seq<Digest>, fn: nat) {
    |prior| == fn + 1 <= |level| && forall j | 0 <= j < fn :: prior[j] == level[j]
  }

  lemma {:induction false} EndsAtAbove(prior: seq<Digest>, level: seq<Digest>, fn: nat)
    requires EndsAt(prior, level, fn)
    ensures EndsAt(PairUp(prior), PairUp(level), fn / 2)
  {
    var priorUp, up := PairUp(prior), PairUp(level);
    forall h | 0 <= h < fn / 2 ensures priorUp[h] == up[h] {
      assert 2 * h + 1 < fn;
    }
  }

  /** Along the true path of node `fn`, the climb of an older tree that ends there reaches that tree's root. */
  lemma {:induction false} ClimbOldComplete(level: seq<Digest>, prior: seq<Digest>, fn: nat, sn: nat,
                                            proof: seq<Bytes>, i: nat)
    requires |level| == sn + 1 && EndsAt(prior, level, fn)
    requires i <= |proof| && ProofFrom(proof, i, LevelPath(level, fn))
    ensures ClimbOld(fn, sn, Raw(prior[fn]), proof, i) == Some(Raw(MerkleRoot(prior)))
    decreases sn
  {
    if sn > 0 {
      EndsAtAbove(prior, level, fn);
      NodeAbove(level, fn, sn);
      NodeAbove(prior, fn, fn);
      ProofStep(proof, i, level, fn);
      if fn % 2 == 0 && fn == sn {
        ClimbOldComplete(PairUp(level), PairUp(prior), fn / 2, sn / 2, proof, i);
      } else {
        ClimbOldComplete(PairUp(level), PairUp(prior), fn / 2, sn / 2, proof, i + 1);
      }
    }
  }

  // ------------------------------------------------------------------- inclusion

  predicate InclusionAccepted(leaf: Bytes, index: int, treeSize: int, proof: seq<Bytes>, root: Bytes) {
    0 <= index < treeSize && Climb(index, treeSize - 1, leaf, proof, 0) == Some(root)
  }

  /** Acceptance against a true root: the leaf is the one at that index and the proof is its only PATH. */
  lemma {:induction false} InclusionExact(leaves: seq<Digest>, leaf: Bytes, index: int, proof: seq<Bytes>)
    ensures InclusionAccepted(leaf, index, |leaves|, proof, Raw(MerkleRoot(leaves))) <==>
            0 <= index < |leaves| && leaf == Raw(leaves[index]) && proof == RawAll(InclusionPath(leaves, index))
  {
    if 0 <= index < |leaves| {
      LevelPathIsInclusionPath(leaves, index);
      if InclusionAccepted(leaf, index, |leaves|, proof, Raw(MerkleRoot(leaves))) {
        ClimbSound(leaves, index, |leaves| - 1, leaf, proof, 0);
      }
      if proof == RawAll(InclusionPath(leaves, index)) {
        ClimbComplete(leaves, index, |leaves| - 1, proof, 0);
      }
    }
  }

  method VerifyInclusion(leaf: Bytes, index: int, treeSize: int, proof: seq<Bytes>, root: Bytes) returns (ok: bool)
    ensures ok <==> InclusionAccepted(leaf, index, treeSize, proof, root)
  {
    if index < 0 || treeSize <= 0 || index >= treeSize {
      return false;
    }
    var fn, sn, acc := index, treeSize - 1, leaf;
    for i := 0 to |proof|
      invariant 0 <= fn <= sn
      invariant Climb(index, treeSize - 1, leaf, proof, 0) == Climb(fn, sn, acc, proof, i)
    {
      if sn == 0 || |proof[i]| != DIGEST_LENGTH {
        ClimbStuck(fn, sn, acc, proof, i);
        return false;
      }
      if fn % 2 == 1 || fn == sn {
        ghost var node := acc;
        acc := Raw(NodeHash(proof[i], acc));
        while fn != 0 && fn % 2 == 0
          invariant 0 < fn <= sn && (fn % 2 == 1 || fn == sn)
          invariant Climb(index, treeSize - 1, leaf, proof, 0) == Climb(fn, sn, node, proof, i)
        {
          fn, sn := fn / 2, sn / 2;
        }
      } else {
        acc := Raw(NodeHash(acc, proof[i]));
      }
      fn, sn := fn / 2, sn / 2;
    }
    if sn != 0 {
      ClimbStuck(fn, sn, acc, proof, |proof|);
      return false;
    }
    return acc == root;
  }

  /** A climb that still needs an element fails when there is none, or none of the right length. */
  lemma {:induction false} ClimbStuck(fn: nat, sn: nat, node: Bytes, proof: seq<Bytes>, i: nat)
    requires fn <= sn && i <= |proof|
    requires if sn == 0 then i < |proof| else i == |proof| || |proof[i]| != DIGEST_LENGTH
    ensures Climb(fn, sn, node, proof, i) == None && ClimbOld(fn, sn, node, proof, i) == None
    decreases sn
  {
    if sn != 0 && fn % 2 == 0 && fn == sn {
      ClimbStuck(fn / 2, sn / 2, node, proof, i);
    }
  }

  // ----------------------------------------------------------------- consistency

  /** Acceptance once both sizes have been lowered by one: shared levels are stripped first. */
  predicate ExtensionAccepted(fn: nat, sn: nat, firstRoot: Bytes, secondRoot: Bytes, proof: seq<Bytes>)
    requires fn <= sn
    decreases fn
  {
    if fn % 2 == 1 then ExtensionAccepted(fn / 2, sn / 2, firstRoot, secondRoot, proof)
    else if |proof| == 0 then false
    else
      var seed, i := if fn != 0 then proof[0] else firstRoot, if fn != 0 then 1 else 0;
      && ClimbOld(fn, sn, seed, proof, i) == Some(firstRoot)
      && Climb(fn, sn, seed, proof, i) == Some(secondRoot)
  }

  predicate ConsistencyAccepted(firstSize: int, secondSize: int, firstRoot: Bytes, secondRoot: Bytes, proof: seq<Bytes>) {
    && 0 <= firstSize <= secondSize
    && if firstSize == secondSize then |proof| == 0 && firstRoot == secondRoot
       else if firstSize == 0 then |proof| == 0
       else ExtensionAccepted(firstSize - 1, secondSize - 1, firstRoot, secondRoot, proof)
  }

  lemma {:induction false} ExtensionSound(level: seq<Digest>, fn: nat, sn: nat, firstRoot: Bytes, proof: seq<Bytes>)
    requires fn <= sn && |level| == sn + 1
    requires ExtensionAccepted(fn, sn, firstRoot, Raw(MerkleRoot(level)), proof)
    ensures firstRoot == Raw(RangeRoot(level, 0, fn + 1))
    decreases sn
  {
    if fn % 2 == 1 {
      PrefixAbove(level, fn, sn, fn / 2);
      ExtensionSound(PairUp(level), fn / 2, sn / 2, firstRoot, proof);
    } else {
      ExtensionSoundEven(level, fn, sn, firstRoot, proof);
    }
  }

  lemma {:induction false} ExtensionSoundEven(level: seq<Digest>, fn: nat, sn: nat, firstRoot: Bytes, proof: seq<Bytes>)
    requires fn <= sn && |level| == sn + 1 && fn % 2 == 0
    requires ExtensionAccepted(fn, sn, firstRoot, Raw(MerkleRoot(level)), proof)
    ensures firstRoot == Raw(RangeRoot(level, 0, fn + 1))
  {
    var seed, i := if fn != 0 then proof[0] else firstRoot, if fn != 0 then 1 else 0;
    ClimbSound(level, fn, sn, seed, proof, i);
    PriorClimb(level, fn, sn, proof, i);
  }

  /** Along the true path of node `fn`, the older tree is the leaves up to and including it. */
  lemma {:induction false} PriorClimb(level: seq<Digest>, fn: nat, sn: nat, proof: seq<Bytes>, i: nat)
    requires fn <= sn && |level| == sn + 1
    requires i <= |proof| && ProofFrom(proof, i, LevelPath(level, fn))
    ensures ClimbOld(fn, sn, Raw(level[fn]), proof, i) == Some(Raw(RangeRoot(level, 0, fn + 1)))
  {
    var prior := level[..fn + 1];
    ClimbOldComplete(level, prior, fn, sn, proof, i);
    RangeRootCongruent(level, prior, 0, fn + 1);
    assert prior[fn] == level[fn];
  }

  /** A prefix of whole pairs and its root, one level up. */
  lemma {:induction false} PrefixAbove(level: seq<Digest>, fn: nat, sn: nat, h: nat)
    requires fn <= sn && |level| == sn + 1 && fn == 2 * h + 1
    ensures h <= sn / 2 && |PairUp(level)| == sn / 2 + 1 && (fn < sn ==> h < sn / 2)
    ensures RangeRoot(level, 0, fn + 1) == RangeRoot(PairUp(level), 0, h + 1)
    ensures MerkleRoot(level) == MerkleRoot(PairUp(level))
  {
    RangeRootAbove(level, PairUp(level), 0, fn + 1, 0, h + 1);
    PairUpKeepsRoot(level);
  }

  lemma {:induction false} SubProofPrefixAbove(level: seq<Digest>, fn: nat, sn: nat, h: nat)
    requires fn < sn && |level| == sn + 1 && fn == 2 * h + 1
    ensures h < sn / 2 && |PairUp(level)| == sn / 2 + 1
    ensures SubProof(level, 0, sn + 1, fn + 1, true) == SubProof(PairUp(level), 0, sn / 2 + 1, h + 1, true)
  {
    SubProofAbove(level, PairUp(level), 0, sn + 1, 0, |PairUp(level)|, fn + 1, h + 1, true);
  }

  lemma {:induction false} ExtensionComplete(level: seq<Digest>, fn: nat, sn: nat, path: seq<Digest>, proof: seq<Bytes>)
    requires fn < sn && |level| == sn + 1
    requires path == SubProof(level, 0, sn + 1, fn + 1, true) && ProofFrom(proof, 0, path)
    ensures ExtensionAccepted(fn, sn, Raw(RangeRoot(level, 0, fn + 1)), Raw(MerkleRoot(level)), proof)
    decreases sn
  {
    hide MerkleRoot, RangeRoot, SubProof, Climb, ClimbOld, ProofFrom;
    if fn % 2 == 1 {
      PrefixAbove(level, fn, sn, fn / 2);
      SubProofPrefixAbove(level, fn, sn, fn / 2);
      ExtensionComplete(PairUp(level), fn / 2, sn / 2, path, proof);
    } else {
      ExtensionCompleteEven(level, fn, sn, path, proof);
    }
  }

  lemma {:induction false} ExtensionCompleteEven(level: seq<Digest>, fn: nat, sn: nat, path: seq<Digest>, proof: seq<Bytes>)
    requires fn < sn && |level| == sn + 1 && fn % 2 == 0
    requires path == SubProof(level, 0, sn + 1, fn + 1, true) && ProofFrom(proof, 0, path)
    ensures ExtensionAccepted(fn, sn, Raw(RangeRoot(level, 0, fn + 1)), Raw(MerkleRoot(level)), proof)
  {
    var i := if fn != 0 then 1 else 0;
    EvenProof(level, fn, sn, path, proof);
    ClimbComplete(level, fn, sn, proof, i);
    PriorClimb(level, fn, sn, proof, i);
  }

  /** The proof from an odd size: the old tree's last node unless it is the old root, then its path. */
  lemma {:induction false} EvenProof(level: seq<Digest>, fn: nat, sn: nat, path: seq<Digest>, proof: seq<Bytes>)
    requires fn < sn && |level| == sn + 1 && fn % 2 == 0
    requires path == SubProof(level, 0, sn + 1, fn + 1, true) && ProofFrom(proof, 0, path)
    ensures |proof| > 0 && (fn != 0 ==> proof[0] == Raw(level[fn]))
    ensures ProofFrom(proof, if fn != 0 then 1 else 0, LevelPath(level, fn))
  {
    var rest := LevelPath(level, fn);
    SubProofIsPath(level, 0, sn + 1, fn, true);
    LevelPathIsInclusionPath(level, fn);
    if fn != 0 {
      assert path == [level[fn]] + rest;
      ProofCons(proof, 0, level[fn], rest);
    } else {
      assert path == [] + rest == rest;
      assert |Sibling(level, fn)| == 1;
    }
  }

  /**
   * Consistency soundness: whatever the proof holds, if the second root is the root of
   * `leaves` then the first root is the root of their first `m`, for every `m` above 0.
   */
  lemma {:induction false} ConsistencySound(leaves: seq<Digest>, m: nat, firstRoot: Bytes, proof: seq<Bytes>)
    requires 0 < m <= |leaves|
    requires ConsistencyAccepted(m, |leaves|, firstRoot, Raw(MerkleRoot(leaves)), proof)
    ensures firstRoot == Raw(MerkleRoot(leaves[..m]))
  {
    RangeRootCongruent(leaves, leaves[..m], 0, m);
    if m < |leaves| {
      ExtensionSound(leaves, m - 1, |leaves| - 1, firstRoot, proof);
    } else {
      assert leaves[..m] == leaves;
    }
  }

  /** Consistency completeness: every generated proof is accepted, sizes 0 and n included. */
  lemma {:induction false} ConsistencyComplete(leaves: seq<Digest>, m: nat)
    requires m <= |leaves|
    ensures ConsistencyAccepted(m, |leaves|, Raw(MerkleRoot(leaves[..m])), Raw(MerkleRoot(leaves)),
                                RawAll(ConsistencyPath(leaves, m)))
  {
    if m == |leaves| {
      assert leaves[..m] == leaves;
    } else if m > 0 {
      RangeRootCongruent(leaves, leaves[..m], 0, m);
      var path := ConsistencyPath(leaves, m);
      ExtensionComplete(leaves, m - 1, |leaves| - 1, path, RawAll(path));
    }
  }

  /** Size 0 is the one first size for which acceptance says nothing about the first root. */
  lemma {:induction false} ConsistencyFromEmpty(n: nat, firstRoot: Bytes, secondRoot: Bytes)
    ensures ConsistencyAccepted(0, n, firstRoot, secondRoot, []) <==> n > 0 || firstRoot == secondRoot
  {
  }

  /** With the tree's own proof, acceptance says what the first root is; size 0 of a longer log is accepted with any. */
  lemma {:induction false} ConsistencyExact(leaves: seq<Digest>, m: nat, firstRoot: Bytes)
    requires m <= |leaves|
    ensures ConsistencyAccepted(m, |leaves|, firstRoot, Raw(MerkleRoot(leaves)), RawAll(ConsistencyPath(leaves, m))) <==>
            0 == m < |leaves| || firstRoot == Raw(MerkleRoot(leaves[..m]))
  {
    hide MerkleRoot, Raw;
    ConsistencyComplete(leaves, m);
    if m > 0 {
      hide ConsistencyAccepted;
      if ConsistencyAccepted(m, |leaves|, firstRoot, Raw(MerkleRoot(leaves)), RawAll(ConsistencyPath(leaves, m))) {
        ConsistencySound(leaves, m, firstRoot, RawAll(ConsistencyPath(leaves, m)));
      }
    } else {
      assert leaves == [] ==> leaves[..0] == leaves;
    }
  }

  method VerifyConsistency(firstSize: int, secondSize: int, firstRoot: Bytes, secondRoot: Bytes, proof: seq<Bytes>)
    returns (ok: bool)
    ensures ok <==> ConsistencyAccepted(firstSize, secondSize, firstRoot, secondRoot, proof)
  {
    if firstSize < 0 || secondSize < firstSize {
      return false;
    }
    if firstSize == secondSize {
      return |proof| == 0 && firstRoot == secondRoot;
    }
    if firstSize == 0 {
      return |proof| == 0;
    }
    var fn, sn := firstSize - 1, secondSize - 1;
    while fn % 2 == 1
      invariant 0 <= fn <= sn
      invariant ExtensionAccepted(firstSize - 1, secondSize - 1, firstRoot, secondRoot, proof)
            <==> ExtensionAccepted(fn, sn, firstRoot, secondRoot, proof)
      decreases fn
    {
      fn, sn := fn / 2, sn / 2;
    }
    if |proof| == 0 {
      return false;
    }
    var i, fr, sr := 0, firstRoot, firstRoot;
    if fn != 0 {
      i, fr, sr := 1, proof[0], proof[0];
    }
    ghost var first, second := ClimbOld(fn, sn, fr, proof, i), Climb(fn, sn, sr, proof, i);
    while i < |proof|
      invariant 0 <= fn <= sn && 0 <= i <= |proof|
      decreases |proof| - i
      invariant ClimbOld(fn, sn, fr, proof, i) == first && Climb(fn, sn, sr, proof, i) == second
    {
      var p := proof[i];
      if sn == 0 || |p| != DIGEST_LENGTH {
        ClimbStuck(fn, sn, fr, proof, i);
        return false;
      }
      if fn % 2 == 1 || fn == sn {
        ghost var oldNode, node := fr, sr;
        fr, sr := Raw(NodeHash(p, fr)), Raw(NodeHash(p, sr));
        while fn != 0 && fn % 2 == 0
          invariant 0 < fn <= sn && (fn % 2 == 1 || fn == sn)
          invariant ClimbOld(fn, sn, oldNode, proof, i) == first && Climb(fn, sn, node, proof, i) == second
        {
          fn, sn := fn / 2, sn / 2;
        }
      } else {
        sr := Raw(NodeHash(sr, p));
      }
      fn, sn, i := fn / 2, sn / 2, i + 1;
    }
    if sn != 0 {
      ClimbStuck(fn, sn, fr, proof, i);
      return false;
    }
    return fr == firstRoot && sr == secondRoot;
  }
}
