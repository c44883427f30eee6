/**
 * merkle.js, `verifyConsistency` and `verifyInclusion` with their 32-bit shifts: up to which size of a tree
 * an accepted proof says anything, exactly.
 */
module JsConsistency {
  import opened Wrappers
  import opened Hashing
  import opened Merkle
  import opened MerkleProofs
  import opened JsShifts

  predicate JsConsistencyAccepted(firstSize: int, secondSize: int, firstRoot: Bytes, secondRoot: Bytes, proof: seq<Bytes>) {
    && 0 <= firstSize <= secondSize
    && if firstSize == secondSize then |proof| == 0 && firstRoot == secondRoot
       else if firstSize == 0 then |proof| == 0
       else JsExtension(firstSize - 1, secondSize - 1, firstRoot, secondRoot, proof)
  }

  predicate JsInclusionAccepted(leaf: Bytes, index: int, treeSize: int, proof: seq<Bytes>, root: Bytes) {
    0 <= index < treeSize && Walk(index, treeSize - 1, leaf, proof, 0) == Some(root)
  }

  /** Up to 2 to the 32 the shifts change no answer. */
  lemma {:induction false} ShiftsAgree(firstSize: int, secondSize: int, firstRoot: Bytes, secondRoot: Bytes, proof: seq<Bytes>)
    requires secondSize <= TWO_TO_32
    ensures JsConsistencyAccepted(firstSize, secondSize, firstRoot, secondRoot, proof)
            <==> ConsistencyAccepted(firstSize, secondSize, firstRoot, secondRoot, proof)
  {
    hide JsExtension, ExtensionAccepted;
    if 0 < firstSize < secondSize {
      ConsistencyShifts(firstSize, secondSize, firstRoot, secondRoot, proof);
    }
  }

  lemma {:induction false} InclusionShiftsAgree(leaf: Bytes, index: int, treeSize: int, proof: seq<Bytes>, root: Bytes)
    requires treeSize <= TWO_TO_32
    ensures JsInclusionAccepted(leaf, index, treeSize, proof, root) <==> InclusionAccepted(leaf, index, treeSize, proof, root)
  {
    hide Walk, Climb;
    if 0 <= index < treeSize {
      WalkIsClimb(index, treeSize - 1, leaf, proof, 0);
    }
  }

  method JsVerifyConsistency(firstSize: int, secondSize: int, firstRoot: Bytes, secondRoot: Bytes, proof: seq<Bytes>)
    returns (ok: bool)
    ensures ok <==> JsConsistencyAccepted(firstSize, secondSize, firstRoot, secondRoot, proof)
  {
    hide Raw, NodeHash, ShiftRight;
    if firstSize < 0 || secondSize < firstSize {
      return false;
    }
    if firstSize == secondSize {
      return |proof| == 0 && firstRoot == secondRoot;
    }
    if firstSize == 0 {
      return |proof| == 0;
    }
    var fn, sn := firstSize - 1, secondSize - 1;
    while fn % 2 == 1
      invariant 0 <= fn && 0 <= sn
      invariant StripOnes(fn, sn) == StripOnes(firstSize - 1, secondSize - 1)
      decreases fn
    {
      ShiftShrinks(fn);
      fn, sn := ShiftRight(fn), ShiftRight(sn);
    }
    if |proof| == 0 {
      return false;
    }
    var i, fr, sr := 0, firstRoot, firstRoot;
    if fn != 0 {
      i, fr, sr := 1, proof[0], proof[0];
    }
    ghost var roots := WalkBoth(fn, sn, fr, sr, proof, i);
    while i < |proof|
      invariant 0 <= fn && 0 <= sn && 0 <= i <= |proof|
      invariant WalkBoth(fn, sn, fr, sr, proof, i) == roots
    {
      var p := proof[i];
      if sn == 0 || |p| != DIGEST_LENGTH {
        return false;
      }
      if fn % 2 == 1 || fn == sn {
        fr, sr := Raw(NodeHash(p, fr)), Raw(NodeHash(p, sr));
        ghost var stripped := Strip(fn, sn);
        while fn != 0 && fn % 2 == 0
          invariant 0 <= fn && 0 <= sn && Strip(fn, sn) == stripped
          decreases fn
        {
          ShiftShrinks(fn);
          fn, sn := ShiftRight(fn), ShiftRight(sn);
        }
      } else {
        sr := Raw(NodeHash(sr, p));
      }
      fn, sn, i := ShiftRight(fn), ShiftRight(sn), i + 1;
    }
    return sn == 0 && fr == firstRoot && sr == secondRoot;
  }

  lemma {:induction false} ShiftShrinks(x: nat)
    requires x > 0
    ensures ShiftRight(x) < x
  {
  }

  // ------------------------------------------------------- what acceptance says

  /** One level up as often as it takes for the first node's path to be `depth` long. */
  lemma {:induction false} LeftEdge(level: seq<Digest>, depth: nat) returns (up: seq<Digest>)
    requires |level| > 0 && depth <= Depth(|level| - 1)
    ensures |up| > 0 && Depth(|up| - 1) == depth && MerkleRoot(up) == MerkleRoot(level)
    ensures if depth < Depth(|level| - 1) then exists a, b :: up[0] == Parent(a, b) else up == level
    decreases |level|
  {
    hide MerkleRoot, Parent;
    if depth == Depth(|level| - 1) {
      up := level;
    } else {
      var above := PairUp(level);
      PairUpKeepsRoot(level);
      assert |above| - 1 == (|level| - 1) / 2;
      up := LeftEdge(above, depth);
      assert above[0] == Parent(level[0], level[1]);
    }
  }

  lemma {:induction false} ClimbByDepth(x: nat, y: nat, node: Bytes, proof: seq<Bytes>, i: nat)
    requires i <= |proof| && Depth(x) == Depth(y)
    ensures Climb(0, x, node, proof, i) == Climb(0, y, node, proof, i)
    decreases x
  {
    hide Raw, NodeHash;
    if x > 0 && i < |proof| {
      ClimbByDepth(x / 2, y / 2, Raw(NodeHash(node, proof[i])), proof, i + 1);
    }
  }

  /**
   * In a tree of more than 2 to the 32 leaves the shifting loop takes a node above the first leaf for the first
   * leaf, with that node's own path.
   */
  lemma {:induction false} NodeForLeaf(leaves: seq<Digest>) returns (node: Digest, proof: seq<Bytes>)
    requires |leaves| > TWO_TO_32
    ensures exists a, b :: node == Parent(a, b)
    ensures |proof| > 0 && Walk(0, |leaves| - 1, Raw(node), proof, 0) == Some(Raw(MerkleRoot(leaves)))
  {
    hide Climb, Walk, Raw, NodeHash, Depth, MerkleRoot, Parent, LevelPath, PowerOfTwo;
    var sn := |leaves| - 1;
    var rest := ShiftRight(sn);
    PastTheBound(sn);
    var up := LeftEdge(leaves, 1 + Depth(rest));
    node := up[0];
    proof := RawAll(LevelPath(up, 0));
    ClimbComplete(up, 0, |up| - 1, proof, 0);
    AllRaw(LevelPath(up, 0));
    ClimbFirst(|up| - 1, Raw(node), proof, 0);
    var first := Raw(NodeHash(Raw(node), proof[0]));
    HalfDepth(|up| - 1, rest);
    FirstStep(|up| - 1, sn, Raw(node), proof);
    ClimbByDepth((|up| - 1) / 2, rest, first, proof, 1);
    WalkIsClimb(0, rest, first, proof, 1);
  }

  lemma {:induction false} PastTheBound(sn: nat)
    requires sn >= TWO_TO_32
    ensures ShiftRight(sn) < TWO_TO_31 && 1 + Depth(ShiftRight(sn)) < Depth(sn)
  {
    hide Depth, PowerOfTwo;
    PowerThirty();
    NextRound(30);
    NextRound(31);
    DepthBounds(ShiftRight(sn), 31);
    DepthBounds(sn, 32);
  }

  lemma {:induction false} AllRaw(path: seq<Digest>)
    ensures AllDigests(RawAll(path))
  {
  }

  lemma {:induction false} FirstStep(a: nat, sn: nat, node: Bytes, proof: seq<Bytes>)
    requires a > 0 && sn > 0 && |proof| > 0 && |proof[0]| == DIGEST_LENGTH
    ensures Climb(0, a, node, proof, 0) == Climb(0, a / 2, Raw(NodeHash(node, proof[0])), proof, 1)
    ensures Walk(0, sn, node, proof, 0) == Walk(0, ShiftRight(sn), Raw(NodeHash(node, proof[0])), proof, 1)
  {
    hide Raw, NodeHash;
    assert ShiftRight(0) == 0;
  }

  lemma {:induction false} HalfDepth(a: nat, rest: nat)
    requires Depth(a) == 1 + Depth(rest)
    ensures a > 0 && Depth(a / 2) == Depth(rest)
  {
  }

  /**
   * Every list of more than 2 to the 32 leaf hashes has a first root of size 1 that is accepted and is not its
   * first leaf.
   */
  lemma {:induction false} UnsoundPastTheBound(leaves: seq<Digest>, data: Bytes) returns (firstRoot: Bytes, proof: seq<Bytes>)
    requires |leaves| > TWO_TO_32 && leaves[0] == LeafHash(data)
    ensures JsConsistencyAccepted(1, |leaves|, firstRoot, Raw(MerkleRoot(leaves)), proof)
    ensures JsInclusionAccepted(firstRoot, 0, |leaves|, proof, Raw(MerkleRoot(leaves)))
    ensures firstRoot != Raw(leaves[0]) == Raw(MerkleRoot(leaves[..1]))
    ensures exists digest :: firstRoot == Raw(digest)
  {
    hide Walk, WalkBoth, Raw, MerkleRoot, NodeHash, LeafHash;
    var node: Digest;
    node, proof := NodeForLeaf(leaves);
    firstRoot := Raw(node);
    WalkBothFromOne(|leaves| - 1, firstRoot, firstRoot, proof, 0);
    OneLeaf(leaves);
    var a, b :| node == Parent(a, b);
    TagsSeparate(data, Raw(a), Raw(b));
    if firstRoot == Raw(leaves[0]) {
      RawInjective(node, leaves[0]);
      assert false;
    }
  }

  lemma {:induction false} OneLeaf(leaves: seq<Digest>)
    requires |leaves| > 0
    ensures MerkleRoot(leaves[..1]) == leaves[0]
  {
  }

  predicate SoundExtension(leaves: seq<Digest>, m: nat, firstRoot: Bytes, proof: seq<Bytes>)
    requires 0 < m < |leaves|
  {
    JsConsistencyAccepted(m, |leaves|, firstRoot, Raw(MerkleRoot(leaves)), proof) ==> firstRoot == Raw(MerkleRoot(leaves[..m]))
  }

  /**
   * An accepted extension to `n` leaves is one, for every list, first size, first root and proof, exactly for
   * `n` up to 2 to the 32.
   */
  lemma {:induction false} ConsistencySoundExactly(n: nat)
    requires n > 1
    ensures n <= TWO_TO_32 <==>
            forall leaves: seq<Digest>, m: nat, firstRoot: Bytes, proof: seq<Bytes> | |leaves| == n && 0 < m < n ::
              SoundExtension(leaves, m, firstRoot, proof)
  {
    hide JsConsistencyAccepted, ConsistencyAccepted, MerkleRoot, Raw, LeafHash;
    if n <= TWO_TO_32 {
      forall leaves: seq<Digest>, m: nat, firstRoot: Bytes, proof: seq<Bytes> | |leaves| == n && 0 < m < n
        ensures SoundExtension(leaves, m, firstRoot, proof)
      {
        ShiftsAgree(m, n, firstRoot, Raw(MerkleRoot(leaves)), proof);
        if ConsistencyAccepted(m, n, firstRoot, Raw(MerkleRoot(leaves)), proof) {
          ConsistencySound(leaves, m, firstRoot, proof);
        }
      }
    } else {
      var leaves := seq(n, _ => LeafHash([]));
      var firstRoot, proof := UnsoundPastTheBound(leaves, []);
      assert !SoundExtension(leaves, 1, firstRoot, proof);
    }
  }

  predicate SoundInclusion(leaves: seq<Digest>, leaf: Bytes, index: nat, proof: seq<Bytes>)
    requires index < |leaves|
  {
    JsInclusionAccepted(leaf, index, |leaves|, proof, Raw(MerkleRoot(leaves))) ==> leaf == Raw(leaves[index])
  }

  /** So does an accepted inclusion in a tree of `n` leaves. */
  lemma {:induction false} InclusionSoundExactly(n: nat)
    requires n > 0
    ensures n <= TWO_TO_32 <==>
            forall leaves: seq<Digest>, leaf: Bytes, index: nat, proof: seq<Bytes> | |leaves| == n && index < n ::
              SoundInclusion(leaves, leaf, index, proof)
  {
    hide JsInclusionAccepted, InclusionAccepted, JsConsistencyAccepted, MerkleRoot, Raw, LeafHash, RawAll;
    if n <= TWO_TO_32 {
      forall leaves: seq<Digest>, leaf: Bytes, index: nat, proof: seq<Bytes> | |leaves| == n && index < n
        ensures SoundInclusion(leaves, leaf, index, proof)
      {
        InclusionShiftsAgree(leaf, index, n, proof, Raw(MerkleRoot(leaves)));
        InclusionExact(leaves, leaf, index, proof);
      }
    } else {
      var leaves := seq(n, _ => LeafHash([]));
      var leaf, proof := UnsoundPastTheBound(leaves, []);
      assert !SoundInclusion(leaves, leaf, 0, proof);
    }
  }
}
