/**
 * merkle.js, merkle.py: the RFC 6962 tree (sections 2.1, 2.1.1 and 2.1.2) by
 * recursive splitting, the same tree by levels, and the equality of the two.
 * Every slice the source takes is a range `lo..hi` of the one leaf list.
 */
module Merkle {
  import opened Hashing

  // ---------------------------------------------------------------- splitting

  predicate IsPowerOfTwo(n: nat) {
    n == 1 || (n > 1 && n % 2 == 0 && IsPowerOfTwo(n / 2))
  }

  /** `k` is the largest power of two strictly less than `n`. */
  predicate IsSplitPoint(n: nat, k: nat) {
    IsPowerOfTwo(k) && k < n <= 2 * k
  }

  function SplitPoint(n: nat): (k: nat)
    requires n > 1
    ensures k < n <= 2 * k
  {
    SplitPointExists(n);
    SplitPointUnique(n);
    var k: nat :| 0 < k < n && IsSplitPoint(n, k);
    k
  }

  lemma {:induction false} SplitPointExists(n: nat)
    requires n > 1
    ensures exists k: nat :: 0 < k < n && IsSplitPoint(n, k)
  {
    if n == 2 {
      assert IsSplitPoint(n, 1);
    } else {
      SplitPointExists((n + 1) / 2);
      var k: nat :| 0 < k < (n + 1) / 2 && IsSplitPoint((n + 1) / 2, k);
      assert IsSplitPoint(n, 2 * k);
    }
  }

  lemma {:induction false} SplitPointUnique(n: nat)
    ensures forall k: nat, k': nat :: IsSplitPoint(n, k) && IsSplitPoint(n, k') ==> k == k'
  {
    forall k: nat, k': nat | IsSplitPoint(n, k) && IsSplitPoint(n, k') ensures k == k' {
      if k < k' {
        PowersOfTwoApart(k, k');
      } else if k' < k {
        PowersOfTwoApart(k', k);
      }
    }
  }

  lemma {:induction false} PowersOfTwoApart(a: nat, b: nat)
    requires IsPowerOfTwo(a) && IsPowerOfTwo(b) && a < b
    ensures 2 * a <= b
  {
    if a > 1 {
      PowersOfTwoApart(a / 2, b / 2);
    }
  }

  lemma {:induction false} SplitPointIs(n: nat, k: nat)
    requires n > 1 && IsSplitPoint(n, k)
    ensures k == SplitPoint(n)
  {
    SplitPointUnique(n);
  }

  lemma {:induction false} SplitPointEven(n: nat)
    requires n > 2
    ensures SplitPoint(n) == 2 * SplitPoint((n + 1) / 2)
  {
    SplitPointIs(n, 2 * SplitPoint((n + 1) / 2));
  }

  /** Where the range `lo..hi` splits. */
  function Mid(lo: nat, hi: nat): (mid: nat)
    requires lo + 1 < hi
    ensures lo < mid < hi
  {
    lo + SplitPoint(hi - lo)
  }

  // ------------------------------------------------------- the recursive tree

  /** The root of the leaves `lo..hi`, of which there is at least one. */
  function RangeRoot(leaves: seq<Digest>, lo: nat, hi: nat): Digest
    requires lo < hi <= |leaves|
    decreases hi - lo
  {
    if lo + 1 == hi then leaves[lo]
    else Parent(RangeRoot(leaves, lo, Mid(lo, hi)), RangeRoot(leaves, Mid(lo, hi), hi))
  }

  function MerkleRoot(leaves: seq<Digest>): Digest {
    if |leaves| == 0 then EmptyRoot() else RangeRoot(leaves, 0, |leaves|)
  }

  /** PATH within the leaves `lo..hi`: the sibling hashes from leaf `index` up to the root. */
  function RangePath(leaves: seq<Digest>, lo: nat, hi: nat, index: nat): seq<Digest>
    requires lo <= index < hi <= |leaves|
    decreases hi - lo
  {
    if lo + 1 == hi then []
    else if index < Mid(lo, hi) then
      RangePath(leaves, lo, Mid(lo, hi), index) + [RangeRoot(leaves, Mid(lo, hi), hi)]
    else
      RangePath(leaves, Mid(lo, hi), hi, index) + [RangeRoot(leaves, lo, Mid(lo, hi))]
  }

  function InclusionPath(leaves: seq<Digest>, index: nat): seq<Digest>
    requires index < |leaves|
  {
    RangePath(leaves, 0, |leaves|, index)
  }

  /** `subProof` within `lo..hi`: `isRootOfOld` says the old root is still a subtree root of the path walked. */
  function SubProof(leaves: seq<Digest>, lo: nat, hi: nat, m: nat, isRootOfOld: bool): seq<Digest>
    requires lo < m <= hi <= |leaves|
    decreases hi - lo
  {
    if m == hi then (if isRootOfOld then [] else [RangeRoot(leaves, lo, hi)])
    else if m <= Mid(lo, hi) then
      SubProof(leaves, lo, Mid(lo, hi), m, isRootOfOld) + [RangeRoot(leaves, Mid(lo, hi), hi)]
    else
      SubProof(leaves, Mid(lo, hi), hi, m, false) + [RangeRoot(leaves, lo, Mid(lo, hi))]
  }

  /** PROOF(m, leaves): that the first `m` leaves are a prefix of `leaves`. */
  function ConsistencyPath(leaves: seq<Digest>, m: nat): seq<Digest>
    requires m <= |leaves|
  {
    if m == 0 || m == |leaves| then [] else SubProof(leaves, 0, |leaves|, m, true)
  }

  /** A range's root depends on nothing but the leaves in it. */
  lemma {:induction false} RangeRootCongruent(a: seq<Digest>, b: seq<Digest>, lo: nat, hi: nat)
    requires lo < hi <= |a| && hi <= |b|
    requires forall i | lo <= i < hi :: a[i] == b[i]
    ensures RangeRoot(a, lo, hi) == RangeRoot(b, lo, hi)
    decreases hi - lo
  {
    if lo + 1 < hi {
      RangeRootCongruent(a, b, lo, Mid(lo, hi));
      RangeRootCongruent(a, b, Mid(lo, hi), hi);
    }
  }

  // ------------------------------------------------------------- the level view

  /** One level up: adjacent nodes are paired, an unpaired last node rises unchanged. */
  predicate Above(level: seq<Digest>, up: seq<Digest>) {
    && |level| <= 2 * |up| <= |level| + 1
    && forall h | 0 <= h < |up| ::
         up[h] == if 2 * h + 1 < |level| then Parent(level[2 * h], level[2 * h + 1]) else level[2 * h]
  }

  ghost function PairUp(level: seq<Digest>): (up: seq<Digest>)
    ensures Above(level, up)
  {
    AboveExists(level);
    var up :| Above(level, up);
    up
  }

  lemma {:induction false} AboveExists(level: seq<Digest>)
    ensures exists up :: Above(level, up)
  {
    var up := seq((|level| + 1) / 2, h requires 0 <= h < (|level| + 1) / 2 =>
      if 2 * h + 1 < |level| then Parent(level[2 * h], level[2 * h + 1]) else level[2 * h]);
    assert Above(level, up);
  }

  lemma {:induction false} AboveUnique(level: seq<Digest>, up: seq<Digest>, up': seq<Digest>)
    requires Above(level, up) && Above(level, up')
    ensures up == up'
  {
  }

  ghost function LevelTable(leaves: seq<Digest>): (table: seq<seq<Digest>>)
    ensures |table| > 0 && table[0] == leaves
    decreases |leaves|
  {
    if |leaves| <= 1 then [leaves] else [leaves] + LevelTable(PairUp(leaves))
  }

  /** The sibling of a node within its level, if it has one. */
  function Sibling(level: seq<Digest>, index: nat): seq<Digest>
    requires index < |level|
  {
    if index % 2 == 1 then [level[index - 1]]
    else if index + 1 < |level| then [level[index + 1]]
    else []
  }

  /** The proof read off the level table: the sibling at each level that has one. */
  ghost function LevelPath(level: seq<Digest>, index: nat): seq<Digest>
    requires index < |level|
    decreases |level|
  {
    if |level| == 1 then []
    else Sibling(level, index) + LevelPath(PairUp(level), index / 2)
  }

  /** `lo..hi` of a level covers whole pairs, and `a..b` are their parents one level up. */
  predicate Covers(size: nat, lo: nat, hi: nat, a: nat, b: nat) {
    lo == 2 * a && lo < hi <= size && (hi == 2 * b || hi == 2 * b - 1 == size)
  }

  lemma {:induction false} CoversSplit(size: nat, lo: nat, hi: nat, a: nat, b: nat)
    requires Covers(size, lo, hi, a, b) && lo + 2 < hi
    ensures a + 1 < b && Mid(lo, hi) == 2 * Mid(a, b)
    ensures Covers(size, lo, Mid(lo, hi), a, Mid(a, b))
    ensures Covers(size, Mid(lo, hi), hi, Mid(a, b), b)
  {
    assert (hi - lo + 1) / 2 == b - a;
    SplitPointEven(hi - lo);
  }

  /** Pairing adjacent nodes keeps the root of every range of whole pairs. */
  lemma {:induction false} RangeRootAbove(level: seq<Digest>, up: seq<Digest>, lo: nat, hi: nat, a: nat, b: nat)
    requires Above(level, up) && Covers(|level|, lo, hi, a, b)
    ensures RangeRoot(level, lo, hi) == RangeRoot(up, a, b)
    decreases hi - lo
  {
    if lo + 2 < hi {
      CoversSplit(|level|, lo, hi, a, b);
      RangeRootAbove(level, up, lo, Mid(lo, hi), a, Mid(a, b));
      RangeRootAbove(level, up, Mid(lo, hi), hi, Mid(a, b), b);
    } else if lo + 2 == hi {
      assert Mid(lo, hi) == lo + 1;
      assert up[a] == Parent(level[2 * a], level[2 * a + 1]);
    }
  }

  lemma {:induction false} PairUpKeepsRoot(level: seq<Digest>)
    ensures MerkleRoot(PairUp(level)) == MerkleRoot(level)
  {
    if |level| > 0 {
      RangeRootAbove(level, PairUp(level), 0, |level|, 0, |PairUp(level)|);
    }
  }

  /** A path continues one level up, after the sibling at this level if there is one. */
  lemma {:induction false} RangePathAbove(level: seq<Digest>, up: seq<Digest>, lo: nat, hi: nat, a: nat, b: nat,
                                          index: nat, h: nat)
    requires Above(level, up) && Covers(|level|, lo, hi, a, b) && lo <= index < hi
    requires 2 * h <= index <= 2 * h + 1
    ensures RangePath(level, lo, hi, index) == Sibling(level, index) + RangePath(up, a, b, h)
    decreases hi - lo
  {
    var first := Sibling(level, index);
    if lo + 2 < hi {
      CoversSplit(|level|, lo, hi, a, b);
      RangeRootAbove(level, up, lo, Mid(lo, hi), a, Mid(a, b));
      RangeRootAbove(level, up, Mid(lo, hi), hi, Mid(a, b), b);
      if index < Mid(lo, hi) {
        RangePathAbove(level, up, lo, Mid(lo, hi), a, Mid(a, b), index, h);
        AppendAssociates(first, RangePath(up, a, Mid(a, b), h), [RangeRoot(up, Mid(a, b), b)]);
      } else {
        RangePathAbove(level, up, Mid(lo, hi), hi, Mid(a, b), b, index, h);
        AppendAssociates(first, RangePath(up, Mid(a, b), b, h), [RangeRoot(up, a, Mid(a, b))]);
      }
    } else {
      PathOfPair(level, lo, hi, index);
      assert a + 1 == b;
    }
  }

  lemma {:induction false} PathOfPair(level: seq<Digest>, lo: nat, hi: nat, index: nat)
    requires lo <= index < hi <= |level| && lo % 2 == 0
    requires hi == lo + 2 || hi == lo + 1 == |level|
    ensures RangePath(level, lo, hi, index) == Sibling(level, index)
  {
    if hi == lo + 2 {
      assert Mid(lo, hi) == lo + 1;
    }
  }

  lemma {:induction false} AppendAssociates<T>(a: seq<T>, b: seq<T>, c: seq<T>)
    ensures a + b + c == a + (b + c)
  {
  }

  /** The table walk and the recursive PATH give the same proof, for every index and size. */
  lemma {:induction false} LevelPathIsInclusionPath(leaves: seq<Digest>, index: nat)
    requires index < |leaves|
    ensures LevelPath(leaves, index) == InclusionPath(leaves, index)
    decreases |leaves|
  {
    if |leaves| > 1 {
      var up := PairUp(leaves);
      RangePathAbove(leaves, up, 0, |leaves|, 0, |up|, index, index / 2);
      LevelPathIsInclusionPath(up, index / 2);
    }
  }

  // -------------------------------------------------- consistency, level by level

  /** While the old size is even, both trees share the level and the proof moves up with it. */
  lemma {:induction false} SubProofAbove(level: seq<Digest>, up: seq<Digest>, lo: nat, hi: nat, a: nat, b: nat,
                                         m: nat, h: nat, isRootOfOld: bool)
    requires Above(level, up) && Covers(|level|, lo, hi, a, b) && lo < m <= hi && m == 2 * h
    ensures SubProof(level, lo, hi, m, isRootOfOld) == SubProof(up, a, b, h, isRootOfOld)
    decreases hi - lo
  {
    RangeRootAbove(level, up, lo, hi, a, b);
    if m < hi {
      CoversSplit(|level|, lo, hi, a, b);
      RangeRootAbove(level, up, lo, Mid(lo, hi), a, Mid(a, b));
      RangeRootAbove(level, up, Mid(lo, hi), hi, Mid(a, b), b);
      if m <= Mid(lo, hi) {
        SubProofAbove(level, up, lo, Mid(lo, hi), a, Mid(a, b), m, h, isRootOfOld);
      } else {
        SubProofAbove(level, up, Mid(lo, hi), hi, Mid(a, b), b, m, h, false);
      }
    }
  }

  /**
   * Once the old size is odd, the proof is the path of the old tree's last node,
   * after that node itself unless it is the old root.
   */
  lemma {:induction false} SubProofIsPath(level: seq<Digest>, lo: nat, hi: nat, last: nat, isRootOfOld: bool)
    requires lo <= last < hi <= |level| && lo % 2 == 0 && last % 2 == 0 && (last + 1 == hi ==> last == lo)
    requires isRootOfOld ==> lo == 0
    ensures SubProof(level, lo, hi, last + 1, isRootOfOld) ==
            (if isRootOfOld && last == 0 then [] else [level[last]]) + RangePath(level, lo, hi, last)
    decreases hi - lo
  {
    var first := if isRootOfOld && last == 0 then [] else [level[last]];
    if lo + 2 < hi {
      var mid := Mid(lo, hi);
      SplitPointEven(hi - lo);
      if last < mid {
        SubProofIsPath(level, lo, mid, last, isRootOfOld);
        AppendAssociates(first, RangePath(level, lo, mid, last), [RangeRoot(level, mid, hi)]);
      } else {
        SubProofIsPath(level, mid, hi, last, false);
        AppendAssociates(first, RangePath(level, mid, hi, last), [RangeRoot(level, lo, mid)]);
      }
    } else if lo + 2 == hi {
      assert Mid(lo, hi) == lo + 1;
    }
  }
}
