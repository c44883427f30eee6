/**
 * merkle.js, `MerkleTree`: the append-only tree. A stack of complete subtrees
 * keeps the root and a level table, rebuilt on demand, serves proofs; both are
 * proved to stand for the recursive tree of `Merkle`.
 */
module MerkleTrees {
  import opened Wrappers
  import opened Hashing
  import opened Merkle

  datatype Subtree = Subtree(size: nat, hash: Digest)

  /** Where the `i`th subtree of the stack starts. */
  function Offset(stack: seq<Subtree>, i: nat): nat
    requires i <= |stack|
  {
    if i == 0 then 0 else Offset(stack, i - 1) + stack[i - 1].size
  }

  /** The subtrees are complete, cover the leaves from the left, and each hash is the root of its slice. */
  predicate Covering(stack: seq<Subtree>, leaves: seq<Digest>) {
    && Offset(stack, |stack|) == |leaves|
    && forall i | 0 <= i < |stack| :: SubtreeOf(stack, i, leaves)
  }

  predicate SubtreeOf(stack: seq<Subtree>, i: nat, leaves: seq<Digest>)
    requires i < |stack|
  {
    && IsPowerOfTwo(stack[i].size)
    && Offset(stack, i + 1) <= |leaves|
    && stack[i].hash == RangeRoot(leaves, Offset(stack, i), Offset(stack, i + 1))
  }

  /** Sizes strictly decrease among the first `n` subtrees. */
  predicate Decreasing(stack: seq<Subtree>, n: nat)
    requires n <= |stack|
  {
    forall i | 0 < i < n :: stack[i].size < stack[i - 1].size
  }

  predicate StackFor(stack: seq<Subtree>, leaves: seq<Digest>) {
    Covering(stack, leaves) && Decreasing(stack, |stack|)
  }

  lemma {:induction false} OffsetOfPrefix(a: seq<Subtree>, b: seq<Subtree>, i: nat)
    requires i <= |a| && i <= |b| && forall j | 0 <= j < i :: a[j] == b[j]
    ensures Offset(a, i) == Offset(b, i)
  {
    if i > 0 {
      OffsetOfPrefix(a, b, i - 1);
    }
  }

  /** Decreasing powers of two: what follows a subtree is smaller than the subtree. */
  lemma {:induction false} TailIsSmaller(stack: seq<Subtree>, leaves: seq<Digest>, i: nat)
    requires StackFor(stack, leaves) && i < |stack|
    ensures Offset(stack, i) < Offset(stack, i + 1) <= |leaves| < Offset(stack, i) + 2 * stack[i].size
    decreases |stack| - i
  {
    assert SubtreeOf(stack, i, leaves);
    if i + 1 < |stack| {
      TailIsSmaller(stack, leaves, i + 1);
      assert SubtreeOf(stack, i + 1, leaves);
      PowersOfTwoApart(stack[i + 1].size, stack[i].size);
    }
  }

  /** One step of the right-to-left fold: the next subtree on the left is where the rest splits. */
  lemma {:induction false} FoldStep(stack: seq<Subtree>, leaves: seq<Digest>, i: nat)
    requires StackFor(stack, leaves) && i + 1 < |stack|
    ensures Offset(stack, i) < Offset(stack, i + 1) < |leaves|
    ensures RangeRoot(leaves, Offset(stack, i), |leaves|)
         == Parent(stack[i].hash, RangeRoot(leaves, Offset(stack, i + 1), |leaves|))
  {
    TailIsSmaller(stack, leaves, i);
    TailIsSmaller(stack, leaves, i + 1);
    assert SubtreeOf(stack, i, leaves);
    SplitPointIs(|leaves| - Offset(stack, i), stack[i].size);
  }

  /** The stack while an append merges: only its last two subtrees may be of equal size. */
  predicate Merging(stack: seq<Subtree>, leaves: seq<Digest>) {
    && 0 < |stack|
    && Covering(stack, leaves)
    && Decreasing(stack, |stack| - 1)
    && (|stack| > 1 ==> stack[|stack| - 1].size <= stack[|stack| - 2].size)
  }

  /** A stack that stands for `leaves`, plus the new leaf as a subtree of its own. */
  lemma {:induction false} PushStartsMerging(stack: seq<Subtree>, leaves: seq<Digest>, hash: Digest)
    requires StackFor(stack, leaves)
    ensures Merging(stack + [Subtree(1, hash)], leaves + [hash])
  {
    var pushed, more := stack + [Subtree(1, hash)], leaves + [hash];
    OffsetOfPrefix(stack, pushed, |stack|);
    forall i | 0 <= i < |pushed| ensures SubtreeOf(pushed, i, more) {
      if i < |stack| {
        assert SubtreeOf(stack, i, leaves);
        OffsetOfPrefix(stack, pushed, i);
        OffsetOfPrefix(stack, pushed, i + 1);
        RangeRootCongruent(leaves, more, Offset(stack, i), Offset(stack, i + 1));
      }
    }
    assert |stack| > 0 ==> SubtreeOf(stack, |stack| - 1, leaves);
  }

  /** What the top two subtrees become when they are of equal size. */
  function Merged(stack: seq<Subtree>): seq<Subtree>
    requires |stack| > 1
  {
    var left, right := stack[|stack| - 2], stack[|stack| - 1];
    stack[..|stack| - 2] + [Subtree(left.size + right.size, Parent(left.hash, right.hash))]
  }

  lemma {:induction false} MergeKeepsMerging(stack: seq<Subtree>, leaves: seq<Digest>)
    requires Merging(stack, leaves) && |stack| > 1
    requires stack[|stack| - 2].size == stack[|stack| - 1].size
    ensures Merging(Merged(stack), leaves)
  {
    var n, merged := |stack|, Merged(stack);
    MergedTop(stack, leaves);
    forall i | 0 <= i < |merged| ensures SubtreeOf(merged, i, leaves) {
      if i < n - 2 {
        assert SubtreeOf(stack, i, leaves);
        OffsetOfPrefix(stack, merged, i);
        OffsetOfPrefix(stack, merged, i + 1);
      }
    }
    if n > 2 {
      assert SubtreeOf(stack, n - 3, leaves) && SubtreeOf(stack, n - 2, leaves);
      PowersOfTwoApart(stack[n - 2].size, stack[n - 3].size);
    }
  }

  lemma {:induction false} MergedTop(stack: seq<Subtree>, leaves: seq<Digest>)
    requires Merging(stack, leaves) && |stack| > 1
    requires stack[|stack| - 2].size == stack[|stack| - 1].size
    ensures Offset(Merged(stack), |stack| - 1) == Offset(stack, |stack|)
    ensures SubtreeOf(Merged(stack), |stack| - 2, leaves)
  {
    var n, merged := |stack|, Merged(stack);
    var s := stack[n - 1].size;
    assert SubtreeOf(stack, n - 2, leaves) && SubtreeOf(stack, n - 1, leaves);
    OffsetOfPrefix(stack, merged, n - 2);
    var lo := Offset(merged, n - 2);
    assert Offset(stack, n - 1) == lo + s && Offset(stack, n) == lo + 2 * s == Offset(merged, n - 1);
    assert IsSplitPoint(2 * s, s);
    SplitPointIs(2 * s, s);
    assert Mid(lo, lo + 2 * s) == lo + s;
  }

  /** The position of the sibling: `i ^ 1`. */
  function Flip(i: nat): nat {
    if i % 2 == 0 then i + 1 else i - 1
  }

  /** `leaves.slice(0, n)`. */
  function Prefix(leaves: seq<Digest>, n: nat): seq<Digest> {
    if n < |leaves| then leaves[..n] else leaves
  }

  /** Each level of the table is the one below, paired up. */
  lemma {:induction false} LevelTableAt(leaves: seq<Digest>, d: nat)
    requires d < |LevelTable(leaves)|
    ensures |LevelTable(leaves)[d]| <= 1 <==> d == |LevelTable(leaves)| - 1
    ensures d + 1 < |LevelTable(leaves)| ==> LevelTable(leaves)[d + 1] == PairUp(LevelTable(leaves)[d])
    ensures |leaves| > 0 ==> |LevelTable(leaves)[d]| > 0
    decreases d
  {
    if d > 0 {
      LevelTableAt(PairUp(leaves), d - 1);
    }
  }

  class MerkleTree {
    var leaves: seq<Digest>
    var stack: seq<Subtree>
    var levels: Option<seq<seq<Digest>>>

    ghost predicate Valid()
      reads this
    {
      StackFor(stack, leaves) && (levels.Some? ==> levels.value == LevelTable(leaves))
    }

    constructor (initial: seq<Digest>)
      ensures Valid() && leaves == initial
    {
      leaves, stack, levels := [], [], None;
      new;
      for i := 0 to |initial|
        invariant Valid() && leaves == initial[..i]
      {
        var _ := Append(initial[i]);
      }
      assert initial[..|initial|] == initial;
    }

    method Append(hash: Digest) returns (index: nat)
      requires Valid()
      modifies this
      ensures Valid() && leaves == old(leaves) + [hash]
      ensures index == |old(leaves)|
    {
      PushStartsMerging(stack, leaves, hash);
      leaves := leaves + [hash];
      levels := None;
      stack := stack + [Subtree(1, hash)];
      while |stack| > 1
        invariant Merging(stack, leaves)
        invariant leaves == old(leaves) + [hash] && levels == None
        decreases |stack|
      {
        var right, left := stack[|stack| - 1], stack[|stack| - 2];
        if left.size != right.size {
          break;
        }
        MergeKeepsMerging(stack, leaves);
        stack := stack[..|stack| - 2] + [Subtree(left.size + right.size, Parent(left.hash, right.hash))];
      }
      index := |leaves| - 1;
    }

    method Root() returns (root: Digest)
      requires Valid()
      ensures root == MerkleRoot(leaves)
    {
      if |stack| == 0 {
        return EmptyRoot();
      }
      TailIsSmaller(stack, leaves, |stack| - 1);
      assert SubtreeOf(stack, |stack| - 1, leaves);
      root := stack[|stack| - 1].hash;
      var i := |stack| - 1;
      while i > 0
        invariant 0 <= i < |stack| && Offset(stack, i) < |leaves|
        invariant root == RangeRoot(leaves, Offset(stack, i), |leaves|)
      {
        i := i - 1;
        FoldStep(stack, leaves, i);
        root := Parent(stack[i].hash, root);
      }
    }

    /** The root the tree had when it held exactly `size` leaves. */
    method RootAt(size: int) returns (root: Result<Digest, string>)
      requires Valid()
      ensures root == if 0 <= size <= |leaves| then Ok(MerkleRoot(leaves[..size])) else Err("RangeError")
    {
      if size < 0 || size > |leaves| {
        return Err("RangeError");
      }
      return Ok(MerkleRoot(leaves[..size]));
    }

    method BuildLevels() returns (table: seq<seq<Digest>>)
      requires Valid()
      modifies `levels
      ensures Valid() && table == LevelTable(leaves)
    {
      if levels.Some? {
        return levels.value;
      }
      table := [leaves];
      while |table[|table| - 1]| > 1
        invariant |table| > 0
        invariant LevelTable(leaves) == table[..|table| - 1] + LevelTable(table[|table| - 1])
        decreases |table[|table| - 1]|
      {
        var below := table[|table| - 1];
        var above: seq<Digest> := [];
        var i := 0;
        while i < |below|
          invariant i == 2 * |above| && i <= |below| + 1
          invariant forall h | 0 <= h < |above| ::
            above[h] == (if 2 * h + 1 < |below| then Parent(below[2 * h], below[2 * h + 1]) else below[2 * h])
        {
          above := above + [if i + 1 < |below| then Parent(below[i], below[i + 1]) else below[i]];
          i := i + 2;
        }
        AboveUnique(below, above, PairUp(below));
        ghost var before := table[..|table| - 1];
        table := table + [above];
        assert table[..|table| - 1] == before + [below];
        assert LevelTable(below) == [below] + LevelTable(above);
      }
      assert LevelTable(leaves) == table;
      levels := Some(table);
    }

    method InclusionProof(index: int, treeSize: nat) returns (proof: Result<seq<Digest>, string>)
      requires Valid()
      modifies `levels
      ensures Valid()
      ensures var tree := if treeSize == |leaves| then leaves else Prefix(leaves, treeSize);
        proof == if 0 <= index < |tree| then Ok(InclusionPath(tree, index)) else Err("RangeError")
    {
      if treeSize != |leaves| {
        var tree := Prefix(leaves, treeSize);
        if index < 0 || index >= |tree| {
          return Err("RangeError");
        }
        return Ok(InclusionPath(tree, index));
      }
      if index < 0 || index >= |leaves| {
        return Err("RangeError");
      }
      var table := BuildLevels();
      var path: seq<Digest> := [];
      var i: nat := index;
      for depth := 0 to |table| - 1
        invariant Valid() && depth < |table| && i < |table[depth]|
        invariant path + LevelPath(table[depth], i) == LevelPath(leaves, index)
      {
        var level := table[depth];
        LevelTableAt(leaves, depth);
        var sibling := Flip(i);
        ghost var before := path;
        if sibling < |level| {
          path := path + [level[sibling]];
        }
        assert path == before + Sibling(level, i);
        AppendAssociates(before, Sibling(level, i), LevelPath(PairUp(level), i / 2));
        i := i / 2;
      }
      LevelTableAt(leaves, |table| - 1);
      LevelPathIsInclusionPath(leaves, index);
      assert path + [] == path;
      return Ok(path);
    }

    method ConsistencyProof(fromSize: int, toSize: nat) returns (proof: Result<seq<Digest>, string>)
      requires Valid()
      ensures var tree := Prefix(leaves, toSize);
        proof == if 0 <= fromSize <= |tree| then Ok(ConsistencyPath(tree, fromSize)) else Err("RangeError")
    {
      var tree := Prefix(leaves, toSize);
      if fromSize < 0 || fromSize > |tree| {
        return Err("RangeError");
      }
      return Ok(ConsistencyPath(tree, fromSize));
    }
  }
}
