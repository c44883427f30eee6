/** What a root says about its leaves: everything, given the size or the domain tags. */
module MerkleUnique {
  import opened Hashing
  import opened Merkle
  import opened MerkleProofs

  /** Lists of one length with one root are one list. */
  lemma {:induction false} RootDeterminesLeaves(a: seq<Digest>, b: seq<Digest>)
    requires |a| == |b| && MerkleRoot(a) == MerkleRoot(b)
    ensures a == b
  {
    forall i | 0 <= i < |a| ensures a[i] == b[i] {
      var proof := RawAll(InclusionPath(b, i));
      InclusionExact(b, Raw(b[i]), i, proof);
      InclusionExact(a, Raw(b[i]), i, proof);
      RawInjective(a[i], b[i]);
    }
  }

  ghost predicate IsLeafHash(d: Digest) {
    exists data :: d == LeafHash(data)
  }

  ghost predicate LeafHashes(leaves: seq<Digest>) {
    forall i | 0 <= i < |leaves| :: IsLeafHash(leaves[i])
  }

  lemma {:induction false} ParentIsNoLeaf(left: Digest, right: Digest)
    ensures !IsLeafHash(Parent(left, right)) && Parent(left, right) != EmptyRoot()
  {
    forall data ensures Parent(left, right) != LeafHash(data) && Parent(left, right) != EmptyRoot() {
      TagsSeparate(data, Raw(left), Raw(right));
    }
  }

  lemma {:induction false} RangeOfLeaves(leaves: seq<Digest>, lo: nat, hi: nat)
    requires lo < hi <= |leaves| && LeafHashes(leaves)
    ensures IsLeafHash(RangeRoot(leaves, lo, hi)) <==> lo + 1 == hi
    ensures RangeRoot(leaves, lo, hi) != EmptyRoot()
  {
    if lo + 1 == hi {
      var data :| leaves[lo] == LeafHash(data);
      TagsSeparate(data, [], []);
    } else {
      ParentIsNoLeaf(RangeRoot(leaves, lo, Mid(lo, hi)), RangeRoot(leaves, Mid(lo, hi), hi));
    }
  }

  lemma {:induction false} RangesEqual(a: seq<Digest>, lo: nat, hi: nat, b: seq<Digest>, lo': nat, hi': nat)
    requires lo < hi <= |a| && lo' < hi' <= |b| && LeafHashes(a) && LeafHashes(b)
    requires RangeRoot(a, lo, hi) == RangeRoot(b, lo', hi')
    ensures hi - lo == hi' - lo'
    ensures forall i | lo <= i < hi :: a[i] == b[i - lo + lo']
    decreases hi - lo
  {
    RangeOfLeaves(a, lo, hi);
    RangeOfLeaves(b, lo', hi');
    if lo + 1 < hi {
      var m, m' := Mid(lo, hi), Mid(lo', hi');
      ParentInjective(RangeRoot(a, lo, m), RangeRoot(a, m, hi), RangeRoot(b, lo', m'), RangeRoot(b, m', hi'));
      RangesEqual(a, lo, m, b, lo', m');
      RangesEqual(a, m, hi, b, m', hi');
      forall i | lo <= i < hi ensures a[i] == b[i - lo + lo'] {
        if m <= i {
          assert i - m + m' == i - lo + lo';
        }
      }
    }
  }

  /** For lists of leaf hashes the root alone is enough: the domain tags fix the size as well. */
  lemma {:induction false} TaggedRootDeterminesLeaves(a: seq<Digest>, b: seq<Digest>)
    requires LeafHashes(a) && LeafHashes(b) && MerkleRoot(a) == MerkleRoot(b)
    ensures a == b
  {
    if |a| > 0 {
      RangeOfLeaves(a, 0, |a|);
    }
    if |b| > 0 {
      RangeOfLeaves(b, 0, |b|);
    }
    if |a| > 0 && |b| > 0 {
      RangesEqual(a, 0, |a|, b, 0, |b|);
      assert forall i | 0 <= i < |a| :: a[i] == b[i - 0 + 0];
    }
  }
}
