/**
 * hash.js: byte strings, SHA-256 as an ideal hash, and the domain tags.
 *
 * A byte string is a sequence of symbols. A symbol is a plain code unit or one
 * of the 32 bytes of a digest, and a digest is known by its preimage, so two
 * digests are equal exactly when what was hashed is. Lengths and concatenation
 * are those of the real strings: `NodeHash` hashes two joined byte strings, and
 * only the length of a part tells where it ends.
 */
module Hashing {
  type CodeUnit = u: int | 0 <= u < 0x1_0000

  datatype Symbol = Unit(code: CodeUnit) | HashByte(digest: Digest, index: nat)

  datatype Digest = Sha256(preimage: seq<Symbol>)

  type Bytes = seq<Symbol>
  type Text = seq<Symbol>

  const DIGEST_LENGTH := 32

  const LEAF_PREFIX: Bytes := [Unit(0)]
  const NODE_PREFIX: Bytes := [Unit(1)]
  const RECEIPT_PREFIX: Bytes := [Unit(2)]
  const CHECKPOINT_PREFIX: Bytes := [Unit(3)]

  /** The 32 bytes of a digest. */
  function Raw(digest: Digest): (bytes: Bytes)
    ensures |bytes| == DIGEST_LENGTH
  {
    seq(DIGEST_LENGTH, i requires 0 <= i => HashByte(digest, i))
  }

  function LeafHash(data: Bytes): Digest {
    Sha256(LEAF_PREFIX + data)
  }

  function NodeHash(left: Bytes, right: Bytes): Digest {
    Sha256(NODE_PREFIX + left + right)
  }

  /** The parent of two nodes of a tree. */
  function Parent(left: Digest, right: Digest): Digest {
    NodeHash(Raw(left), Raw(right))
  }

  function EmptyRoot(): Digest {
    Sha256([])
  }

  lemma {:induction false} RawInjective(a: Digest, b: Digest)
    requires Raw(a) == Raw(b)
    ensures a == b
  {
    assert Raw(a)[0].digest == Raw(b)[0].digest;
  }

  lemma {:induction false} LeafHashInjective(a: Bytes, b: Bytes)
    requires LeafHash(a) == LeafHash(b)
    ensures a == b
  {
    assert a == (LEAF_PREFIX + a)[1..] == (LEAF_PREFIX + b)[1..] == b;
  }

  /** A node hash determines its two parts once the length of either part is known. */
  lemma {:induction false} NodeHashInjective(a: Bytes, b: Bytes, c: Bytes, d: Bytes)
    requires NodeHash(a, b) == NodeHash(c, d)
    requires |a| == |c| || |b| == |d|
    ensures a == c && b == d
  {
    var p, q := NODE_PREFIX + a + b, NODE_PREFIX + c + d;
    assert |a| == |c|;
    assert a == p[1..1 + |a|] == q[1..1 + |c|] == c;
    assert b == p[1 + |a|..] == q[1 + |c|..] == d;
  }

  lemma {:induction false} ParentInjective(a: Digest, b: Digest, c: Digest, d: Digest)
    requires Parent(a, b) == Parent(c, d)
    ensures a == c && b == d
  {
    NodeHashInjective(Raw(a), Raw(b), Raw(c), Raw(d));
    RawInjective(a, c);
    RawInjective(b, d);
  }

  /** The tags keep the three kinds of tree hash apart. */
  lemma {:induction false} TagsSeparate(data: Bytes, left: Bytes, right: Bytes)
    ensures LeafHash(data) != NodeHash(left, right)
    ensures LeafHash(data) != EmptyRoot() && NodeHash(left, right) != EmptyRoot()
  {
    assert (LEAF_PREFIX + data)[0] != (NODE_PREFIX + left + right)[0];
  }

  /** Without the length of a part, a node hash does not determine where it splits. */
  lemma {:induction false} NodeHashAmbiguous(a: Bytes, b: Bytes, c: Bytes)
    ensures NodeHash(a + b, c) == NodeHash(a, b + c)
  {
    assert NODE_PREFIX + (a + b) + c == NODE_PREFIX + a + (b + c);
  }
}
