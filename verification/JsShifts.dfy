/**
 * merkle.js, the 32-bit shifts: `splitPoint` doubles with `<<`, which is signed, and the
 * verifiers halve with `>>>`, which keeps 32 bits. Up to which sizes they are the
 * unbounded algorithms, exactly.
 */
module JsShifts {
  import opened Wrappers
  import opened Hashing
  import opened Merkle
  import opened MerkleProofs

  const TWO_TO_30 := 0x4000_0000
  const TWO_TO_31 := 0x8000_0000
  const TWO_TO_32 := 0x1_0000_0000

  // ------------------------------------------------------------------ splitPoint

  /** `k << 1` */
  function ShiftLeft(k: int): int {
    var bits := (2 * k) % TWO_TO_32;
    if bits < TWO_TO_31 then bits else bits - TWO_TO_32
  }

  /** `k` after `i` rounds of the loop, if it has not ended before. */
  function Round(i: nat): int {
    if i == 0 then 1 else ShiftLeft(Round(i - 1))
  }

  /** The loop ends after `i` rounds. */
  predicate EndsAfter(n: nat, i: nat) {
    ShiftLeft(Round(i)) >= n && forall j | 0 <= j < i :: ShiftLeft(Round(j)) < n
  }

  function PowerOfTwo(i: nat): (p: nat)
    ensures p > 0
  {
    if i == 0 then 1 else 2 * PowerOfTwo(i - 1)
  }

  lemma {:induction false} PowersArePowers(i: nat)
    ensures IsPowerOfTwo(PowerOfTwo(i))
  {
    if i > 0 {
      PowersArePowers(i - 1);
      assert PowerOfTwo(i) / 2 == PowerOfTwo(i - 1);
    }
  }

  lemma {:induction false} PowersGrow(i: nat, j: nat)
    requires i <= j
    ensures PowerOfTwo(i) <= PowerOfTwo(j)
    decreases j
  {
    if i < j {
      PowersGrow(i, j - 1);
    }
  }

  lemma {:induction false} PowerThirty()
    ensures PowerOfTwo(30) == TWO_TO_30
  {
    assert PowerOfTwo(5) == 32;
    assert PowerOfTwo(10) == 1024;
    assert PowerOfTwo(15) == 32768;
    assert PowerOfTwo(20) == 0x10_0000;
    assert PowerOfTwo(25) == 0x200_0000;
  }

  /** Up to round 30 the shift doubles. */
  lemma {:induction false} RoundIsPower(i: nat)
    requires i <= 30
    ensures Round(i) == PowerOfTwo(i) <= TWO_TO_30
  {
    hide PowerOfTwo;
    PowersGrow(i, 30);
    PowerThirty();
    if i == 0 {
      NoRound();
    } else {
      RoundIsPower(i - 1);
      PowersGrow(i - 1, 29);
      Doubles(i);
    }
  }

  lemma {:induction false} NoRound()
    ensures Round(0) == 1 == PowerOfTwo(0)
  {
  }

  lemma {:induction false} Doubles(i: nat)
    requires 0 < i <= 30 && Round(i - 1) == PowerOfTwo(i - 1) && PowerOfTwo(i) <= TWO_TO_30
    ensures Round(i) == PowerOfTwo(i)
  {
  }

  lemma {:induction false} Overflows()
    ensures ShiftLeft(TWO_TO_30) == -TWO_TO_31 && ShiftLeft(-TWO_TO_31) == 0 && ShiftLeft(0) == 0
    ensures 0 < TWO_TO_31
  {
  }

  lemma {:induction false} RoundAfter(i: nat)
    requires i > 0
    ensures Round(i) == ShiftLeft(Round(i - 1))
  {
    hide ShiftLeft;
  }

  /** From round 31 on the sign bit and then every bit is lost. */
  lemma {:induction false} RoundIsLost(i: nat)
    requires i > 30
    ensures Round(i) <= 0 && ShiftLeft(Round(i)) <= 0
    decreases i
  {
    hide PowerOfTwo, Round, ShiftLeft;
    Overflows();
    RoundAfter(i);
    if i == 31 {
      RoundIsPower(30);
      PowerThirty();
    } else {
      RoundIsLost(i - 1);
      LostStays(i);
    }
  }

  lemma {:induction false} LostStays(i: nat)
    requires i > 31
    ensures Round(i) == 0
    decreases i
  {
    hide PowerOfTwo, Round, ShiftLeft;
    Overflows();
    RoundAfter(i);
    if i == 32 {
      RoundAfter(31);
      RoundIsPower(30);
      PowerThirty();
    } else {
      LostStays(i - 1);
    }
  }

  /** When the loop ends within the first 30 rounds it ends at the split point. */
  lemma {:induction false} EndsAtSplit(n: nat, i: nat)
    requires n > 1 && i < 30 && EndsAfter(n, i)
    ensures Round(i) == SplitPoint(n)
  {
    hide Round, PowerOfTwo, SplitPoint;
    RoundIsPower(i);
    RoundIsPower(i + 1);
    NextRound(i);
    PowersArePowers(i);
    if i > 0 {
      NextRound(i - 1);
    }
    SplitPointIs(n, Round(i));
  }

  lemma {:induction false} NextRound(i: nat)
    ensures Round(i + 1) == ShiftLeft(Round(i)) && PowerOfTwo(i + 1) == 2 * PowerOfTwo(i)
    ensures i == 0 ==> Round(i) == 1
  {
  }

  /** The first round, if any up to `m`, at which the loop ends. */
  lemma {:induction false} EndsByThen(n: nat, m: nat) returns (i: nat)
    requires ShiftLeft(Round(m)) >= n
    ensures i <= m && EndsAfter(n, i)
  {
    hide Round, ShiftLeft;
    i := 0;
    while ShiftLeft(Round(i)) < n
      invariant i <= m && forall j | 0 <= j < i :: ShiftLeft(Round(j)) < n
      decreases m - i
    {
      i := i + 1;
    }
  }

  /** `splitPoint` terminates, with the right answer, exactly for sizes up to 2 to the 30. */
  lemma {:induction false} SplitPointTerminates(n: nat)
    requires n > 1
    ensures (exists i :: EndsAfter(n, i)) <==> n <= TWO_TO_30
    ensures forall i | EndsAfter(n, i) :: Round(i) == SplitPoint(n)
  {
    hide Round, PowerOfTwo, SplitPoint, ShiftLeft;
    if n <= TWO_TO_30 {
      RoundIsPower(30);
      PowerThirty();
      NextRound(29);
      var i := EndsByThen(n, 29);
    }
    forall i | EndsAfter(n, i) ensures i < 30 && n <= TWO_TO_30 && Round(i) == SplitPoint(n) {
      EndsEarly(n, i);
      EndsAtSplit(n, i);
    }
  }

  lemma {:induction false} EndsEarly(n: nat, i: nat)
    requires n > 1 && EndsAfter(n, i)
    ensures i < 30 && n <= TWO_TO_30
  {
    hide Round, PowerOfTwo, ShiftLeft;
    NextRound(i);
    if i >= 30 {
      RoundIsLost(i + 1);
      assert false;
    }
    RoundIsPower(i + 1);
  }

  method JsSplitPoint(n: nat) returns (k: int)
    requires 1 < n <= TWO_TO_30
    ensures k == SplitPoint(n)
  {
    hide Round, PowerOfTwo, SplitPoint, ShiftLeft;
    SplitPointTerminates(n);
    ghost var last: nat :| EndsAfter(n, last);
    ghost var i: nat := 0;
    NoRound();
    k := 1;
    while ShiftLeft(k) < n
      invariant k == Round(i) && i <= last && forall j | 0 <= j < i :: ShiftLeft(Round(j)) < n
      decreases last - i
    {
      NextRound(i);
      k := ShiftLeft(k);
      i := i + 1;
    }
    assert EndsAfter(n, i);
  }

  // ------------------------------------------------------------------- verifiers

  /** `x >>> 1` */
  function ShiftRight(x: nat): nat {
    x % TWO_TO_32 / 2
  }

  /** `while (fn !== 0 && (fn & 1) === 0) { fn >>>= 1; sn >>>= 1; }` */
  function Strip(fn: nat, sn: nat): (nat, nat)
    decreases fn
  {
    if fn != 0 && fn % 2 == 0 then Strip(ShiftRight(fn), ShiftRight(sn)) else (fn, sn)
  }

  /** The loop of `verifyInclusion` from element `i` on: the root it computes, if it does not return false. */
  function Walk(fn: nat, sn: nat, acc: Bytes, proof: seq<Bytes>, i: nat): Option<Bytes>
    requires i <= |proof|
    decreases |proof| - i
  {
    if i == |proof| then (if sn == 0 then Some(acc) else None)
    else if sn == 0 || |proof[i]| != DIGEST_LENGTH then None
    else if fn % 2 == 1 || fn == sn then
      var (f, s) := Strip(fn, sn);
      Walk(ShiftRight(f), ShiftRight(s), Raw(NodeHash(proof[i], acc)), proof, i + 1)
    else Walk(ShiftRight(fn), ShiftRight(sn), Raw(NodeHash(acc, proof[i])), proof, i + 1)
  }

  /** Climbing first past the levels where the last node has no sibling, and then using it up. */
  lemma {:induction false} ClimbStrips(fn: nat, sn: nat, node: Bytes, proof: seq<Bytes>, i: nat)
    requires 0 < fn <= sn < TWO_TO_32 && i < |proof| && |proof[i]| == DIGEST_LENGTH
    requires fn % 2 == 1 || fn == sn
    ensures var (f, s) := Strip(fn, sn);
      && f <= s <= sn && f % 2 == 1
      && Climb(fn, sn, node, proof, i) == Climb(f / 2, s / 2, Raw(NodeHash(proof[i], node)), proof, i + 1)
    decreases fn
  {
    hide Climb, Strip, ShiftRight, Raw, NodeHash;
    Stripped(fn, sn);
    if fn % 2 == 0 {
      ClimbUp(fn, sn, node, proof, i);
      ClimbStrips(fn / 2, sn / 2, node, proof, i);
    } else {
      ClimbRight(fn, sn, node, proof, i);
    }
  }

  lemma {:induction false} Stripped(fn: nat, sn: nat)
    requires 0 < fn < TWO_TO_32 && sn < TWO_TO_32
    ensures Strip(fn, sn) == if fn % 2 == 0 then Strip(fn / 2, sn / 2) else (fn, sn)
  {
    hide ShiftRight;
    Halves(fn);
    Halves(sn);
  }

  lemma {:induction false} ClimbUp(fn: nat, sn: nat, node: Bytes, proof: seq<Bytes>, i: nat)
    requires 0 < fn == sn && fn % 2 == 0 && i <= |proof|
    ensures Climb(fn, sn, node, proof, i) == Climb(fn / 2, sn / 2, node, proof, i)
  {
    hide Raw, NodeHash;
  }

  lemma {:induction false} ClimbRight(fn: nat, sn: nat, node: Bytes, proof: seq<Bytes>, i: nat)
    requires fn <= sn && fn % 2 == 1 && i < |proof| && |proof[i]| == DIGEST_LENGTH
    ensures Climb(fn, sn, node, proof, i) == Climb(fn / 2, sn / 2, Raw(NodeHash(proof[i], node)), proof, i + 1)
  {
    hide Raw, NodeHash;
  }

  /** With both numbers below 2 to the 32, the loop is the climb. */
  lemma {:induction false} WalkIsClimb(fn: nat, sn: nat, acc: Bytes, proof: seq<Bytes>, i: nat)
    requires fn <= sn < TWO_TO_32 && i <= |proof|
    ensures Walk(fn, sn, acc, proof, i) == Climb(fn, sn, acc, proof, i)
    decreases |proof| - i
  {
    hide Climb, Walk, Strip, ShiftRight, Raw, NodeHash;
    if sn == 0 {
      ClimbEnds(fn, sn, acc, proof, i);
    } else if i == |proof| || |proof[i]| != DIGEST_LENGTH {
      ClimbStuck(fn, sn, acc, proof, i);
      WalkStuck(fn, sn, acc, proof, i);
    } else if fn % 2 == 1 || fn == sn {
      ClimbStrips(fn, sn, acc, proof, i);
      var (f, s) := Strip(fn, sn);
      WalkIsClimb(f / 2, s / 2, Raw(NodeHash(proof[i], acc)), proof, i + 1);
      Halves(f);
      Halves(s);
      WalkRight(fn, sn, f, s, acc, proof, i);
    } else {
      ClimbLeft(fn, sn, acc, proof, i);
      WalkIsClimb(fn / 2, sn / 2, Raw(NodeHash(acc, proof[i])), proof, i + 1);
      Halves(fn);
      Halves(sn);
      WalkLeft(fn, sn, acc, proof, i);
    }
  }

  lemma {:induction false} WalkStuck(fn: nat, sn: nat, acc: Bytes, proof: seq<Bytes>, i: nat)
    requires sn != 0 && i <= |proof| && (i == |proof| || |proof[i]| != DIGEST_LENGTH)
    ensures Walk(fn, sn, acc, proof, i) == None
  {
  }

  lemma {:induction false} WalkRight(fn: nat, sn: nat, f: nat, s: nat, acc: Bytes, proof: seq<Bytes>, i: nat)
    requires sn != 0 && i < |proof| && |proof[i]| == DIGEST_LENGTH && (fn % 2 == 1 || fn == sn)
    requires Strip(fn, sn) == (f, s)
    ensures Walk(fn, sn, acc, proof, i)
         == Walk(ShiftRight(f), ShiftRight(s), Raw(NodeHash(proof[i], acc)), proof, i + 1)
  {
    hide Strip, Raw, NodeHash, ShiftRight;
  }

  lemma {:induction false} WalkLeft(fn: nat, sn: nat, acc: Bytes, proof: seq<Bytes>, i: nat)
    requires sn != 0 && i < |proof| && |proof[i]| == DIGEST_LENGTH && fn % 2 == 0 && fn != sn
    ensures Walk(fn, sn, acc, proof, i)
         == Walk(ShiftRight(fn), ShiftRight(sn), Raw(NodeHash(acc, proof[i])), proof, i + 1)
  {
    hide Strip, Raw, NodeHash, ShiftRight;
  }

  lemma {:induction false} Halves(x: nat)
    requires x < TWO_TO_32
    ensures ShiftRight(x) == x / 2
  {
  }

  lemma {:induction false} ClimbEnds(fn: nat, sn: nat, node: Bytes, proof: seq<Bytes>, i: nat)
    requires fn <= sn == 0 && i <= |proof|
    ensures Climb(fn, sn, node, proof, i) == Walk(fn, sn, node, proof, i)
  {
    hide Strip, Raw, NodeHash;
  }

  lemma {:induction false} ClimbLeft(fn: nat, sn: nat, node: Bytes, proof: seq<Bytes>, i: nat)
    requires fn < sn && fn % 2 == 0 && i < |proof| && |proof[i]| == DIGEST_LENGTH
    ensures Climb(fn, sn, node, proof, i) == Climb(fn / 2, sn / 2, Raw(NodeHash(node, proof[i])), proof, i + 1)
  {
  }

  // ---------------------------------------------------------- past 2 to the 32

  function Depth(sn: nat): nat {
    if sn == 0 then 0 else 1 + Depth(sn / 2)
  }

  predicate AllDigests(proof: seq<Bytes>) {
    forall i | 0 <= i < |proof| :: |proof[i]| == DIGEST_LENGTH
  }

  /** The first leaf's proof is used up exactly when it is as long as the tree is deep. */
  lemma {:induction false} ClimbFirst(sn: nat, node: Bytes, proof: seq<Bytes>, i: nat)
    requires i <= |proof| && AllDigests(proof)
    ensures Climb(0, sn, node, proof, i).Some? <==> |proof| - i == Depth(sn)
    decreases sn
  {
    if sn > 0 && i < |proof| {
      ClimbFirst(sn / 2, Raw(NodeHash(node, proof[i])), proof, i + 1);
    }
  }

  lemma {:induction false} DepthBounds(sn: nat, i: nat)
    ensures sn < PowerOfTwo(i) ==> Depth(sn) <= i
    ensures sn >= PowerOfTwo(i) ==> Depth(sn) > i
    decreases i
  {
    if i > 0 && sn > 0 {
      DepthBounds(sn / 2, i - 1);
    }
  }

  /** Past the bound the loop accepts a shorter proof: the top bits of the size are gone after one shift. */
  lemma {:induction false} WalkTooShort(sn: nat, node: Bytes, proof: seq<Bytes>)
    requires sn >= TWO_TO_32 && AllDigests(proof) && |proof| == 1 + Depth(ShiftRight(sn))
    ensures Walk(0, sn, node, proof, 0).Some? && Climb(0, sn, node, proof, 0).None?
  {
    hide Climb, Raw, NodeHash, Depth, PowerOfTwo;
    var rest := ShiftRight(sn);
    WalkIsClimb(0, rest, Raw(NodeHash(node, proof[0])), proof, 1);
    ClimbFirst(rest, Raw(NodeHash(node, proof[0])), proof, 1);
    ClimbFirst(sn, node, proof, 0);
    PowerThirty();
    NextRound(30);
    NextRound(31);
    DepthBounds(rest, 31);
    DepthBounds(sn, 32);
  }

  /** The verifier of a tree of `n` leaves is the unbounded one exactly for `n` up to 2 to the 32. */
  lemma {:induction false} VerifierExact(n: nat)
    requires n > 0
    ensures n <= TWO_TO_32 <==>
            forall leaf: Bytes, index: nat, proof: seq<Bytes> | index < n :: SameVerdict(leaf, index, n, proof)
  {
    hide Walk, Climb, Depth;
    if n <= TWO_TO_32 {
      forall leaf: Bytes, index: nat, proof: seq<Bytes> | index < n ensures SameVerdict(leaf, index, n, proof) {
        WalkIsClimb(index, n - 1, leaf, proof, 0);
      }
    } else {
      var proof := seq(1 + Depth(ShiftRight(n - 1)), _ => Raw(EmptyRoot()));
      WalkTooShort(n - 1, [], proof);
      assert !SameVerdict([], 0, n, proof);
    }
  }

  predicate SameVerdict(leaf: Bytes, index: nat, n: nat, proof: seq<Bytes>)
    requires index < n
  {
    Walk(index, n - 1, leaf, proof, 0) == Climb(index, n - 1, leaf, proof, 0)
  }

  // ----------------------------------------------------------------- consistency

  /** `while ((fn & 1) === 1) { fn >>>= 1; sn >>>= 1; }` */
  function StripOnes(fn: nat, sn: nat): (nat, nat)
    decreases fn
  {
    if fn % 2 == 1 then StripOnes(ShiftRight(fn), ShiftRight(sn)) else (fn, sn)
  }

  /** The loop of `verifyConsistency` from element `i` on: both roots it computes, if it does not return false. */
  function WalkBoth(fn: nat, sn: nat, fr: Bytes, sr: Bytes, proof: seq<Bytes>, i: nat): Option<(Bytes, Bytes)>
    requires i <= |proof|
    decreases |proof| - i
  {
    if i == |proof| then (if sn == 0 then Some((fr, sr)) else None)
    else if sn == 0 || |proof[i]| != DIGEST_LENGTH then None
    else if fn % 2 == 1 || fn == sn then
      var (f, s) := Strip(fn, sn);
      WalkBoth(ShiftRight(f), ShiftRight(s), Raw(NodeHash(proof[i], fr)), Raw(NodeHash(proof[i], sr)), proof, i + 1)
    else WalkBoth(ShiftRight(fn), ShiftRight(sn), fr, Raw(NodeHash(sr, proof[i])), proof, i + 1)
  }

  /** What `verifyConsistency` answers for 0 < first size < second size, from the sizes lowered by one. */
  predicate JsExtension(fn: nat, sn: nat, firstRoot: Bytes, secondRoot: Bytes, proof: seq<Bytes>) {
    var (f, s) := StripOnes(fn, sn);
    && |proof| > 0
    && var seed, i := if f != 0 then proof[0] else firstRoot, if f != 0 then 1 else 0;
       WalkBoth(f, s, seed, seed, proof, i) == Some((firstRoot, secondRoot))
  }

  /** Both climbs at once. */
  function Climbs(fn: nat, sn: nat, fr: Bytes, sr: Bytes, proof: seq<Bytes>, i: nat): Option<(Bytes, Bytes)>
    requires fn <= sn && i <= |proof|
  {
    var first, second := ClimbOld(fn, sn, fr, proof, i), Climb(fn, sn, sr, proof, i);
    if first.Some? && second.Some? then Some((first.value, second.value)) else None
  }

  lemma {:induction false} ClimbsUp(fn: nat, sn: nat, fr: Bytes, sr: Bytes, proof: seq<Bytes>, i: nat)
    requires 0 < fn == sn && fn % 2 == 0 && i <= |proof|
    ensures Climbs(fn, sn, fr, sr, proof, i) == Climbs(fn / 2, sn / 2, fr, sr, proof, i)
  {
    hide Raw, NodeHash;
  }

  lemma {:induction false} ClimbsRight(fn: nat, sn: nat, fr: Bytes, sr: Bytes, proof: seq<Bytes>, i: nat)
    requires fn <= sn && fn % 2 == 1 && i < |proof| && |proof[i]| == DIGEST_LENGTH
    ensures Climbs(fn, sn, fr, sr, proof, i)
         == Climbs(fn / 2, sn / 2, Raw(NodeHash(proof[i], fr)), Raw(NodeHash(proof[i], sr)), proof, i + 1)
  {
    hide Raw, NodeHash;
  }

  lemma {:induction false} ClimbsLeft(fn: nat, sn: nat, fr: Bytes, sr: Bytes, proof: seq<Bytes>, i: nat)
    requires fn < sn && fn % 2 == 0 && i < |proof| && |proof[i]| == DIGEST_LENGTH
    ensures Climbs(fn, sn, fr, sr, proof, i) == Climbs(fn / 2, sn / 2, fr, Raw(NodeHash(sr, proof[i])), proof, i + 1)
  {
    hide Raw, NodeHash;
  }

  lemma {:induction false} ClimbsStrip(fn: nat, sn: nat, fr: Bytes, sr: Bytes, proof: seq<Bytes>, i: nat)
    requires 0 < fn <= sn < TWO_TO_32 && i < |proof| && |proof[i]| == DIGEST_LENGTH
    requires fn % 2 == 1 || fn == sn
    ensures var (f, s) := Strip(fn, sn);
      && f <= s <= sn && f % 2 == 1
      && Climbs(fn, sn, fr, sr, proof, i)
         == Climbs(f / 2, s / 2, Raw(NodeHash(proof[i], fr)), Raw(NodeHash(proof[i], sr)), proof, i + 1)
    decreases fn
  {
    hide Climbs, Strip, ShiftRight, Raw, NodeHash;
    Stripped(fn, sn);
    if fn % 2 == 0 {
      ClimbsUp(fn, sn, fr, sr, proof, i);
      ClimbsStrip(fn / 2, sn / 2, fr, sr, proof, i);
    } else {
      ClimbsRight(fn, sn, fr, sr, proof, i);
    }
  }

  lemma {:induction false} ClimbsStuck(fn: nat, sn: nat, fr: Bytes, sr: Bytes, proof: seq<Bytes>, i: nat)
    requires fn <= sn != 0 && i <= |proof| && (i == |proof| || |proof[i]| != DIGEST_LENGTH)
    ensures Climbs(fn, sn, fr, sr, proof, i) == None == WalkBoth(fn, sn, fr, sr, proof, i)
  {
    hide Climb, ClimbOld, Strip, Raw, NodeHash;
    ClimbStuck(fn, sn, sr, proof, i);
    ClimbStuck(fn, sn, fr, proof, i);
  }

  lemma {:induction false} ClimbsEnd(fr: Bytes, sr: Bytes, proof: seq<Bytes>, i: nat)
    requires i <= |proof|
    ensures Climbs(0, 0, fr, sr, proof, i) == WalkBoth(0, 0, fr, sr, proof, i)
  {
    hide Strip, Raw, NodeHash;
  }

  lemma {:induction false} WalkBothRight(fn: nat, sn: nat, f: nat, s: nat, fr: Bytes, sr: Bytes, proof: seq<Bytes>, i: nat)
    requires sn != 0 && i < |proof| && |proof[i]| == DIGEST_LENGTH && (fn % 2 == 1 || fn == sn)
    requires Strip(fn, sn) == (f, s)
    ensures WalkBoth(fn, sn, fr, sr, proof, i)
         == WalkBoth(ShiftRight(f), ShiftRight(s), Raw(NodeHash(proof[i], fr)), Raw(NodeHash(proof[i], sr)), proof, i + 1)
  {
    hide Strip, Raw, NodeHash, ShiftRight;
  }

  lemma {:induction false} WalkBothLeft(fn: nat, sn: nat, fr: Bytes, sr: Bytes, proof: seq<Bytes>, i: nat)
    requires sn != 0 && i < |proof| && |proof[i]| == DIGEST_LENGTH && fn % 2 == 0 && fn != sn
    ensures WalkBoth(fn, sn, fr, sr, proof, i)
         == WalkBoth(ShiftRight(fn), ShiftRight(sn), fr, Raw(NodeHash(sr, proof[i])), proof, i + 1)
  {
    hide Strip, Raw, NodeHash, ShiftRight;
  }

  lemma {:induction false} WalkBothIsClimbs(fn: nat, sn: nat, fr: Bytes, sr: Bytes, proof: seq<Bytes>, i: nat)
    requires fn <= sn < TWO_TO_32 && i <= |proof|
    ensures WalkBoth(fn, sn, fr, sr, proof, i) == Climbs(fn, sn, fr, sr, proof, i)
    decreases |proof| - i
  {
    hide Climbs, WalkBoth, Strip, ShiftRight, Raw, NodeHash;
    if sn == 0 {
      ClimbsEnd(fr, sr, proof, i);
    } else if i == |proof| || |proof[i]| != DIGEST_LENGTH {
      ClimbsStuck(fn, sn, fr, sr, proof, i);
    } else if fn % 2 == 1 || fn == sn {
      ClimbsStrip(fn, sn, fr, sr, proof, i);
      var (f, s) := Strip(fn, sn);
      WalkBothIsClimbs(f / 2, s / 2, Raw(NodeHash(proof[i], fr)), Raw(NodeHash(proof[i], sr)), proof, i + 1);
      Halves(f);
      Halves(s);
      WalkBothRight(fn, sn, f, s, fr, sr, proof, i);
    } else {
      ClimbsLeft(fn, sn, fr, sr, proof, i);
      WalkBothIsClimbs(fn / 2, sn / 2, fr, Raw(NodeHash(sr, proof[i])), proof, i + 1);
      Halves(fn);
      Halves(sn);
      WalkBothLeft(fn, sn, fr, sr, proof, i);
    }
  }

  lemma {:induction false} StripsOnes(fn: nat, sn: nat, firstRoot: Bytes, secondRoot: Bytes, proof: seq<Bytes>)
    requires fn <= sn < TWO_TO_32
    ensures var (f, s) := StripOnes(fn, sn);
      && f <= s <= sn && f % 2 == 0
      && (ExtensionAccepted(fn, sn, firstRoot, secondRoot, proof) <==> ExtensionAccepted(f, s, firstRoot, secondRoot, proof))
    decreases fn
  {
    hide Climb, ClimbOld, Raw, NodeHash, ShiftRight;
    if fn % 2 == 1 {
      Halves(fn);
      Halves(sn);
      StripsOnes(fn / 2, sn / 2, firstRoot, secondRoot, proof);
    }
  }

  /** With a second size up to 2 to the 32 the shifting verifier of consistency proofs is the unbounded one. */
  lemma {:induction false} ConsistencyShifts(m: nat, n: nat, firstRoot: Bytes, secondRoot: Bytes, proof: seq<Bytes>)
    requires 0 < m < n <= TWO_TO_32
    ensures JsExtension(m - 1, n - 1, firstRoot, secondRoot, proof)
            <==> ConsistencyAccepted(m, n, firstRoot, secondRoot, proof)
  {
    hide Climb, ClimbOld, WalkBoth, StripOnes;
    StripsOnes(m - 1, n - 1, firstRoot, secondRoot, proof);
    var (f, s) := StripOnes(m - 1, n - 1);
    if |proof| > 0 {
      var seed, i := if f != 0 then proof[0] else firstRoot, if f != 0 then 1 else 0;
      WalkBothIsClimbs(f, s, seed, seed, proof, i);
    }
  }

  /** From a first size of 1 the second root is computed as in an inclusion proof, and the first one is not touched. */
  lemma {:induction false} WalkBothFromOne(sn: nat, fr: Bytes, sr: Bytes, proof: seq<Bytes>, i: nat)
    requires i <= |proof|
    ensures var root := Walk(0, sn, sr, proof, i);
      WalkBoth(0, sn, fr, sr, proof, i) == if root.Some? then Some((fr, root.value)) else None
    decreases |proof| - i
  {
    hide Raw, NodeHash, Strip;
    if i < |proof| && sn != 0 && |proof[i]| == DIGEST_LENGTH {
      WalkBothFromOne(ShiftRight(sn), fr, Raw(NodeHash(sr, proof[i])), proof, i + 1);
    }
  }

  predicate SameAnswer(m: nat, n: nat, firstRoot: Bytes, secondRoot: Bytes, proof: seq<Bytes>)
    requires 0 < m < n
  {
    JsExtension(m - 1, n - 1, firstRoot, secondRoot, proof) <==> ConsistencyAccepted(m, n, firstRoot, secondRoot, proof)
  }

  /** The verifier of extensions to `n` leaves is the unbounded one exactly for `n` up to 2 to the 32. */
  lemma {:induction false} ConsistencyVerifierExact(n: nat)
    requires n > 1
    ensures n <= TWO_TO_32 <==>
            forall m: nat, firstRoot: Bytes, secondRoot: Bytes, proof: seq<Bytes> | 0 < m < n ::
              SameAnswer(m, n, firstRoot, secondRoot, proof)
  {
    hide Walk, WalkBoth, Climb, ClimbOld, Depth, JsExtension, ConsistencyAccepted;
    if n <= TWO_TO_32 {
      forall m: nat, firstRoot: Bytes, secondRoot: Bytes, proof: seq<Bytes> | 0 < m < n
        ensures SameAnswer(m, n, firstRoot, secondRoot, proof)
      {
        ConsistencyShifts(m, n, firstRoot, secondRoot, proof);
      }
    } else {
      var proof := seq(1 + Depth(ShiftRight(n - 1)), _ => Raw(EmptyRoot()));
      WalkTooShort(n - 1, [], proof);
      WalkBothFromOne(n - 1, [], [], proof, 0);
      var root := Walk(0, n - 1, [], proof, 0).value;
      JsFromOne(n - 1, root, proof);
      assert !SameAnswer(1, n, [], root, proof);
    }
  }

  lemma {:induction false} JsFromOne(sn: nat, root: Bytes, proof: seq<Bytes>)
    requires sn > 0 && |proof| > 0 && WalkBoth(0, sn, [], [], proof, 0) == Some(([], root))
    requires Climb(0, sn, [], proof, 0).None?
    ensures JsExtension(0, sn, [], root, proof) && !ConsistencyAccepted(1, sn + 1, [], root, proof)
  {
    hide WalkBoth, Climb, ClimbOld;
  }
}
