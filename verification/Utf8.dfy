/**
 * canonical.js `canonicalBytes`: canonical text as UTF-8, which is what gets hashed and
 * signed. The encoder writes U+FFFD for a surrogate that is not half of a pair, so texts
 * that differ only there have the same bytes; no other texts have.
 */
module Utf8 {
  import opened Hashing
  import opened Canonical

  const REPLACEMENT := Unit(0xFFFD)

  predicate High(c: Symbol) {
    c.Unit? && 0xD800 <= c.code < 0xDC00
  }

  predicate Low(c: Symbol) {
    c.Unit? && 0xDC00 <= c.code < 0xE000
  }

  predicate Surrogate(c: Symbol) {
    High(c) || Low(c)
  }

  /** The text starts with two code units that make one character. */
  predicate Paired(t: Text) {
    |t| >= 2 && High(t[0]) && Low(t[1])
  }

  /** The text with every unpaired surrogate replaced: `toWellFormed`. */
  function Repaired(t: Text): (r: Text)
    ensures |r| == |t|
  {
    if |t| == 0 then []
    else if Paired(t) then t[..2] + Repaired(t[2..])
    else [if Surrogate(t[0]) then REPLACEMENT else t[0]] + Repaired(t[1..])
  }

  // ------------------------------------------------------------------- encoding

  /** The bytes of one code unit alone. The bytes of a digest stand for the hex digits that spell it. */
  function UnitBytes(c: Symbol): Bytes {
    if c.HashByte? || c.code < 0x80 then [c]
    else if c.code < 0x800 then [Unit(0xC0 + c.code / 0x40), Unit(0x80 + c.code % 0x40)]
    else if Surrogate(c) then [Unit(0xEF), Unit(0xBF), Unit(0xBD)]
    else [Unit(0xE0 + c.code / 0x1000), Unit(0x80 + c.code / 0x40 % 0x40), Unit(0x80 + c.code % 0x40)]
  }

  /** The bytes of a surrogate pair. */
  function PairBytes(high: Symbol, low: Symbol): Bytes
    requires High(high) && Low(low)
  {
    var point := 0x10000 + 0x400 * (high.code - 0xD800) + (low.code - 0xDC00);
    [Unit(0xF0 + point / 0x40000), Unit(0x80 + point / 0x1000 % 0x40), Unit(0x80 + point / 0x40 % 0x40),
     Unit(0x80 + point % 0x40)]
  }

  /** How many code units the first character takes, and its bytes. */
  function FirstLength(t: Text): (n: nat)
    requires |t| > 0
    ensures 0 < n <= |t|
  {
    if Paired(t) then 2 else 1
  }

  function FirstBytes(t: Text): Bytes
    requires |t| > 0
  {
    if Paired(t) then PairBytes(t[0], t[1]) else UnitBytes(t[0])
  }

  function Encoded(t: Text): Bytes {
    if |t| == 0 then [] else FirstBytes(t) + Encoded(t[FirstLength(t)..])
  }

  function CanonicalBytes(v: Json): Bytes {
    Encoded(TextOf(v))
  }

  // -------------------------------------------------- what the bytes determine

  /** How long a character's encoding is, from its first byte. */
  function LengthFrom(first: Symbol): nat {
    if first.HashByte? || first.code < 0x80 then 1
    else if first.code < 0xE0 then 2
    else if first.code < 0xF0 then 3
    else 4
  }

  lemma {:induction false} FirstByteTells(t: Text)
    requires |t| > 0
    ensures |FirstBytes(t)| > 0 && |FirstBytes(t)| == LengthFrom(FirstBytes(t)[0])
  {
  }

  /** The code unit or the pair, read back from its bytes. */
  function Decoded(bytes: Bytes): Text
    requires |bytes| > 0 && forall i | 0 <= i < |bytes| :: |bytes| > 1 ==> bytes[i].Unit?
  {
    if |bytes| == 1 then bytes
    else if |bytes| == 2 then [CodeOf(0x40 * (bytes[0].code - 0xC0) + (bytes[1].code - 0x80))]
    else if |bytes| == 3 then
      [CodeOf(0x1000 * (bytes[0].code - 0xE0) + 0x40 * (bytes[1].code - 0x80) + (bytes[2].code - 0x80))]
    else if |bytes| == 4 then
      var point := 0x40000 * (bytes[0].code - 0xF0) + 0x1000 * (bytes[1].code - 0x80) + 0x40 * (bytes[2].code - 0x80)
                   + (bytes[3].code - 0x80) - 0x10000;
      [CodeOf(0xD800 + point / 0x400), CodeOf(0xDC00 + point % 0x400)]
    else []
  }

  function CodeOf(n: int): Symbol {
    Unit(if 0 <= n < 0x10000 then n else 0)
  }

  lemma {:induction false} FirstDecodes(t: Text)
    requires |t| > 0 && (Paired(t) || !Surrogate(t[0]))
    ensures var bytes := FirstBytes(t);
      && |bytes| > 0 && (forall i | 0 <= i < |bytes| :: |bytes| > 1 ==> bytes[i].Unit?)
      && Decoded(bytes) == t[..FirstLength(t)]
  {
    if Paired(t) {
      hide UnitBytes;
      PairDecodes(t[0], t[1]);
    } else if t[0].Unit? && t[0].code >= 0x800 {
      ThreeDecode(t[0].code);
    }
  }

  lemma {:induction false} ThreeDecode(n: nat)
    ensures 0x1000 * (n / 0x1000) + 0x40 * (n / 0x40 % 0x40) + n % 0x40 == n
  {
  }

  lemma {:induction false} PairDecodes(high: Symbol, low: Symbol)
    requires High(high) && Low(low)
    ensures var bytes := PairBytes(high, low);
      && |bytes| == 4 && (forall i | 0 <= i < 4 :: bytes[i].Unit?)
      && Decoded(bytes) == [high, low]
  {
    var point := 0x10000 + 0x400 * (high.code - 0xD800) + (low.code - 0xDC00);
    SixBits(point);
    Halves(high.code - 0xD800, low.code - 0xDC00);
  }

  lemma {:induction false} SixBits(n: nat)
    ensures 0x40000 * (n / 0x40000) + 0x1000 * (n / 0x1000 % 0x40) + 0x40 * (n / 0x40 % 0x40) + n % 0x40 == n
  {
    assert n / 0x1000 == n / 0x40 / 0x40 && n / 0x40000 == n / 0x1000 / 0x40;
  }

  lemma {:induction false} Halves(high: nat, low: nat)
    requires low < 0x400
    ensures (0x400 * high + low) / 0x400 == high && (0x400 * high + low) % 0x400 == low
  {
  }

  /** No surrogate of the text is unpaired. */
  predicate IntactText(t: Text) {
    Repaired(t) == t
  }

  lemma {:induction false} IntactFirst(t: Text)
    requires |t| > 0 && IntactText(t)
    ensures Paired(t) || !Surrogate(t[0])
    ensures IntactText(t[FirstLength(t)..])
  {
    var n := FirstLength(t);
    assert Repaired(t)[0] == t[0];
    assert Repaired(t)[n..] == Repaired(t[n..]);
  }

  /** Texts without unpaired surrogates that have the same bytes are the same. */
  lemma {:induction false} EncodedInjective(a: Text, b: Text)
    requires IntactText(a) && IntactText(b) && Encoded(a) == Encoded(b)
    ensures a == b
    decreases |a|
  {
    hide FirstBytes, FirstLength, IntactText, LengthFrom, Decoded;
    if |a| > 0 {
      FirstByteTells(a);
    }
    if |b| > 0 {
      FirstByteTells(b);
    }
    if |a| > 0 && |b| > 0 {
      var x, y := FirstBytes(a), FirstBytes(b);
      assert x[0] == Encoded(a)[0] == Encoded(b)[0] == y[0];
      assert x == Encoded(a)[..|x|] == Encoded(b)[..|y|] == y;
      IntactFirst(a);
      IntactFirst(b);
      FirstDecodes(a);
      FirstDecodes(b);
      var n := FirstLength(a);
      assert |a[..n]| == |b[..FirstLength(b)]|;
      assert Encoded(a[n..]) == Encoded(a)[|x|..] == Encoded(b)[|x|..] == Encoded(b[n..]);
      EncodedInjective(a[n..], b[n..]);
      assert a == a[..n] + a[n..] && b == b[..n] + b[n..];
    }
  }

  /** The repaired text starts with the same character, repaired. */
  lemma {:induction false} RepairedFirst(t: Text)
    requires |t| > 0
    ensures var r, n := Repaired(t), FirstLength(t);
      && FirstLength(r) == n && FirstBytes(r) == FirstBytes(t) && r[n..] == Repaired(t[n..])
      && (Paired(r) <==> Paired(t)) && !(Surrogate(r[0]) && !Paired(r))
  {
    var r := Repaired(t);
    if Paired(t) {
      assert r[0] == t[0] && r[1] == t[1];
    }
  }

  lemma {:induction false} RepairedIsIntact(t: Text)
    ensures IntactText(Repaired(t))
    decreases |t|
  {
    if |t| > 0 {
      var n := FirstLength(t);
      RepairedFirst(t);
      RepairedIsIntact(t[n..]);
      assert Repaired(t)[..n] + Repaired(t)[n..] == Repaired(t);
    }
  }

  /** Repairing a text changes none of its bytes. */
  lemma {:induction false} RepairKeepsBytes(t: Text)
    ensures Encoded(Repaired(t)) == Encoded(t)
    decreases |t|
  {
    hide FirstBytes, Repaired;
    if |t| > 0 {
      RepairedFirst(t);
      RepairKeepsBytes(t[FirstLength(t)..]);
    }
  }

  /** Two texts have the same bytes exactly when they are the same once unpaired surrogates are replaced. */
  lemma {:induction false} BytesExactly(a: Text, b: Text)
    ensures Encoded(a) == Encoded(b) <==> Repaired(a) == Repaired(b)
  {
    hide Encoded, Repaired, IntactText;
    RepairKeepsBytes(a);
    RepairKeepsBytes(b);
    RepairedIsIntact(a);
    RepairedIsIntact(b);
    if Encoded(a) == Encoded(b) {
      EncodedInjective(Repaired(a), Repaired(b));
    }
  }
}
