/**
 * canonical.py `_es_number`, canonical.js `encodeNumber`: how a number is laid
 * out as text (RFC 8785 section 3.2.2.3, ECMAScript Number::toString), and a
 * reader for the JSON number grammar (RFC 8259 section 6) that recovers it.
 */
module Numbers {
  import opened Wrappers
  import opened Hashing

  type Digit = d: int | 0 <= d < 10

  const PLUS := Unit(0x2B)
  const MINUS := Unit(0x2D)
  const POINT := Unit(0x2E)
  const EXPONENT := Unit(0x65)

  /** Zero, or plus or minus `digits` times ten to the `exponent`. */
  datatype Number = Zero | Decimal(negative: bool, digits: seq<Digit>, exponent: int) {
    /** No zero at either end: every value has one normal form. */
    predicate Normal() {
      Decimal? ==> |digits| > 0 && digits[0] != 0 && digits[|digits| - 1] != 0
    }
  }

  type NormalNumber = n: Number | n.Normal() witness Zero

  // --------------------------------------------------------- digits and values

  function Zeros(n: nat): seq<Digit> {
    seq(n, _ => 0)
  }

  function DigitsValue(digits: seq<Digit>): nat {
    if |digits| == 0 then 0 else 10 * DigitsValue(digits[..|digits| - 1]) + digits[|digits| - 1]
  }

  /** The decimal digits of a number, without leading zeros. */
  function NatDigits(n: nat): (digits: seq<Digit>)
    ensures DigitsValue(digits) == n && |digits| > 0
  {
    if n < 10 then [n]
    else
      var front, last := NatDigits(n / 10), n % 10;
      assert (front + [last])[..|front|] == front;
      front + [last]
  }

  /** `v` times ten to the `e`, by repeated multiplication or division. */
  function Scaled(v: real, e: int): real
    decreases if e < 0 then -e else e
  {
    if e == 0 then v else if e > 0 then 10.0 * Scaled(v, e - 1) else Scaled(v, e + 1) / 10.0
  }

  function Value(n: Number): real {
    if n.Zero? then 0.0
    else (if n.negative then -1.0 else 1.0) * Magnitude(n.digits, n.exponent)
  }

  // ------------------------------------------------------------------- numerals

  /** A number as written: digits, digits after a point if there are any, and an exponent if there is one. */
  datatype Numeral = Numeral(whole: seq<Digit>, fraction: seq<Digit>, exponent: Option<int>) {
    function Digits(): seq<Digit> {
      whole + fraction
    }

    function Scale(): int {
      (if exponent.Some? then exponent.value else 0) - |fraction|
    }
  }

  function Magnitude(digits: seq<Digit>, scale: int): real {
    Scaled(DigitsValue(digits) as real, scale)
  }

  /** The four layouts, by where the point falls. */
  function LayoutNumeral(digits: seq<Digit>, exponent: int): Numeral
    requires |digits| > 0
  {
    var k, n := |digits|, exponent + |digits|;
    if k <= n <= 21 then Numeral(digits + Zeros(exponent), [], None)
    else if 0 < n <= 21 then Numeral(digits[..n], digits[n..], None)
    else if -6 < n <= 0 then Numeral([0], Zeros(-n) + digits, None)
    else Numeral(digits[..1], digits[1..], Some(n - 1))
  }

  function StripLeading(digits: seq<Digit>): (r: seq<Digit>)
    ensures |r| > 0 ==> r[0] != 0
  {
    if |digits| > 0 && digits[0] == 0 then StripLeading(digits[1..]) else digits
  }

  function TrailingZeros(digits: seq<Digit>): (n: nat)
    ensures n <= |digits|
    ensures if n < |digits| then digits[|digits| - 1 - n] != 0 else |digits| > 0 ==> digits[0] == 0
  {
    if |digits| > 0 && digits[|digits| - 1] == 0 then 1 + TrailingZeros(digits[..|digits| - 1]) else 0
  }

  /** The normal form of `digits` times ten to the `scale`. */
  function Denoted(negative: bool, digits: seq<Digit>, scale: int): (n: Number)
    ensures n.Normal()
  {
    var stripped := StripLeading(digits);
    if stripped == [] then Zero
    else
      var z := TrailingZeros(stripped);
      Decimal(negative, stripped[..|stripped| - z], scale + z)
  }

  lemma {:induction false} StripLeadingZeros(n: nat, digits: seq<Digit>)
    requires |digits| > 0 && digits[0] != 0
    ensures StripLeading(Zeros(n) + digits) == digits
  {
    if n > 0 {
      StripLeadingZeros(n - 1, digits);
      assert (Zeros(n) + digits)[1..] == Zeros(n - 1) + digits;
    } else {
      assert Zeros(n) + digits == digits;
    }
  }

  lemma {:induction false} TrailingZerosCounted(digits: seq<Digit>, n: nat)
    requires |digits| > 0 && digits[|digits| - 1] != 0
    ensures TrailingZeros(digits + Zeros(n)) == n
  {
    var all := digits + Zeros(n);
    if n > 0 {
      TrailingZerosCounted(digits, n - 1);
      assert all[..|all| - 1] == digits + Zeros(n - 1);
    } else {
      assert all == digits;
    }
  }

  /** The digits of each layout, read together, are the digits laid out between padding zeros. */
  lemma {:induction false} LayoutDigits(digits: seq<Digit>, exponent: int, n: int)
    requires |digits| > 0 && n == exponent + |digits|
    ensures var m := LayoutNumeral(digits, exponent);
      if |digits| <= n <= 21 then m.Digits() == digits + Zeros(exponent) && m.Scale() == 0
      else if -6 < n <= 0 then m.Digits() == Zeros(1 - n) + digits && m.Scale() == exponent
      else m.Digits() == digits && m.Scale() == exponent
  {
  }

  /** Zeros around normal digits change neither them nor, once counted, the exponent. */
  lemma {:induction false} PaddingDenotes(n: Number, lead: nat, trail: nat, padded: seq<Digit>, scale: int)
    requires n.Decimal? && n.Normal()
    requires padded == Zeros(lead) + (n.digits + Zeros(trail)) && n.exponent == scale + trail
    ensures Denoted(n.negative, padded, scale) == n
  {
    StripLeadingZeros(lead, n.digits + Zeros(trail));
    TrailingZerosCounted(n.digits, trail);
    assert (n.digits + Zeros(trail))[..|n.digits|] == n.digits;
  }

  /** Every layout denotes the number laid out: its digits and exponent come back exactly. */
  lemma {:induction false} LayoutDenotes(n: Number, m: Numeral)
    requires n.Decimal? && n.Normal() && m == LayoutNumeral(n.digits, n.exponent)
    ensures Denoted(n.negative, m.Digits(), m.Scale()) == n
  {
    var p := n.exponent + |n.digits|;
    LayoutDigits(n.digits, n.exponent, p);
    var lead := if -6 < p <= 0 then 1 - p else 0;
    var trail := if |n.digits| <= p <= 21 then n.exponent else 0;
    LayoutPadding(n.digits, lead, trail);
    PaddingDenotes(n, lead, trail, m.Digits(), m.Scale());
  }

  lemma {:induction false} LayoutPadding(digits: seq<Digit>, lead: nat, trail: nat)
    ensures lead == 0 ==> Zeros(lead) + (digits + Zeros(trail)) == digits + Zeros(trail)
    ensures trail == 0 ==> Zeros(lead) + (digits + Zeros(trail)) == Zeros(lead) + digits
    ensures lead == 0 && trail == 0 ==> Zeros(lead) + (digits + Zeros(trail)) == digits
  {
  }

  /** As a real number: the layout is worth exactly digits times ten to the exponent. */
  lemma {:induction false} LayoutKeepsValue(digits: seq<Digit>, exponent: int, m: Numeral)
    requires |digits| > 0 && m == LayoutNumeral(digits, exponent)
    ensures Magnitude(m.Digits(), m.Scale()) == Magnitude(digits, exponent)
  {
    var n := exponent + |digits|;
    LayoutDigits(digits, exponent, n);
    if |digits| <= n <= 21 {
      TrailingZerosMagnitude(digits, exponent);
    } else if -6 < n <= 0 {
      LeadingZerosMagnitude(1 - n, digits, exponent);
    }
  }

  lemma {:induction false} TrailingZerosMagnitude(digits: seq<Digit>, n: nat)
    ensures Magnitude(digits + Zeros(n), 0) == Magnitude(digits, n)
  {
    TrailingZerosScale(digits, n);
  }

  lemma {:induction false} LeadingZerosMagnitude(n: nat, digits: seq<Digit>, scale: int)
    ensures Magnitude(Zeros(n) + digits, scale) == Magnitude(digits, scale)
  {
    LeadingZerosKeepValue(n, digits);
  }

  lemma {:induction false} LeadingZerosKeepValue(n: nat, digits: seq<Digit>)
    ensures DigitsValue(Zeros(n) + digits) == DigitsValue(digits)
  {
    var all := Zeros(n) + digits;
    if |digits| > 0 {
      LeadingZerosKeepValue(n, digits[..|digits| - 1]);
      assert all[..|all| - 1] == Zeros(n) + digits[..|digits| - 1];
    } else if n > 0 {
      LeadingZerosKeepValue(n - 1, digits);
      assert all[..|all| - 1] == Zeros(n - 1) + digits;
    }
  }

  lemma {:induction false} TrailingZerosScale(digits: seq<Digit>, n: nat)
    ensures DigitsValue(digits + Zeros(n)) as real == Scaled(DigitsValue(digits) as real, n)
  {
    var all := digits + Zeros(n);
    if n > 0 {
      TrailingZerosScale(digits, n - 1);
      assert all[..|all| - 1] == digits + Zeros(n - 1);
    } else {
      assert all == digits;
    }
  }

  // ----------------------------------------------------------------------- text

  function DigitUnit(digit: Digit): Symbol {
    Unit(0x30 + digit)
  }

  function DigitText(digits: seq<Digit>): Text {
    seq(|digits|, i requires 0 <= i < |digits| => DigitUnit(digits[i]))
  }

  function FractionText(fraction: seq<Digit>): Text {
    if fraction == [] then [] else [POINT] + DigitText(fraction)
  }

  function ExponentText(exponent: Option<int>): Text {
    match exponent
    case None => []
    case Some(e) => [EXPONENT] + ([if e > 0 then PLUS else MINUS] + DigitText(NatDigits(if e > 0 then e else -e)))
  }

  function NumeralText(m: Numeral): Text {
    DigitText(m.whole) + FractionText(m.fraction) + ExponentText(m.exponent)
  }

  function NumberText(n: Number): Text
    requires n.Normal()
  {
    match n
    case Zero => [Unit(0x30)]
    case Decimal(negative, digits, exponent) =>
      (if negative then [MINUS] else []) + NumeralText(LayoutNumeral(digits, exponent))
  }

  /** `_es_number`: the digits come from a shortest round-trip printer, which may pad them with zeros. */
  function EsNumber(negative: bool, digits: seq<Digit>, exponent: int): Text
    requires |digits| > 0 && digits[0] != 0
  {
    (if negative then [MINUS] else [])
    + NumeralText(LayoutNumeral(Stripped(digits), exponent + TrailingZeros(digits)))
  }

  function Stripped(digits: seq<Digit>): (s: seq<Digit>)
    requires |digits| > 0 && digits[0] != 0
    ensures 0 < |s| && s[0] == digits[0] && s[|s| - 1] != 0
    ensures digits == s + Zeros(TrailingZeros(digits))
  {
    var last := |digits| - 1;
    if digits[last] == 0 then
      var s := Stripped(digits[..last]);
      assert digits == digits[..last] + [0];
      s
    else
      assert digits == digits + Zeros(0);
      digits
  }

  // ------------------------------------------------------------------- integers

  const MAX_SAFE_INTEGER := 9007199254740991

  function FromInt(n: int): NormalNumber {
    if n == 0 then Zero
    else
      var digits := NatDigits(if n < 0 then -n else n);
      NatDigitsStart(if n < 0 then -n else n);
      Decimal(n < 0, Stripped(digits), TrailingZeros(digits))
  }

  lemma {:induction false} NatDigitsStart(n: nat)
    requires n > 0
    ensures NatDigits(n)[0] != 0
  {
    if n >= 10 {
      NatDigitsStart(n / 10);
    }
  }

  lemma {:induction false} FromIntInjective(a: int, b: int)
    requires FromInt(a) == FromInt(b)
    ensures a == b
  {
    if a != 0 {
      var x, y := NatDigits(if a < 0 then -a else a), NatDigits(if b < 0 then -b else b);
      NatDigitsStart(if a < 0 then -a else a);
      NatDigitsStart(if b < 0 then -b else b);
      assert x == Stripped(x) + Zeros(TrailingZeros(x)) == Stripped(y) + Zeros(TrailingZeros(y)) == y;
    }
  }

  /** The integer a number is, where it is one. */
  function AsInt(n: Number): Option<int> {
    if n.Zero? then Some(0)
    else if n.exponent < 0 then None
    else
      var magnitude: int := DigitsValue(n.digits + Zeros(n.exponent));
      Some(if n.negative then -magnitude else magnitude)
  }

  lemma {:induction false} AsIntFromInt(n: int)
    ensures AsInt(FromInt(n)) == Some(n)
  {
    hide DigitsValue;
  }

  function TenToThe(k: nat): nat {
    if k == 0 then 1 else 10 * TenToThe(k - 1)
  }

  lemma {:induction false} NatDigitsLength(n: nat, k: nat)
    requires 0 < k && n < TenToThe(k)
    ensures |NatDigits(n)| <= k
  {
    if n >= 10 {
      NatDigitsLength(n / 10, k - 1);
    }
  }

  lemma {:induction false} TenToTheSixteen()
    ensures TenToThe(16) > MAX_SAFE_INTEGER
  {
    assert TenToThe(4) == 10000;
    assert TenToThe(8) == 100000000;
    assert TenToThe(12) == 1000000000000;
  }

  lemma {:induction false} ShortIntegerLayout(digits: seq<Digit>)
    requires 0 < |digits| <= 21 && digits[0] != 0
    ensures LayoutNumeral(Stripped(digits), TrailingZeros(digits)) == Numeral(digits, [], None)
  {
  }

  lemma {:induction false} PlainNumeralText(digits: seq<Digit>)
    ensures NumeralText(Numeral(digits, [], None)) == DigitText(digits)
  {
    assert DigitText(digits) + [] + [] == DigitText(digits);
  }

  /** `str(n)` and the layout agree on every integer JSON carries exactly. */
  lemma {:induction false} SafeIntegersPrintAsDigits(n: int)
    requires 0 < n <= MAX_SAFE_INTEGER
    ensures NumberText(FromInt(n)) == DigitText(NatDigits(n))
    ensures NumberText(FromInt(-n)) == [MINUS] + DigitText(NatDigits(n))
  {
    hide LayoutNumeral, NumeralText, DigitText, NatDigits, DigitsValue, Stripped, TrailingZeros;
    var digits := NatDigits(n);
    SafeIntegerDigits(n);
    ShortIntegerLayout(digits);
    PlainNumeralText(digits);
    assert [] + DigitText(digits) == DigitText(digits);
  }

  lemma {:induction false} SafeIntegerDigits(n: int)
    requires 0 < n <= MAX_SAFE_INTEGER
    ensures |NatDigits(n)| <= 16 && NatDigits(n)[0] != 0
  {
    hide NatDigits, DigitsValue;
    TenToTheSixteen();
    NatDigitsLength(n, 16);
    NatDigitsStart(n);
  }

  // -------------------------------------------------------------------- reading

  /** `part` stands in `t` at position `i`. */
  predicate At(t: Text, i: nat, part: Text) {
    i + |part| <= |t| && t[i..i + |part|] == part
  }

  lemma {:induction false} AtSplit(t: Text, i: nat, a: Text, b: Text)
    requires At(t, i, a + b)
    ensures At(t, i, a) && At(t, i + |a|, b)
  {
    var whole := t[i..i + |a + b|];
    assert t[i..i + |a|] == whole[..|a|] == (a + b)[..|a|] == a;
    assert t[i + |a|..i + |a| + |b|] == whole[|a|..] == (a + b)[|a|..] == b;
  }

  lemma {:induction false} AtHead(t: Text, i: nat, c: Symbol, rest: Text)
    requires At(t, i, [c] + rest)
    ensures i < |t| && t[i] == c && At(t, i + 1, rest)
  {
    AtSplit(t, i, [c], rest);
    assert t[i] == t[i..i + 1][0];
  }

  lemma {:induction false} AtIndex(t: Text, i: nat, part: Text, j: nat)
    requires At(t, i, part) && j < |part|
    ensures t[i + j] == part[j]
  {
    assert t[i..i + |part|][j] == t[i + j];
  }

  predicate IsDigit(c: Symbol) {
    c.Unit? && 0x30 <= c.code < 0x3A
  }

  function ReadDigits(t: Text, i: nat): (r: (seq<Digit>, nat))
    requires i <= |t|
    ensures i <= r.1 <= |t| && (r.0 != [] ==> i < r.1)
    decreases |t| - i
  {
    if i < |t| && IsDigit(t[i]) then
      var (rest, end) := ReadDigits(t, i + 1);
      ([t[i].code - 0x30] + rest, end)
    else ([], i)
  }

  predicate ExponentFollows(t: Text, i: nat) {
    i + 1 < |t| && t[i] == EXPONENT && (t[i + 1] == PLUS || t[i + 1] == MINUS)
  }

  /** Reads digits, a point with digits, and a signed exponent. */
  function ReadNumeral(t: Text, i: nat): (r: (Numeral, nat))
    requires i <= |t|
    ensures i <= r.1 <= |t| && (r.0.whole != [] ==> i < r.1)
  {
    var (whole, i1) := ReadDigits(t, i);
    var (fraction, i2) := if i1 < |t| && t[i1] == POINT then ReadDigits(t, i1 + 1) else ([], i1);
    if ExponentFollows(t, i2) then
      var (e, i3) := ReadDigits(t, i2 + 2);
      var value: int := DigitsValue(e);
      (Numeral(whole, fraction, Some(if t[i2 + 1] == PLUS then value else -value)), i3)
    else (Numeral(whole, fraction, None), i2)
  }

  function ReadNumber(t: Text, i: nat): (r: Option<(Number, nat)>)
    requires i <= |t|
    ensures r.Some? ==> i < r.value.1 <= |t| && r.value.0.Normal()
  {
    var negative := i < |t| && t[i] == MINUS;
    var (m, end) := ReadNumeral(t, if negative then i + 1 else i);
    if m.whole == [] then None else Some((Denoted(negative, m.Digits(), m.Scale()), end))
  }

  /** What follows a number in JSON text is never part of it. */
  predicate NumberEnds(t: Text, i: nat) {
    i == |t| || (i < |t| && !IsDigit(t[i]) && t[i] != POINT && t[i] != EXPONENT)
  }

  lemma {:induction false} DigitsReadBack(t: Text, i: nat, digits: seq<Digit>)
    requires At(t, i, DigitText(digits))
    requires i + |digits| < |t| ==> !IsDigit(t[i + |digits|])
    ensures ReadDigits(t, i) == (digits, i + |digits|)
    decreases |digits|
  {
    if |digits| > 0 {
      var rest := digits[1..];
      assert DigitText(digits) == [DigitUnit(digits[0])] + DigitText(rest);
      AtHead(t, i, DigitUnit(digits[0]), DigitText(rest));
      assert i + 1 + |rest| == i + |digits|;
      DigitsReadBack(t, i + 1, rest);
      assert digits == [digits[0]] + rest;
    }
  }

  lemma {:induction false} ExponentReadsBack(t: Text, i: nat, e: int)
    requires At(t, i, ExponentText(Some(e))) && NumberEnds(t, i + |ExponentText(Some(e))|)
    ensures ExponentRead(t, i, e)
  {
    var sign, digits := if e > 0 then PLUS else MINUS, NatDigits(if e > 0 then e else -e);
    var rest := DigitText(digits);
    AtHead(t, i, EXPONENT, [sign] + rest);
    AtHead(t, i + 1, sign, rest);
    DigitsReadBack(t, i + 2, digits);
  }

  lemma {:induction false} FractionReadsBack(t: Text, i: nat, fraction: seq<Digit>)
    requires fraction != [] && At(t, i, FractionText(fraction))
    requires i + |FractionText(fraction)| < |t| ==> !IsDigit(t[i + |FractionText(fraction)|])
    ensures i < |t| && t[i] == POINT && ReadDigits(t, i + 1) == (fraction, i + |FractionText(fraction)|)
  {
    AtHead(t, i, POINT, DigitText(fraction));
    DigitsReadBack(t, i + 1, fraction);
  }

  lemma {:induction false} NumeralReadsBack(t: Text, i: nat, m: Numeral)
    requires At(t, i, NumeralText(m)) && NumberEnds(t, i + |NumeralText(m)|)
    requires m.exponent != Some(0)
    ensures ReadNumeral(t, i) == (m, i + |NumeralText(m)|)
  {
    hide *;
    var i1 := i + |m.whole|;
    NumeralSplit(t, i, m, i1);
    TailReadsBack(t, i1, m);
    DigitsReadBack(t, i, m.whole);
    ReadNumeralFrom(t, i, m, i1, i1 + |FractionText(m.fraction)|);
  }

  lemma {:induction false} NumeralSplit(t: Text, i: nat, m: Numeral, i1: nat)
    requires At(t, i, NumeralText(m)) && i1 == i + |m.whole|
    ensures At(t, i, DigitText(m.whole)) && At(t, i1, FractionText(m.fraction))
    ensures At(t, i1 + |FractionText(m.fraction)|, ExponentText(m.exponent))
    ensures i1 + |FractionText(m.fraction)| + |ExponentText(m.exponent)| == i + |NumeralText(m)|
    ensures i1 + |FractionText(m.fraction)| <= |t|
  {
    hide FractionText, ExponentText;
    AtSplit(t, i, DigitText(m.whole) + FractionText(m.fraction), ExponentText(m.exponent));
    AtSplit(t, i, DigitText(m.whole), FractionText(m.fraction));
  }

  lemma {:induction false} ReadNumeralFrom(t: Text, i: nat, m: Numeral, i1: nat, i2: nat)
    requires i <= |t| && i1 <= |t| && i2 <= |t| && m.exponent != Some(0)
    requires ReadDigits(t, i) == (m.whole, i1)
    requires (if i1 < |t| && t[i1] == POINT then ReadDigits(t, i1 + 1) else ([], i1)) == (m.fraction, i2)
    requires m.exponent.None? ==> !ExponentFollows(t, i2)
    requires m.exponent.Some? ==> ExponentRead(t, i2, m.exponent.value)
    ensures ReadNumeral(t, i) == (m, i2 + |ExponentText(m.exponent)|)
  {
    hide ReadDigits, ExponentRead, NatDigits, DigitsValue, DigitText;
    if m.exponent.Some? {
      ExponentValue(t, i2, m.exponent.value);
    }
  }

  lemma {:induction false} ExponentValue(t: Text, i: nat, e: int)
    requires ExponentRead(t, i, e)
    ensures ExponentFollows(t, i)
    ensures ReadDigits(t, i + 2).1 == i + |ExponentText(Some(e))|
    ensures t[i + 1] == (if e > 0 then PLUS else MINUS)
    ensures DigitsValue(ReadDigits(t, i + 2).0) == if e > 0 then e else -e
  {
    hide ReadDigits, DigitsValue, ExponentText;
  }

  /** The sign and digits of exponent `e` are what is read at `i`. */
  predicate ExponentRead(t: Text, i: nat, e: int) {
    var digits := NatDigits(if e > 0 then e else -e);
    && ExponentFollows(t, i)
    && t[i + 1] == (if e > 0 then PLUS else MINUS)
    && ReadDigits(t, i + 2) == (digits, i + |ExponentText(Some(e))|)
  }

  /** What follows the whole digits: a fraction and an exponent, each where there is one. */
  lemma {:induction false} TailReadsBack(t: Text, i1: nat, m: Numeral)
    requires At(t, i1, FractionText(m.fraction)) && At(t, i1 + |FractionText(m.fraction)|, ExponentText(m.exponent))
    requires NumberEnds(t, i1 + |FractionText(m.fraction)| + |ExponentText(m.exponent)|) && m.exponent != Some(0)
    ensures i1 < |t| ==> !IsDigit(t[i1])
    ensures var i2 := i1 + |FractionText(m.fraction)|;
      && (if i1 < |t| && t[i1] == POINT then ReadDigits(t, i1 + 1) else ([], i1)) == (m.fraction, i2)
      && (m.exponent.None? ==> !ExponentFollows(t, i2))
      && (m.exponent.Some? ==> ExponentRead(t, i2, m.exponent.value))
  {
    if m.exponent.Some? {
      ExponentReadsBack(t, i1 + |FractionText(m.fraction)|, m.exponent.value);
    }
    if m.fraction != [] {
      FractionReadsBack(t, i1, m.fraction);
    }
  }

  /** Reading a number back gives the number written, so different numbers print differently. */
  lemma {:induction false} NumberReadsBack(t: Text, i: nat, n: Number)
    requires n.Normal() && At(t, i, NumberText(n)) && NumberEnds(t, i + |NumberText(n)|)
    ensures ReadNumber(t, i) == Some((n, i + |NumberText(n)|))
  {
    if n.Zero? {
      ZeroReadsBack(t, i);
    } else {
      DecimalReadsBack(t, i, n, LayoutNumeral(n.digits, n.exponent), if n.negative then i + 1 else i);
    }
  }

  lemma {:induction false} DecimalReadsBack(t: Text, i: nat, n: Number, m: Numeral, start: nat)
    requires n.Decimal? && n.Normal() && m == LayoutNumeral(n.digits, n.exponent)
    requires At(t, i, NumberText(n)) && NumberEnds(t, i + |NumberText(n)|)
    requires start == if n.negative then i + 1 else i
    ensures ReadNumber(t, i) == Some((n, i + |NumberText(n)|))
  {
    SignReads(t, i, n, m);
    assert start + |NumeralText(m)| == i + |NumberText(n)|;
    NumeralReadsBack(t, start, m);
    LayoutDenotes(n, m);
  }

  lemma {:induction false} NumberStarts(t: Text, i: nat, n: Number)
    requires n.Normal() && At(t, i, NumberText(n))
    ensures i < |t| && (t[i] == MINUS || IsDigit(t[i]))
  {
    if n.Zero? {
      AtHead(t, i, Unit(0x30), []);
    } else if n.negative {
      AtHead(t, i, MINUS, NumeralText(LayoutNumeral(n.digits, n.exponent)));
    } else {
      assert NumberText(n) == NumeralText(LayoutNumeral(n.digits, n.exponent));
      StartsWithDigit(t, i, LayoutNumeral(n.digits, n.exponent));
    }
  }

  lemma {:induction false} ZeroReadsBack(t: Text, i: nat)
    requires At(t, i, NumberText(Zero)) && NumberEnds(t, i + 1)
    ensures ReadNumber(t, i) == Some((Zero, i + 1))
  {
    assert NumberText(Zero) == DigitText([0]) + [] + [];
    NumeralReadsBack(t, i, Numeral([0], [], None));
    AtHead(t, i, Unit(0x30), []);
    assert [0] + [] == [0] && StripLeading([0]) == [];
  }

  lemma {:induction false} SignReads(t: Text, i: nat, n: Number, m: Numeral)
    requires n.Decimal? && n.Normal() && m == LayoutNumeral(n.digits, n.exponent)
    requires At(t, i, NumberText(n))
    ensures i < |t| && (t[i] == MINUS <==> n.negative)
    ensures At(t, if n.negative then i + 1 else i, NumeralText(m))
  {
    if n.negative {
      AtHead(t, i, MINUS, NumeralText(m));
    } else {
      assert [] + NumeralText(m) == NumeralText(m);
      StartsWithDigit(t, i, m);
    }
  }

  lemma {:induction false} StartsWithDigit(t: Text, i: nat, m: Numeral)
    requires |m.whole| > 0 && At(t, i, NumeralText(m))
    ensures i < |t| && IsDigit(t[i])
  {
    AtSplit(t, i, DigitText(m.whole) + FractionText(m.fraction), ExponentText(m.exponent));
    AtSplit(t, i, DigitText(m.whole), FractionText(m.fraction));
    AtIndex(t, i, DigitText(m.whole), 0);
  }

  // ----------------------------------------------------------------- `_es_number`

  /** The number that `_es_number` is given. */
  function EsDecimal(negative: bool, digits: seq<Digit>, exponent: int): Number
    requires |digits| > 0 && digits[0] != 0
  {
    Decimal(negative, Stripped(digits), exponent + TrailingZeros(digits))
  }

  lemma {:induction false} ScaledTen(v: real, e: int)
    ensures Scaled(10.0 * v, e) == Scaled(v, e + 1)
    decreases if e < 0 then -e else e
  {
    if e > 0 {
      ScaledTen(v, e - 1);
    } else if e < 0 {
      ScaledTen(v, e + 1);
    }
  }

  /** Stripping zeros and counting them in the exponent leaves the value as it was. */
  lemma {:induction false} StrippingKeepsMagnitude(digits: seq<Digit>, zeros: nat, exponent: int)
    ensures Magnitude(digits + Zeros(zeros), exponent) == Magnitude(digits, exponent + zeros)
    decreases zeros
  {
    hide DigitsValue, Scaled;
    if zeros == 0 {
      assert digits + Zeros(0) == digits;
    } else {
      StrippingKeepsMagnitude(digits, zeros - 1, exponent + 1);
      OneMoreZero(digits, zeros);
      ScaledTen(DigitsValue(digits + Zeros(zeros - 1)) as real, exponent);
    }
  }

  lemma {:induction false} OneMoreZero(digits: seq<Digit>, zeros: nat)
    requires zeros > 0
    ensures DigitsValue(digits + Zeros(zeros)) as real == 10.0 * (DigitsValue(digits + Zeros(zeros - 1)) as real)
  {
    var all := digits + Zeros(zeros);
    assert all[..|all| - 1] == digits + Zeros(zeros - 1);
  }

  /**
   * What `_es_number` prints reads back as exactly the digits times ten to the exponent it was given,
   * so it prints different numbers differently.
   */
  lemma {:induction false} EsNumberIsExact(negative: bool, digits: seq<Digit>, exponent: int, t: Text)
    requires |digits| > 0 && digits[0] != 0 && t == EsNumber(negative, digits, exponent)
    ensures ReadNumber(t, 0) == Some((EsDecimal(negative, digits, exponent), |t|))
    ensures Value(EsDecimal(negative, digits, exponent)) == (if negative then -1.0 else 1.0) * Magnitude(digits, exponent)
  {
    hide ReadNumber, NumeralText, LayoutNumeral, Magnitude;
    var n := EsDecimal(negative, digits, exponent);
    assert t[0..|t|] == t;
    NumberReadsBack(t, 0, n);
    StrippingKeepsMagnitude(Stripped(digits), TrailingZeros(digits), exponent);
  }

  lemma {:induction false} EsNumberInjective(a: bool, ds: seq<Digit>, e: int, b: bool, fs: seq<Digit>, f: int)
    requires |ds| > 0 && ds[0] != 0 && |fs| > 0 && fs[0] != 0
    requires EsNumber(a, ds, e) == EsNumber(b, fs, f)
    ensures EsDecimal(a, ds, e) == EsDecimal(b, fs, f)
    ensures a == b && Magnitude(ds, e) == Magnitude(fs, f)
  {
    hide ReadNumber, EsNumber, Magnitude, Stripped, TrailingZeros;
    EsNumberIsExact(a, ds, e, EsNumber(a, ds, e));
    EsNumberIsExact(b, fs, f, EsNumber(b, fs, f));
  }
}
