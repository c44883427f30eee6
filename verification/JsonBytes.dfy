/** canonical.js `canonicalBytes` on values: which values share their canonical bytes, and what those have in common. */
module JsonBytes {
  import opened Wrappers
  import opened Hashing
  import opened Numbers
  import opened Canonical
  import opened JsonObjects
  import opened Utf8

  /** A key with every unpaired surrogate replaced. */
  function RepairedKey(key: Plain): (r: Plain)
    ensures |r| == |key|
  {
    seq(|key|, i requires 0 <= i < |key| => CodeIn(Repaired(Lift(key))[i]))
  }

  function CodeIn(c: Symbol): CodeUnit {
    if c.Unit? then c.code else 0
  }

  function RepairedJson(v: Json): Json
    decreases v
  {
    match v
    case Str(s) => Str(Repaired(s))
    case Arr(items) => Arr(RepairedItems(items))
    case Obj(fields) => Obj(RepairedFields(fields))
    case _ => v
  }

  function RepairedItems(items: seq<Json>): (r: seq<Json>)
    ensures |r| == |items|
    decreases items
  {
    if |items| == 0 then [] else [RepairedJson(items[0])] + RepairedItems(items[1..])
  }

  function RepairedFields(fields: seq<Field>): (r: seq<Field>)
    ensures |r| == |fields|
    decreases fields
  {
    if |fields| == 0 then []
    else [Field(RepairedKey(fields[0].key), RepairedJson(fields[0].value))] + RepairedFields(fields[1..])
  }

  // ------------------------------------------------------------ repairing texts

  predicate NoSurrogate(t: Text) {
    forall i | 0 <= i < |t| :: !Surrogate(t[i])
  }

  lemma {:induction false} RepairedSkips(a: Text, b: Text)
    requires NoSurrogate(a)
    ensures Repaired(a + b) == a + Repaired(b)
    decreases |a|
  {
    if |a| > 0 {
      RepairedSkips(a[1..], b);
      assert (a + b)[1..] == a[1..] + b && (a + b)[0] == a[0];
      assert a == [a[0]] + a[1..];
    } else {
      assert a + b == b;
    }
  }

  /** A join repairs piece by piece where the second piece does not complete a pair. */
  lemma {:induction false} RepairedJoin(a: Text, b: Text)
    requires |b| == 0 || !Low(b[0])
    ensures Repaired(a + b) == Repaired(a) + Repaired(b)
    decreases |a|
  {
    hide Repaired, FirstLength;
    if |a| == 0 {
      assert a + b == b && Repaired(a) == [];
    } else {
      RepairedJoin(a[FirstLength(a)..], b);
      JoinFirst(a, b);
      FirstRepaired(a);
      FirstRepaired(a + b);
    }
  }

  /** The first character of a repaired text. */
  function FirstOf(t: Text): Text
    requires |t| > 0
  {
    if Paired(t) then t[..2] else [if Surrogate(t[0]) then REPLACEMENT else t[0]]
  }

  lemma {:induction false} FirstRepaired(t: Text)
    requires |t| > 0
    ensures Repaired(t) == FirstOf(t) + Repaired(t[FirstLength(t)..])
  {
    hide Surrogate;
  }

  lemma {:induction false} JoinFirst(a: Text, b: Text)
    requires |a| > 0 && (|b| == 0 || !Low(b[0]))
    ensures FirstOf(a + b) == FirstOf(a) && FirstLength(a + b) == FirstLength(a)
    ensures (a + b)[FirstLength(a)..] == a[FirstLength(a)..] + b
  {
    assert |a| > 1 ==> (a + b)[1] == a[1] && (a + b)[..2] == a[..2];
    assert (a + b)[0] == a[0];
    assert |a| == 1 && |b| > 0 ==> (a + b)[1] == b[0];
  }

  lemma {:induction false} EscapePlain(c: Symbol)
    ensures |Escape(c)| > 0
    ensures if Surrogate(c) then Escape(c) == [c] else NoSurrogate(Escape(c))
    ensures Escape(c)[0] != REPLACEMENT || Escape(c) == [REPLACEMENT]
  {
  }

  /** Escaping first and repairing then, or the other way round. */
  lemma {:induction false} TailRepaired(s: Text)
    ensures Repaired(StringTail(s)) == StringTail(Repaired(s))
    decreases |s|
  {
    hide Escape;
    if |s| == 0 {
    } else if Paired(s) {
      PairTail(s);
      TailRepaired(s[2..]);
    } else {
      EscapePlain(s[0]);
      TailRepaired(s[1..]);
      if Surrogate(s[0]) {
        LoneTail(s);
      } else {
        RepairedSkips(Escape(s[0]), StringTail(s[1..]));
        assert Repaired(s) == [s[0]] + Repaired(s[1..]);
      }
    }
  }

  lemma {:induction false} PairTail(s: Text)
    requires Paired(s)
    ensures Repaired(StringTail(s)) == s[..2] + Repaired(StringTail(s[2..]))
    ensures StringTail(Repaired(s)) == s[..2] + StringTail(Repaired(s[2..]))
  {
    hide Escape;
    EscapePlain(s[0]);
    EscapePlain(s[1]);
    PairEscaped(s[0], s[1], s[2..]);
    PairEscaped(s[0], s[1], Repaired(s[2..]));
    assert s == [s[0], s[1]] + s[2..] && Repaired(s) == [s[0], s[1]] + Repaired(s[2..]);
    var t := StringTail(s);
    assert t[..2] == s[..2] && t[2..] == StringTail(s[2..]);
  }

  lemma {:induction false} PairEscaped(a: Symbol, b: Symbol, rest: Text)
    requires Escape(a) == [a] && Escape(b) == [b]
    ensures StringTail([a, b] + rest) == [a, b] + StringTail(rest)
  {
    hide Escape;
    var s := [a, b] + rest;
    assert s[1..] == [b] + rest && s[1..][1..] == rest;
    assert StringTail(s[1..]) == [b] + StringTail(rest);
  }

  lemma {:induction false} LoneTail(s: Text)
    requires |s| > 0 && Surrogate(s[0]) && !Paired(s)
    ensures Repaired(StringTail(s)) == [REPLACEMENT] + Repaired(StringTail(s[1..]))
    ensures StringTail(Repaired(s)) == [REPLACEMENT] + StringTail(Repaired(s[1..]))
  {
    EscapePlain(s[0]);
    var rest := StringTail(s[1..]);
    assert StringTail(s) == [s[0]] + rest;
    if |s| > 1 {
      EscapePlain(s[1]);
      assert rest[0] == Escape(s[1])[0];
    }
    assert !Low(rest[0]) || !High(s[0]);
    assert StringTail(s)[1..] == rest;
    assert Repaired(s)[1..] == Repaired(s[1..]);
  }

  lemma {:induction false} StringRepaired(s: Text)
    ensures Repaired(StringText(s)) == StringText(Repaired(s))
  {
    TailRepaired(s);
    RepairedSkips([QUOTE], StringTail(s));
  }

  lemma {:induction false} KeyLifts(key: Plain)
    ensures Lift(RepairedKey(key)) == Repaired(Lift(key))
  {
    hide Repaired, Surrogate;
    RepairedUnits(Lift(key));
    assert forall i | 0 <= i < |key| :: Unit(CodeIn(Repaired(Lift(key))[i])) == Repaired(Lift(key))[i];
  }

  lemma {:induction false} RepairedUnits(t: Text)
    ensures forall i | 0 <= i < |t| :: Repaired(t)[i] == t[i] || (Surrogate(t[i]) && Repaired(t)[i] == REPLACEMENT)
    decreases |t|
  {
    if |t| > 0 {
      var n := FirstLength(t);
      RepairedUnits(t[n..]);
      assert Repaired(t) == Repaired(t)[..n] + Repaired(t[n..]);
      forall i | 0 <= i < |t|
        ensures Repaired(t)[i] == t[i] || (Surrogate(t[i]) && Repaired(t)[i] == REPLACEMENT)
      {
        if i >= n {
          assert Repaired(t)[i] == Repaired(t[n..])[i - n] && t[i] == t[n..][i - n];
        }
      }
    }
  }

  // ----------------------------------------------------------- repairing values

  lemma {:induction false} NumberPlain(n: NormalNumber)
    ensures NoSurrogate(NumberText(n))
  {
    hide LayoutNumeral, DigitsValue;
    if n.Decimal? {
      var m := LayoutNumeral(n.digits, n.exponent);
      DigitsPlain(m.whole);
      DigitsPlain(m.fraction);
      if m.exponent.Some? {
        DigitsPlain(NatDigits(if m.exponent.value > 0 then m.exponent.value else -m.exponent.value));
      }
    }
  }

  lemma {:induction false} DigitsPlain(digits: seq<Digit>)
    ensures NoSurrogate(DigitText(digits))
  {
  }

  lemma {:induction false} PlainRepairs(t: Text)
    requires NoSurrogate(t)
    ensures Repaired(t) == t
  {
    RepairedSkips(t, []);
    assert t + [] == t;
  }

  /** The text of the repaired value is the repaired text. */
  lemma {:induction false} TextRepaired(v: Json)
    ensures Repaired(TextOf(v)) == TextOf(RepairedJson(v))
    decreases v, 0
  {
    hide Repaired, StringText, ItemsText, FieldsText, NumberText;
    match v
    case Num(n) =>
      NumberPlain(n);
      PlainRepairs(NumberText(n));
    case Str(s) => StringRepaired(s);
    case Arr(items) =>
      ItemsRepaired(items);
      RepairedSkips([OPEN_BRACKET], ItemsText(items));
    case Obj(fields) =>
      FieldsRepaired(fields);
      RepairedSkips([OPEN_BRACE], FieldsText(fields));
    case _ => PlainRepairs(TextOf(v));
  }

  lemma {:induction false} ItemsRepaired(items: seq<Json>)
    ensures Repaired(ItemsText(items)) == ItemsText(RepairedItems(items))
    decreases items, 1
  {
    hide Repaired, TextOf, RepairedJson;
    if |items| == 0 {
      PlainRepairs([CLOSE_BRACKET]);
    } else if |items| == 1 {
      TextRepaired(items[0]);
      PlainRepairs([CLOSE_BRACKET]);
      RepairedJoin(TextOf(items[0]), [CLOSE_BRACKET]);
    } else {
      TextRepaired(items[0]);
      ItemsRepaired(items[1..]);
      RepairedSkips([COMMA], ItemsText(items[1..]));
      RepairedJoin(TextOf(items[0]), [COMMA] + ItemsText(items[1..]));
      assert RepairedItems(items)[1..] == RepairedItems(items[1..]);
    }
  }

  lemma {:induction false} FieldRepaired(field: Field)
    ensures Repaired(FieldText(field)) == FieldText(Field(RepairedKey(field.key), RepairedJson(field.value)))
    decreases field, 1
  {
    hide Repaired, StringText, TextOf, RepairedJson, Lift;
    TextRepaired(field.value);
    StringRepaired(Lift(field.key));
    KeyLifts(field.key);
    RepairedSkips([COLON], TextOf(field.value));
    RepairedJoin(StringText(Lift(field.key)), [COLON] + TextOf(field.value));
  }

  lemma {:induction false} FieldsRepaired(fields: seq<Field>)
    ensures Repaired(FieldsText(fields)) == FieldsText(RepairedFields(fields))
    decreases fields, 2
  {
    hide Repaired, FieldText, RepairedJson, RepairedKey;
    if |fields| == 0 {
      PlainRepairs([CLOSE_BRACE]);
    } else if |fields| == 1 {
      FieldRepaired(fields[0]);
      PlainRepairs([CLOSE_BRACE]);
      RepairedJoin(FieldText(fields[0]), [CLOSE_BRACE]);
    } else {
      FieldRepaired(fields[0]);
      FieldsRepaired(fields[1..]);
      RepairedSkips([COMMA], FieldsText(fields[1..]));
      RepairedJoin(FieldText(fields[0]), [COMMA] + FieldsText(fields[1..]));
      assert RepairedFields(fields)[1..] == RepairedFields(fields[1..]);
    }
  }

  /** Values have the same canonical bytes exactly when they are the same once unpaired surrogates are replaced. */
  lemma {:induction false} SameBytesExactly(v: Json, w: Json)
    ensures CanonicalBytes(v) == CanonicalBytes(w) <==> RepairedJson(v) == RepairedJson(w)
  {
    hide TextOf, Encoded, Repaired, RepairedJson;
    BytesExactly(TextOf(v), TextOf(w));
    TextRepaired(v);
    TextRepaired(w);
    if CanonicalBytes(v) == CanonicalBytes(w) {
      TextInjective(RepairedJson(v), RepairedJson(w));
    }
  }

  /** Repairing a value changes none of its bytes. */
  lemma {:induction false} RepairKeepsValueBytes(v: Json)
    ensures CanonicalBytes(RepairedJson(v)) == CanonicalBytes(v)
  {
    hide TextOf, Encoded, Repaired, RepairedJson;
    TextRepaired(v);
    RepairKeepsBytes(TextOf(v));
  }

  /** No text in the value has an unpaired surrogate. */
  predicate Intact(v: Json) {
    RepairedJson(v) == v
  }

  /** On such values the bytes determine the value. */
  lemma {:induction false} IntactBytesInjective(v: Json, w: Json)
    requires Intact(v) && Intact(w) && CanonicalBytes(v) == CanonicalBytes(w)
    ensures v == w
  {
    hide RepairedJson, CanonicalBytes;
    SameBytesExactly(v, w);
  }

  /** Two texts with the same bytes that are not the same. */
  lemma {:induction false} LoneSurrogateMerges()
    ensures Str([Unit(0xD800)]) != Str([REPLACEMENT])
    ensures CanonicalBytes(Str([Unit(0xD800)])) == CanonicalBytes(Str([REPLACEMENT]))
  {
    hide CanonicalBytes;
    SameBytesExactly(Str([Unit(0xD800)]), Str([REPLACEMENT]));
    assert Repaired([Unit(0xD800)]) == [REPLACEMENT] == Repaired([REPLACEMENT]);
  }

  // -------------------------------------------------------------------- reading

  predicate AsciiKey(key: Plain) {
    forall i | 0 <= i < |key| :: key[i] < 0x80
  }

  lemma {:induction false} AsciiKeyStays(key: Plain, name: Plain)
    requires AsciiKey(name)
    ensures RepairedKey(key) == name <==> key == name
  {
    hide Repaired;
    RepairedUnits(Lift(key));
    assert forall i | 0 <= i < |key| :: RepairedKey(key)[i] < 0x80 ==> RepairedKey(key)[i] == key[i];
    if key == name {
      assert forall i | 0 <= i < |key| :: !Surrogate(Lift(key)[i]);
      assert RepairedKey(key) == key;
    }
    if RepairedKey(key) == name {
      assert key == name;
    }
  }

  /** A field that is read by an ASCII name is there, repaired, in the repaired value, and nothing else is. */
  lemma {:induction false} LookupRepaired(fields: seq<Field>, name: Plain)
    requires AsciiKey(name)
    ensures Lookup(RepairedFields(fields), name)
         == match Lookup(fields, name)
            case None => None
            case Some(v) => Some(RepairedJson(v))
    decreases |fields|
  {
    hide RepairedKey, RepairedJson, AsciiKey;
    if |fields| > 0 {
      AsciiKeyStays(fields[0].key, name);
      LookupRepaired(fields[1..], name);
      assert RepairedFields(fields)[1..] == RepairedFields(fields[1..]);
    }
  }

  lemma {:induction false} GetRepaired(v: Json, name: Plain)
    requires AsciiKey(name)
    ensures Get(RepairedJson(v), name)
         == match Get(v, name)
            case None => None
            case Some(part) => Some(RepairedJson(part))
  {
    hide AsciiKey, RepairedKey;
    if v.Obj? {
      LookupRepaired(v.fields, name);
    }
  }

  // ----------------------------------------------------------------- sequences

  lemma {:induction false} RepairedItem(items: seq<Json>, i: nat)
    requires i < |items|
    ensures RepairedItems(items)[i] == RepairedJson(items[i])
    decreases |items|
  {
    hide RepairedJson;
    if i > 0 {
      RepairedItem(items[1..], i - 1);
    }
  }

  lemma {:induction false} ItemsAlike(a: seq<Json>, b: seq<Json>)
    requires |a| == |b| && forall i | 0 <= i < |a| :: RepairedJson(a[i]) == RepairedJson(b[i])
    ensures RepairedItems(a) == RepairedItems(b)
  {
    hide RepairedJson, RepairedItems;
    forall i | 0 <= i < |a| ensures RepairedItems(a)[i] == RepairedItems(b)[i] {
      RepairedItem(a, i);
      RepairedItem(b, i);
    }
  }

  predicate AllIntact(items: seq<Json>) {
    forall i | 0 <= i < |items| :: Intact(items[i])
  }

  lemma {:induction false} IntactItems(items: seq<Json>)
    requires AllIntact(items)
    ensures RepairedItems(items) == items
  {
    hide RepairedJson, RepairedItems;
    forall i | 0 <= i < |items| ensures RepairedItems(items)[i] == items[i] {
      RepairedItem(items, i);
    }
  }
}
