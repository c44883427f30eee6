/**
 * canonical.js, canonical.py: canonical JSON text (RFC 8785 sections 3.2.2 and
 * 3.2.3) of a JSON value, and a reader that recovers the value from it.
 */
module Canonical {
  import opened Wrappers
  import opened Hashing
  import opened Numbers

  /** An object key or a plain string: UTF-16 code units. */
  type Plain = seq<CodeUnit>

  /** A JSON value. An object is listed by key; a number is in normal form. */
  datatype Json =
    | Null
    | Bool(flag: bool)
    | Num(number: NormalNumber)
    | Str(text: Text)
    | Arr(items: seq<Json>)
    | Obj(fields: seq<Field>)

  datatype Field = Field(key: Plain, value: Json)

  const QUOTE := Unit(0x22)
  const BACKSLASH := Unit(0x5C)
  const COMMA := Unit(0x2C)
  const COLON := Unit(0x3A)
  const OPEN_BRACKET := Unit(0x5B)
  const CLOSE_BRACKET := Unit(0x5D)
  const OPEN_BRACE := Unit(0x7B)
  const CLOSE_BRACE := Unit(0x7D)
  const LOWER_U := Unit(0x75)

  const NULL_TEXT: Text := [Unit(0x6E), Unit(0x75), Unit(0x6C), Unit(0x6C)]
  const TRUE_TEXT: Text := [Unit(0x74), Unit(0x72), Unit(0x75), Unit(0x65)]
  const FALSE_TEXT: Text := [Unit(0x66), Unit(0x61), Unit(0x6C), Unit(0x73), Unit(0x65)]

  function Lift(s: Plain): Text {
    seq(|s|, i requires 0 <= i < |s| => Unit(s[i]))
  }

  // -------------------------------------------------------------------- strings

  /** The letter of the two-character escape, for the code units that have one. */
  function ShortEscape(code: CodeUnit): Option<CodeUnit> {
    if code == 0x08 then Some(0x62)
    else if code == 0x09 then Some(0x74)
    else if code == 0x0A then Some(0x6E)
    else if code == 0x0C then Some(0x66)
    else if code == 0x0D then Some(0x72)
    else if code == 0x22 then Some(0x22)
    else if code == 0x5C then Some(0x5C)
    else None
  }

  function ShortMeaning(letter: CodeUnit): Option<CodeUnit> {
    if letter == 0x62 then Some(0x08)
    else if letter == 0x74 then Some(0x09)
    else if letter == 0x6E then Some(0x0A)
    else if letter == 0x66 then Some(0x0C)
    else if letter == 0x72 then Some(0x0D)
    else if letter == 0x22 then Some(0x22)
    else if letter == 0x5C then Some(0x5C)
    else None
  }

  function HexDigit(n: nat): CodeUnit
    requires n < 16
  {
    if n < 10 then 0x30 + n else 0x57 + n
  }

  function HexValue(c: CodeUnit): Option<nat> {
    if 0x30 <= c < 0x3A then Some(c - 0x30)
    else if 0x61 <= c < 0x67 then Some(c - 0x57)
    else None
  }

  function Escape(c: Symbol): Text {
    if c.HashByte? then [c]
    else
      match ShortEscape(c.code)
      case Some(letter) => [BACKSLASH, Unit(letter)]
      case None =>
        if c.code < 0x20 then
          [BACKSLASH, LOWER_U, Unit(0x30), Unit(0x30), Unit(HexDigit(c.code / 16)), Unit(HexDigit(c.code % 16))]
        else [c]
  }

  /** The escaped characters and the closing quote. */
  function StringTail(s: Text): Text {
    if |s| == 0 then [QUOTE] else Escape(s[0]) + StringTail(s[1..])
  }

  function StringText(s: Text): Text {
    [QUOTE] + StringTail(s)
  }

  /** One character of a string and where the next one starts. */
  function ReadChar(t: Text, i: nat): (r: Option<(Symbol, nat)>)
    requires i < |t|
    ensures r.Some? ==> i < r.value.1 <= |t|
  {
    if t[i] != BACKSLASH then Some((t[i], i + 1))
    else if i + 1 == |t| || !t[i + 1].Unit? then None
    else
      match ShortMeaning(t[i + 1].code)
      case Some(code) => Some((Unit(code), i + 2))
      case None =>
        if t[i + 1] == LOWER_U && i + 6 <= |t| && t[i + 4].Unit? && t[i + 5].Unit?
           && HexValue(t[i + 4].code).Some? && HexValue(t[i + 5].code).Some? then
          Some((Unit(16 * HexValue(t[i + 4].code).value + HexValue(t[i + 5].code).value), i + 6))
        else None
  }

  function ReadTail(t: Text, i: nat): (r: Option<(Text, nat)>)
    requires i <= |t|
    ensures r.Some? ==> i < r.value.1 <= |t|
    decreases |t| - i
  {
    if i == |t| then None
    else if t[i] == QUOTE then Some(([], i + 1))
    else
      match ReadChar(t, i)
      case None => None
      case Some((c, next)) =>
        match ReadTail(t, next)
        case None => None
        case Some((rest, end)) => Some(([c] + rest, end))
  }

  lemma {:induction false} CharReadsBack(t: Text, i: nat, c: Symbol)
    requires At(t, i, Escape(c))
    ensures i < |t| && t[i] != QUOTE && ReadChar(t, i) == Some((c, i + |Escape(c)|))
  {
    var e := Escape(c);
    AtIndex(t, i, e, 0);
    if |e| > 1 {
      AtIndex(t, i, e, 1);
    }
    if |e| == 6 {
      AtIndex(t, i, e, 4);
      AtIndex(t, i, e, 5);
    }
  }

  lemma {:induction false} TailReadsBack(t: Text, i: nat, s: Text)
    requires At(t, i, StringTail(s))
    ensures ReadTail(t, i) == Some((s, i + |StringTail(s)|))
    decreases |s|
  {
    hide *;
    if |s| == 0 {
      EndReadsBack(t, i);
      assert s == [];
    } else {
      var next := i + |Escape(s[0])|;
      TailSplit(t, i, s, next);
      CharReadsBack(t, i, s[0]);
      TailReadsBack(t, next, s[1..]);
      ReadTailFrom(t, i, s, next, i + |StringTail(s)|);
    }
  }

  lemma {:induction false} EndReadsBack(t: Text, i: nat)
    requires At(t, i, StringTail([]))
    ensures i <= |t| && ReadTail(t, i) == Some(([], i + |StringTail([])|))
  {
    AtIndex(t, i, StringTail([]), 0);
  }

  lemma {:induction false} TailSplit(t: Text, i: nat, s: Text, next: nat)
    requires |s| > 0 && At(t, i, StringTail(s)) && next == i + |Escape(s[0])|
    ensures At(t, i, Escape(s[0])) && next <= |t| && At(t, next, StringTail(s[1..]))
    ensures next + |StringTail(s[1..])| == i + |StringTail(s)|
  {
    hide Escape;
    AtSplit(t, i, Escape(s[0]), StringTail(s[1..]));
  }

  lemma {:induction false} ReadTailFrom(t: Text, i: nat, s: Text, next: nat, end: nat)
    requires |s| > 0 && i < |t| && t[i] != QUOTE && ReadChar(t, i) == Some((s[0], next))
    requires next <= |t| && ReadTail(t, next) == Some((s[1..], end))
    ensures ReadTail(t, i) == Some((s, end))
  {
    hide ReadChar;
    assert s == [s[0]] + s[1..];
  }

  // --------------------------------------------------------------------- values

  function TextOf(v: Json): Text
    decreases v
  {
    match v
    case Null => NULL_TEXT
    case Bool(flag) => if flag then TRUE_TEXT else FALSE_TEXT
    case Num(n) => NumberText(n)
    case Str(s) => StringText(s)
    case Arr(items) => [OPEN_BRACKET] + ItemsText(items)
    case Obj(fields) => [OPEN_BRACE] + FieldsText(fields)
  }

  /** The items, separated by commas, and the closing bracket. */
  function ItemsText(items: seq<Json>): Text
    decreases items
  {
    if |items| == 0 then [CLOSE_BRACKET]
    else if |items| == 1 then TextOf(items[0]) + [CLOSE_BRACKET]
    else TextOf(items[0]) + ([COMMA] + ItemsText(items[1..]))
  }

  function FieldText(field: Field): Text
    decreases field
  {
    StringText(Lift(field.key)) + ([COLON] + TextOf(field.value))
  }

  /** The fields, separated by commas, and the closing brace. */
  function FieldsText(fields: seq<Field>): Text
    decreases fields
  {
    if |fields| == 0 then [CLOSE_BRACE]
    else if |fields| == 1 then FieldText(fields[0]) + [CLOSE_BRACE]
    else FieldText(fields[0]) + ([COMMA] + FieldsText(fields[1..]))
  }

  // -------------------------------------------------------------------- reading

  predicate IsPlain(t: Text) {
    forall i | 0 <= i < |t| :: t[i].Unit?
  }

  function Lower(t: Text): Plain
    requires IsPlain(t)
  {
    seq(|t|, i requires 0 <= i < |t| => t[i].code)
  }

  predicate Starts(t: Text, i: nat, c: Symbol) {
    i < |t| && t[i] == c
  }

  predicate Spells(t: Text, i: nat, a: CodeUnit, b: CodeUnit, c: CodeUnit, d: CodeUnit) {
    Starts(t, i, Unit(a)) && Starts(t, i + 1, Unit(b)) && Starts(t, i + 2, Unit(c)) && Starts(t, i + 3, Unit(d))
  }

  /** A value that holds no other value. */
  function ReadScalar(t: Text, i: nat): (r: Option<(Json, nat)>)
    requires i <= |t|
    ensures r.Some? ==> i < r.value.1 <= |t|
  {
    if Starts(t, i, QUOTE) then
      (match ReadTail(t, i + 1)
       case None => None
       case Some((s, end)) => Some((Str(s), end)))
    else if Spells(t, i, 0x6E, 0x75, 0x6C, 0x6C) then Some((Null, i + 4))
    else if Spells(t, i, 0x74, 0x72, 0x75, 0x65) then Some((Bool(true), i + 4))
    else if Spells(t, i, 0x66, 0x61, 0x6C, 0x73) && Starts(t, i + 4, Unit(0x65)) then Some((Bool(false), i + 5))
    else
      match ReadNumber(t, i)
      case None => None
      case Some((n, end)) => Some((Num(n), end))
  }

  function ReadValue(t: Text, i: nat): (r: Option<(Json, nat)>)
    requires i <= |t|
    ensures r.Some? ==> i < r.value.1 <= |t|
    decreases |t| - i, 0
  {
    if Starts(t, i, OPEN_BRACKET) then
      if Starts(t, i + 1, CLOSE_BRACKET) then Some((Arr([]), i + 2))
      else
        (match ReadItems(t, i + 1)
         case None => None
         case Some((items, end)) => Some((Arr(items), end)))
    else if Starts(t, i, OPEN_BRACE) then
      if Starts(t, i + 1, CLOSE_BRACE) then Some((Obj([]), i + 2))
      else
        (match ReadFields(t, i + 1)
         case None => None
         case Some((fields, end)) => Some((Obj(fields), end)))
    else ReadScalar(t, i)
  }

  function ReadItems(t: Text, i: nat): (r: Option<(seq<Json>, nat)>)
    requires i <= |t|
    ensures r.Some? ==> i < r.value.1 <= |t|
    decreases |t| - i, 1
  {
    match ReadValue(t, i)
    case None => None
    case Some((v, next)) =>
      if Starts(t, next, CLOSE_BRACKET) then Some(([v], next + 1))
      else if Starts(t, next, COMMA) then
        match ReadItems(t, next + 1)
        case None => None
        case Some((rest, end)) => Some(([v] + rest, end))
      else None
  }

  function ReadField(t: Text, i: nat): (r: Option<(Field, nat)>)
    requires i <= |t|
    ensures r.Some? ==> i < r.value.1 <= |t|
    decreases |t| - i, 1
  {
    if !Starts(t, i, QUOTE) then None
    else
      match ReadTail(t, i + 1)
      case None => None
      case Some((key, next)) =>
        if !IsPlain(key) || !Starts(t, next, COLON) then None
        else
          match ReadValue(t, next + 1)
          case None => None
          case Some((v, end)) => Some((Field(Lower(key), v), end))
  }

  function ReadFields(t: Text, i: nat): (r: Option<(seq<Field>, nat)>)
    requires i <= |t|
    ensures r.Some? ==> i < r.value.1 <= |t|
    decreases |t| - i, 2
  {
    match ReadField(t, i)
    case None => None
    case Some((f, next)) =>
      if Starts(t, next, CLOSE_BRACE) then Some(([f], next + 1))
      else if Starts(t, next, COMMA) then
        match ReadFields(t, next + 1)
        case None => None
        case Some((rest, end)) => Some(([f] + rest, end))
      else None
  }

  // ------------------------------------------------------------- reading it back

  /** Reading canonical text gives the value it is the text of, whatever follows it. */
  lemma {:induction false} ValueReadsBack(t: Text, i: nat, v: Json)
    requires At(t, i, TextOf(v)) && NumberEnds(t, i + |TextOf(v)|)
    ensures ReadValue(t, i) == Some((v, i + |TextOf(v)|))
    decreases v, 0
  {
    hide *;
    match v
    case Arr(items) =>
      ArrSplit(t, i, items);
      if |items| > 0 {
        ItemsReadBack(t, i + 1, items);
        ReadArr(t, i, items, i + |TextOf(v)|);
      }
    case Obj(fields) =>
      ObjSplit(t, i, fields);
      if |fields| > 0 {
        FieldsReadBack(t, i + 1, fields);
        ReadObj(t, i, fields, i + |TextOf(v)|);
      }
    case _ => ScalarReadsBack(t, i, v);
  }

  lemma {:induction false} ArrSplit(t: Text, i: nat, items: seq<Json>)
    requires At(t, i, TextOf(Arr(items)))
    ensures Starts(t, i, OPEN_BRACKET) && i < |t|
    ensures |items| > 0 ==> At(t, i + 1, ItemsText(items)) && |TextOf(Arr(items))| == 1 + |ItemsText(items)|
    ensures |items| == 0 ==> ReadValue(t, i) == Some((Arr(items), i + |TextOf(Arr(items))|))
  {
    hide ReadItems, ReadFields, ReadScalar;
    AtHead(t, i, OPEN_BRACKET, ItemsText(items));
    if |items| == 0 {
      AtHead(t, i + 1, CLOSE_BRACKET, []);
    }
  }

  lemma {:induction false} ReadArr(t: Text, i: nat, items: seq<Json>, end: nat)
    requires Starts(t, i, OPEN_BRACKET) && i < |t| && !Starts(t, i + 1, CLOSE_BRACKET)
    requires ReadItems(t, i + 1) == Some((items, end))
    ensures ReadValue(t, i) == Some((Arr(items), end))
  {
    hide ReadItems, ReadFields, ReadScalar;
  }

  lemma {:induction false} ObjSplit(t: Text, i: nat, fields: seq<Field>)
    requires At(t, i, TextOf(Obj(fields)))
    ensures Starts(t, i, OPEN_BRACE) && i < |t|
    ensures |fields| > 0 ==> At(t, i + 1, FieldsText(fields)) && |TextOf(Obj(fields))| == 1 + |FieldsText(fields)|
    ensures |fields| == 0 ==> ReadValue(t, i) == Some((Obj(fields), i + |TextOf(Obj(fields))|))
  {
    hide ReadItems, ReadFields, ReadScalar;
    AtHead(t, i, OPEN_BRACE, FieldsText(fields));
    if |fields| == 0 {
      AtHead(t, i + 1, CLOSE_BRACE, []);
    }
  }

  lemma {:induction false} ReadObj(t: Text, i: nat, fields: seq<Field>, end: nat)
    requires Starts(t, i, OPEN_BRACE) && i < |t| && !Starts(t, i + 1, CLOSE_BRACE)
    requires ReadFields(t, i + 1) == Some((fields, end))
    ensures ReadValue(t, i) == Some((Obj(fields), end))
  {
    hide ReadItems, ReadFields, ReadScalar;
  }

  lemma {:induction false} ScalarReadsBack(t: Text, i: nat, v: Json)
    requires !v.Arr? && !v.Obj?
    requires At(t, i, TextOf(v)) && NumberEnds(t, i + |TextOf(v)|)
    ensures ReadValue(t, i) == Some((v, i + |TextOf(v)|))
  {
    hide ReadValue, ReadScalar, At, NumberEnds, StringText, NumberText;
    match v
    case Null => WordReadsBack(t, i, v);
    case Bool(flag) => WordReadsBack(t, i, v);
    case Num(n) => NumReadsBack(t, i, n);
    case Str(s) => StrReadsBack(t, i, s);
  }

  lemma {:induction false} StrReadsBack(t: Text, i: nat, s: Text)
    requires At(t, i, StringText(s))
    ensures ReadValue(t, i) == Some((Str(s), i + |StringText(s)|))
  {
    hide ReadItems, ReadFields, ReadTail, StringTail, At;
    AtHead(t, i, QUOTE, StringTail(s));
    TailReadsBack(t, i + 1, s);
  }

  lemma {:induction false} WordReadsBack(t: Text, i: nat, v: Json)
    requires v.Null? || v.Bool?
    requires At(t, i, TextOf(v))
    ensures ReadValue(t, i) == Some((v, i + |TextOf(v)|))
  {
    hide ReadItems, ReadFields, ReadTail, At, ReadNumber;
    WordLetters(t, i, TextOf(v));
  }

  lemma {:induction false} NumReadsBack(t: Text, i: nat, n: NormalNumber)
    requires At(t, i, NumberText(n)) && NumberEnds(t, i + |NumberText(n)|)
    ensures ReadValue(t, i) == Some((Num(n), i + |NumberText(n)|))
  {
    hide *;
    NumberStarts(t, i, n);
    NumberReadsBack(t, i, n);
    ReadNum(t, i, n, i + |NumberText(n)|);
  }

  lemma {:induction false} ReadNum(t: Text, i: nat, n: NormalNumber, end: nat)
    requires i < |t| && (t[i] == MINUS || IsDigit(t[i])) && ReadNumber(t, i) == Some((n, end))
    ensures ReadValue(t, i) == Some((Num(n), end))
  {
    hide ReadNumber, ReadItems, ReadFields, ReadTail;
  }

  lemma {:induction false} WordLetters(t: Text, i: nat, word: Text)
    requires 4 <= |word| <= 5 && At(t, i, word)
    ensures Starts(t, i, word[0]) && Starts(t, i + 1, word[1]) && Starts(t, i + 2, word[2]) && Starts(t, i + 3, word[3])
    ensures |word| == 5 ==> Starts(t, i + 4, word[4])
  {
    AtIndex(t, i, word, 0);
    AtIndex(t, i, word, 1);
    AtIndex(t, i, word, 2);
    AtIndex(t, i, word, 3);
    if |word| == 5 {
      AtIndex(t, i, word, 4);
    }
  }

  lemma {:induction false} LiteralHead(t: Text, i: nat, word: Text)
    requires |word| > 0 && At(t, i, word)
    ensures i < |t| && t[i] == word[0]
  {
    AtIndex(t, i, word, 0);
  }

  lemma {:induction false} ItemsReadBack(t: Text, i: nat, items: seq<Json>)
    requires |items| > 0 && At(t, i, ItemsText(items))
    ensures ReadItems(t, i) == Some((items, i + |ItemsText(items)|))
    ensures i < |t| && !Starts(t, i, CLOSE_BRACKET)
    decreases items, 1
  {
    hide *;
    var next := i + |TextOf(items[0])|;
    if |items| == 1 {
      LastItemSplit(t, i, items);
      ValueReadsBack(t, i, items[0]);
      ReadLastItem(t, i, items, next);
    } else {
      ItemsSplit(t, i, items, next);
      ValueReadsBack(t, i, items[0]);
      ItemsReadBack(t, next + 1, items[1..]);
      ReadMoreItems(t, i, items, next, i + |ItemsText(items)|);
    }
    ValueHead(t, i, items[0]);
  }

  lemma {:induction false} LastItemSplit(t: Text, i: nat, items: seq<Json>)
    requires |items| == 1 && At(t, i, ItemsText(items))
    ensures At(t, i, TextOf(items[0])) && Starts(t, i + |TextOf(items[0])|, CLOSE_BRACKET)
    ensures NumberEnds(t, i + |TextOf(items[0])|)
    ensures |ItemsText(items)| == |TextOf(items[0])| + 1
  {
    AtSplit(t, i, TextOf(items[0]), [CLOSE_BRACKET]);
    AtHead(t, i + |TextOf(items[0])|, CLOSE_BRACKET, []);
  }

  lemma {:induction false} ItemsSplit(t: Text, i: nat, items: seq<Json>, next: nat)
    requires |items| > 1 && At(t, i, ItemsText(items)) && next == i + |TextOf(items[0])|
    ensures At(t, i, TextOf(items[0])) && Starts(t, next, COMMA) && At(t, next + 1, ItemsText(items[1..]))
    ensures NumberEnds(t, next) && next < |t|
    ensures i + |ItemsText(items)| == next + 1 + |ItemsText(items[1..])|
  {
    AtSplit(t, i, TextOf(items[0]), [COMMA] + ItemsText(items[1..]));
    AtHead(t, next, COMMA, ItemsText(items[1..]));
  }

  lemma {:induction false} ReadLastItem(t: Text, i: nat, items: seq<Json>, next: nat)
    requires i <= |t| && |items| == 1 && ReadValue(t, i) == Some((items[0], next)) && Starts(t, next, CLOSE_BRACKET)
    ensures ReadItems(t, i) == Some((items, next + 1))
  {
    assert items == [items[0]];
  }

  lemma {:induction false} ReadMoreItems(t: Text, i: nat, items: seq<Json>, next: nat, end: nat)
    requires i <= |t| && |items| > 1 && ReadValue(t, i) == Some((items[0], next)) && Starts(t, next, COMMA)
    requires next < |t| && ReadItems(t, next + 1) == Some((items[1..], end))
    ensures ReadItems(t, i) == Some((items, end))
  {
    assert items == [items[0]] + items[1..];
  }

  /** No value starts like the end of an array. */
  lemma {:induction false} ValueHead(t: Text, i: nat, v: Json)
    requires At(t, i, TextOf(v))
    ensures i < |t| && !Starts(t, i, CLOSE_BRACKET)
  {
    hide At, NumberText, ItemsText, FieldsText, StringTail;
    match v
    case Null => LiteralHead(t, i, NULL_TEXT);
    case Bool(flag) => LiteralHead(t, i, if flag then TRUE_TEXT else FALSE_TEXT);
    case Num(n) => NumberStarts(t, i, n);
    case Str(s) => LiteralHead(t, i, StringText(s));
    case Arr(items) => LiteralHead(t, i, [OPEN_BRACKET] + ItemsText(items));
    case Obj(fields) => LiteralHead(t, i, [OPEN_BRACE] + FieldsText(fields));
  }

  lemma {:induction false} FieldReadsBack(t: Text, i: nat, field: Field)
    requires At(t, i, FieldText(field)) && NumberEnds(t, i + |FieldText(field)|)
    ensures ReadField(t, i) == Some((field, i + |FieldText(field)|))
    ensures i < |t| && !Starts(t, i, CLOSE_BRACE)
    decreases field, 0
  {
    hide *;
    var next := i + |StringText(Lift(field.key))|;
    FieldSplit(t, i, field, next);
    KeyReadsBack(t, i, field.key);
    ValueReadsBack(t, next + 1, field.value);
    ReadFieldFrom(t, i, field, next, next + 1 + |TextOf(field.value)|);
  }

  lemma {:induction false} FieldSplit(t: Text, i: nat, field: Field, next: nat)
    requires At(t, i, FieldText(field)) && next == i + |StringText(Lift(field.key))|
    ensures At(t, i, StringText(Lift(field.key))) && Starts(t, next, COLON) && At(t, next + 1, TextOf(field.value))
    ensures next < |t| && i + |FieldText(field)| == next + 1 + |TextOf(field.value)|
  {
    hide At, StringText, TextOf;
    AtSplit(t, i, StringText(Lift(field.key)), [COLON] + TextOf(field.value));
    AtHead(t, next, COLON, TextOf(field.value));
  }

  lemma {:induction false} ReadFieldFrom(t: Text, i: nat, field: Field, next: nat, end: nat)
    requires Starts(t, i, QUOTE) && ReadTail(t, i + 1) == Some((Lift(field.key), next))
    requires Starts(t, next, COLON) && ReadValue(t, next + 1) == Some((field.value, end))
    requires IsPlain(Lift(field.key)) && Lower(Lift(field.key)) == field.key
    ensures ReadField(t, i) == Some((field, end)) && !Starts(t, i, CLOSE_BRACE)
  {
    hide ReadTail, ReadValue, Lift, Lower;
  }

  lemma {:induction false} KeyReadsBack(t: Text, i: nat, key: Plain)
    requires At(t, i, StringText(Lift(key)))
    ensures i < |t| && Starts(t, i, QUOTE) && ReadTail(t, i + 1) == Some((Lift(key), i + |StringText(Lift(key))|))
    ensures IsPlain(Lift(key)) && Lower(Lift(key)) == key
  {
    AtHead(t, i, QUOTE, StringTail(Lift(key)));
    TailReadsBack(t, i + 1, Lift(key));
  }

  lemma {:induction false} FieldsReadBack(t: Text, i: nat, fields: seq<Field>)
    requires |fields| > 0 && At(t, i, FieldsText(fields))
    ensures ReadFields(t, i) == Some((fields, i + |FieldsText(fields)|))
    ensures i < |t| && !Starts(t, i, CLOSE_BRACE)
    decreases fields, 1
  {
    hide *;
    var next := i + |FieldText(fields[0])|;
    if |fields| == 1 {
      LastFieldSplit(t, i, fields);
      FieldReadsBack(t, i, fields[0]);
      ReadLastField(t, i, fields, next);
    } else {
      FieldsSplit(t, i, fields, next);
      FieldReadsBack(t, i, fields[0]);
      FieldsReadBack(t, next + 1, fields[1..]);
      ReadMoreFields(t, i, fields, next, i + |FieldsText(fields)|);
    }
  }

  lemma {:induction false} ReadLastField(t: Text, i: nat, fields: seq<Field>, next: nat)
    requires i <= |t| && |fields| == 1 && ReadField(t, i) == Some((fields[0], next)) && Starts(t, next, CLOSE_BRACE)
    ensures ReadFields(t, i) == Some((fields, next + 1))
  {
    assert fields == [fields[0]];
  }

  lemma {:induction false} ReadMoreFields(t: Text, i: nat, fields: seq<Field>, next: nat, end: nat)
    requires i <= |t| && |fields| > 1 && ReadField(t, i) == Some((fields[0], next)) && Starts(t, next, COMMA)
    requires next < |t| && ReadFields(t, next + 1) == Some((fields[1..], end))
    ensures ReadFields(t, i) == Some((fields, end))
  {
    assert fields == [fields[0]] + fields[1..];
  }

  lemma {:induction false} LastFieldSplit(t: Text, i: nat, fields: seq<Field>)
    requires |fields| == 1 && At(t, i, FieldsText(fields))
    ensures At(t, i, FieldText(fields[0])) && Starts(t, i + |FieldText(fields[0])|, CLOSE_BRACE)
    ensures NumberEnds(t, i + |FieldText(fields[0])|)
    ensures |FieldsText(fields)| == |FieldText(fields[0])| + 1
  {
    AtSplit(t, i, FieldText(fields[0]), [CLOSE_BRACE]);
    AtHead(t, i + |FieldText(fields[0])|, CLOSE_BRACE, []);
  }

  lemma {:induction false} FieldsSplit(t: Text, i: nat, fields: seq<Field>, next: nat)
    requires |fields| > 1 && At(t, i, FieldsText(fields)) && next == i + |FieldText(fields[0])|
    ensures At(t, i, FieldText(fields[0])) && Starts(t, next, COMMA) && At(t, next + 1, FieldsText(fields[1..]))
    ensures NumberEnds(t, next) && next < |t|
    ensures i + |FieldsText(fields)| == next + 1 + |FieldsText(fields[1..])|
  {
    AtSplit(t, i, FieldText(fields[0]), [COMMA] + FieldsText(fields[1..]));
    AtHead(t, next, COMMA, FieldsText(fields[1..]));
  }

  /** The whole text of a value reads back as that value. */
  lemma {:induction false} TextReadsBack(v: Json)
    ensures ReadValue(TextOf(v), 0) == Some((v, |TextOf(v)|))
  {
    hide TextOf, ReadValue;
    assert TextOf(v)[0..|TextOf(v)|] == TextOf(v);
    ValueReadsBack(TextOf(v), 0, v);
  }

  /** Canonical text is injective. */
  lemma {:induction false} TextInjective(v: Json, w: Json)
    requires TextOf(v) == TextOf(w)
    ensures v == w
  {
    hide TextOf, ReadValue;
    TextReadsBack(v);
    TextReadsBack(w);
  }
}
