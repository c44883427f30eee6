/**
 * canonical.js `canonicalize`, `encodeString`, `encodeNumber`: from a JavaScript value, with its
 * properties in the order they were written, to canonical text.
 */
module Canonicalizer {
  import opened Wrappers
  import opened Hashing
  import opened Numbers
  import opened Canonical
  import opened JsonObjects

  datatype JsNumber = Finite(value: NormalNumber) | NegativeZero | NonFinite

  /** `Unsupported` is a bigint, a function or a symbol; a date carries its ISO text. */
  datatype Value =
    | Undefined
    | NullValue
    | Boolean(flag: bool)
    | Number(number: JsNumber)
    | String(text: Text)
    | Unsupported
    | Array(items: seq<Value>)
    | Date(iso: Text)
    | Object(props: seq<Prop>)

  datatype Prop = Prop(key: Plain, value: Value)

  // ------------------------------------------------------------------- meaning

  /** The JSON value a JavaScript value stands for, or nothing where canonicalizing it throws. */
  function Denote(v: Value): Option<Json>
    decreases v, 0
  {
    match v
    case NullValue => Some(Null)
    case Boolean(flag) => Some(Bool(flag))
    case Number(Finite(n)) => Some(Num(n))
    case Number(NegativeZero) => Some(Num(Zero))
    case String(text) => Some(Str(text))
    case Date(iso) => Some(Str(iso))
    case Array(items) =>
      (match DenoteItems(items)
       case Some(all) => Some(Arr(all))
       case None => None)
    case Object(props) =>
      (match DenoteProps(props)
       case Some(fields) => Some(Obj(JsonObjects.Object(fields)))
       case None => None)
    case _ => None
  }

  /** An `undefined` item is `null`. */
  function DenoteItem(v: Value): Option<Json>
    decreases v, 1
  {
    if v.Undefined? then Some(Null) else Denote(v)
  }

  function DenoteItems(items: seq<Value>): (all: Option<seq<Json>>)
    ensures all.Some? ==> |all.value| == |items|
    decreases items, 2
  {
    if |items| == 0 then Some([])
    else
      match (DenoteItem(items[0]), DenoteItems(items[1..]))
      case (Some(first), Some(rest)) => Some([first] + rest)
      case _ => None
  }

  /** An `undefined` property is dropped. */
  function DenoteProps(props: seq<Prop>): Option<seq<Field>>
    decreases props, 2
  {
    if |props| == 0 then Some([])
    else if props[0].value.Undefined? then DenoteProps(props[1..])
    else
      match (Denote(props[0].value), DenoteProps(props[1..]))
      case (Some(first), Some(rest)) => Some([Field(props[0].key, first)] + rest)
      case _ => None
  }

  // --------------------------------------------------------------------- sorting

  predicate OrderedProps(props: seq<Prop>) {
    forall i, j | 0 <= i < j < |props| :: KeyLess(props[i].key, props[j].key)
  }

  predicate DistinctProps(props: seq<Prop>) {
    forall i, j | 0 <= i < j < |props| :: props[i].key != props[j].key
  }

  function InsertProp(props: seq<Prop>, prop: Prop): (r: seq<Prop>)
    ensures |r| == |props| + 1
  {
    if |props| == 0 || KeyLess(prop.key, props[0].key) then [prop] + props
    else [props[0]] + InsertProp(props[1..], prop)
  }

  /** The properties in the order `Object.keys(obj).sort()` visits them. */
  function SortProps(props: seq<Prop>): (r: seq<Prop>)
    ensures |r| == |props|
  {
    if |props| == 0 then [] else InsertProp(SortProps(props[..|props| - 1]), props[|props| - 1])
  }

  lemma {:induction false} InsertPropMember(props: seq<Prop>, prop: Prop, x: Prop)
    ensures x in InsertProp(props, prop) <==> x == prop || x in props
    decreases |props|
  {
    if |props| > 0 && !KeyLess(prop.key, props[0].key) {
      InsertPropMember(props[1..], prop, x);
      assert props == [props[0]] + props[1..];
    }
  }

  lemma {:induction false} SortMember(props: seq<Prop>, x: Prop)
    ensures x in SortProps(props) <==> x in props
    decreases |props|
  {
    if |props| > 0 {
      var last := |props| - 1;
      SortMember(props[..last], x);
      InsertPropMember(SortProps(props[..last]), props[last], x);
      assert props == props[..last] + [props[last]];
    }
  }

  lemma {:induction false} InsertPropOrdered(props: seq<Prop>, prop: Prop)
    requires OrderedProps(props) && forall x | x in props :: x.key != prop.key
    ensures OrderedProps(InsertProp(props, prop))
    decreases |props|
  {
    if |props| == 0 || KeyLess(prop.key, props[0].key) {
      PropFirst(prop, props);
    } else {
      InsertPropOrdered(props[1..], prop);
      KeyLessTotal(prop.key, props[0].key);
      var rest := InsertProp(props[1..], prop);
      InsertPropMember(props[1..], prop, rest[0]);
      PropFirst(props[0], rest);
    }
  }

  lemma {:induction false} PropFirst(prop: Prop, props: seq<Prop>)
    requires OrderedProps(props) && (|props| > 0 ==> KeyLess(prop.key, props[0].key))
    ensures OrderedProps([prop] + props)
  {
    forall j | 0 < j < |props| ensures KeyLess(prop.key, props[j].key) {
      KeyLessTransitive(prop.key, props[0].key, props[j].key);
    }
  }

  lemma {:induction false} SortOrders(props: seq<Prop>)
    requires DistinctProps(props)
    ensures OrderedProps(SortProps(props))
    decreases |props|
  {
    if |props| > 0 {
      var last := |props| - 1;
      SortOrders(props[..last]);
      forall x | x in SortProps(props[..last]) ensures x.key != props[last].key {
        SortMember(props[..last], x);
      }
      InsertPropOrdered(SortProps(props[..last]), props[last]);
    }
  }

  // -------------------------------------------------- sorting before or after

  /** One more property at the end. */
  lemma {:induction false} DenoteAppend(props: seq<Prop>, prop: Prop)
    ensures DenoteProps(props + [prop]) ==
            if prop.value.Undefined? then DenoteProps(props)
            else match (DenoteProps(props), Denote(prop.value))
                 case (Some(fields), Some(j)) => Some(fields + [Field(prop.key, j)])
                 case _ => None
    decreases |props|
  {
    hide Denote;
    var all := props + [prop];
    if |props| > 0 {
      DenoteAppend(props[1..], prop);
      assert all[1..] == props[1..] + [prop];
      AppendsAfter(props, prop);
    } else {
      assert all[1..] == [] && all[0] == prop;
      if Denote(prop.value).Some? {
        var field := Field(prop.key, Denote(prop.value).value);
        assert [field] + [] == [] + [field];
      }
    }
  }

  lemma {:induction false} AppendsAfter(props: seq<Prop>, prop: Prop)
    requires |props| > 0
    ensures DenoteProps(props).Some? && Denote(prop.value).Some? && !props[0].value.Undefined? ==>
              DenoteProps(props).value + [Field(prop.key, Denote(prop.value).value)]
              == [Field(props[0].key, Denote(props[0].value).value)]
                 + (DenoteProps(props[1..]).value + [Field(prop.key, Denote(prop.value).value)])
  {
    hide Denote;
  }

  lemma {:induction false} DenotedMember(props: seq<Prop>, i: nat)
    requires DenoteProps(props).Some? && i < |DenoteProps(props).value|
    ensures exists j | 0 <= j < |props| :: props[j].key == DenoteProps(props).value[i].key
    decreases |props|
  {
    hide Denote;
    if props[0].value.Undefined? {
      DenotedMember(props[1..], i);
      var j :| 0 <= j < |props| - 1 && props[1..][j].key == DenoteProps(props).value[i].key;
      assert props[j + 1].key == DenoteProps(props).value[i].key;
    } else if i > 0 {
      DenotedMember(props[1..], i - 1);
      var j :| 0 <= j < |props| - 1 && props[1..][j].key == DenoteProps(props[1..]).value[i - 1].key;
      assert props[j + 1].key == DenoteProps(props).value[i].key;
    } else {
      assert props[0].key == DenoteProps(props).value[i].key;
    }
  }

  /** A property inserted before all others is a field inserted before all others. */
  lemma {:induction false} InsertsFirst(props: seq<Prop>, fields: seq<Field>, field: Field)
    requires OrderedProps(props) && DenoteProps(props) == Some(fields)
    requires |props| > 0 ==> KeyLess(field.key, props[0].key)
    ensures Insert(fields, field) == [field] + fields
  {
    hide DenoteProps, KeyLess;
    if |fields| > 0 {
      DenotedMember(props, 0);
      var j :| 0 <= j < |props| && props[j].key == fields[0].key;
      if j > 0 {
        KeyLessTransitive(field.key, props[0].key, props[j].key);
      }
    }
  }

  /** Denoting the properties after an insertion is inserting what the property denotes. */
  lemma {:induction false} DenoteInsert(props: seq<Prop>, prop: Prop)
    requires OrderedProps(props)
    ensures DenoteProps(InsertProp(props, prop)) ==
            if prop.value.Undefined? then DenoteProps(props)
            else match (DenoteProps(props), Denote(prop.value))
                 case (Some(fields), Some(j)) => Some(Insert(fields, Field(prop.key, j)))
                 case _ => None
    decreases |props|
  {
    hide Denote, KeyLess;
    if |props| == 0 || KeyLess(prop.key, props[0].key) {
      assert ([prop] + props)[1..] == props;
      if DenoteProps(props).Some? && Denote(prop.value).Some? {
        InsertsFirst(props, DenoteProps(props).value, Field(prop.key, Denote(prop.value).value));
      }
    } else {
      DenoteInsert(props[1..], prop);
      assert ([props[0]] + InsertProp(props[1..], prop))[1..] == InsertProp(props[1..], prop);
      InsertsLater(props, prop);
    }
  }

  lemma {:induction false} InsertsLater(props: seq<Prop>, prop: Prop)
    requires |props| > 0 && !KeyLess(prop.key, props[0].key)
    ensures DenoteProps(props).Some? && Denote(prop.value).Some? && !props[0].value.Undefined? ==>
              Insert(DenoteProps(props).value, Field(prop.key, Denote(prop.value).value))
              == [Field(props[0].key, Denote(props[0].value).value)]
                 + Insert(DenoteProps(props[1..]).value, Field(prop.key, Denote(prop.value).value))
  {
    hide Denote, KeyLess;
    if DenoteProps(props).Some? && !props[0].value.Undefined? {
      var fields := DenoteProps(props).value;
      assert fields[1..] == DenoteProps(props[1..]).value;
    }
  }

  /** Sorting the properties first and sorting what they denote are the same. */
  lemma {:induction false} DenoteSorted(props: seq<Prop>)
    requires DistinctProps(props)
    ensures DenoteProps(SortProps(props)) ==
            match DenoteProps(props)
            case Some(fields) => Some(JsonObjects.Object(fields))
            case None => None
    decreases |props|
  {
    hide Denote, DenoteProps, Insert, InsertProp;
    if |props| == 0 {
      NothingDenoted();
    } else {
      var last := |props| - 1;
      assert props == props[..last] + [props[last]];
      DenoteSorted(props[..last]);
      SortOrders(props[..last]);
      DenoteInsert(SortProps(props[..last]), props[last]);
      DenoteAppend(props[..last], props[last]);
      if DenoteProps(props).Some? && !props[last].value.Undefined? {
        ObjectAppend(DenoteProps(props[..last]).value, Field(props[last].key, Denote(props[last].value).value));
      }
    }
  }

  lemma {:induction false} NothingDenoted()
    ensures DenoteProps([]) == Some([])
  {
  }

  lemma {:induction false} ObjectAppend(fields: seq<Field>, field: Field)
    ensures JsonObjects.Object(fields + [field]) == Insert(JsonObjects.Object(fields), field)
  {
    hide Insert;
    assert (fields + [field])[..|fields|] == fields;
  }

  // ------------------------------------------------------------- joining the parts

  function Join(parts: seq<Text>): Text {
    if |parts| == 0 then [] else if |parts| == 1 then parts[0] else parts[0] + ([COMMA] + Join(parts[1..]))
  }

  predicate ItemParts(parts: seq<Text>, items: seq<Json>) {
    |parts| == |items| && forall i | 0 <= i < |items| :: parts[i] == TextOf(items[i])
  }

  predicate FieldParts(parts: seq<Text>, fields: seq<Field>) {
    |parts| == |fields| && forall i | 0 <= i < |fields| :: parts[i] == FieldText(fields[i])
  }

  lemma {:induction false} JoinItems(parts: seq<Text>, items: seq<Json>)
    requires ItemParts(parts, items)
    ensures Join(parts) + [CLOSE_BRACKET] == ItemsText(items)
    decreases |parts|
  {
    hide TextOf;
    if |parts| > 1 {
      JoinItems(parts[1..], items[1..]);
      assert parts[0] + ([COMMA] + Join(parts[1..])) + [CLOSE_BRACKET]
          == parts[0] + ([COMMA] + (Join(parts[1..]) + [CLOSE_BRACKET]));
    }
  }

  lemma {:induction false} JoinFields(parts: seq<Text>, fields: seq<Field>)
    requires FieldParts(parts, fields)
    ensures Join(parts) + [CLOSE_BRACE] == FieldsText(fields)
    decreases |parts|
  {
    hide FieldText;
    if |parts| > 1 {
      JoinFields(parts[1..], fields[1..]);
      assert parts[0] + ([COMMA] + Join(parts[1..])) + [CLOSE_BRACE]
          == parts[0] + ([COMMA] + (Join(parts[1..]) + [CLOSE_BRACE]));
    }
  }

  lemma {:induction false} DenoteItemsAt(items: seq<Value>)
    ensures DenoteItems(items).Some? <==> forall i | 0 <= i < |items| :: DenoteItem(items[i]).Some?
    ensures DenoteItems(items).Some? ==>
              forall i | 0 <= i < |items| :: DenoteItems(items).value[i] == DenoteItem(items[i]).value
    decreases |items|
  {
    hide DenoteItem;
    if |items| > 0 {
      DenoteItemsAt(items[1..]);
      assert forall i | 0 < i < |items| :: items[i] == items[1..][i - 1];
    }
  }

  /** A property that cannot be denoted spoils the object. */
  lemma {:induction false} DenoteFails(props: seq<Prop>, i: nat)
    requires i < |props| && !props[i].value.Undefined? && Denote(props[i].value).None?
    ensures DenoteProps(props).None?
    decreases i
  {
    hide Denote;
    if i > 0 {
      DenoteFails(props[1..], i - 1);
    }
  }

  // --------------------------------------------------------------------- methods

  /** A JavaScript object has one property of a name. */
  predicate WellFormed(v: Value)
    decreases v
  {
    match v
    case Array(items) => forall i | 0 <= i < |items| :: WellFormed(items[i])
    case Object(props) => DistinctProps(props) && forall i | 0 <= i < |props| :: WellFormed(props[i].value)
    case _ => true
  }

  function TextFor(v: Option<Json>): Option<Text> {
    match v
    case Some(j) => Some(TextOf(j))
    case None => None
  }

  method EncodeString(s: Text) returns (out: Text)
    ensures out == StringText(s)
  {
    hide Escape;
    out := [QUOTE];
    for i := 0 to |s|
      invariant out + StringTail(s[i..]) == StringText(s)
    {
      ghost var before := out;
      out := out + Escape(s[i]);
      assert s[i..][1..] == s[i + 1..];
      assert before + (Escape(s[i]) + StringTail(s[i + 1..])) == out + StringTail(s[i + 1..]);
    }
    out := out + [QUOTE];
  }

  method EncodeNumber(n: JsNumber) returns (text: Option<Text>)
    ensures text == TextFor(Denote(Number(n)))
  {
    match n
    case NonFinite => text := None;
    case NegativeZero => text := Some([Unit(0x30)]);
    case Finite(value) => text := Some(NumberText(value));
  }

  /** Throws exactly where the value denotes nothing, and otherwise writes the canonical text of what it denotes. */
  method Canonicalize(v: Value) returns (text: Option<Text>)
    requires WellFormed(v)
    ensures text == TextFor(Denote(v))
    decreases v, 3
  {
    hide DenoteItems, DenoteProps, ItemsText, FieldsText, NumberText, StringText, JsonObjects.Object, DistinctProps;
    match v
    case NullValue => text := Some(NULL_TEXT);
    case Boolean(flag) => text := Some(if flag then TRUE_TEXT else FALSE_TEXT);
    case Number(n) => text := EncodeNumber(n);
    case String(s) =>
      var encoded := EncodeString(s);
      text := Some(encoded);
    case Date(iso) =>
      var encoded := EncodeString(iso);
      text := Some(encoded);
    case Array(items) => text := CanonicalizeArray(v, items);
    case Object(props) => text := CanonicalizeObject(v, props);
    case _ => text := None;
  }

  method CanonicalizeArray(v: Value, items: seq<Value>) returns (text: Option<Text>)
    requires v == Array(items) && WellFormed(v)
    ensures text == TextFor(Denote(v))
    decreases v, 2
  {
    hide Denote, TextOf, WellFormed, DenoteItems, DenoteItem;
    DenoteItemsAt(items);
    ArrayDenotes(v, items);
    var parts: seq<Text> := [];
    for i := 0 to |items|
      invariant |parts| == i
      invariant forall j | 0 <= j < i :: DenoteItem(items[j]).Some? && parts[j] == TextOf(DenoteItem(items[j]).value)
    {
      ItemWellFormed(v, items, i);
      var part := CanonicalizeItem(v, items, i);
      if part.None? {
        return None;
      }
      parts := parts + [part.value];
    }
    JoinItems(parts, DenoteItems(items).value);
    ArrayText(parts, DenoteItems(items).value);
    return Some([OPEN_BRACKET] + (Join(parts) + [CLOSE_BRACKET]));
  }

  lemma {:induction false} ItemWellFormed(v: Value, items: seq<Value>, i: nat)
    requires v == Array(items) && WellFormed(v) && i < |items|
    ensures WellFormed(items[i])
  {
  }

  lemma {:induction false} ArrayDenotes(v: Value, items: seq<Value>)
    requires v == Array(items)
    ensures Denote(v) == match DenoteItems(items) case Some(all) => Some(Arr(all)) case None => None
  {
    hide DenoteItems;
  }

  lemma {:induction false} ArrayText(parts: seq<Text>, all: seq<Json>)
    requires Join(parts) + [CLOSE_BRACKET] == ItemsText(all)
    ensures [OPEN_BRACKET] + (Join(parts) + [CLOSE_BRACKET]) == TextOf(Arr(all))
  {
    hide Join, ItemsText;
  }

  method CanonicalizeItem(v: Value, items: seq<Value>, i: nat) returns (part: Option<Text>)
    requires v == Array(items) && i < |items| && WellFormed(items[i])
    ensures part == TextFor(DenoteItem(items[i]))
    decreases v, 1
  {
    hide Denote, WellFormed;
    if items[i].Undefined? {
      return Some(NULL_TEXT);
    }
    part := Canonicalize(items[i]);
  }

  /** The object branch: sorted keys, `undefined` skipped. */
  method CanonicalizeObject(v: Value, props: seq<Prop>) returns (text: Option<Text>)
    requires v == Object(props) && WellFormed(v)
    ensures text == TextFor(Denote(v))
    decreases v, 2
  {
    hide Denote, TextOf, WellFormed, DenoteProps, FieldText, JsonObjects.Object, DistinctProps;
    ObjectWellFormed(v, props);
    DenoteSorted(props);
    ObjectDenotes(v, props);
    var sorted := SortProps(props);
    var parts: seq<Text> := [];
    ghost var fields: seq<Field> := [];
    NothingDenoted();
    for i := 0 to |sorted|
      invariant DenoteProps(sorted[..i]) == Some(fields) && FieldParts(parts, fields)
    {
      assert sorted[..i + 1] == sorted[..i] + [sorted[i]];
      DenoteAppend(sorted[..i], sorted[i]);
      if sorted[i].value.Undefined? {
        continue;
      }
      var part := CanonicalizeProp(v, props, sorted[i]);
      if part.None? {
        DenoteFails(sorted, i);
        return None;
      }
      parts := parts + [part.value];
      fields := fields + [Field(sorted[i].key, Denote(sorted[i].value).value)];
    }
    assert sorted[..|sorted|] == sorted;
    JoinFields(parts, fields);
    ObjectText(parts, fields);
    return Some([OPEN_BRACE] + (Join(parts) + [CLOSE_BRACE]));
  }

  lemma {:induction false} ObjectWellFormed(v: Value, props: seq<Prop>)
    requires v == Object(props) && WellFormed(v)
    ensures DistinctProps(props) && forall i | 0 <= i < |props| :: WellFormed(props[i].value)
  {
    hide DistinctProps;
  }

  lemma {:induction false} ObjectDenotes(v: Value, props: seq<Prop>)
    requires v == Object(props)
    ensures Denote(v) == match DenoteProps(props) case Some(fields) => Some(Obj(JsonObjects.Object(fields))) case None => None
  {
    hide DenoteProps, JsonObjects.Object;
  }

  lemma {:induction false} ObjectText(parts: seq<Text>, fields: seq<Field>)
    requires Join(parts) + [CLOSE_BRACE] == FieldsText(fields)
    ensures [OPEN_BRACE] + (Join(parts) + [CLOSE_BRACE]) == TextOf(Obj(fields))
  {
    hide Join, FieldsText;
  }

  method CanonicalizeProp(v: Value, props: seq<Prop>, prop: Prop) returns (part: Option<Text>)
    requires v == Object(props) && prop in SortProps(props) && !prop.value.Undefined?
    requires forall i | 0 <= i < |props| :: WellFormed(props[i].value)
    ensures part.None? <==> Denote(prop.value).None?
    ensures part.Some? ==> part.value == FieldText(Field(prop.key, Denote(prop.value).value))
    decreases v, 1
  {
    hide Denote, WellFormed, TextOf, StringText;
    SortMember(props, prop);
    var i :| 0 <= i < |props| && props[i] == prop;
    var encoded := Canonicalize(props[i].value);
    if encoded.None? {
      return None;
    }
    var key := EncodeString(Lift(prop.key));
    return Some(key + ([COLON] + encoded.value));
  }

  // ------------------------------------------------------------------- what it means

  /** A property's value is found under its name in what the object denotes, and nothing else is. */
  lemma {:induction false} ObjectFields(props: seq<Prop>, fields: seq<Field>, key: Plain)
    requires DistinctProps(props) && DenoteProps(props) == Some(fields)
    ensures DistinctKeys(fields)
    ensures forall i | 0 <= i < |props| && props[i].key == key ::
              Lookup(JsonObjects.Object(fields), key)
              == if props[i].value.Undefined? then None else Denote(props[i].value)
    ensures (forall i | 0 <= i < |props| :: props[i].key != key) ==> Lookup(JsonObjects.Object(fields), key) == None
  {
    hide Denote, DenoteProps, Lookup, JsonObjects.Object;
    FieldsDistinct(props);
    ObjectLookup(fields, key);
    FieldsNamed(props, key);
  }

  lemma {:induction false} FieldsDistinct(props: seq<Prop>)
    requires DistinctProps(props) && DenoteProps(props).Some?
    ensures DistinctKeys(DenoteProps(props).value)
    decreases |props|
  {
    hide Denote;
    if |props| > 0 {
      FieldsDistinct(props[1..]);
      if !props[0].value.Undefined? {
        FirstDistinct(props, DenoteProps(props).value, DenoteProps(props[1..]).value);
      }
    }
  }

  lemma {:induction false} FirstDistinct(props: seq<Prop>, fields: seq<Field>, rest: seq<Field>)
    requires |props| > 0 && DistinctProps(props) && DenoteProps(props[1..]) == Some(rest) && DistinctKeys(rest)
    requires |fields| == |rest| + 1 && fields[0].key == props[0].key && fields[1..] == rest
    ensures DistinctKeys(fields)
  {
    hide Denote, DenoteProps;
    forall i, j | 0 <= i < j < |fields| ensures fields[i].key != fields[j].key {
      assert fields[j] == rest[j - 1];
      if i == 0 {
        DenotedMember(props[1..], j - 1);
        var k :| 0 <= k < |props| - 1 && props[1..][k].key == rest[j - 1].key;
        assert props[k + 1].key == rest[j - 1].key;
      } else {
        assert fields[i] == rest[i - 1];
      }
    }
  }

  /** Which field, if any, carries a name. */
  lemma {:induction false} FieldsNamed(props: seq<Prop>, key: Plain)
    requires DistinctProps(props) && DenoteProps(props).Some?
    ensures forall i | 0 <= i < |props| && props[i].key == key ::
              if props[i].value.Undefined? then
                forall k | 0 <= k < |DenoteProps(props).value| :: DenoteProps(props).value[k].key != key
              else exists k | 0 <= k < |DenoteProps(props).value| ::
                  DenoteProps(props).value[k].key == key && Some(DenoteProps(props).value[k].value) == Denote(props[i].value)
    ensures (forall i | 0 <= i < |props| :: props[i].key != key) ==>
              forall k | 0 <= k < |DenoteProps(props).value| :: DenoteProps(props).value[k].key != key
  {
    hide Denote, DenoteProps;
    forall i | 0 <= i < |props| && props[i].key == key
      ensures if props[i].value.Undefined? then
                forall k | 0 <= k < |DenoteProps(props).value| :: DenoteProps(props).value[k].key != key
              else exists k | 0 <= k < |DenoteProps(props).value| ::
                  DenoteProps(props).value[k].key == key && Some(DenoteProps(props).value[k].value) == Denote(props[i].value)
    {
      if props[i].value.Undefined? {
        UndefinedDropped(props, i);
      } else {
        FieldOf(props, i);
      }
    }
    NoSuchField(props, key);
  }

  lemma {:induction false} NoSuchField(props: seq<Prop>, key: Plain)
    requires DenoteProps(props).Some?
    ensures (forall i | 0 <= i < |props| :: props[i].key != key) ==>
              forall k | 0 <= k < |DenoteProps(props).value| :: DenoteProps(props).value[k].key != key
  {
    hide Denote, DenoteProps;
    forall k | 0 <= k < |DenoteProps(props).value| && forall i | 0 <= i < |props| :: props[i].key != key
      ensures DenoteProps(props).value[k].key != key
    {
      DenotedMember(props, k);
    }
  }

  lemma {:induction false} FieldOf(props: seq<Prop>, i: nat)
    requires DenoteProps(props).Some? && i < |props| && !props[i].value.Undefined?
    ensures exists k | 0 <= k < |DenoteProps(props).value| ::
      DenoteProps(props).value[k].key == props[i].key && Some(DenoteProps(props).value[k].value) == Denote(props[i].value)
    decreases i
  {
    hide Denote;
    var fields := DenoteProps(props).value;
    if i == 0 {
      assert fields[0].key == props[0].key;
    } else {
      FieldOf(props[1..], i - 1);
      var rest := DenoteProps(props[1..]).value;
      var k :| 0 <= k < |rest| && rest[k].key == props[i].key && Some(rest[k].value) == Denote(props[i].value);
      assert if props[0].value.Undefined? then fields[k] == rest[k] else fields[k + 1] == rest[k];
    }
  }

  lemma {:induction false} UndefinedDropped(props: seq<Prop>, i: nat)
    requires DistinctProps(props) && DenoteProps(props).Some? && i < |props| && props[i].value.Undefined?
    ensures forall k | 0 <= k < |DenoteProps(props).value| :: DenoteProps(props).value[k].key != props[i].key
    decreases |props|
  {
    hide Denote;
    if i == 0 {
      NoSuchField(props[1..], props[0].key);
    } else {
      UndefinedDropped(props[1..], i - 1);
    }
  }

  // ------------------------------------------------------------------ key order

  /** Ordered lists of fields that answer every lookup alike are one list. */
  lemma {:induction false} OrderedEqual(a: seq<Field>, b: seq<Field>)
    requires Ordered(a) && Ordered(b) && forall key :: Lookup(a, key) == Lookup(b, key)
    ensures a == b
    decreases |a|
  {
    EmptyTogether(a, b);
    EmptyTogether(b, a);
    if |a| > 0 {
      FirstKeys(a, b);
      FirstKeys(b, a);
      KeyLessTotal(a[0].key, b[0].key);
      assert Lookup(a, a[0].key) == Lookup(b, a[0].key);
      forall key ensures Lookup(a[1..], key) == Lookup(b[1..], key) {
        RestLookup(a, b, key);
      }
      OrderedEqual(a[1..], b[1..]);
      assert a == [a[0]] + a[1..] && b == [b[0]] + b[1..];
    }
  }

  lemma {:induction false} EmptyTogether(a: seq<Field>, b: seq<Field>)
    requires forall key :: Lookup(a, key) == Lookup(b, key)
    ensures |a| > 0 ==> |b| > 0
  {
    if |a| > 0 {
      assert Lookup(b, a[0].key) == Lookup(a, a[0].key);
    }
  }

  lemma {:induction false} FirstKeys(a: seq<Field>, b: seq<Field>)
    requires |a| > 0 && |b| > 0 && Ordered(b) && forall key :: Lookup(a, key) == Lookup(b, key)
    ensures a[0].key == b[0].key || KeyLess(b[0].key, a[0].key)
  {
    hide KeyLess;
    assert Lookup(a, a[0].key).Some?;
    LookupAbsent(b, a[0].key);
  }

  lemma {:induction false} RestLookup(a: seq<Field>, b: seq<Field>, key: Plain)
    requires |a| > 0 && |b| > 0 && a[0].key == b[0].key && Ordered(a) && Ordered(b)
    requires Lookup(a, key) == Lookup(b, key)
    ensures Lookup(a[1..], key) == Lookup(b[1..], key)
  {
    if key == a[0].key {
      FirstGone(a);
      FirstGone(b);
    }
  }

  lemma {:induction false} FirstGone(a: seq<Field>)
    requires |a| > 0 && Ordered(a)
    ensures Lookup(a[1..], a[0].key) == None
  {
    hide Lookup;
    LookupAbsent(a[1..], a[0].key);
    forall i | 0 <= i < |a| - 1 ensures a[1..][i].key != a[0].key {
      KeyLessTotal(a[0].key, a[i + 1].key);
    }
  }

  lemma {:induction false} PropsDenote(props: seq<Prop>)
    ensures DenoteProps(props).Some? <==> forall x | x in props :: x.value.Undefined? || Denote(x.value).Some?
    decreases |props|
  {
    hide Denote;
    if |props| > 0 {
      PropsDenote(props[1..]);
      assert props == [props[0]] + props[1..];
    }
  }

  /** The same properties, in any order, canonicalize alike, throwing included. */
  lemma {:induction false} KeyOrderIrrelevant(p: seq<Prop>, q: seq<Prop>)
    requires DistinctProps(p) && DistinctProps(q) && forall x :: x in p <==> x in q
    ensures Denote(Object(p)) == Denote(Object(q))
  {
    hide DenoteProps, JsonObjects.Object, DistinctProps;
    PropsDenote(p);
    PropsDenote(q);
    ObjectDenotes(Object(p), p);
    ObjectDenotes(Object(q), q);
    if DenoteProps(p).Some? {
      SameObject(p, q, DenoteProps(p).value, DenoteProps(q).value);
    }
  }

  lemma {:induction false} SameObject(p: seq<Prop>, q: seq<Prop>, fields: seq<Field>, others: seq<Field>)
    requires DistinctProps(p) && DistinctProps(q) && forall x :: x in p <==> x in q
    requires DenoteProps(p) == Some(fields) && DenoteProps(q) == Some(others)
    ensures JsonObjects.Object(fields) == JsonObjects.Object(others)
  {
    hide DenoteProps, Lookup, JsonObjects.Object, DistinctProps, Ordered, DistinctKeys;
    forall key ensures Lookup(JsonObjects.Object(fields), key) == Lookup(JsonObjects.Object(others), key) {
      ObjectFields(p, fields, key);
      ObjectFields(q, others, key);
      SameLookup(p, q, fields, others, key);
    }
    ObjectFields(p, fields, []);
    ObjectFields(q, others, []);
    ObjectOrdered(fields);
    ObjectOrdered(others);
    OrderedEqual(JsonObjects.Object(fields), JsonObjects.Object(others));
  }

  lemma {:induction false} SameLookup(p: seq<Prop>, q: seq<Prop>, fields: seq<Field>, others: seq<Field>, key: Plain)
    requires forall x :: x in p <==> x in q
    requires forall i | 0 <= i < |p| && p[i].key == key ::
      Lookup(JsonObjects.Object(fields), key) == if p[i].value.Undefined? then None else Denote(p[i].value)
    requires (forall i | 0 <= i < |p| :: p[i].key != key) ==> Lookup(JsonObjects.Object(fields), key) == None
    requires forall i | 0 <= i < |q| && q[i].key == key ::
      Lookup(JsonObjects.Object(others), key) == if q[i].value.Undefined? then None else Denote(q[i].value)
    requires (forall i | 0 <= i < |q| :: q[i].key != key) ==> Lookup(JsonObjects.Object(others), key) == None
    ensures Lookup(JsonObjects.Object(fields), key) == Lookup(JsonObjects.Object(others), key)
  {
    hide Lookup, JsonObjects.Object, Denote;
    if i :| 0 <= i < |p| && p[i].key == key {
      assert p[i] in q;
      var j :| 0 <= j < |q| && q[j] == p[i];
    } else {
      forall j | 0 <= j < |q| ensures q[j].key != key {
        assert q[j] in p;
      }
    }
  }

  /**
   * Canonical text is the text of what a value denotes and of nothing else: two values canonicalize
   * alike exactly when they denote the same JSON value, and a reader gets that value back.
   */
  lemma {:induction false} CanonicalTextIsMeaning(v: Value, w: Value)
    ensures TextFor(Denote(v)) == TextFor(Denote(w)) <==> Denote(v) == Denote(w)
    ensures Denote(v).Some? ==>
              ReadValue(TextFor(Denote(v)).value, 0) == Some((Denote(v).value, |TextFor(Denote(v)).value|))
  {
    hide Denote, TextOf, ReadValue;
    if Denote(v).Some? {
      TextReadsBack(Denote(v).value);
      if Denote(w).Some? && TextOf(Denote(v).value) == TextOf(Denote(w).value) {
        TextInjective(Denote(v).value, Denote(w).value);
      }
    }
  }

  // ------------------------------------------------------------------- sort key

  /** `_sort_key`: the big-endian bytes of the UTF-16 code units. */
  function SortKey(key: Plain): seq<int> {
    if |key| == 0 then [] else [key[0] / 256, key[0] % 256] + SortKey(key[1..])
  }

  /** How byte strings compare. */
  predicate BytesLess(a: seq<int>, b: seq<int>) {
    |b| > 0 && (|a| == 0 || a[0] < b[0] || (a[0] == b[0] && BytesLess(a[1..], b[1..])))
  }

  /** Sorting by big-endian bytes is sorting by code unit. */
  lemma {:induction false} SortKeyKeepsOrder(a: Plain, b: Plain)
    ensures BytesLess(SortKey(a), SortKey(b)) <==> KeyLess(a, b)
    decreases |a|
  {
    if |a| > 0 && |b| > 0 {
      SortKeyKeepsOrder(a[1..], b[1..]);
      TwoBytes(a[0], b[0], SortKey(a[1..]), SortKey(b[1..]));
    }
  }

  lemma {:induction false} TwoBytes(x: CodeUnit, y: CodeUnit, a: seq<int>, b: seq<int>)
    ensures BytesLess([x / 256, x % 256] + a, [y / 256, y % 256] + b) <==> x < y || (x == y && BytesLess(a, b))
  {
    var s, t := [x / 256, x % 256] + a, [y / 256, y % 256] + b;
    assert s[1..] == [x % 256] + a && t[1..] == [y % 256] + b;
    assert s[1..][1..] == a && t[1..][1..] == b;
    assert x == 256 * (x / 256) + x % 256 && y == 256 * (y / 256) + y % 256;
  }
}
