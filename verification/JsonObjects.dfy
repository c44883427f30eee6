/** Objects of canonical JSON: fields listed by key, as sorting the keys by UTF-16 code unit leaves them. */
module JsonObjects {
  import opened Wrappers
  import opened Canonical

  /** The order of JavaScript's default string sort. */
  predicate KeyLess(a: Plain, b: Plain) {
    |b| > 0 && (|a| == 0 || a[0] < b[0] || (a[0] == b[0] && KeyLess(a[1..], b[1..])))
  }

  lemma {:induction false} KeyLessTotal(a: Plain, b: Plain)
    ensures KeyLess(a, b) || a == b || KeyLess(b, a)
    ensures !(KeyLess(a, b) && KeyLess(b, a))
    ensures a == b ==> !KeyLess(a, b)
    decreases |a|
  {
    if |a| > 0 && |b| > 0 {
      KeyLessTotal(a[1..], b[1..]);
      assert a == [a[0]] + a[1..] && b == [b[0]] + b[1..];
    }
  }

  lemma {:induction false} KeyLessTransitive(a: Plain, b: Plain, c: Plain)
    requires KeyLess(a, b) && KeyLess(b, c)
    ensures KeyLess(a, c)
    decreases |a|
  {
    if |a| > 0 && a[0] == b[0] == c[0] {
      KeyLessTransitive(a[1..], b[1..], c[1..]);
    }
  }

  predicate Ordered(fields: seq<Field>) {
    forall i, j | 0 <= i < j < |fields| :: KeyLess(fields[i].key, fields[j].key)
  }

  function Lookup(fields: seq<Field>, key: Plain): Option<Json> {
    if |fields| == 0 then None
    else if fields[0].key == key then Some(fields[0].value)
    else Lookup(fields[1..], key)
  }

  /** `value.key`, or `None` where JavaScript answers `undefined`. */
  function Get(value: Json, key: Plain): Option<Json> {
    if value.Obj? then Lookup(value.fields, key) else None
  }

  /** `value.outer?.inner` */
  function GetIn(value: Json, outer: Plain, inner: Plain): Option<Json> {
    match Get(value, outer)
    case None => None
    case Some(part) => Get(part, inner)
  }

  /** Puts a field where its key belongs. */
  function Insert(fields: seq<Field>, field: Field): seq<Field> {
    if |fields| == 0 || KeyLess(field.key, fields[0].key) then [field] + fields
    else [fields[0]] + Insert(fields[1..], field)
  }

  /** `const { [key]: _, ...rest } = value` */
  function Without(fields: seq<Field>, key: Plain): seq<Field> {
    if |fields| == 0 then []
    else if fields[0].key == key then Without(fields[1..], key)
    else [fields[0]] + Without(fields[1..], key)
  }

  lemma {:induction false} LookupInsert(fields: seq<Field>, field: Field, key: Plain)
    requires Lookup(fields, field.key) == None
    ensures Lookup(Insert(fields, field), key) == if key == field.key then Some(field.value) else Lookup(fields, key)
    decreases |fields|
  {
    if |fields| == 0 || KeyLess(field.key, fields[0].key) {
      assert ([field] + fields)[1..] == fields;
    } else {
      LookupInsert(fields[1..], field, key);
      assert ([fields[0]] + Insert(fields[1..], field))[1..] == Insert(fields[1..], field);
    }
  }

  lemma {:induction false} WithoutAbsent(fields: seq<Field>, key: Plain)
    requires Lookup(fields, key) == None
    ensures Without(fields, key) == fields
    decreases |fields|
  {
    if |fields| > 0 {
      WithoutAbsent(fields[1..], key);
    }
  }

  /** Removing what was inserted leaves the object as it was. */
  lemma {:induction false} WithoutInsert(fields: seq<Field>, field: Field)
    requires Lookup(fields, field.key) == None
    ensures Without(Insert(fields, field), field.key) == fields
    decreases |fields|
  {
    if |fields| == 0 || KeyLess(field.key, fields[0].key) {
      assert ([field] + fields)[1..] == fields;
      WithoutAbsent(fields, field.key);
    } else {
      WithoutInsert(fields[1..], field);
      assert ([fields[0]] + Insert(fields[1..], field))[1..] == Insert(fields[1..], field);
    }
  }

  lemma {:induction false} LookupAbsent(fields: seq<Field>, key: Plain)
    ensures Lookup(fields, key) == None <==> forall i | 0 <= i < |fields| :: fields[i].key != key
    decreases |fields|
  {
    if |fields| > 0 {
      LookupAbsent(fields[1..], key);
      assert forall i | 0 < i < |fields| :: fields[i] == fields[1..][i - 1];
    }
  }

  lemma {:induction false} InsertMember(fields: seq<Field>, field: Field, i: nat)
    requires i < |Insert(fields, field)|
    ensures Insert(fields, field)[i] == field || Insert(fields, field)[i] in fields
    decreases |fields|
  {
    if |fields| > 0 && !KeyLess(field.key, fields[0].key) && i > 0 {
      InsertMember(fields[1..], field, i - 1);
    }
  }

  lemma {:induction false} InsertKeepsOrder(fields: seq<Field>, field: Field)
    requires Ordered(fields) && Lookup(fields, field.key) == None
    ensures Ordered(Insert(fields, field))
    decreases |fields|
  {
    if |fields| == 0 || KeyLess(field.key, fields[0].key) {
      InsertFirst(fields, field);
    } else {
      InsertKeepsOrder(fields[1..], field);
      InsertLater(fields, field);
    }
  }

  lemma {:induction false} InsertFirst(fields: seq<Field>, field: Field)
    requires Ordered(fields) && (|fields| > 0 ==> KeyLess(field.key, fields[0].key))
    ensures Ordered([field] + fields)
  {
    forall j | 0 < j < |fields| ensures KeyLess(field.key, fields[j].key) {
      KeyLessTransitive(field.key, fields[0].key, fields[j].key);
    }
  }

  lemma {:induction false} InsertLater(fields: seq<Field>, field: Field)
    requires |fields| > 0 && Ordered(fields) && Lookup(fields, field.key) == None
    requires !KeyLess(field.key, fields[0].key) && Ordered(Insert(fields[1..], field))
    ensures Ordered([fields[0]] + Insert(fields[1..], field))
  {
    var rest := Insert(fields[1..], field);
    KeyLessTotal(field.key, fields[0].key);
    if |rest| > 0 {
      InsertMember(fields[1..], field, 0);
      InsertFirst(rest, fields[0]);
    }
  }

  /** An object written as a literal: its properties, in the order written. */
  function Object(properties: seq<Field>): seq<Field> {
    if |properties| == 0 then []
    else Insert(Object(properties[..|properties| - 1]), properties[|properties| - 1])
  }

  predicate DistinctKeys(properties: seq<Field>) {
    forall i, j | 0 <= i < j < |properties| :: properties[i].key != properties[j].key
  }

  lemma {:induction false} ObjectLookup(properties: seq<Field>, key: Plain)
    requires DistinctKeys(properties)
    ensures Lookup(Object(properties), key) == None <==> forall i | 0 <= i < |properties| :: properties[i].key != key
    ensures forall i | 0 <= i < |properties| && properties[i].key == key ::
              Lookup(Object(properties), key) == Some(properties[i].value)
    decreases |properties|
  {
    if |properties| > 0 {
      var last := |properties| - 1;
      var front := properties[..last];
      ObjectLookup(front, key);
      ObjectLookup(front, properties[last].key);
      LookupInsert(Object(front), properties[last], key);
      assert forall i | 0 <= i < last :: front[i] == properties[i];
    }
  }

  /** What a literal writes is in key order, so its canonical text is the text of this list. */
  lemma {:induction false} ObjectOrdered(properties: seq<Field>)
    requires DistinctKeys(properties)
    ensures Ordered(Object(properties))
    decreases |properties|
  {
    if |properties| > 0 {
      var last := |properties| - 1;
      var front := properties[..last];
      ObjectOrdered(front);
      ObjectLookup(front, properties[last].key);
      InsertKeepsOrder(Object(front), properties[last]);
    }
  }
}
