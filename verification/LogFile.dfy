/** entries.jsonl: one canonical text per line, and reading the lines back. */
module LogFiles {
  import opened Wrappers
  import opened Hashing
  import opened Numbers
  import opened Canonical
  import opened Utf8
  import opened JsonBytes

  const NEWLINE := Unit(0x0A)

  predicate OneLine(t: Text) {
    forall i | 0 <= i < |t| :: t[i] != NEWLINE
  }

  /** The code units `trim` removes. */
  predicate IsSpace(c: Symbol) {
    c.Unit? &&
    (0x09 <= c.code <= 0x0D || c.code == 0x20 || c.code == 0xA0 || c.code == 0x1680 || 0x2000 <= c.code <= 0x200A
     || c.code == 0x2028 || c.code == 0x2029 || c.code == 0x202F || c.code == 0x205F || c.code == 0x3000
     || c.code == 0xFEFF)
  }

  predicate Blank(line: Text) {
    forall i | 0 <= i < |line| :: IsSpace(line[i])
  }

  // ----------------------------------------------- canonical text is one line

  lemma {:induction false} JoinedLines(a: Text, b: Text)
    requires OneLine(a) && OneLine(b)
    ensures OneLine(a + b)
  {
  }

  lemma {:induction false} TailOneLine(s: Text)
    ensures OneLine(StringTail(s))
    decreases |s|
  {
    if |s| > 0 {
      TailOneLine(s[1..]);
      EscapeOneLine(s[0]);
      JoinedLines(Escape(s[0]), StringTail(s[1..]));
    }
  }

  lemma {:induction false} EscapeOneLine(c: Symbol)
    ensures OneLine(Escape(c))
  {
  }

  lemma {:induction false} StringOneLine(s: Text)
    ensures OneLine(StringText(s))
  {
    hide StringTail;
    TailOneLine(s);
    JoinedLines([QUOTE], StringTail(s));
  }

  lemma {:induction false} DigitsOneLine(digits: seq<Digit>)
    ensures OneLine(DigitText(digits))
  {
  }

  lemma {:induction false} NumeralOneLine(m: Numeral)
    ensures OneLine(NumeralText(m))
  {
    hide DigitText, NatDigits;
    DigitsOneLine(m.whole);
    DigitsOneLine(m.fraction);
    if m.exponent.Some? {
      ExponentOneLine(m.exponent.value);
    }
    JoinedLines([POINT], DigitText(m.fraction));
    JoinedLines(DigitText(m.whole), FractionText(m.fraction));
    JoinedLines(DigitText(m.whole) + FractionText(m.fraction), ExponentText(m.exponent));
  }

  lemma {:induction false} ExponentOneLine(e: int)
    ensures OneLine(ExponentText(Some(e)))
  {
    hide DigitText, NatDigits;
    var digits := DigitText(NatDigits(if e > 0 then e else -e));
    var sign := [if e > 0 then PLUS else MINUS];
    DigitsOneLine(NatDigits(if e > 0 then e else -e));
    JoinedLines(sign, digits);
    JoinedLines([EXPONENT], sign + digits);
  }

  lemma {:induction false} NumberOneLine(n: NormalNumber)
    ensures OneLine(NumberText(n))
  {
    hide NumeralText, LayoutNumeral;
    if n.Decimal? {
      var text := NumeralText(LayoutNumeral(n.digits, n.exponent));
      NumeralOneLine(LayoutNumeral(n.digits, n.exponent));
      JoinedLines(if n.negative then [MINUS] else [], text);
    }
  }

  /** Newlines are escaped, so the text of a value never breaks a line. */
  lemma {:induction false} TextOneLine(v: Json)
    ensures OneLine(TextOf(v))
    decreases v, 0
  {
    hide ItemsText, FieldsText, NumberText, StringText;
    match v
    case Num(n) => NumberOneLine(n);
    case Str(s) => StringOneLine(s);
    case Arr(items) =>
      ItemsOneLine(items);
      JoinedLines([OPEN_BRACKET], ItemsText(items));
    case Obj(fields) =>
      FieldsOneLine(fields);
      JoinedLines([OPEN_BRACE], FieldsText(fields));
    case _ => assert OneLine(NULL_TEXT) && OneLine(TRUE_TEXT) && OneLine(FALSE_TEXT);
  }

  lemma {:induction false} ItemsOneLine(items: seq<Json>)
    ensures OneLine(ItemsText(items))
    decreases items, 1
  {
    hide TextOf;
    if |items| == 1 {
      TextOneLine(items[0]);
      JoinedLines(TextOf(items[0]), [CLOSE_BRACKET]);
    } else if |items| > 1 {
      TextOneLine(items[0]);
      ItemsOneLine(items[1..]);
      JoinedLines([COMMA], ItemsText(items[1..]));
      JoinedLines(TextOf(items[0]), [COMMA] + ItemsText(items[1..]));
    }
  }

  lemma {:induction false} FieldOneLine(field: Field)
    ensures OneLine(FieldText(field))
    decreases field, 0
  {
    hide TextOf, StringText;
    StringOneLine(Lift(field.key));
    TextOneLine(field.value);
    JoinedLines([COLON], TextOf(field.value));
    JoinedLines(StringText(Lift(field.key)), [COLON] + TextOf(field.value));
  }

  lemma {:induction false} FieldsOneLine(fields: seq<Field>)
    ensures OneLine(FieldsText(fields))
    decreases fields, 1
  {
    hide FieldText;
    if |fields| == 1 {
      FieldOneLine(fields[0]);
      JoinedLines(FieldText(fields[0]), [CLOSE_BRACE]);
    } else if |fields| > 1 {
      FieldOneLine(fields[0]);
      FieldsOneLine(fields[1..]);
      JoinedLines([COMMA], FieldsText(fields[1..]));
      JoinedLines(FieldText(fields[0]), [COMMA] + FieldsText(fields[1..]));
    }
  }

  // ----------------------------------------------------------------------- files

  /** What appending each value as a line leaves in the file. */
  function FileText(entries: seq<Json>): Text {
    if |entries| == 0 then []
    else FileText(entries[..|entries| - 1]) + (TextOf(entries[|entries| - 1]) + [NEWLINE])
  }

  function LineEnd(t: Text, i: nat): (end: nat)
    requires i <= |t|
    ensures i <= end <= |t|
    decreases |t| - i
  {
    if i == |t| || t[i] == NEWLINE then i else LineEnd(t, i + 1)
  }

  /** `readLines`: the lines from `i` on that are not blank. */
  function Lines(t: Text, i: nat): seq<Text>
    requires i <= |t|
    decreases |t| - i
  {
    var end := LineEnd(t, i);
    (if Blank(t[i..end]) then [] else [t[i..end]]) + if end < |t| then Lines(t, end + 1) else []
  }

  /** Reads one line of canonical JSON. */
  function Parse(line: Text): Option<Json> {
    match ReadValue(line, 0)
    case Some((v, end)) => if end == |line| then Some(v) else None
    case None => None
  }

  function ParseAll(lines: seq<Text>): Option<seq<Json>> {
    if |lines| == 0 then Some([])
    else
      match (Parse(lines[0]), ParseAll(lines[1..]))
      case (Some(first), Some(rest)) => Some([first] + rest)
      case _ => None
  }

  function TextsOf(entries: seq<Json>): seq<Text> {
    seq(|entries|, i requires 0 <= i < |entries| => TextOf(entries[i]))
  }

  lemma {:induction false} LineEndIs(t: Text, i: nat, line: Text)
    requires At(t, i, line + [NEWLINE]) && OneLine(line)
    ensures LineEnd(t, i) == i + |line| < |t| && t[i..i + |line|] == line
    decreases |line|
  {
    AtSplit(t, i, line, [NEWLINE]);
    AtHead(t, i + |line|, NEWLINE, []);
    LineEndFrom(t, i, i + |line|);
  }

  lemma {:induction false} LineEndFrom(t: Text, i: nat, end: nat)
    requires i <= end < |t| && t[end] == NEWLINE && OneLine(t[i..end])
    ensures LineEnd(t, i) == end
    decreases end - i
  {
    if i < end {
      assert t[i..end][0] == t[i] && t[i + 1..end] == t[i..end][1..];
      LineEndFrom(t, i + 1, end);
    }
  }

  /** Canonical text is never blank: it does not start with a space. */
  lemma {:induction false} TextNotBlank(v: Json)
    ensures !Blank(TextOf(v))
  {
    hide NumberText, ItemsText, FieldsText, StringTail;
    match v
    case Num(n) =>
      assert NumberText(n)[0..|NumberText(n)|] == NumberText(n);
      NumberStarts(NumberText(n), 0, n);
      assert !IsSpace(NumberText(n)[0]);
    case _ => assert |TextOf(v)| > 0 && !IsSpace(TextOf(v)[0]);
  }

  lemma {:induction false} FilePart(entries: seq<Json>, k: nat)
    requires k < |entries|
    ensures At(FileText(entries), |FileText(entries[..k])|, TextOf(entries[k]) + [NEWLINE])
    ensures |FileText(entries[..k + 1])| == |FileText(entries[..k])| + |TextOf(entries[k])| + 1 <= |FileText(entries)|
    decreases |entries|
  {
    hide TextOf;
    var last := |entries| - 1;
    var line := TextOf(entries[k]) + [NEWLINE];
    assert entries[..k + 1][..k] == entries[..k];
    if k == last {
      assert entries[..k + 1] == entries;
    } else {
      FilePart(entries[..last], k);
      assert entries[..last][..k] == entries[..k] && entries[..last][..k + 1] == entries[..k + 1];
      AtPrefix(FileText(entries[..last]), FileText(entries), |FileText(entries[..k])|, line);
    }
  }

  lemma {:induction false} AtPrefix(t: Text, longer: Text, i: nat, part: Text)
    requires At(t, i, part) && t <= longer
    ensures At(longer, i, part)
  {
    assert longer[i..i + |part|] == t[i..i + |part|];
  }

  lemma {:induction false} LinesFrom(entries: seq<Json>, k: nat, t: Text, i: nat)
    requires k <= |entries| && t == FileText(entries) && i == |FileText(entries[..k])| <= |t|
    ensures Lines(t, i) == TextsOf(entries)[k..]
    decreases |entries| - k
  {
    hide *;
    if k < |entries| {
      var next := i + |TextOf(entries[k])| + 1;
      FilePart(entries, k);
      TextOneLine(entries[k]);
      LineEndIs(t, i, TextOf(entries[k]));
      TextNotBlank(entries[k]);
      LineAt(t, i, TextOf(entries[k]), next);
      LinesFrom(entries, k + 1, t, next);
      TextsFrom(entries, k);
    } else {
      assert entries[..k] == entries;
      NoLinesAtEnd(t);
      NoTexts(entries);
    }
  }

  lemma {:induction false} LineAt(t: Text, i: nat, line: Text, next: nat)
    requires i <= |t| && next == i + |line| + 1 <= |t|
    requires LineEnd(t, i) == i + |line| && t[i..i + |line|] == line && !Blank(line)
    ensures Lines(t, i) == [line] + Lines(t, next)
  {
    hide Blank, LineEnd;
  }

  lemma {:induction false} TextsFrom(entries: seq<Json>, k: nat)
    requires k < |entries|
    ensures |TextsOf(entries)| == |entries|
    ensures TextsOf(entries)[k..] == [TextOf(entries[k])] + TextsOf(entries)[k + 1..]
  {
    hide TextOf;
  }

  lemma {:induction false} NoTexts(entries: seq<Json>)
    ensures |TextsOf(entries)| == |entries| && TextsOf(entries)[|entries|..] == []
  {
    hide TextOf;
  }

  lemma {:induction false} NoLinesAtEnd(t: Text)
    ensures Lines(t, |t|) == []
  {
  }

  lemma {:induction false} ParseText(v: Json)
    ensures Parse(TextOf(v)) == Some(v)
  {
    hide TextOf, ReadValue;
    TextReadsBack(v);
  }

  lemma {:induction false} ParseTexts(entries: seq<Json>)
    ensures ParseAll(TextsOf(entries)) == Some(entries)
    decreases |entries|
  {
    hide TextOf, Parse;
    if |entries| > 0 {
      ParseText(entries[0]);
      ParseTexts(entries[1..]);
      assert TextsOf(entries)[1..] == TextsOf(entries[1..]);
      assert entries == [entries[0]] + entries[1..];
    }
  }

  /** Reading a file back gives the entries that were appended to it. */
  lemma {:induction false} FileReadsBack(entries: seq<Json>)
    ensures ParseAll(Lines(FileText(entries), 0)) == Some(entries)
  {
    hide TextsOf, Lines, ParseAll;
    assert FileText(entries[..0]) == [];
    LinesFrom(entries, 0, FileText(entries), 0);
    ParseTexts(entries);
    assert TextsOf(entries)[0..] == TextsOf(entries);
  }

  lemma {:induction false} FileGrows(entries: seq<Json>, entry: Json)
    ensures FileText(entries + [entry]) == FileText(entries) + (TextOf(entry) + [NEWLINE])
  {
    hide TextOf;
    assert (entries + [entry])[..|entries|] == entries;
  }

  /** The file is written as UTF-8 and decoded when it is read: what comes back is the text of the repaired entries. */
  lemma {:induction false} FileDecodes(entries: seq<Json>)
    ensures Repaired(FileText(entries)) == FileText(RepairedItems(entries))
    decreases |entries|
  {
    hide TextOf, Repaired, RepairedJson;
    if |entries| > 0 {
      var last := |entries| - 1;
      FileDecodes(entries[..last]);
      LineDecodes(entries[last]);
      RepairedJoin(FileText(entries[..last]), TextOf(entries[last]) + [NEWLINE]);
      RepairedItem(entries, last);
      RepairedFront(entries, last);
    } else {
      PlainRepairs([]);
    }
  }

  lemma {:induction false} LineDecodes(v: Json)
    ensures Repaired(TextOf(v) + [NEWLINE]) == TextOf(RepairedJson(v)) + [NEWLINE]
    ensures !Low((TextOf(v) + [NEWLINE])[0])
  {
    hide TextOf, Repaired, RepairedJson;
    TextRepaired(v);
    PlainRepairs([NEWLINE]);
    RepairedJoin(TextOf(v), [NEWLINE]);
    TextStartsPlain(v);
  }

  lemma {:induction false} TextStartsPlain(v: Json)
    ensures |TextOf(v)| > 0 && !Low(TextOf(v)[0])
  {
    hide NumberText, ItemsText, FieldsText, StringTail;
    match v
    case Num(n) =>
      assert NumberText(n)[0..|NumberText(n)|] == NumberText(n);
      NumberStarts(NumberText(n), 0, n);
    case _ => assert !Low(TextOf(v)[0]);
  }

  lemma {:induction false} RepairedFront(entries: seq<Json>, n: nat)
    requires n <= |entries|
    ensures RepairedItems(entries[..n]) == RepairedItems(entries)[..n]
  {
    hide RepairedItems, RepairedJson;
    forall i | 0 <= i < n ensures RepairedItems(entries[..n])[i] == RepairedItems(entries)[i] {
      RepairedItem(entries[..n], i);
      RepairedItem(entries, i);
    }
  }
}
