/**
 * Receipts that have been written as UTF-8 and read back, from a log's file or a hub's column: unpaired
 * surrogates come back as U+FFFD, and what the code reads of a sound receipt is as it was.
 */
module StoredReceipts {
  import opened Wrappers
  import opened Hashing
  import opened Numbers
  import opened Canonical
  import opened JsonObjects
  import opened Utf8
  import opened JsonBytes
  import opened Receipts

  /** Key ids are derived from keys and hold no unpaired surrogate. */
  predicate IntactKeys(keyring: Keyring) {
    forall kid | kid in keyring :: IntactText(kid)
  }

  lemma {:induction false} HashKept(receipt: Json)
    ensures EntryHash(RepairedJson(receipt)) == EntryHash(receipt)
  {
    hide CanonicalBytes, RepairedJson;
    RepairKeepsValueBytes(receipt);
  }

  lemma {:induction false} SeqKept(receipt: Json)
    ensures SeqOf(RepairedJson(receipt)) == SeqOf(receipt)
  {
    hide Get, AsInt;
    GetRepaired(receipt, SEQ);
  }

  /** A link is a hash, or the zero bytes before the first: neither changes. */
  lemma {:induction false} PrevKept(receipt: Json, prev: Text)
    requires PrevOf(receipt) == Some(prev) && NoSurrogate(prev)
    ensures PrevOf(RepairedJson(receipt)) == Some(prev)
  {
    hide Get, Repaired;
    GetRepaired(receipt, PREV);
    PlainRepairs(prev);
  }

  lemma {:induction false} TimeKept(receipt: Json)
    ensures TimeOf(RepairedJson(receipt)) == match TimeOf(receipt) case None => None case Some(ts) => Some(Repaired(ts))
  {
    hide Get, Repaired;
    GetRepaired(receipt, TS);
  }

  lemma {:induction false} PartRepaired(v: Json, outer: Plain, inner: Plain)
    requires AsciiKey(outer) && AsciiKey(inner)
    ensures GetIn(RepairedJson(v), outer, inner)
         == match GetIn(v, outer, inner)
            case None => None
            case Some(part) => Some(RepairedJson(part))
  {
    hide Get, RepairedJson, AsciiKey;
    GetRepaired(v, outer);
    if Get(v, outer).Some? {
      GetRepaired(Get(v, outer).value, inner);
    }
  }

  lemma {:induction false} FilledKept(value: Option<Json>)
    ensures Filled(match value case None => None case Some(v) => Some(RepairedJson(v))) <==> Filled(value)
  {
    hide Repaired;
    if value.Some? && value.value.Str? {
      assert |Repaired(value.value.text)| == |value.value.text|;
    }
  }

  lemma {:induction false} FieldsKept(receipt: Json)
    ensures FieldsFilled(RepairedJson(receipt)) <==> FieldsFilled(receipt)
  {
    hide Get, GetIn, RepairedJson, Filled;
    GetRepaired(receipt, TS);
    FilledKept(Get(receipt, TS));
    PartFilled(receipt, ACTOR, PRINCIPAL);
    PartFilled(receipt, ACTOR, AGENT);
    PartFilled(receipt, ACTOR, SESSION);
    PartFilled(receipt, ACTION, KIND);
    PartFilled(receipt, ACTION, TARGET);
    PartFilled(receipt, DECISION, OUTCOME);
  }

  lemma {:induction false} PartFilled(receipt: Json, outer: Plain, inner: Plain)
    requires AsciiKey(outer) && AsciiKey(inner)
    ensures Filled(GetIn(RepairedJson(receipt), outer, inner)) <==> Filled(GetIn(receipt, outer, inner))
  {
    hide Get, GetIn, RepairedJson, Filled;
    PartRepaired(receipt, outer, inner);
    FilledKept(GetIn(receipt, outer, inner));
  }

  lemma {:induction false} WordKept(v: Json, word: Plain)
    requires AsciiKey(word) && v == Word(word)
    ensures RepairedJson(v) == v
  {
    hide Repaired;
    PlainRepairs(Lift(word));
  }

  lemma {:induction false} PhaseKept(phase: Json)
    requires PhaseKnown(Some(phase))
    ensures RepairedJson(phase) == phase
  {
    hide RepairedJson, Word;
    if phase == Word(ATOMIC) {
      WordKept(phase, ATOMIC);
    } else if phase == Word(INTENT) {
      WordKept(phase, INTENT);
    } else {
      WordKept(phase, OUTCOME);
    }
  }

  lemma {:induction false} IntKept(v: Json)
    ensures IntOf(Some(RepairedJson(v))) == IntOf(Some(v))
  {
    hide AsInt, Repaired;
  }

  lemma {:induction false} WellFormedKept(receipt: Json)
    requires WellFormed(receipt)
    ensures WellFormed(RepairedJson(receipt))
  {
    hide Get, FieldsFilled, IntOf, RepairedJson, PhaseKnown;
    FieldsKept(receipt);
    GetRepaired(receipt, V);
    GetRepaired(receipt, PHASE);
    PhaseThere(receipt);
    IntKept(Get(receipt, V).value);
    PhaseKept(Get(receipt, PHASE).value);
  }

  lemma {:induction false} PhaseThere(receipt: Json)
    requires IntOf(Get(receipt, V)).Some? && PhaseKnown(Get(receipt, PHASE))
    ensures Get(receipt, V).Some? && Get(receipt, PHASE).Some?
  {
    hide Get, AsInt, Word;
  }

  lemma {:induction false} SpelledKept(t: Text)
    requires Base64url(t)
    ensures Repaired(t) == t
  {
    hide Repaired;
    PlainRepairs(t);
  }

  lemma {:induction false} WithoutRepaired(fields: seq<Field>, name: Plain)
    requires AsciiKey(name)
    ensures Without(RepairedFields(fields), name) == RepairedFields(Without(fields, name))
    decreases |fields|
  {
    hide RepairedKey, RepairedJson, AsciiKey;
    if |fields| > 0 {
      AsciiKeyStays(fields[0].key, name);
      WithoutRepaired(fields[1..], name);
      assert RepairedFields(fields)[1..] == RepairedFields(fields[1..]);
      var rest := Without(fields[1..], name);
      assert ([fields[0]] + rest)[1..] == rest;
    }
  }

  /** What a signature covers keeps its bytes. */
  lemma {:induction false} DigestKept(receipt: Json)
    ensures ReceiptDigest(RepairedJson(receipt)) == ReceiptDigest(receipt)
  {
    hide CanonicalBytes, RepairedFields, Without;
    if receipt.Obj? {
      WithoutRepaired(receipt.fields, ATTEST);
    }
    assert BodyOf(RepairedJson(receipt)) == RepairedJson(BodyOf(receipt));
    RepairKeepsValueBytes(BodyOf(receipt));
  }

  lemma {:induction false} AttestedKept(receipt: Json, keyring: Keyring, verifies: Verifier)
    requires Attested(receipt) && KeyFor(receipt, keyring).Some? && IntactKeys(keyring)
    requires SignatureHolds(receipt, KeyFor(receipt, keyring).value, verifies)
    ensures Attested(RepairedJson(receipt)) && KeyFor(RepairedJson(receipt), keyring) == KeyFor(receipt, keyring)
    ensures SignatureHolds(RepairedJson(receipt), KeyFor(receipt, keyring).value, verifies)
  {
    hide GetIn, Repaired, ReceiptDigest, Raw, Base64url;
    PartRepaired(receipt, ATTEST, ALG);
    PartRepaired(receipt, ATTEST, SIG);
    PartRepaired(receipt, ATTEST, KID);
    WordKept(Word(ED25519), ED25519);
    SpelledKept(TextAt(GetIn(receipt, ATTEST, SIG)).value);
    DigestKept(receipt);
  }

  /** A sound receipt is sound when it is read back. */
  lemma {:induction false} SoundKept(receipt: Json, keyring: Keyring, verifies: Verifier)
    requires ReceiptSound(receipt, keyring, verifies) && IntactKeys(keyring)
    ensures ReceiptSound(RepairedJson(receipt), keyring, verifies)
  {
    hide WellFormed, Attested, KeyFor, SignatureHolds, IntactKeys, RepairedJson;
    WellFormedKept(receipt);
    AttestedKept(receipt, keyring, verifies);
  }

  // ---------------------------------------------------------------------- chains

  /** Receipt `i` is sound and the next of a chain from the start of a log, whatever its time. */
  predicate Joined(receipts: seq<Json>, i: nat, keyring: Keyring, verifies: Verifier)
    requires i < |receipts|
  {
    ReceiptSound(receipts[i], keyring, verifies) && Numbered(receipts, i, 0) && Linked(receipts, i, GenesisPrev())
  }

  predicate AllJoined(receipts: seq<Json>, keyring: Keyring, verifies: Verifier) {
    forall i | 0 <= i < |receipts| :: Joined(receipts, i, keyring, verifies)
  }

  predicate AllInTime(receipts: seq<Json>) {
    forall i | 0 <= i < |receipts| :: InTime(receipts, i)
  }

  lemma {:induction false} ChainIs(receipts: seq<Json>, keyring: Keyring, verifies: Verifier)
    ensures ChainSound(receipts, keyring, verifies, 0, GenesisPrev()) <==>
            AllJoined(receipts, keyring, verifies) && AllInTime(receipts)
  {
    hide ReceiptSound, Numbered, Linked, InTime, GenesisPrev;
    forall i | 0 <= i < |receipts|
      ensures LinkSound(receipts, i, keyring, verifies, 0, GenesisPrev()) <==>
              Joined(receipts, i, keyring, verifies) && InTime(receipts, i)
    {
    }
  }

  lemma {:induction false} JoinedKept(receipts: seq<Json>, i: nat, keyring: Keyring, verifies: Verifier)
    requires i < |receipts| && Joined(receipts, i, keyring, verifies) && IntactKeys(keyring)
    ensures Joined(RepairedItems(receipts), i, keyring, verifies)
  {
    hide ReceiptSound, SeqOf, PrevOf, EntryHash, Raw, GenesisPrev, RepairedItems, RepairedJson, IntactKeys;
    RepairedItem(receipts, i);
    SeqKept(receipts[i]);
    SoundKept(receipts[i], keyring, verifies);
    if i > 0 {
      RepairedItem(receipts, i - 1);
      HashKept(receipts[i - 1]);
    }
    LinkPlain(PrevOf(receipts[i]).value);
    PrevKept(receipts[i], PrevOf(receipts[i]).value);
  }

  lemma {:induction false} LinkPlain(prev: Text)
    requires prev == GenesisPrev() || exists digest :: prev == Raw(digest)
    ensures NoSurrogate(prev)
  {
  }

  /** Read back, the receipts of a log are still sound, numbered and linked; only the order of their times can change. */
  lemma {:induction false} StoredChain(receipts: seq<Json>, keyring: Keyring, verifies: Verifier)
    requires AllJoined(receipts, keyring, verifies) && IntactKeys(keyring)
    ensures AllJoined(RepairedItems(receipts), keyring, verifies)
    ensures ChainSound(RepairedItems(receipts), keyring, verifies, 0, GenesisPrev()) <==> AllInTime(RepairedItems(receipts))
  {
    hide Joined, IntactKeys, RepairedItems, AllInTime, GenesisPrev;
    forall i | 0 <= i < |receipts| ensures Joined(RepairedItems(receipts), i, keyring, verifies) {
      JoinedKept(receipts, i, keyring, verifies);
    }
    ChainIs(RepairedItems(receipts), keyring, verifies);
  }

  /** Times that hold no unpaired surrogate keep their order. */
  lemma {:induction false} TimesKept(receipts: seq<Json>)
    requires forall i | 0 <= i < |receipts| && TimeOf(receipts[i]).Some? :: IntactText(TimeOf(receipts[i]).value)
    ensures AllInTime(RepairedItems(receipts)) <==> AllInTime(receipts)
  {
    hide TimeOf, RepairedItems, RepairedJson, TextLess, Repaired;
    forall i | 0 <= i < |receipts| ensures TimeOf(RepairedItems(receipts)[i]) == TimeOf(receipts[i]) {
      RepairedItem(receipts, i);
      TimeKept(receipts[i]);
    }
    assert forall i | 0 <= i < |receipts| :: InTime(RepairedItems(receipts), i) <==> InTime(receipts, i);
  }
}
