/**
 * app.js, the position checks of `POST /v1/witness/cosign`: how the size and root a
 * request offers are compared with the recorded ones, what the row then holds, and
 * exactly when an accepted request extends what was recorded. No code checks the type
 * of the offered size, so it may be a number or a text, and so may the recorded one.
 */
module Positions {
  import opened Wrappers
  import opened Hashing
  import opened Numbers
  import opened Canonical
  import opened JsonObjects
  import opened Utf8
  import opened JsonBytes
  import opened Merkle
  import opened MerkleProofs
  import opened JsShifts
  import opened JsConsistency
  import opened Checkpoints

  datatype Size = Amount(value: real) | Words(text: Text)

  /** The last size and root claimed for a position key. */
  datatype Position = Position(size: Size, root: Text)

  datatype Refusal =
    | LogKeyMismatch | MissingLogKey | BadLogSignature | LogShrank | SplitView
    | MissingConsistencyProof | NotHex | NotAnExtension | NotStorable

  /** A text read as a JavaScript number. */
  datatype Numeric = NotANumber | Infinite(negative: bool) | Finite(value: real)

  /**
   * What JavaScript and SQLite make of a value where they want another type: `Number(text)`,
   * `text < text`, a text in an INTEGER column, a number in a TEXT column, and a template literal
   * of a value that is not a text.
   */
  datatype Coercions = Coercions(numeric: Text -> Numeric, before: (Text, Text) -> bool, column: Text -> Size,
                                 numeral: NormalNumber -> Text, template: Option<Json> -> Text)

  /** A text that the column turns into a number is that number to JavaScript too. */
  ghost predicate Coherent(c: Coercions) {
    forall t :: c.column(t).Amount? ==> c.numeric(t) == Finite(c.column(t).value)
  }

  function OfferedSize(body: Json): Option<Size> {
    match Get(body, SIZE)
    case Some(Num(n)) => Some(Amount(Value(n)))
    case Some(Str(t)) => Some(Words(t))
    case _ => None
  }

  function StoredSize(size: Size, c: Coercions): Size {
    if size.Words? then c.column(size.text) else size
  }

  /** The column is UTF-8. */
  function StoredRoot(root: Option<Json>, c: Coercions): Option<Text> {
    match root
    case Some(Str(t)) => Some(Repaired(t))
    case Some(Num(n)) => Some(Repaired(c.numeral(n)))
    case _ => None
  }

  /** The row a body is recorded as, where its size and root can be stored at all. */
  function Recorded(body: Json, c: Coercions): Option<Position> {
    var size, root := OfferedSize(body), StoredRoot(Get(body, ROOT), c);
    if size.None? || root.None? then None else Some(Position(StoredSize(size.value, c), root.value))
  }

  /** JavaScript's `a < b`. */
  predicate Below(a: Size, b: Size, c: Coercions) {
    match (a, b)
    case (Amount(x), Amount(y)) => x < y
    case (Words(s), Words(t)) => c.before(s, t)
    case (Amount(x), Words(t)) =>
      (match c.numeric(t)
       case NotANumber => false
       case Infinite(negative) => !negative
       case Finite(y) => x < y)
    case (Words(s), Amount(y)) =>
      (match c.numeric(s)
       case NotANumber => false
       case Infinite(negative) => negative
       case Finite(x) => x < y)
  }

  /** `Number.isInteger` */
  predicate Whole(size: Size) {
    size.Amount? && size.value.Floor as real == size.value
  }

  /** `verifyConsistency`, with its 32-bit shifts. */
  predicate GrowthAccepted(prior: Position, size: Size, root: Text, proof: seq<Bytes>) {
    && Whole(prior.size) && Whole(size)
    && JsConsistencyAccepted(prior.size.value.Floor, size.value.Floor, prior.root, root, proof)
  }

  /** Whether the witness's memory allows the offered size and root: the refusal, or none. */
  function Extension(prior: Position, size: Size, root: Json, proof: Option<seq<Bytes>>, c: Coercions): Option<Refusal> {
    if Below(size, prior.size, c) then Some(LogShrank)
    else if size == prior.size && root != Str(prior.root) then Some(SplitView)
    else if !Below(prior.size, size, c) then None
    else if proof.None? then Some(MissingConsistencyProof)
    else if !root.Str? then Some(NotHex)
    else if GrowthAccepted(prior, size, root.text, proof.value) then None
    else Some(NotAnExtension)
  }

  /**
   * The same for the first request, and for a size or root that the row cannot hold, which is refused whatever
   * it compares to.
   */
  function Refused(prior: Option<Position>, body: Json, proof: Option<seq<Bytes>>, c: Coercions): Option<Refusal> {
    if Recorded(body, c).None? then Some(NotStorable)
    else if prior.None? then None
    else Extension(prior.value, OfferedSize(body).value, Get(body, ROOT).value, proof, c)
  }

  // --------------------------------------------------------------- what extends

  /** `later` is `earlier`, or larger, and in every tree with the later root the earlier one is a prefix. */
  ghost predicate Extends(earlier: Position, later: Position) {
    earlier == later || (Whole(earlier.size) && Whole(later.size) && Grows(earlier, later))
  }

  ghost predicate Grows(earlier: Position, later: Position)
    requires Whole(earlier.size) && Whole(later.size)
  {
    var m, n := earlier.size.value.Floor, later.size.value.Floor;
    && m < n
    && forall leaves: seq<Digest> | 0 < m && |leaves| == n && later.root == Raw(MerkleRoot(leaves)) ::
         earlier.root == Raw(MerkleRoot(leaves[..m]))
  }

  lemma {:induction false} ExtendsTransitive(a: Position, b: Position, c: Position)
    requires Extends(a, b) && Extends(b, c)
    ensures Extends(a, c)
  {
    hide MerkleRoot, Raw;
    if a != b && b != c {
      var m, n := a.size.value.Floor, b.size.value.Floor;
      forall leaves: seq<Digest> | 0 < m && |leaves| == c.size.value.Floor && c.root == Raw(MerkleRoot(leaves))
        ensures a.root == Raw(MerkleRoot(leaves[..m]))
      {
        assert b.root == Raw(MerkleRoot(leaves[..n]));
        assert leaves[..n][..m] == leaves[..m];
      }
    }
  }

  /** A stored root that is a digest was offered as that digest. */
  lemma {:induction false} DigestStored(t: Text, digest: Digest)
    ensures Repaired(t) == Raw(digest) <==> t == Raw(digest)
  {
    hide Repaired, Raw;
    RawUnits(digest);
    RepairedUnits(t);
    PlainRepairs(Raw(digest));
    if Repaired(t) == Raw(digest) {
      assert forall i | 0 <= i < |t| :: t[i] == Raw(digest)[i];
    }
  }

  lemma {:induction false} RawUnits(digest: Digest)
    ensures NoSurrogate(Raw(digest)) && REPLACEMENT !in Raw(digest)
  {
  }

  lemma {:induction false} AcceptedGrows(prior: Position, size: Size, root: Text, proof: seq<Bytes>)
    requires GrowthAccepted(prior, size, root, proof) && prior.size.value < size.value <= TWO_TO_32 as real
    ensures Grows(prior, Position(size, Repaired(root)))
  {
    hide MerkleRoot, Raw, Repaired, ConsistencyAccepted, JsConsistencyAccepted;
    var m, n := prior.size.value.Floor, size.value.Floor;
    ShiftsAgree(m, n, prior.root, root, proof);
    forall leaves: seq<Digest> | 0 < m && |leaves| == n && Repaired(root) == Raw(MerkleRoot(leaves))
      ensures prior.root == Raw(MerkleRoot(leaves[..m]))
    {
      DigestStored(root, MerkleRoot(leaves));
      ConsistencySound(leaves, m, prior.root, proof);
    }
  }

  predicate BothNumbers(prior: Position, body: Json) {
    prior.size.Amount? && OfferedSize(body).Some? && OfferedSize(body).value.Amount?
  }

  /** The request would have the log grow to more leaves than the shifts of the verifier can count. */
  predicate PastBound(prior: Position, body: Json) {
    && BothNumbers(prior, body)
    && OfferedSize(body).value.value > prior.size.value && OfferedSize(body).value.value > TWO_TO_32 as real
  }

  /**
   * What a caller can check before the call: both sizes are numbers and growth ends at 2 to the 32 at most, or the
   * request would be recorded as what is there.
   */
  predicate Orderly(prior: Position, body: Json, c: Coercions) {
    (BothNumbers(prior, body) && !PastBound(prior, body)) || Recorded(body, c) == Some(prior)
  }

  /**
   * A request that passes the checks extends the recorded position where it is orderly, and, unless it goes past the
   * bound, nowhere else. `GrowthSoundExactly` says that no larger bound would do.
   */
  lemma {:induction false} AllowedExtendsExactly(prior: Position, body: Json, proof: Option<seq<Bytes>>, c: Coercions)
    requires Coherent(c) && IntactText(prior.root) && Refused(Some(prior), body, proof, c) == None
    ensures Recorded(body, c).Some?
    ensures Orderly(prior, body, c) ==> Extends(prior, Recorded(body, c).value)
    ensures !PastBound(prior, body) ==> (Extends(prior, Recorded(body, c).value) <==> Orderly(prior, body, c))
  {
    hide Get, Grows, JsConsistencyAccepted, Repaired;
    var size, next := OfferedSize(body).value, Recorded(body, c).value;
    if BothNumbers(prior, body) {
      if prior.size.value < size.value <= TWO_TO_32 as real {
        AcceptedGrows(prior, size, Get(body, ROOT).value.text, proof.value);
      }
    } else if Whole(prior.size) && Whole(next.size) {
      assert c.numeric(size.text) == Finite(next.size.value);
      assert prior.size.value == next.size.value;
      NoGrowthInPlace(prior, next);
    }
  }

  ghost predicate GrowthExtends(prior: Position, n: nat, root: Text, proof: seq<Bytes>) {
    GrowthAccepted(prior, Amount(n as real), root, proof) && prior.size.value < n as real ==>
      Extends(prior, Position(Amount(n as real), Repaired(root)))
  }

  /** Every accepted growth to size `n` extends the recorded position exactly for `n` up to 2 to the 32. */
  lemma {:induction false} GrowthSoundExactly(n: nat)
    requires n > 1
    ensures n <= TWO_TO_32 <==> forall prior: Position, root: Text, proof: seq<Bytes> :: GrowthExtends(prior, n, root, proof)
  {
    hide GrowthAccepted, Extends, Repaired, MerkleRoot, Raw;
    if n <= TWO_TO_32 {
      forall prior: Position, root: Text, proof: seq<Bytes> ensures GrowthExtends(prior, n, root, proof) {
        GrowsWithinBound(prior, n, root, proof);
      }
    } else {
      var leaves := seq(n, _ => LeafHash([]));
      var prior, proof := GrowthPastTheBound(leaves, []);
      assert !GrowthExtends(prior, n, Raw(MerkleRoot(leaves)), proof);
    }
  }

  lemma {:induction false} GrowsWithinBound(prior: Position, n: nat, root: Text, proof: seq<Bytes>)
    requires n <= TWO_TO_32
    ensures GrowthExtends(prior, n, root, proof)
  {
    hide JsConsistencyAccepted, Grows, Repaired;
    if GrowthAccepted(prior, Amount(n as real), root, proof) && prior.size.value < n as real {
      AcceptedGrows(prior, Amount(n as real), root, proof);
    }
  }

  /**
   * Past the bound, for every list of leaf hashes: a position of size 1 that the root of the list is accepted
   * after and does not extend.
   */
  lemma {:induction false} GrowthPastTheBound(leaves: seq<Digest>, data: Bytes) returns (prior: Position, proof: seq<Bytes>)
    requires |leaves| > TWO_TO_32 && leaves[0] == LeafHash(data)
    ensures prior.size == Amount(1.0) && IntactText(prior.root)
    ensures var next := Position(Amount(|leaves| as real), Raw(MerkleRoot(leaves)));
      && GrowthAccepted(prior, next.size, next.root, proof) && Repaired(next.root) == next.root
      && !Extends(prior, next)
  {
    hide JsConsistencyAccepted, JsInclusionAccepted, MerkleRoot, Raw, LeafHash, Repaired;
    var firstRoot: Bytes;
    firstRoot, proof := UnsoundPastTheBound(leaves, data);
    prior := Position(Amount(1.0), firstRoot);
    var digest :| firstRoot == Raw(digest);
    DigestStored(firstRoot, digest);
    DigestStored(Raw(MerkleRoot(leaves)), MerkleRoot(leaves));
    assert (|leaves| as real).Floor == |leaves| && (1.0 as real).Floor == 1;
  }

  lemma {:induction false} NoGrowthInPlace(prior: Position, next: Position)
    requires Whole(prior.size) && Whole(next.size) && next.size.value <= prior.size.value
    ensures !Grows(prior, next)
  {
  }

  /** What `verifyConsistency` accepts is not refused. */
  lemma {:induction false} GrowthIsAllowed(prior: Position, body: Json, n: int, root: Text, proof: seq<Bytes>, c: Coercions)
    requires SizeOf(body) == Some(n) && Get(body, ROOT) == Some(Str(root))
    requires GrowthAccepted(prior, Amount(n as real), root, proof) && prior.size.value < n as real
    ensures Refused(Some(prior), body, Some(proof), c) == None
  {
    hide Get, Repaired, JsConsistencyAccepted, AsInt, Value;
    WholeValue(Get(body, SIZE).value.number);
  }

  /** The text of the recorded size passes every comparison: any root replaces the recorded one. */
  lemma {:induction false} TextSizeReplacesRoot(prior: Position, body: Json, t: Text, root: Text, proof: Option<seq<Bytes>>,
                                                c: Coercions)
    requires Coherent(c) && prior.size.Amount? && c.column(t) == prior.size
    requires Get(body, SIZE) == Some(Str(t)) && Get(body, ROOT) == Some(Str(root))
    ensures Refused(Some(prior), body, proof, c) == None
    ensures Recorded(body, c) == Some(Position(prior.size, Repaired(root)))
  {
    hide Get, Repaired;
    assert c.numeric(t) == Finite(prior.size.value);
  }

  /** A text that is no number is recorded as it is, and every number and root is then accepted, smaller ones too. */
  lemma {:induction false} UnreadableSizeForgets(prior: Position, first: Json, second: Json, t: Text, root: Text, n: NormalNumber,
                                                 other: Text, proof: Option<seq<Bytes>>, c: Coercions)
    requires prior.size.Amount? && c.numeric(t).NotANumber? && c.column(t) == Words(t)
    requires Get(first, SIZE) == Some(Str(t)) && Get(first, ROOT) == Some(Str(root))
    requires Get(second, SIZE) == Some(Num(n)) && Get(second, ROOT) == Some(Str(other))
    ensures Refused(Some(prior), first, proof, c) == None
    ensures Refused(Recorded(first, c), second, proof, c) == None
    ensures Recorded(second, c) == Some(Position(Amount(Value(n)), Repaired(other)))
  {
    hide Get, Value, Repaired;
  }

  /** The size of a checkpoint body, where it is an integer, is what its row holds. */
  lemma {:induction false} IntegerRecorded(body: Json, size: int, root: Text, c: Coercions)
    requires SizeOf(body) == Some(size) && Get(body, ROOT) == Some(Str(root))
    ensures Recorded(body, c) == Some(Position(Amount(size as real), Repaired(root)))
  {
    hide Get, AsInt, Value, Repaired;
    WholeValue(Get(body, SIZE).value.number);
  }

  lemma {:induction false} WholeValue(n: Number)
    requires AsInt(n).Some?
    ensures Value(n) == AsInt(n).value as real
  {
    hide DigitsValue, Scaled, Magnitude;
    if !n.Zero? {
      TrailingZerosMagnitude(n.digits, n.exponent);
      MagnitudeWhole(n.digits + Zeros(n.exponent));
    }
  }

  lemma {:induction false} MagnitudeWhole(digits: seq<Digit>)
    ensures Magnitude(digits, 0) == DigitsValue(digits) as real
  {
    hide DigitsValue;
  }

  /** What a row holds is as the column gives it back. */
  lemma {:induction false} RecordedIntact(body: Json, c: Coercions)
    requires Recorded(body, c).Some?
    ensures IntactText(Recorded(body, c).value.root)
  {
    hide Get, Repaired;
    match Get(body, ROOT)
    case Some(Str(t)) => RepairedIsIntact(t);
    case Some(Num(n)) => RepairedIsIntact(c.numeral(n));
    case _ =>
  }
}
