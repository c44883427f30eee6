/** app.js, the cosign handler, and store.js `bindWitnessLogKey`: the rows of one witness, updated in place. */
module WitnessServices {
  import opened Wrappers
  import opened Hashing
  import opened Canonical
  import opened JsonObjects
  import opened JsConsistency
  import opened Receipts
  import opened Checkpoints
  import opened Positions
  import opened Witnesses

  class WitnessService {
    var positions: map<Text, Position>
    var bindings: map<Text, Binding>
    var pending: seq<Claim>
    var signed: seq<Claim>

    ghost function State(): Rows
      reads this
    {
      Rows(positions, bindings, pending, signed)
    }

    constructor ()
      ensures State() == FRESH
    {
      positions, bindings, pending, signed := map[], map[], [], [];
    }

    /** One transaction: a refusal leaves every row as it was. */
    method ClaimPosition(request: Request, verifies: Verifier, c: Coercions) returns (claim: Result<Claim, Refusal>)
      modifies this
      ensures State() == Apply(old(State()), Requested(request), verifies, c)
      ensures claim == ClaimFor(old(State()), request, verifies, c)
    {
      hide SignedBy, Get, FindLogSignature, KeyOf, Extension, OfferedSize, StoredSize;
      var position := KeyOf(request.org, request.body, c);
      var bound := position in bindings;
      if bound && request.offered.Some? && request.offered.value.kid != bindings[position].kid {
        return Err(LogKeyMismatch);
      }
      if !bound && request.offered.None? {
        return Err(MissingLogKey);
      }
      var key := if bound then bindings[position] else request.offered.value;
      var logSig := FindLogSignature(request.sigs, key.kid);
      if logSig.None? || !SignedBy(request.body, key.publicKey, logSig.value, verifies) {
        return Err(BadLogSignature);
      }
      var size, root := OfferedSize(request.body), StoredRoot(Get(request.body, ROOT), c);
      if size.None? || root.None? {
        return Err(NotStorable);
      }
      if position in positions {
        var refusal := CheckExtension(positions[position], size.value, Get(request.body, ROOT).value, request.proof, c);
        if refusal.Some? {
          return Err(refusal.value);
        }
      }
      var made := Claim(request.org, request.body, key, logSig.value);
      positions := positions[position := Position(StoredSize(size.value, c), root.value)];
      if !bound {
        BindLogKey(position, key);
      }
      pending := pending + [made];
      return Ok(made);
    }

    method CheckExtension(prior: Position, size: Size, root: Json, proof: Option<seq<Bytes>>, c: Coercions)
      returns (refusal: Option<Refusal>)
      ensures refusal == Extension(prior, size, root, proof, c)
    {
      hide Below;
      if Below(size, prior.size, c) {
        return Some(LogShrank);
      }
      if size == prior.size && root != Str(prior.root) {
        return Some(SplitView);
      }
      if Below(prior.size, size, c) {
        if proof.None? {
          return Some(MissingConsistencyProof);
        }
        if !root.Str? {
          return Some(NotHex);
        }
        if !Whole(prior.size) || !Whole(size) {
          return Some(NotAnExtension);
        }
        var ok := JsVerifyConsistency(prior.size.value.Floor, size.value.Floor, prior.root, root.text, proof.value);
        if !ok {
          return Some(NotAnExtension);
        }
      }
      return None;
    }

    method BindLogKey(position: Text, key: Binding)
      modifies this`bindings
      ensures bindings == old(bindings)[position := key]
    {
      bindings := bindings[position := key];
    }

    /** The signer answers for the request at `index`, which may be any that is waiting. */
    method FinishSigning(index: nat)
      requires index < |pending|
      modifies this`pending, this`signed
      ensures forall verifies, c :: State() == Apply(old(State()), SignatureMade(index), verifies, c)
    {
      signed := signed + [pending[index]];
      pending := RemoveAt(pending, index);
    }

    method FailSigning(index: nat)
      requires index < |pending|
      modifies this`pending
      ensures forall verifies, c :: State() == Apply(old(State()), SigningFailed(index), verifies, c)
    {
      pending := RemoveAt(pending, index);
    }

    /** `witness-rebind`, on the host: the recorded position is kept exactly as it was. */
    method Rebind(org: Text, log: Text, key: Binding) returns (changed: bool)
      modifies this`bindings
      ensures forall verifies, c :: State() == Apply(old(State()), Rebound(org, log, key), verifies, c)
      ensures positions == old(positions)
      ensures var position := PositionKey(org, log);
        changed <==> if position in old(bindings) then old(bindings)[position].kid != key.kid else position in positions
    {
      var position := PositionKey(org, log);
      if position !in bindings && position !in positions {
        return false;
      }
      if position in bindings && bindings[position].kid == key.kid {
        return false;
      }
      BindLogKey(position, key);
      return true;
    }
  }
}
