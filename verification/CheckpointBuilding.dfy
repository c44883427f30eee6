/** checkpoint.js `buildCheckpoint`, `signCheckpoint`: a tree head as it is written and signed. */
module CheckpointBuilding {
  import opened Wrappers
  import opened Hashing
  import opened Numbers
  import opened Canonical
  import opened JsonObjects
  import opened Receipts
  import opened ReceiptBuilding
  import opened Checkpoints

  /** The properties of a body, in the order they are written. */
  function CheckpointProperties(name: Text, size: int, root: Text, head: Text, ts: Text): seq<Field> {
    [Field(V, Num(FromInt(CHECKPOINT_VERSION))), Field(LOG, Str(name)), Field(SIZE, Num(FromInt(size))),
     Field(ROOT, Str(root)), Field(HEAD, Str(head)), Field(TS, Str(ts))]
  }

  function BuildCheckpoint(name: Text, size: int, root: Text, head: Text, ts: Text): Json {
    Obj(Object(CheckpointProperties(name, size, root, head, ts)))
  }

  function SignCheckpoint(identity: Identity, body: Json): Checkpoint {
    Checkpoint(body, [Signed(LogRole, identity.kid, identity.sign(Raw(CheckpointDigest(body))))])
  }

  /** A body says what it was built from. */
  lemma {:induction false} CheckpointRead(body: Json, name: Text, size: int, root: Text, head: Text, ts: Text)
    requires body == BuildCheckpoint(name, size, root, head, ts)
    ensures IntOf(Get(body, V)) == Some(CHECKPOINT_VERSION) && SizeOf(body) == Some(size)
    ensures Get(body, ROOT) == Some(Str(root)) && Get(body, HEAD) == Some(Str(head))
    ensures Get(body, LOG) == Some(Str(name)) && Ordered(body.fields)
  {
    hide Lookup, Object, Ordered, FromInt, AsInt;
    var p := CheckpointProperties(name, size, root, head, ts);
    CheckpointKeys();
    ObjectOrdered(p);
    PropertyRead(p, 0);
    PropertyRead(p, 1);
    PropertyRead(p, 2);
    PropertyRead(p, 3);
    PropertyRead(p, 4);
    AsIntFromInt(CHECKPOINT_VERSION);
    AsIntFromInt(size);
  }

  lemma {:induction false} CheckpointKeys()
    ensures |V| == 1 && |LOG| == 3 && |SIZE| == 4 && |ROOT| == 4 && |HEAD| == 4 && |TS| == 2
    ensures SIZE[0] != ROOT[0] && ROOT[0] != HEAD[0] && SIZE[0] != HEAD[0]
  {
  }
}
