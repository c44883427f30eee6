/** The two failure-carrying types used throughout. */
module Wrappers {
  datatype Option<+T> = None | Some(value: T)

  /** A call either returns a value or throws; the error is the code or message it throws with. */
  datatype Result<+T, +E> = Ok(value: T) | Err(error: E)

  /** The sequence without its element at `i`. */
  function RemoveAt<T>(s: seq<T>, i: nat): seq<T>
    requires i < |s|
  {
    s[..i] + s[i + 1..]
  }

  lemma {:induction false} RemovedMember<T>(s: seq<T>, i: nat, x: T)
    requires i < |s| && x in RemoveAt(s, i)
    ensures x in s
  {
    if x in s[..i] {
    } else {
      assert x in s[i + 1..];
    }
  }
}
