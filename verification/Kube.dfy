/** The parts of the Kubernetes API that every component uses: optional values, object keys,
    and how one API call can end. */
module Kube {

  datatype Option<+T> = None | Some(value: T)

  /** A signed 32-bit integer of the source. */
  type int32 = x: int | -0x8000_0000 <= x <= 0x7fff_ffff

  const MAX_INT32: int := 0x7fff_ffff

  /** 32-bit addition wraps around. */
  function Wrap32(x: int): int32 {
    (x + 0x8000_0000) % 0x1_0000_0000 - 0x8000_0000
  }

  /** How one API call ends:
      - `Done`: the server answered;
      - `Refused`: the caller sees an error and nothing happened;
      - `Lost`: the caller sees an error although the server carried the request out. */
  datatype Outcome = Done | Refused | Lost

  datatype Error = NotFound | AlreadyExists | Failed

  datatype Result<+T> = Ok(value: T) | Err(error: Error)

  // What a call does to a store of objects.

  function Created<K, V>(m: map<K, V>, k: K, v: V, o: Outcome): map<K, V> {
    if k in m || o == Refused then m else m[k := v]
  }

  function Updated<K, V>(m: map<K, V>, k: K, v: V, o: Outcome): map<K, V> {
    if k !in m || o == Refused then m else m[k := v]
  }

  function Deleted<K, V>(m: map<K, V>, k: K, o: Outcome): map<K, V> {
    if o == Refused then m else m - {k}
  }

  // What a call answers.

  function CreateError<K, V>(m: map<K, V>, k: K, o: Outcome): Option<Error> {
    if o != Done then Some(Failed) else if k in m then Some(AlreadyExists) else None
  }

  /** `Get`, `Update`, `Patch` and `Delete` of a missing object answer `NotFound`. */
  function TouchError<K, V>(m: map<K, V>, k: K, o: Outcome): Option<Error> {
    if o != Done then Some(Failed) else if k !in m then Some(NotFound) else None
  }
}
