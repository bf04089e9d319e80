/** Types shared by the models: optional values, bytes and byte strings. */
module Prelude {

  datatype Option<+T> = None | Some(value: T)

  /** One octet of a frame. */
  newtype byte = x: int | 0 <= x < 256

  type Bytes = seq<byte>

  /** `count` zero octets, Python's `bytes(count)`. */
  function Zeros(count: nat): (r: Bytes)
    ensures |r| == count && forall i :: 0 <= i < count ==> r[i] == 0
  {
    seq(count, _ => 0 as byte)
  }
}
