/** Foundation's `Data`, as a sequence of bytes. */
module Bytes {

  type Byte = bv8

  type Data = seq<Byte>

  /** Every byte of `d` equals `b`. */
  predicate FilledWith(d: Data, b: Byte)
  {
    forall i :: 0 <= i < |d| ==> d[i] == b
  }
}
