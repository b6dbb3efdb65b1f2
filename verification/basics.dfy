/** Small shared vocabulary: an optional value and the byte type of the
    virtual filesystem, with JavaScript's conversion of numbers into a
    `Uint8Array`. */
module Basics {

  /** A value that may be absent. */
  datatype Option<+T> = None | Some(value: T)

  /** One element of a `Uint8Array`. */
  type byte = x: int | 0 <= x < 256

  /** JavaScript's ToUint8 applied to an integral number: the unique byte
      congruent to `x` modulo 2^8 (negative numbers wrap around). */
  function ToUint8(x: int): (b: byte)
    ensures (b - x) % 256 == 0
    ensures 0 <= x < 256 ==> b == x
  {
    x % 256
  }

  /** `new Uint8Array(xs)` for an array of integral numbers: element-wise
      ToUint8, same length. */
  function ToUint8Array(xs: seq<int>): (bs: seq<byte>)
    ensures |bs| == |xs|
    ensures forall i :: 0 <= i < |xs| ==> bs[i] == ToUint8(xs[i])
  {
    seq(|xs|, i requires 0 <= i < |xs| => ToUint8(xs[i]))
  }

  /** True iff every number already is a byte. */
  predicate AllBytes(xs: seq<int>)
  {
    forall i :: 0 <= i < |xs| ==> 0 <= xs[i] < 256
  }

  /** The conversion keeps the numbers exactly when they all are bytes
      already; otherwise at least one of them is wrapped. */
  lemma ToUint8ArrayKeepsBytes(xs: seq<int>)
    ensures ToUint8Array(xs) == xs <==> AllBytes(xs)
  {
    if ToUint8Array(xs) == xs {
      forall i | 0 <= i < |xs|
        ensures 0 <= xs[i] < 256
      {
        assert ToUint8Array(xs)[i] == xs[i];
      }
    }
  }
}
