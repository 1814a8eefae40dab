/** Numbers as bytes. */
module Bytes {
  type byte = x: int | 0 <= x < 256

  function Value(bs: seq<byte>): nat {
    if bs == [] then 0 else bs[0] + 256 * Value(bs[1..])
  }

  function LittleEndian(v: nat, n: nat): (bs: seq<byte>)
    ensures |bs| == n
  {
    if n == 0 then [] else [v % 256] + LittleEndian(v / 256, n - 1)
  }

  function Capacity(n: nat): (r: nat)
    ensures r >= 1
  {
    if n == 0 then 1 else 256 * Capacity(n - 1)
  }

  lemma {:induction false} ValueOfBytes(v: nat, n: nat)
    requires v < Capacity(n)
    ensures Value(LittleEndian(v, n)) == v
  {
    if n > 0 {
      ValueOfBytes(v / 256, n - 1);
      assert LittleEndian(v, n)[1..] == LittleEndian(v / 256, n - 1);
    }
  }

  lemma {:induction false} BytesOfValue(bs: seq<byte>)
    ensures Value(bs) < Capacity(|bs|) && LittleEndian(Value(bs), |bs|) == bs
  {
    if bs != [] {
      BytesOfValue(bs[1..]);
      assert Value(bs) / 256 == Value(bs[1..]) && Value(bs) % 256 == bs[0];
    }
  }

  /** The big-endian value. */
  function BigEndian(bs: seq<byte>): nat {
    if bs == [] then 0 else BigEndian(bs[..|bs| - 1]) * 256 + bs[|bs| - 1]
  }

  function Reverse(bs: seq<byte>): (r: seq<byte>)
    ensures |r| == |bs|
  {
    seq(|bs|, i requires 0 <= i < |bs| => bs[|bs| - 1 - i])
  }

  lemma ReverseTwice(bs: seq<byte>)
    ensures Reverse(Reverse(bs)) == bs
  {
  }
}
