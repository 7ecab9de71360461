/** Bytes, and the concatenation of runs of them. */
module Bytes {
  type byte = x: int | 0 <= x < 256

  function Zeros(n: nat): (z: seq<byte>)
    ensures |z| == n
  {
    seq(n, _ => 0)
  }

  function Flatten(rs: seq<seq<byte>>): seq<byte> {
    if rs == [] then [] else rs[0] + Flatten(rs[1..])
  }

  lemma {:induction false} FlattenSnoc(rs: seq<seq<byte>>, r: seq<byte>)
    ensures Flatten(rs + [r]) == Flatten(rs) + r
  {
    if rs != [] {
      FlattenSnoc(rs[1..], r);
      assert (rs + [r])[1..] == rs[1..] + [r];
    }
  }
}
