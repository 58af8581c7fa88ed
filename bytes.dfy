/** Byte strings and the big-endian integer conversions of Python's `int`. */
module Bytes {
  import opened Results

  /** One octet of a Python `bytes` value. */
  type byte = x: int | 0 <= x < 256

  /** 256 to the power `k`: how many values `k` bytes can hold. */
  function Pow256(k: nat): (p: nat)
    ensures p >= 1
  {
    if k == 0 then 1 else 256 * Pow256(k - 1)
  }

  /** `int.from_bytes(bs)`: unsigned and big-endian (the default byte order). */
  function FromBigEndian(bs: seq<byte>): (n: nat)
    ensures n < Pow256(|bs|)
  {
    if bs == [] then 0
    else
      var m := FromBigEndian(bs[..|bs| - 1]);
      assert m <= Pow256(|bs| - 1) - 1;
      m * 256 + bs[|bs| - 1]
  }

  /** The `width` big-endian bytes of `n`, when `n` fits in them. */
  function ToBigEndian(n: nat, width: nat): (bs: seq<byte>)
    requires n < Pow256(width)
    ensures |bs| == width
    ensures FromBigEndian(bs) == n
  {
    if width == 0 then []
    else
      var prefix := ToBigEndian(n / 256, width - 1);
      var bs := prefix + [n % 256];
      assert bs[..|bs| - 1] == prefix;
      bs
  }

  /** `n.to_bytes(width)`: Python raises OverflowError unless 0 <= n < 256^width. */
  function ToBytes(n: int, width: nat): (r: Option<seq<byte>>)
    ensures r.Some? <==> 0 <= n < Pow256(width)
    ensures r.Some? ==> |r.value| == width && FromBigEndian(r.value) == n
  {
    if 0 <= n < Pow256(width) then Some(ToBigEndian(n, width)) else None
  }

  /** Reading a byte string as a number and writing it back at the same width gives it back. */
  lemma {:induction false} ToFromBigEndian(bs: seq<byte>)
    ensures ToBigEndian(FromBigEndian(bs), |bs|) == bs
  {
    if bs != [] {
      var init := bs[..|bs| - 1];
      ToFromBigEndian(init);
      var n := FromBigEndian(bs);
      assert n / 256 == FromBigEndian(init) && n % 256 == bs[|bs| - 1];
    }
  }

  /** Big-endian encoding at a fixed width is one-to-one. */
  lemma BigEndianInjective(a: seq<byte>, b: seq<byte>)
    requires |a| == |b| && FromBigEndian(a) == FromBigEndian(b)
    ensures a == b
  {
    ToFromBigEndian(a);
    ToFromBigEndian(b);
  }

  /** Python's `data[:k]`: the first k bytes, or all of them when there are fewer. */
  function Take<T>(s: seq<T>, k: nat): (r: seq<T>)
  {
    if |s| <= k then s else s[..k]
  }

  /** Python's `data[k:]`: everything after the first k bytes, possibly nothing. */
  function Drop<T>(s: seq<T>, k: nat): (r: seq<T>)
  {
    if |s| <= k then [] else s[k..]
  }
}
