/** Little-endian byte encoding of unsigned integers, as Rust's `u64::to_le_bytes` produces it
    (and as the off-chain client's `toArrayLike(Buffer, "le", 8)` does). */
module LittleEndian {
  import opened Types

  /** 256 to the power n: the number of values n bytes can hold. */
  function Pow256(n: nat): (r: nat)
    ensures r > 0
  {
    if n == 0 then 1 else 256 * Pow256(n - 1)
  }

  /** The n least significant bytes of x, least significant first. */
  function ToLE(x: nat, n: nat): (bs: seq<u8>)
    ensures |bs| == n
  {
    if n == 0 then [] else [x % 256] + ToLE(x / 256, n - 1)
  }

  /** The value a little-endian byte string denotes. */
  function FromLE(bs: seq<u8>): (x: nat)
    ensures x < Pow256(|bs|)
  {
    if |bs| == 0 then 0 else bs[0] + 256 * FromLE(bs[1..])
  }

  /** Decoding an n-byte encoding gives back the value, whenever the value fits in n bytes. */
  lemma {:induction false} FromToLE(x: nat, n: nat)
    requires x < Pow256(n)
    ensures FromLE(ToLE(x, n)) == x
  {
    if n > 0 {
      var bs := ToLE(x, n);
      assert bs[1..] == ToLE(x / 256, n - 1);
      FromToLE(x / 256, n - 1);
    }
  }

  /** Encoding the value of a byte string at its own width gives back the byte string. */
  lemma {:induction false} ToFromLE(bs: seq<u8>)
    ensures ToLE(FromLE(bs), |bs|) == bs
  {
    if |bs| > 0 {
      var x := FromLE(bs);
      assert x % 256 == bs[0] && x / 256 == FromLE(bs[1..]);
      ToFromLE(bs[1..]);
    }
  }

  lemma Pow256Of8()
    ensures Pow256(8) == U64_MAX + 1
  {
  }

  /** `to_le_bytes` of a u64: exactly eight bytes. */
  function LE8(x: u64): (bs: seq<u8>)
    ensures |bs| == 8
    ensures FromLE(bs) == x
  {
    Pow256Of8();
    FromToLE(x, 8);
    ToLE(x, 8)
  }

  /** `from_le_bytes` of eight bytes. */
  function DecodeLE8(bs: seq<u8>): (x: u64)
    requires |bs| == 8
  {
    Pow256Of8();
    FromLE(bs)
  }

  /** Decoding inverts the 8-byte encoding. */
  lemma LE8RoundTrip(x: u64)
    ensures DecodeLE8(LE8(x)) == x
  {
    Pow256Of8();
    FromToLE(x, 8);
  }

  /** Every 8-byte string is the encoding of exactly the value it decodes to. */
  lemma LE8Surjective(bs: seq<u8>)
    requires |bs| == 8
    ensures LE8(DecodeLE8(bs)) == bs
  {
    ToFromLE(bs);
  }

  /** Distinct u64 values have distinct encodings. */
  lemma LE8Injective(x: u64, y: u64)
    ensures LE8(x) == LE8(y) <==> x == y
  {
    LE8RoundTrip(x);
    LE8RoundTrip(y);
  }
}
