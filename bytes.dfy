/** Outcomes of the store's fallible operations. Every `io::Error` of the
    Rust code is collapsed into the single outcome `Err`. */
module Results {

  datatype Option<+T> = None | Some(value: T)

  datatype Result<+T> = Ok(value: T) | Err
}

/** Fixed-width unsigned integers and their big-endian byte encoding
    (Rust's `u8`, `u64` and `u64::to_be_bytes`). */
module Bytes {

  const U64_LIMIT: int := 0x1_0000_0000_0000_0000

  type U8 = x: int | 0 <= x < 256

  type U64 = x: int | 0 <= x < 0x1_0000_0000_0000_0000

  /** 256 to the power n: the number of values n bytes can hold. */
  function Pow256(n: nat): (r: nat)
    ensures r > 0
  {
    if n == 0 then 1 else 256 * Pow256(n - 1)
  }

  /** Eight bytes hold exactly the `u64` range. */
  lemma Pow256Eight()
    ensures Pow256(8) == U64_LIMIT
  {
  }

  /** The `width` low-order bytes of x, most significant byte first. */
  function ToBigEndian(x: nat, width: nat): (r: seq<U8>)
    ensures |r| == width
  {
    if width == 0 then [] else ToBigEndian(x / 256, width - 1) + [x % 256]
  }

  /** The number a big-endian byte string denotes (Horner's rule). */
  function FromBigEndian(s: seq<U8>): (r: nat)
    ensures r < Pow256(|s|)
  {
    if s == [] then 0
    else
      var high := FromBigEndian(s[..|s| - 1]);
      assert high * 256 + s[|s| - 1] < Pow256(|s| - 1) * 256 by {
        assert high + 1 <= Pow256(|s| - 1);
      }
      high * 256 + s[|s| - 1]
  }

  /** Encoding then decoding gives back any number that fits the width. */
  lemma {:induction false} FromToBigEndian(x: nat, width: nat)
    requires x < Pow256(width)
    ensures FromBigEndian(ToBigEndian(x, width)) == x
  {
    if width > 0 {
      var s := ToBigEndian(x, width);
      assert s[..width - 1] == ToBigEndian(x / 256, width - 1);
      FromToBigEndian(x / 256, width - 1);
    }
  }

  /** Decoding then re-encoding at the same width gives back the bytes. */
  lemma {:induction false} ToFromBigEndian(s: seq<U8>)
    ensures ToBigEndian(FromBigEndian(s), |s|) == s
  {
    if s != [] {
      var n := FromBigEndian(s);
      var high := FromBigEndian(s[..|s| - 1]);
      assert n / 256 == high && n % 256 == s[|s| - 1];
      ToFromBigEndian(s[..|s| - 1]);
    }
  }

  /** `u64::to_be_bytes`: the eight bytes of x, most significant first. */
  function U64ToBytes(x: U64): (r: seq<U8>)
    ensures |r| == 8
    ensures FromBigEndian(r) == x
  {
    Pow256Eight();
    FromToBigEndian(x, 8);
    ToBigEndian(x, 8)
  }

  /** `u64::from_be_bytes`: the number eight big-endian bytes denote. */
  function U64FromBytes(s: seq<U8>): (r: U64)
    requires |s| == 8
    ensures U64ToBytes(r) == s
  {
    Pow256Eight();
    ToFromBigEndian(s);
    FromBigEndian(s)
  }
}
