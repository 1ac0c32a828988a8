/** Fixed-width unsigned integers and their little-endian byte encodings,
    as produced by Rust's `to_le_bytes` and read back by `from_le_bytes`. */
module Bytes {

  const U16_LIMIT: nat := 0x1_0000
  const U64_LIMIT: nat := 0x1_0000_0000_0000_0000
  const U128_LIMIT: nat := 0x1_0000_0000_0000_0000_0000_0000_0000_0000

  type u16 = x: int | 0 <= x < U16_LIMIT
  type u64 = x: int | 0 <= x < U64_LIMIT
  type u128 = x: int | 0 <= x < U128_LIMIT

  /** u8 */
  type byte = x: int | 0 <= x < 256

  /** 256 to the power n: the number of values n bytes can hold. */
  function Pow256(n: nat): (r: nat)
    ensures r > 0
  {
    if n == 0 then 1 else 256 * Pow256(n - 1)
  }

  lemma Pow256Widths()
    ensures Pow256(2) == U16_LIMIT
    ensures Pow256(8) == U64_LIMIT
  {
    assert Pow256(1) == 0x100;
    assert Pow256(2) == 0x1_0000;
    assert Pow256(3) == 0x100_0000;
    assert Pow256(4) == 0x1_0000_0000;
    assert Pow256(5) == 0x100_0000_0000;
    assert Pow256(6) == 0x1_0000_0000_0000;
    assert Pow256(7) == 0x100_0000_0000_0000;
  }

  /** The number whose little-endian bytes are `b` (least significant first). */
  function FromLE(b: seq<byte>): (r: nat)
  {
    if |b| == 0 then 0 else b[0] + 256 * FromLE(b[1..])
  }

  /** n bytes hold a number below 256^n. */
  lemma {:induction false} FromLEBound(b: seq<byte>)
    ensures FromLE(b) < Pow256(|b|)
  {
    if |b| > 0 {
      FromLEBound(b[1..]);
    }
  }

  /** The `n` low-order bytes of `x`, least significant first. */
  function ToLE(x: nat, n: nat): (r: seq<byte>)
    ensures |r| == n
  {
    if n == 0 then [] else [(x % 256) as byte] + ToLE(x / 256, n - 1)
  }

  /** Splitting a number into its low byte and the rest. */
  lemma SplitLowByte(x: nat, n: nat)
    requires n > 0 && x < Pow256(n)
    ensures x == x % 256 + 256 * (x / 256)
    ensures x / 256 < Pow256(n - 1)
  {
  }

  lemma JoinLowByte(x: nat, d: nat, rest: nat)
    requires d < 256 && x == d + 256 * rest
    ensures x % 256 == d && x / 256 == rest
  {
  }

  lemma FromLEStep(b: seq<byte>)
    requires |b| > 0
    ensures FromLE(b) == b[0] + 256 * FromLE(b[1..])
  {
  }

  /** One byte of the induction: if the higher bytes decode back, so does the whole. */
  lemma FromToLEStep(x: nat, n: nat)
    requires n > 0 && FromLE(ToLE(x / 256, n - 1)) == x / 256
    ensures FromLE(ToLE(x, n)) == x
  {
    var q: nat, d: nat := x / 256, x % 256;
    var b := ToLE(x, n);
    assert b[0] == d && b[1..] == ToLE(q, n - 1);
    FromLEStep(b);
  }

  /** Decoding the encoding of a value that fits in n bytes gives it back. */
  lemma {:induction false} FromToLE(x: nat, n: nat)
    requires x < Pow256(n)
    ensures FromLE(ToLE(x, n)) == x
  {
    if n > 0 {
      SplitLowByte(x, n);
      FromToLE(x / 256, n - 1);
      FromToLEStep(x, n);
    }
  }

  /** One byte of the induction: if the higher bytes re-encode, so does the whole. */
  lemma ToFromLEStep(b: seq<byte>)
    requires |b| > 0 && ToLE(FromLE(b[1..]), |b| - 1) == b[1..]
    ensures ToLE(FromLE(b), |b|) == b
  {
    var x := FromLE(b);
    var rest := FromLE(b[1..]);
    var d: nat := b[0];
    FromLEStep(b);
    JoinLowByte(x, d, rest);
    assert ToLE(x, |b|) == [(x % 256) as byte] + ToLE(x / 256, |b| - 1);
    assert [b[0]] + b[1..] == b;
  }

  /** Encoding the decoded value of b into |b| bytes gives b back. */
  lemma {:induction false} ToFromLE(b: seq<byte>)
    ensures ToLE(FromLE(b), |b|) == b
  {
    if |b| > 0 {
      ToFromLE(b[1..]);
      ToFromLEStep(b);
    }
  }

  /** u64::from_le_bytes */
  function U64FromLE(b: seq<byte>): (r: u64)
    requires |b| == 8
  {
    FromLEBound(b);
    Pow256Widths();
    FromLE(b)
  }

  /** u64::to_le_bytes */
  function U64ToLE(x: u64): (r: seq<byte>)
    ensures |r| == 8
  {
    ToLE(x, 8)
  }

  /** u16::from_le_bytes */
  function U16FromLE(b: seq<byte>): (r: u16)
    requires |b| == 2
  {
    FromLEBound(b);
    Pow256Widths();
    FromLE(b)
  }

  /** u16::to_le_bytes */
  function U16ToLE(x: u16): (r: seq<byte>)
    ensures |r| == 2
  {
    ToLE(x, 2)
  }

  lemma U64RoundTrip(x: u64)
    ensures U64FromLE(U64ToLE(x)) == x
  {
    Pow256Widths();
    FromToLE(x, 8);
  }

  lemma U64BytesRoundTrip(b: seq<byte>)
    requires |b| == 8
    ensures U64ToLE(U64FromLE(b)) == b
  {
    ToFromLE(b);
  }

  lemma U16RoundTrip(x: u16)
    ensures U16FromLE(U16ToLE(x)) == x
  {
    Pow256Widths();
    FromToLE(x, 2);
  }

  lemma U16BytesRoundTrip(b: seq<byte>)
    requires |b| == 2
    ensures U16ToLE(U16FromLE(b)) == b
  {
    ToFromLE(b);
  }

  /** The `as u64` cast of Rust: keep the low 64 bits. */
  function AsU64(x: nat): (r: u64)
    ensures x < U64_LIMIT ==> r == x
  {
    x % U64_LIMIT
  }
}
