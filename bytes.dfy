/**
 * Fixed-width integers and the byte encodings Bitcoin's consensus format uses
 * for them: little-endian words and the CompactSize length prefix.
 */
module Bytes {

  type Byte = x: int | 0 <= x < 0x100
  type U16 = x: int | 0 <= x < 0x1_0000
  type U32 = x: int | 0 <= x < 0x1_0000_0000
  type U64 = x: int | 0 <= x < 0x1_0000_0000_0000_0000
  type I32 = x: int | -0x8000_0000 <= x < 0x8000_0000

  /** A SHA-256 digest. */
  type Hash32 = s: seq<Byte> | |s| == 32 witness seq(32, _ => 0)

  /**
   * SHA-256, left uninterpreted: every operation that hashes takes the hash
   * function as a parameter, so nothing proved here depends on its internals.
   */
  type Sha256 = seq<Byte> -> Hash32

  function Pow256(k: nat): (r: nat)
    ensures r >= 1
  {
    if k == 0 then 1 else 256 * Pow256(k - 1)
  }

  /**
   * The `width` low-order bytes of `n`, least significant first: what
   * `consensus_encode` writes for a `width`-byte integer, and what an
   * `as u32` cast followed by that encoding writes for a wider one.
   */
  function LE(n: nat, width: nat): (r: seq<Byte>)
    ensures |r| == width
  {
    if width == 0 then [] else [n % 256] + LE(n / 256, width - 1)
  }

  /** The value of a little-endian byte string. */
  function FromLE(s: seq<Byte>): (r: nat)
    ensures r < Pow256(|s|)
  {
    if s == [] then 0 else s[0] + 256 * FromLE(s[1..])
  }

  /** Reading back a little-endian word gives the number that was written. */
  lemma {:induction false} LERoundTrip(n: nat, width: nat)
    requires n < Pow256(width)
    ensures FromLE(LE(n, width)) == n
  {
    if width > 0 {
      assert n / 256 < Pow256(width - 1);
      LERoundTrip(n / 256, width - 1);
      assert LE(n, width)[1..] == LE(n / 256, width - 1);
    }
  }

  /** Distinct in-range numbers have distinct encodings. */
  lemma LEInjective(m: nat, n: nat, width: nat)
    requires m < Pow256(width) && n < Pow256(width)
    requires LE(m, width) == LE(n, width)
    ensures m == n
  {
    LERoundTrip(m, width);
    LERoundTrip(n, width);
  }

  /** A 32-bit signed integer as its two's-complement little-endian bytes. */
  function EncodeI32(v: I32): (r: seq<Byte>)
    ensures |r| == 4
  {
    LE(if v < 0 then v + 0x1_0000_0000 else v, 4)
  }

  /** The 4-byte encoding of a signed 32-bit integer determines it. */
  lemma EncodeI32Injective(v: I32, w: I32)
    requires EncodeI32(v) == EncodeI32(w)
    ensures v == w
  {
    assert Pow256(4) == 0x1_0000_0000;
    LEInjective(if v < 0 then v + 0x1_0000_0000 else v, if w < 0 then w + 0x1_0000_0000 else w, 4);
  }

  /**
   * Bitcoin's CompactSize (VarInt) length prefix. Lengths are `usize`
   * values cast to `u64`, so the last branch only ever sees values below
   * 2^64; it keeps the low eight bytes otherwise.
   */
  function CompactSize(n: nat): (r: seq<Byte>)
  {
    if n < 0xfd then [n]
    else if n <= 0xffff then [0xfd] + LE(n, 2)
    else if n <= 0xffff_ffff then [0xfe] + LE(n, 4)
    else [0xff] + LE(n, 8)
  }

  /** Reads a CompactSize prefix: the value and the number of bytes it took. */
  function DecodeCompactSize(s: seq<Byte>): (r: Option<(nat, nat)>)
    ensures r.Some? ==> 1 <= r.value.1 <= |s|
  {
    if |s| == 0 then None
    else if s[0] < 0xfd then Some((s[0], 1))
    else if s[0] == 0xfd then (if |s| < 3 then None else Some((FromLE(s[1..3]), 3)))
    else if s[0] == 0xfe then (if |s| < 5 then None else Some((FromLE(s[1..5]), 5)))
    else if |s| < 9 then None else Some((FromLE(s[1..9]), 9))
  }

  /** A CompactSize prefix is read back exactly, whatever follows it. */
  lemma CompactSizeRoundTrip(n: nat, rest: seq<Byte>)
    requires n < 0x1_0000_0000_0000_0000
    ensures DecodeCompactSize(CompactSize(n) + rest) == Some((n, |CompactSize(n)|))
  {
    var s := CompactSize(n) + rest;
    if n < 0xfd {
    } else if n <= 0xffff {
      assert s[1..3] == LE(n, 2);
      assert Pow256(2) == 0x1_0000;
      LERoundTrip(n, 2);
    } else if n <= 0xffff_ffff {
      assert s[1..5] == LE(n, 4);
      assert Pow256(4) == 0x1_0000_0000;
      LERoundTrip(n, 4);
    } else {
      assert s[1..9] == LE(n, 8);
      assert Pow256(8) == 0x1_0000_0000_0000_0000;
      LERoundTrip(n, 8);
    }
  }

  datatype Option<+T> = None | Some(value: T)
}
