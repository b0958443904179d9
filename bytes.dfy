/** Bytes and the little-endian integer codes of Python's `struct` module
    ("<I", "<Q", "<i") as used by the frame codec. */
module Bytes {
  import opened Wrappers

  type byte = x: int | 0 <= x < 256

  /** 256 to the power k: one more than the largest value k bytes hold. */
  function Pow256(k: nat): nat {
    if k == 0 then 1 else 256 * Pow256(k - 1)
  }

  /** The unsigned value of `s` read as a little-endian number. */
  function ValueLE(s: seq<byte>): (r: nat)
    ensures r < Pow256(|s|)
  {
    if s == [] then 0 else s[0] + 256 * ValueLE(s[1..])
  }

  /** `n` written as exactly `width` little-endian bytes; reading them back
      gives `n` again. */
  function LE(n: nat, width: nat): (r: seq<byte>)
    requires n < Pow256(width)
    ensures |r| == width
    ensures ValueLE(r) == n
  {
    if width == 0 then []
    else
      assert n / 256 < Pow256(width - 1);
      var rest := LE(n / 256, width - 1);
      var r := [n % 256] + rest;
      assert r[1..] == rest;
      r
  }

  /** Reading `width` bytes and writing the value back reproduces them. */
  lemma {:induction false} LEOfValue(s: seq<byte>)
    ensures LE(ValueLE(s), |s|) == s
  {
    if s != [] {
      LEOfValue(s[1..]);
      var n := ValueLE(s);
      SplitByte(s[0], ValueLE(s[1..]), n);
      assert LE(n, |s|) == [s[0]] + LE(ValueLE(s[1..]), |s| - 1);
    }
  }

  /** The low byte and the rest of `low + 256 * high`. */
  lemma SplitByte(low: byte, high: nat, n: nat)
    requires n == low + 256 * high
    ensures n % 256 == low && n / 256 == high
  {
  }

  const U32_LIMIT: nat := 0x1_0000_0000
  const U64_LIMIT: nat := 0x1_0000_0000_0000_0000
  const I32_MIN: int := -0x8000_0000
  const I32_MAX: int := 0x7FFF_FFFF

  lemma Pow256Values()
    ensures Pow256(4) == U32_LIMIT && Pow256(8) == U64_LIMIT
  {
    assert Pow256(2) == 65536;
    assert Pow256(4) == 65536 * 65536;
    assert Pow256(8) == Pow256(4) * Pow256(4) by {
      assert Pow256(8) == 256 * 256 * 256 * 256 * Pow256(4);
    }
  }

  /** `struct.pack("<I", n)`: raises `struct.error` (None here) outside 0 .. 2^32-1. */
  function PackU32(n: int): (r: Option<seq<byte>>)
    ensures r.Some? <==> 0 <= n < U32_LIMIT
    ensures r.Some? ==> |r.value| == 4 && ValueLE(r.value) == n
  {
    Pow256Values();
    if 0 <= n < U32_LIMIT then Some(LE(n, 4)) else None
  }

  /** `struct.pack("<Q", n)`: raises outside 0 .. 2^64-1. */
  function PackU64(n: int): (r: Option<seq<byte>>)
    ensures r.Some? <==> 0 <= n < U64_LIMIT
    ensures r.Some? ==> |r.value| == 8 && ValueLE(r.value) == n
  {
    Pow256Values();
    if 0 <= n < U64_LIMIT then Some(LE(n, 8)) else None
  }

  /** `struct.pack("<i", n)`: two's complement, raises outside -2^31 .. 2^31-1. */
  function PackI32(n: int): (r: Option<seq<byte>>)
    ensures r.Some? <==> I32_MIN <= n <= I32_MAX
    ensures r.Some? ==> |r.value| == 4 && UnpackI32(r.value) == n
  {
    Pow256Values();
    if I32_MIN <= n <= I32_MAX then Some(LE(if n < 0 then n + U32_LIMIT else n, 4)) else None
  }

  /** `struct.unpack("<I", s)` on exactly four bytes. */
  function UnpackU32(s: seq<byte>): (r: nat)
    requires |s| == 4
    ensures r < U32_LIMIT
  {
    Pow256Values();
    ValueLE(s)
  }

  /** `struct.unpack("<Q", s)` on exactly eight bytes. */
  function UnpackU64(s: seq<byte>): (r: nat)
    requires |s| == 8
    ensures r < U64_LIMIT
  {
    Pow256Values();
    ValueLE(s)
  }

  /** `struct.unpack("<i", s)` on exactly four bytes. */
  function UnpackI32(s: seq<byte>): (r: int)
    requires |s| == 4
    ensures I32_MIN <= r <= I32_MAX
  {
    var u := UnpackU32(s);
    if u <= I32_MAX then u else u - U32_LIMIT
  }
}
