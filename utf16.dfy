/** UTF-16 as the message code sees it (hertavilla/utils.py `_c`, `_rc`):
    offsets and lengths of rich-text entities count UTF-16 code units, and
    the text is handled as the bytes of `str.encode("utf-16")` — a
    little-endian byte-order mark followed by little-endian code units. The
    decoder is `bytes.decode("utf-16")`, which `parse_content` applies to
    slices of those bytes. */
module Utf16 {
  import opened Wrappers
  import opened Bytes

  /** A UTF-16 code unit. */
  type unit = x: int | 0 <= x < 0x1_0000

  const HIGH_SURROGATE: int := 0xD800
  const LOW_SURROGATE: int := 0xDC00
  const SURROGATE_END: int := 0xE000
  const ASTRAL_BASE: int := 0x1_0000

  predicate IsHigh(u: int) { HIGH_SURROGATE <= u < LOW_SURROGATE }
  predicate IsLow(u: int) { LOW_SURROGATE <= u < SURROGATE_END }

  /** The code units of one character: itself below U+10000, otherwise a
      high and a low surrogate. */
  function CharUnits(c: char): (r: seq<unit>)
    ensures |r| == (if c as int < ASTRAL_BASE then 1 else 2)
    ensures c as int < ASTRAL_BASE ==> r[0] == c as int && !IsHigh(r[0]) && !IsLow(r[0])
    ensures c as int >= ASTRAL_BASE ==> IsHigh(r[0]) && IsLow(r[1])
  {
    var v := c as int;
    if v < ASTRAL_BASE then [v]
    else [HIGH_SURROGATE + (v - ASTRAL_BASE) / 0x400, LOW_SURROGATE + (v - ASTRAL_BASE) % 0x400]
  }

  /** The code units of a string, in order. */
  function Units(s: string): (r: seq<unit>)
    ensures |s| <= |r| <= 2 * |s|
  {
    if s == [] then [] else CharUnits(s[0]) + Units(s[1..])
  }

  lemma {:induction false} UnitsAppend(a: string, b: string)
    ensures Units(a + b) == Units(a) + Units(b)
  {
    if a == [] {
      assert a + b == b;
    } else {
      assert (a + b)[0] == a[0];
      assert (a + b)[1..] == a[1..] + b;
      UnitsAppend(a[1..], b);
      calc {
        Units(a + b);
        CharUnits(a[0]) + Units(a[1..] + b);
        CharUnits(a[0]) + (Units(a[1..]) + Units(b));
        (CharUnits(a[0]) + Units(a[1..])) + Units(b);
      }
    }
  }

  /** Code units as little-endian byte pairs. */
  function UnitBytesLE(u: seq<unit>): (r: seq<byte>)
    ensures |r| == 2 * |u|
  {
    if u == [] then [] else [u[0] % 256, u[0] / 256] + UnitBytesLE(u[1..])
  }

  lemma {:induction false} UnitBytesAppend(u: seq<unit>, w: seq<unit>)
    ensures UnitBytesLE(u + w) == UnitBytesLE(u) + UnitBytesLE(w)
  {
    if u == [] {
      assert u + w == w;
    } else {
      assert (u + w)[0] == u[0];
      assert (u + w)[1..] == u[1..] + w;
      UnitBytesAppend(u[1..], w);
      var head: seq<byte> := [u[0] % 256, u[0] / 256];
      calc {
        UnitBytesLE(u + w);
        head + UnitBytesLE(u[1..] + w);
        head + (UnitBytesLE(u[1..]) + UnitBytesLE(w));
        (head + UnitBytesLE(u[1..])) + UnitBytesLE(w);
      }
    }
  }

  lemma {:induction false} UnitBytesDrop(u: seq<unit>, a: nat)
    requires a <= |u|
    ensures UnitBytesLE(u)[2 * a..] == UnitBytesLE(u[a..])
  {
    assert u == u[..a] + u[a..];
    UnitBytesAppend(u[..a], u[a..]);
  }

  lemma {:induction false} UnitBytesTake(u: seq<unit>, k: nat)
    requires k <= |u|
    ensures UnitBytesLE(u)[..2 * k] == UnitBytesLE(u[..k])
  {
    assert u == u[..k] + u[k..];
    UnitBytesAppend(u[..k], u[k..]);
  }

  /** The bytes of units a .. b are the bytes 2a .. 2b. */
  lemma {:induction false} UnitBytesSlice(u: seq<unit>, a: nat, b: nat)
    requires a <= b <= |u|
    ensures UnitBytesLE(u)[2 * a..2 * b] == UnitBytesLE(u[a..b])
  {
    var bs := UnitBytesLE(u);
    var tail := u[a..];
    var m, n := 2 * a, 2 * (b - a);
    UnitBytesDrop(u, a);
    assert bs[m..] == UnitBytesLE(tail);
    UnitBytesTake(tail, b - a);
    assert UnitBytesLE(tail)[..n] == UnitBytesLE(tail[..b - a]);
    assert tail[..b - a] == u[a..b];
    assert bs[m..m + n] == bs[m..][..n];
  }

  const BOM_LE: seq<byte> := [0xFF, 0xFE]
  const BOM_BE: seq<byte> := [0xFE, 0xFF]

  /** `text.encode("utf-16")` on a little-endian machine. */
  function EncodeUtf16(s: string): (r: seq<byte>)
    ensures |r| == 2 + 2 * |Units(s)|
    ensures r[..2] == BOM_LE
  {
    BOM_LE + UnitBytesLE(Units(s))
  }

  /** `_c`: half the encoded length, minus the byte-order mark. */
  function C(text: string): (n: int)
    ensures n == |Units(text)|
  {
    |EncodeUtf16(text)| / 2 - 1
  }

  /** `_rc`: the byte position of code unit `length` in the encoded text. */
  function Rc(length: int): (p: int)
    ensures length >= 0 ==> p >= |BOM_LE| && p % 2 == 0
  {
    (length + 1) * 2
  }

  /** `_c` counts code units: one per character below U+10000 and two per
      character above, so it lies between the code-point length and twice
      that, and equals the code-point length exactly when every character
      is below U+10000. */
  lemma {:induction false} CCountsUnits(t: string)
    ensures C(t) == |Units(t)|
    ensures |t| <= C(t) <= 2 * |t|
    ensures C(t) == |t| <==> forall i :: 0 <= i < |t| ==> t[i] as int < ASTRAL_BASE
  {
    BmpLength(t);
  }

  lemma {:induction false} BmpLength(t: string)
    ensures |Units(t)| == |t| <==> forall i :: 0 <= i < |t| ==> t[i] as int < ASTRAL_BASE
  {
    if t != [] {
      BmpLength(t[1..]);
      assert forall i :: 1 <= i < |t| ==> t[i] == t[1..][i - 1];
    }
  }

  /** `_c` of the empty string is 0 and `_c` is additive. */
  lemma CAdditive(a: string, b: string)
    ensures C("") == 0
    ensures C(a + b) == C(a) + C(b)
  {
    UnitsAppend(a, b);
  }

  /** The cases of the utility tests: "你好" is 2 units, "😊" is 2 units
      (one astral character), and `_rc(2)` is 6. */
  lemma UtilityExamples()
    ensures C("你好") == 2
    ensures C("😊") == 2
    ensures Rc(2) == 6
  {
    assert "你好"[1..] == "好";
    assert Units("你好") == [0x4F60, 0x597D];
    assert Units("😊") == [0xD83D, 0xDE0A];
  }

  /** `_rc(_c(t))` is the length of the encoding, byte-order mark included:
      position `_rc(n)` is one past code unit n - 1. */
  lemma RcOfC(t: string)
    ensures Rc(C(t)) == |EncodeUtf16(t)|
  {
  }

  /** Units a .. b of the text sit at bytes `_rc(a)` .. `_rc(b)` of its
      encoding. */
  lemma EncodedSlice(t: string, a: nat, b: nat)
    requires a <= b <= |Units(t)|
    ensures EncodeUtf16(t)[Rc(a)..Rc(b)] == UnitBytesLE(Units(t)[a..b])
  {
    var e := EncodeUtf16(t);
    assert e[Rc(a)..Rc(b)] == UnitBytesLE(Units(t))[2 * a..2 * b];
    UnitBytesSlice(Units(t), a, b);
  }

  /** Units from a onward sit at bytes `_rc(a)` onward. */
  lemma EncodedFrom(t: string, a: nat)
    requires a <= |Units(t)|
    ensures EncodeUtf16(t)[Rc(a)..] == UnitBytesLE(Units(t)[a..])
  {
    var e := EncodeUtf16(t);
    assert e[Rc(a)..] == UnitBytesLE(Units(t))[2 * a..];
    UnitBytesDrop(Units(t), a);
  }

  /** A piece of a concatenation occupies units `_c(p)` .. `_c(p + q)`. */
  lemma PieceUnits(p: string, q: string, r: string)
    ensures C(p) <= C(p + q) <= |Units(p + q + r)|
    ensures Units(p + q + r)[C(p)..C(p + q)] == Units(q)
    ensures Units(p + q + r)[C(p + q)..] == Units(r)
  {
    UnitsAppend(p, q);
    UnitsAppend(p + q, r);
  }

  // ---------------------------------------------------------------------
  // Decoding
  // ---------------------------------------------------------------------

  /** Strict UTF-16 decoding of code units; None where Python raises
      `UnicodeDecodeError` (a low surrogate first, a high surrogate not
      followed by a low one). */
  function DecodeUnits(u: seq<unit>): (r: Option<string>)
    decreases |u|
  {
    if u == [] then Some([])
    else if IsHigh(u[0]) then
      if |u| >= 2 && IsLow(u[1]) then
        var c := ASTRAL_BASE + (u[0] - HIGH_SURROGATE) * 0x400 + (u[1] - LOW_SURROGATE);
        match DecodeUnits(u[2..])
        case None => None
        case Some(rest) => Some([c as char] + rest)
      else None
    else if IsLow(u[0]) then None
    else
      match DecodeUnits(u[1..])
      case None => None
      case Some(rest) => Some([u[0] as char] + rest)
  }

  lemma {:induction false} DecodeUnitsOfUnits(s: string)
    ensures DecodeUnits(Units(s)) == Some(s)
  {
    if s != [] {
      DecodeUnitsOfUnits(s[1..]);
      var cu := CharUnits(s[0]);
      assert Units(s) == cu + Units(s[1..]);
      var v := s[0] as int;
      if v >= ASTRAL_BASE {
        assert (cu + Units(s[1..]))[2..] == Units(s[1..]);
        var c := ASTRAL_BASE + (cu[0] - HIGH_SURROGATE) * 0x400 + (cu[1] - LOW_SURROGATE);
        assert c == v;
        assert (c as char) == s[0];
      } else {
        assert (cu + Units(s[1..]))[1..] == Units(s[1..]);
      }
      assert [s[0]] + s[1..] == s;
    }
  }

  /** Byte pairs read little- or big-endian. */
  function PairsLE(b: seq<byte>): (r: seq<unit>)
    requires |b| % 2 == 0
    ensures |r| == |b| / 2
  {
    if b == [] then [] else [(b[0] as int + 256 * (b[1] as int)) as unit] + PairsLE(b[2..])
  }

  function PairsBE(b: seq<byte>): (r: seq<unit>)
    requires |b| % 2 == 0
    ensures |r| == |b| / 2
  {
    if b == [] then [] else [(256 * (b[0] as int) + b[1] as int) as unit] + PairsBE(b[2..])
  }

  lemma {:induction false} PairsOfUnitBytes(u: seq<unit>)
    ensures PairsLE(UnitBytesLE(u)) == u
  {
    if u != [] {
      PairsOfUnitBytes(u[1..]);
      assert UnitBytesLE(u)[2..] == UnitBytesLE(u[1..]);
    }
  }

  /** `data.decode("utf-16")`: a leading FF FE selects little-endian and a
      leading FE FF big-endian, and either is consumed; without one the
      platform's little-endian order applies. An odd number of bytes or a
      bad surrogate raises (None). */
  function Decode(data: seq<byte>): (r: Option<string>)
    ensures |data| % 2 != 0 ==> r.None?
    ensures data == [] || data == BOM_LE || data == BOM_BE ==> r == Some([])
  {
    if |data| % 2 != 0 then None
    else if |data| >= 2 && data[..2] == BOM_LE then DecodeUnits(PairsLE(data[2..]))
    else if |data| >= 2 && data[..2] == BOM_BE then DecodeUnits(PairsBE(data[2..]))
    else DecodeUnits(PairsLE(data))
  }

  /** Decoding an encoded string gives it back. */
  lemma DecodeEncode(s: string)
    ensures Decode(EncodeUtf16(s)) == Some(s)
  {
    assert EncodeUtf16(s)[2..] == UnitBytesLE(Units(s));
    PairsOfUnitBytes(Units(s));
    DecodeUnitsOfUnits(s);
  }

  /** A string that begins with U+FEFF or U+FFFE: without a byte-order mark
      of its own, its first two bytes read as one. */
  predicate StartsWithByteOrderMark(s: string) {
    |s| > 0 && (s[0] == '\U{FEFF}' || s[0] == '\U{FFFE}')
  }

  /** Decoding the bare code units of a string (a slice of an encoding with
      no mark in front) gives it back, unless its first character is read
      as a byte-order mark. */
  lemma DecodeBareUnits(s: string)
    requires !StartsWithByteOrderMark(s)
    ensures Decode(UnitBytesLE(Units(s))) == Some(s)
  {
    var b := UnitBytesLE(Units(s));
    PairsOfUnitBytes(Units(s));
    DecodeUnitsOfUnits(s);
    if |b| >= 2 {
      var u0 := Units(s)[0];
      assert u0 == CharUnits(s[0])[0];
      assert b[..2] == [u0 % 256, u0 / 256];
      assert b[..2] != BOM_LE && b[..2] != BOM_BE;
    }
  }

  /** The mark is swallowed: the bare bytes of "\U{FEFF}" followed by any
      text decode to the text without its first character. */
  lemma LeadingMarkSwallowed(s: string)
    ensures Decode(UnitBytesLE(Units("\U{FEFF}" + s))) == Some(s)
  {
    UnitsAppend("\U{FEFF}", s);
    UnitBytesAppend(Units("\U{FEFF}"), Units(s));
    MarkBytes();
    var rest := UnitBytesLE(Units(s));
    assert UnitBytesLE(Units("\U{FEFF}" + s)) == BOM_LE + rest;
    DecodeAfterMark(Units(s));
    PairsOfUnitBytes(Units(s));
    DecodeUnitsOfUnits(s);
  }

  /** Bytes behind a little-endian mark are read as little-endian pairs. */
  lemma DecodeAfterMark(u: seq<unit>)
    ensures Decode(BOM_LE + UnitBytesLE(u)) == DecodeUnits(PairsLE(UnitBytesLE(u)))
  {
    var rest := UnitBytesLE(u);
    var b := BOM_LE + rest;
    assert |b| == 2 * (|u| + 1);
    assert b[..2] == BOM_LE;
    assert b[2..] == rest;
  }

  /** U+FEFF is one code unit, written FF FE. */
  lemma MarkBytes()
    ensures UnitBytesLE(Units("\U{FEFF}")) == BOM_LE
  {
    assert Units("\U{FEFF}") == [0xFEFF];
    assert UnitBytesLE([0xFEFF]) == [0xFF, 0xFE] + UnitBytesLE([]);
  }

  // ---------------------------------------------------------------------
  // Python slicing
  // ---------------------------------------------------------------------

  /** A Python slice bound: negative counts from the end, then clamped to
      0 .. n. */
  function SliceBound(i: int, n: nat): (r: nat)
    ensures r <= n
    ensures 0 <= i <= n ==> r == i
  {
    if i < 0 then (if i + n < 0 then 0 else i + n) else if i > n then n else i
  }

  /** `s[i:j]`: empty when the start is past the end. */
  function PySlice<T>(s: seq<T>, i: int, j: int): (r: seq<T>)
    ensures 0 <= i <= j <= |s| ==> r == s[i..j]
  {
    var lo, hi := SliceBound(i, |s|), SliceBound(j, |s|);
    if lo <= hi then s[lo..hi] else []
  }

  /** `s[i:]`. */
  function PySliceFrom<T>(s: seq<T>, i: int): (r: seq<T>)
    ensures 0 <= i <= |s| ==> r == s[i..]
  {
    s[SliceBound(i, |s|)..]
  }
}
