/** The frame codec of the persistent connection (hertavilla/ws/payload.py):
    an 8-byte fixed header (magic, body length), a 20-byte (V1) or 24-byte
    (V2) variable header, then the opaque body. All integers little-endian. */
module WsPayload {
  import opened Wrappers
  import opened Bytes
  import opened WsTypes

  const MAGIC: nat := 0xBABEFACE
  const HEADER_LEN_V2: nat := 24
  const HEADER_LEN_V1: nat := 20
  const FIX_HEADER_LEN: nat := 8

  /** One frame. `flag` and `bizType` are plain integers, as `from_bytes`
      stores what it unpacks. */
  datatype Payload = Payload(headerLen: int, id: int, flag: int, bizType: int, appId: int, body: seq<byte>)

  /** Why encoding or decoding raised: `struct.error` from a pack or unpack,
      or one of the three `ValueError`s of `from_bytes`. */
  datatype CodecError = StructError | InvalidMagic | InvalidBodyLength | InvalidHeaderLength

  /** `Payload.new`: the long header exactly when the sender id is nonzero. */
  function New(bizType: BizType, id: int, appId: int, flag: FlagType, data: seq<byte>): (p: Payload)
    ensures p.headerLen == HEADER_LEN_V1 <==> appId == 0
    ensures p.headerLen == HEADER_LEN_V2 <==> appId != 0
    ensures p.id == id && p.flag == flag.Value() && p.bizType == bizType.Value()
    ensures p.appId == appId && p.body == data
  {
    Payload(if appId == 0 then HEADER_LEN_V1 else HEADER_LEN_V2, id, flag.Value(), bizType.Value(), appId, data)
  }

  /** How many bytes `to_bytes` writes for the variable header: the "<IQIIi"
      layout when the header length is 24, the "<IQII" layout otherwise. */
  function PackedHeaderSize(p: Payload): nat {
    if p.headerLen == HEADER_LEN_V2 then 24 else 20
  }

  /** Every field fits the struct code it is packed with, and so does the
      total length of header and body. */
  predicate Packable(p: Payload) {
    && 0 <= p.headerLen < U32_LIMIT
    && 0 <= p.id < U64_LIMIT
    && 0 <= p.flag < U32_LIMIT
    && 0 <= p.bizType < U32_LIMIT
    && (p.headerLen == HEADER_LEN_V2 ==> I32_MIN <= p.appId <= I32_MAX)
    && PackedHeaderSize(p) + |p.body| < U32_LIMIT
  }

  /** The variable header as `struct.pack` writes it, or None where it raises. */
  function PackVariableHeader(p: Payload): (r: Option<seq<byte>>)
    ensures r.Some? ==> |r.value| == PackedHeaderSize(p)
  {
    var hl, id, fl, bz := PackU32(p.headerLen), PackU64(p.id), PackU32(p.flag), PackU32(p.bizType);
    if hl.None? || id.None? || fl.None? || bz.None? then None
    else if p.headerLen == HEADER_LEN_V2 then
      var app := PackI32(p.appId);
      if app.None? then None else Some(hl.value + id.value + fl.value + bz.value + app.value)
    else
      Some(hl.value + id.value + fl.value + bz.value)
  }

  /** `Payload.to_bytes`. */
  function ToBytes(p: Payload): (r: Result<seq<byte>, CodecError>)
    ensures r.Success? <==> Packable(p)
    ensures r.Failure? ==> r.error == StructError
    ensures r.Success? ==> |r.value| == FIX_HEADER_LEN + PackedHeaderSize(p) + |p.body|
    ensures r.Success? ==> r.value[..4] == LE(MAGIC, 4)
    ensures r.Success? ==> UnpackU32(r.value[4..8]) == PackedHeaderSize(p) + |p.body|
    ensures r.Success? ==> r.value[FIX_HEADER_LEN + PackedHeaderSize(p)..] == p.body
  {
    match PackVariableHeader(p)
    case None => Failure(StructError)
    case Some(headers) =>
      var changeable := headers + p.body;
      if |changeable| >= U32_LIMIT then Failure(StructError)
      else
        Pow256Values();
        var b := LE(MAGIC, 4) + LE(|changeable|, 4) + changeable;
        assert b[..4] == LE(MAGIC, 4);
        assert b[4..8] == LE(|changeable|, 4);
        assert b[FIX_HEADER_LEN + PackedHeaderSize(p)..] == p.body;
        Success(b)
  }

  /** `Payload.from_bytes`. The checks run in the source's order: the fixed
      header must be there, then the magic, then the total length, then the
      header length; the unpack of a variable header the data is too short
      for raises `struct.error`. */
  function FromBytes(data: seq<byte>): (r: Result<Payload, CodecError>)
    ensures |data| < FIX_HEADER_LEN ==> r == Failure(StructError)
    ensures |data| >= FIX_HEADER_LEN ==>
      (r == Failure(InvalidMagic) <==> UnpackU32(data[..4]) != MAGIC)
    ensures |data| >= FIX_HEADER_LEN && UnpackU32(data[..4]) == MAGIC ==>
      (r == Failure(InvalidBodyLength) <==> FIX_HEADER_LEN + UnpackU32(data[4..8]) != |data|)
    ensures |data| >= FIX_HEADER_LEN && UnpackU32(data[..4]) == MAGIC && FIX_HEADER_LEN + UnpackU32(data[4..8]) == |data| ==>
      && (|data| < 12 ==> r == Failure(StructError))
      && (|data| >= 12 ==>
           (r == Failure(InvalidHeaderLength) <==>
              UnpackU32(data[8..12]) != HEADER_LEN_V1 && UnpackU32(data[8..12]) != HEADER_LEN_V2))
      && (|data| >= 12 && (UnpackU32(data[8..12]) == HEADER_LEN_V1 || UnpackU32(data[8..12]) == HEADER_LEN_V2) ==>
           (r == Failure(StructError) <==> |data| < FIX_HEADER_LEN + UnpackU32(data[8..12])))
    ensures r.Success? ==>
      && |data| == FIX_HEADER_LEN + UnpackU32(data[4..8])
      && UnpackU32(data[..4]) == MAGIC
      && |data| >= 12
      && r.value.headerLen == UnpackU32(data[8..12])
      && (r.value.headerLen == HEADER_LEN_V1 || r.value.headerLen == HEADER_LEN_V2)
      && UnpackU32(data[4..8]) >= r.value.headerLen
      && r.value.body == data[FIX_HEADER_LEN + r.value.headerLen..]
      && (r.value.headerLen == HEADER_LEN_V1 ==> r.value.appId == 0)
  {
    if |data| < FIX_HEADER_LEN then Failure(StructError)
    else
      var magic, bodyLen := UnpackU32(data[..4]), UnpackU32(data[4..8]);
      if magic != MAGIC then Failure(InvalidMagic)
      else if FIX_HEADER_LEN + bodyLen != |data| then Failure(InvalidBodyLength)
      else if |data| < 12 then Failure(StructError)
      else
        var headerLen := UnpackU32(data[8..12]);
        if headerLen != HEADER_LEN_V1 && headerLen != HEADER_LEN_V2 then Failure(InvalidHeaderLength)
        else if |data| < FIX_HEADER_LEN + headerLen then Failure(StructError)
        else
          var id := UnpackU64(data[12..20]);
          var flag := UnpackU32(data[20..24]);
          var bizType := UnpackU32(data[24..28]);
          var appId := if headerLen == HEADER_LEN_V2 then UnpackI32(data[28..32]) else 0;
          Success(Payload(headerLen, id, flag, bizType, appId, data[FIX_HEADER_LEN + headerLen..]))
  }

  /** A frame that survives the trip: a known header length, and the
      short header only with sender id 0 (which it cannot carry). */
  predicate RoundTrips(p: Payload) {
    && Packable(p)
    && (p.headerLen == HEADER_LEN_V1 || p.headerLen == HEADER_LEN_V2)
    && (p.headerLen == HEADER_LEN_V1 ==> p.appId == 0)
  }

  /** `from_bytes` on a frame whose fields read back as those of `p`. */
  lemma DecodeFields(data: seq<byte>, p: Payload)
    requires p.headerLen == HEADER_LEN_V1 || p.headerLen == HEADER_LEN_V2
    requires |data| == FIX_HEADER_LEN + p.headerLen + |p.body|
    requires UnpackU32(data[..4]) == MAGIC && UnpackU32(data[4..8]) == p.headerLen + |p.body|
    requires UnpackU32(data[8..12]) == p.headerLen && UnpackU64(data[12..20]) == p.id
    requires UnpackU32(data[20..24]) == p.flag && UnpackU32(data[24..28]) == p.bizType
    requires p.headerLen == HEADER_LEN_V2 ==> UnpackI32(data[28..32]) == p.appId
    requires p.headerLen == HEADER_LEN_V1 ==> p.appId == 0
    requires data[FIX_HEADER_LEN + p.headerLen..] == p.body
    ensures FromBytes(data) == Success(p)
  {
  }

  /** The four fields every variable header starts with, at their offsets. */
  lemma HeaderFields(headers: seq<byte>, hl: seq<byte>, id: seq<byte>, fl: seq<byte>, bz: seq<byte>)
    requires |hl| == 4 && |id| == 8 && |fl| == 4 && |bz| == 4
    requires |headers| >= 20 && headers[..20] == hl + id + fl + bz
    ensures headers[..4] == hl && headers[4..12] == id && headers[12..16] == fl && headers[16..20] == bz
  {
    var h := headers[..20];
    assert headers[..4] == h[..4];
    assert headers[4..12] == h[4..12];
    assert headers[12..16] == h[12..16];
    assert headers[16..20] == h[16..20];
  }

  /** Where the variable header and the body sit in a frame. */
  lemma FrameLayout(b: seq<byte>, headers: seq<byte>, body: seq<byte>)
    requires |b| == FIX_HEADER_LEN + |headers| + |body|
    requires b[FIX_HEADER_LEN..] == headers + body
    ensures b[FIX_HEADER_LEN..FIX_HEADER_LEN + |headers|] == headers
  {
    assert b[FIX_HEADER_LEN..FIX_HEADER_LEN + |headers|] == b[FIX_HEADER_LEN..][..|headers|];
  }

  /** Decoding an encoded frame gives back every field and the body. */
  lemma {:induction false} FromBytesToBytes(p: Payload)
    requires RoundTrips(p)
    ensures ToBytes(p).Success? && FromBytes(ToBytes(p).value) == Success(p)
  {
    Pow256Values();
    var hl, id, fl, bz := PackU32(p.headerLen).value, PackU64(p.id).value, PackU32(p.flag).value, PackU32(p.bizType).value;
    var headers := PackVariableHeader(p).value;
    var changeable := headers + p.body;
    var b := ToBytes(p).value;
    assert b == LE(MAGIC, 4) + LE(|changeable|, 4) + changeable;
    assert b[FIX_HEADER_LEN..] == changeable;
    FrameLayout(b, headers, p.body);
    var v := b[8..8 + |headers|];
    if p.headerLen == HEADER_LEN_V2 {
      var app := PackI32(p.appId).value;
      assert headers == (hl + id + fl + bz) + app;
      assert headers[..20] == hl + id + fl + bz && headers[20..24] == app;
      assert b[28..32] == v[20..24];
    } else {
      assert headers[..20] == hl + id + fl + bz;
    }
    HeaderFields(headers, hl, id, fl, bz);
    assert b[8..12] == v[..4];
    assert b[12..20] == v[4..12];
    assert b[20..24] == v[12..16];
    assert b[24..28] == v[16..20];
    DecodeFields(b, p);
  }

  /** Every frame `Payload.new` builds with packable fields round-trips; the
      short form decodes the sender id as 0, which is what it started with. */
  lemma NewRoundTrips(bizType: BizType, id: int, appId: int, flag: FlagType, data: seq<byte>)
    requires Packable(New(bizType, id, appId, flag, data))
    ensures FromBytes(ToBytes(New(bizType, id, appId, flag, data)).value)
         == Success(New(bizType, id, appId, flag, data))
  {
    FromBytesToBytes(New(bizType, id, appId, flag, data));
  }

  /** Dropping the last byte of an encoded frame is a total-length mismatch. */
  lemma {:induction false} TruncatedFrameRejected(p: Payload)
    requires Packable(p)
    ensures var b := ToBytes(p).value; FromBytes(b[..|b| - 1]) == Failure(InvalidBodyLength)
  {
    var b := ToBytes(p).value;
    var t := b[..|b| - 1];
    assert t[..4] == b[..4];
    assert t[4..8] == b[4..8];
  }

  /** Changing any one of the four magic bytes is always detected. */
  lemma {:induction false} CorruptMagicRejected(p: Payload, k: nat, x: byte)
    requires Packable(p) && k < 4
    requires x != ToBytes(p).value[k]
    ensures var b := ToBytes(p).value; FromBytes(b[k := x]) == Failure(InvalidMagic)
  {
    var b := ToBytes(p).value;
    var t := b[k := x];
    assert t[..4] != b[..4] by { assert t[..4][k] != b[..4][k]; }
    if UnpackU32(t[..4]) == MAGIC {
      LEOfValue(t[..4]);
      assert false;
    }
  }

  /** Overwriting the declared header length with anything but 20 or 24 is
      rejected as an invalid header length. */
  lemma {:induction false} UnknownHeaderLengthRejected(p: Payload, h: nat)
    requires Packable(p) && h < U32_LIMIT && h != HEADER_LEN_V1 && h != HEADER_LEN_V2
    ensures var b := ToBytes(p).value;
            FromBytes(b[..8] + LE(h, 4) + b[12..]) == Failure(InvalidHeaderLength)
  {
    Pow256Values();
    var b := ToBytes(p).value;
    var t := b[..8] + LE(h, 4) + b[12..];
    assert t[..4] == b[..4];
    assert t[4..8] == b[4..8];
    assert t[8..12] == LE(h, 4);
  }
}
