/**
 The self-describing record and its readers.

 A record is `MAGIC`, a four-byte big-endian header length, the JSON header, the payload. Files
 hold one record, segments hold many one after the other, and object bodies deliver one record in
 chunks of any size. All readers accept the same byte strings; the theorems say so for every
 input and every way a stream may cut its answers short.
 */
module Record {
  import opened Identity
  import opened Metadata

  const MAGIC: seq<Byte> := [0x4B, 0x56, 0x42, 0x4C, 0x4B, 0x30, 0x30, 0x31]
  const PREFIX_BYTES := 12
  const RECORD_VERSION := 1
  const MAX_HEADER_BYTES := 64 * 1024

  function BigEndian32(n: nat): (r: seq<Byte>)
    requires n < 0x1_0000_0000
    ensures |r| == 4
  {
    [n / 0x100_0000, n / 0x1_0000 % 0x100, n / 0x100 % 0x100, n % 0x100]
  }

  function FromBigEndian32(b: seq<Byte>): nat
    requires |b| == 4
  {
    b[0] as int * 0x100_0000 + b[1] as int * 0x1_0000 + b[2] as int * 0x100 + b[3] as int
  }

  lemma BigEndian32RoundTrip(n: nat)
    requires n < 0x1_0000_0000
    ensures FromBigEndian32(BigEndian32(n)) == n
  {
    assert n == n / 0x100 * 0x100 + n % 0x100;
    assert n / 0x100 == n / 0x1_0000 * 0x100 + n / 0x100 % 0x100;
    assert n / 0x1_0000 == n / 0x100_0000 * 0x100 + n / 0x1_0000 % 0x100;
  }

  // ----- header -----

  datatype Header = Header(fields: map<string, Json>, payloadBytes: nat, checksum: string, meta: KVMetadata)

  function Field(fields: map<string, Json>, name: string): Json {
    if name in fields then fields[name] else JNull
  }

  /** Python compares numbers across types, so the float 1.0 passes as version 1; booleans do not. */
  predicate IsVersionOne(v: Json) {
    v == JInt(RECORD_VERSION) || v == JFloat(FLOAT_ONE)
  }

  /** Membership in a set of two strings; a list or an object cannot be hashed and raises. */
  function CheckLayout(v: Json): Result<()> {
    if v.JArr? || v.JObj? then Err(UnhashableValue)
    else if v == JStr("content_addressed") || v == JStr("segment") then Ok(())
    else Err(RecordFormatError)
  }

  function EncodeHeader(c: Codec, fields: map<string, Json>): (r: Result<seq<Byte>>)
    ensures r.Ok? ==> 0 < |r.value| <= MAX_HEADER_BYTES
  {
    var encoded := c.dumps(JObj(fields));
    if encoded == [] || |encoded| > MAX_HEADER_BYTES then Err(InvalidArgument) else Ok(encoded)
  }

  function DecodeHeader(c: Codec, raw: seq<Byte>, maxPayload: int, requireLayout: bool): (r: Result<Header>)
    ensures r.Ok? ==>
              && r.value.payloadBytes <= maxPayload
              && ValidMetadata(r.value.meta)
              && r.value.meta.bytes == r.value.payloadBytes
              && r.value.meta.checksum == r.value.checksum
  {
    if raw == [] || |raw| > MAX_HEADER_BYTES then Err(RecordFormatError) else
    match c.loads(raw)
    case None => Err(RecordFormatError)
    case Some(doc) =>
      if !doc.JObj? then Err(RecordFormatError) else
      var size, sum, meta := Field(doc.fields, "payload_bytes"), Field(doc.fields, "checksum"), Field(doc.fields, "metadata");
      if !IsVersionOne(Field(doc.fields, "version")) then Err(RecordFormatError)
      else if !size.JInt? || size.i < 0 || size.i > maxPayload then Err(RecordFormatError)
      else if !sum.JStr? || !IsSha256Hex(sum.s) then Err(RecordFormatError)
      else
        var _ :- if requireLayout then CheckLayout(Field(doc.fields, "layout_mode")) else Ok(());
        if !meta.JObj? then Err(RecordFormatError) else
        match c.fromDict(meta)
        case None => Err(RecordFormatError)
        case Some(m) =>
          if !ValidMetadata(m) || m.bytes != size.i || m.checksum != sum.s then Err(RecordFormatError)
          else Ok(Header(doc.fields, size.i, sum.s, m))
  }

  /** How a reader turns raw header bytes into a header. */
  type HeaderReader = seq<Byte> -> Result<Header>

  function HeaderDecoder(c: Codec, maxPayload: int, requireLayout: bool): HeaderReader {
    raw => DecodeHeader(c, raw, maxPayload, requireLayout)
  }

  // ----- framing -----

  function Frame(encodedHeader: seq<Byte>, payload: seq<Byte>): seq<Byte>
    requires |encodedHeader| <= MAX_HEADER_BYTES
  {
    MAGIC + BigEndian32(|encodedHeader|) + encodedHeader + payload
  }

  datatype Parsed = Parsed(header: Header, payload: seq<Byte>, consumed: nat)

  /** A bounded read at the front of `f`: the bytes asked for, or all there are. */
  function Take(f: seq<Byte>, n: nat): seq<Byte> {
    if n <= |f| then f[..n] else f
  }

  /** The header length in the prefix, or 0 where the prefix is incomplete. */
  function HeaderLength(f: seq<Byte>): nat {
    if |f| < PREFIX_BYTES then 0 else FromBigEndian32(f[8..12])
  }

  /** Read one record from the front of `f`, as the file and segment readers do. */
  function ReadRecord(decode: HeaderReader, f: seq<Byte>): (r: Result<Parsed>)
    ensures r.Ok? ==> PREFIX_BYTES + HeaderLength(f) + r.value.header.payloadBytes == r.value.consumed <= |f|
    ensures r.Ok? ==> r.value.payload == f[PREFIX_BYTES + HeaderLength(f)..r.value.consumed]
  {
    if Take(f, 8) != MAGIC then Err(ChecksumMismatch)
    else if |f| < PREFIX_BYTES then Err(RecordFormatError)
    else
      var n := HeaderLength(f);
      if n == 0 || n > MAX_HEADER_BYTES then Err(RecordFormatError)
      else if |f| < PREFIX_BYTES + n then Err(RecordFormatError)
      else
        var header :- decode(f[12..12 + n]);
        var end := PREFIX_BYTES + n + header.payloadBytes;
        if |f| < end then Err(ChecksumMismatch)
        else Ok(Parsed(header, f[12 + n..end], end))
  }

  /** A file must hold exactly one record. */
  function ReadFile(decode: HeaderReader, f: seq<Byte>): Result<Parsed> {
    var p :- ReadRecord(decode, f);
    if |f| > p.consumed then Err(RecordFormatError) else Ok(p)
  }

  /** Read a record in the middle of a segment, at a recorded offset and length. */
  function ReadSegment(decode: HeaderReader, f: seq<Byte>, offset: nat, recordBytes: nat): Result<Parsed> {
    var p :- ReadRecord(decode, if offset <= |f| then f[offset..] else []);
    if recordBytes > 0 && p.consumed != recordBytes then Err(ChecksumMismatch) else Ok(p)
  }

  /** A record that parses is unaffected by whatever follows it. */
  lemma RecordIsSelfDelimiting(decode: HeaderReader, f: seq<Byte>, rest: seq<Byte>)
    requires ReadRecord(decode, f).Ok?
    ensures var p := ReadRecord(decode, f).value;
            ReadRecord(decode, f[..p.consumed] + rest) == Ok(p)
  {
    var p := ReadRecord(decode, f).value;
    var n := HeaderLength(f);
    var g := f[..p.consumed] + rest;
    assert g[..8] == f[..8] && g[8..12] == f[8..12];
    assert g[12..12 + n] == f[12..12 + n];
    assert g[12 + n..p.consumed] == f[12 + n..p.consumed];
  }

  /** Cutting the input at `n` changes nothing for a record of exactly `n` bytes, in either direction. */
  lemma CutAtRecordEnd(decode: HeaderReader, f: seq<Byte>, n: nat, p: Parsed)
    requires n <= |f| && p.consumed == n
    ensures ReadRecord(decode, f) == Ok(p) <==> ReadRecord(decode, f[..n]) == Ok(p)
  {
    if ReadRecord(decode, f) == Ok(p) {
      RecordIsSelfDelimiting(decode, f, []);
      assert f[..n] + [] == f[..n];
    }
    if ReadRecord(decode, f[..n]) == Ok(p) {
      RecordIsSelfDelimiting(decode, f[..n], f[n..]);
      assert f[..n][..n] + f[n..] == f;
    }
  }

  /**
   Reading a segment record in place is parsing its slice as a file: the two accept together and
   give the same header and payload, and a slice that does not fit in the file is never accepted.
   */
  lemma SegmentReadIsSliceRead(decode: HeaderReader, f: seq<Byte>, offset: nat, recordBytes: nat, p: Parsed)
    requires recordBytes > 0
    ensures ReadSegment(decode, f, offset, recordBytes) == Ok(p)
       <==> offset + recordBytes <= |f| && ReadFile(decode, f[offset..offset + recordBytes]) == Ok(p)
  {
    if offset + recordBytes <= |f| {
      var tail := f[offset..];
      assert tail[..recordBytes] == f[offset..offset + recordBytes];
      if p.consumed == recordBytes {
        CutAtRecordEnd(decode, tail, recordBytes, p);
      }
    }
  }

  /** Demanding a layout field only removes records: those whose field is missing or unknown. */
  lemma LayoutFieldAside(c: Codec, f: seq<Byte>, maxPayload: int)
    ensures var strict := ReadFile(HeaderDecoder(c, maxPayload, true), f);
            var lax := ReadFile(HeaderDecoder(c, maxPayload, false), f);
            && (strict.Ok? <==> lax.Ok? && CheckLayout(Field(lax.value.header.fields, "layout_mode")).Ok?)
            && (strict.Ok? ==> strict == lax)
  {
    var n := HeaderLength(f);
    if |f| >= 12 + n && n > 0 {
      HeaderLayoutAside(c, f[12..12 + n], maxPayload);
    }
  }

  lemma HeaderLayoutAside(c: Codec, raw: seq<Byte>, maxPayload: int)
    ensures var strict, lax := DecodeHeader(c, raw, maxPayload, true), DecodeHeader(c, raw, maxPayload, false);
            && (strict.Ok? <==> lax.Ok? && CheckLayout(Field(lax.value.fields, "layout_mode")).Ok?)
            && (strict.Ok? ==> strict == lax)
  {}

  // ----- writer -----

  /** The header fields of a new record; the object tier writes no layout field. */
  function HeaderFields(c: Codec, layout: Option<string>, meta: KVMetadata): map<string, Json> {
    var base := map["version" := JInt(1), "checksum" := JStr(meta.checksum),
                    "payload_bytes" := JInt(meta.bytes), "metadata" := c.toDict(meta)];
    if layout.Some? then base["layout_mode" := JStr(layout.value)] else base
  }

  /** A field map that a reader will accept as the header of `meta`. */
  predicate DescribesRecord(c: Codec, fields: map<string, Json>, meta: KVMetadata) {
    && IsVersionOne(Field(fields, "version"))
    && Field(fields, "payload_bytes") == JInt(meta.bytes)
    && Field(fields, "checksum") == JStr(meta.checksum)
    && Field(fields, "metadata") == c.toDict(meta)
  }

  lemma WrittenHeaderDecodes(c: Codec, fields: map<string, Json>, meta: KVMetadata, maxPayload: int, requireLayout: bool)
    requires FaithfulCodec(c) && ValidMetadata(meta) && meta.bytes <= maxPayload
    requires DescribesRecord(c, fields, meta)
    requires requireLayout ==> CheckLayout(Field(fields, "layout_mode")).Ok?
    requires EncodeHeader(c, fields).Ok?
    ensures DecodeHeader(c, EncodeHeader(c, fields).value, maxPayload, requireLayout)
         == Ok(Header(fields, meta.bytes, meta.checksum, meta))
  {
    assert c.loads(c.dumps(JObj(fields))) == Some(JObj(fields));
    assert c.fromDict(c.toDict(meta)) == Some(meta) && c.toDict(meta).JObj?;
  }

  /** Writing then reading gives the header fields, the metadata and the payload back. */
  lemma ReadInvertsWrite(c: Codec, fields: map<string, Json>, meta: KVMetadata, payload: seq<Byte>, maxPayload: int, requireLayout: bool)
    requires FaithfulCodec(c) && ValidMetadata(meta) && meta.bytes == |payload| <= maxPayload
    requires DescribesRecord(c, fields, meta)
    requires requireLayout ==> CheckLayout(Field(fields, "layout_mode")).Ok?
    requires EncodeHeader(c, fields).Ok?
    ensures var f := Frame(EncodeHeader(c, fields).value, payload);
            ReadFile(HeaderDecoder(c, maxPayload, requireLayout), f)
            == Ok(Parsed(Header(fields, meta.bytes, meta.checksum, meta), payload, |f|))
  {
    WrittenHeaderDecodes(c, fields, meta, maxPayload, requireLayout);
    FrameReadsBack(HeaderDecoder(c, maxPayload, requireLayout), EncodeHeader(c, fields).value, payload);
  }

  lemma FrameReadsBack(decode: HeaderReader, raw: seq<Byte>, payload: seq<Byte>)
    requires 0 < |raw| <= MAX_HEADER_BYTES
    requires decode(raw).Ok? && decode(raw).value.payloadBytes == |payload|
    ensures var f := Frame(raw, payload);
            ReadFile(decode, f) == Ok(Parsed(decode(raw).value, payload, |f|))
  {
    var f := Frame(raw, payload);
    FrameParts(raw, payload);
    BigEndian32RoundTrip(|raw|);
    assert f[12 + |raw|..|f|] == payload;
  }

  lemma FrameParts(raw: seq<Byte>, payload: seq<Byte>)
    requires |raw| <= MAX_HEADER_BYTES
    ensures var f := Frame(raw, payload);
            && |f| == PREFIX_BYTES + |raw| + |payload|
            && f[..8] == MAGIC
            && f[8..12] == BigEndian32(|raw|)
            && f[12..12 + |raw|] == raw
            && f[12 + |raw|..] == payload
  {
    var f, b := Frame(raw, payload), BigEndian32(|raw|);
    assert f == MAGIC + (b + (raw + payload));
    assert f[8..] == b + (raw + payload);
    assert f[8..12] == f[8..][..4] == b;
    assert f[12..] == f[8..][4..] == raw + payload;
  }
}
