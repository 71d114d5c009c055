/**
 What the file and object tiers have in common: which locations are canonical for a key, which
 bytes a location denotes, when those bytes are the record a row promises, and what is written.
 */
module Tiers {
  import opened Identity
  import opened Metadata
  import opened Record
  import opened ObjectBody
  import opened Rows

  /** `segmented` selects the segment layout of the file tier; it is the same at every reopen. */
  datatype Config = Config(codec: Codec, segmented: bool, segmentBytes: nat, maxBytes: nat, maxObjectBytes: nat)

  type Disk = map<Path, seq<Byte>>

  function BlockPath(k: BlockKey): Path { BlockFile(StorageKeyParts(k)) }
  function TempPath(k: BlockKey): Path { TempFile(StorageKeyParts(k)) }
  function ObjectPath(k: BlockKey): Path { Object(StorageKeyParts(k)) }
  function SegmentPath(k: BlockKey, name: SegmentName): Path { SegmentFile(NamespaceParts(k), name) }

  const MAX_RECORD_OVERHEAD := PREFIX_BYTES + MAX_HEADER_BYTES

  /** Checked before every use of a persisted location. */
  predicate Canonical(cfg: Config, rk: RowKey, uri: Uri) {
    match rk.tier
    case Memory => uri == MemoryUri(rk.key.blockHash)
    case S3 => uri == ObjectUri(ObjectPath(rk.key))
    case Nvme =>
      if cfg.segmented then
        && uri.SegmentUri?
        && uri.path.SegmentFile? && uri.path.dir == NamespaceParts(rk.key)
        && 0 < uri.recordBytes <= MAX_RECORD_OVERHEAD + cfg.maxBytes
      else
        uri == FileUri(BlockPath(rk.key))
  }

  /** The bytes a location denotes, if it denotes any. */
  function Extent(disk: Disk, uri: Uri): Option<seq<Byte>> {
    match uri
    case FileUri(path) => if path in disk then Some(disk[path]) else None
    case ObjectUri(path) => if path in disk then Some(disk[path]) else None
    case SegmentUri(path, offset, n) =>
      if path in disk && offset + n <= |disk[path]| then Some(disk[path][offset..offset + n]) else None
    case MemoryUri(_) => None
    case OtherUri(_) => None
  }

  function LayoutName(cfg: Config): string {
    if cfg.segmented then "segment" else "content_addressed"
  }

  function DecoderFor(cfg: Config, tier: Tier): HeaderReader {
    if tier == S3 then HeaderDecoder(cfg.codec, cfg.maxObjectBytes, false)
    else HeaderDecoder(cfg.codec, cfg.maxBytes, true)
  }

  /** Parse the bytes of a location on its own, as a complete file or object. */
  function ParseExtent(cfg: Config, tier: Tier, bytes: seq<Byte>): Result<Parsed> {
    if tier == S3 then ReadObject(DecoderFor(cfg, tier), bytes) else ReadFile(DecoderFor(cfg, tier), bytes)
  }

  /** Read through a location the way the tier does: segments in place, files and objects whole. */
  function ReadLocation(cfg: Config, tier: Tier, disk: Disk, uri: Uri): Result<Parsed> {
    match uri
    case FileUri(path) => if path in disk then ParseExtent(cfg, tier, disk[path]) else Err(IoError)
    case ObjectUri(path) => if path in disk then ParseExtent(cfg, tier, disk[path]) else Err(BlockNotFound)
    case SegmentUri(path, offset, n) =>
      if path in disk then ReadSegment(DecoderFor(cfg, tier), disk[path], offset, n) else Err(IoError)
    case MemoryUri(_) => Err(MetadataMismatch)
    case OtherUri(_) => Err(MetadataMismatch)
  }

  lemma ReadIsParseOfExtent(cfg: Config, rk: RowKey, disk: Disk, uri: Uri, p: Parsed)
    requires Canonical(cfg, rk, uri)
    ensures ReadLocation(cfg, rk.tier, disk, uri) == Ok(p)
       <==> Extent(disk, uri).Some? && ParseExtent(cfg, rk.tier, Extent(disk, uri).value) == Ok(p)
  {
    hide ReadFile, ReadObject, ReadSegment, DecoderFor;
    if uri.SegmentUri? && uri.path in disk {
      SegmentReadIsSliceRead(DecoderFor(cfg, rk.tier), disk[uri.path], uri.offset, uri.recordBytes, p);
    }
  }

  /** Everything a load checks between the row and the record it finds. */
  predicate Genuine(cfg: Config, rk: RowKey, bytes: int, checksum: string, meta: KVMetadata, p: Parsed) {
    && (rk.tier == Nvme ==> Field(p.header.fields, "layout_mode") == JStr(LayoutName(cfg)))
    && p.header.meta.key == rk.key
    && bytes == |p.payload| == p.header.payloadBytes
    && checksum == p.header.checksum
    && cfg.codec.sha256(p.payload) == p.header.checksum
    && PayloadDescriptor(p.header.meta) == PayloadDescriptor(meta)
  }

  /** `bytes` is a complete record for metadata `meta` of row `rk`: a load of it would succeed. */
  predicate Holds(cfg: Config, rk: RowKey, meta: KVMetadata, bytes: seq<Byte>) {
    var r := ParseExtent(cfg, rk.tier, bytes);
    r.Ok? && Genuine(cfg, rk, meta.bytes, meta.checksum, meta, r.value)
  }

  function PayloadOf(cfg: Config, tier: Tier, bytes: seq<Byte>): seq<Byte> {
    var r := ParseExtent(cfg, tier, bytes);
    if r.Ok? then r.value.payload else []
  }

  // ----- what a store writes -----

  function TierLimit(cfg: Config, tier: Tier): int {
    if tier == S3 then cfg.maxObjectBytes else cfg.maxBytes
  }

  /** The complete record of a new block, or the error of a header that is too large. */
  function NewRecord(cfg: Config, tier: Tier, meta: KVMetadata, data: seq<Byte>): Result<seq<Byte>> {
    var layout := if tier == S3 then None else Some(LayoutName(cfg));
    var raw :- EncodeHeader(cfg.codec, HeaderFields(cfg.codec, layout, meta));
    Ok(Frame(raw, data))
  }

  /** The metadata as a store completes it from the data. */
  function Sealed(cfg: Config, meta: KVMetadata, data: seq<Byte>, now: Time): KVMetadata {
    meta.(checksum := cfg.codec.sha256(data), bytes := |data|, lastAccess := now)
  }

  lemma NewRecordHolds(cfg: Config, rk: RowKey, meta: KVMetadata, data: seq<Byte>)
    requires FaithfulCodec(cfg.codec) && ValidMetadata(meta)
    requires rk.tier != Memory && meta.key == rk.key
    requires meta.bytes == |data| <= TierLimit(cfg, rk.tier) && meta.checksum == cfg.codec.sha256(data)
    requires NewRecord(cfg, rk.tier, meta, data).Ok?
    ensures var record := NewRecord(cfg, rk.tier, meta, data).value;
            && Holds(cfg, rk, meta, record)
            && PayloadOf(cfg, rk.tier, record) == data
            && 0 < |record| <= MAX_RECORD_OVERHEAD + |data|
  {
    var layout := if rk.tier == S3 then None else Some(LayoutName(cfg));
    var fields := HeaderFields(cfg.codec, layout, meta);
    RecordOf(cfg, rk, fields, meta, data);
  }

  /** A record written for any header fields that describe `meta`, new or rewritten. */
  lemma RecordOf(cfg: Config, rk: RowKey, fields: map<string, Json>, meta: KVMetadata, data: seq<Byte>)
    requires FaithfulCodec(cfg.codec) && ValidMetadata(meta)
    requires rk.tier != Memory && meta.key == rk.key
    requires meta.bytes == |data| <= TierLimit(cfg, rk.tier) && meta.checksum == cfg.codec.sha256(data)
    requires DescribesRecord(cfg.codec, fields, meta)
    requires rk.tier == Nvme ==> Field(fields, "layout_mode") == JStr(LayoutName(cfg))
    requires EncodeHeader(cfg.codec, fields).Ok?
    ensures var record := Frame(EncodeHeader(cfg.codec, fields).value, data);
            && Holds(cfg, rk, meta, record)
            && PayloadOf(cfg, rk.tier, record) == data
            && 0 < |record| <= MAX_RECORD_OVERHEAD + |data|
  {
    ReadInvertsWrite(cfg.codec, fields, meta, data, TierLimit(cfg, rk.tier), rk.tier != S3);
    var f := Frame(EncodeHeader(cfg.codec, fields).value, data);
    var p := Parsed(Header(fields, meta.bytes, meta.checksum, meta), data, |f|);
    ObjectsAndFilesAcceptAlike(DecoderFor(cfg, rk.tier), f, p);
    assert ParseExtent(cfg, rk.tier, f) == Ok(p);
  }

  /** Compaction keeps a record's header and payload and only refreshes its metadata. */
  function Rewritten(cfg: Config, was: Parsed, meta: KVMetadata): Result<seq<Byte>> {
    var raw :- EncodeHeader(cfg.codec, was.header.fields["metadata" := cfg.codec.toDict(meta)]);
    Ok(Frame(raw, was.payload))
  }

  lemma RewrittenHolds(cfg: Config, rk: RowKey, bytes: seq<Byte>, meta: KVMetadata)
    requires FaithfulCodec(cfg.codec) && ValidMetadata(meta) && rk.tier == Nvme
    requires Holds(cfg, rk, meta, bytes)
    requires Rewritten(cfg, ParseExtent(cfg, rk.tier, bytes).value, meta).Ok?
    ensures var record := Rewritten(cfg, ParseExtent(cfg, rk.tier, bytes).value, meta).value;
            && Holds(cfg, rk, meta, record)
            && PayloadOf(cfg, rk.tier, record) == PayloadOf(cfg, rk.tier, bytes)
            && 0 < |record| <= MAX_RECORD_OVERHEAD + cfg.maxBytes
  {
    var p := ParseExtent(cfg, rk.tier, bytes).value;
    var fields := p.header.fields["metadata" := cfg.codec.toDict(meta)];
    ParsedHeaderFields(cfg, rk.tier, bytes);
    RecordOf(cfg, rk, fields, meta, p.payload);
  }

  /** What a parsed header still says about the fields it was decoded from. */
  lemma ParsedHeaderFields(cfg: Config, tier: Tier, bytes: seq<Byte>)
    requires ParseExtent(cfg, tier, bytes).Ok?
    ensures var h := ParseExtent(cfg, tier, bytes).value.header;
            && IsVersionOne(Field(h.fields, "version"))
            && Field(h.fields, "payload_bytes") == JInt(h.payloadBytes)
            && Field(h.fields, "checksum") == JStr(h.checksum)
            && h.payloadBytes <= TierLimit(cfg, tier)
  {
    var n := HeaderLength(bytes);
    var h := ParseExtent(cfg, tier, bytes).value.header;
    assert DecoderFor(cfg, tier)(bytes[12..12 + n]) == Ok(h);
  }
}
