/** Block metadata, its immutable payload descriptor, and the outcomes an operation can have. */
module Metadata {
  import opened Identity

  datatype Option<+T> = None | Some(value: T)

  /** The exceptions of the key-value store, one constructor per class that callers tell apart. */
  datatype Error =
    | ChecksumMismatch
    | RecordFormatError
    | MetadataMismatch
    | CorruptionCleanupFailed(operation: string, cause: Error)
    | ImmutableBlockConflict
    | BlockNotFound
    | StoreFull
    | TierUnavailable
    | TombstonePending
    | InvalidArgument
    | UnhashableValue
    | IoError

  /** The errors that mean a persisted record cannot be trusted. */
  predicate IsCorruption(e: Error) {
    e.ChecksumMismatch? || e.RecordFormatError? || e.MetadataMismatch? || e.CorruptionCleanupFailed?
  }

  datatype Result<+T> = Ok(value: T) | Err(error: Error) {
    predicate IsFailure() { Err? }
    function PropagateFailure<U>(): Result<U> requires Err? { Err(error) }
    function Extract(): T requires Ok? { value }
  }

  /** The number `m * 2^e`. */
  datatype Binary = Binary(m: int, e: int)

  function BitLength(n: nat): nat {
    if n == 0 then 0 else 1 + BitLength(n / 2)
  }

  /** A finite double: zero, or an odd number of at most 53 bits times a power of two in range. */
  predicate IsDouble(x: Binary) {
    || x == Binary(0, 0)
    || (x.m % 2 == 1 && BitLength(if x.m < 0 then -x.m else x.m) <= 53
        && -1074 <= x.e && x.e + BitLength(if x.m < 0 then -x.m else x.m) <= 1024)
  }

  type Float = x: Binary | IsDouble(x) witness Binary(0, 0)

  const FLOAT_ONE: Float := Binary(1, 0)

  /** A point in time is a float of seconds, and thus a whole number of units of 2^-1074 seconds. */
  type Time = int

  datatype Json =
    | JNull
    | JBool(b: bool)
    | JInt(i: int)
    | JFloat(f: Float)
    | JStr(s: string)
    | JArr(items: seq<Json>)
    | JObj(fields: map<string, Json>)

  datatype Tier = Memory | Nvme | S3

  datatype KVMetadata = KVMetadata(
    key: BlockKey,
    dtype: string,
    numLayers: int,
    numKvHeads: int,
    headDim: int,
    tokens: int,
    bytes: int,
    shape: seq<int>,
    checksum: string,
    checksumAlgo: string,
    createdAt: Time,
    lastAccess: Time,
    reuseCount: int,
    extra: Json)

  /** `validate(require_checksum=True)`; the key was already checked when it was built. */
  predicate ValidMetadata(m: KVMetadata) {
    && ValidKey(m.key)
    && m.dtype != "" && |Utf8(m.dtype)| <= 64 && !HasControl(m.dtype)
    && m.numLayers > 0 && m.numKvHeads > 0 && m.headDim > 0
    && m.tokens >= 0 && m.bytes >= 0 && m.reuseCount >= 0
    && (forall i :: 0 <= i < |m.shape| ==> m.shape[i] >= 0)
    && m.checksumAlgo == "sha256"
    && IsSha256Hex(m.checksum)
    && m.createdAt >= 0 && m.lastAccess >= 0
    && m.extra.JObj?
  }

  /** What a load hands out. */
  datatype Loaded = Loaded(data: seq<Byte>, meta: KVMetadata)

  /** The fields that must stay the same for as long as the key is published anywhere. */
  datatype Descriptor = Descriptor(
    key: BlockKey,
    dtype: string,
    numLayers: int,
    numKvHeads: int,
    headDim: int,
    tokens: int,
    bytes: int,
    shape: seq<int>,
    checksum: string,
    checksumAlgo: string,
    extra: Json)

  function PayloadDescriptor(m: KVMetadata): Descriptor {
    Descriptor(m.key, m.dtype, m.numLayers, m.numKvHeads, m.headDim, m.tokens, m.bytes, m.shape,
               m.checksum, m.checksumAlgo, m.extra)
  }

  /** JSON, dataclass conversion and SHA-256, as the store uses them. */
  datatype Codec = Codec(
    dumps: Json -> seq<Byte>,
    loads: seq<Byte> -> Option<Json>,
    toDict: KVMetadata -> Json,
    fromDict: Json -> Option<KVMetadata>,
    sha256: seq<Byte> -> string)

  /**
   What the writer relies on: reading back gives what was written, and digests are hex. The
   dictionary form of metadata reads back if the key is one that can be built.
   */
  ghost predicate FaithfulCodec(c: Codec) {
    && (forall j: Json :: c.loads(c.dumps(j)) == Some(j))
    && (forall m: KVMetadata :: ValidKey(m.key) ==> c.toDict(m).JObj? && c.fromDict(c.toDict(m)) == Some(m))
    && (forall data: seq<Byte> :: IsSha256Hex(c.sha256(data)))
  }
}
