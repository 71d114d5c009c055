/**
 The streaming reader of the object tier.

 A response body answers each bounded read with as few bytes as it likes. `ReadBody` asks for the
 prefix, the header, the payload and one byte more, always closes the body, and classifies what
 it finds. For an honest body, however it cuts its answers, the outcome is a function of the bytes
 alone, and the accepted bytes are exactly those that the file reader accepts.
 */
module ObjectBody {
  import opened Identity
  import opened Metadata
  import opened Record

  /** What a body does with one read call. */
  datatype Behaviour = Deliver(upTo: nat) | Overrun(extra: seq<Byte>) | NotBytes | Raise

  /** A body is honest if it neither fails nor overruns, and reports the end only at the end. */
  predicate Honest(plan: seq<Behaviour>) {
    forall i :: 0 <= i < |plan| ==> plan[i].Deliver? && plan[i].upTo > 0
  }

  datatype Answer = Bytes(chunk: seq<Byte>) | Other | Raised

  function Min(a: nat, b: nat): nat {
    if a <= b then a else b
  }

  class Body {
    const data: seq<Byte>
    const closeFails: bool
    var offset: nat
    var plan: seq<Behaviour>
    var closed: bool
    /** One past the last byte any read call asked for. */
    ghost var reach: nat

    constructor (data: seq<Byte>, plan: seq<Behaviour>, closeFails: bool)
      ensures this.data == data && this.plan == plan && this.closeFails == closeFails
      ensures offset == 0 && reach == 0 && !closed
    {
      this.data, this.plan, this.closeFails := data, plan, closeFails;
      offset, closed, reach := 0, false, 0;
    }

    method Read(size: nat) returns (answer: Answer)
      requires offset <= |data|
      modifies this`offset, this`plan, this`reach
      ensures offset <= |data| && reach == (if old(offset) + size > old(reach) then old(offset) + size else old(reach))
      ensures Honest(old(plan)) ==> Honest(plan) && answer.Bytes? && |answer.chunk| <= size
      ensures Honest(old(plan)) && size > 0 && old(offset) < |data| ==> answer.chunk != []
      ensures answer.Bytes? && |answer.chunk| <= size ==>
                offset == old(offset) + |answer.chunk| && answer.chunk == data[old(offset)..offset]
    {
      reach := if offset + size > reach then offset + size else reach;
      var behaviour := Deliver(size);
      if plan != [] {
        behaviour := plan[0];
        plan := plan[1..];
      }
      var start := offset;
      match behaviour {
        case Deliver(n) =>
          offset := start + Min(Min(n, size), |data| - start);
          answer := Bytes(data[start..offset]);
        case Overrun(extra) =>
          offset := start + Min(size, |data| - start);
          answer := Bytes(data[start..offset] + seq(size + 1 - (offset - start), i => 0) + extra);
        case NotBytes => answer := Other;
        case Raise => answer := Raised;
      }
    }

    method Close() returns (ok: bool)
      modifies this`closed
      ensures closed && ok == !closeFails
    {
      closed := true;
      ok := !closeFails;
    }
  }

  method ReadChunk(body: Body, size: nat) returns (r: Result<seq<Byte>>)
    requires body.offset <= |body.data|
    modifies body`offset, body`plan, body`reach
    ensures body.offset <= |body.data|
    ensures body.reach == (if old(body.offset) + size > old(body.reach) then old(body.offset) + size else old(body.reach))
    ensures r.Ok? ==> |r.value| <= size && body.offset == old(body.offset) + |r.value|
    ensures r.Ok? ==> r.value == body.data[old(body.offset)..body.offset]
    ensures r.Err? ==> r.error == TierUnavailable
    ensures Honest(old(body.plan)) ==> Honest(body.plan) && r.Ok?
    ensures Honest(old(body.plan)) && size > 0 && old(body.offset) < |body.data| ==> r.value != []
  {
    var answer := body.Read(size);
    match answer {
      case Bytes(chunk) =>
        if |chunk| > size {
          r := Err(TierUnavailable);
        } else {
          r := Ok(chunk);
        }
      case Other => r := Err(TierUnavailable);
      case Raised => r := Err(TierUnavailable);
    }
  }

  /** Collect exactly `size` bytes, asking again for what is missing until an empty answer. */
  method ReadExact(body: Body, size: nat, onShort: Error) returns (r: Result<seq<Byte>>)
    requires body.offset <= |body.data| && body.reach <= body.offset
    modifies body`offset, body`plan, body`reach
    ensures body.offset <= |body.data|
    ensures body.reach <= old(body.offset) + size
    ensures r.Ok? ==> body.reach <= body.offset == old(body.offset) + size
    ensures r.Ok? ==> r.value == body.data[old(body.offset)..body.offset]
    ensures Honest(old(body.plan)) ==> Honest(body.plan)
    ensures Honest(old(body.plan)) ==> (r.Ok? <==> old(body.offset) + size <= |body.data|)
    ensures Honest(old(body.plan)) && r.Err? ==> r.error == onShort
  {
    var start := body.offset;
    var collected: seq<Byte> := [];
    var remaining := size;
    while remaining > 0
      invariant 0 <= remaining <= size
      invariant body.offset == start + size - remaining <= |body.data|
      invariant body.reach <= start + size && (remaining == 0 ==> body.reach <= body.offset)
      invariant collected == body.data[start..body.offset]
      invariant Honest(old(body.plan)) ==> Honest(body.plan)
    {
      var chunk := ReadChunk(body, remaining);
      if chunk.Err? {
        return Err(chunk.error);
      }
      if chunk.value == [] {
        return Err(onShort);
      }
      collected := collected + chunk.value;
      remaining := remaining - |chunk.value|;
    }
    r := Ok(collected);
  }

  /** The outcome of reading a whole object, as a function of its bytes. */
  function ReadObject(decode: HeaderReader, f: seq<Byte>): Result<Parsed> {
    if |f| < PREFIX_BYTES || f[..8] != MAGIC then Err(ChecksumMismatch)
    else
      var n := HeaderLength(f);
      if n == 0 || n > MAX_HEADER_BYTES || |f| < PREFIX_BYTES + n then Err(RecordFormatError)
      else
        var header :- decode(f[12..12 + n]);
        var end := PREFIX_BYTES + n + header.payloadBytes;
        if |f| != end then Err(ChecksumMismatch)
        else Ok(Parsed(header, f[12 + n..end], end))
  }

  /** The two readers classify damage differently but accept the same bytes with the same result. */
  lemma ObjectsAndFilesAcceptAlike(decode: HeaderReader, f: seq<Byte>, p: Parsed)
    ensures ReadObject(decode, f) == Ok(p) <==> ReadFile(decode, f) == Ok(p)
    ensures ReadObject(decode, f).Err? ==> ReadFile(decode, f).Err?
  {
    if |f| >= PREFIX_BYTES {
      assert Take(f, 8) == f[..8];
    }
  }

  /** Where the record ends, as far as its first bytes announce it. */
  function Announced(decode: HeaderReader, f: seq<Byte>): nat {
    var n := HeaderLength(f);
    if |f| < PREFIX_BYTES || f[..8] != MAGIC || n == 0 || n > MAX_HEADER_BYTES then PREFIX_BYTES
    else if |f| < PREFIX_BYTES + n || decode(f[12..12 + n]).Err? then PREFIX_BYTES + n
    else PREFIX_BYTES + n + decode(f[12..12 + n]).value.payloadBytes
  }

  /** The reads of `ReadBody`, before the body is closed. */
  method ReadParts(decode: HeaderReader, body: Body) returns (r: Result<Parsed>)
    requires body.offset == 0 && body.reach == 0
    modifies body`offset, body`plan, body`reach
    ensures Honest(old(body.plan)) ==> r == ReadObject(decode, body.data)
    ensures r.Ok? ==> ReadRecord(decode, body.data) == r && r.value.consumed == Announced(decode, body.data)
    ensures body.reach <= Announced(decode, body.data) + 1
  {
    var prefix := ReadExact(body, PREFIX_BYTES, ChecksumMismatch);
    if prefix.Err? {
      return Err(prefix.error);
    }
    assert prefix.value == body.data[..12];
    assert prefix.value[..8] == body.data[..8] && prefix.value[8..] == body.data[8..12];
    if prefix.value[..8] != MAGIC {
      return Err(ChecksumMismatch);
    }
    var n := FromBigEndian32(prefix.value[8..]);
    if n == 0 || n > MAX_HEADER_BYTES {
      return Err(RecordFormatError);
    }
    var raw := ReadExact(body, n, RecordFormatError);
    if raw.Err? {
      return Err(raw.error);
    }
    assert raw.value == body.data[12..12 + n];
    var header := decode(raw.value);
    if header.Err? {
      return Err(header.error);
    }
    var payload := ReadExact(body, header.value.payloadBytes, ChecksumMismatch);
    if payload.Err? {
      return Err(payload.error);
    }
    var end := body.offset;
    var trailing := ReadChunk(body, 1);
    if trailing.Err? {
      return Err(trailing.error);
    }
    if trailing.value != [] {
      return Err(ChecksumMismatch);
    }
    r := Ok(Parsed(header.value, payload.value, end));
  }

  /**
   Read an object body. It is closed on every path. A damaged record is reported as such even when
   the close fails too; a failing close turns an otherwise good read into unavailability.
   */
  method ReadBody(decode: HeaderReader, body: Body) returns (r: Result<Parsed>)
    requires body.offset == 0 && body.reach == 0
    modifies body
    ensures body.closed
    ensures Honest(old(body.plan)) && !body.closeFails ==> r == ReadObject(decode, body.data)
    ensures Honest(old(body.plan)) ==> forall p :: r == Ok(p) ==> ReadFile(decode, body.data) == Ok(p)
    ensures r.Ok? ==> ReadRecord(decode, body.data) == r && !body.closeFails
    ensures r.Ok? ==> r.value.consumed == Announced(decode, body.data)
    ensures body.reach <= Announced(decode, body.data) + 1
  {
    var parts := ReadParts(decode, body);
    var closedWell := body.Close();
    if parts.Ok? {
      ObjectsAndFilesAcceptAlike(decode, body.data, parts.value);
    }
    if parts.Err? {
      r := parts;
    } else if !closedWell {
      r := Err(TierUnavailable);
    } else {
      r := parts;
    }
  }
}
