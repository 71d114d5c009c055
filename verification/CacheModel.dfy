/**
 The router's cache index as a value: which worker is believed to hold which block, the producer
 watermarks, the local revision counter and the event ids already applied.

 Times are integers and 0 is the zero time. The clock is a parameter of every operation.
 */
module CacheModel {
  import opened Metadata

  const MAX_INT64 := 0x7FFF_FFFF_FFFF_FFFF

  type Int64 = x: int | -MAX_INT64 - 1 <= x <= MAX_INT64

  datatype Loc = Loc(
    block: string,
    worker: string,
    tier: string,
    topology: seq<string>,
    locality: string,
    transport: string,
    loadP95Ms: real,
    transferP95Ms: real,
    egressCostClass: string,
    bytes: int,
    tokens: int,
    seqNo: Int64,
    confidence: real,
    updatedAt: int,
    expiresAt: int)

  datatype Event = Event(
    id: string,
    kind: string,
    block: string,
    worker: string,
    tier: string,
    tokens: int,
    seqNo: Int64,
    location: Option<Loc>)

  datatype Place = Place(block: string, worker: string)

  datatype Ix = Ix(entries: map<Place, Loc>, next: Int64, applied: set<string>, marks: map<string, Int64>)

  const EMPTY := Ix(map[], 0, {}, map[])

  function PlaceOf(loc: Loc): Place { Place(loc.block, loc.worker) }

  // ----- watermarks -----

  function Mark(marks: map<string, Int64>, worker: string): Int64 {
    if worker in marks then marks[worker] else 0
  }

  function Marked(marks: map<string, Int64>, worker: string, seqNo: Int64): map<string, Int64> {
    if worker == "" || seqNo <= 0 || seqNo <= Mark(marks, worker) then marks else marks[worker := seqNo]
  }

  predicate Fresh(marks: map<string, Int64>, worker: string, seqNo: Int64) {
    worker == "" || seqNo <= 0 || seqNo >= Mark(marks, worker)
  }

  // ----- locations -----

  function Normalized(loc: Loc, now: int, ttl: int): Loc {
    loc.(updatedAt := if loc.updatedAt == 0 then now else loc.updatedAt,
         expiresAt := if loc.expiresAt == 0 then now + ttl else loc.expiresAt,
         confidence := if loc.confidence == 0.0 then 1.0 else loc.confidence,
         locality := if loc.locality == "" then "unknown" else loc.locality,
         transport := if loc.transport == "" then "unknown" else loc.transport,
         egressCostClass := if loc.egressCostClass == "" then "unknown" else loc.egressCostClass)
  }

  predicate IsNormal(loc: Loc) {
    && loc.updatedAt != 0 && loc.expiresAt != 0 && loc.confidence != 0.0
    && loc.locality != "" && loc.transport != "" && loc.egressCostClass != ""
  }

  function LocalLocation(block: string, worker: string, tier: string, tokens: int, seqNo: Int64, now: int, ttl: int): Loc {
    Loc(block, worker, tier, [], "local", "local_memory", 0.0, 0.0, "none", 0, tokens, seqNo, 1.0, now, now + ttl)
  }

  // ----- operations -----

  function NextRevision(next: Int64): Int64 { if next < MAX_INT64 then next + 1 else next }

  function Stored(ix: Ix, loc: Loc, rejectStale: bool, ordered: bool, now: int, ttl: int): Ix {
    var revision := NextRevision(ix.next);
    var l := Normalized(loc.(seqNo := if loc.seqNo == 0 then revision else loc.seqNo), now, ttl);
    var next := if loc.seqNo > revision && loc.seqNo != 0 then loc.seqNo else revision;
    if rejectStale && ordered && !Fresh(ix.marks, l.worker, l.seqNo) then ix.(next := next)
    else ix.(entries := ix.entries[PlaceOf(l) := l], next := next,
             marks := if ordered then Marked(ix.marks, l.worker, l.seqNo) else ix.marks)
  }

  function Evicted(ix: Ix, block: string, worker: string, seqNo: Int64): Ix {
    var p := Place(block, worker);
    if !Fresh(ix.marks, worker, seqNo) then ix
    else if p in ix.entries && seqNo >= ix.entries[p].seqNo then
      ix.(entries := ix.entries - {p}, marks := Marked(ix.marks, worker, seqNo))
    else ix.(marks := Marked(ix.marks, worker, seqNo))
  }

  function WorkerEvicted(ix: Ix, worker: string): Ix {
    ix.(entries := map p | p in ix.entries && p.worker != worker :: ix.entries[p], marks := ix.marks - {worker})
  }

  // ----- events -----

  /** Check an event and let its own fields and its location's complete each other. */
  function ValidateEvent(e: Event): Result<Event> {
    if e.seqNo < 0 || e.seqNo == MAX_INT64 then Err(InvalidArgument)
    else if e.kind == "block_stored" then
      if e.tokens < 0 then Err(InvalidArgument)
      else if e.location.None? then Required(e)
      else
        var l := e.location.value;
        if l.seqNo < 0 || l.seqNo == MAX_INT64 then Err(InvalidArgument)
        else if e.block != "" && l.block != "" && e.block != l.block then Err(InvalidArgument)
        else if e.worker != "" && l.worker != "" && e.worker != l.worker then Err(InvalidArgument)
        else if e.seqNo > 0 && l.seqNo > 0 && e.seqNo != l.seqNo then Err(InvalidArgument)
        else
          var block := if e.block == "" then l.block else e.block;
          var worker := if e.worker == "" then l.worker else e.worker;
          var seqNo := if e.seqNo == 0 then l.seqNo else e.seqNo;
          var full := l.(block := if l.block == "" then block else l.block,
                         worker := if l.worker == "" then worker else l.worker,
                         seqNo := if l.seqNo == 0 then seqNo else l.seqNo);
          Required(e.(block := block, worker := worker, seqNo := seqNo, location := Some(full)))
    else if e.kind == "block_evicted" then
      if e.location.Some? then Err(InvalidArgument) else Required(e)
    else Err(InvalidArgument)
  }

  function Required(e: Event): Result<Event> {
    if e.block == "" || e.worker == "" then Err(InvalidArgument) else Ok(e)
  }

  /** A valid event and its location name the same block, worker and sequence number. */
  lemma ValidEventAgrees(e: Event)
    requires ValidateEvent(e).Ok?
    ensures var v := ValidateEvent(e).value;
            && v.id == e.id && v.kind == e.kind && (v.kind == "block_stored" || v.kind == "block_evicted")
            && v.block != "" && v.worker != "" && 0 <= v.seqNo < MAX_INT64
            && (v.location.Some? ==>
                  v.location.value.block == v.block && v.location.value.worker == v.worker && v.location.value.seqNo == v.seqNo)
            && ValidateEvent(v) == Ok(v)
  {
    var v := ValidateEvent(e).value;
    if v.location.Some? {
      assert v == v.(location := Some(v.location.value));
    }
  }

  predicate SeenId(ix: Ix, v: Event) { v.id != "" && v.id in ix.applied }

  predicate Accepts(ix: Ix, v: Event) {
    && !SeenId(ix, v)
    && !(v.worker != "" && v.seqNo > 0 && v.seqNo <= Mark(ix.marks, v.worker))
    && Fresh(ix.marks, v.worker, v.seqNo)
  }

  /** An id counts as applied from its first use on, also if the event then turns out to be stale. */
  function Noted(ix: Ix, v: Event): Ix {
    if v.id == "" then ix else ix.(applied := ix.applied + {v.id})
  }

  /** The location an event reports, before it is normalized. */
  function EventLocation(v: Event, wall: int, ttl: int): Loc {
    match v.location
    case Some(l) => l
    case None =>
      LocalLocation(v.block, v.worker, if v.tier == "" then "gpu" else v.tier, if v.tokens <= 0 then 16 else v.tokens, v.seqNo, wall, ttl)
  }

  function AppliedValid(ix: Ix, v: Event, now: int, wall: int, ttl: int): Ix {
    if !Accepts(ix, v) then Noted(ix, v)
    else if v.kind == "block_stored" then Stored(Noted(ix, v), EventLocation(v, wall, ttl), true, v.seqNo > 0, now, ttl)
    else Evicted(Noted(ix, v), v.block, v.worker, v.seqNo)
  }

  /** Apply an event; one that is not valid is an error and changes nothing. */
  function Applied(ix: Ix, e: Event, now: int, wall: int, ttl: int): Ix {
    match ValidateEvent(e)
    case Err(_) => ix
    case Ok(v) => AppliedValid(ix, v, now, wall, ttl)
  }

  // ----- queries -----

  /** The worker's entry for the block counts at this time. */
  predicate Live(ix: Ix, block: string, worker: string, now: int) {
    Place(block, worker) in ix.entries && ix.entries[Place(block, worker)].expiresAt > now
  }

  function Overlap(ix: Ix, blocks: seq<string>, worker: string, now: int): nat {
    if blocks == [] then 0
    else Overlap(ix, blocks[..|blocks| - 1], worker, now) + if Live(ix, blocks[|blocks| - 1], worker, now) then 1 else 0
  }

  function Locations(ix: Ix, blocks: seq<string>, worker: string, now: int): seq<Loc> {
    if blocks == [] then []
    else
      var last := blocks[|blocks| - 1];
      Locations(ix, blocks[..|blocks| - 1], worker, now) + if Live(ix, last, worker, now) then [ix.entries[Place(last, worker)]] else []
  }

  // ----- runs -----

  datatype Op =
    | LocalStore(block: string, worker: string, tier: string, tokens: int)
    | StoreLocation(loc: Loc)
    | Deliver(event: Event)
    | Evict(block: string, worker: string, seqNo: Int64)
    | EvictWorker(worker: string)

  /** An operation and the readings of the index clock and the wall clock it sees. */
  datatype Timed = Timed(op: Op, now: int, wall: int)

  function Do(ix: Ix, t: Timed, ttl: int): Ix {
    match t.op
    case LocalStore(block, worker, tier, tokens) => Stored(ix, LocalLocation(block, worker, tier, tokens, 0, t.now, ttl), false, false, t.now, ttl)
    case StoreLocation(loc) => Stored(ix, loc, true, loc.seqNo > 0, t.now, ttl)
    case Deliver(event) => Applied(ix, event, t.now, t.wall, ttl)
    case Evict(block, worker, seqNo) => Evicted(ix, block, worker, seqNo)
    case EvictWorker(worker) => WorkerEvicted(ix, worker)
  }

  function After(ix: Ix, ops: seq<Timed>, ttl: int): Ix {
    if ops == [] then ix else Do(After(ix, ops[..|ops| - 1], ttl), ops[|ops| - 1], ttl)
  }

  /** Entries sit at their own place, are normal and no newer than the revision counter; marks are positive. */
  ghost predicate WellKept(ix: Ix) {
    && (forall p :: p in ix.entries ==> PlaceOf(ix.entries[p]) == p && IsNormal(ix.entries[p]) && ix.entries[p].seqNo <= ix.next)
    && (forall w :: w in ix.marks ==> ix.marks[w] > 0)
  }

  lemma StoredKeeps(ix: Ix, loc: Loc, rejectStale: bool, ordered: bool, now: int, ttl: int)
    requires WellKept(ix) && now > 0 && ttl > 0
    ensures WellKept(Stored(ix, loc, rejectStale, ordered, now, ttl))
  {}

  lemma DoKeeps(ix: Ix, t: Timed, ttl: int)
    requires WellKept(ix) && t.now > 0 && t.wall > 0 && ttl > 0
    ensures WellKept(Do(ix, t, ttl))
  {
    hide Stored, ValidateEvent;
    match t.op
    case LocalStore(block, worker, tier, tokens) =>
      StoredKeeps(ix, LocalLocation(block, worker, tier, tokens, 0, t.now, ttl), false, false, t.now, ttl);
    case StoreLocation(loc) => StoredKeeps(ix, loc, true, loc.seqNo > 0, t.now, ttl);
    case Deliver(event) =>
      if ValidateEvent(event).Ok? {
        var v := ValidateEvent(event).value;
        StoredKeeps(Noted(ix, v), EventLocation(v, t.wall, ttl), true, v.seqNo > 0, t.now, ttl);
      }
    case Evict(_, _, _) =>
    case EvictWorker(_) =>
  }

  /** Every index that was built by operations is well kept. */
  lemma {:induction false} RunsKeep(ix: Ix, ops: seq<Timed>, ttl: int)
    requires WellKept(ix) && ttl > 0 && forall i :: 0 <= i < |ops| ==> ops[i].now > 0 && ops[i].wall > 0
    ensures WellKept(After(ix, ops, ttl))
  {
    hide Do, WellKept;
    if ops != [] {
      RunsKeep(ix, ops[..|ops| - 1], ttl);
      DoKeeps(After(ix, ops[..|ops| - 1], ttl), ops[|ops| - 1], ttl);
    }
  }
}
