/** The index as it is kept: a map of maps that is updated in place, proved against the model. */
module CacheIndex {
  import opened Metadata
  import opened CacheModel
  import opened CacheFold
  import opened CacheSnapshot

  type Nested = map<string, map<string, Loc>>

  function Places(byBlock: Nested): set<Place> {
    set b, w | b in byBlock && w in byBlock[b] :: Place(b, w)
  }

  /** The entries of the map of maps. */
  function Flat(byBlock: Nested): map<Place, Loc> {
    map p | p in Places(byBlock) :: byBlock[p.block][p.worker]
  }

  lemma FlatIs(byBlock: Nested, p: Place)
    ensures p in Flat(byBlock) <==> p.block in byBlock && p.worker in byBlock[p.block]
    ensures p in Flat(byBlock) ==> Flat(byBlock)[p] == byBlock[p.block][p.worker]
  {
    assert p == Place(p.block, p.worker);
  }

  function Inner(byBlock: Nested, b: string): map<string, Loc> {
    if b in byBlock then byBlock[b] else map[]
  }

  function Put(byBlock: Nested, loc: Loc): Nested {
    byBlock[loc.block := Inner(byBlock, loc.block)[loc.worker := loc]]
  }

  /** Taking the last entry of a block takes the block out too. */
  function Take(byBlock: Nested, b: string, w: string): Nested {
    if b !in byBlock then byBlock
    else if byBlock[b] - {w} == map[] then byBlock - {b}
    else byBlock[b := byBlock[b] - {w}]
  }

  ghost predicate NoneEmpty(byBlock: Nested) {
    forall b :: b in byBlock ==> byBlock[b] != map[]
  }

  lemma PutIsUpdate(byBlock: Nested, loc: Loc)
    ensures Flat(Put(byBlock, loc)) == Flat(byBlock)[PlaceOf(loc) := loc]
    ensures NoneEmpty(byBlock) ==> NoneEmpty(Put(byBlock, loc))
  {
    hide Flat;
    forall p ensures (p in Flat(Put(byBlock, loc)) <==> p in Flat(byBlock)[PlaceOf(loc) := loc])
                  && (p in Flat(Put(byBlock, loc)) ==> Flat(Put(byBlock, loc))[p] == Flat(byBlock)[PlaceOf(loc) := loc][p]) {
      FlatIs(byBlock, p);
      FlatIs(Put(byBlock, loc), p);
    }
    assert loc.worker in Put(byBlock, loc)[loc.block];
  }

  lemma TakeIsRemoval(byBlock: Nested, b: string, w: string)
    ensures Flat(Take(byBlock, b, w)) == Flat(byBlock) - {Place(b, w)}
    ensures NoneEmpty(byBlock) ==> NoneEmpty(Take(byBlock, b, w))
  {
    hide Flat;
    forall p ensures (p in Flat(Take(byBlock, b, w)) <==> p in Flat(byBlock) - {Place(b, w)})
                  && (p in Flat(Take(byBlock, b, w)) ==> Flat(Take(byBlock, b, w))[p] == (Flat(byBlock) - {Place(b, w)})[p]) {
      FlatIs(byBlock, p);
      FlatIs(Take(byBlock, b, w), p);
      if b in byBlock && p.block == b && p.worker != w && p.worker in byBlock[b] {
        assert p.worker in byBlock[b] - {w};
      }
    }
  }

  // ----- removal of a worker, block by block -----

  function OfWorker(entries: map<Place, Loc>, worker: string): set<Place> {
    set p | p in entries && p.worker == worker
  }

  /** The worker is gone from all blocks but those still to do, where nothing has changed. */
  ghost predicate PartlyPurged(was: Nested, byBlock: Nested, worker: string, todo: set<string>) {
    && (forall b :: b in todo ==> b in was && b in byBlock && byBlock[b] == was[b])
    && (forall p: Place :: p in Flat(byBlock) <==> p in Flat(was) && (p.block in todo || p.worker != worker))
    && (forall p: Place :: p in Flat(byBlock) ==> Flat(byBlock)[p] == Flat(was)[p])
  }

  lemma NothingPurged(was: Nested, worker: string)
    ensures PartlyPurged(was, was, worker, was.Keys)
  {
    forall p: Place | p in Flat(was) ensures p.block in was.Keys { FlatIs(was, p); }
  }

  lemma OneBlockPurged(was: Nested, byBlock: Nested, worker: string, todo: set<string>, b: string)
    requires PartlyPurged(was, byBlock, worker, todo) && b in todo
    ensures PartlyPurged(was, Take(byBlock, b, worker), worker, todo - {b})
  {
    hide Flat;
    TakeIsRemoval(byBlock, b, worker);
    var after := Take(byBlock, b, worker);
    forall p: Place
      ensures p in Flat(after) <==> p in Flat(was) && (p.block in todo - {b} || p.worker != worker)
    {
      assert p == Place(p.block, p.worker);
    }
  }

  lemma OneBlockCounted(was: map<Place, Loc>, entries: map<Place, Loc>, worker: string, b: string)
    requires entries.Keys <= was.Keys
    ensures |OfWorker(was, worker) - OfWorker(entries - {Place(b, worker)}, worker)|
         == |OfWorker(was, worker) - OfWorker(entries, worker)| + (if Place(b, worker) in entries then 1 else 0)
  {
    var p := Place(b, worker);
    var gone, after := OfWorker(was, worker) - OfWorker(entries, worker), OfWorker(was, worker) - OfWorker(entries - {p}, worker);
    if p in entries {
      assert after == gone + {p};
    } else {
      assert entries - {p} == entries;
    }
  }

  lemma PurgedIsLess(was: Nested, byBlock: Nested, worker: string, todo: set<string>)
    requires PartlyPurged(was, byBlock, worker, todo)
    ensures Flat(byBlock).Keys <= Flat(was).Keys
  {}

  lemma AllPurged(ix: Ix, was: Nested, byBlock: Nested, worker: string)
    requires PartlyPurged(was, byBlock, worker, {}) && ix.entries == Flat(was)
    ensures WorkerEvicted(ix, worker).entries == Flat(byBlock)
    ensures OfWorker(Flat(byBlock), worker) == {}
    ensures Gone(was, byBlock, worker) == |OfWorker(Flat(was), worker)|
  {
    hide Flat;
    assert OfWorker(Flat(was), worker) - {} == OfWorker(Flat(was), worker);
  }

  lemma WorkerEvictedIs(ix: Ix, after: Ix, worker: string)
    requires after.entries == WorkerEvicted(ix, worker).entries
    requires after.next == ix.next && after.applied == ix.applied && after.marks == ix.marks - {worker}
    ensures after == WorkerEvicted(ix, worker)
  {}

  /** The number of the worker's entries that are no longer there. */
  ghost function Gone(was: Nested, byBlock: Nested, worker: string): nat {
    |OfWorker(Flat(was), worker) - OfWorker(Flat(byBlock), worker)|
  }

  lemma NobodyGone(byBlock: Nested, worker: string)
    ensures Gone(byBlock, byBlock, worker) == 0
  {}

  lemma PurgeStep(was: Nested, byBlock: Nested, worker: string, todo: set<string>, b: string)
    requires PartlyPurged(was, byBlock, worker, todo) && b in todo && todo <= byBlock.Keys && NoneEmpty(byBlock)
    ensures var after := if worker in byBlock[b] then Take(byBlock, b, worker) else byBlock;
            && NoneEmpty(after) && todo - {b} <= after.Keys
            && PartlyPurged(was, after, worker, todo - {b})
            && Gone(was, after, worker) == Gone(was, byBlock, worker) + (if worker in byBlock[b] then 1 else 0)
  {
    hide Flat, PartlyPurged, OfWorker;
    PurgedIsLess(was, byBlock, worker, todo);
    OneBlockPurged(was, byBlock, worker, todo, b);
    OneBlockCounted(Flat(was), Flat(byBlock), worker, b);
    TakeIsRemoval(byBlock, b, worker);
    TakeWithout(byBlock, b, worker, todo);
    FlatIs(byBlock, Place(b, worker));
  }

  // ----- counting -----

  function Count(out: map<string, nat>, w: string): nat { if w in out then out[w] else 0 }

  function Listed(out: map<string, seq<Loc>>, w: string): seq<Loc> { if w in out then out[w] else [] }

  /** What a pass over the entries of one block has added for a worker. */
  function Visited(inner: map<string, Loc>, todo: set<string>, w: string, now: int): seq<Loc> {
    if w in inner && w !in todo && inner[w].expiresAt > now then [inner[w]] else []
  }

  lemma VisitOne(out: map<string, seq<Loc>>, before: map<string, seq<Loc>>, inner: map<string, Loc>, todo: set<string>, w: string, now: int)
    requires w in todo && todo <= inner.Keys
    requires forall v :: Listed(out, v) == Listed(before, v) + Visited(inner, todo, v, now)
    ensures var after := if inner[w].expiresAt > now then out[w := Listed(out, w) + [inner[w]]] else out;
            forall v :: Listed(after, v) == Listed(before, v) + Visited(inner, todo - {w}, v, now)
  {
    assert Visited(inner, todo, w, now) == [] && Listed(out, w) == Listed(before, w);
    var after := if inner[w].expiresAt > now then out[w := Listed(out, w) + [inner[w]]] else out;
    forall v ensures Listed(after, v) == Listed(before, v) + Visited(inner, todo - {w}, v, now) {
      assert v != w ==> Visited(inner, todo - {w}, v, now) == Visited(inner, todo, v, now) && Listed(after, v) == Listed(out, v);
    }
  }

  lemma NoLocations(ix: Ix, w: string, now: int)
    ensures Locations(ix, [], w, now) == []
  {}

  lemma VisitedBlock(ix: Ix, byBlock: Nested, blocks: seq<string>, i: nat, w: string, now: int)
    requires i < |blocks| && ix.entries == Flat(byBlock)
    ensures Locations(ix, blocks[..i + 1], w, now) == Locations(ix, blocks[..i], w, now) + Visited(Inner(byBlock, blocks[i]), {}, w, now)
  {
    hide Flat;
    FlatIs(byBlock, Place(blocks[i], w));
    assert blocks[..i + 1][..i] == blocks[..i];
  }

  /** The live entries outside `todo` are listed, each once, and nothing else is. */
  ghost predicate Saved(ix: Ix, now: int, todo: set<Place>, locations: seq<Loc>) {
    && (forall i :: 0 <= i < |locations| ==> Kept(ix, now, locations[i]) && PlaceOf(locations[i]) !in todo)
    && (forall i, j :: 0 <= i < j < |locations| ==> locations[i] != locations[j])
    && (forall p :: p in ix.entries && p !in todo && IsKept(ix.entries[p], now) ==> ix.entries[p] in locations)
  }

  lemma NothingSaved(ix: Ix, now: int)
    ensures Saved(ix, now, ix.entries.Keys, [])
  {}

  lemma OneSaved(ix: Ix, now: int, todo: set<Place>, locations: seq<Loc>, p: Place)
    requires WellKept(ix) && Saved(ix, now, todo, locations) && p in todo && p in ix.entries
    ensures Saved(ix, now, todo - {p}, if IsKept(ix.entries[p], now) then locations + [ix.entries[p]] else locations)
  {
    var loc := ix.entries[p];
    assert PlaceOf(loc) == p;
    if IsKept(loc, now) {
      var more := locations + [loc];
      assert more[|locations|] == loc;
      forall q | q in ix.entries && q !in todo - {p} && IsKept(ix.entries[q], now)
        ensures ix.entries[q] in more
      {
        assert q == p || ix.entries[q] in locations;
      }
    }
  }

  lemma AllSaved(ix: Ix, now: int, locations: seq<Loc>)
    requires Saved(ix, now, {}, locations)
    ensures forall i :: 0 <= i < |locations| ==> Kept(ix, now, locations[i])
    ensures forall p :: p in ix.entries && IsKept(ix.entries[p], now) ==> ix.entries[p] in locations
    ensures forall i, j :: 0 <= i < j < |locations| ==> locations[i] != locations[j]
  {}

  class Index {
    var byBlock: Nested
    const ttl: int
    var nextSeqNo: Int64
    var appliedEventIDs: set<string>
    var lastSeqByWorker: map<string, Int64>

    constructor (ttl: int)
      ensures this.ttl == (if ttl <= 0 then 30_000_000_000 else ttl)
      ensures View() == EMPTY && NoneEmpty(byBlock)
    {
      this.ttl := if ttl <= 0 then 30_000_000_000 else ttl;
      byBlock, nextSeqNo, appliedEventIDs, lastSeqByWorker := map[], 0, {}, map[];
    }

    function View(): Ix
      reads this
    {
      Ix(Flat(byBlock), nextSeqNo, appliedEventIDs, lastSeqByWorker)
    }

    method MarkWorkerSeq(worker: string, seqNo: Int64)
      modifies this`lastSeqByWorker
      ensures lastSeqByWorker == Marked(old(lastSeqByWorker), worker, seqNo)
      ensures forall w :: Mark(lastSeqByWorker, w) >= old(Mark(lastSeqByWorker, w))
    {
      if worker == "" || seqNo <= 0 {
        return;
      }
      if seqNo > Mark(lastSeqByWorker, worker) {
        lastSeqByWorker := lastSeqByWorker[worker := seqNo];
      }
    }

    method StoreLocked(loc: Loc, rejectStale: bool, ordered: bool, now: int) returns (stored: bool)
      requires NoneEmpty(byBlock)
      modifies this`byBlock, this`nextSeqNo, this`lastSeqByWorker
      ensures NoneEmpty(byBlock)
      ensures View() == Stored(old(View()), loc, rejectStale, ordered, now, ttl)
      ensures !stored ==> byBlock == old(byBlock) && lastSeqByWorker == old(lastSeqByWorker)
      ensures stored ==> Place(loc.block, loc.worker) in View().entries
    {
      hide Flat, NoneEmpty;
      if nextSeqNo < MAX_INT64 {
        nextSeqNo := nextSeqNo + 1;
      }
      var l := loc;
      if l.seqNo == 0 {
        l := l.(seqNo := nextSeqNo);
      } else if l.seqNo > nextSeqNo {
        nextSeqNo := l.seqNo;
      }
      l := Normalized(l, now, ttl);
      if rejectStale && ordered && !Fresh(lastSeqByWorker, l.worker, l.seqNo) {
        return false;
      }
      PutIsUpdate(byBlock, l);
      byBlock := Put(byBlock, l);
      if ordered {
        MarkWorkerSeq(l.worker, l.seqNo);
      }
      stored := true;
    }

    method Store(block: string, worker: string, tier: string, tokens: int, now: int)
      requires NoneEmpty(byBlock)
      modifies this`byBlock, this`nextSeqNo, this`lastSeqByWorker
      ensures NoneEmpty(byBlock) && View() == Do(old(View()), Timed(LocalStore(block, worker, tier, tokens), now, now), ttl)
    {
      hide Flat, NoneEmpty;
      var stored := StoreLocked(LocalLocation(block, worker, tier, tokens, 0, now, ttl), false, false, now);
    }

    method PutLocation(loc: Loc, now: int)
      requires NoneEmpty(byBlock)
      modifies this`byBlock, this`nextSeqNo, this`lastSeqByWorker
      ensures NoneEmpty(byBlock) && View() == Do(old(View()), Timed(StoreLocation(loc), now, now), ttl)
    {
      hide Flat, NoneEmpty;
      var stored := StoreLocked(loc, true, loc.seqNo > 0, now);
    }

    method Remove(block: string, worker: string, seqNo: Int64) returns (ok: bool)
      requires NoneEmpty(byBlock)
      modifies this`byBlock, this`lastSeqByWorker
      ensures NoneEmpty(byBlock) && View() == Evicted(old(View()), block, worker, seqNo)
      ensures !Fresh(old(lastSeqByWorker), worker, seqNo) ==> !ok && View() == old(View())
      ensures ok ==> Place(block, worker) !in View().entries
    {
      hide Flat, NoneEmpty;
      if !Fresh(lastSeqByWorker, worker, seqNo) {
        return false;
      }
      FlatIs(byBlock, Place(block, worker));
      MarkWorkerSeq(worker, seqNo);
      if block !in byBlock {
        return true;
      }
      if worker !in byBlock[block] || seqNo < byBlock[block][worker].seqNo {
        return false;
      }
      TakeIsRemoval(byBlock, block, worker);
      byBlock := Take(byBlock, block, worker);
      ok := true;
    }

    /** Forget a retired worker: every entry, and the watermark. */
    method Purge(worker: string) returns (removed: nat)
      requires NoneEmpty(byBlock)
      modifies this`byBlock, this`lastSeqByWorker
      ensures NoneEmpty(byBlock) && View() == WorkerEvicted(old(View()), worker)
      ensures removed == |OfWorker(old(View()).entries, worker)|
      ensures OfWorker(View().entries, worker) == {} && worker !in lastSeqByWorker
    {
      hide Flat, NoneEmpty, PartlyPurged, OfWorker, Take, Gone, WorkerEvicted;
      ghost var was := byBlock;
      removed := 0;
      var todo := byBlock.Keys;
      NothingPurged(byBlock, worker);
      NobodyGone(byBlock, worker);
      while todo != {}
        invariant NoneEmpty(byBlock) && todo <= byBlock.Keys && PartlyPurged(was, byBlock, worker, todo)
        invariant removed == Gone(was, byBlock, worker) && lastSeqByWorker == old(lastSeqByWorker)
        decreases |todo|
      {
        var block :| block in todo;
        PurgeStep(was, byBlock, worker, todo, block);
        if worker in byBlock[block] {
          byBlock := Take(byBlock, block, worker);
          removed := removed + 1;
        }
        todo := todo - {block};
      }
      AllPurged(old(View()), was, byBlock, worker);
      lastSeqByWorker := lastSeqByWorker - {worker};
      WorkerEvictedIs(old(View()), View(), worker);
    }

    /** How many of the blocks each worker is believed to hold at this time. */
    method OverlapByWorker(blocks: seq<string>, now: int) returns (out: map<string, nat>)
      ensures forall w :: Count(out, w) == Overlap(View(), blocks, w, now)
      ensures forall w :: w in out ==> out[w] > 0
    {
      hide Flat;
      out := map[];
      for i := 0 to |blocks|
        invariant forall w :: Count(out, w) == Overlap(View(), blocks[..i], w, now)
        invariant forall w :: w in out ==> out[w] > 0
      {
        var inner := Inner(byBlock, blocks[i]);
        var todo := inner.Keys;
        ghost var before := out;
        while todo != {}
          invariant todo <= inner.Keys
          invariant forall w :: Count(out, w) == Count(before, w) + (if w in inner && w !in todo && inner[w].expiresAt > now then 1 else 0)
          invariant forall w :: w in out ==> out[w] > 0
          decreases |todo|
        {
          var w :| w in todo;
          if inner[w].expiresAt > now {
            out := out[w := Count(out, w) + 1];
          }
          todo := todo - {w};
        }
        forall w ensures Count(out, w) == Overlap(View(), blocks[..i + 1], w, now) {
          FlatIs(byBlock, Place(blocks[i], w));
          assert blocks[..i + 1][..i] == blocks[..i];
        }
      }
      assert blocks[..|blocks|] == blocks;
    }

    /** The live locations of the blocks, worker by worker, in the order of the blocks. */
    method LocationsByWorker(blocks: seq<string>, now: int) returns (out: map<string, seq<Loc>>)
      ensures forall w :: Listed(out, w) == Locations(View(), blocks, w, now)
    {
      hide Flat, Locations, Inner;
      out := map[];
      forall w ensures Locations(View(), [], w, now) == [] { NoLocations(View(), w, now); }
      assert blocks[..0] == [];
      for i := 0 to |blocks|
        invariant forall w :: Listed(out, w) == Locations(View(), blocks[..i], w, now)
      {
        var inner := Inner(byBlock, blocks[i]);
        var todo := inner.Keys;
        ghost var before := out;
        while todo != {}
          invariant todo <= inner.Keys
          invariant forall w :: Listed(out, w) == Listed(before, w) + Visited(inner, todo, w, now)
          decreases |todo|
        {
          var w :| w in todo;
          VisitOne(out, before, inner, todo, w, now);
          if inner[w].expiresAt > now {
            out := out[w := Listed(out, w) + [inner[w]]];
          }
          todo := todo - {w};
        }
        forall w ensures Listed(out, w) == Locations(View(), blocks[..i + 1], w, now) {
          VisitedBlock(View(), byBlock, blocks, i, w, now);
        }
      }
      assert blocks[..|blocks|] == blocks;
    }

    method AcceptEvent(v: Event) returns (ok: bool)
      modifies this`appliedEventIDs
      ensures ok <==> Accepts(old(View()), v)
      ensures View() == Noted(old(View()), v)
    {
      hide Flat;
      if v.id != "" {
        if v.id in appliedEventIDs {
          assert appliedEventIDs + {v.id} == appliedEventIDs;
          return false;
        }
        appliedEventIDs := appliedEventIDs + {v.id};
      }
      if v.worker != "" && v.seqNo > 0 && v.seqNo <= Mark(lastSeqByWorker, v.worker) {
        return false;
      }
      ok := Fresh(lastSeqByWorker, v.worker, v.seqNo);
    }

    method ApplyEvent(e: Event, now: int, wall: int) returns (r: Result<()>)
      requires NoneEmpty(byBlock)
      modifies this
      ensures NoneEmpty(byBlock) && View() == Applied(old(View()), e, now, wall, ttl)
      ensures r.Err? <==> ValidateEvent(e).Err?
    {
      hide Flat, NoneEmpty, ValidateEvent;
      var validated := ValidateEvent(e);
      if validated.Err? {
        return Err(validated.error);
      }
      var v := validated.value;
      ValidEventAgrees(e);
      var accepted := AcceptEvent(v);
      if accepted {
        if v.kind == "block_stored" {
          var stored := StoreLocked(EventLocation(v, wall, ttl), true, v.seqNo > 0, now);
        } else {
          var removed := Remove(v.block, v.worker, v.seqNo);
        }
      }
      r := Ok(());
    }

    /** Apply the last `limit` events of a log, or all of them if there is no limit; stop at an invalid one. */
    method ReplayEventLog(log: seq<Delivery>, limit: int) returns (r: Result<nat>)
      requires NoneEmpty(byBlock)
      modifies this
      ensures NoneEmpty(byBlock)
      ensures var events := if 0 < limit < |log| then log[|log| - limit..] else log;
              if forall i :: 0 <= i < |events| ==> IsValid(events[i]) then
                r == Ok(|events|) && View() == Redelivered(old(View()), events, ttl)
              else
                r.Err? && exists n :: 0 <= n < |events| && !IsValid(events[n]) && View() == Redelivered(old(View()), events[..n], ttl)
    {
      hide Flat, NoneEmpty, ValidateEvent, Applied;
      var events := if 0 < limit < |log| then log[|log| - limit..] else log;
      for i := 0 to |events|
        invariant NoneEmpty(byBlock) && View() == Redelivered(old(View()), events[..i], ttl)
        invariant forall j :: 0 <= j < i ==> IsValid(events[j])
      {
        ghost var before := View();
        var applied := ApplyEvent(events[i].event, events[i].now, events[i].wall);
        if applied.Err? {
          InvalidEventsChangeNothing(before, events[i].event, events[i].now, events[i].wall, ttl);
          return Err(applied.error);
        }
        assert events[..i + 1][..i] == events[..i];
      }
      assert events[..|events|] == events;
      r := Ok(|events|);
    }

    /** List the live entries, each once, and copy the counters. */
    method TakeSnapshot(now: int) returns (snap: Snap)
      requires WellKept(View())
      ensures IsSnapshot(View(), now, snap)
      ensures forall i, j :: 0 <= i < j < |snap.locations| ==> snap.locations[i] != snap.locations[j]
    {
      hide Flat, WellKept, Saved;
      var entries := Flat(byBlock);
      var todo := entries.Keys;
      NothingSaved(View(), now);
      var locations := [];
      while todo != {}
        invariant todo <= entries.Keys && Saved(View(), now, todo, locations)
        decreases |todo|
      {
        var p :| p in todo;
        OneSaved(View(), now, todo, locations, p);
        if IsKept(entries[p], now) {
          locations := locations + [entries[p]];
        }
        todo := todo - {p};
      }
      AllSaved(View(), now, locations);
      snap := Snap(2, now, ttl, nextSeqNo, lastSeqByWorker, locations);
    }

    /** Rebuild the index from a snapshot, whatever it says. */
    method RestoreSnapshot(snap: Snap, now: int)
      modifies this
      ensures NoneEmpty(byBlock) && View() == Restored(snap, now, ttl)
    {
      hide Flat;
      byBlock, appliedEventIDs := map[], {};
      lastSeqByWorker := PositiveMarks(snap.marks);
      nextSeqNo := snap.next;
      ghost var start := View();
      assert start == Ix(map[], snap.next, {}, PositiveMarks(snap.marks)) by { NothingFlat(); }
      for i := 0 to |snap.locations|
        invariant NoneEmpty(byBlock) && View() == TakenAll(start, snap.locations[..i], snap.version, now, ttl)
      {
        var loc := Normalized(snap.locations[i], now, ttl);
        if loc.seqNo > nextSeqNo {
          nextSeqNo := loc.seqNo;
        }
        if snap.version < 2 {
          MarkWorkerSeq(loc.worker, loc.seqNo);
        }
        PutIsUpdate(byBlock, loc);
        byBlock := Put(byBlock, loc);
        assert snap.locations[..i + 1][..i] == snap.locations[..i];
      }
      assert snap.locations[..|snap.locations|] == snap.locations;
    }
  }

  lemma NothingFlat()
    ensures Flat(map[]) == map[]
  {}

  /** Blocks still to do are there after a block was taken care of, and taking what is not there is nothing. */
  lemma TakeWithout(byBlock: Nested, b: string, w: string, todo: set<string>)
    requires b in todo && todo <= byBlock.Keys && NoneEmpty(byBlock)
    ensures todo - {b} <= Take(byBlock, b, w).Keys
    ensures w !in byBlock[b] ==> Take(byBlock, b, w) == byBlock
  {
    if w !in byBlock[b] {
      assert byBlock[b] - {w} == byBlock[b];
    }
  }
}
