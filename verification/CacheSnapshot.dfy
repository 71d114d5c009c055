/** Snapshot and restore: the restored index cannot be told from the original. */
module CacheSnapshot {
  import opened Metadata
  import opened CacheModel

  datatype Snap = Snap(version: int, createdAt: int, ttl: int, next: Int64, marks: map<string, Int64>, locations: seq<Loc>)

  /** The snapshot lists exactly the live entries and copies the counters. */
  ghost predicate IsSnapshot(ix: Ix, now: int, snap: Snap) {
    && snap.version == 2 && snap.next == ix.next && snap.marks == ix.marks
    && (forall i :: 0 <= i < |snap.locations| ==> Kept(ix, now, snap.locations[i]))
    && (forall p :: p in ix.entries && IsKept(ix.entries[p], now) ==> ix.entries[p] in snap.locations)
  }

  predicate IsKept(loc: Loc, now: int) { loc.expiresAt == 0 || loc.expiresAt > now }

  predicate Kept(ix: Ix, now: int, loc: Loc) {
    PlaceOf(loc) in ix.entries && ix.entries[PlaceOf(loc)] == loc && IsKept(loc, now)
  }

  function PositiveMarks(marks: map<string, Int64>): map<string, Int64> {
    map w | w in marks && marks[w] > 0 :: marks[w]
  }

  /** One location taken over; files of the first schema also raise the watermark. */
  function TakenOver(ix: Ix, loc: Loc, version: int, now: int, ttl: int): Ix {
    var l := Normalized(loc, now, ttl);
    ix.(entries := ix.entries[PlaceOf(l) := l],
        next := if l.seqNo > ix.next then l.seqNo else ix.next,
        marks := if version < 2 then Marked(ix.marks, l.worker, l.seqNo) else ix.marks)
  }

  function TakenAll(ix: Ix, locs: seq<Loc>, version: int, now: int, ttl: int): Ix {
    if locs == [] then ix
    else TakenOver(TakenAll(ix, locs[..|locs| - 1], version, now, ttl), locs[|locs| - 1], version, now, ttl)
  }

  function Restored(snap: Snap, now: int, ttl: int): Ix {
    TakenAll(Ix(map[], snap.next, {}, PositiveMarks(snap.marks)), snap.locations, snap.version, now, ttl)
  }

  /** Whatever the snapshot file says, a restored index is well kept. */
  lemma {:induction false} TakenAllKeeps(ix: Ix, locs: seq<Loc>, version: int, now: int, ttl: int)
    requires WellKept(ix) && now > 0 && ttl > 0
    ensures WellKept(TakenAll(ix, locs, version, now, ttl))
  {
    if locs != [] {
      TakenAllKeeps(ix, locs[..|locs| - 1], version, now, ttl);
    }
  }

  lemma RestoredIsWellKept(snap: Snap, now: int, ttl: int)
    requires now > 0 && ttl > 0
    ensures WellKept(Restored(snap, now, ttl))
  {
    TakenAllKeeps(Ix(map[], snap.next, {}, PositiveMarks(snap.marks)), snap.locations, snap.version, now, ttl);
  }

  // ----- twins -----

  /**
   Two indexes that no query can tell apart from time `since` on: the twin may lack entries that had
   expired by then, and may not know the event ids in `past`.
   */
  ghost predicate Twins(ix: Ix, twin: Ix, since: int, past: set<string>) {
    && twin.next == ix.next && twin.marks == ix.marks
    && twin.applied <= ix.applied <= twin.applied + past
    && (forall p :: p in twin.entries ==> p in ix.entries && ix.entries[p] == twin.entries[p])
    && (forall p :: p in ix.entries && p !in twin.entries ==> ix.entries[p].expiresAt <= since)
  }

  /** Restoring a snapshot takes the listed entries over as they are. */
  lemma {:induction false} TakenAsIs(ix: Ix, since: int, start: Ix, locs: seq<Loc>, now: int, ttl: int)
    requires WellKept(ix) && forall i :: 0 <= i < |locs| ==> Kept(ix, since, locs[i])
    requires start.entries == map[] && start.next == ix.next
    ensures var r := TakenAll(start, locs, 2, now, ttl);
            && r.next == ix.next && r.marks == start.marks && r.applied == start.applied
            && (forall p :: p in r.entries ==> p in ix.entries && ix.entries[p] == r.entries[p])
            && (forall i :: 0 <= i < |locs| ==> PlaceOf(locs[i]) in r.entries)
  {
    if locs != [] {
      TakenAsIs(ix, since, start, locs[..|locs| - 1], now, ttl);
      var last := locs[|locs| - 1];
      assert Kept(ix, since, last) && IsNormal(ix.entries[PlaceOf(last)]);
      assert Normalized(last, now, ttl) == last;
    }
  }

  lemma RestoredIsTwin(ix: Ix, since: int, snap: Snap, now: int, ttl: int)
    requires WellKept(ix) && IsSnapshot(ix, since, snap)
    ensures Twins(ix, Restored(snap, now, ttl), since, ix.applied)
  {
    var start := Ix(map[], snap.next, {}, PositiveMarks(snap.marks));
    var r := Restored(snap, now, ttl);
    TakenAsIs(ix, since, start, snap.locations, now, ttl);
    assert PositiveMarks(snap.marks) == ix.marks;
    forall p | p in ix.entries && IsKept(ix.entries[p], since)
      ensures p in r.entries
    {
      var i :| 0 <= i < |snap.locations| && snap.locations[i] == ix.entries[p];
      assert PlaceOf(snap.locations[i]) == p;
    }
  }

  // ----- every operation keeps twins twins -----

  lemma StoredTwins(ix: Ix, twin: Ix, since: int, past: set<string>, loc: Loc, rejectStale: bool, ordered: bool, now: int, ttl: int)
    requires Twins(ix, twin, since, past)
    ensures Twins(Stored(ix, loc, rejectStale, ordered, now, ttl), Stored(twin, loc, rejectStale, ordered, now, ttl), since, past)
  {}

  lemma EvictedTwins(ix: Ix, twin: Ix, since: int, past: set<string>, block: string, worker: string, seqNo: Int64)
    requires Twins(ix, twin, since, past)
    ensures Twins(Evicted(ix, block, worker, seqNo), Evicted(twin, block, worker, seqNo), since, past)
  {}

  /** The original has applied the event's id and its twin has not. */
  predicate Forgotten(ix: Ix, twin: Ix, e: Event) {
    ValidateEvent(e).Ok? && SeenId(ix, ValidateEvent(e).value) && !SeenId(twin, ValidateEvent(e).value)
  }

  /** What an unordered event would store in an index whose revision counter is exhausted. */
  function LastRevision(v: Event, now: int, wall: int, ttl: int): Loc {
    Normalized(EventLocation(v, wall, ttl).(seqNo := MAX_INT64), now, ttl)
  }

  /**
   When a forgotten event does no harm: the twin refuses it as stale; or it is an unordered eviction
   that hits nothing but what had expired anyway; or it is an unordered store, the revision counter
   is exhausted, and the original holds that very entry.
   */
  predicate Harmless(ix: Ix, twin: Ix, since: int, v: Event, now: int, wall: int, ttl: int) {
    var p := Place(v.block, v.worker);
    || !Accepts(twin, v)
    || (v.seqNo == 0 && v.kind == "block_evicted" && (p in twin.entries ==> twin.entries[p].seqNo > 0 || twin.entries[p].expiresAt <= since))
    || (v.seqNo == 0 && v.kind == "block_stored" && twin.next == MAX_INT64 && p in ix.entries && ix.entries[p] == LastRevision(v, now, wall, ttl))
  }

  /** The operation does not bring a forgotten event, or only a harmless one. */
  predicate Tolerates(ix: Ix, twin: Ix, since: int, t: Timed, ttl: int) {
    t.op.Deliver? && Forgotten(ix, twin, t.op.event) ==>
      Harmless(ix, twin, since, ValidateEvent(t.op.event).value, t.now, t.wall, ttl)
  }

  lemma SameVerdict(ix: Ix, twin: Ix, since: int, past: set<string>, v: Event, now: int, wall: int, ttl: int)
    requires Twins(ix, twin, since, past) && SeenId(ix, v) == SeenId(twin, v)
    ensures Twins(AppliedValid(ix, v, now, wall, ttl), AppliedValid(twin, v, now, wall, ttl), since, past)
  {
    hide Stored, Evicted;
    assert Accepts(ix, v) == Accepts(twin, v);
    assert Twins(Noted(ix, v), Noted(twin, v), since, past);
    StoredTwins(Noted(ix, v), Noted(twin, v), since, past, EventLocation(v, wall, ttl), true, v.seqNo > 0, now, ttl);
    EvictedTwins(Noted(ix, v), Noted(twin, v), since, past, v.block, v.worker, v.seqNo);
  }

  /** A watermark that rises tells the two apart. */
  lemma OrderedEventsShow(ix: Ix, twin: Ix, since: int, past: set<string>, v: Event, now: int, wall: int, ttl: int)
    requires Twins(ix, twin, since, past) && ValidateEvent(v) == Ok(v) && v.seqNo > 0 && Accepts(twin, v)
    ensures !Twins(ix, AppliedValid(twin, v, now, wall, ttl), since, past)
  {
    hide ValidateEvent;
    ValidEventAgrees(v);
    var after := AppliedValid(twin, v, now, wall, ttl);
    assert Mark(after.marks, v.worker) == v.seqNo > Mark(twin.marks, v.worker);
  }

  /** An unordered store moves the revision counter, unless that is exhausted. */
  lemma UnorderedStoreShowsUnless(ix: Ix, twin: Ix, since: int, past: set<string>, v: Event, now: int, wall: int, ttl: int)
    requires Twins(ix, twin, since, past) && SeenId(ix, v) && !SeenId(twin, v)
    requires ValidateEvent(v) == Ok(v) && v.seqNo == 0 && v.kind == "block_stored"
    ensures Twins(ix, AppliedValid(twin, v, now, wall, ttl), since, past) <==> Harmless(ix, twin, since, v, now, wall, ttl)
  {
    hide ValidateEvent;
    ValidEventAgrees(v);
    var after, p, l := AppliedValid(twin, v, now, wall, ttl), Place(v.block, v.worker), LastRevision(v, now, wall, ttl);
    assert Accepts(twin, v);
    if twin.next == MAX_INT64 {
      assert after.entries == twin.entries[p := l];
      if p in ix.entries && ix.entries[p] == l {
        assert Twins(ix, after, since, past);
      } else {
        assert p in after.entries && after.entries[p] == l;
      }
    } else {
      assert after.next != ix.next;
    }
  }

  lemma UnorderedEvictionShowsUnless(ix: Ix, twin: Ix, since: int, past: set<string>, v: Event, now: int, wall: int, ttl: int)
    requires Twins(ix, twin, since, past) && SeenId(ix, v) && !SeenId(twin, v)
    requires ValidateEvent(v) == Ok(v) && v.seqNo == 0 && v.kind == "block_evicted"
    ensures Twins(ix, AppliedValid(twin, v, now, wall, ttl), since, past) <==> Harmless(ix, twin, since, v, now, wall, ttl)
  {
    hide ValidateEvent;
    ValidEventAgrees(v);
    var after, p := AppliedValid(twin, v, now, wall, ttl), Place(v.block, v.worker);
    assert Accepts(twin, v);
    if p in twin.entries && twin.entries[p].seqNo <= 0 {
      assert after.entries == twin.entries - {p};
    } else {
      assert after.entries == twin.entries;
    }
  }

  /** Exactly the forgotten events that do harm tell the two apart. */
  lemma EventKeepsTwinsIff(ix: Ix, twin: Ix, since: int, past: set<string>, e: Event, now: int, wall: int, ttl: int)
    requires Twins(ix, twin, since, past)
    ensures Twins(Applied(ix, e, now, wall, ttl), Applied(twin, e, now, wall, ttl), since, past)
       <==> (Forgotten(ix, twin, e) ==> Harmless(ix, twin, since, ValidateEvent(e).value, now, wall, ttl))
  {
    hide ValidateEvent, AppliedValid, Twins;
    if ValidateEvent(e).Ok? {
      ValidEventAgrees(e);
      var v := ValidateEvent(e).value;
      SeenByBoth(ix, twin, since, past, v);
      if !Forgotten(ix, twin, e) {
        SameVerdict(ix, twin, since, past, v, now, wall, ttl);
      } else {
        assert AppliedValid(ix, v, now, wall, ttl) == ix by { SeenIsNoOp(ix, v, now, wall, ttl); }
        if !Accepts(twin, v) {
          StaleIsNoted(ix, twin, since, past, v, now, wall, ttl);
        } else if v.seqNo > 0 {
          OrderedEventsShow(ix, twin, since, past, v, now, wall, ttl);
        } else if v.kind == "block_stored" {
          UnorderedStoreShowsUnless(ix, twin, since, past, v, now, wall, ttl);
        } else {
          UnorderedEvictionShowsUnless(ix, twin, since, past, v, now, wall, ttl);
        }
      }
    }
  }

  lemma SeenByBoth(ix: Ix, twin: Ix, since: int, past: set<string>, v: Event)
    requires Twins(ix, twin, since, past)
    ensures SeenId(twin, v) ==> SeenId(ix, v)
  {}

  lemma SeenIsNoOp(ix: Ix, v: Event, now: int, wall: int, ttl: int)
    requires SeenId(ix, v)
    ensures AppliedValid(ix, v, now, wall, ttl) == ix
  {
    assert ix.applied + {v.id} == ix.applied;
  }

  lemma StaleIsNoted(ix: Ix, twin: Ix, since: int, past: set<string>, v: Event, now: int, wall: int, ttl: int)
    requires Twins(ix, twin, since, past) && SeenId(ix, v) && !Accepts(twin, v)
    ensures Twins(ix, AppliedValid(twin, v, now, wall, ttl), since, past)
  {}

  /** An operation that brings no event id from before the snapshot. */
  predicate FreshId(op: Op, past: set<string>) {
    op.Deliver? ==> op.event.id !in past
  }

  lemma DoTwinsIff(ix: Ix, twin: Ix, since: int, past: set<string>, t: Timed, ttl: int)
    requires Twins(ix, twin, since, past)
    ensures Twins(Do(ix, t, ttl), Do(twin, t, ttl), since, past) <==> Tolerates(ix, twin, since, t, ttl)
  {
    hide Stored, Evicted, Applied, Twins, Harmless, ValidateEvent;
    match t.op
    case LocalStore(block, worker, tier, tokens) =>
      StoredTwins(ix, twin, since, past, LocalLocation(block, worker, tier, tokens, 0, t.now, ttl), false, false, t.now, ttl);
    case StoreLocation(loc) => StoredTwins(ix, twin, since, past, loc, true, loc.seqNo > 0, t.now, ttl);
    case Deliver(event) => EventKeepsTwinsIff(ix, twin, since, past, event, t.now, t.wall, ttl);
    case Evict(block, worker, seqNo) => EvictedTwins(ix, twin, since, past, block, worker, seqNo);
    case EvictWorker(worker) => PurgedTwins(ix, twin, since, past, worker);
  }

  lemma PurgedTwins(ix: Ix, twin: Ix, since: int, past: set<string>, worker: string)
    requires Twins(ix, twin, since, past)
    ensures Twins(WorkerEvicted(ix, worker), WorkerEvicted(twin, worker), since, past)
  {}

  lemma FreshIsTolerated(ix: Ix, twin: Ix, since: int, past: set<string>, t: Timed, ttl: int)
    requires Twins(ix, twin, since, past) && FreshId(t.op, past)
    ensures Tolerates(ix, twin, since, t, ttl)
  {
    hide ValidateEvent, Harmless;
    if t.op.Deliver? && ValidateEvent(t.op.event).Ok? {
      ValidEventAgrees(t.op.event);
    }
  }

  /** The states of the two indexes along a run of operations. */
  ghost predicate TwinsThroughout(ix: Ix, twin: Ix, since: int, past: set<string>, ops: seq<Timed>, ttl: int) {
    forall i :: 0 <= i <= |ops| ==> Twins(After(ix, ops[..i], ttl), After(twin, ops[..i], ttl), since, past)
  }

  ghost predicate AllTolerated(ix: Ix, twin: Ix, since: int, ops: seq<Timed>, ttl: int) {
    forall i :: 0 <= i < |ops| ==> Tolerates(After(ix, ops[..i], ttl), After(twin, ops[..i], ttl), since, ops[i], ttl)
  }

  /** Over a whole run the two stay twins exactly if no operation brings a forgotten event that does harm. */
  lemma {:induction false} TwinsThroughoutIff(ix: Ix, twin: Ix, since: int, past: set<string>, ops: seq<Timed>, ttl: int)
    requires Twins(ix, twin, since, past)
    ensures TwinsThroughout(ix, twin, since, past, ops, ttl) <==> AllTolerated(ix, twin, since, ops, ttl)
  {
    hide Twins, Do, Tolerates;
    if ops == [] {
      assert ops[..0] == [];
    } else {
      var n := |ops| - 1;
      var front := ops[..n];
      assert forall i :: 0 <= i <= n ==> front[..i] == ops[..i];
      assert ops[..n + 1] == ops;
      TwinsThroughoutIff(ix, twin, since, past, front, ttl);
      assert front[..n] == front;
      if TwinsThroughout(ix, twin, since, past, front, ttl) {
        DoTwinsIff(After(ix, front, ttl), After(twin, front, ttl), since, past, ops[n], ttl);
      }
    }
  }

  lemma {:induction false} TwinsStayTwins(ix: Ix, twin: Ix, since: int, past: set<string>, ops: seq<Timed>, ttl: int)
    requires Twins(ix, twin, since, past) && forall i :: 0 <= i < |ops| ==> FreshId(ops[i].op, past)
    ensures Twins(After(ix, ops, ttl), After(twin, ops, ttl), since, past)
  {
    hide Twins, Do, Tolerates;
    if ops != [] {
      var n := |ops| - 1;
      TwinsStayTwins(ix, twin, since, past, ops[..n], ttl);
      FreshIsTolerated(After(ix, ops[..n], ttl), After(twin, ops[..n], ttl), since, past, ops[n], ttl);
      DoTwinsIff(After(ix, ops[..n], ttl), After(twin, ops[..n], ttl), since, past, ops[n], ttl);
    }
  }

  lemma {:induction false} TwinsLookAlike(ix: Ix, twin: Ix, since: int, past: set<string>, blocks: seq<string>, worker: string, now: int)
    requires Twins(ix, twin, since, past) && now >= since
    ensures Overlap(ix, blocks, worker, now) == Overlap(twin, blocks, worker, now)
    ensures Locations(ix, blocks, worker, now) == Locations(twin, blocks, worker, now)
  {
    if blocks != [] {
      TwinsLookAlike(ix, twin, since, past, blocks[..|blocks| - 1], worker, now);
      var last := blocks[|blocks| - 1];
      assert Live(ix, last, worker, now) == Live(twin, last, worker, now);
    }
  }

  /**
   Snapshot and restore are invisible: after every further sequence of stores, events with fresh
   ids, evictions and worker removals, the restored index answers every query from the time of the
   snapshot on as the original does, and holds the same watermarks and revision counter.
   */
  lemma RestoreIsInvisible(ix: Ix, since: int, snap: Snap, now: int, ttl: int, ops: seq<Timed>, blocks: seq<string>, worker: string, later: int)
    requires WellKept(ix) && IsSnapshot(ix, since, snap)
    requires forall i :: 0 <= i < |ops| ==> FreshId(ops[i].op, ix.applied)
    requires later >= since
    ensures var original, restored := After(ix, ops, ttl), After(Restored(snap, now, ttl), ops, ttl);
            && Overlap(original, blocks, worker, later) == Overlap(restored, blocks, worker, later)
            && Locations(original, blocks, worker, later) == Locations(restored, blocks, worker, later)
            && original.marks == restored.marks && original.next == restored.next
  {
    hide WellKept, IsSnapshot, Restored, Overlap, Locations, After;
    RestoredIsTwin(ix, since, snap, now, ttl);
    TwinsStayTwins(ix, Restored(snap, now, ttl), since, ix.applied, ops, ttl);
    TwinsLookAlike(After(ix, ops, ttl), After(Restored(snap, now, ttl), ops, ttl), since, ix.applied, blocks, worker, later);
  }

  /**
   The same without a condition on the ids, for every run in which no operation brings a forgotten
   event that does harm; by `TwinsThroughoutIff` these are exactly the runs in which the two never
   come apart.
   */
  lemma RestoreIsInvisibleIfTolerated(ix: Ix, since: int, snap: Snap, now: int, ttl: int, ops: seq<Timed>, blocks: seq<string>, worker: string, later: int)
    requires WellKept(ix) && IsSnapshot(ix, since, snap) && later >= since
    requires AllTolerated(ix, Restored(snap, now, ttl), since, ops, ttl)
    ensures var original, restored := After(ix, ops, ttl), After(Restored(snap, now, ttl), ops, ttl);
            && Overlap(original, blocks, worker, later) == Overlap(restored, blocks, worker, later)
            && Locations(original, blocks, worker, later) == Locations(restored, blocks, worker, later)
            && original.marks == restored.marks && original.next == restored.next
  {
    hide WellKept, IsSnapshot, Restored, Overlap, Locations, After, AllTolerated;
    var r := Restored(snap, now, ttl);
    RestoredIsTwin(ix, since, snap, now, ttl);
    TwinsThroughoutIff(ix, r, since, ix.applied, ops, ttl);
    assert ops[..|ops|] == ops;
    TwinsLookAlike(After(ix, ops, ttl), After(r, ops, ttl), since, ix.applied, blocks, worker, later);
  }

  /** A forgotten event that does harm: the original refuses it, the restored index counts its block. */
  lemma OldIdsAreForgotten()
    ensures var gone := Event("id", "block_evicted", "b", "w", "", 0, 0, None);
            var ix := After(EMPTY, [Timed(Deliver(gone), 1, 1)], 30);
            var e := Event("id", "block_stored", "b", "w", "gpu", 16, 0, None);
            var snap := Snap(2, 1, 30, 0, map[], []);
            && WellKept(ix) && IsSnapshot(ix, 1, snap)
            && Forgotten(ix, Restored(snap, 2, 30), e)
            && Overlap(Applied(ix, e, 2, 2, 30), ["b"], "w", 3) == 0
            && Overlap(Applied(Restored(snap, 2, 30), e, 2, 2, 30), ["b"], "w", 3) == 1
  {
    var gone := Event("id", "block_evicted", "b", "w", "", 0, 0, None);
    var first := Timed(Deliver(gone), 1, 1);
    assert [first][..0] == [] && After(EMPTY, [first], 30) == Do(EMPTY, first, 30);
    assert ValidateEvent(gone) == Ok(gone) && Accepts(EMPTY, gone);
    var ix := Do(EMPTY, first, 30);
    assert ix == EMPTY.(applied := {"id"});
    var e := Event("id", "block_stored", "b", "w", "gpu", 16, 0, None);
    var snap := Snap(2, 1, 30, 0, map[], []);
    var r := Restored(snap, 2, 30);
    assert r == Ix(map[], 0, {}, map[]);
    var after := Applied(r, e, 2, 2, 30);
    assert ValidateEvent(e) == Ok(e) && Accepts(r, e);
    assert Live(after, "b", "w", 3);
    assert ["b"][..0] == [];
  }
}
