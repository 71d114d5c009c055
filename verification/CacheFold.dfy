/** Delivery of ordered events, duplicated and reordered, is last-writer-wins over the accepted ones. */
module CacheFold {
  import opened Metadata
  import opened CacheModel

  datatype Delivery = Delivery(event: Event, now: int, wall: int)

  function Delivered(ds: seq<Delivery>, ttl: int): Ix {
    if ds == [] then EMPTY
    else
      var d := ds[|ds| - 1];
      Applied(Delivered(ds[..|ds| - 1], ttl), d.event, d.now, d.wall, ttl)
  }

  // ----- the reference: no state, only the sequence of deliveries -----

  predicate IsValid(d: Delivery) { ValidateEvent(d.event).Ok? }

  function Ev(d: Delivery): Event
    requires IsValid(d)
  {
    ValidateEvent(d.event).value
  }

  /** A valid event without an id, or with an id that no valid event before it had. */
  ghost predicate FirstUse(ds: seq<Delivery>, i: int)
    requires 0 <= i < |ds|
  {
    && IsValid(ds[i])
    && (ds[i].event.id == "" || forall j :: 0 <= j < i ==> IsValid(ds[j]) ==> ds[j].event.id != ds[i].event.id)
  }

  /** A first use whose sequence number is above all first uses of its worker so far. */
  ghost predicate Accepted(ds: seq<Delivery>, i: int)
    requires 0 <= i < |ds|
  {
    && FirstUse(ds, i)
    && forall j :: 0 <= j < i && FirstUse(ds, j) && Ev(ds[j]).worker == Ev(ds[i]).worker ==> Ev(ds[j]).seqNo < Ev(ds[i]).seqNo
  }

  function Target(d: Delivery): Place
    requires IsValid(d)
  {
    Place(Ev(d).block, Ev(d).worker)
  }

  /** The last accepted event about a place. */
  ghost predicate LastWriter(ds: seq<Delivery>, i: int, p: Place) {
    && 0 <= i < |ds| && Accepted(ds, i) && Target(ds[i]) == p
    && forall k :: i < k < |ds| && Accepted(ds, k) ==> Target(ds[k]) != p
  }

  function Reported(d: Delivery, ttl: int): Loc
    requires IsValid(d)
  {
    Normalized(EventLocation(Ev(d), d.wall, ttl), d.now, ttl)
  }

  ghost predicate Ordered(ds: seq<Delivery>) {
    forall i :: 0 <= i < |ds| && IsValid(ds[i]) ==> Ev(ds[i]).seqNo > 0
  }

  // ----- what the index knows after the deliveries -----

  ghost predicate IdsKnown(ds: seq<Delivery>, ix: Ix) {
    && (forall i :: 0 <= i < |ds| && IsValid(ds[i]) && ds[i].event.id != "" ==> ds[i].event.id in ix.applied)
    && (forall id :: id in ix.applied ==> exists i :: 0 <= i < |ds| && IsValid(ds[i]) && ds[i].event.id == id)
  }

  /** The watermark of a worker is the largest number of a first use, and zero before there is one. */
  ghost predicate MarksKnown(ds: seq<Delivery>, ix: Ix) {
    && (forall i :: 0 <= i < |ds| && FirstUse(ds, i) ==> Ev(ds[i]).seqNo <= Mark(ix.marks, Ev(ds[i]).worker))
    && (forall w :: w in ix.marks ==> exists i :: 0 <= i < |ds| && FirstUse(ds, i) && Ev(ds[i]).worker == w && Ev(ds[i]).seqNo == ix.marks[w])
  }

  /** A place holds what its last writer reported, and nothing if that was an eviction or nobody wrote. */
  ghost predicate EntriesKnown(ds: seq<Delivery>, ix: Ix, ttl: int) {
    && (forall i, p :: LastWriter(ds, i, p) ==>
          if Ev(ds[i]).kind == "block_stored" then p in ix.entries && ix.entries[p] == Reported(ds[i], ttl) else p !in ix.entries)
    && (forall p :: p in ix.entries ==> exists i :: LastWriter(ds, i, p))
  }

  ghost predicate Known(ds: seq<Delivery>, ix: Ix, ttl: int) {
    IdsKnown(ds, ix) && MarksKnown(ds, ix) && EntriesKnown(ds, ix, ttl)
  }

  // ----- one more delivery -----

  lemma PrefixFacts(ds: seq<Delivery>, d: Delivery, i: int)
    requires 0 <= i < |ds|
    ensures FirstUse(ds + [d], i) == FirstUse(ds, i)
    ensures Accepted(ds + [d], i) == Accepted(ds, i)
  {
    var all := ds + [d];
    assert forall j :: 0 <= j <= i ==> all[j] == ds[j];
    assert forall j :: 0 <= j <= i ==> FirstUse(all, j) == FirstUse(ds, j) by {
      forall j | 0 <= j <= i ensures FirstUse(all, j) == FirstUse(ds, j) {
        assert forall k :: 0 <= k <= j ==> all[k] == ds[k];
      }
    }
  }

  /** The index accepts exactly what the reference accepts. */
  lemma AcceptsIffAccepted(ds: seq<Delivery>, d: Delivery, ix: Ix)
    requires IdsKnown(ds, ix) && MarksKnown(ds, ix) && IsValid(d) && Ev(d).seqNo > 0
    ensures SeenId(ix, Ev(d)) <==> !FirstUse(ds + [d], |ds|)
    ensures Accepts(ix, Ev(d)) <==> Accepted(ds + [d], |ds|)
  {
    hide ValidateEvent;
    var all, n, v := ds + [d], |ds|, Ev(d);
    ValidEventAgrees(d.event);
    assert forall j :: 0 <= j < n ==> all[j] == ds[j];
    forall j | 0 <= j < n ensures FirstUse(all, j) == FirstUse(ds, j) {
      PrefixFacts(ds, d, j);
    }
  }

  lemma IdsAfter(ds: seq<Delivery>, d: Delivery, ix: Ix, after: Ix)
    requires IdsKnown(ds, ix) && after.applied == (if IsValid(d) then Noted(ix, Ev(d)).applied else ix.applied)
    ensures IdsKnown(ds + [d], after)
  {
    hide ValidateEvent;
    var all := ds + [d];
    if IsValid(d) { ValidEventAgrees(d.event); }
    forall id | id in after.applied
      ensures exists i :: 0 <= i < |all| && IsValid(all[i]) && all[i].event.id == id
    {
      if id in ix.applied {
        var i :| 0 <= i < |ds| && IsValid(ds[i]) && ds[i].event.id == id;
        assert all[i] == ds[i];
      } else {
        assert all[|ds|] == d;
      }
    }
  }

  lemma MarksSame(ds: seq<Delivery>, d: Delivery, ix: Ix, after: Ix)
    requires MarksKnown(ds, ix) && after.marks == ix.marks
    requires FirstUse(ds + [d], |ds|) ==> Ev(d).seqNo <= Mark(ix.marks, Ev(d).worker)
    ensures MarksKnown(ds + [d], after)
  {
    hide ValidateEvent, Accepted, LastWriter;
    var all := ds + [d];
    forall i | 0 <= i < |ds| ensures FirstUse(all, i) == FirstUse(ds, i) && all[i] == ds[i] {
      PrefixFacts(ds, d, i);
    }
    forall w | w in after.marks
      ensures exists i :: 0 <= i < |all| && FirstUse(all, i) && Ev(all[i]).worker == w && Ev(all[i]).seqNo == after.marks[w]
    {
      var i :| 0 <= i < |ds| && FirstUse(ds, i) && Ev(ds[i]).worker == w && Ev(ds[i]).seqNo == ix.marks[w];
      assert FirstUse(all, i) && all[i] == ds[i];
    }
  }

  lemma MarksRaised(ds: seq<Delivery>, d: Delivery, ix: Ix, after: Ix)
    requires MarksKnown(ds, ix) && FirstUse(ds + [d], |ds|) && Ev(d).seqNo > Mark(ix.marks, Ev(d).worker)
    requires after.marks == ix.marks[Ev(d).worker := Ev(d).seqNo]
    ensures MarksKnown(ds + [d], after)
  {
    hide ValidateEvent, Accepted, LastWriter;
    var all := ds + [d];
    assert all[|ds|] == d;
    forall i | 0 <= i < |ds| ensures FirstUse(all, i) == FirstUse(ds, i) && all[i] == ds[i] {
      PrefixFacts(ds, d, i);
    }
    forall w | w in after.marks
      ensures exists i :: 0 <= i < |all| && FirstUse(all, i) && Ev(all[i]).worker == w && Ev(all[i]).seqNo == after.marks[w]
    {
      if w != Ev(d).worker {
        var i :| 0 <= i < |ds| && FirstUse(ds, i) && Ev(ds[i]).worker == w && Ev(ds[i]).seqNo == ix.marks[w];
        assert FirstUse(all, i) && all[i] == ds[i];
      }
    }
  }

  /** Who was the last writer of a place, after one more delivery. */
  lemma LastWriterAfter(ds: seq<Delivery>, d: Delivery, i: int, p: Place)
    ensures var all := ds + [d];
            var hit := Accepted(all, |ds|) && Target(d) == p;
            LastWriter(all, i, p) <==> (if i == |ds| then hit else LastWriter(ds, i, p) && !hit)
  {
    hide ValidateEvent, FirstUse;
    var all := ds + [d];
    assert all[|ds|] == d;
    forall k | 0 <= k < |ds| ensures Accepted(all, k) == Accepted(ds, k) && all[k] == ds[k] {
      PrefixFacts(ds, d, k);
    }
    if Accepted(all, |ds|) { assert IsValid(all[|ds|]) by { AcceptedIsValid(all, |ds|); } }
  }

  lemma AcceptedIsValid(ds: seq<Delivery>, i: int)
    requires 0 <= i < |ds| && Accepted(ds, i)
    ensures IsValid(ds[i])
  {}

  lemma EntriesSame(ds: seq<Delivery>, d: Delivery, ix: Ix, after: Ix, ttl: int)
    requires EntriesKnown(ds, ix, ttl) && after.entries == ix.entries && !Accepted(ds + [d], |ds|)
    ensures EntriesKnown(ds + [d], after, ttl)
  {
    hide ValidateEvent, Accepted, LastWriter, Reported;
    var all := ds + [d];
    forall i, p ensures LastWriter(all, i, p) <==> i != |ds| && LastWriter(ds, i, p) {
      LastWriterAfter(ds, d, i, p);
    }
    LastWritersKept(ds, d);
    forall p | p in after.entries ensures exists i :: LastWriter(all, i, p) {
      var i :| LastWriter(ds, i, p);
      assert LastWriter(all, i, p);
    }
  }

  lemma LastWritersKept(ds: seq<Delivery>, d: Delivery)
    ensures forall i, p :: LastWriter(ds, i, p) ==> 0 <= i < |ds| && IsValid(ds[i]) && (ds + [d])[i] == ds[i]
  {}

  /** The accepted event decides about its place; all other places stay as they were. */
  lemma EntriesChanged(ds: seq<Delivery>, d: Delivery, ix: Ix, after: Ix, ttl: int)
    requires EntriesKnown(ds, ix, ttl) && Accepted(ds + [d], |ds|) && IsValid(d)
    requires after.entries == (if Ev(d).kind == "block_stored" then ix.entries[Target(d) := Reported(d, ttl)] else ix.entries - {Target(d)})
    ensures EntriesKnown(ds + [d], after, ttl)
  {
    hide ValidateEvent, Accepted, LastWriter, Reported, Target;
    var all := ds + [d];
    assert all[|ds|] == d;
    forall i, p ensures LastWriter(all, i, p) <==> (if i == |ds| then Target(d) == p else LastWriter(ds, i, p) && Target(d) != p) {
      LastWriterAfter(ds, d, i, p);
    }
    LastWritersKept(ds, d);
    forall p | p in after.entries ensures exists i :: LastWriter(all, i, p) {
      if p == Target(d) {
        assert LastWriter(all, |ds|, p);
      } else {
        var i :| LastWriter(ds, i, p);
        assert LastWriter(all, i, p);
      }
    }
  }

  /** Entries reported by events are never ahead of their worker's watermark, so evictions always hit. */
  lemma EntriesBelowMarks(ds: seq<Delivery>, ix: Ix, ttl: int, p: Place)
    requires Known(ds, ix, ttl) && p in ix.entries
    ensures ix.entries[p].seqNo <= Mark(ix.marks, p.worker)
  {
    hide ValidateEvent;
    var i :| LastWriter(ds, i, p);
    ValidEventAgrees(ds[i].event);
  }

  lemma OneDelivered(ds: seq<Delivery>, d: Delivery, ix: Ix, ttl: int)
    requires Known(ds, ix, ttl) && (IsValid(d) ==> Ev(d).seqNo > 0)
    ensures Known(ds + [d], Applied(ix, d.event, d.now, d.wall, ttl), ttl)
  {
    hide ValidateEvent, IdsKnown, MarksKnown, EntriesKnown, FirstUse, Accepted;
    var after := Applied(ix, d.event, d.now, d.wall, ttl);
    if IsValid(d) {
      AcceptsIffAccepted(ds, d, ix);
      ValidEventAgrees(d.event);
      if Accepts(ix, Ev(d)) {
        assert FirstUse(ds + [d], |ds|) by { AcceptedIsFirst(ds + [d], |ds|); }
        AcceptedEffect(ds, d, ix, ttl);
        MarksRaised(ds, d, ix, after);
        EntriesChanged(ds, d, ix, after, ttl);
      } else {
        MarksSame(ds, d, ix, after);
        EntriesSame(ds, d, ix, after, ttl);
      }
    } else {
      NotAccepted(ds + [d], |ds|);
      MarksSame(ds, d, ix, after);
      EntriesSame(ds, d, ix, after, ttl);
    }
    IdsAfter(ds, d, ix, after);
  }

  lemma AcceptedIsFirst(ds: seq<Delivery>, i: int)
    requires 0 <= i < |ds| && Accepted(ds, i)
    ensures FirstUse(ds, i)
  {}

  lemma NotAccepted(ds: seq<Delivery>, i: int)
    requires 0 <= i < |ds| && !IsValid(ds[i])
    ensures !FirstUse(ds, i) && !Accepted(ds, i)
  {}

  lemma AcceptedEffect(ds: seq<Delivery>, d: Delivery, ix: Ix, ttl: int)
    requires Known(ds, ix, ttl) && IsValid(d) && Ev(d).seqNo > 0 && Accepts(ix, Ev(d))
    ensures var after := Applied(ix, d.event, d.now, d.wall, ttl);
            && Ev(d).seqNo > Mark(ix.marks, Ev(d).worker)
            && after.applied == Noted(ix, Ev(d)).applied
            && after.marks == ix.marks[Ev(d).worker := Ev(d).seqNo]
            && after.entries == (if Ev(d).kind == "block_stored" then ix.entries[Target(d) := Reported(d, ttl)] else ix.entries - {Target(d)})
  {
    hide ValidateEvent, Known;
    ValidEventAgrees(d.event);
    if Target(d) in ix.entries {
      EntriesBelowMarks(ds, ix, ttl, Target(d));
    }
  }

  /**
   After any deliveries of events with positive sequence numbers, in any order and with any
   repetitions, the index is last-writer-wins over the accepted events.
   */
  lemma {:induction false} EventsFold(ds: seq<Delivery>, ttl: int)
    requires Ordered(ds)
    ensures Known(ds, Delivered(ds, ttl), ttl)
  {
    hide Known, Applied, IsValid, Ev;
    if ds == [] {
      assert Known([], EMPTY, ttl) by { NothingKnown(ttl); }
    } else {
      var n := |ds| - 1;
      assert ds == ds[..n] + [ds[n]];
      EventsFold(ds[..n], ttl);
      OneDelivered(ds[..n], ds[n], Delivered(ds[..n], ttl), ttl);
    }
  }

  lemma NothingKnown(ttl: int)
    ensures Known([], EMPTY, ttl)
  {}

  // ----- redelivery -----

  /** An event that was delivered before changes nothing when it comes again, whatever the clocks say. */
  lemma RedeliveryIsNoOp(ds: seq<Delivery>, i: int, now: int, wall: int, ttl: int)
    requires Ordered(ds) && 0 <= i < |ds|
    ensures Applied(Delivered(ds, ttl), ds[i].event, now, wall, ttl) == Delivered(ds, ttl)
  {
    hide Delivered, ValidateEvent, EntriesKnown;
    EventsFold(ds, ttl);
    if IsValid(ds[i]) {
      var ix, v := Delivered(ds, ttl), Ev(ds[i]);
      ValidEventAgrees(ds[i].event);
      if v.id == "" {
        assert FirstUse(ds, i);
      } else {
        assert ix.applied + {v.id} == ix.applied;
      }
    }
  }

  function Redelivered(ix: Ix, ds: seq<Delivery>, ttl: int): Ix {
    if ds == [] then ix
    else
      var d := ds[|ds| - 1];
      Applied(Redelivered(ix, ds[..|ds| - 1], ttl), d.event, d.now, d.wall, ttl)
  }

  /** Replaying the log, all of it, a part of it, in any order and any number of times, is a no-op. */
  lemma {:induction false} ReplayIsNoOp(ds: seq<Delivery>, again: seq<Delivery>, ttl: int)
    requires Ordered(ds)
    requires forall k :: 0 <= k < |again| ==> exists i :: 0 <= i < |ds| && ds[i].event == again[k].event
    ensures Redelivered(Delivered(ds, ttl), again, ttl) == Delivered(ds, ttl)
  {
    if again != [] {
      var d := again[|again| - 1];
      ReplayIsNoOp(ds, again[..|again| - 1], ttl);
      var i :| 0 <= i < |ds| && ds[i].event == d.event;
      RedeliveryIsNoOp(ds, i, d.now, d.wall, ttl);
    }
  }

  /** The deliveries whose events are valid, in order. */
  function OnlyValid(ds: seq<Delivery>): seq<Delivery> {
    if ds == [] then []
    else OnlyValid(ds[..|ds| - 1]) + if IsValid(ds[|ds| - 1]) then [ds[|ds| - 1]] else []
  }

  /** Invalid events leave no trace: with or without them the deliveries build the same index. */
  lemma {:induction false} InvalidEventsLeaveNoTrace(ds: seq<Delivery>, ttl: int)
    ensures Delivered(ds, ttl) == Delivered(OnlyValid(ds), ttl)
  {
    hide ValidateEvent, AppliedValid;
    if ds != [] {
      var n := |ds| - 1;
      var front := OnlyValid(ds[..n]);
      InvalidEventsLeaveNoTrace(ds[..n], ttl);
      if IsValid(ds[n]) {
        assert OnlyValid(ds) == front + [ds[n]] && (front + [ds[n]])[..|front|] == front;
      } else {
        InvalidEventsChangeNothing(Delivered(ds[..n], ttl), ds[n].event, ds[n].now, ds[n].wall, ttl);
        assert OnlyValid(ds) == front;
      }
    }
  }

  lemma InvalidEventsChangeNothing(ix: Ix, e: Event, now: int, wall: int, ttl: int)
    requires ValidateEvent(e).Err?
    ensures Applied(ix, e, now, wall, ttl) == ix
  {}

  // ----- local stores beside producer events -----

  /**
   An accepted eviction empties its place exactly if the entry there is not ahead of it. An entry
   can be ahead: its number may be a local revision, which no producer knows.
   */
  lemma EvictionHitsIff(ix: Ix, e: Event, now: int, wall: int, ttl: int)
    requires IsValid(Delivery(e, now, wall)) && e.kind == "block_evicted" && Accepts(ix, e)
    ensures Place(e.block, e.worker) !in Applied(ix, e, now, wall, ttl).entries
       <==> (Place(e.block, e.worker) in ix.entries ==> ix.entries[Place(e.block, e.worker)].seqNo <= e.seqNo)
  {}

  /** A block stored locally after another one survives the first eviction its producer sends. */
  lemma LocalStoreOutranksEviction()
    ensures var ops := [Timed(LocalStore("a", "w", "gpu", 16), 1, 1), Timed(LocalStore("b", "w", "gpu", 16), 2, 2)];
            var ix := After(EMPTY, ops, 30);
            var e := Event("", "block_evicted", "b", "w", "", 0, 1, None);
            Accepts(ix, e) && Place("b", "w") in Applied(ix, e, 3, 3, 30).entries
  {
    var first := Timed(LocalStore("a", "w", "gpu", 16), 1, 1);
    var ops := [first, Timed(LocalStore("b", "w", "gpu", 16), 2, 2)];
    assert ops[..1] == [first] && [first][..0] == [];
    assert After(EMPTY, [first], 30) == Do(EMPTY, first, 30);
    assert After(EMPTY, ops, 30) == Do(Do(EMPTY, first, 30), ops[1], 30);
  }
}
