/** The part of the proxy handler that owns the worker list, proved against the lifecycle. */
module Proxy {
  import opened Metadata
  import opened Workers
  import opened Lifecycle
  import CacheModel
  import CacheIndex

  /** `now` is `was` without the entries and watermarks of the retired workers. */
  ghost predicate PurgedOf(was: CacheModel.Ix, now: CacheModel.Ix, retired: seq<string>) {
    && (forall p :: p in now.entries <==> p in was.entries && p.worker !in retired)
    && (forall p :: p in now.entries ==> now.entries[p] == was.entries[p])
    && (forall w :: w in now.marks <==> w in was.marks && w !in retired)
    && (forall w :: w in now.marks ==> now.marks[w] == was.marks[w])
  }

  lemma NobodyRetired(ix: CacheModel.Ix)
    ensures PurgedOf(ix, ix, [])
  {}

  lemma OneMoreRetired(was: CacheModel.Ix, mid: CacheModel.Ix, retired: seq<string>, i: nat)
    requires i < |retired| && PurgedOf(was, mid, retired[..i])
    ensures PurgedOf(was, CacheModel.WorkerEvicted(mid, retired[i]), retired[..i + 1])
  {
    assert retired[..i + 1] == retired[..i] + [retired[i]];
  }

  /** Fill in the defaults of every proposed worker. */
  method Prepare(proposed: seq<Worker>, entry: Topology, now: int) returns (newer: seq<Worker>)
    ensures newer == NormalizeAll(proposed, entry, now)
  {
    newer := [];
    for i := 0 to |proposed|
      invariant |newer| == i && forall j :: 0 <= j < i ==> newer[j] == Normalize(proposed[j], entry).(lastUpdated := now)
    {
      var n := NormalizeWorkerDefaults(proposed[i], entry);
      newer := newer + [n.(lastUpdated := now)];
    }
  }

  class Handler {
    var workers: seq<Worker>
    var routerInflight: map<string, int>
    const setup: Setup
    const index: CacheIndex.Index
    /** The requests at work, by a token of their own. */
    ghost var reserved: map<nat, Reservation>

    /** Start from a worker list that the configuration accepted. */
    constructor (configured: seq<Worker>, setup: Setup, index: CacheIndex.Index, now: int)
      requires ValidWorkers(configured, setup.validUrl)
      ensures this.setup == setup && this.index == index && Init(setup, View())
    {
      this.workers := NormalizeAll(configured, setup.entry, now);
      this.routerInflight := map[];
      this.setup, this.index, this.reserved := setup, index, map[];
    }

    ghost function View(): Registry
      reads this
    {
      Registry(workers, routerInflight, reserved)
    }

    /** Reserve the worker that was picked, if it is still registered and routable. */
    method ReserveRoutableWorker(id: string, ghost token: nat) returns (r: Result<Worker>)
      requires token !in reserved
      modifies this`routerInflight, this`reserved
      ensures r.Ok? <==> Lifecycle.Enabled(setup, old(View()), Reserve(token, id))
      ensures r.Ok? ==> View() == Lifecycle.Step(setup, old(View()), Reserve(token, id))
      ensures r.Ok? ==> r.value.id == id && Routable(r.value) && reserved[token] == Reservation(id, r.value.url, r.value.topology)
                        && r.value.routerInflightRequests == CountOf(routerInflight, id)
      ensures r.Err? ==> View() == old(View())
    {
      var i := 0;
      while i < |workers|
        invariant 0 <= i <= |workers| && View() == old(View())
        invariant forall j :: 0 <= j < i ==> workers[j].id != id
      {
        if workers[i].id == id {
          assert IndexOf(workers, id) == i;
          var worker := workers[i];
          if !Routable(worker) {
            return Err(TierUnavailable);
          }
          routerInflight := routerInflight[id := CountOf(routerInflight, id) + 1];
          reserved := reserved[token := Reservation(id, worker.url, worker.topology)];
          return Ok(worker.(routerInflightRequests := CountOf(routerInflight, id)));
        }
        i := i + 1;
      }
      r := Err(BlockNotFound);
    }

    method ReleaseWorker(id: string, ghost token: nat)
      requires token in reserved && reserved[token].id == id
      modifies this`routerInflight, this`reserved
      ensures View() == Lifecycle.Step(setup, old(View()), Release(token))
    {
      if CountOf(routerInflight, id) <= 1 {
        routerInflight := routerInflight - {id};
      } else {
        routerInflight := routerInflight[id := CountOf(routerInflight, id) - 1];
      }
      reserved := reserved - {token};
    }

    /** Drain or undrain a worker; the answer is its state with the router's own count. */
    method HandleWorkerDrain(id: string, drain: bool, now: int) returns (r: Option<Worker>)
      modifies this`workers
      ensures r.Some? <==> Lifecycle.Enabled(setup, old(View()), SetDrain(id, drain, now))
      ensures r.Some? ==> View() == Lifecycle.Step(setup, old(View()), SetDrain(id, drain, now))
      ensures r.Some? ==> r.value.id == id && r.value.draining == drain && Routable(r.value) == !drain
      ensures r.None? ==> View() == old(View())
    {
      var i := 0;
      while i < |workers|
        invariant 0 <= i <= |workers| && View() == old(View())
        invariant forall j :: 0 <= j < i ==> workers[j].id != id
      {
        if workers[i].id == id {
          assert IndexOf(workers, id) == i;
          workers := workers[i := Drained(workers[i], drain, now)];
          return Some(workers[i].(routerInflightRequests := CountOf(routerInflight, id)));
        }
        i := i + 1;
      }
      r := None;
    }

    /**
     Replace the worker list. Refused lists and lists that would break a promise change nothing;
     otherwise the step is the lifecycle's, and the index forgets every worker that left.
     */
    method HandleReplaceWorkers(proposed: seq<Worker>, now: int) returns (r: Result<nat>, blocked: seq<string>)
      requires CacheIndex.NoneEmpty(index.byBlock)
      modifies this`workers, this`routerInflight, index
      ensures CacheIndex.NoneEmpty(index.byBlock)
      ensures r.Ok? <==> Lifecycle.Enabled(setup, old(View()), Replace(proposed, now))
      ensures r.Ok? ==> View() == Lifecycle.Step(setup, old(View()), Replace(proposed, now))
      ensures r.Err? ==> View() == old(View()) && index.View() == old(index.View())
      ensures ValidWorkers(proposed, setup.validUrl) ==> (r.Err? <==> blocked != [])
      ensures r.Ok? ==> exists retired :: PurgedOf(old(index.View()), index.View(), retired)
                          && forall id :: id in retired <==> Has(old(workers), id) && !Has(workers, id)
    {
      hide Blocked, ValidWorkers, PurgedOf;
      blocked := [];
      var valid := Validate(proposed, setup.validUrl);
      if valid.Err? {
        return Err(InvalidArgument), blocked;
      }
      var newer := Prepare(proposed, setup.entry, now);
      StillUnique(proposed, newer, setup.validUrl);
      blocked := WorkerReplacementConflicts(workers, newer, routerInflight);
      if blocked != [] {
        return Err(ImmutableBlockConflict), blocked;
      }
      var retired := RemovedWorkerIDs(workers, newer);
      workers := newer;
      routerInflight := Pruned(routerInflight, newer);
      NobodyRetired(index.View());
      assert retired[..0] == [];
      for i := 0 to |retired|
        invariant CacheIndex.NoneEmpty(index.byBlock) && PurgedOf(old(index.View()), index.View(), retired[..i])
        invariant workers == newer && routerInflight == Pruned(old(routerInflight), newer)
      {
        OneMoreRetired(old(index.View()), index.View(), retired, i);
        var gone := index.Purge(retired[i]);
      }
      assert retired[..|retired|] == retired;
      r := Ok(|proposed|);
    }
  }

  lemma StillUnique(ws: seq<Worker>, newer: seq<Worker>, validUrl: string -> bool)
    requires ValidWorkers(ws, validUrl) && |newer| == |ws| && forall i :: 0 <= i < |ws| ==> newer[i].id == ws[i].id
    ensures UniqueIds(newer)
  {}
}
