/**
 The worker lifecycle: requests reserve and release workers while the control plane drains,
 undrains and replaces them. Every operation runs under one lock, so it is one step.
 */
module Lifecycle {
  import opened Workers

  /** What a request was promised when it reserved a worker. */
  datatype Reservation = Reservation(id: string, url: string, topology: Topology)

  datatype Registry = Registry(workers: seq<Worker>, inflight: map<string, int>, reserved: map<nat, Reservation>)

  /** The circumstances that do not change: how URLs are checked and where requests enter. */
  datatype Setup = Setup(validUrl: string -> bool, entry: Topology)

  datatype Action =
    | Reserve(token: nat, id: string)
    | Release(token: nat)
    | SetDrain(id: string, drain: bool, now: int)
    | Replace(workers: seq<Worker>, now: int)

  function IndexOf(ws: seq<Worker>, id: string): (r: int)
    ensures r == -1 || 0 <= r < |ws|
    ensures r == -1 <==> !Has(ws, id)
    ensures r >= 0 ==> ws[r].id == id && forall j :: 0 <= j < r ==> ws[j].id != id
  {
    if ws == [] then -1
    else if ws[0].id == id then 0
    else
      var rest := IndexOf(ws[1..], id);
      assert forall j :: 0 < j < |ws| ==> ws[1..][j - 1] == ws[j];
      if rest == -1 then -1 else rest + 1
  }

  function Drained(w: Worker, drain: bool, now: int): Worker {
    if drain then w.(health := DRAINING, readiness := DRAINING, draining := true, lastUpdated := now)
    else w.(health := READY, readiness := READY, draining := false, lastUpdated := now)
  }

  function NormalizeAll(ws: seq<Worker>, entry: Topology, now: int): (r: seq<Worker>)
    ensures |r| == |ws| && forall i :: 0 <= i < |ws| ==> r[i] == Normalize(ws[i], entry).(lastUpdated := now)
  {
    seq(|ws|, i requires 0 <= i < |ws| => Normalize(ws[i], entry).(lastUpdated := now))
  }

  /** Counters of workers that are gone are dropped once they are zero. */
  function Pruned(inflight: map<string, int>, ws: seq<Worker>): map<string, int> {
    map id | id in inflight && (inflight[id] != 0 || Has(ws, id)) :: inflight[id]
  }

  function Released(inflight: map<string, int>, id: string): map<string, int> {
    if CountOf(inflight, id) <= 1 then inflight - {id} else inflight[id := CountOf(inflight, id) - 1]
  }

  ghost predicate Enabled(setup: Setup, s: Registry, a: Action) {
    match a
    case Reserve(token, id) => token !in s.reserved && IndexOf(s.workers, id) >= 0 && Routable(s.workers[IndexOf(s.workers, id)])
    case Release(token) => token in s.reserved
    case SetDrain(id, _, _) => IndexOf(s.workers, id) >= 0
    case Replace(ws, now) =>
      ValidWorkers(ws, setup.validUrl) && Blocked(s.workers, NormalizeAll(ws, setup.entry, now), s.inflight) == []
  }

  ghost function Step(setup: Setup, s: Registry, a: Action): Registry
    requires Enabled(setup, s, a)
  {
    match a
    case Reserve(token, id) =>
      var w := s.workers[IndexOf(s.workers, id)];
      s.(inflight := s.inflight[id := CountOf(s.inflight, id) + 1], reserved := s.reserved[token := Reservation(id, w.url, w.topology)])
    case Release(token) => s.(inflight := Released(s.inflight, s.reserved[token].id), reserved := s.reserved - {token})
    case SetDrain(id, drain, now) =>
      var i := IndexOf(s.workers, id);
      s.(workers := s.workers[i := Drained(s.workers[i], drain, now)])
    case Replace(ws, now) =>
      var newer := NormalizeAll(ws, setup.entry, now);
      s.(workers := newer, inflight := Pruned(s.inflight, newer))
  }

  // ----- safety -----

  function TokensOn(reserved: map<nat, Reservation>, id: string): set<nat> {
    set t | t in reserved && reserved[t].id == id
  }

  /** The worker is there, under the URL and topology that were promised. */
  ghost predicate Stands(ws: seq<Worker>, r: Reservation) {
    exists i :: 0 <= i < |ws| && ws[i].id == r.id && ws[i].url == r.url && ws[i].topology == r.topology
  }

  ghost predicate CountsMatch(s: Registry) {
    && (forall id :: CountOf(s.inflight, id) == |TokensOn(s.reserved, id)|)
    && (forall id :: id in s.inflight ==> s.inflight[id] > 0)
  }

  ghost predicate Safe(s: Registry) {
    && UniqueIds(s.workers)
    && (forall i :: 0 <= i < |s.workers| ==> NaturalCounts(s.workers[i]))
    && CountsMatch(s)
    && (forall t :: t in s.reserved ==> Stands(s.workers, s.reserved[t]))
  }

  lemma OneMoreToken(reserved: map<nat, Reservation>, token: nat, r: Reservation, id: string)
    requires token !in reserved
    ensures |TokensOn(reserved[token := r], id)| == |TokensOn(reserved, id)| + (if r.id == id then 1 else 0)
  {
    assert TokensOn(reserved[token := r], id) == TokensOn(reserved, id) + (if r.id == id then {token} else {});
  }

  lemma FoundStands(ws: seq<Worker>, id: string)
    requires IndexOf(ws, id) >= 0
    ensures var w := ws[IndexOf(ws, id)]; Stands(ws, Reservation(id, w.url, w.topology))
  {}

  lemma ReserveIsSafe(setup: Setup, s: Registry, token: nat, id: string)
    requires Safe(s) && Enabled(setup, s, Reserve(token, id))
    ensures Safe(Step(setup, s, Reserve(token, id)))
  {
    hide UniqueIds, NaturalCounts, Routable, TokensOn, Stands;
    var t := Step(setup, s, Reserve(token, id));
    forall k ensures CountOf(t.inflight, k) == |TokensOn(t.reserved, k)| {
      OneMoreToken(s.reserved, token, t.reserved[token], k);
    }
    FoundStands(s.workers, id);
  }

  lemma ReleaseIsSafe(setup: Setup, s: Registry, token: nat)
    requires Safe(s) && Enabled(setup, s, Release(token))
    ensures Safe(Step(setup, s, Release(token)))
  {
    var t, id := Step(setup, s, Release(token)), s.reserved[token].id;
    assert token in TokensOn(s.reserved, id);
    forall k ensures CountOf(t.inflight, k) == |TokensOn(t.reserved, k)| {
      assert TokensOn(t.reserved, k) == TokensOn(s.reserved, k) - (if k == id then {token} else {});
    }
  }

  lemma DrainIsSafe(setup: Setup, s: Registry, id: string, drain: bool, now: int)
    requires Safe(s) && Enabled(setup, s, SetDrain(id, drain, now))
    ensures Safe(Step(setup, s, SetDrain(id, drain, now)))
  {
    var t := Step(setup, s, SetDrain(id, drain, now));
    forall k | k in t.reserved ensures Stands(t.workers, t.reserved[k]) {
      var i :| 0 <= i < |s.workers| && s.workers[i].id == s.reserved[k].id && s.workers[i].url == s.reserved[k].url && s.workers[i].topology == s.reserved[k].topology;
      assert t.workers[i].id == s.workers[i].id && t.workers[i].url == s.workers[i].url && t.workers[i].topology == s.workers[i].topology;
    }
  }

  /** A replacement that nothing blocks takes no worker away from the requests that hold it. */
  lemma NoneLost(s: Registry, newer: seq<Worker>, token: nat)
    requires Safe(s) && token in s.reserved && Blocked(s.workers, newer, s.inflight) == []
    ensures Stands(newer, s.reserved[token])
  {
    var r := s.reserved[token];
    var i :| 0 <= i < |s.workers| && s.workers[i].id == r.id && s.workers[i].url == r.url && s.workers[i].topology == r.topology;
    NobodyBlocks(s.workers, newer, s.inflight);
    assert !Blocks(s.workers[i], newer, CountOf(s.inflight, r.id));
    assert token in TokensOn(s.reserved, r.id);
    assert Has(newer, r.id);
  }

  lemma ReplaceIsSafe(setup: Setup, s: Registry, ws: seq<Worker>, now: int)
    requires Safe(s) && Enabled(setup, s, Replace(ws, now))
    ensures Safe(Step(setup, s, Replace(ws, now)))
  {
    hide Blocked;
    var newer := NormalizeAll(ws, setup.entry, now);
    forall t | t in s.reserved ensures Stands(newer, s.reserved[t]) {
      NoneLost(s, newer, t);
    }
    forall i | 0 <= i < |newer| ensures NaturalCounts(newer[i]) {
      assert Acceptable(ws[i], setup.validUrl);
    }
    assert Pruned(s.inflight, newer) == s.inflight;
  }

  lemma StepIsSafe(setup: Setup, s: Registry, a: Action)
    requires Safe(s) && Enabled(setup, s, a)
    ensures Safe(Step(setup, s, a))
  {
    hide Safe, Enabled, Step;
    match a
    case Reserve(token, id) => ReserveIsSafe(setup, s, token, id);
    case Release(token) => ReleaseIsSafe(setup, s, token);
    case SetDrain(id, drain, now) => DrainIsSafe(setup, s, id, drain, now);
    case Replace(ws, now) => ReplaceIsSafe(setup, s, ws, now);
  }

  // ----- whole runs -----

  ghost predicate IsRun(setup: Setup, run: seq<Registry>, acts: seq<Action>) {
    && |run| == |acts| + 1
    && forall i :: 0 <= i < |acts| ==> Enabled(setup, run[i], acts[i]) && run[i + 1] == Step(setup, run[i], acts[i])
  }

  /** The router starts with a checked configuration and no request. */
  ghost predicate Init(setup: Setup, s: Registry) {
    && s.inflight == map[] && s.reserved == map[]
    && exists ws, now :: ValidWorkers(ws, setup.validUrl) && s.workers == NormalizeAll(ws, setup.entry, now)
  }

  lemma InitIsSafe(setup: Setup, s: Registry)
    requires Init(setup, s)
    ensures Safe(s)
  {
    var ws, now :| ValidWorkers(ws, setup.validUrl) && s.workers == NormalizeAll(ws, setup.entry, now);
    forall i | 0 <= i < |s.workers| ensures NaturalCounts(s.workers[i]) {
      assert Acceptable(ws[i], setup.validUrl);
    }
    forall id ensures CountOf(s.inflight, id) == |TokensOn(s.reserved, id)| {
      assert TokensOn(s.reserved, id) == {};
    }
  }

  lemma {:induction false} RunsAreSafe(setup: Setup, run: seq<Registry>, acts: seq<Action>, n: nat)
    requires IsRun(setup, run, acts) && Init(setup, run[0]) && n < |run|
    ensures Safe(run[n])
  {
    hide Safe, Enabled, Step;
    if n == 0 {
      InitIsSafe(setup, run[0]);
    } else {
      RunsAreSafe(setup, run, acts, n - 1);
      StepIsSafe(setup, run[n - 1], acts[n - 1]);
    }
  }

  /** A step other than its release leaves a reservation as it was. */
  lemma ReservationStep(setup: Setup, s: Registry, a: Action, token: nat)
    requires Enabled(setup, s, a) && token in s.reserved && a != Release(token)
    ensures token in Step(setup, s, a).reserved && Step(setup, s, a).reserved[token] == s.reserved[token]
  {
    hide Blocked, ValidWorkers, NormalizeAll, IndexOf;
  }

  /** From its reservation to its release a request finds its worker registered as it was promised. */
  lemma {:induction false} ReservedWorkersStay(setup: Setup, run: seq<Registry>, acts: seq<Action>, i: nat, j: nat, token: nat)
    requires IsRun(setup, run, acts) && Init(setup, run[0]) && i <= j < |run|
    requires token in run[i].reserved && forall m :: i <= m < j ==> acts[m] != Release(token)
    ensures token in run[j].reserved && run[j].reserved[token] == run[i].reserved[token]
    ensures Stands(run[j].workers, run[i].reserved[token])
    ensures CountOf(run[j].inflight, run[i].reserved[token].id) >= 1
    decreases j - i
  {
    hide Enabled, Step, Stands, Init, UniqueIds;
    if i < j {
      ReservedWorkersStay(setup, run, acts, i, j - 1, token);
      ReservationStep(setup, run[j - 1], acts[j - 1], token);
      assert run[j - 1 + 1] == Step(setup, run[j - 1], acts[j - 1]);
    }
    RunsAreSafe(setup, run, acts, j);
    assert token in TokensOn(run[j].reserved, run[i].reserved[token].id);
  }

  /** The state of a worker as the router reports it. */
  function Reported(s: Registry, w: Worker): Worker {
    w.(routerInflightRequests := CountOf(s.inflight, w.id))
  }

  /** A worker that is reported as safe to remove holds no request, and cannot be given one. */
  lemma SafeToRemoveIsTrue(setup: Setup, s: Registry, i: nat, token: nat)
    requires Safe(s) && i < |s.workers| && SafeToRemove(Reported(s, s.workers[i]))
    ensures TokensOn(s.reserved, s.workers[i].id) == {}
    ensures !Routable(s.workers[i]) && !Enabled(setup, s, Reserve(token, s.workers[i].id))
  {
    var id := s.workers[i].id;
    assert NaturalCounts(s.workers[i]) && CountOf(s.inflight, id) == |TokensOn(s.reserved, id)|;
    assert IndexOf(s.workers, id) == i;
  }

  ghost predicate IsDraining(s: Registry, id: string) {
    IndexOf(s.workers, id) >= 0 && s.workers[IndexOf(s.workers, id)].draining
  }

  /** Once a worker drains, its requests can only become fewer, until it is undrained or replaced. */
  lemma {:induction false} DrainingOnlyFalls(setup: Setup, run: seq<Registry>, acts: seq<Action>, i: nat, j: nat, id: string)
    requires IsRun(setup, run, acts) && i <= j < |run| && IsDraining(run[i], id)
    requires forall m :: i <= m < j ==> !acts[m].Replace? && !(acts[m].SetDrain? && acts[m].id == id && !acts[m].drain)
    ensures IsDraining(run[j], id) && TokensOn(run[j].reserved, id) <= TokensOn(run[i].reserved, id)
    decreases j - i
  {
    hide IndexOf;
    if i < j {
      DrainingOnlyFalls(setup, run, acts, i, j - 1, id);
      DrainStep(setup, run[j - 1], acts[j - 1], id);
      assert run[j - 1 + 1] == Step(setup, run[j - 1], acts[j - 1]);
    }
  }

  lemma DrainStep(setup: Setup, s: Registry, a: Action, id: string)
    requires Enabled(setup, s, a) && IsDraining(s, id)
    requires !a.Replace? && !(a.SetDrain? && a.id == id && !a.drain)
    ensures var t := Step(setup, s, a);
            IsDraining(t, id) && TokensOn(t.reserved, id) <= TokensOn(s.reserved, id)
  {
    var t := Step(setup, s, a);
    if a.SetDrain? {
      assert forall i :: 0 <= i < |s.workers| ==> t.workers[i].id == s.workers[i].id;
      SameIndex(s.workers, t.workers, id);
    }
  }

  lemma {:induction false} SameIndex(a: seq<Worker>, b: seq<Worker>, id: string)
    requires |a| == |b| && forall i :: 0 <= i < |a| ==> a[i].id == b[i].id
    ensures IndexOf(a, id) == IndexOf(b, id)
  {
    if a != [] {
      SameIndex(a[1..], b[1..], id);
    }
  }
}
