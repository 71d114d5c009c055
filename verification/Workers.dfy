/** Worker records as the router sees them: readiness, safe removal and the defaults of the configuration. */
module Workers {
  import opened Metadata

  datatype Topology = Topology(cloud: string, region: string, zone: string, clusterId: string, rack: string, nodeId: string)

  datatype Worker = Worker(
    id: string,
    url: string,
    health: string,
    readiness: string,
    draining: bool,
    queueDepth: int,
    activeDecodeBlocks: int,
    inflightRequests: int,
    routerInflightRequests: int,
    memoryPressure: real,
    gpuMemoryPressure: real,
    kvCachePressure: real,
    topology: Topology,
    lastUpdated: int)

  const READY := "ready"
  const DRAINING := "draining"
  const UNHEALTHY := "unhealthy"
  const NOT_READY := "not_ready"

  predicate Unknown(t: Topology) {
    t.cloud == "" || t.region == "" || t.zone == "" || t.clusterId == "" || t.nodeId == ""
  }

  predicate Routable(w: Worker) {
    if w.draining || w.health == DRAINING || w.health == UNHEALTHY then false
    else if w.readiness == "" || w.readiness == READY then w.health == "" || w.health == READY
    else false
  }

  function EffectiveInflight(w: Worker): int { w.inflightRequests + w.routerInflightRequests }

  predicate SafeToRemove(w: Worker) {
    w.draining && w.activeDecodeBlocks == 0 && EffectiveInflight(w) == 0 && w.queueDepth == 0
  }

  function ResourcePressure(w: Worker): (p: real)
    ensures p >= w.memoryPressure && p >= w.gpuMemoryPressure && p >= w.kvCachePressure
    ensures p == w.memoryPressure || p == w.gpuMemoryPressure || p == w.kvCachePressure
  {
    var p := if w.gpuMemoryPressure > w.memoryPressure then w.gpuMemoryPressure else w.memoryPressure;
    if w.kvCachePressure > p then w.kvCachePressure else p
  }

  function DefaultReadiness(health: string): string {
    if health == READY then READY
    else if health == DRAINING then DRAINING
    else if health == UNHEALTHY then UNHEALTHY
    else NOT_READY
  }

  /** Fill in what a worker record leaves open, and make the three ways to say "draining" agree. */
  function Normalize(w: Worker, fallback: Topology): (n: Worker)
    ensures n.id == w.id && n.url == w.url
    ensures n.queueDepth == w.queueDepth && n.activeDecodeBlocks == w.activeDecodeBlocks
    ensures n.inflightRequests == w.inflightRequests && n.routerInflightRequests == w.routerInflightRequests
    ensures n.health != "" && n.readiness != ""
    ensures n.draining == (n.health == DRAINING) == (n.readiness == DRAINING)
    ensures Routable(n) == Routable(w)
    ensures n.topology == if Unknown(w.topology) then fallback else w.topology
    ensures n.gpuMemoryPressure == w.gpuMemoryPressure && n.kvCachePressure == w.kvCachePressure
    ensures w.memoryPressure != 0.0 ==> n.memoryPressure == w.memoryPressure
    ensures w.memoryPressure == 0.0 ==>
              n.memoryPressure >= 0.0 && n.memoryPressure >= w.gpuMemoryPressure && n.memoryPressure >= w.kvCachePressure
              && (n.memoryPressure > 0.0 ==> n.memoryPressure == w.gpuMemoryPressure || n.memoryPressure == w.kvCachePressure)
  {
    var health := if w.health == "" then READY else w.health;
    var readiness := if w.readiness == "" then DefaultReadiness(health) else w.readiness;
    var draining := w.draining || health == DRAINING || readiness == DRAINING;
    w.(health := if draining then DRAINING else health,
       readiness := if draining then DRAINING else readiness,
       draining := draining,
       memoryPressure := if w.memoryPressure == 0.0 && (w.gpuMemoryPressure > 0.0 || w.kvCachePressure > 0.0) then ResourcePressure(w) else w.memoryPressure,
       topology := if Unknown(w.topology) then fallback else w.topology)
  }

  /** The same, field by field. */
  method NormalizeWorkerDefaults(w: Worker, fallback: Topology) returns (n: Worker)
    ensures n == Normalize(w, fallback)
  {
    n := w;
    if n.health == "" {
      n := n.(health := READY);
    }
    if n.readiness == "" {
      if n.health == READY {
        n := n.(readiness := READY);
      } else if n.health == DRAINING {
        n := n.(readiness := DRAINING, draining := true);
      } else if n.health == UNHEALTHY {
        n := n.(readiness := UNHEALTHY);
      } else {
        n := n.(readiness := NOT_READY);
      }
    }
    if n.draining || n.health == DRAINING || n.readiness == DRAINING {
      n := n.(draining := true, health := DRAINING, readiness := DRAINING);
    }
    if n.memoryPressure == 0.0 && (n.gpuMemoryPressure > 0.0 || n.kvCachePressure > 0.0) {
      n := n.(memoryPressure := ResourcePressure(n));
    }
    if Unknown(n.topology) {
      n := n.(topology := fallback);
    }
  }

  lemma NormalizeIsIdempotent(w: Worker, fallback: Topology)
    ensures Normalize(Normalize(w, fallback), fallback) == Normalize(w, fallback)
  {
    var n := Normalize(w, fallback);
    var again := Normalize(n, fallback);
    assert again.memoryPressure == n.memoryPressure;
    assert again.topology == n.topology;
    assert again.health == n.health && again.readiness == n.readiness && again.draining == n.draining;
    assert again == n.(health := n.health, readiness := n.readiness, draining := n.draining,
                       memoryPressure := n.memoryPressure, topology := n.topology);
  }

  // ----- lists of workers -----

  ghost predicate UniqueIds(ws: seq<Worker>) {
    forall i, j :: 0 <= i < j < |ws| ==> ws[i].id != ws[j].id
  }

  predicate Has(ws: seq<Worker>, id: string) {
    exists i :: 0 <= i < |ws| && ws[i].id == id
  }

  predicate NaturalCounts(w: Worker) {
    w.queueDepth >= 0 && w.activeDecodeBlocks >= 0 && w.inflightRequests >= 0
  }

  predicate Acceptable(w: Worker, validUrl: string -> bool) {
    w.id != "" && w.url != "" && validUrl(w.url) && w.routerInflightRequests == 0 && NaturalCounts(w)
  }

  ghost predicate ValidWorkers(ws: seq<Worker>, validUrl: string -> bool) {
    && ws != []
    && (forall i :: 0 <= i < |ws| ==> Acceptable(ws[i], validUrl))
    && UniqueIds(ws)
  }

  /** The count and uniqueness checks of a worker list. */
  method Validate(ws: seq<Worker>, validUrl: string -> bool) returns (r: Result<()>)
    ensures r.Ok? <==> ValidWorkers(ws, validUrl)
  {
    if ws == [] {
      return Err(InvalidArgument);
    }
    var ids := {};
    for i := 0 to |ws|
      invariant forall j :: 0 <= j < i ==> Acceptable(ws[j], validUrl)
      invariant forall j, k :: 0 <= j < k < i ==> ws[j].id != ws[k].id
      invariant forall id :: id in ids <==> exists j :: 0 <= j < i && ws[j].id == id
    {
      if ws[i].id == "" || ws[i].url == "" || !validUrl(ws[i].url) || ws[i].id in ids {
        return Err(InvalidArgument);
      }
      ids := ids + {ws[i].id};
      if ws[i].routerInflightRequests != 0 {
        return Err(InvalidArgument);
      }
      if ws[i].queueDepth < 0 || ws[i].activeDecodeBlocks < 0 || ws[i].inflightRequests < 0 {
        return Err(InvalidArgument);
      }
    }
    r := Ok(());
  }

  /** The old worker stands in the way of the new list: it changes identity, or leaves with work in hand. */
  predicate Blocks(w: Worker, newer: seq<Worker>, inflight: int) {
    if Has(newer, w.id) then exists i :: 0 <= i < |newer| && newer[i].id == w.id && (newer[i].url != w.url || newer[i].topology != w.topology)
    else !SafeToRemove(w.(routerInflightRequests := inflight))
  }

  function CountOf(inflight: map<string, int>, id: string): int { if id in inflight then inflight[id] else 0 }

  /** The ids of the old workers that block a replacement, in order. */
  function Blocked(older: seq<Worker>, newer: seq<Worker>, inflight: map<string, int>): seq<string> {
    if older == [] then []
    else
      var w := older[|older| - 1];
      Blocked(older[..|older| - 1], newer, inflight) + if Blocks(w, newer, CountOf(inflight, w.id)) then [w.id] else []
  }

  lemma {:induction false} NobodyBlocks(older: seq<Worker>, newer: seq<Worker>, inflight: map<string, int>)
    ensures Blocked(older, newer, inflight) == [] <==>
              forall i :: 0 <= i < |older| ==> !Blocks(older[i], newer, CountOf(inflight, older[i].id))
  {
    if older != [] {
      NobodyBlocks(older[..|older| - 1], newer, inflight);
    }
  }

  method WorkerReplacementConflicts(older: seq<Worker>, newer: seq<Worker>, inflight: map<string, int>) returns (blocked: seq<string>)
    requires UniqueIds(newer)
    ensures blocked == Blocked(older, newer, inflight)
  {
    hide Blocked;
    var next := map[];
    for i := 0 to |newer|
      invariant forall id :: id in next <==> exists j :: 0 <= j < i && newer[j].id == id
      invariant forall j :: 0 <= j < i ==> newer[j].id in next && next[newer[j].id] == newer[j]
    {
      next := next[newer[i].id := newer[i]];
    }
    blocked := [];
    assert Blocked(older[..0], newer, inflight) == [] by { NoneBlocked(older, newer, inflight); }
    for i := 0 to |older|
      invariant blocked == Blocked(older[..i], newer, inflight)
    {
      var w := older[i];
      BlockedGrows(older, newer, inflight, i);
      if w.id in next {
        if w.url != next[w.id].url || w.topology != next[w.id].topology {
          blocked := blocked + [w.id];
        }
      } else if !SafeToRemove(w.(routerInflightRequests := CountOf(inflight, w.id))) {
        blocked := blocked + [w.id];
      }
    }
    assert older[..|older|] == older;
  }

  lemma NoneBlocked(older: seq<Worker>, newer: seq<Worker>, inflight: map<string, int>)
    ensures Blocked(older[..0], newer, inflight) == []
  {}

  lemma BlockedGrows(older: seq<Worker>, newer: seq<Worker>, inflight: map<string, int>, i: nat)
    requires i < |older|
    ensures Blocked(older[..i + 1], newer, inflight)
         == Blocked(older[..i], newer, inflight) + if Blocks(older[i], newer, CountOf(inflight, older[i].id)) then [older[i].id] else []
  {
    assert older[..i + 1][..i] == older[..i];
  }

  method RemovedWorkerIDs(older: seq<Worker>, newer: seq<Worker>) returns (removed: seq<string>)
    ensures forall id :: id in removed <==> Has(older, id) && !Has(newer, id)
  {
    var next := {};
    for i := 0 to |newer|
      invariant forall id :: id in next <==> exists j :: 0 <= j < i && newer[j].id == id
    {
      next := next + {newer[i].id};
    }
    removed := [];
    for i := 0 to |older|
      invariant forall id :: id in removed <==> (exists j :: 0 <= j < i && older[j].id == id) && !Has(newer, id)
    {
      if older[i].id !in next {
        removed := removed + [older[i].id];
      }
    }
  }
}
