/** The eviction controller: free a number of bytes, oldest blocks first. */
module Eviction {
  import opened Metadata
  import opened Rows
  import opened Accounting
  import opened Store
  import opened KvProtocol
  import opened KvInvariant
  import opened KvRuns
  import opened FileTier
  import opened Loading

  datatype EvictionResult = EvictionResult(blocks: nat, bytes: int, stillOver: int)

  /** Of a batch taken from `start`, the first `n` are gone and nothing else happened. */
  ghost predicate BatchDone(start: Table, now: Table, batch: seq<RowKey>, n: int) {
    0 <= n <= |batch| && now == Without(start, batch[..n])
  }

  lemma BatchContinues(start: Table, now: Table, batch: seq<RowKey>, n: int)
    requires BatchDone(start, now, batch, n) && n < |batch|
    ensures BatchDone(start, now - {batch[n]}, batch, n + 1)
  {
    assert batch[..n + 1][..n] == batch[..n];
  }

  /** The next of the batch is the oldest evictable row of the table as it is by then. */
  lemma NextIsOldest(start: Table, now: Table, epoch: string, limit: nat, batch: seq<RowKey>, n: int)
    requires IsLruPrefix(start, Nvme, epoch, limit, batch) && BatchDone(start, now, batch, n) && n < |batch|
    ensures batch[n] in EvictableKeys(now, Nvme, epoch)
    ensures forall rk :: rk in EvictableKeys(now, Nvme, epoch) ==> now[batch[n]].lastAccess <= now[rk].lastAccess
  {
    WithoutRows(start, batch[..n], batch[n]);
    forall rk | rk in EvictableKeys(now, Nvme, epoch)
      ensures rk in start && now[rk] == start[rk] && start[batch[n]].lastAccess <= start[rk].lastAccess
    {
      WithoutRows(start, batch[..n], rk);
      assert rk in EvictableKeys(start, Nvme, epoch);
      assert rk !in batch[..n] && forall i :: 0 <= i < n ==> batch[i] in batch[..n];
    }
  }

  /** One more victim: the order, the books and the measure of the loop. */
  lemma VictimCounted(rows: Table, mid: Table, epoch: string, goal: int, victims: seq<RowKey>, victim: RowKey)
    requires IsEviction(rows, mid, epoch, goal, BytesUsed(rows, Nvme), victims)
    requires victim in EvictableKeys(mid, Nvme, epoch)
    requires forall rk :: rk in EvictableKeys(mid, Nvme, epoch) ==> mid[victim].lastAccess <= mid[rk].lastAccess
    requires BytesUsed(mid, Nvme) + goal > BytesUsed(rows, Nvme)
    ensures IsEviction(rows, mid - {victim}, epoch, goal, BytesUsed(rows, Nvme), victims + [victim])
    ensures BytesUsed(mid - {victim}, Nvme) == BytesUsed(mid, Nvme) - mid[victim].bytes
    ensures |EvictableKeys(mid - {victim}, Nvme, epoch)| < |EvictableKeys(mid, Nvme, epoch)|
  {
    hide OldestFirst, NoneTooMany, BytesUsed;
    OneMoreEvicted(rows, mid, epoch, goal, BytesUsed(rows, Nvme), victims, victim);
    UsageAfterRemoval(mid, victim);
    assert EvictableKeys(mid - {victim}, Nvme, epoch) == EvictableKeys(mid, Nvme, epoch) - {victim};
  }

  /** The books of the controller: what is gone, in which order, and how many bytes that were. */
  ghost predicate Books(rows: Table, now: Table, epoch: string, goal: int, blocks: int, bytes: int, victims: seq<RowKey>) {
    && IsEviction(rows, now, epoch, goal, BytesUsed(rows, Nvme), victims)
    && BytesUsed(now, Nvme) == BytesUsed(rows, Nvme) - bytes
    && blocks == |victims|
  }

  lemma EmptyBooks(rows: Table, epoch: string, goal: int)
    ensures Books(rows, rows, epoch, goal, 0, 0, [])
  {
    NothingEvicted(rows, epoch, goal, BytesUsed(rows, Nvme));
  }

  lemma VictimBooked(rows: Table, mid: Table, epoch: string, goal: int, blocks: int, bytes: int, victims: seq<RowKey>, victim: RowKey)
    requires Books(rows, mid, epoch, goal, blocks, bytes, victims) && bytes < goal
    requires victim in EvictableKeys(mid, Nvme, epoch)
    requires forall rk :: rk in EvictableKeys(mid, Nvme, epoch) ==> mid[victim].lastAccess <= mid[rk].lastAccess
    ensures Books(rows, mid - {victim}, epoch, goal, blocks + 1, bytes + mid[victim].bytes, victims + [victim])
    ensures |EvictableKeys(mid - {victim}, Nvme, epoch)| < |EvictableKeys(mid, Nvme, epoch)|
  {
    hide IsEviction, BytesUsed;
    VictimCounted(rows, mid, epoch, goal, victims, victim);
  }

  lemma EvictIsHealthy(cfg: Tiers.Config, s: Sys, rk: RowKey)
    requires Inv(cfg, s) && s.mutator.Idle? && rk in EvictableKeys(s.rows, Nvme, s.epoch)
    ensures Compactor !in s.holders && rk == Rk(rk.key) && Tiers.Canonical(cfg, rk, s.rows[rk].uri)
  {
    hide Inv;
    CandidateIsCanonical(cfg, s, rk);
  }

  /** Evict one row that nobody reads. */
  method EvictOne(tier: NvmeTier, victim: RowKey) returns (r: Result<bool>, ghost run: seq<Sys>, ghost acts: seq<Action>)
    requires FaithfulCodec(tier.cfg.codec) && Inv(tier.cfg, tier.View())
    requires victim in EvictableKeys(tier.db.rows, Nvme, tier.db.epoch)
    modifies tier`disk, tier.db`rows
    ensures Inv(tier.cfg, tier.View()) && Leads(tier.cfg, old(tier.View()), run, acts, tier.View())
    ensures r.Err? ==> tier.stuck != {}
    ensures r.Ok? ==> r.value && tier.db.rows == old(tier.db.rows) - {victim}
  {
    hide Leads, Inv, Tiers.Canonical;
    EvictIsHealthy(tier.cfg, tier.View(), victim);
    r, run, acts := tier.Evict(victim.key);
    LeadsKeepsInv(tier.cfg, old(tier.View()), run, acts, tier.View());
  }

  /** Evict the rows of a batch, in order, until enough bytes are gone. */
  method EvictBatch(tier: NvmeTier, batch: seq<RowKey>, goal: int, blocks0: nat, bytes0: int,
                    ghost limit: nat, ghost rows: Table, ghost victims0: seq<RowKey>)
    returns (r: Result<(nat, int)>, ghost victims: seq<RowKey>, ghost run: seq<Sys>, ghost acts: seq<Action>)
    requires FaithfulCodec(tier.cfg.codec) && Inv(tier.cfg, tier.View())
    requires IsLruPrefix(tier.db.rows, Nvme, tier.db.epoch, limit, batch) && batch != [] && bytes0 < goal
    requires Books(rows, tier.db.rows, tier.db.epoch, goal, blocks0, bytes0, victims0)
    modifies tier`disk, tier.db`rows
    ensures Inv(tier.cfg, tier.View()) && Leads(tier.cfg, old(tier.View()), run, acts, tier.View())
    ensures r.Err? ==> tier.stuck != {}
    ensures r.Ok? ==> Books(rows, tier.db.rows, tier.db.epoch, goal, r.value.0, r.value.1, victims)
    ensures r.Ok? ==> |EvictableKeys(tier.db.rows, Nvme, tier.db.epoch)| < |EvictableKeys(old(tier.db.rows), Nvme, tier.db.epoch)|
  {
    hide Leads, Inv, Books, BatchDone, IsLruPrefix, FaithfulCodec;
    ghost var s, start := tier.View(), tier.db.rows;
    Standing(tier.cfg, s);
    run, acts, victims := [s], [], victims0;
    var blocks, bytes, i := blocks0, bytes0, 0;
    assert BatchDone(start, start, batch, 0) by { BatchStarts(start, batch); }
    while i < |batch| && bytes < goal
      invariant 0 <= i <= |batch| && BatchDone(start, tier.db.rows, batch, i)
      invariant Inv(tier.cfg, tier.View()) && Leads(tier.cfg, s, run, acts, tier.View())
      invariant Books(rows, tier.db.rows, tier.db.epoch, goal, blocks, bytes, victims)
      invariant i == 0 ==> tier.db.rows == start && bytes < goal
      invariant i > 0 ==> |EvictableKeys(tier.db.rows, Nvme, tier.db.epoch)| < |EvictableKeys(start, Nvme, tier.db.epoch)|
    {
      ghost var before := tier.View();
      NextIsOldest(start, tier.db.rows, tier.db.epoch, limit, batch, i);
      VictimBooked(rows, tier.db.rows, tier.db.epoch, goal, blocks, bytes, victims, batch[i]);
      BatchContinues(start, tier.db.rows, batch, i);
      var size := tier.db.rows[batch[i]].bytes;
      var removed, run', acts' := EvictOne(tier, batch[i]);
      RunsJoin(tier.cfg, s, run, acts, before, run', acts', tier.View());
      run, acts := run + run'[1..], acts + acts';
      if removed.Err? {
        return Err(removed.error), victims, run, acts;
      }
      victims := victims + [batch[i]];
      blocks, bytes, i := blocks + 1, bytes + size, i + 1;
    }
    r := Ok((blocks, bytes));
  }

  lemma BatchStarts(start: Table, batch: seq<RowKey>)
    ensures BatchDone(start, start, batch, 0)
  {}

  /**
   Evict batch after batch until `bytesToFree` bytes are gone or nothing can be evicted.

   The usage of the tier drops by exactly the bytes reported. Victims go oldest first and not one
   more than needed. With batches of at least one row a shortfall means that no evictable row is
   left; a batch size of zero evicts nothing.
   */
  method EvictBytes(tier: NvmeTier, bytesToFree: int, batchSize: nat)
    returns (r: Result<EvictionResult>, ghost victims: seq<RowKey>, ghost run: seq<Sys>, ghost acts: seq<Action>)
    requires FaithfulCodec(tier.cfg.codec) && Inv(tier.cfg, tier.View())
    modifies tier`disk, tier.db`rows
    ensures Inv(tier.cfg, tier.View()) && Leads(tier.cfg, old(tier.View()), run, acts, tier.View())
    ensures r.Err? ==> tier.stuck != {}
    ensures r.Ok? ==> Books(old(tier.db.rows), tier.db.rows, tier.db.epoch, bytesToFree, r.value.blocks, r.value.bytes, victims)
    ensures r.Ok? ==> r.value.stillOver == (if bytesToFree <= 0 || r.value.bytes >= bytesToFree then 0 else bytesToFree - r.value.bytes)
    ensures r.Ok? && batchSize >= 1 && r.value.stillOver > 0 ==> EvictableKeys(tier.db.rows, Nvme, tier.db.epoch) == {}
    ensures r.Ok? && (batchSize == 0 || bytesToFree <= 0) ==> victims == []
  {
    hide Leads, Inv, Books, FaithfulCodec;
    ghost var s, rows := tier.View(), tier.db.rows;
    Standing(tier.cfg, s);
    run, acts, victims := [s], [], [];
    EmptyBooks(rows, tier.db.epoch, bytesToFree);
    if bytesToFree <= 0 {
      return Ok(EvictionResult(0, 0, 0)), victims, run, acts;
    }
    var blocks, bytes := 0, 0;
    while bytes < bytesToFree
      invariant Inv(tier.cfg, tier.View()) && Leads(tier.cfg, s, run, acts, tier.View())
      invariant blocks >= 0 && Books(rows, tier.db.rows, tier.db.epoch, bytesToFree, blocks, bytes, victims)
      invariant batchSize == 0 ==> victims == []
      decreases |EvictableKeys(tier.db.rows, Nvme, tier.db.epoch)|
    {
      ghost var before := tier.View();
      var batch := tier.db.LruCandidates(Nvme, batchSize);
      if batch == [] {
        break;
      }
      var gone, more, run', acts' := EvictBatch(tier, batch, bytesToFree, blocks, bytes, batchSize, rows, victims);
      RunsJoin(tier.cfg, s, run, acts, before, run', acts', tier.View());
      run, acts := run + run'[1..], acts + acts';
      if gone.Err? {
        return Err(gone.error), victims, run, acts;
      }
      blocks, bytes, victims := gone.value.0, gone.value.1, more;
    }
    r := Ok(EvictionResult(blocks, bytes, if bytes < bytesToFree then bytesToFree - bytes else 0));
  }
}
