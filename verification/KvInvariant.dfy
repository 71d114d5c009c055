/** What every step of the protocol keeps, and what one step may do to a published block. */
module KvInvariant {
  import opened Metadata
  import opened Rows
  import opened Tiers
  import opened KvProtocol

  // ----- the invariant -----

  /** The row's location is canonical, and if the row is active its bytes are its complete record. */
  ghost predicate RowSound(cfg: Config, disk: Disk, rk: RowKey, row: Row) {
    && Canonical(cfg, rk, row.uri)
    && (row.state == Deleting ==> rk.tier != Memory)
    && (row.state == Active && rk.tier != Memory ==>
          Extent(disk, row.uri).Some? && Holds(cfg, rk, row.meta, Extent(disk, row.uri).value))
  }

  ghost predicate Placed(cfg: Config, s: Sys) {
    forall rk :: rk in s.rows ==> RowSound(cfg, s.disk, rk, s.rows[rk])
  }

  /** Data in process memory is published and is what its row says. */
  ghost predicate MemoryBacked(cfg: Config, s: Sys) {
    forall k :: k in s.mem ==>
      && IsActive(s.rows, RowKey(k, Memory))
      && |s.mem[k]| == s.rows[RowKey(k, Memory)].bytes
      && cfg.codec.sha256(s.mem[k]) == s.rows[RowKey(k, Memory)].checksum
  }

  function HoldersOf(holders: map<Holder, Hold>, rk: RowKey): set<Holder> {
    set h | h in holders && holders[h].rk == rk
  }

  /** The in-flight count of a row is the number of its holders. */
  ghost predicate Counted(s: Sys) {
    forall rk :: rk in s.rows ==> Held(s.rows[rk], s.epoch) == |HoldersOf(s.holders, rk)|
  }

  /** A held row is active, and a reader's row is still where and what it was when acquired. */
  ghost predicate Pinned(s: Sys) {
    forall h :: h in s.holders ==>
      && IsActive(s.rows, s.holders[h].rk)
      && (h.Reader? ==> s.rows[s.holders[h].rk].uri == s.holders[h].uri && Bytes(s, s.holders[h].rk) == Some(s.holders[h].bytes))
  }

  ghost predicate WriteOk(cfg: Config, disk: Disk, job: Job) {
    match job.write
    case NotStarted => true
    case Writing(uri, done) =>
      && job.rk.tier == Nvme && Canonical(cfg, job.rk, uri) && done <= |job.record|
      && (if cfg.segmented then
            && uri.recordBytes == |job.record|
            && uri.path in disk && |disk[uri.path]| == uri.offset + done
            && disk[uri.path][uri.offset..] == job.record[..done]
          else
            TempPath(job.rk.key) in disk && disk[TempPath(job.rk.key)] == job.record[..done])
    case Written(uri) => Canonical(cfg, job.rk, uri) && Extent(disk, uri) == Some(job.record)
  }

  ghost predicate JobOk(cfg: Config, disk: Disk, job: Job) {
    && job.rk.tier != Memory && ValidMetadata(job.meta) && job.meta.key == job.rk.key
    && Holds(cfg, job.rk, job.meta, job.record)
    && 0 < |job.record| <= MAX_RECORD_OVERHEAD + TierLimit(cfg, job.rk.tier)
    && WriteOk(cfg, disk, job)
  }

  /** Rows that compaction may still move: nobody reads them, and nobody can start to. */
  ghost predicate Unread(s: Sys, ks: set<RowKey>) {
    forall rk :: rk in ks ==> rk.tier == Nvme && IsActive(s.rows, rk) && HoldersOf(s.holders, rk) == {}
  }

  ghost predicate StoreOk(cfg: Config, s: Sys, job: Job) {
    JobOk(cfg, s.disk, job) && job.rk !in s.rows && DescriptorAgrees(s.rows, job.meta)
  }

  ghost predicate MoveOk(cfg: Config, s: Sys, job: Job) {
    && JobOk(cfg, s.disk, job) && job.rk.tier == Nvme
    && IsActive(s.rows, job.rk) && DescriptorAgrees(s.rows, job.meta)
    && HoldersOf(s.holders, job.rk) == {Compactor}
    && Some(PayloadOf(cfg, Nvme, job.record)) == Payload(cfg, s, job.rk)
  }

  ghost predicate MutatorOk(cfg: Config, s: Sys) {
    match s.mutator
    case Idle => Compactor !in s.holders
    case Storing(job) => Compactor !in s.holders && StoreOk(cfg, s, job)
    case Evicting(rk, _, resume) =>
      && Compactor !in s.holders && rk.tier != Memory && IsDeleting(s.rows, rk)
      && (resume.Idle? || (resume.Storing? && resume.job.write.NotStarted? && resume.job.rk != rk && StoreOk(cfg, s, resume.job)))
    case Compacting(todo, _) => cfg.segmented && Compactor !in s.holders && Unread(s, todo)
    case Moving(job, todo, _) => cfg.segmented && MoveOk(cfg, s, job) && Unread(s, todo)
    case Moved(rk, todo, _) => cfg.segmented && Compactor in s.holders && s.holders[Compactor].rk == rk && Unread(s, todo)
    case Sweeping => cfg.segmented && Compactor !in s.holders
  }

  /** Use counters and times are never negative, so a row's metadata stays valid in use. */
  ghost predicate Clocked(rows: Table) {
    forall rk :: rk in rows ==> rows[rk].reuseCount >= 0 && rows[rk].lastAccess >= 0
  }

  lemma CountersKeepMetadataValid(row: Row)
    requires ValidMetadata(row.meta) && row.reuseCount >= 0 && row.lastAccess >= 0
    ensures ValidMetadata(MovedMeta(row))
  {}

  /** The part that speaks of published blocks and their readers. */
  ghost predicate Core(cfg: Config, s: Sys) {
    && s.epoch != ""
    && Consistent(s.rows) && Clocked(s.rows) && Placed(cfg, s) && MemoryBacked(cfg, s)
    && Counted(s) && Pinned(s)
  }

  ghost predicate Inv(cfg: Config, s: Sys) {
    Core(cfg, s) && MutatorOk(cfg, s)
  }

  // ----- what one step may do -----

  /** While a key has a row anywhere its descriptor is fixed. */
  ghost predicate DescriptorsKept(s: Sys, t: Sys) {
    forall a, b :: a in s.rows && b in t.rows && a.key == b.key ==>
      PayloadDescriptor(s.rows[a].meta) == PayloadDescriptor(t.rows[b].meta)
  }

  /** A tombstone can only stay as it is or vanish. */
  ghost predicate TombstonesKept(s: Sys, t: Sys) {
    forall rk :: IsDeleting(s.rows, rk) && rk in t.rows ==> IsDeleting(t.rows, rk) && t.rows[rk].uri == s.rows[rk].uri
  }

  /** A row that stays active keeps its payload, wherever the bytes move to. */
  ghost predicate PayloadsKept(cfg: Config, s: Sys, t: Sys) {
    forall rk :: IsActive(s.rows, rk) && IsActive(t.rows, rk) && Payload(cfg, t, rk).Some? ==>
      Payload(cfg, s, rk) == Payload(cfg, t, rk)
  }

  ghost predicate Safe(cfg: Config, s: Sys, t: Sys) {
    DescriptorsKept(s, t) && TombstonesKept(s, t) && PayloadsKept(cfg, s, t)
  }

  // ----- framing -----

  /** Rows kept all that matters for the bytes behind them. */
  ghost predicate SameRow(a: Row, b: Row) {
    a.uri == b.uri && a.meta == b.meta && a.bytes == b.bytes && a.checksum == b.checksum && a.state == b.state
  }

  ghost predicate SameRows(rows: Table, after: Table) {
    && rows.Keys == after.Keys
    && forall rk :: rk in rows ==> SameRow(rows[rk], after[rk])
  }

  /** The disk still shows every active row what it showed before. */
  ghost predicate DiskKept(s: Sys, disk: Disk) {
    forall rk :: IsActive(s.rows, rk) && rk.tier != Memory ==> Extent(disk, s.rows[rk].uri) == Extent(s.disk, s.rows[rk].uri)
  }

  lemma BytesKept(s: Sys, t: Sys, rk: RowKey)
    requires SameRows(s.rows, t.rows) && DiskKept(s, t.disk) && t.mem == s.mem
    requires IsActive(s.rows, rk)
    ensures IsActive(t.rows, rk) && Bytes(t, rk) == Bytes(s, rk)
  {}

  lemma PlacedKept(cfg: Config, s: Sys, t: Sys)
    requires Placed(cfg, s) && SameRows(s.rows, t.rows) && DiskKept(s, t.disk)
    ensures Placed(cfg, t)
  {
    forall rk | rk in t.rows
      ensures RowSound(cfg, t.disk, rk, t.rows[rk])
    {
      assert RowSound(cfg, s.disk, rk, s.rows[rk]);
      assert SameRow(s.rows[rk], t.rows[rk]);
      assert IsActive(s.rows, rk) <==> s.rows[rk].state == Active;
    }
  }

  lemma SafeKept(cfg: Config, s: Sys, t: Sys)
    requires Consistent(s.rows) && SameRows(s.rows, t.rows) && DiskKept(s, t.disk) && t.mem == s.mem
    ensures Safe(cfg, s, t)
  {
    forall rk | IsActive(s.rows, rk) && IsActive(t.rows, rk)
      ensures Payload(cfg, s, rk) == Payload(cfg, t, rk)
    {
      BytesKept(s, t, rk);
    }
  }

  /** What a reader may hold: a row that is there now, or what it already held. */
  ghost predicate FairHold(s: Sys, hold: Hold) {
    IsActive(s.rows, hold.rk) && hold.uri == s.rows[hold.rk].uri && Bytes(s, hold.rk) == Some(hold.bytes)
  }

  ghost predicate FairHolders(s: Sys, holders: map<Holder, Hold>) {
    forall h :: h in holders ==> IsActive(s.rows, holders[h].rk) && (h.Reader? ==> FairHold(s, holders[h]))
  }

  /** A step that changes counters and disk only: all that is left to show are the counts. */
  lemma QuietStep(cfg: Config, s: Sys, t: Sys)
    requires Core(cfg, s)
    requires SameRows(s.rows, t.rows) && DiskKept(s, t.disk) && t.mem == s.mem && t.epoch == s.epoch
    requires FairHolders(s, t.holders) && Counted(t) && Clocked(t.rows)
    ensures Core(cfg, t) && Safe(cfg, s, t)
  {
    hide Consistent, Clocked, Placed, Safe, Counted, Extent;
    BookkeepingKeepsConsistent(s.rows, t.rows);
    PlacedKept(cfg, s, t);
    SafeKept(cfg, s, t);
    assert MemoryBacked(cfg, t) by {
      forall k | k in t.mem
        ensures SameRow(s.rows[RowKey(k, Memory)], t.rows[RowKey(k, Memory)])
      {}
    }
    forall h | h in t.holders
      ensures IsActive(t.rows, t.holders[h].rk)
      ensures h.Reader? ==> t.rows[t.holders[h].rk].uri == t.holders[h].uri && Bytes(t, t.holders[h].rk) == Some(t.holders[h].bytes)
    {
      BytesKept(s, t, t.holders[h].rk);
    }
  }

  lemma HoldersAdd(holders: map<Holder, Hold>, h: Holder, hold: Hold, rk: RowKey)
    requires h !in holders
    ensures |HoldersOf(holders[h := hold], rk)| == |HoldersOf(holders, rk)| + (if hold.rk == rk then 1 else 0)
  {
    var after := HoldersOf(holders[h := hold], rk);
    assert after == HoldersOf(holders, rk) + (if hold.rk == rk then {h} else {});
  }

  lemma HoldersDrop(holders: map<Holder, Hold>, h: Holder, rk: RowKey)
    requires h in holders
    ensures |HoldersOf(holders, rk)| == |HoldersOf(holders - {h}, rk)| + (if holders[h].rk == rk then 1 else 0)
  {
    assert HoldersOf(holders, rk) == HoldersOf(holders - {h}, rk) + (if holders[h].rk == rk then {h} else {});
  }
}
