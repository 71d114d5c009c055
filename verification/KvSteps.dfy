/** Each step keeps the invariant and is safe for published blocks. */
module KvSteps {
  import opened Identity
  import opened Metadata
  import opened Rows
  import opened Tiers
  import opened KvProtocol
  import opened KvInvariant

  // ----- changes on disk -----

  function UriPath(uri: Uri): Option<Path> {
    match uri
    case FileUri(p) => Some(p)
    case SegmentUri(p, _, _) => Some(p)
    case ObjectUri(p) => Some(p)
    case MemoryUri(_) => None
    case OtherUri(_) => None
  }

  ghost predicate SameElsewhere(disk: Disk, after: Disk, x: Path) {
    forall p :: p != x ==> (p in disk <==> p in after) && (p in disk ==> disk[p] == after[p])
  }

  /** No active row lies on `x`. */
  ghost predicate Free(s: Sys, x: Path) {
    forall rk :: IsActive(s.rows, rk) && rk.tier != Memory ==> UriPath(s.rows[rk].uri) != Some(x)
  }

  lemma ChangeOfFreePath(s: Sys, disk: Disk, x: Path)
    requires SameElsewhere(s.disk, disk, x) && Free(s, x)
    ensures DiskKept(s, disk)
  {
    forall rk | IsActive(s.rows, rk) && rk.tier != Memory
      ensures Extent(disk, s.rows[rk].uri) == Extent(s.disk, s.rows[rk].uri)
    {
      var uri := s.rows[rk].uri;
      assert UriPath(uri) != Some(x);
    }
  }

  /** Appending to a file leaves every range that was in it as it was. */
  lemma AppendKeepsExtent(disk: Disk, after: Disk, path: Path, extra: seq<Byte>, uri: Uri)
    requires after == disk[path := (if path in disk then disk[path] else []) + extra]
    requires Extent(disk, uri).Some? && (uri.SegmentUri? || UriPath(uri) != Some(path))
    ensures Extent(after, uri) == Extent(disk, uri)
  {
    if uri.SegmentUri? && uri.path == path {
      assert after[path][uri.offset..uri.offset + uri.recordBytes] == disk[path][uri.offset..uri.offset + uri.recordBytes];
    }
  }

  lemma AppendKeepsDisk(cfg: Config, s: Sys, path: Path, extra: seq<Byte>)
    requires Placed(cfg, s) && path.SegmentFile?
    ensures DiskKept(s, s.disk[path := (if path in s.disk then s.disk[path] else []) + extra])
  {
    hide Extent, Holds;
    var disk := s.disk[path := (if path in s.disk then s.disk[path] else []) + extra];
    forall rk | IsActive(s.rows, rk) && rk.tier != Memory
      ensures Extent(disk, s.rows[rk].uri) == Extent(s.disk, s.rows[rk].uri)
    {
      assert RowSound(cfg, s.disk, rk, s.rows[rk]);
      AppendKeepsExtent(s.disk, disk, path, extra, s.rows[rk].uri);
    }
  }

  lemma TempIsFree(cfg: Config, s: Sys, k: BlockKey)
    requires Placed(cfg, s)
    ensures Free(s, TempPath(k))
  {
    forall rk | IsActive(s.rows, rk) && rk.tier != Memory
      ensures UriPath(s.rows[rk].uri) != Some(TempPath(k))
    {
      assert RowSound(cfg, s.disk, rk, s.rows[rk]);
    }
  }

  /** The file of a key with no active row of its own belongs to nobody: paths are injective. */
  lemma BlockPathIsFree(cfg: Config, s: Sys, rk: RowKey)
    requires Placed(cfg, s) && rk.tier == Nvme && !IsActive(s.rows, rk)
    ensures Free(s, BlockPath(rk.key))
  {
    forall other | IsActive(s.rows, other) && other.tier != Memory
      ensures UriPath(s.rows[other].uri) != Some(BlockPath(rk.key))
    {
      assert RowSound(cfg, s.disk, other, s.rows[other]);
      if UriPath(s.rows[other].uri) == Some(BlockPath(rk.key)) {
        StoragePathInjective(other.key, rk.key);
      }
    }
  }

  lemma ObjectPathIsFree(cfg: Config, s: Sys, rk: RowKey)
    requires Placed(cfg, s) && rk.tier == S3 && !IsActive(s.rows, rk)
    ensures Free(s, ObjectPath(rk.key))
  {
    forall other | IsActive(s.rows, other) && other.tier != Memory
      ensures UriPath(s.rows[other].uri) != Some(ObjectPath(rk.key))
    {
      assert RowSound(cfg, s.disk, other, s.rows[other]);
      if UriPath(s.rows[other].uri) == Some(ObjectPath(rk.key)) {
        StoragePathInjective(other.key, rk.key);
      }
    }
  }

  /** A step that leaves rows and readers alone. */
  lemma DiskStep(cfg: Config, s: Sys, t: Sys)
    requires Core(cfg, s)
    requires t.rows == s.rows && t.holders == s.holders && t.mem == s.mem && t.epoch == s.epoch
    requires DiskKept(s, t.disk)
    ensures Core(cfg, t) && Safe(cfg, s, t)
  {
    hide Consistent, Clocked, Placed, MemoryBacked, Pinned, Safe, Bytes;
    HoldersAreFair(s);
    QuietStep(cfg, s, t);
  }

  // ----- readers -----

  lemma RowsOfAcquire(rows: Table, rk: RowKey, epoch: string, r: RowKey)
    requires IsActive(rows, rk) && r in rows
    ensures r in Acquired(rows, rk, epoch) && SameRow(rows[r], Acquired(rows, rk, epoch)[r])
    ensures Held(Acquired(rows, rk, epoch)[r], epoch) == Held(rows[r], epoch) + (if r == rk then 1 else 0)
  {}

  lemma RowsOfRelease(rows: Table, rk: RowKey, epoch: string, r: RowKey)
    requires rk in rows && Held(rows[rk], epoch) > 0 && r in rows
    ensures r in Released(rows, rk, epoch) && SameRow(rows[r], Released(rows, rk, epoch)[r])
    ensures Held(rows[r], epoch) == Held(Released(rows, rk, epoch)[r], epoch) + (if r == rk then 1 else 0)
  {}

  lemma ClocksInUse(rows: Table, rk: RowKey, epoch: string)
    requires Clocked(rows)
    ensures Clocked(Acquired(rows, rk, epoch)) && Clocked(Released(rows, rk, epoch))
  {}

  lemma TakeHoldCounts(s: Sys, t: Sys, h: Holder, hold: Hold)
    requires Counted(s) && h !in s.holders && IsActive(s.rows, hold.rk)
    requires t.rows == Acquired(s.rows, hold.rk, s.epoch) && t.holders == s.holders[h := hold] && t.epoch == s.epoch
    ensures Counted(t) && SameRows(s.rows, t.rows)
  {
    forall r | r in s.rows
      ensures SameRow(s.rows[r], t.rows[r]) && Held(t.rows[r], t.epoch) == |HoldersOf(t.holders, r)|
    {
      RowsOfAcquire(s.rows, hold.rk, s.epoch, r);
      HoldersAdd(s.holders, h, hold, r);
    }
  }

  lemma HoldersAreFair(s: Sys)
    requires Pinned(s)
    ensures FairHolders(s, s.holders)
  {}

  /** One more holder and one more in flight. */
  lemma TakeHold(cfg: Config, s: Sys, t: Sys, h: Holder, hold: Hold)
    requires Core(cfg, s) && h !in s.holders && FairHold(s, hold)
    requires t.rows == Acquired(s.rows, hold.rk, s.epoch) && t.holders == s.holders[h := hold]
    requires t.disk == s.disk && t.mem == s.mem && t.epoch == s.epoch
    ensures Core(cfg, t) && Safe(cfg, s, t) && SameRows(s.rows, t.rows)
  {
    hide Consistent, Clocked, Placed, MemoryBacked, Counted, Pinned, Safe, SameRows, Bytes;
    ClocksInUse(s.rows, hold.rk, s.epoch);
    TakeHoldCounts(s, t, h, hold);
    HoldersAreFair(s);
    QuietStep(cfg, s, t);
  }

  lemma AcquireIsSafe(cfg: Config, s: Sys, reader: nat, rk: RowKey)
    requires Inv(cfg, s) && CanAcquire(s, reader, rk)
    ensures Inv(cfg, DoAcquire(s, reader, rk)) && Safe(cfg, s, DoAcquire(s, reader, rk))
  {
    hide Consistent, Clocked, Placed, MemoryBacked, Counted, Pinned, Safe, Extent, Acquired;
    var t := DoAcquire(s, reader, rk);
    TakeHold(cfg, s, t, Reader(reader), t.holders[Reader(reader)]);
  }

  /** The mutator's own invariant does not notice readers that leave or touch. */
  lemma MutatorUndisturbed(cfg: Config, s: Sys, t: Sys)
    requires MutatorOk(cfg, s) && SameRows(s.rows, t.rows)
    requires t.disk == s.disk && t.mem == s.mem && t.mutator == s.mutator
    requires Compactor in s.holders <==> Compactor in t.holders
    requires forall h :: h in t.holders ==> h in s.holders && t.holders[h] == s.holders[h]
    ensures MutatorOk(cfg, t)
  {
    hide StoreOk, MoveOk, Unread;
    match s.mutator
    case Idle =>
    case Storing(job) => StoreUndisturbed(cfg, s, t, job);
    case Evicting(rk, _, resume) =>
      if resume.Storing? && resume.job.write.NotStarted? && resume.job.rk != rk {
        StoreUndisturbed(cfg, s, t, resume.job);
      }
    case Compacting(todo, _) => UnreadKept(s, t, todo);
    case Moving(job, todo, _) =>
      UnreadKept(s, t, todo);
      MoveUndisturbed(cfg, s, t, job);
    case Moved(rk, todo, _) => UnreadKept(s, t, todo);
    case Sweeping =>
  }

  lemma UnreadKept(s: Sys, t: Sys, todo: set<RowKey>)
    requires Unread(s, todo) && SameRows(s.rows, t.rows)
    requires forall h :: h in t.holders ==> h in s.holders && t.holders[h] == s.holders[h]
    ensures Unread(t, todo)
  {
    forall rk ensures HoldersOf(t.holders, rk) <= HoldersOf(s.holders, rk) {}
  }

  lemma MoveUndisturbed(cfg: Config, s: Sys, t: Sys, job: Job)
    requires MoveOk(cfg, s, job) && SameRows(s.rows, t.rows) && t.disk == s.disk && t.mem == s.mem
    requires Compactor in s.holders <==> Compactor in t.holders
    requires forall h :: h in t.holders ==> h in s.holders && t.holders[h] == s.holders[h]
    ensures MoveOk(cfg, t, job)
  {
    hide JobOk, PayloadOf, Extent, DescriptorAgrees;
    AgreementKept(s.rows, t.rows, job.meta);
    assert SameRow(s.rows[job.rk], t.rows[job.rk]);
    assert Compactor in HoldersOf(s.holders, job.rk);
    assert HoldersOf(t.holders, job.rk) == {Compactor};
  }

  lemma AgreementKept(rows: Table, after: Table, m: KVMetadata)
    requires DescriptorAgrees(rows, m)
    requires forall rk :: rk in after ==> rk in rows && after[rk].meta == rows[rk].meta
    ensures DescriptorAgrees(after, m)
  {
    forall tier: Tier | RowKey(m.key, tier) in after
      ensures PayloadDescriptor(after[RowKey(m.key, tier)].meta) == PayloadDescriptor(m)
    {
      assert RowKey(m.key, tier) in rows;
    }
  }

  lemma TouchedRows(rows: Table, rk: RowKey, now: Time, epoch: string, r: RowKey)
    requires r in rows
    ensures r in Touched(rows, rk, now) && SameRow(rows[r], Touched(rows, rk, now)[r])
    ensures Held(Touched(rows, rk, now)[r], epoch) == Held(rows[r], epoch)
  {}

  lemma TouchedClocks(rows: Table, rk: RowKey, now: Time)
    requires Clocked(rows) && now >= 0
    ensures Clocked(Touched(rows, rk, now))
  {}

  lemma TouchedRowIsTwin(cfg: Config, s: Sys, rk: RowKey, now: Time)
    requires Core(cfg, s) && now >= 0
    ensures var t := s.(rows := Touched(s.rows, rk, now)); Core(cfg, t) && Safe(cfg, s, t) && SameRows(s.rows, t.rows)
  {
    hide Consistent, Placed, Pinned, MemoryBacked, Safe, Clocked, Bytes;
    var t := s.(rows := Touched(s.rows, rk, now));
    forall r | r in s.rows
      ensures r in t.rows && SameRow(s.rows[r], t.rows[r]) && Held(t.rows[r], t.epoch) == Held(s.rows[r], s.epoch)
    {
      TouchedRows(s.rows, rk, now, s.epoch, r);
    }
    TouchedClocks(s.rows, rk, now);
    HoldersAreFair(s);
    QuietStep(cfg, s, t);
  }

  lemma TouchIsSafe(cfg: Config, s: Sys, reader: nat, now: Time)
    requires Inv(cfg, s) && Reader(reader) in s.holders && now >= 0
    ensures Inv(cfg, DoTouch(s, reader, now)) && Safe(cfg, s, DoTouch(s, reader, now))
  {
    hide Core, MutatorOk, Safe, Touched;
    TouchedRowIsTwin(cfg, s, s.holders[Reader(reader)].rk, now);
    MutatorUndisturbed(cfg, s, DoTouch(s, reader, now));
  }

  lemma LeaveHoldCounts(s: Sys, h: Holder)
    requires Counted(s) && Pinned(s) && h in s.holders
    ensures Counted(DropHolder(s, h)) && SameRows(s.rows, DropHolder(s, h).rows)
  {
    hide Bytes;
    var t := DropHolder(s, h);
    var rk := s.holders[h].rk;
    assert IsActive(s.rows, rk) && h in HoldersOf(s.holders, rk);
    assert Held(s.rows[rk], s.epoch) == |HoldersOf(s.holders, rk)| > 0;
    forall r | r in s.rows
      ensures r in t.rows && SameRow(s.rows[r], t.rows[r]) && Held(t.rows[r], t.epoch) == |HoldersOf(t.holders, r)|
    {
      RowsOfRelease(s.rows, rk, s.epoch, r);
      HoldersDrop(s.holders, h, r);
    }
  }

  /** One holder less and one less in flight. */
  lemma LeaveHold(cfg: Config, s: Sys, h: Holder)
    requires Core(cfg, s) && h in s.holders
    ensures Core(cfg, DropHolder(s, h)) && Safe(cfg, s, DropHolder(s, h))
    ensures SameRows(s.rows, DropHolder(s, h).rows)
  {
    hide Consistent, Clocked, Placed, MemoryBacked, Counted, Pinned, Safe, SameRows, Bytes, Released;
    ClocksInUse(s.rows, s.holders[h].rk, s.epoch);
    LeaveHoldCounts(s, h);
    HoldersAreFair(s);
    QuietStep(cfg, s, DropHolder(s, h));
  }

  lemma ReleaseIsSafe(cfg: Config, s: Sys, reader: nat)
    requires Inv(cfg, s) && Reader(reader) in s.holders
    ensures Inv(cfg, DropHolder(s, Reader(reader))) && Safe(cfg, s, DropHolder(s, Reader(reader)))
  {
    hide Consistent, RowSound, MemoryBacked, Safe;
    LeaveHold(cfg, s, Reader(reader));
    MutatorUndisturbed(cfg, s, DropHolder(s, Reader(reader)));
  }

  // ----- writing -----

  lemma BeginStoreIsSafe(cfg: Config, s: Sys, rk: RowKey, meta: KVMetadata, data: seq<Byte>, now: Time)
    requires FaithfulCodec(cfg.codec)
    requires Inv(cfg, s) && CanBeginStore(cfg, s, rk, meta, data, now)
    ensures Inv(cfg, DoBeginStore(cfg, s, rk, meta, data, now)) && Safe(cfg, s, DoBeginStore(cfg, s, rk, meta, data, now))
  {
    hide Consistent, RowSound, MemoryBacked, Safe, Counted, Pinned, Holds, PayloadOf, NewRecord;
    var m := Sealed(cfg, meta, data, now);
    NewRecordHolds(cfg, rk, m, data);
    DiskStep(cfg, s, DoBeginStore(cfg, s, rk, meta, data, now));
  }

  /** A write makes progress: the disk shows published rows the same bytes, the job its new ones. */
  lemma JobStep(cfg: Config, s: Sys, disk: Disk, w: Write)
    requires Inv(cfg, s) && JobOf(s.mutator).Some?
    requires DiskKept(s, disk) && WriteOk(cfg, disk, JobOf(s.mutator).value.(write := w))
    ensures var t := s.(disk := disk, mutator := WithWrite(s.mutator, w));
            Inv(cfg, t) && Safe(cfg, s, t)
  {
    hide Consistent, RowSound, MemoryBacked, Safe, Counted, Pinned, Holds, PayloadOf, WriteOk;
    var t := s.(disk := disk, mutator := WithWrite(s.mutator, w));
    DiskStep(cfg, s, t);
    if s.mutator.Moving? {
      BytesKept(s, t, s.mutator.job.rk);
      assert Unread(t, s.mutator.todo);
    }
  }

  lemma StartWriteIsSafe(cfg: Config, s: Sys, name: SegmentName)
    requires Inv(cfg, s) && CanStartWrite(cfg, s, name)
    ensures Inv(cfg, DoStartWrite(cfg, s, name)) && Safe(cfg, s, DoStartWrite(cfg, s, name))
  {
    hide Consistent, RowSound, MemoryBacked, Safe, Counted, Pinned, Holds, PayloadOf;
    var job := JobOf(s.mutator).value;
    var t := DoStartWrite(cfg, s, name);
    assert JobOk(cfg, s.disk, job);
    if cfg.segmented {
      var path := SegmentPath(job.rk.key, name);
      if path !in s.disk {
        AppendKeepsDisk(cfg, s, path, []);
        var nothing: seq<Byte> := [];
        assert nothing + nothing == nothing;
      }
    } else {
      TempIsFree(cfg, s, job.rk.key);
      ChangeOfFreePath(s, t.disk, TempPath(job.rk.key));
    }
    JobStep(cfg, s, t.disk, JobOf(t.mutator).value.write);
  }

  /** The disk after `n` bytes of the job's record are written. */
  function WrittenDisk(cfg: Config, disk: Disk, job: Job, n: nat): Disk
    requires job.write.Writing? && job.write.done <= n <= |job.record|
    requires cfg.segmented ==> job.write.uri.SegmentUri? && job.write.uri.path in disk
  {
    if cfg.segmented then disk[job.write.uri.path := disk[job.write.uri.path] + job.record[job.write.done..n]]
    else disk[TempPath(job.rk.key) := job.record[..n]]
  }

  lemma WriteGoesOn(cfg: Config, disk: Disk, job: Job, n: nat)
    requires WriteOk(cfg, disk, job) && job.write.Writing? && job.write.done <= n <= |job.record|
    ensures WriteOk(cfg, WrittenDisk(cfg, disk, job, n), job.(write := Writing(job.write.uri, n)))
  {
    if cfg.segmented {
      var uri, done := job.write.uri, job.write.done;
      var after := WrittenDisk(cfg, disk, job, n);
      assert after[uri.path][uri.offset..] == disk[uri.path][uri.offset..] + job.record[done..n] == job.record[..n];
    }
  }

  lemma WriteIsSafe(cfg: Config, s: Sys, n: nat)
    requires Inv(cfg, s) && CanWrite(cfg, s, n)
    ensures Inv(cfg, DoWrite(cfg, s, n)) && Safe(cfg, s, DoWrite(cfg, s, n))
  {
    hide Core, Safe, Holds, PayloadOf, DescriptorAgrees, Unread;
    var job := JobOf(s.mutator).value;
    var t := DoWrite(cfg, s, n);
    assert JobOk(cfg, s.disk, job);
    WriteGoesOn(cfg, s.disk, job, n);
    assert Placed(cfg, s) by { CoreIsPlaced(cfg, s); }
    if cfg.segmented {
      AppendKeepsDisk(cfg, s, job.write.uri.path, job.record[job.write.done..n]);
    } else {
      TempIsFree(cfg, s, job.rk.key);
      ChangeOfFreePath(s, t.disk, TempPath(job.rk.key));
    }
    JobStep(cfg, s, t.disk, Writing(job.write.uri, n));
  }

  lemma CoreIsPlaced(cfg: Config, s: Sys)
    requires Core(cfg, s)
    ensures Placed(cfg, s)
  {}

  lemma PublishIsSafe(cfg: Config, s: Sys)
    requires Inv(cfg, s) && CanPublish(s)
    ensures Inv(cfg, DoPublish(cfg, s)) && Safe(cfg, s, DoPublish(cfg, s))
  {
    hide Consistent, RowSound, MemoryBacked, Safe, Counted, Pinned, Holds, PayloadOf;
    var job := JobOf(s.mutator).value;
    var t := DoPublish(cfg, s);
    assert JobOk(cfg, s.disk, job);
    if job.rk.tier == S3 {
      ObjectPathIsFree(cfg, s, job.rk);
      ChangeOfFreePath(s, t.disk, ObjectPath(job.rk.key));
    } else if cfg.segmented {
      var uri := job.write.uri;
      assert s.disk[uri.path][uri.offset..uri.offset + uri.recordBytes] == s.disk[uri.path][uri.offset..] == job.record;
    } else {
      var without := s.disk - {TempPath(job.rk.key)};
      TempIsFree(cfg, s, job.rk.key);
      ChangeOfFreePath(s, without, TempPath(job.rk.key));
      BlockPathIsFree(cfg, s, job.rk);
      RenameKeepsDisk(s, without, BlockPath(job.rk.key), job.record);
    }
    JobStep(cfg, s, t.disk, JobOf(t.mutator).value.write);
  }

  lemma RenameKeepsDisk(s: Sys, without: Disk, path: Path, record: seq<Byte>)
    requires DiskKept(s, without) && Free(s, path)
    ensures DiskKept(s, without[path := record])
  {
    var mid := s.(disk := without);
    ChangeOfFreePath(mid, without[path := record], path);
    forall rk | IsActive(s.rows, rk) && rk.tier != Memory
      ensures Extent(without[path := record], s.rows[rk].uri) == Extent(s.disk, s.rows[rk].uri)
    {
      assert IsActive(mid.rows, rk);
    }
  }

  // ----- removing and adding rows -----

  /** Rows other than `rk` are as they were, and `rk` is nobody's to read. */
  ghost predicate OnlyRow(s: Sys, rows: Table, rk: RowKey) {
    && HoldersOf(s.holders, rk) == {}
    && (forall r :: r != rk ==> (r in rows <==> r in s.rows) && (r in s.rows ==> rows[r] == s.rows[r]))
  }

  /** Readers of other rows keep their pins when one row changes. */
  lemma PinsElsewhere(cfg: Config, s: Sys, t: Sys, rk: RowKey)
    requires Core(cfg, s) && OnlyRow(s, t.rows, rk)
    requires t.disk == s.disk && t.holders == s.holders && t.epoch == s.epoch
    requires forall k :: RowKey(k, Memory) != rk ==> (k in s.mem <==> k in t.mem) && (k in s.mem ==> s.mem[k] == t.mem[k])
    requires rk in t.rows ==> Held(t.rows[rk], t.epoch) == 0
    ensures Counted(t) && Pinned(t)
  {
    hide Consistent, RowSound, MemoryBacked, Extent;
    forall h | h in t.holders
      ensures t.holders[h].rk != rk && t.holders[h].rk in t.rows && t.rows[t.holders[h].rk] == s.rows[t.holders[h].rk]
      ensures Bytes(t, t.holders[h].rk) == Bytes(s, t.holders[h].rk)
    {
      assert h in HoldersOf(s.holders, t.holders[h].rk);
      assert t.holders[h].rk == RowKey(t.holders[h].rk.key, t.holders[h].rk.tier);
    }
    assert |HoldersOf(t.holders, rk)| == 0;
  }

  lemma RemovalKeepsPlaces(cfg: Config, s: Sys, t: Sys, rk: RowKey)
    requires Placed(cfg, s) && t.rows == s.rows - {rk} && t.disk == s.disk
    ensures Placed(cfg, t)
  {
    hide RowSound;
    forall r | r in t.rows
      ensures RowSound(cfg, t.disk, r, t.rows[r])
    {
      assert RowSound(cfg, s.disk, r, s.rows[r]);
    }
  }

  lemma RemovalKeepsMemory(cfg: Config, s: Sys, t: Sys, rk: RowKey)
    requires MemoryBacked(cfg, s) && t.rows == s.rows - {rk}
    requires t.mem == (if rk.tier == Memory then s.mem - {rk.key} else s.mem)
    ensures MemoryBacked(cfg, t)
  {}

  lemma RemovalKeepsClocks(rows: Table, rk: RowKey)
    requires Clocked(rows)
    ensures Clocked(rows - {rk})
  {}

  /** Taking a row away, with its memory if it has any. */
  lemma RemovalKeepsCore(cfg: Config, s: Sys, t: Sys, rk: RowKey)
    requires Core(cfg, s) && rk in s.rows && Held(s.rows[rk], s.epoch) == 0
    requires t.rows == s.rows - {rk} && t.disk == s.disk && t.holders == s.holders && t.epoch == s.epoch
    requires t.mem == (if rk.tier == Memory then s.mem - {rk.key} else s.mem)
    ensures Core(cfg, t)
  {
    hide Consistent, Clocked, Placed, Pinned, MemoryBacked;
    assert HoldersOf(s.holders, rk) == {};
    RemovalKeepsMemory(cfg, s, t, rk);
    PinsElsewhere(cfg, s, t, rk);
    BookkeepingKeepsConsistent(s.rows, t.rows);
    RemovalKeepsPlaces(cfg, s, t, rk);
    assert Clocked(t.rows) by { RemovalKeepsClocks(s.rows, rk); }
  }

  lemma RemovalIsSafe(cfg: Config, s: Sys, t: Sys, rk: RowKey)
    requires Consistent(s.rows)
    requires t.rows == s.rows - {rk} && t.disk == s.disk
    requires forall k :: k in t.mem ==> k in s.mem && s.mem[k] == t.mem[k]
    ensures Safe(cfg, s, t)
  {
    hide Extent, PayloadOf, RowConsistent;
  }

  /** Nobody holds a tombstone, so its counter is zero. */
  lemma TombstoneIsUnheld(s: Sys, rk: RowKey)
    requires Counted(s) && Pinned(s) && IsDeleting(s.rows, rk)
    ensures HoldersOf(s.holders, rk) == {} && Held(s.rows[rk], s.epoch) == 0
  {
    forall h | h in s.holders
      ensures s.holders[h].rk != rk
    {}
  }

  lemma StoreUndisturbed(cfg: Config, s: Sys, t: Sys, job: Job)
    requires StoreOk(cfg, s, job) && t.disk == s.disk
    requires forall rk :: rk in t.rows ==> rk in s.rows && t.rows[rk].meta == s.rows[rk].meta
    ensures StoreOk(cfg, t, job)
  {
    hide Holds, WriteOk;
    AgreementKept(s.rows, t.rows, job.meta);
  }

  /** A row that is tombstoned has no readers, and all others keep theirs. */
  lemma TombstoneKeepsPins(cfg: Config, s: Sys, rk: RowKey)
    requires Core(cfg, s) && CanBeginEvict(s, rk)
    ensures Counted(DoBeginEvict(s, rk)) && Pinned(DoBeginEvict(s, rk))
  {
    hide Consistent, Clocked, Placed, MemoryBacked, Extent;
    if IsDeleting(s.rows, rk) {
      TombstoneIsUnheld(s, rk);
      assert DoBeginEvict(s, rk).rows == s.rows;
    } else {
      assert HoldersOf(s.holders, rk) == {};
    }
    PinsElsewhere(cfg, s, DoBeginEvict(s, rk), rk);
  }

  lemma EvictionBegins(cfg: Config, s: Sys, rk: RowKey)
    requires MutatorOk(cfg, s) && CanBeginEvict(s, rk)
    ensures MutatorOk(cfg, DoBeginEvict(s, rk))
  {
    hide StoreOk;
    if s.mutator.Storing? {
      StoreUndisturbed(cfg, s, DoBeginEvict(s, rk), s.mutator.job);
    }
  }

  lemma BeginEvictIsSafe(cfg: Config, s: Sys, rk: RowKey)
    requires Inv(cfg, s) && CanBeginEvict(s, rk)
    ensures Inv(cfg, DoBeginEvict(s, rk)) && Safe(cfg, s, DoBeginEvict(s, rk))
  {
    hide Core, MutatorOk, Safe, Tombstoned, Counted, Pinned;
    TombstoneKeepsPins(cfg, s, rk);
    TombstoneKeepsCore(cfg, s, DoBeginEvict(s, rk), rk);
    EvictionBegins(cfg, s, rk);
  }

  lemma MemoryUndisturbed(cfg: Config, s: Sys, t: Sys)
    requires MemoryBacked(cfg, s) && t.mem == s.mem
    requires forall k :: RowKey(k, Memory) in s.rows ==> RowKey(k, Memory) in t.rows && t.rows[RowKey(k, Memory)] == s.rows[RowKey(k, Memory)]
    ensures MemoryBacked(cfg, t)
  {}

  lemma TombstoneKeepsPlaces(cfg: Config, s: Sys, t: Sys, rk: RowKey)
    requires Placed(cfg, s) && rk.tier != Memory && t.rows == Tombstoned(s.rows, rk, s.epoch) && t.disk == s.disk
    ensures Placed(cfg, t)
  {
    forall r | r in t.rows
      ensures RowSound(cfg, t.disk, r, t.rows[r])
    {
      assert RowSound(cfg, s.disk, r, s.rows[r]);
    }
  }

  lemma TombstonedClocks(rows: Table, rk: RowKey, epoch: string)
    requires Clocked(rows)
    ensures Clocked(Tombstoned(rows, rk, epoch))
  {}

  lemma TombstoneKeepsCore(cfg: Config, s: Sys, t: Sys, rk: RowKey)
    requires Core(cfg, s) && Deletable(s.rows, rk, s.epoch) && rk.tier != Memory
    requires t.rows == Tombstoned(s.rows, rk, s.epoch)
    requires t.disk == s.disk && t.mem == s.mem && t.epoch == s.epoch
    requires Counted(t) && Pinned(t)
    ensures Core(cfg, t) && Safe(cfg, s, t)
  {
    hide Consistent, Counted, Pinned, Placed, MemoryBacked, DescriptorsKept, PayloadOf, Extent, Clocked;
    assert Clocked(t.rows) by { TombstonedClocks(s.rows, rk, s.epoch); }
    BookkeepingKeepsConsistent(s.rows, t.rows);
    TombstoneKeepsPlaces(cfg, s, t, rk);
    MemoryUndisturbed(cfg, s, t);
    MetaKeepsDescriptors(s, t);
  }

  lemma MetaKeepsDescriptors(s: Sys, t: Sys)
    requires Consistent(s.rows)
    requires forall rk :: rk in t.rows ==> rk in s.rows && t.rows[rk].meta == s.rows[rk].meta
    ensures DescriptorsKept(s, t)
  {
    hide RowConsistent;
  }

  lemma FinishDeleteIsSafe(cfg: Config, s: Sys)
    requires Inv(cfg, s) && CanFinishDelete(s)
    ensures Inv(cfg, DoFinishDelete(s)) && Safe(cfg, s, DoFinishDelete(s))
  {
    hide Consistent, MemoryBacked, RowSound, Safe, StoreOk;
    var t := DoFinishDelete(s);
    TombstoneIsUnheld(s, s.mutator.rk);
    RemovalKeepsCore(cfg, s, t, s.mutator.rk);
    RemovalIsSafe(cfg, s, t, s.mutator.rk);
    if s.mutator.resume.Storing? {
      StoreUndisturbed(cfg, s, t, s.mutator.resume.job);
    }
  }

  lemma MemoryEvictIsSafe(cfg: Config, s: Sys, key: BlockKey)
    requires Inv(cfg, s) && CanMemoryEvict(s, key)
    ensures Inv(cfg, DoMemoryEvict(s, key)) && Safe(cfg, s, DoMemoryEvict(s, key))
  {
    hide Consistent, MemoryBacked, RowSound, Safe, Counted, Pinned;
    RemovalKeepsCore(cfg, s, DoMemoryEvict(s, key), RowKey(key, Memory));
    RemovalIsSafe(cfg, s, DoMemoryEvict(s, key), RowKey(key, Memory));
  }

  /** Only memory rows can be stale: file and object rows always have their bytes. */
  lemma DropStaleIsSafe(cfg: Config, s: Sys, rk: RowKey)
    requires Inv(cfg, s) && CanDropStale(s, rk)
    ensures rk.tier == Memory
    ensures var t := s.(rows := s.rows - {rk}); Inv(cfg, t) && Safe(cfg, s, t)
  {
    hide Consistent, MemoryBacked, Safe, Counted, Pinned, Holds;
    var t := s.(rows := s.rows - {rk});
    assert RowSound(cfg, s.disk, rk, s.rows[rk]);
    assert t.mem == s.mem - {rk.key};
    RemovalKeepsCore(cfg, s, t, rk);
    RemovalIsSafe(cfg, s, t, rk);
  }

  lemma UnlinkIsSafe(cfg: Config, s: Sys)
    requires Inv(cfg, s) && CanUnlink(s)
    ensures Inv(cfg, DoUnlink(cfg, s)) && Safe(cfg, s, DoUnlink(cfg, s))
  {
    hide Consistent, RowSound, MemoryBacked, Safe, Counted, Pinned, Holds, PayloadOf, Extent;
    var rk := s.mutator.rk;
    var t := DoUnlink(cfg, s);
    if rk.tier == S3 {
      ObjectPathIsFree(cfg, s, rk);
      ChangeOfFreePath(s, t.disk, ObjectPath(rk.key));
    } else if !cfg.segmented {
      BlockPathIsFree(cfg, s, rk);
      ChangeOfFreePath(s, t.disk, BlockPath(rk.key));
    }
    DiskStep(cfg, s, t);
  }

  lemma SweepIsSafe(cfg: Config, s: Sys, path: Path)
    requires Inv(cfg, s) && CanSweep(s, path)
    ensures var t := s.(disk := s.disk - {path}); Inv(cfg, t) && Safe(cfg, s, t)
  {
    hide Consistent, MemoryBacked, Safe, Counted, Pinned, Holds, PayloadOf, Extent;
    var t := s.(disk := s.disk - {path});
    forall rk | IsActive(s.rows, rk) && rk.tier != Memory
      ensures UriPath(s.rows[rk].uri) != Some(path)
    {
      assert RowSound(cfg, s.disk, rk, s.rows[rk]);
    }
    ChangeOfFreePath(s, t.disk, path);
    DiskStep(cfg, s, t);
  }

  // ----- publishing rows -----

  /** The new row may take the place of an active one, if its readers do not notice. */
  ghost predicate Replaces(cfg: Config, s: Sys, t: Sys, rk: RowKey) {
    IsActive(s.rows, rk) ==>
      && rk in t.rows
      && (Payload(cfg, t, rk).Some? ==> Payload(cfg, s, rk) == Payload(cfg, t, rk))
      && forall h :: h in s.holders && h.Reader? && s.holders[h].rk == rk ==>
           t.rows[rk].uri == s.rows[rk].uri && Bytes(t, rk) == Bytes(s, rk)
  }

  lemma UpsertKeepsPins(cfg: Config, s: Sys, t: Sys, rk: RowKey, loc: Location, meta: KVMetadata)
    requires Counted(s) && Pinned(s)
    requires Upserted(s.rows, rk, loc, meta, s.epoch) == Ok(t.rows)
    requires t.disk == s.disk && t.holders == s.holders && t.epoch == s.epoch
    requires forall k :: RowKey(k, Memory) != rk ==> (k in s.mem <==> k in t.mem) && (k in s.mem ==> s.mem[k] == t.mem[k])
    requires Replaces(cfg, s, t, rk)
    ensures Counted(t) && Pinned(t)
  {
    hide Extent, PayloadOf, ValidUpsert, DescriptorAgrees;
    if rk !in s.rows {
      forall h | h in s.holders ensures s.holders[h].rk != rk {}
      assert HoldersOf(s.holders, rk) == {};
    }
    forall h | h in t.holders
      ensures IsActive(t.rows, t.holders[h].rk)
      ensures h.Reader? ==> t.rows[t.holders[h].rk].uri == t.holders[h].uri && Bytes(t, t.holders[h].rk) == Some(t.holders[h].bytes)
    {
      var r := t.holders[h].rk;
      assert r == RowKey(r.key, r.tier);
      assert IsActive(s.rows, r);
    }
  }

  lemma UpsertKeepsDescriptors(s: Sys, t: Sys, rk: RowKey, loc: Location, meta: KVMetadata)
    requires Consistent(s.rows)
    requires Upserted(s.rows, rk, loc, meta, s.epoch) == Ok(t.rows)
    ensures DescriptorsKept(s, t)
  {
    hide RowConsistent, ValidMetadata;
    forall a, b | a in s.rows && b in t.rows && a.key == b.key
      ensures PayloadDescriptor(s.rows[a].meta) == PayloadDescriptor(t.rows[b].meta)
    {
      if b == rk {
        assert a == RowKey(meta.key, a.tier);
      }
    }
  }

  /** All rows but one are as they were, and so is the memory of other keys. */
  ghost predicate SameElse(s: Sys, t: Sys, rk: RowKey) {
    && (forall r :: r != rk && r in t.rows ==> r in s.rows && t.rows[r] == s.rows[r])
    && (forall k :: RowKey(k, Memory) != rk ==> (k in s.mem <==> k in t.mem) && (k in s.mem ==> s.mem[k] == t.mem[k]))
  }

  lemma OneRowPlaced(cfg: Config, s: Sys, t: Sys, rk: RowKey)
    requires Placed(cfg, s) && SameElse(s, t, rk) && t.disk == s.disk
    requires rk in t.rows && RowSound(cfg, t.disk, rk, t.rows[rk])
    ensures Placed(cfg, t)
  {
    hide RowSound;
    forall r | r in t.rows
      ensures RowSound(cfg, t.disk, r, t.rows[r])
    {
      assert r != rk ==> RowSound(cfg, s.disk, r, s.rows[r]);
    }
  }

  lemma OneRowPayloads(cfg: Config, s: Sys, t: Sys, rk: RowKey)
    requires SameElse(s, t, rk) && t.disk == s.disk && Replaces(cfg, s, t, rk)
    requires !IsDeleting(s.rows, rk)
    ensures PayloadsKept(cfg, s, t) && TombstonesKept(s, t)
  {
    hide Extent, PayloadOf;
    forall r | IsActive(s.rows, r) && IsActive(t.rows, r) && Payload(cfg, t, r).Some?
      ensures Payload(cfg, s, r) == Payload(cfg, t, r)
    {
      assert r == RowKey(r.key, r.tier);
    }
  }

  lemma UpsertIsSafe(cfg: Config, s: Sys, t: Sys, rk: RowKey, loc: Location, meta: KVMetadata)
    requires Core(cfg, s)
    requires Upserted(s.rows, rk, loc, meta, s.epoch) == Ok(t.rows)
    requires t.disk == s.disk && t.holders == s.holders && t.epoch == s.epoch
    requires SameElse(s, t, rk) && loc.lastAccess >= 0
    requires RowSound(cfg, t.disk, rk, t.rows[rk]) && MemoryBacked(cfg, t)
    requires Replaces(cfg, s, t, rk)
    ensures Core(cfg, t) && Safe(cfg, s, t)
  {
    hide Consistent, Counted, Pinned, Placed, DescriptorsKept, PayloadsKept, TombstonesKept, MemoryBacked;
    hide RowSound, Replaces, ValidUpsert, DescriptorAgrees;
    UpsertKeepsPins(cfg, s, t, rk, loc, meta);
    UpsertKeepsConsistent(s.rows, rk, loc, meta, s.epoch);
    UpsertKeepsDescriptors(s, t, rk, loc, meta);
    OneRowPlaced(cfg, s, t, rk);
    OneRowPayloads(cfg, s, t, rk);
    UpsertKeepsClocks(s.rows, rk, loc, meta, s.epoch);
  }

  lemma UpsertKeepsClocks(rows: Table, rk: RowKey, loc: Location, meta: KVMetadata, epoch: string)
    requires Clocked(rows) && Upserted(rows, rk, loc, meta, epoch).Ok? && loc.lastAccess >= 0
    ensures Clocked(Upserted(rows, rk, loc, meta, epoch).value)
  {
    hide DescriptorAgrees;
  }

  /** A step from a state that differs from `s` only in counters and times is safe from `s` too. */
  lemma SafeFromTwin(cfg: Config, s: Sys, mid: Sys, t: Sys)
    requires SameRows(s.rows, mid.rows) && mid.disk == s.disk && mid.mem == s.mem
    requires Safe(cfg, mid, t)
    ensures Safe(cfg, s, t)
  {
    hide Extent, PayloadOf;
    forall rk | rk in s.rows
      ensures SameRow(s.rows[rk], mid.rows[rk]) && Payload(cfg, s, rk) == Payload(cfg, mid, rk)
    {}
  }

  /** Whether bytes hold a record depends on the metadata through its descriptor only. */
  lemma HoldsByDescriptor(cfg: Config, rk: RowKey, a: KVMetadata, b: KVMetadata, bytes: seq<Byte>)
    requires PayloadDescriptor(a) == PayloadDescriptor(b)
    ensures Holds(cfg, rk, a, bytes) == Holds(cfg, rk, b, bytes)
  {
    hide ParseExtent;
  }

  lemma CommitIsSafe(cfg: Config, s: Sys)
    requires Inv(cfg, s) && CanCommit(s)
    ensures Inv(cfg, DoCommit(s)) && Safe(cfg, s, DoCommit(s))
  {
    hide Consistent, Counted, Pinned, Placed, Safe, Holds, PayloadOf, ValidUpsert, DescriptorAgrees, PayloadDescriptor;
    var t, job := DoCommit(s), s.mutator.job;
    var loc := Location(job.write.uri, job.meta.bytes, job.meta.checksum, job.meta.createdAt, job.meta.lastAccess);
    MemoryUndisturbed(cfg, s, t);
    UpsertIsSafe(cfg, s, t, job.rk, loc, job.meta);
  }

  lemma UpsertedIsValid(rows: Table, rk: RowKey, loc: Location, meta: KVMetadata, epoch: string)
    requires Upserted(rows, rk, loc, meta, epoch).Ok?
    ensures ValidMetadata(meta) && meta.lastAccess >= 0
  {
    hide DescriptorAgrees;
  }

  lemma ReplayIsSafe(cfg: Config, s: Sys, rk: RowKey, meta: KVMetadata, data: seq<Byte>, now: Time)
    requires Inv(cfg, s) && CanReplay(cfg, s, rk, meta, data, now)
    ensures Inv(cfg, DoReplay(cfg, s, rk, meta, data, now)) && Safe(cfg, s, DoReplay(cfg, s, rk, meta, data, now))
  {
    hide Consistent, Clocked, Counted, Pinned, Placed, MemoryBacked, Safe, Replaces, ValidUpsert, PayloadDescriptor, RowSound, Payload;
    var t, m := DoReplay(cfg, s, rk, meta, data, now), Sealed(cfg, meta, data, now);
    var loc := Location(s.rows[rk].uri, m.bytes, m.checksum, s.rows[rk].createdAt, m.lastAccess);
    UpsertedIsValid(s.rows, rk, loc, m, s.epoch);
    ReplayedRowIsSound(cfg, s, rk, m, t.rows[rk]);
    MemoryUndisturbed(cfg, s, t);
    ReplayReplaces(cfg, s, t, rk);
    UpsertIsSafe(cfg, s, t, rk, loc, m);
  }

  lemma ReplayReplaces(cfg: Config, s: Sys, t: Sys, rk: RowKey)
    requires rk.tier != Memory && rk in t.rows && (rk in s.rows ==> t.rows[rk].uri == s.rows[rk].uri) && t.disk == s.disk
    ensures Replaces(cfg, s, t, rk)
  {
    hide PayloadOf, Extent;
  }

  lemma ReplayedRowIsSound(cfg: Config, s: Sys, rk: RowKey, m: KVMetadata, row: Row)
    requires Placed(cfg, s) && IsActive(s.rows, rk) && rk.tier != Memory && m.key == rk.key
    requires DescriptorAgrees(s.rows, m)
    requires row.uri == s.rows[rk].uri && row.meta == m
    ensures RowSound(cfg, s.disk, rk, row)
  {
    assert rk == RowKey(m.key, rk.tier);
    assert RowSound(cfg, s.disk, rk, s.rows[rk]);
    HoldsByDescriptor(cfg, rk, s.rows[rk].meta, m, Extent(s.disk, row.uri).value);
  }

  lemma StoredMemoryIsBacked(cfg: Config, s: Sys, t: Sys, m: KVMetadata, data: seq<Byte>)
    requires MemoryBacked(cfg, s)
    requires MemoryTable(s, m) == Ok(t.rows) && t.mem == s.mem[m.key := data]
    requires m.bytes == |data| && m.checksum == cfg.codec.sha256(data)
    ensures MemoryBacked(cfg, t)
  {
    hide ValidUpsert, DescriptorAgrees;
  }

  lemma MemoryReplaces(cfg: Config, s: Sys, t: Sys, m: KVMetadata, data: seq<Byte>)
    requires Placed(cfg, s)
    requires MemoryTable(s, m) == Ok(t.rows) && t.mem == s.mem[m.key := data]
    requires IsActive(s.rows, RowKey(m.key, Memory)) ==> m.key in s.mem && s.mem[m.key] == data
    ensures Replaces(cfg, s, t, RowKey(m.key, Memory))
  {
    hide ValidUpsert, DescriptorAgrees, Extent, Holds;
    var rk := RowKey(m.key, Memory);
    if rk in s.rows {
      assert RowSound(cfg, s.disk, rk, s.rows[rk]);
    }
  }

  lemma MemoryStoreIsSafe(cfg: Config, s: Sys, key: BlockKey, meta: KVMetadata, data: seq<Byte>, now: Time)
    requires Inv(cfg, s) && CanMemoryStore(cfg, s, key, meta, data, now)
    ensures Inv(cfg, DoMemoryStore(cfg, s, key, meta, data, now)) && Safe(cfg, s, DoMemoryStore(cfg, s, key, meta, data, now))
  {
    hide Consistent, Counted, Pinned, Placed, MemoryBacked, Safe, Replaces, ValidUpsert, DescriptorAgrees;
    var t, m := DoMemoryStore(cfg, s, key, meta, data, now), Sealed(cfg, meta, data, now);
    var loc := MemoryLocation(s.rows, m);
    UpsertedIsValid(s.rows, RowKey(key, Memory), loc, m, s.epoch);
    StoredMemoryIsBacked(cfg, s, t, m, data);
    MemoryReplaces(cfg, s, t, m, data);
    UpsertIsSafe(cfg, s, t, RowKey(key, Memory), loc, m);
  }

  // ----- compaction -----

  lemma BeginCompactIsSafe(cfg: Config, s: Sys, id: nat)
    requires Inv(cfg, s) && s.mutator.Idle? && cfg.segmented
    ensures Inv(cfg, DoBeginCompact(s, id)) && Safe(cfg, s, DoBeginCompact(s, id))
  {
    hide Consistent, RowSound, MemoryBacked, Safe, Pinned;
    DiskStep(cfg, s, DoBeginCompact(s, id));
  }

  lemma MoveIsSafe(cfg: Config, s: Sys, rk: RowKey)
    requires FaithfulCodec(cfg.codec)
    requires Inv(cfg, s) && CanMove(cfg, s, rk)
    ensures Inv(cfg, DoMove(cfg, s, rk)) && Safe(cfg, s, DoMove(cfg, s, rk))
  {
    hide MutatorOk, Consistent, Clocked, Counted, Pinned, Placed, MemoryBacked, Safe, Holds, Rewritten, ParseExtent, Extent;
    CompactorIsFree(cfg, s);
    TakeHold(cfg, s, DoMove(cfg, s, rk), Compactor, DoMove(cfg, s, rk).holders[Compactor]);
    MoveBegins(cfg, s, rk);
  }

  lemma CompactorIsFree(cfg: Config, s: Sys)
    requires MutatorOk(cfg, s) && s.mutator.Compacting?
    ensures Compactor !in s.holders
  {}

  /** The row to be moved is held by the compactor alone, and the others can still be moved. */
  lemma MoveBegins(cfg: Config, s: Sys, rk: RowKey)
    requires FaithfulCodec(cfg.codec) && MutatorOk(cfg, s) && Consistent(s.rows) && CanMove(cfg, s, rk)
    requires SameRows(s.rows, DoMove(cfg, s, rk).rows)
    ensures MutatorOk(cfg, DoMove(cfg, s, rk))
  {
    hide Holds, PayloadOf, PayloadDescriptor, Rewritten, ParseExtent, Extent, Consistent, DescriptorAgrees, Unread, StoreOk;
    hide FaithfulCodec, ValidMetadata, HoldersOf;
    var t, meta := DoMove(cfg, s, rk), MovedMeta(s.rows[rk]);
    UnreadSplits(s, t, s.mutator.todo, rk);
    RewrittenHolds(cfg, rk, Bytes(s, rk).value, meta);
    MovedMetaAgrees(s.rows, t.rows, rk);
    assert SameRow(s.rows[rk], t.rows[rk]);
  }

  lemma UnreadSplits(s: Sys, t: Sys, todo: set<RowKey>, rk: RowKey)
    requires Unread(s, todo) && rk in todo && SameRows(s.rows, t.rows)
    requires Compactor in t.holders && t.holders == s.holders[Compactor := t.holders[Compactor]]
    requires Compactor !in s.holders && t.holders[Compactor].rk == rk
    ensures rk.tier == Nvme && HoldersOf(t.holders, rk) == {Compactor} && Unread(t, todo - {rk})
  {
    assert HoldersOf(t.holders, rk) == HoldersOf(s.holders, rk) + {Compactor};
    forall r | r in todo - {rk}
      ensures r.tier == Nvme && IsActive(t.rows, r) && HoldersOf(t.holders, r) == {}
    {
      assert SameRow(s.rows[r], t.rows[r]);
      assert HoldersOf(t.holders, r) == HoldersOf(s.holders, r);
    }
  }

  lemma MovedMetaAgrees(rows: Table, after: Table, rk: RowKey)
    requires Consistent(rows) && SameRows(rows, after) && rk in rows
    ensures DescriptorAgrees(after, MovedMeta(rows[rk])) && MovedMeta(rows[rk]).key == rk.key
  {
    var meta := MovedMeta(rows[rk]);
    assert RowConsistent(rk, rows[rk]);
    forall tier: Tier | RowKey(meta.key, tier) in after
      ensures PayloadDescriptor(after[RowKey(meta.key, tier)].meta) == PayloadDescriptor(meta)
    {
      assert SameRow(rows[RowKey(meta.key, tier)], after[RowKey(meta.key, tier)]);
    }
  }

  lemma CommitMoveIsSafe(cfg: Config, s: Sys)
    requires Inv(cfg, s) && CanCommitMove(s)
    ensures Inv(cfg, DoCommitMove(s)) && Safe(cfg, s, DoCommitMove(s))
  {
    hide Consistent, Counted, Pinned, Placed, Safe, Holds, PayloadOf, ValidUpsert, DescriptorAgrees, PayloadDescriptor;
    var t, job := DoCommitMove(s), s.mutator.job;
    var was := s.rows[job.rk];
    var loc := Location(job.write.uri, job.meta.bytes, job.meta.checksum, was.createdAt, was.lastAccess);
    MemoryUndisturbed(cfg, s, t);
    forall h | h in s.holders && s.holders[h].rk == job.rk
      ensures h == Compactor
    {
      assert h in HoldersOf(s.holders, job.rk);
    }
    UpsertIsSafe(cfg, s, t, job.rk, loc, job.meta);
    assert Compactor in HoldersOf(s.holders, job.rk);
    assert Unread(t, s.mutator.todo);
  }

  lemma ReleaseMoveIsSafe(cfg: Config, s: Sys)
    requires Inv(cfg, s) && CanReleaseMove(s)
    ensures Inv(cfg, DoReleaseMove(s)) && Safe(cfg, s, DoReleaseMove(s))
  {
    hide Consistent, RowSound, MemoryBacked, Counted, Pinned, PayloadOf, Extent;
    var mid, t := DropHolder(s, Compactor), DoReleaseMove(s);
    LeaveHold(cfg, s, Compactor);
    CoreWithoutMutator(cfg, mid, t);
    SafeWithoutMutator(cfg, s, mid, t);
    forall r | r in s.mutator.todo
      ensures IsActive(t.rows, r) && HoldersOf(t.holders, r) == {}
    {
      assert SameRow(s.rows[r], t.rows[r]);
      assert HoldersOf(t.holders, r) <= HoldersOf(s.holders, r);
    }
  }

  lemma CoreWithoutMutator(cfg: Config, s: Sys, t: Sys)
    requires Core(cfg, s) && t == s.(mutator := t.mutator)
    ensures Core(cfg, t)
  {
    hide Consistent, RowSound, MemoryBacked, Safe, Counted;
    DiskStep(cfg, s, t);
  }

  lemma SafeWithoutMutator(cfg: Config, s: Sys, mid: Sys, t: Sys)
    requires Safe(cfg, s, mid) && t == mid.(mutator := t.mutator)
    ensures Safe(cfg, s, t)
  {
    hide Extent, PayloadOf;
    forall rk ensures Payload(cfg, t, rk) == Payload(cfg, mid, rk) {}
  }

  // ----- failure and crash -----

  lemma AbortIsSafe(cfg: Config, s: Sys)
    requires Inv(cfg, s)
    ensures Inv(cfg, DoAbort(cfg, s)) && Safe(cfg, s, DoAbort(cfg, s))
  {
    hide Consistent, RowSound, MemoryBacked, Counted, Pinned, PayloadOf, Extent, Safe, MutatorOk;
    var dropped := if Compactor in s.holders then DropHolder(s, Compactor) else s;
    if Compactor in s.holders {
      LeaveHold(cfg, s, Compactor);
    }
    var t := DoAbort(cfg, s);
    if JobOf(s.mutator).Some? && !cfg.segmented {
      var k := JobOf(s.mutator).value.rk.key;
      TempIsFree(cfg, dropped, k);
      ChangeOfFreePath(dropped, t.disk, TempPath(k));
    }
    DiskStep(cfg, dropped, t);
    SafeFromTwin(cfg, s, dropped, t);
    IdleIsOk(cfg, t);
  }

  lemma IdleIsOk(cfg: Config, t: Sys)
    requires t.mutator.Idle? && Compactor !in t.holders
    ensures MutatorOk(cfg, t)
  {}

  lemma CrashIsSafe(cfg: Config, s: Sys, epoch: string)
    requires Inv(cfg, s) && epoch != ""
    ensures Inv(cfg, DoCrash(s, epoch)) && Safe(cfg, s, DoCrash(s, epoch))
  {
    hide Consistent, MemoryBacked, Pinned, Counted, RowSound, MutatorOk, DescriptorsKept;
    var t := DoCrash(s, epoch);
    BookkeepingKeepsConsistent(s.rows, t.rows);
    MetaKeepsDescriptors(s, t);
    ReopenKeepsPlaces(cfg, s, t);
    NobodyHolds(cfg, s, t);
  }

  lemma ReopenKeepsPlaces(cfg: Config, s: Sys, t: Sys)
    requires Placed(cfg, s) && t.rows == Reopened(s.rows) && t.disk == s.disk
    ensures Placed(cfg, t)
  {
    forall rk | rk in t.rows
      ensures RowSound(cfg, t.disk, rk, t.rows[rk])
    {
      assert RowSound(cfg, s.disk, rk, s.rows[rk]);
    }
  }

  lemma NobodyHolds(cfg: Config, s: Sys, t: Sys)
    requires t.rows == Reopened(s.rows) && t.holders == map[] && t.mem == map[] && t.epoch != "" && t.mutator.Idle?
    ensures Counted(t) && Pinned(t) && MemoryBacked(cfg, t) && MutatorOk(cfg, t)
  {
    forall rk
      ensures HoldersOf(t.holders, rk) == {}
    {}
  }
}
