/** Runs of the protocol, put together. */
module KvRuns {
  import opened Identity
  import opened Metadata
  import opened Rows
  import opened Tiers
  import opened Accounting
  import opened KvProtocol
  import opened KvInvariant
  import opened KvSafety

  /** A run that leads from `s` to `t`. */
  ghost predicate Leads(cfg: Config, s: Sys, run: seq<Sys>, acts: seq<Action>, t: Sys) {
    IsRun(cfg, run, acts) && run[0] == s && run[|acts|] == t
  }

  lemma RunsJoin(cfg: Config, s: Sys, run: seq<Sys>, acts: seq<Action>, t: Sys, run': seq<Sys>, acts': seq<Action>, u: Sys)
    requires Leads(cfg, s, run, acts, t) && Leads(cfg, t, run', acts', u)
    ensures |run'| >= 1 && Leads(cfg, s, run + run'[1..], acts + acts', u)
  {
    hide Enabled, Step;
    var all, did := run + run'[1..], acts + acts';
    forall i | 0 <= i < |did|
      ensures Enabled(cfg, all[i], did[i]) && all[i + 1] == Step(cfg, all[i], did[i])
    {
      if i < |acts| {
        assert all[i] == run[i] && all[i + 1] == run[i + 1] && did[i] == acts[i];
      } else {
        var j := i - |acts|;
        assert all[i] == run'[j] && all[i + 1] == run'[j + 1] && did[i] == acts'[j];
      }
    }
  }

  lemma LeadsKeepsInv(cfg: Config, s: Sys, run: seq<Sys>, acts: seq<Action>, t: Sys)
    requires FaithfulCodec(cfg.codec) && Leads(cfg, s, run, acts, t) && Inv(cfg, s)
    ensures Inv(cfg, t)
  {
    hide Inv, Enabled, Step;
    RunsKeepInv(cfg, run, acts, |acts|);
  }

  lemma Standing(cfg: Config, s: Sys)
    ensures Leads(cfg, s, [s], [], s)
  {}

  lemma OneMore(cfg: Config, s: Sys, run: seq<Sys>, acts: seq<Action>, t: Sys, a: Action)
    requires Leads(cfg, s, run, acts, t) && Enabled(cfg, t, a)
    ensures Leads(cfg, s, run + [Step(cfg, t, a)], acts + [a], Step(cfg, t, a))
  {
    hide Enabled, Step;
    var u := Step(cfg, t, a);
    assert Leads(cfg, t, [t, u], [a], u);
    RunsJoin(cfg, s, run, acts, t, [t, u], [a], u);
    assert [t, u][1..] == [u];
  }

  /** The files of the tier after the payload of a deleted row is gone. */
  function DiskWithout(cfg: Config, disk: Disk, rk: RowKey): Disk {
    if rk.tier == S3 then disk - {ObjectPath(rk.key)} else if cfg.segmented then disk else disk - {BlockPath(rk.key)}
  }

  /** A complete eviction is the run tombstone, unlink, finish. */
  lemma EvictionRun(cfg: Config, s: Sys, rk: RowKey) returns (run: seq<Sys>, acts: seq<Action>)
    requires s.mutator.Idle? && CanBeginEvict(s, rk)
    ensures acts == [BeginEvict(rk), Unlink, FinishDelete]
    ensures Leads(cfg, s, run, acts, s.(rows := s.rows - {rk}, disk := DiskWithout(cfg, s.disk, rk)))
  {
    hide Leads;
    var s1 := DoBeginEvict(s, rk);
    var s2 := DoUnlink(cfg, s1);
    var s3 := DoFinishDelete(s2);
    run, acts := [s], [];
    Standing(cfg, s);
    OneMore(cfg, s, run, acts, s, BeginEvict(rk));
    run, acts := run + [s1], acts + [BeginEvict(rk)];
    OneMore(cfg, s, run, acts, s1, Unlink);
    run, acts := run + [s2], acts + [Unlink];
    OneMore(cfg, s, run, acts, s2, FinishDelete);
    run, acts := run + [s3], acts + [FinishDelete];
    assert s3.rows == s.rows - {rk};
  }

  /** A retried eviction finishes what was begun, also when the file is already gone. */
  lemma RetriedEvictFinishes(cfg: Config, s: Sys, rk: RowKey) returns (run: seq<Sys>)
    requires Inv(cfg, s) && s.mutator.Idle? && IsDeleting(s.rows, rk)
    ensures IsRun(cfg, run, [BeginEvict(rk), Unlink, FinishDelete]) && run[0] == s
    ensures run[3].rows == s.rows - {rk} && run[3].mutator.Idle? && run[3].holders == s.holders
    ensures rk.tier == S3 ==> ObjectPath(rk.key) !in run[3].disk
    ensures rk.tier == Nvme && !cfg.segmented ==> BlockPath(rk.key) !in run[3].disk
  {
    hide Consistent, Clocked, Counted, Pinned, MemoryBacked, Holds, IsRun;
    assert RowSound(cfg, s.disk, rk, s.rows[rk]);
    var acts;
    run, acts := EvictionRun(cfg, s, rk);
  }

  /** An eviction that fails after the tombstone leaves the tombstone and nothing else. */
  lemma FailedEvictionRun(cfg: Config, s: Sys, rk: RowKey) returns (run: seq<Sys>, acts: seq<Action>)
    requires s.mutator.Idle? && CanBeginEvict(s, rk) && Compactor !in s.holders
    ensures Leads(cfg, s, run, acts, s.(rows := Tombstoned(s.rows, rk, s.epoch)))
  {
    hide Leads;
    var s1 := DoBeginEvict(s, rk);
    run, acts := [s], [];
    Standing(cfg, s);
    OneMore(cfg, s, run, acts, s, BeginEvict(rk));
    run, acts := run + [s1], acts + [BeginEvict(rk)];
    OneMore(cfg, s, run, acts, s1, Abort);
    run, acts := run + [DoAbort(cfg, s1)], acts + [Abort];
  }

  // ----- stores -----

  /** The disk with `bytes` at the end of the chosen segment, or as the key's file. */
  function DiskWith(cfg: Config, disk: Disk, key: BlockKey, name: SegmentName, bytes: seq<Byte>): Disk {
    if cfg.segmented then
      var path := SegmentPath(key, name);
      disk[path := (if path in disk then disk[path] else []) + bytes]
    else
      (disk - {TempPath(key)})[BlockPath(key) := bytes]
  }

  function UriFor(cfg: Config, disk: Disk, key: BlockKey, name: SegmentName, n: nat): Uri {
    if cfg.segmented then SegmentUri(SegmentPath(key, name), SizeAt(disk, SegmentPath(key, name)), n)
    else FileUri(BlockPath(key))
  }

  /** What a write leaves behind that fails after `n` bytes. */
  function TornDisk(cfg: Config, disk: Disk, key: BlockKey, name: SegmentName, bytes: seq<Byte>): Disk {
    if cfg.segmented then DiskWith(cfg, disk, key, name, bytes) else disk - {TempPath(key)}
  }

  function PublishedLocation(uri: Uri, m: KVMetadata): Location {
    Location(uri, m.bytes, m.checksum, m.createdAt, m.lastAccess)
  }

  /** The states of a write up to `n` bytes: started, then written. */
  lemma WritingRun(cfg: Config, s: Sys, name: SegmentName, n: nat) returns (run: seq<Sys>, acts: seq<Action>)
    requires CanStartWrite(cfg, s, name) && n <= |JobOf(s.mutator).value.record|
    ensures var job := JobOf(s.mutator).value;
            var uri := UriFor(cfg, s.disk, job.rk.key, name, |job.record|);
            var disk := if cfg.segmented then DiskWith(cfg, s.disk, job.rk.key, name, job.record[..n])
                        else s.disk[TempPath(job.rk.key) := job.record[..n]];
            Leads(cfg, s, run, acts, s.(disk := disk, mutator := WithWrite(s.mutator, Writing(uri, n))))
    ensures |acts| == 2
    ensures forall i :: 0 <= i < |run| ==> run[i].mutator.Idle? == s.mutator.Idle?
  {
    hide Leads, BytesUsed, Extent, ParseExtent, Rewritten, Holds;
    hide CanBeginStore, CanReplay, CanBeginEvict, CanMemoryStore, CanSweep, CanEndSweep, CanMove, CanAcquire;
    var job := JobOf(s.mutator).value;
    var s1 := DoStartWrite(cfg, s, name);
    var s2 := DoWrite(cfg, s1, n);
    Standing(cfg, s);
    OneMore(cfg, s, [s], [], s, StartWrite(name));
    OneMore(cfg, s, [s] + [s1], [] + [StartWrite(name)], s1, WriteUpTo(n));
    run, acts := [s] + [s1] + [s2], [] + [StartWrite(name)] + [WriteUpTo(n)];
    assert job.record[0..n] == job.record[..n];
    if cfg.segmented {
      var path := SegmentPath(job.rk.key, name);
      assert s2.disk[path] == (if path in s.disk then s.disk[path] else []) + job.record[..n];
      assert s2.disk == DiskWith(cfg, s.disk, job.rk.key, name, job.record[..n]);
    } else {
      assert s2.disk == s.disk[TempPath(job.rk.key) := job.record[..n]];
    }
  }

  /** A store up to its commit: begin, write, publish. */
  lemma PublishedRun(cfg: Config, s: Sys, rk: RowKey, meta: KVMetadata, data: seq<Byte>, now: Time, name: SegmentName)
    returns (run: seq<Sys>, acts: seq<Action>)
    requires s.mutator.Idle? && rk.tier == Nvme && CanBeginStore(cfg, s, rk, meta, data, now)
    requires BytesUsed(s.rows, Nvme) + |data| <= cfg.maxBytes
    ensures var m := Sealed(cfg, meta, data, now);
            var record := NewRecord(cfg, Nvme, m, data).value;
            Leads(cfg, s, run, acts, s.(disk := DiskWith(cfg, s.disk, rk.key, name, record),
                                        mutator := Storing(Job(rk, m, record, Written(UriFor(cfg, s.disk, rk.key, name, |record|))))))
  {
    hide Leads, NewRecord, ValidMetadata, DescriptorAgrees, BytesUsed;
    hide CanAcquire, CanReplay, CanBeginEvict, CanMemoryStore, CanSweep, CanEndSweep, CanMove;
    var m := Sealed(cfg, meta, data, now);
    var record := NewRecord(cfg, Nvme, m, data).value;
    var s1 := DoBeginStore(cfg, s, rk, meta, data, now);
    Standing(cfg, s);
    OneMore(cfg, s, [s], [], s, BeginStore(rk, meta, data, now));
    var run2, acts2 := WritingRun(cfg, s1, name, |record|);
    assert record[..|record|] == record;
    var uri := UriFor(cfg, s.disk, rk.key, name, |record|);
    var disk := if cfg.segmented then DiskWith(cfg, s.disk, rk.key, name, record) else s.disk[TempPath(rk.key) := record];
    var s3 := s1.(disk := disk, mutator := WithWrite(s1.mutator, Writing(uri, |record|)));
    RunsJoin(cfg, s, [s] + [s1], [] + [BeginStore(rk, meta, data, now)], s1, run2, acts2, s3);
    run, acts := [s] + [s1] + run2[1..], [] + [BeginStore(rk, meta, data, now)] + acts2;
    OneMore(cfg, s, run, acts, s3, Publish);
    run, acts := run + [DoPublish(cfg, s3)], acts + [Publish];
    assert DoPublish(cfg, s3).disk == DiskWith(cfg, s.disk, rk.key, name, record);
  }

  /** A store that goes through: publish, commit. */
  lemma StoreRun(cfg: Config, s: Sys, rk: RowKey, meta: KVMetadata, data: seq<Byte>, now: Time, name: SegmentName)
    returns (run: seq<Sys>, acts: seq<Action>)
    requires s.mutator.Idle? && rk.tier == Nvme && CanBeginStore(cfg, s, rk, meta, data, now)
    requires BytesUsed(s.rows, Nvme) + |data| <= cfg.maxBytes
    ensures var m := Sealed(cfg, meta, data, now);
            var record := NewRecord(cfg, Nvme, m, data).value;
            var upserted := Upserted(s.rows, rk, PublishedLocation(UriFor(cfg, s.disk, rk.key, name, |record|), m), m, s.epoch);
            && upserted.Ok?
            && Leads(cfg, s, run, acts, s.(rows := upserted.value, disk := DiskWith(cfg, s.disk, rk.key, name, record)))
  {
    hide Leads, NewRecord, ValidMetadata, DescriptorAgrees, BytesUsed, DiskWith;
    hide CanAcquire, CanReplay, CanBeginEvict, CanMemoryStore, CanSweep, CanEndSweep, CanMove, MergedRow;
    var m := Sealed(cfg, meta, data, now);
    var record := NewRecord(cfg, Nvme, m, data).value;
    var written := Storing(Job(rk, m, record, Written(UriFor(cfg, s.disk, rk.key, name, |record|))));
    var t := s.(disk := DiskWith(cfg, s.disk, rk.key, name, record), mutator := written);
    run, acts := PublishedRun(cfg, s, rk, meta, data, now, name);
    OneMore(cfg, s, run, acts, t, Commit);
    run, acts := run + [DoCommit(t)], acts + [Commit];
  }

  /** A store whose upsert fails: the record is there in full, and nothing points at it. */
  lemma UncommittedStoreRun(cfg: Config, s: Sys, rk: RowKey, meta: KVMetadata, data: seq<Byte>, now: Time, name: SegmentName)
    returns (run: seq<Sys>, acts: seq<Action>)
    requires s.mutator.Idle? && rk.tier == Nvme && CanBeginStore(cfg, s, rk, meta, data, now) && Compactor !in s.holders
    requires BytesUsed(s.rows, Nvme) + |data| <= cfg.maxBytes
    ensures var record := NewRecord(cfg, Nvme, Sealed(cfg, meta, data, now), data).value;
            Leads(cfg, s, run, acts, s.(disk := DiskWith(cfg, s.disk, rk.key, name, record)))
  {
    hide Leads, NewRecord, ValidMetadata, DescriptorAgrees, BytesUsed;
    hide CanAcquire, CanReplay, CanBeginEvict, CanMemoryStore, CanSweep, CanEndSweep, CanMove;
    var m := Sealed(cfg, meta, data, now);
    var record := NewRecord(cfg, Nvme, m, data).value;
    var written := Storing(Job(rk, m, record, Written(UriFor(cfg, s.disk, rk.key, name, |record|))));
    var t := s.(disk := DiskWith(cfg, s.disk, rk.key, name, record), mutator := written);
    run, acts := PublishedRun(cfg, s, rk, meta, data, now, name);
    OneMore(cfg, s, run, acts, t, Abort);
    run, acts := run + [DoAbort(cfg, t)], acts + [Abort];
    assert DoAbort(cfg, t).disk == t.disk;
  }

  /** A store whose write fails after `n` bytes: the row is not published. */
  lemma FailedStoreRun(cfg: Config, s: Sys, rk: RowKey, meta: KVMetadata, data: seq<Byte>, now: Time, name: SegmentName, n: nat)
    returns (run: seq<Sys>, acts: seq<Action>)
    requires s.mutator.Idle? && rk.tier == Nvme && CanBeginStore(cfg, s, rk, meta, data, now) && Compactor !in s.holders
    requires BytesUsed(s.rows, Nvme) + |data| <= cfg.maxBytes
    requires n <= |NewRecord(cfg, Nvme, Sealed(cfg, meta, data, now), data).value|
    ensures var record := NewRecord(cfg, Nvme, Sealed(cfg, meta, data, now), data).value;
            Leads(cfg, s, run, acts, s.(disk := TornDisk(cfg, s.disk, rk.key, name, record[..n])))
  {
    hide Leads, NewRecord, ValidMetadata, DescriptorAgrees, BytesUsed;
    var m := Sealed(cfg, meta, data, now);
    var record := NewRecord(cfg, Nvme, m, data).value;
    var s1 := DoBeginStore(cfg, s, rk, meta, data, now);
    Standing(cfg, s);
    OneMore(cfg, s, [s], [], s, BeginStore(rk, meta, data, now));
    var run2, acts2 := WritingRun(cfg, s1, name, n);
    var uri := UriFor(cfg, s.disk, rk.key, name, |record|);
    var disk := if cfg.segmented then DiskWith(cfg, s.disk, rk.key, name, record[..n]) else s.disk[TempPath(rk.key) := record[..n]];
    var s3 := s1.(disk := disk, mutator := WithWrite(s1.mutator, Writing(uri, n)));
    RunsJoin(cfg, s, [s] + [s1], [] + [BeginStore(rk, meta, data, now)], s1, run2, acts2, s3);
    run, acts := [s] + [s1] + run2[1..], [] + [BeginStore(rk, meta, data, now)] + acts2;
    OneMore(cfg, s, run, acts, s3, Abort);
    run, acts := run + [DoAbort(cfg, s3)], acts + [Abort];
    assert DoAbort(cfg, s3).disk == TornDisk(cfg, s.disk, rk.key, name, record[..n]);
  }

  // ----- loads -----

  lemma {:induction false} UpperBound(ids: set<nat>) returns (n: nat)
    ensures forall i :: i in ids ==> i < n
    decreases |ids|
  {
    n := 0;
    if ids != {} {
      var i :| i in ids;
      var m := UpperBound(ids - {i});
      n := if i < m then m else i + 1;
      assert forall j :: j in ids ==> j == i || j in ids - {i};
    }
  }

  lemma FreshReader(holders: map<Holder, Hold>) returns (id: nat)
    ensures Reader(id) !in holders
  {
    var ids := set h | h in holders && h.Reader? :: h.id;
    id := UpperBound(ids);
    assert forall h :: h in holders && h.Reader? ==> h.id in ids;
    assert Reader(id).id == id;
  }

  /** The table after a load has acquired, used and released the row. */
  function UsedRows(rows: Table, rk: RowKey, now: Time, epoch: string): Table {
    Released(Touched(Acquired(rows, rk, epoch), rk, now), rk, epoch)
  }

  /** The table after a visit: the row acquired, used if its record passed, and released if that works. */
  function VisitedRows(rows: Table, rk: RowKey, now: Time, epoch: string, used: bool, released: bool): Table {
    var held := Acquired(rows, rk, epoch);
    var seen := if used then Touched(held, rk, now) else held;
    if released then Released(seen, rk, epoch) else seen
  }

  /** Who holds what after a visit: a hold that could not be given back stays with its reader. */
  function VisitedHolders(s: Sys, rk: RowKey, reader: nat, released: bool): map<Holder, Hold>
    requires rk in s.rows && Bytes(s, rk).Some?
  {
    if released then s.holders else s.holders[Reader(reader) := Hold(rk, s.rows[rk].uri, Bytes(s, rk).value)]
  }

  /** A visit of a row that is there is the run acquire, perhaps touch, perhaps release of a reader of its own. */
  lemma VisitRun(cfg: Config, s: Sys, rk: RowKey, now: Time, used: bool, released: bool)
    returns (reader: nat, run: seq<Sys>, acts: seq<Action>)
    requires s.mutator.Idle? && IsActive(s.rows, rk) && Bytes(s, rk).Some? && now >= 0
    ensures Leads(cfg, s, run, acts, s.(rows := VisitedRows(s.rows, rk, now, s.epoch, used, released),
                                        holders := VisitedHolders(s, rk, reader, released)))
  {
    hide Leads, Extent;
    hide CanBeginStore, CanReplay, CanBeginEvict, CanMemoryStore, CanSweep, CanEndSweep, CanMove, CanStartWrite;
    reader := FreshReader(s.holders);
    var last := DoAcquire(s, reader, rk);
    Standing(cfg, s);
    OneMore(cfg, s, [s], [], s, Acquire(reader, rk));
    run, acts := [s] + [last], [] + [Acquire(reader, rk)];
    if used {
      OneMore(cfg, s, run, acts, last, Touch(reader, now));
      last := DoTouch(last, reader, now);
      run, acts := run + [last], acts + [Touch(reader, now)];
    }
    if released {
      OneMore(cfg, s, run, acts, last, Release(reader));
      run, acts := run + [DropHolder(last, Reader(reader))], acts + [Release(reader)];
      assert DropHolder(last, Reader(reader)).holders == s.holders;
    }
  }

  /** A lookup is no step, or the step that drops a row whose bytes are gone. */
  lemma LookupRun(cfg: Config, s: Sys, t: Sys, rk: RowKey) returns (run: seq<Sys>, acts: seq<Action>)
    requires t == s || (CanDropStale(s, rk) && t == s.(rows := s.rows - {rk}))
    ensures Leads(cfg, s, run, acts, t)
  {
    hide Leads, CanDropStale;
    Standing(cfg, s);
    run, acts := [s], [];
    if t != s {
      OneMore(cfg, s, [s], [], s, DropStale(rk));
      run, acts := [s] + [t], [] + [DropStale(rk)];
    }
  }

  lemma LoadRun(cfg: Config, s: Sys, rk: RowKey, now: Time) returns (run: seq<Sys>, acts: seq<Action>)
    requires s.mutator.Idle? && IsActive(s.rows, rk) && Bytes(s, rk).Some? && now >= 0
    ensures Leads(cfg, s, run, acts, s.(rows := UsedRows(s.rows, rk, now, s.epoch)))
  {
    hide Leads, Extent;
    var reader;
    reader, run, acts := VisitRun(cfg, s, rk, now, true, true);
  }
}
