/** The runs a compaction is made of. */
module KvMoves {
  import opened Identity
  import opened Metadata
  import opened Rows
  import opened Tiers
  import opened KvProtocol
  import opened KvInvariant
  import opened KvCompaction
  import opened KvRuns

  ghost predicate OnlyCompacts(acts: seq<Action>) {
    forall i :: 0 <= i < |acts| ==> CompactionStep(acts[i])
  }

  /** A run made of compaction steps that comes to rest nowhere. */
  ghost predicate Underway(cfg: Config, s: Sys, run: seq<Sys>, acts: seq<Action>, t: Sys) {
    && Leads(cfg, s, run, acts, t) && OnlyCompacts(acts)
    && (forall i :: 0 <= i < |run| ==> !run[i].mutator.Idle?)
  }

  lemma AtStart(cfg: Config, s: Sys)
    requires !s.mutator.Idle?
    ensures Underway(cfg, s, [s], [], s)
  {}

  lemma OneFurther(cfg: Config, s: Sys, run: seq<Sys>, acts: seq<Action>, t: Sys, a: Action)
    requires Underway(cfg, s, run, acts, t) && Enabled(cfg, t, a) && CompactionStep(a) && !Step(cfg, t, a).mutator.Idle?
    ensures Underway(cfg, s, run + [Step(cfg, t, a)], acts + [a], Step(cfg, t, a))
  {
    hide Enabled, Step, CompactionStep, IsRun;
    OneMore(cfg, s, run, acts, t, a);
  }

  lemma GoOn(cfg: Config, s: Sys, run: seq<Sys>, acts: seq<Action>, t: Sys, run': seq<Sys>, acts': seq<Action>, u: Sys)
    requires Underway(cfg, s, run, acts, t) && Underway(cfg, t, run', acts', u)
    ensures |run'| >= 1 && Underway(cfg, s, run + run'[1..], acts + acts', u)
  {
    hide Enabled, Step, CompactionStep, IsRun;
    RunsJoin(cfg, s, run, acts, t, run', acts', u);
  }

  /** The table while the compactor holds the row, and after it has moved it. */
  function MovedRows(rows: Table, rk: RowKey, loc: Location, meta: KVMetadata, epoch: string): Result<Table> {
    var upserted :- Upserted(Acquired(rows, rk, epoch), rk, loc, meta, epoch);
    Ok(Released(upserted, rk, epoch))
  }

  /** The record that takes the place of the row's record. */
  function MovedRecord(cfg: Config, s: Sys, rk: RowKey): seq<Byte>
    requires CanMove(cfg, s, rk)
  {
    Rewritten(cfg, ParseExtent(cfg, rk.tier, Bytes(s, rk).value).value, MovedMeta(s.rows[rk])).value
  }

  function MovedLocation(row: Row, uri: Uri): Location {
    Location(uri, row.meta.bytes, row.meta.checksum, row.createdAt, row.lastAccess)
  }

  lemma MoveIsAccepted(cfg: Config, s: Sys, rk: RowKey, uri: Uri)
    requires Inv(cfg, s) && IsActive(s.rows, rk) && ValidMetadata(MovedMeta(s.rows[rk])) && uri.SegmentUri?
    ensures Upserted(Acquired(s.rows, rk, s.epoch), rk, MovedLocation(s.rows[rk], uri), MovedMeta(s.rows[rk]), s.epoch).Ok?
  {
    hide MutatorOk, Clocked, Placed, MemoryBacked, Counted, Pinned;
    var row := s.rows[rk];
    assert RowConsistent(rk, row) && row.meta.bytes >= 0;
    assert DescriptorAgrees(Acquired(s.rows, rk, s.epoch), MovedMeta(row)) by {
      forall tier: Tier | RowKey(rk.key, tier) in s.rows
        ensures PayloadDescriptor(s.rows[RowKey(rk.key, tier)].meta) == PayloadDescriptor(row.meta)
      {}
    }
  }

  /** The state in which `n` bytes of the record that replaces the row's are written. */
  function HalfMoved(cfg: Config, s: Sys, rk: RowKey, name: SegmentName, n: nat): Sys
    requires CanMove(cfg, s, rk) && n <= |MovedRecord(cfg, s, rk)|
  {
    var record := MovedRecord(cfg, s, rk);
    var job := Job(rk, MovedMeta(s.rows[rk]), record, Writing(UriFor(cfg, s.disk, rk.key, name, |record|), n));
    DoMove(cfg, s, rk).(disk := DiskWith(cfg, s.disk, rk.key, name, record[..n]),
                        mutator := Moving(job, s.mutator.todo - {rk}, s.mutator.id))
  }

  lemma HalfMoveRun(cfg: Config, s: Sys, rk: RowKey, name: SegmentName, n: nat) returns (run: seq<Sys>, acts: seq<Action>)
    requires cfg.segmented && CanMove(cfg, s, rk) && rk.tier == Nvme && n <= |MovedRecord(cfg, s, rk)|
    requires name.Compacted? && name.compactionId == s.mutator.id
    ensures Underway(cfg, s, run, acts, HalfMoved(cfg, s, rk, name, n))
  {
    hide Leads, Underway, Holds, Rewritten, ParseExtent, Extent, ValidMetadata;
    var record := MovedRecord(cfg, s, rk);
    var path := SegmentPath(rk.key, name);
    var s1 := DoMove(cfg, s, rk);
    var s2 := DoStartWrite(cfg, s1, name);
    var s3 := DoWrite(cfg, s2, n);
    AtStart(cfg, s);
    OneFurther(cfg, s, [s], [], s, Move(rk));
    OneFurther(cfg, s, [s] + [s1], [] + [Move(rk)], s1, StartWrite(name));
    OneFurther(cfg, s, [s] + [s1] + [s2], [] + [Move(rk)] + [StartWrite(name)], s2, WriteUpTo(n));
    run, acts := [s] + [s1] + [s2] + [s3], [] + [Move(rk)] + [StartWrite(name)] + [WriteUpTo(n)];
    assert record[0..n] == record[..n];
    assert s3.disk[path] == (if path in s.disk then s.disk[path] else []) + record[..n];
    assert s3.disk == DiskWith(cfg, s.disk, rk.key, name, record[..n]);
  }

  /** The state after the record was moved and the hold released. */
  function FullyMoved(cfg: Config, s: Sys, rk: RowKey, name: SegmentName): Sys
    requires CanMove(cfg, s, rk)
    requires MovedRows(s.rows, rk, MovedLocation(s.rows[rk], UriFor(cfg, s.disk, rk.key, name, |MovedRecord(cfg, s, rk)|)),
                       MovedMeta(s.rows[rk]), s.epoch).Ok?
  {
    var record, meta := MovedRecord(cfg, s, rk), MovedMeta(s.rows[rk]);
    var loc := MovedLocation(s.rows[rk], UriFor(cfg, s.disk, rk.key, name, |record|));
    s.(rows := MovedRows(s.rows, rk, loc, meta, s.epoch).value,
       disk := DiskWith(cfg, s.disk, rk.key, name, record),
       mutator := Compacting(s.mutator.todo - {rk}, s.mutator.id))
  }

  /** One record moved: acquire, write, publish, commit, release. */
  lemma MoveRun(cfg: Config, s: Sys, rk: RowKey, name: SegmentName) returns (run: seq<Sys>, acts: seq<Action>)
    requires Inv(cfg, s) && cfg.segmented && CanMove(cfg, s, rk) && rk.tier == Nvme
    requires name.Compacted? && name.compactionId == s.mutator.id && Compactor !in s.holders
    ensures MovedRows(s.rows, rk, MovedLocation(s.rows[rk], UriFor(cfg, s.disk, rk.key, name, |MovedRecord(cfg, s, rk)|)),
                      MovedMeta(s.rows[rk]), s.epoch).Ok?
    ensures Underway(cfg, s, run, acts, FullyMoved(cfg, s, rk, name))
  {
    hide Leads, Underway, Inv, Holds, Rewritten, ParseExtent, Extent, ValidMetadata, ValidUpsert, DescriptorAgrees, DiskWith;
    hide CanAcquire, CanBeginStore, CanReplay, CanBeginEvict, CanMemoryStore, CanSweep, CanEndSweep, MergedRow, CanStartWrite, CanWrite;
    var record := MovedRecord(cfg, s, rk);
    MoveIsAccepted(cfg, s, rk, UriFor(cfg, s.disk, rk.key, name, |record|));
    run, acts := HalfMoveRun(cfg, s, rk, name, |record|);
    assert record[..|record|] == record;
    var s3 := HalfMoved(cfg, s, rk, name, |record|);
    var s4 := DoPublish(cfg, s3);
    OneFurther(cfg, s, run, acts, s3, Publish);
    run, acts := run + [s4], acts + [Publish];
    run, acts := CommitAndRelease(cfg, s, run, acts, s4);
    assert DoReleaseMove(DoCommitMove(s4)).holders == s.holders;
  }

  /** The last two steps of a move. */
  lemma CommitAndRelease(cfg: Config, s: Sys, run: seq<Sys>, acts: seq<Action>, t: Sys) returns (run': seq<Sys>, acts': seq<Action>)
    requires Underway(cfg, s, run, acts, t) && CanCommitMove(t) && Compactor in t.holders
    ensures Underway(cfg, s, run', acts', DoReleaseMove(DoCommitMove(t)))
  {
    hide Underway, Upserted;
    hide CanAcquire, CanBeginStore, CanReplay, CanBeginEvict, CanMemoryStore, CanSweep, CanEndSweep, CanMove, CanStartWrite, CanWrite;
    var u := DoCommitMove(t);
    OneFurther(cfg, s, run, acts, t, CommitMove);
    OneFurther(cfg, s, run + [u], acts + [CommitMove], u, ReleaseMove);
    run', acts' := run + [u] + [DoReleaseMove(u)], acts + [CommitMove] + [ReleaseMove];
  }

  /** An error after `n` bytes of the record: the hold is released, the row stays where it was. */
  lemma TornMoveRun(cfg: Config, s: Sys, rk: RowKey, name: SegmentName, n: nat) returns (run: seq<Sys>, acts: seq<Action>)
    requires cfg.segmented && CanMove(cfg, s, rk) && rk.tier == Nvme && n <= |MovedRecord(cfg, s, rk)|
    requires name.Compacted? && name.compactionId == s.mutator.id && Compactor !in s.holders
    ensures Leads(cfg, s, run, acts, s.(rows := Released(Acquired(s.rows, rk, s.epoch), rk, s.epoch),
                                        disk := DiskWith(cfg, s.disk, rk.key, name, MovedRecord(cfg, s, rk)[..n]),
                                        mutator := Idle))
    ensures OnlyCompacts(acts)
  {
    hide Leads, Holds, Rewritten, ParseExtent, Extent, ValidMetadata, DiskWith;
    run, acts := HalfMoveRun(cfg, s, rk, name, n);
    var s3 := HalfMoved(cfg, s, rk, name, n);
    OneMore(cfg, s, run, acts, s3, Abort);
    run, acts := run + [DoAbort(cfg, s3)], acts + [Abort];
    assert DoAbort(cfg, s3).holders == s.holders;
  }

  /** An error before anything is written: acquired and released, nothing else. */
  lemma RefusedMoveRun(cfg: Config, s: Sys, rk: RowKey) returns (run: seq<Sys>, acts: seq<Action>)
    requires s.mutator.Compacting? && Compactor !in s.holders && IsActive(s.rows, rk) && Bytes(s, rk).Some?
    ensures Leads(cfg, s, run, acts, s.(rows := Released(Acquired(s.rows, rk, s.epoch), rk, s.epoch), mutator := Idle))
    ensures OnlyCompacts(acts)
  {
    hide Leads, Extent;
    var i := FreshReader(s.holders);
    var s1 := DoAbort(cfg, s);
    var s2 := DoAcquire(s1, i, rk);
    var s3 := DropHolder(s2, Reader(i));
    Standing(cfg, s);
    OneMore(cfg, s, [s], [], s, Abort);
    OneMore(cfg, s, [s] + [s1], [] + [Abort], s1, Acquire(i, rk));
    OneMore(cfg, s, [s] + [s1] + [s2], [] + [Abort] + [Acquire(i, rk)], s2, Release(i));
    run, acts := [s] + [s1] + [s2] + [s3], [] + [Abort] + [Acquire(i, rk)] + [Release(i)];
    assert s3.holders == s.holders;
  }

  // ----- whole compactions -----

  /** The same rows are active, with the same payloads under the same descriptors. */
  ghost predicate SameMeaning(cfg: Config, s: Sys, t: Sys) {
    forall rk ::
      && (IsActive(s.rows, rk) <==> IsActive(t.rows, rk))
      && (IsActive(s.rows, rk) ==>
            Payload(cfg, t, rk) == Payload(cfg, s, rk) && PayloadDescriptor(t.rows[rk].meta) == PayloadDescriptor(s.rows[rk].meta))
  }

  lemma CompactionsKeepMeaning(cfg: Config, s: Sys, run: seq<Sys>, acts: seq<Action>, t: Sys)
    requires FaithfulCodec(cfg.codec) && Inv(cfg, s) && Leads(cfg, s, run, acts, t) && OnlyCompacts(acts)
    ensures SameMeaning(cfg, s, t) && Inv(cfg, t)
  {
    hide Enabled, Step, CompactionStep, Inv, Payload, PayloadDescriptor;
    LeadsKeepsInv(cfg, s, run, acts, t);
    forall rk
      ensures IsActive(s.rows, rk) <==> IsActive(t.rows, rk)
      ensures IsActive(s.rows, rk) ==>
                Payload(cfg, t, rk) == Payload(cfg, s, rk) && PayloadDescriptor(t.rows[rk].meta) == PayloadDescriptor(s.rows[rk].meta)
    {
      CompactionPreservesMeaning(cfg, run, acts, |acts|, rk);
    }
  }

  /** Begin, and go on from there. */
  lemma FromTheStart(cfg: Config, s: Sys, id: nat, run: seq<Sys>, acts: seq<Action>, t: Sys)
    requires s.mutator.Idle? && cfg.segmented && Leads(cfg, DoBeginCompact(s, id), run, acts, t) && OnlyCompacts(acts)
    ensures Leads(cfg, s, [s] + run, [BeginCompact(id)] + acts, t) && OnlyCompacts([BeginCompact(id)] + acts)
  {
    hide Leads;
    var s1 := DoBeginCompact(s, id);
    Standing(cfg, s);
    OneMore(cfg, s, [s], [], s, BeginCompact(id));
    RunsJoin(cfg, s, [s] + [s1], [] + [BeginCompact(id)], s1, run, acts, t);
    assert run[0] == s1 by { LeadsFrom(cfg, s1, run, acts, t); }
    assert [s] + [s1] + run[1..] == [s] + run;
    assert [] + [BeginCompact(id)] + acts == [BeginCompact(id)] + acts;
  }

  lemma LeadsFrom(cfg: Config, s: Sys, run: seq<Sys>, acts: seq<Action>, t: Sys)
    requires Leads(cfg, s, run, acts, t)
    ensures |run| == |acts| + 1 && run[0] == s && run[|acts|] == t
  {}

  /** The run of a compaction that reaches its end, and what it leaves on disk. */
  lemma CompleteCompaction(cfg: Config, s: Sys, id: nat, run: seq<Sys>, acts: seq<Action>, t: Sys)
    requires FaithfulCodec(cfg.codec) && Inv(cfg, s) && s.mutator.Idle? && cfg.segmented
    requires Underway(cfg, DoBeginCompact(s, id), run, acts, t) && CanEndSweep(t)
    ensures Leads(cfg, s, [s] + (run + [t.(mutator := Idle)]), [BeginCompact(id)] + (acts + [EndSweep]), t.(mutator := Idle))
    ensures OnlyCompacts([BeginCompact(id)] + (acts + [EndSweep]))
    ensures Unheld(s.holders) && (forall p :: p in s.disk ==> !IsOutput(p, id)) ==> OnlyLiveRecords(t.(mutator := Idle))
  {
    hide Inv, CanEndSweep, OnlyLiveRecords, IsOutput, DoBeginCompact, IsRun, Unheld;
    var u := t.(mutator := Idle);
    var run2, acts2 := run + [u], acts + [EndSweep];
    OneMore(cfg, DoBeginCompact(s, id), run, acts, t, EndSweep);
    FromTheStart(cfg, s, id, run2, acts2, u);
    var run3, acts3 := [s] + run2, [BeginCompact(id)] + acts2;
    LeadsFrom(cfg, s, run3, acts3, u);
    if Unheld(s.holders) && (forall p :: p in s.disk ==> !IsOutput(p, id)) {
      forall m | 1 <= m < |acts3| ensures !run3[m].mutator.Idle? {
        assert run3[m] == run[m - 1];
      }
      CompactionLeavesOnlyLiveRecords(cfg, run3, acts3, id);
    }
  }
}
