/**
 What a finished compaction leaves behind: if nobody was reading from the tier when it began, every
 byte of every remaining segment file belongs to the record of exactly one active row.
 */
module KvCompaction {
  import opened Metadata
  import opened Rows
  import opened Tiers
  import opened KvProtocol
  import opened KvInvariant
  import opened KvSafety

  /** Nobody reads from the file tier; readers of other tiers do not matter. */
  ghost predicate Unheld(holders: map<Holder, Hold>) {
    forall h :: h in holders ==> holders[h].rk.tier != Nvme
  }

  /** A file written by the compaction with this id. */
  predicate IsOutput(p: Path, id: nat) {
    p.SegmentFile? && p.name.Compacted? && p.name.compactionId == id
  }

  predicate InRecord(uri: Uri, p: Path, i: int) {
    uri.SegmentUri? && uri.path == p && uri.offset <= i < uri.offset + uri.recordBytes
  }

  /** Byte `i` of file `p` belongs to the record of the active row `rk`. */
  predicate Covers(rows: Table, rk: RowKey, p: Path, i: int) {
    IsActive(rows, rk) && rk.tier == Nvme && InRecord(rows[rk].uri, p, i)
  }

  /** Byte `i` of file `p` was written for the record that is being moved. */
  predicate JobCovers(m: Mutator, p: Path, i: int) {
    match JobOf(m)
    case None => false
    case Some(job) =>
      match job.write
      case NotStarted => false
      case Writing(uri, done) => uri.SegmentUri? && uri.path == p && uri.offset <= i < uri.offset + done
      case Written(uri) => InRecord(uri, p, i)
  }

  function JobUri(m: Mutator): Option<Uri> {
    match JobOf(m)
    case None => None
    case Some(job) =>
      match job.write
      case NotStarted => None
      case Writing(uri, _) => Some(uri)
      case Written(uri) => Some(uri)
  }

  /** The rows whose records are still in their old place. */
  function Pending(m: Mutator): set<RowKey> {
    match m
    case Compacting(todo, _) => todo
    case Moving(job, todo, _) => todo + {job.rk}
    case Moved(_, todo, _) => todo
    case _ => {}
  }

  predicate AtWork(m: Mutator, id: nat) {
    match m
    case Compacting(_, n) => n == id
    case Moving(_, _, n) => n == id
    case Moved(_, _, n) => n == id
    case Sweeping => true
    case _ => false
  }

  /** Moved rows lie in output files, the others do not. */
  ghost predicate Separated(s: Sys, id: nat) {
    forall rk :: IsActive(s.rows, rk) && rk.tier == Nvme ==>
      s.rows[rk].uri.SegmentUri? && (rk in Pending(s.mutator) <==> !IsOutput(s.rows[rk].uri.path, id))
  }

  ghost predicate Owned(rows: Table, p: Path, i: int) {
    exists rk :: Covers(rows, rk, p, i)
  }

  /** No byte of an output file is without an owner. */
  ghost predicate Covered(s: Sys, id: nat) {
    forall p, i :: p in s.disk && IsOutput(p, id) && 0 <= i < |s.disk[p]| ==>
      JobCovers(s.mutator, p, i) || Owned(s.rows, p, i)
  }

  /** No byte of an output file has two owners. */
  ghost predicate Disjoint(s: Sys, id: nat) {
    forall p, i, a, b :: IsOutput(p, id) && Covers(s.rows, a, p, i) && Covers(s.rows, b, p, i) ==> a == b
  }

  /** The record being written goes behind all records of its file, into an output file. */
  ghost predicate Behind(s: Sys, id: nat) {
    JobUri(s.mutator).Some? ==>
      var uri := JobUri(s.mutator).value;
      && uri.SegmentUri? && IsOutput(uri.path, id)
      && forall rk :: IsActive(s.rows, rk) && rk.tier == Nvme && s.rows[rk].uri.SegmentUri? && s.rows[rk].uri.path == uri.path ==>
           s.rows[rk].uri.offset + s.rows[rk].uri.recordBytes <= uri.offset
  }

  ghost predicate Tiling(s: Sys, id: nat) {
    && AtWork(s.mutator, id)
    && (forall h :: h in s.holders ==> h.Compactor? || s.holders[h].rk.tier != Nvme)
    && Separated(s, id) && Covered(s, id) && Disjoint(s, id) && Behind(s, id)
  }

  ghost predicate OwnedOnce(rows: Table, p: Path, i: int) {
    exists rk :: Covers(rows, rk, p, i) && forall other :: Covers(rows, other, p, i) ==> other == rk
  }

  /** Every byte of every segment file is part of exactly one live record. */
  ghost predicate OnlyLiveRecords(s: Sys) {
    forall p, i :: p in s.disk && p.SegmentFile? && 0 <= i < |s.disk[p]| ==> OwnedOnce(s.rows, p, i)
  }

  // ----- the phases -----

  lemma TilingBegins(cfg: Config, s: Sys, id: nat)
    requires Inv(cfg, s) && Enabled(cfg, s, BeginCompact(id)) && Unheld(s.holders)
    requires forall p :: p in s.disk ==> !IsOutput(p, id)
    ensures Tiling(DoBeginCompact(s, id), id)
  {
    hide Consistent, MemoryBacked, Holds;
    var t := DoBeginCompact(s, id);
    forall rk | IsActive(s.rows, rk) && rk.tier == Nvme
      ensures rk in Pending(t.mutator) && s.rows[rk].uri.SegmentUri? && !IsOutput(s.rows[rk].uri.path, id)
    {
      assert RowSound(cfg, s.disk, rk, s.rows[rk]);
      assert HoldersOf(s.holders, rk) == {};
    }
  }

  lemma TilingAfterMove(cfg: Config, s: Sys, id: nat, rk: RowKey)
    requires Inv(cfg, s) && Tiling(s, id) && CanMove(cfg, s, rk)
    ensures Tiling(DoMove(cfg, s, rk), id)
  {
    hide Inv, Holds, Rewritten, ParseExtent, Extent;
    var t := DoMove(cfg, s, rk);
    assert Pending(t.mutator) == Pending(s.mutator);
    SameRecords(s, t, id);
  }

  /** Coverage speaks of active rows and their locations only. */
  lemma SameRecords(s: Sys, t: Sys, id: nat)
    requires Separated(s, id) && Covered(s, id) && Disjoint(s, id)
    requires s.disk == t.disk && Pending(t.mutator) == Pending(s.mutator)
    requires forall p, i :: JobCovers(s.mutator, p, i) ==> JobCovers(t.mutator, p, i)
    requires s.rows.Keys == t.rows.Keys
    requires forall rk :: rk in s.rows ==> s.rows[rk].uri == t.rows[rk].uri && s.rows[rk].state == t.rows[rk].state
    ensures Separated(t, id) && Covered(t, id) && Disjoint(t, id)
  {
    forall rk, p, i
      ensures Covers(s.rows, rk, p, i) == Covers(t.rows, rk, p, i)
    {}
  }

  lemma TilingAfterRelease(s: Sys, id: nat)
    requires Tiling(s, id) && CanReleaseMove(s)
    ensures Tiling(DoReleaseMove(s), id)
  {
    SameRecords(s, DoReleaseMove(s), id);
  }

  /** A reader of another tier touches or releases its row. */
  lemma TilingBesideReaders(cfg: Config, s: Sys, id: nat, a: Action)
    requires Tiling(s, id) && Enabled(cfg, s, a) && (a.Touch? || a.Release?)
    ensures Tiling(Step(cfg, s, a), id)
  {
    SameRecords(s, Step(cfg, s, a), id);
  }

  lemma TilingAfterStart(cfg: Config, s: Sys, id: nat, name: SegmentName)
    requires Inv(cfg, s) && Tiling(s, id) && CanStartWrite(cfg, s, name)
    ensures Tiling(DoStartWrite(cfg, s, name), id)
  {
    hide Consistent, MemoryBacked, Counted, Pinned, Holds;
    var t := DoStartWrite(cfg, s, name);
    var uri := JobUri(t.mutator).value;
    forall rk | IsActive(s.rows, rk) && rk.tier == Nvme && s.rows[rk].uri.path == uri.path
      ensures s.rows[rk].uri.offset + s.rows[rk].uri.recordBytes <= uri.offset
    {
      assert RowSound(cfg, s.disk, rk, s.rows[rk]);
    }
    CoveredGrows(s, t, id);
  }

  /** Bytes appended by the job are covered by the job. */
  lemma CoveredGrows(s: Sys, t: Sys, id: nat)
    requires Covered(s, id) && t.rows == s.rows
    requires forall p, i :: JobCovers(s.mutator, p, i) ==> JobCovers(t.mutator, p, i)
    requires forall p, i :: p in t.disk && IsOutput(p, id) && 0 <= i < |t.disk[p]| ==>
               (p in s.disk && i < |s.disk[p]|) || JobCovers(t.mutator, p, i)
    ensures Covered(t, id)
  {
    forall p, i | p in t.disk && IsOutput(p, id) && 0 <= i < |t.disk[p]|
      ensures JobCovers(t.mutator, p, i) || Owned(t.rows, p, i)
    {
      if p in s.disk && i < |s.disk[p]| && !JobCovers(s.mutator, p, i) {
        var rk :| Covers(s.rows, rk, p, i);
        assert Covers(t.rows, rk, p, i);
      }
    }
  }

  lemma TilingAfterWrite(cfg: Config, s: Sys, id: nat, n: nat)
    requires Inv(cfg, s) && Tiling(s, id) && CanWrite(cfg, s, n)
    ensures Tiling(DoWrite(cfg, s, n), id)
  {
    hide Consistent, Clocked, Placed, MemoryBacked, Counted, Pinned, Holds;
    CoveredGrows(s, DoWrite(cfg, s, n), id);
  }

  lemma TilingAfterPublish(cfg: Config, s: Sys, id: nat)
    requires Inv(cfg, s) && Tiling(s, id) && CanPublish(s)
    ensures Tiling(DoPublish(cfg, s), id)
  {
    hide Consistent, Clocked, Placed, MemoryBacked, Counted, Pinned, Holds;
    CoveredGrows(s, DoPublish(cfg, s), id);
  }

  /** The moved row takes over the bytes of the job. */
  lemma TilingAfterCommit(cfg: Config, s: Sys, id: nat)
    requires Inv(cfg, s) && Tiling(s, id) && CanCommitMove(s)
    ensures Tiling(DoCommitMove(s), id)
  {
    hide Consistent, Clocked, Placed, MemoryBacked, Counted, Pinned, Holds, ValidUpsert, DescriptorAgrees, Extent, JobOk, PayloadOf;
    var t, job := DoCommitMove(s), s.mutator.job;
    assert job.rk !in s.mutator.todo by {
      assert Compactor in HoldersOf(s.holders, job.rk);
    }
    assert t.rows[job.rk].uri == job.write.uri && IsActive(t.rows, job.rk);
    CommitCovers(s, t, id);
  }

  lemma CommitCovers(s: Sys, t: Sys, id: nat)
    requires Tiling(s, id) && CanCommitMove(s) && t == DoCommitMove(s)
    requires IsActive(s.rows, s.mutator.job.rk) && s.mutator.job.rk.tier == Nvme
    ensures Covered(t, id) && Disjoint(t, id)
  {
    hide ValidUpsert, DescriptorAgrees;
    var job := s.mutator.job;
    forall p, i | p in t.disk && IsOutput(p, id) && 0 <= i < |t.disk[p]|
      ensures Owned(t.rows, p, i)
    {
      if JobCovers(s.mutator, p, i) {
        assert Covers(t.rows, job.rk, p, i);
      } else {
        var rk :| Covers(s.rows, rk, p, i);
        assert rk != job.rk;
        assert Covers(t.rows, rk, p, i);
      }
    }
    forall p, i, a, b | IsOutput(p, id) && Covers(t.rows, a, p, i) && Covers(t.rows, b, p, i)
      ensures a == b
    {
      assert a != job.rk ==> Covers(s.rows, a, p, i);
      assert b != job.rk ==> Covers(s.rows, b, p, i);
    }
  }

  lemma TilingAfterSweep(s: Sys, id: nat, path: Path)
    requires Tiling(s, id) && CanSweep(s, path)
    ensures Tiling(s.(disk := s.disk - {path}), id)
  {
    CoveredGrows(s, s.(disk := s.disk - {path}), id);
  }

  lemma TilingAfterBeginSweep(s: Sys, id: nat)
    requires Tiling(s, id) && s.mutator.Compacting? && s.mutator.todo == {}
    ensures Tiling(s.(mutator := Sweeping), id)
  {
    SameRecords(s, s.(mutator := Sweeping), id);
  }

  lemma SweptIsLive(s: Sys, id: nat)
    requires Tiling(s, id) && CanEndSweep(s)
    ensures OnlyLiveRecords(s.(mutator := Idle))
  {
    forall p, i | p in s.disk && p.SegmentFile? && 0 <= i < |s.disk[p]|
      ensures OwnedOnce(s.rows, p, i)
    {
      assert Referenced(s.rows, p);
      assert IsOutput(p, id);
      assert !JobCovers(s.mutator, p, i) && Owned(s.rows, p, i);
      var rk :| Covers(s.rows, rk, p, i);
    }
  }

  // ----- whole compactions -----

  lemma TilingStep(cfg: Config, s: Sys, a: Action, id: nat)
    requires Inv(cfg, s) && Tiling(s, id) && Enabled(cfg, s, a)
    requires !Step(cfg, s, a).mutator.Idle?
    ensures Tiling(Step(cfg, s, a), id)
  {
    hide Core, MutatorOk, Separated, Covered, Disjoint, Behind;
    match a
    case Touch(_, _) => TilingBesideReaders(cfg, s, id, a);
    case Release(_) => TilingBesideReaders(cfg, s, id, a);
    case Move(rk) => TilingAfterMove(cfg, s, id, rk);
    case StartWrite(name) => TilingAfterStart(cfg, s, id, name);
    case WriteUpTo(n) => TilingAfterWrite(cfg, s, id, n);
    case Publish => TilingAfterPublish(cfg, s, id);
    case CommitMove => TilingAfterCommit(cfg, s, id);
    case ReleaseMove => TilingAfterRelease(s, id);
    case BeginSweep => TilingAfterBeginSweep(s, id);
    case Sweep(path) => TilingAfterSweep(s, id, path);
    case _ =>
  }

  lemma {:induction false} TilingThroughout(cfg: Config, run: seq<Sys>, acts: seq<Action>, id: nat, n: nat)
    requires FaithfulCodec(cfg.codec) && IsRun(cfg, run, acts) && Inv(cfg, run[0])
    requires 0 < n < |run| && acts[0] == BeginCompact(id)
    requires Unheld(run[0].holders) && (forall p :: p in run[0].disk ==> !IsOutput(p, id))
    requires forall m :: 1 <= m <= n ==> !run[m].mutator.Idle?
    ensures Tiling(run[n], id)
  {
    hide Inv, Step, Enabled, Tiling;
    if n == 1 {
      TilingFirst(cfg, run[0], id);
    } else {
      TilingThroughout(cfg, run, acts, id, n - 1);
      RunsKeepInv(cfg, run, acts, n - 1);
      assert Enabled(cfg, run[n - 1], acts[n - 1]) && run[n - 1 + 1] == Step(cfg, run[n - 1], acts[n - 1]);
      assert !run[n].mutator.Idle?;
      TilingStep(cfg, run[n - 1], acts[n - 1], id);
    }
  }

  lemma TilingFirst(cfg: Config, s: Sys, id: nat)
    requires Inv(cfg, s) && Enabled(cfg, s, BeginCompact(id)) && Unheld(s.holders)
    requires forall p :: p in s.disk ==> !IsOutput(p, id)
    ensures Tiling(Step(cfg, s, BeginCompact(id)), id)
  {
    TilingBegins(cfg, s, id);
  }

  /**
   A compaction that runs from its start to its end, begun while nobody was reading from the tier and under an id
   that no file carries yet, leaves segment files made of live records and nothing else.
   */
  lemma CompactionLeavesOnlyLiveRecords(cfg: Config, run: seq<Sys>, acts: seq<Action>, id: nat)
    requires FaithfulCodec(cfg.codec) && IsRun(cfg, run, acts) && Inv(cfg, run[0])
    requires |acts| >= 2 && acts[0] == BeginCompact(id) && acts[|acts| - 1] == EndSweep
    requires Unheld(run[0].holders) && (forall p :: p in run[0].disk ==> !IsOutput(p, id))
    requires forall m :: 1 <= m < |acts| ==> !run[m].mutator.Idle?
    ensures OnlyLiveRecords(run[|acts|])
  {
    hide Inv, Tiling, OnlyLiveRecords;
    var n := |acts| - 1;
    TilingThroughout(cfg, run, acts, id, n);
    SweptIsLive(run[n], id);
  }

  // ----- meaning -----

  /** The steps of a compaction, of a write it makes, and of readers beside it; it may also give up. */
  predicate CompactionStep(a: Action) {
    match a
    case Acquire(_, _) => true
    case Touch(_, _) => true
    case Release(_) => true
    case StartWrite(_) => true
    case WriteUpTo(_) => true
    case Publish => true
    case BeginCompact(_) => true
    case Move(_) => true
    case CommitMove => true
    case ReleaseMove => true
    case BeginSweep => true
    case Sweep(_) => true
    case EndSweep => true
    case Abort => true
    case _ => false
  }

  /** The same rows in the same states, and the same process memory. */
  ghost predicate SameStates(s: Sys, t: Sys) {
    && t.rows.Keys == s.rows.Keys && t.mem == s.mem
    && forall rk :: rk in s.rows ==> t.rows[rk].state == s.rows[rk].state
  }

  lemma ReaderKeepsStates(cfg: Config, s: Sys, a: Action)
    requires Enabled(cfg, s, a) && (a.Acquire? || a.Touch? || a.Release?)
    ensures SameStates(s, Step(cfg, s, a))
  {
    hide Bytes;
  }

  lemma WriteKeepsStates(cfg: Config, s: Sys, a: Action)
    requires Enabled(cfg, s, a) && (a.StartWrite? || a.WriteUpTo? || a.Publish?)
    ensures SameStates(s, Step(cfg, s, a))
  {
    hide CanStartWrite, CanWrite, CanPublish;
  }

  lemma MoveKeepsStates(cfg: Config, s: Sys, a: Action)
    requires Enabled(cfg, s, a) && (a.Move? || a.CommitMove? || a.ReleaseMove?)
    requires s.mutator.Moving? ==> IsActive(s.rows, s.mutator.job.rk)
    ensures SameStates(s, Step(cfg, s, a))
  {
    hide CanMove, Bytes, ParseExtent, Rewritten, ValidUpsert, DescriptorAgrees;
  }

  lemma SweepKeepsStates(cfg: Config, s: Sys, a: Action)
    requires Enabled(cfg, s, a) && (a.BeginCompact? || a.BeginSweep? || a.Sweep? || a.EndSweep? || a.Abort?)
    ensures SameStates(s, Step(cfg, s, a))
  {
    hide CanSweep, CanEndSweep;
  }

  lemma CompactionKeepsStates(cfg: Config, s: Sys, a: Action)
    requires Enabled(cfg, s, a) && CompactionStep(a)
    requires s.mutator.Moving? ==> IsActive(s.rows, s.mutator.job.rk)
    ensures SameStates(s, Step(cfg, s, a))
  {
    hide Enabled, Step, SameStates;
    if a.Acquire? || a.Touch? || a.Release? {
      ReaderKeepsStates(cfg, s, a);
    } else if a.StartWrite? || a.WriteUpTo? || a.Publish? {
      WriteKeepsStates(cfg, s, a);
    } else if a.Move? || a.CommitMove? || a.ReleaseMove? {
      MoveKeepsStates(cfg, s, a);
    } else {
      SweepKeepsStates(cfg, s, a);
    }
  }

  lemma CompactionStepKeepsPayload(cfg: Config, s: Sys, t: Sys, rk: RowKey)
    requires Inv(cfg, t) && Safe(cfg, s, t) && t.mem == s.mem
    requires IsActive(s.rows, rk) && IsActive(t.rows, rk)
    ensures Payload(cfg, t, rk) == Payload(cfg, s, rk)
    ensures PayloadDescriptor(t.rows[rk].meta) == PayloadDescriptor(s.rows[rk].meta)
  {
    hide MutatorOk, Consistent, Clocked, MemoryBacked, Counted, Pinned, Holds, TombstonesKept, PayloadDescriptor;
    if rk.tier != Memory {
      assert RowSound(cfg, t.disk, rk, t.rows[rk]);
    }
  }

  /**
   Compaction preserves meaning: whatever part of it has run, with readers coming and going and with
   an error at any point, the same rows are active, and each reads the same payload under the same
   descriptor as before.
   */
  lemma {:induction false} CompactionPreservesMeaning(cfg: Config, run: seq<Sys>, acts: seq<Action>, n: nat, rk: RowKey)
    requires FaithfulCodec(cfg.codec) && IsRun(cfg, run, acts) && Inv(cfg, run[0]) && n < |run|
    requires forall i :: 0 <= i < |acts| ==> CompactionStep(acts[i])
    ensures IsActive(run[n].rows, rk) <==> IsActive(run[0].rows, rk)
    ensures IsActive(run[0].rows, rk) ==>
              && Payload(cfg, run[n], rk) == Payload(cfg, run[0], rk)
              && PayloadDescriptor(run[n].rows[rk].meta) == PayloadDescriptor(run[0].rows[rk].meta)
  {
    hide Step, Enabled, Core, Safe, Payload, PayloadDescriptor;
    if n > 0 {
      var s, a := run[n - 1], acts[n - 1];
      CompactionPreservesMeaning(cfg, run, acts, n - 1, rk);
      RunsKeepInv(cfg, run, acts, n - 1);
      StepIsSafe(cfg, s, a);
      assert CompactionStep(a) && run[n - 1 + 1] == Step(cfg, s, a);
      CompactionKeepsStates(cfg, s, a);
      if IsActive(s.rows, rk) {
        CompactionStepKeepsPayload(cfg, s, run[n], rk);
      }
    }
  }
}
