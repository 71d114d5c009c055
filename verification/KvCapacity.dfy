/** The file tier stays within its limit, in every state of every run. */
module KvCapacity {
  import opened Identity
  import opened Metadata
  import opened Rows
  import opened Tiers
  import opened Accounting
  import opened KvProtocol
  import opened KvInvariant
  import opened KvSafety

  /** A store that has begun to write to the file tier has its bytes reserved. */
  predicate Claims(m: Mutator) {
    m.Storing? && m.job.rk.tier == Nvme && !m.job.write.NotStarted?
  }

  ghost predicate WithinLimit(cfg: Config, s: Sys) {
    && BytesUsed(s.rows, Nvme) <= cfg.maxBytes
    && (Claims(s.mutator) ==> BytesUsed(s.rows, Nvme) + s.mutator.job.meta.bytes <= cfg.maxBytes)
  }

  lemma SizesAreNatural(cfg: Config, s: Sys)
    requires Inv(cfg, s)
    ensures NaturalSizes(s.rows)
  {
    hide Placed, Counted, Pinned, MemoryBacked, MutatorOk, OneDescriptor;
    forall rk | rk in s.rows ensures s.rows[rk].bytes >= 0 {
      assert RowConsistent(rk, s.rows[rk]);
    }
  }

  /** A payload published again has the size it had. */
  lemma ReplayKeepsSizes(cfg: Config, s: Sys, rk: RowKey, meta: KVMetadata, data: seq<Byte>, now: Time)
    requires Inv(cfg, s) && CanReplay(cfg, s, rk, meta, data, now)
    ensures NotMoreIn(s.rows, DoReplay(cfg, s, rk, meta, data, now).rows, Nvme)
  {
    hide MutatorOk, Counted, Pinned, MemoryBacked, Placed, OneDescriptor, Payload, ValidUpsert, DescriptorAgrees, ValidMetadata;
    PayloadMatchesRow(cfg, s, rk);
    assert RowConsistent(rk, s.rows[rk]);
  }

  /** So has a record that was moved. */
  lemma MoveKeepsSizes(cfg: Config, s: Sys)
    requires Inv(cfg, s) && CanCommitMove(s)
    ensures NotMoreIn(s.rows, DoCommitMove(s).rows, Nvme)
  {
    hide Counted, Pinned, MemoryBacked, Placed, OneDescriptor, Payload, ValidUpsert, ValidMetadata, JobOk;
    var job := s.mutator.job;
    assert RowConsistent(job.rk, s.rows[job.rk]);
    assert job.rk == RowKey(job.meta.key, job.rk.tier) by { MovedKey(cfg, s); }
    assert PayloadDescriptor(s.rows[job.rk].meta) == PayloadDescriptor(job.meta);
  }

  lemma MovedKey(cfg: Config, s: Sys)
    requires Inv(cfg, s) && s.mutator.Moving?
    ensures s.mutator.job.meta.key == s.mutator.job.rk.key
  {
    hide Core;
  }

  /** Nor does any statement of the table besides the upsert. */
  lemma StatementsAddNothing(rows: Table, rk: RowKey, now: Time, epoch: string)
    ensures NotMoreIn(rows, Acquired(rows, rk, epoch), Nvme) && NotMoreIn(rows, Released(rows, rk, epoch), Nvme)
    ensures NotMoreIn(rows, Touched(rows, rk, now), Nvme)
    ensures NotMoreIn(rows, Tombstoned(rows, rk, epoch), Nvme) && NotMoreIn(rows, Finished(rows, rk), Nvme)
    ensures NotMoreIn(rows, rows - {rk}, Nvme)
  {}

  lemma MemoryAddsNothing(cfg: Config, s: Sys, m: KVMetadata)
    requires MemoryTable(s, m).Ok?
    ensures NotMoreIn(s.rows, MemoryTable(s, m).value, Nvme)
  {
    hide ValidUpsert, DescriptorAgrees;
  }

  lemma MutatorStepsAddNothing(cfg: Config, s: Sys, a: Action)
    requires Inv(cfg, s) && Enabled(cfg, s, a)
    requires a.Replay? || a.BeginEvict? || a.FinishDelete? || a.Move? || a.CommitMove? || a.ReleaseMove? || a.Abort?
    ensures NotMoreIn(s.rows, Step(cfg, s, a).rows, Nvme)
  {
    hide Inv, Holds, Rewritten, ParseExtent, Extent, BytesUsed, Payload, CanEndSweep, CanSweep, NotMoreIn;
    hide Acquired, Released, Touched, Tombstoned, Finished, Reopened, Upserted, MemoryTable, ReplayedTable, MovedTable, CommittedTable;
    match a
    case Replay(rk, meta, data, now) => ReplayKeepsSizes(cfg, s, rk, meta, data, now);
    case BeginEvict(rk) => StatementsAddNothing(s.rows, rk, 0, s.epoch);
    case FinishDelete => StatementsAddNothing(s.rows, s.mutator.rk, 0, s.epoch);
    case Move(rk) => StatementsAddNothing(s.rows, rk, 0, s.epoch);
    case CommitMove => MoveKeepsSizes(cfg, s);
    case ReleaseMove => StatementsAddNothing(s.rows, s.holders[Compactor].rk, 0, s.epoch);
    case Abort =>
      SameRowsAddNothing(s.rows);
      if Compactor in s.holders { StatementsAddNothing(s.rows, s.holders[Compactor].rk, 0, s.epoch); }
  }

  lemma OutsideStepsAddNothing(cfg: Config, s: Sys, a: Action)
    requires Enabled(cfg, s, a)
    requires a.Acquire? || a.Touch? || a.Release? || a.MemoryStore? || a.MemoryEvict? || a.DropStale? || a.Crash?
    ensures NotMoreIn(s.rows, Step(cfg, s, a).rows, Nvme)
  {
    hide Holds, Rewritten, ParseExtent, Extent, BytesUsed, Payload, CanEndSweep, CanSweep, NotMoreIn;
    hide Acquired, Released, Touched, Tombstoned, Finished, Reopened, Upserted, MemoryTable, ReplayedTable, MovedTable, CommittedTable;
    match a
    case Acquire(_, rk) => StatementsAddNothing(s.rows, rk, 0, s.epoch);
    case Touch(reader, now) => StatementsAddNothing(s.rows, s.holders[Reader(reader)].rk, now, s.epoch);
    case Release(reader) => StatementsAddNothing(s.rows, s.holders[Reader(reader)].rk, 0, s.epoch);
    case MemoryStore(key, meta, data, now) => MemoryAddsNothing(cfg, s, Sealed(cfg, meta, data, now));
    case MemoryEvict(key) => StatementsAddNothing(s.rows, RowKey(key, Memory), 0, s.epoch);
    case DropStale(rk) => StatementsAddNothing(s.rows, rk, 0, s.epoch);
    case Crash(_) => ReopeningAddsNothing(s.rows);
  }

  lemma ReopeningAddsNothing(rows: Table)
    ensures NotMoreIn(rows, Reopened(rows), Nvme)
  {}

  /** The remaining steps touch files and the mutator only. */
  predicate IsFileStep(a: Action) {
    a.BeginStore? || a.StartWrite? || a.WriteUpTo? || a.Publish? || a.Unlink? || a.BeginCompact? || a.BeginSweep? || a.Sweep? || a.EndSweep?
  }

  lemma FileStepsKeepRows(cfg: Config, s: Sys, a: Action)
    requires Enabled(cfg, s, a) && IsFileStep(a)
    ensures Step(cfg, s, a).rows == s.rows
  {
    hide Holds, Rewritten, ParseExtent, Extent, BytesUsed, Payload, CanEndSweep, CanSweep, NewRecord, CanBeginStore;
  }

  /** Every step but the commit of a store leaves the active rows of the file tier as they are, or fewer. */
  lemma OtherStepsAddNothing(cfg: Config, s: Sys, a: Action)
    requires Inv(cfg, s) && Enabled(cfg, s, a) && !a.Commit?
    ensures NotMoreIn(s.rows, Step(cfg, s, a).rows, Nvme)
  {
    hide Inv, Enabled, Step, NotMoreIn;
    if IsFileStep(a) {
      FileStepsKeepRows(cfg, s, a);
      SameRowsAddNothing(s.rows);
    } else if a.Acquire? || a.Touch? || a.Release? || a.MemoryStore? || a.MemoryEvict? || a.DropStale? || a.Crash? {
      OutsideStepsAddNothing(cfg, s, a);
    } else {
      MutatorStepsAddNothing(cfg, s, a);
    }
  }

  lemma SameRowsAddNothing(rows: Table)
    ensures NotMoreIn(rows, rows, Nvme)
  {}

  lemma NoNewClaims(cfg: Config, s: Sys, a: Action)
    requires Inv(cfg, s) && Enabled(cfg, s, a)
    ensures var t := Step(cfg, s, a);
            Claims(t.mutator) ==>
              && JobOf(s.mutator).Some? && s.mutator.Storing? && t.mutator.job.meta == s.mutator.job.meta
              && (Claims(s.mutator) || a.StartWrite?)
  {
    hide Core, Holds, Rewritten, ParseExtent, Extent, ValidUpsert, DescriptorAgrees, ValidMetadata, BytesUsed, Payload, CanEndSweep, CanSweep;
    hide JobOk, Unread, MoveOk;
  }

  lemma CommitFits(cfg: Config, s: Sys)
    requires Inv(cfg, s) && WithinLimit(cfg, s) && CanCommit(s)
    ensures WithinLimit(cfg, DoCommit(s))
  {
    hide Core, Holds, ValidUpsert, DescriptorAgrees, ValidMetadata, BytesUsed;
    var t, job := DoCommit(s), s.mutator.job;
    if job.rk.tier == Nvme {
      UsageAfterInsert(s.rows, job.rk, t.rows[job.rk]);
    } else {
      UsageFrame(s.rows, t.rows, Nvme);
    }
  }

  lemma StepFits(cfg: Config, s: Sys, a: Action)
    requires Inv(cfg, s) && WithinLimit(cfg, s) && Enabled(cfg, s, a)
    ensures WithinLimit(cfg, Step(cfg, s, a))
  {
    if a.Commit? {
      CommitFits(cfg, s);
    } else {
      assert a.StartWrite? ==> CanStartWrite(cfg, s, a.name) && Step(cfg, s, a).rows == s.rows by { StartKeepsRows(cfg, s, a); }
      hide Inv, Step, Enabled, BytesUsed, NotMoreIn, JobOf;
      OtherStepsAddNothing(cfg, s, a);
      SizesAreNatural(cfg, s);
      NotMoreUsage(s.rows, Step(cfg, s, a).rows, Nvme);
      NoNewClaims(cfg, s, a);
    }
  }

  lemma StartKeepsRows(cfg: Config, s: Sys, a: Action)
    requires Enabled(cfg, s, a)
    ensures a.StartWrite? ==> CanStartWrite(cfg, s, a.name) && Step(cfg, s, a).rows == s.rows
  {}

  lemma {:induction false} LimitsAreKept(cfg: Config, run: seq<Sys>, acts: seq<Action>, n: nat)
    requires FaithfulCodec(cfg.codec) && IsRun(cfg, run, acts) && Inv(cfg, run[0]) && WithinLimit(cfg, run[0]) && n < |run|
    ensures WithinLimit(cfg, run[n])
  {
    hide Inv, Step, Enabled, WithinLimit;
    if n > 0 {
      LimitsAreKept(cfg, run, acts, n - 1);
      RunsKeepInv(cfg, run, acts, n - 1);
      assert run[n - 1 + 1] == Step(cfg, run[n - 1], acts[n - 1]);
      StepFits(cfg, run[n - 1], acts[n - 1]);
    }
  }

  /**
   In every state of every run, whatever fails and whenever the process dies, the active bytes of the
   file tier are at most its limit.
   */
  lemma UsageStaysWithinLimit(cfg: Config, run: seq<Sys>, acts: seq<Action>, n: nat)
    requires FaithfulCodec(cfg.codec) && IsRun(cfg, run, acts) && Init(run[0]) && n < |run|
    ensures BytesUsed(run[n].rows, Nvme) <= cfg.maxBytes
  {
    hide Inv, Step, Enabled;
    InitIsSound(cfg, run[0]);
    assert ActiveKeys(run[0].rows, Nvme) == {};
    LimitsAreKept(cfg, run, acts, n);
  }
}
