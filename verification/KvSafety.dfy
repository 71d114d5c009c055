/**
 What the protocol promises over whole runs, with crashes, failures and any interleaving.

 The hypotheses are about JSON and SHA-256 only (`FaithfulCodec`); no run is excluded.
 */
module KvSafety {
  import opened Identity
  import opened Metadata
  import opened Record
  import opened Rows
  import opened Tiers
  import opened Accounting
  import opened KvProtocol
  import opened KvInvariant
  import opened KvSteps

  predicate IsCompactionStep(a: Action) {
    a.BeginCompact? || a.Move? || a.CommitMove? || a.ReleaseMove? || a.BeginSweep? || a.Sweep? || a.EndSweep? || a.Abort?
  }

  predicate IsStoreStep(a: Action) {
    a.BeginStore? || a.Replay? || a.StartWrite? || a.WriteUpTo? || a.Publish? || a.Commit? || a.BeginEvict? || a.Unlink? || a.FinishDelete?
  }

  lemma CompactionStepIsSafe(cfg: Config, s: Sys, a: Action)
    requires FaithfulCodec(cfg.codec) && Inv(cfg, s) && Enabled(cfg, s, a) && IsCompactionStep(a)
    ensures Inv(cfg, Step(cfg, s, a)) && Safe(cfg, s, Step(cfg, s, a))
  {
    hide Core, MutatorOk, Safe;
    hide CanMove, DoMove, CanCommitMove, DoCommitMove, CanReleaseMove, DoReleaseMove, DoBeginCompact, CanSweep, CanEndSweep, DoAbort;
    match a
    case BeginCompact(id) => BeginCompactIsSafe(cfg, s, id);
    case Move(rk) => MoveIsSafe(cfg, s, rk);
    case CommitMove => CommitMoveIsSafe(cfg, s);
    case ReleaseMove => ReleaseMoveIsSafe(cfg, s);
    case BeginSweep => SweepingIsSafe(cfg, s, Sweeping);
    case Sweep(path) => SweepIsSafe(cfg, s, path);
    case EndSweep => EndSweepIsSafe(cfg, s);
    case Abort => AbortIsSafe(cfg, s);
  }

  lemma EndSweepIsSafe(cfg: Config, s: Sys)
    requires Inv(cfg, s) && CanEndSweep(s)
    ensures Inv(cfg, s.(mutator := Idle)) && Safe(cfg, s, s.(mutator := Idle))
  {
    hide Inv, Safe;
    SweepingIsSafe(cfg, s, Idle);
  }

  lemma StoreStepIsSafe(cfg: Config, s: Sys, a: Action)
    requires FaithfulCodec(cfg.codec) && Inv(cfg, s) && Enabled(cfg, s, a) && IsStoreStep(a)
    ensures Inv(cfg, Step(cfg, s, a)) && Safe(cfg, s, Step(cfg, s, a))
  {
    hide Core, MutatorOk, Safe;
    hide CanBeginStore, DoBeginStore, CanReplay, DoReplay, CanStartWrite, DoStartWrite, CanWrite, DoWrite, CanPublish, DoPublish;
    hide CanCommit, DoCommit, CanBeginEvict, DoBeginEvict, CanUnlink, DoUnlink, CanFinishDelete, DoFinishDelete;
    match a
    case BeginStore(rk, meta, data, now) => BeginStoreIsSafe(cfg, s, rk, meta, data, now);
    case Replay(rk, meta, data, now) => ReplayIsSafe(cfg, s, rk, meta, data, now);
    case StartWrite(name) => StartWriteIsSafe(cfg, s, name);
    case WriteUpTo(n) => WriteIsSafe(cfg, s, n);
    case Publish => PublishIsSafe(cfg, s);
    case Commit => CommitIsSafe(cfg, s);
    case BeginEvict(rk) => BeginEvictIsSafe(cfg, s, rk);
    case Unlink => UnlinkIsSafe(cfg, s);
    case FinishDelete => FinishDeleteIsSafe(cfg, s);
  }

  lemma OtherStepIsSafe(cfg: Config, s: Sys, a: Action)
    requires Inv(cfg, s) && Enabled(cfg, s, a) && !IsCompactionStep(a) && !IsStoreStep(a)
    ensures Inv(cfg, Step(cfg, s, a)) && Safe(cfg, s, Step(cfg, s, a))
  {
    hide Core, MutatorOk, Safe;
    hide CanAcquire, DoAcquire, DoTouch, DropHolder, CanMemoryStore, DoMemoryStore, CanMemoryEvict, DoMemoryEvict, CanDropStale, DoCrash;
    match a
    case Acquire(reader, rk) => AcquireIsSafe(cfg, s, reader, rk);
    case Touch(reader, now) => TouchIsSafe(cfg, s, reader, now);
    case Release(reader) => ReleaseIsSafe(cfg, s, reader);
    case MemoryStore(key, meta, data, now) => MemoryStoreIsSafe(cfg, s, key, meta, data, now);
    case MemoryEvict(key) => MemoryEvictIsSafe(cfg, s, key);
    case DropStale(rk) => DropStaleIsSafe(cfg, s, rk);
    case Crash(epoch) => CrashIsSafe(cfg, s, epoch);
  }

  lemma StepIsSafe(cfg: Config, s: Sys, a: Action)
    requires FaithfulCodec(cfg.codec) && Inv(cfg, s) && Enabled(cfg, s, a)
    ensures Inv(cfg, Step(cfg, s, a)) && Safe(cfg, s, Step(cfg, s, a))
  {
    hide Inv, Safe, Step, Enabled;
    if IsCompactionStep(a) {
      CompactionStepIsSafe(cfg, s, a);
    } else if IsStoreStep(a) {
      StoreStepIsSafe(cfg, s, a);
    } else {
      OtherStepIsSafe(cfg, s, a);
    }
  }

  lemma SweepingIsSafe(cfg: Config, s: Sys, m: Mutator)
    requires Inv(cfg, s) && (s.mutator.Compacting? || s.mutator.Sweeping?) && (m.Sweeping? || m.Idle?)
    ensures Inv(cfg, s.(mutator := m)) && Safe(cfg, s, s.(mutator := m))
  {
    hide Consistent, RowSound, MemoryBacked, Safe, Counted, Pinned;
    DiskStep(cfg, s, s.(mutator := m));
  }

  lemma InitIsSound(cfg: Config, s: Sys)
    requires Init(s)
    ensures Inv(cfg, s)
  {}

  /** The invariant holds in every state of every run. */
  lemma {:induction false} RunsKeepInv(cfg: Config, run: seq<Sys>, acts: seq<Action>, n: nat)
    requires FaithfulCodec(cfg.codec) && IsRun(cfg, run, acts) && Inv(cfg, run[0]) && n < |run|
    ensures Inv(cfg, run[n])
  {
    hide Inv, Step, Enabled;
    if n > 0 {
      RunsKeepInv(cfg, run, acts, n - 1);
      StepIsSafe(cfg, run[n - 1], acts[n - 1]);
    }
  }

  // ----- publication -----

  /**
   Every active file or object row, in every reachable state, is backed by a complete record: the
   tier's own read finds a header and a payload that are what the row says they are.
   */
  lemma PublishedBlocksAreComplete(cfg: Config, run: seq<Sys>, acts: seq<Action>, n: nat, rk: RowKey) returns (p: Parsed)
    requires FaithfulCodec(cfg.codec) && IsRun(cfg, run, acts) && Init(run[0]) && n < |run|
    requires IsActive(run[n].rows, rk) && rk.tier != Memory
    ensures var row := run[n].rows[rk];
            && ReadLocation(cfg, rk.tier, run[n].disk, row.uri) == Ok(p)
            && Genuine(cfg, rk, row.bytes, row.checksum, row.meta, p)
            && |p.payload| == row.bytes && cfg.codec.sha256(p.payload) == row.checksum
            && Payload(cfg, run[n], rk) == Some(p.payload)
  {
    InitIsSound(cfg, run[0]);
    RunsKeepInv(cfg, run, acts, n);
    var s := run[n];
    assert RowSound(cfg, s.disk, rk, s.rows[rk]) && RowConsistent(rk, s.rows[rk]);
    p := ParseExtent(cfg, rk.tier, Extent(s.disk, s.rows[rk].uri).value).value;
    ReadIsParseOfExtent(cfg, rk, s.disk, s.rows[rk].uri, p);
  }

  // ----- readers -----

  /** The in-flight count of a row is exactly the number of acquisitions not yet released. */
  lemma CountIsHolders(cfg: Config, run: seq<Sys>, acts: seq<Action>, n: nat, rk: RowKey)
    requires FaithfulCodec(cfg.codec) && IsRun(cfg, run, acts) && Init(run[0]) && n < |run|
    requires rk in run[n].rows
    ensures Held(run[n].rows[rk], run[n].epoch) == |HoldersOf(run[n].holders, rk)|
    ensures HoldersOf(run[n].holders, rk) != {} ==> IsActive(run[n].rows, rk)
  {
    InitIsSound(cfg, run[0]);
    RunsKeepInv(cfg, run, acts, n);
    if h :| h in HoldersOf(run[n].holders, rk) {
      assert h in run[n].holders;
    }
  }

  /** No step but its own release and a crash takes a reader's hold away or alters it. */
  lemma HoldSurvives(cfg: Config, s: Sys, a: Action, reader: nat)
    requires Enabled(cfg, s, a) && Reader(reader) in s.holders
    requires a != Release(reader) && !a.Crash?
    ensures Reader(reader) in Step(cfg, s, a).holders
    ensures Step(cfg, s, a).holders[Reader(reader)] == s.holders[Reader(reader)]
  {
    hide Holds, Rewritten, ParseExtent, Extent, ValidUpsert, DescriptorAgrees, ValidMetadata, BytesUsed, Payload, CanSweep, CanEndSweep;
    hide Upserted, Acquired, Released, Touched, Tombstoned, Finished, Reopened, CanBeginStore, CanReplay, CanMemoryStore;
  }

  /**
   Pinning: from acquire to release, whatever else runs, the row stays active at the location the
   reader was given, and the bytes there are the bytes it saw when it acquired.
   */
  lemma {:induction false} ReadersArePinned(cfg: Config, run: seq<Sys>, acts: seq<Action>, i: nat, j: nat, reader: nat)
    requires FaithfulCodec(cfg.codec) && IsRun(cfg, run, acts) && Init(run[0])
    requires i <= j < |run| && Reader(reader) in run[i].holders
    requires forall m :: i <= m < j ==> acts[m] != Release(reader) && !acts[m].Crash?
    ensures Reader(reader) in run[j].holders && run[j].holders[Reader(reader)] == run[i].holders[Reader(reader)]
    ensures var hold := run[i].holders[Reader(reader)];
            && IsActive(run[j].rows, hold.rk)
            && run[j].rows[hold.rk].uri == hold.uri
            && Bytes(run[j], hold.rk) == Some(hold.bytes)
    decreases j - i
  {
    hide Step, Enabled, Extent;
    InitIsSound(cfg, run[0]);
    RunsKeepInv(cfg, run, acts, j);
    if i < j {
      ReadersArePinned(cfg, run, acts, i, j - 1, reader);
      HoldSurvives(cfg, run[j - 1], acts[j - 1], reader);
    }
  }

  // ----- immutability -----

  predicate Published(s: Sys, k: BlockKey) {
    exists rk :: rk in s.rows && rk.key == k
  }

  /** While a key has a row in some tier, active or deleting, its descriptor does not change. */
  lemma {:induction false} DescriptorIsFixed(cfg: Config, run: seq<Sys>, acts: seq<Action>, i: nat, j: nat, a: RowKey, b: RowKey)
    requires FaithfulCodec(cfg.codec) && IsRun(cfg, run, acts) && Init(run[0]) && i <= j < |run|
    requires a in run[i].rows && b in run[j].rows && a.key == b.key
    requires forall m :: i <= m <= j ==> Published(run[m], a.key)
    ensures PayloadDescriptor(run[i].rows[a].meta) == PayloadDescriptor(run[j].rows[b].meta)
    decreases j - i
  {
    hide Step, Enabled, PayloadDescriptor, PayloadsKept, TombstonesKept, MutatorOk, Placed, Counted, Pinned, MemoryBacked, RowConsistent;
    InitIsSound(cfg, run[0]);
    if i == j {
      RunsKeepInv(cfg, run, acts, i);
    } else {
      var c :| c in run[j - 1].rows && c.key == a.key;
      DescriptorIsFixed(cfg, run, acts, i, j - 1, a, c);
      RunsKeepInv(cfg, run, acts, j - 1);
      StepIsSafe(cfg, run[j - 1], acts[j - 1]);
    }
  }

  /** A payload that a load could hand out has the length and digest of its row's descriptor. */
  lemma PayloadMatchesRow(cfg: Config, s: Sys, rk: RowKey)
    requires Inv(cfg, s) && IsActive(s.rows, rk) && Payload(cfg, s, rk).Some?
    ensures var p := Payload(cfg, s, rk).value;
            |p| == s.rows[rk].meta.bytes && cfg.codec.sha256(p) == s.rows[rk].meta.checksum
  {
    hide MutatorOk, Counted, Pinned, OneDescriptor, ParseExtent;
    assert RowSound(cfg, s.disk, rk, s.rows[rk]) && RowConsistent(rk, s.rows[rk]);
    assert rk == RowKey(rk.key, rk.tier);
  }

  /** All loads of a key, from any tier, while it stays published agree in length and checksum. */
  lemma LoadsAgreeAcrossTiers(cfg: Config, run: seq<Sys>, acts: seq<Action>, i: nat, j: nat, a: RowKey, b: RowKey)
    requires FaithfulCodec(cfg.codec) && IsRun(cfg, run, acts) && Init(run[0]) && i <= j < |run|
    requires IsActive(run[i].rows, a) && IsActive(run[j].rows, b) && a.key == b.key
    requires Payload(cfg, run[i], a).Some? && Payload(cfg, run[j], b).Some?
    requires forall m :: i <= m <= j ==> Published(run[m], a.key)
    ensures var p, q := Payload(cfg, run[i], a).value, Payload(cfg, run[j], b).value;
            |p| == |q| && cfg.codec.sha256(p) == cfg.codec.sha256(q)
  {
    hide Inv, Step, Enabled, Payload;
    InitIsSound(cfg, run[0]);
    RunsKeepInv(cfg, run, acts, i);
    RunsKeepInv(cfg, run, acts, j);
    PayloadMatchesRow(cfg, run[i], a);
    PayloadMatchesRow(cfg, run[j], b);
    DescriptorIsFixed(cfg, run, acts, i, j, a, b);
  }

  /** A row that stays active keeps its very payload, across moves, replays and crashes. */
  lemma {:induction false} PayloadIsFixed(cfg: Config, run: seq<Sys>, acts: seq<Action>, i: nat, j: nat, rk: RowKey)
    requires FaithfulCodec(cfg.codec) && IsRun(cfg, run, acts) && Init(run[0]) && i <= j < |run|
    requires forall m :: i <= m <= j ==> IsActive(run[m].rows, rk)
    requires Payload(cfg, run[j], rk).Some?
    ensures Payload(cfg, run[i], rk) == Payload(cfg, run[j], rk)
    decreases j - i
  {
    hide Step, Enabled, Inv, Payload, DescriptorsKept, TombstonesKept;
    InitIsSound(cfg, run[0]);
    if i < j {
      RunsKeepInv(cfg, run, acts, j - 1);
      StepIsSafe(cfg, run[j - 1], acts[j - 1]);
      PayloadIsFixed(cfg, run, acts, i, j - 1, rk);
    }
  }

  // ----- tombstones -----

  /** A tombstone never turns active: until the row is gone it stays a tombstone, through crashes too. */
  lemma {:induction false} TombstonesStay(cfg: Config, run: seq<Sys>, acts: seq<Action>, i: nat, j: nat, rk: RowKey)
    requires FaithfulCodec(cfg.codec) && IsRun(cfg, run, acts) && Init(run[0]) && i <= j < |run|
    requires IsDeleting(run[i].rows, rk)
    requires forall m :: i <= m <= j ==> rk in run[m].rows
    ensures IsDeleting(run[j].rows, rk) && run[j].rows[rk].uri == run[i].rows[rk].uri
    decreases j - i
  {
    hide Step, Enabled, Inv, DescriptorsKept, PayloadsKept;
    InitIsSound(cfg, run[0]);
    if i < j {
      TombstonesStay(cfg, run, acts, i, j - 1, rk);
      RunsKeepInv(cfg, run, acts, j - 1);
      StepIsSafe(cfg, run[j - 1], acts[j - 1]);
    }
  }

  /** The step acquires the row, begins or commits a store or a move of it, or publishes it in memory. */
  predicate Targets(s: Sys, a: Action, rk: RowKey) {
    match a
    case Acquire(_, k) => k == rk
    case BeginStore(k, _, _, _) => k == rk
    case Replay(k, _, _, _) => k == rk
    case Commit => s.mutator.Storing? && s.mutator.job.rk == rk
    case Move(k) => k == rk
    case CommitMove => s.mutator.Moving? && s.mutator.job.rk == rk
    case MemoryStore(key, _, _, _) => rk == RowKey(key, Memory)
    case _ => false
  }

  lemma TombstoneIsNoTarget(cfg: Config, s: Sys, a: Action, rk: RowKey)
    requires IsDeleting(s.rows, rk) && Enabled(cfg, s, a)
    ensures !Targets(s, a, rk)
  {
    hide Holds, Rewritten, ParseExtent, Extent, ValidUpsert, ValidMetadata, Payload, CanSweep, CanEndSweep, NewRecord;
  }

  /**
   A tombstone blocks its row: for as long as the row is there no step of the run acquires it, begins
   or commits a store or a move of it, or publishes it in memory, through failures and crashes.
   */
  lemma TombstonesBlockStores(cfg: Config, run: seq<Sys>, acts: seq<Action>, i: nat, j: nat, rk: RowKey)
    requires FaithfulCodec(cfg.codec) && IsRun(cfg, run, acts) && Init(run[0]) && i <= j < |acts|
    requires IsDeleting(run[i].rows, rk) && forall m :: i <= m <= j ==> rk in run[m].rows
    ensures !Targets(run[j], acts[j], rk)
  {
    hide Step, Enabled;
    TombstonesStay(cfg, run, acts, i, j, rk);
    TombstoneIsNoTarget(cfg, run[j], acts[j], rk);
  }
}
