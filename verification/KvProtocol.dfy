/**
 The publication, deletion and compaction protocol as interleaved steps.

 Readers acquire a row, read its bytes and release it. One thread at a time holds the mutation
 lock and stores, evicts or compacts; every physical effect and every table statement of such an
 operation is a step of its own, writes grow byte by byte, any of them may fail, and the process
 may die between any two steps. A reader joins the mutation lock only for the instant in which it
 acquires; reading, touching and releasing go on while a mutation is under way.
 */
module KvProtocol {
  import opened Identity
  import opened Metadata
  import opened Rows
  import opened Tiers
  import opened Accounting

  datatype Holder = Reader(id: nat) | Compactor

  /** What a holder saw when it acquired: the row, its location, and the bytes there. */
  datatype Hold = Hold(rk: RowKey, uri: Uri, bytes: seq<Byte>)

  datatype Write = NotStarted | Writing(uri: Uri, done: nat) | Written(uri: Uri)

  /** A record on its way to the disk, for a row still to be published or moved. */
  datatype Job = Job(rk: RowKey, meta: KVMetadata, record: seq<Byte>, write: Write)

  /** Where the holder of the mutation lock stands. */
  datatype Mutator =
    | Idle
    | Storing(job: Job)
    | Evicting(rk: RowKey, unlinked: bool, resume: Mutator)
    | Compacting(todo: set<RowKey>, id: nat)
    | Moving(job: Job, todo: set<RowKey>, id: nat)
    | Moved(rk: RowKey, todo: set<RowKey>, id: nat)
    | Sweeping

  datatype Sys = Sys(
    rows: Table,
    disk: Disk,
    mem: map<BlockKey, seq<Byte>>,
    holders: map<Holder, Hold>,
    mutator: Mutator,
    epoch: string)

  datatype Action =
    | Acquire(reader: nat, rk: RowKey)
    | Touch(reader: nat, now: Time)
    | Release(reader: nat)
    | BeginStore(rk: RowKey, meta: KVMetadata, data: seq<Byte>, now: Time)
    | Replay(rk: RowKey, meta: KVMetadata, data: seq<Byte>, now: Time)
    | StartWrite(name: SegmentName)
    | WriteUpTo(n: nat)
    | Publish
    | Commit
    | BeginEvict(rk: RowKey)
    | Unlink
    | FinishDelete
    | BeginCompact(id: nat)
    | Move(rk: RowKey)
    | CommitMove
    | ReleaseMove
    | BeginSweep
    | Sweep(path: Path)
    | EndSweep
    | Abort
    | MemoryStore(key: BlockKey, meta: KVMetadata, data: seq<Byte>, now: Time)
    | MemoryEvict(key: BlockKey)
    | DropStale(rk: RowKey)
    | Crash(epoch: string)

  /** The bytes behind a row: in the process for the memory tier, on disk or in the bucket otherwise. */
  function Bytes(s: Sys, rk: RowKey): Option<seq<Byte>> {
    if rk.tier == Memory then (if rk.key in s.mem then Some(s.mem[rk.key]) else None)
    else if rk in s.rows then Extent(s.disk, s.rows[rk].uri)
    else None
  }

  /** The payload a load of the row would hand out. */
  function Payload(cfg: Config, s: Sys, rk: RowKey): Option<seq<Byte>> {
    match Bytes(s, rk)
    case None => None
    case Some(b) => if rk.tier == Memory then Some(b) else Some(PayloadOf(cfg, rk.tier, b))
  }

  // ----- reader steps -----

  predicate CanAcquire(s: Sys, reader: nat, rk: RowKey) {
    && s.mutator.Idle?
    && Reader(reader) !in s.holders
    && IsActive(s.rows, rk)
    && Bytes(s, rk).Some?
  }

  function DoAcquire(s: Sys, reader: nat, rk: RowKey): Sys
    requires CanAcquire(s, reader, rk)
  {
    s.(rows := Acquired(s.rows, rk, s.epoch),
       holders := s.holders[Reader(reader) := Hold(rk, s.rows[rk].uri, Bytes(s, rk).value)])
  }

  function DoTouch(s: Sys, reader: nat, now: Time): Sys
    requires Reader(reader) in s.holders
  {
    s.(rows := Touched(s.rows, s.holders[Reader(reader)].rk, now))
  }

  function DropHolder(s: Sys, h: Holder): Sys
    requires h in s.holders
  {
    s.(rows := Released(s.rows, s.holders[h].rk, s.epoch), holders := s.holders - {h})
  }

  // ----- store -----

  predicate CanBeginStore(cfg: Config, s: Sys, rk: RowKey, meta: KVMetadata, data: seq<Byte>, now: Time) {
    var m := Sealed(cfg, meta, data, now);
    && s.mutator.Idle?
    && rk.tier != Memory && meta.key == rk.key
    && !IsDeleting(s.rows, rk)
    && |data| <= TierLimit(cfg, rk.tier)
    && ValidMetadata(m) && DescriptorAgrees(s.rows, m)
    && !IsActive(s.rows, rk)
    && NewRecord(cfg, rk.tier, m, data).Ok?
  }

  function DoBeginStore(cfg: Config, s: Sys, rk: RowKey, meta: KVMetadata, data: seq<Byte>, now: Time): Sys
    requires CanBeginStore(cfg, s, rk, meta, data, now)
  {
    var m := Sealed(cfg, meta, data, now);
    s.(mutator := Storing(Job(rk, m, NewRecord(cfg, rk.tier, m, data).value, NotStarted)))
  }

  /** The table after the row was written again in its old place. */
  function ReplayedTable(s: Sys, rk: RowKey, m: KVMetadata): Result<Table>
    requires rk in s.rows
  {
    var row := s.rows[rk];
    Upserted(s.rows, rk, Location(row.uri, m.bytes, m.checksum, row.createdAt, m.lastAccess), m, s.epoch)
  }

  /** The last statement of a store that found the same payload published; the load before it is a reader's. */
  predicate CanReplay(cfg: Config, s: Sys, rk: RowKey, meta: KVMetadata, data: seq<Byte>, now: Time) {
    var m := Sealed(cfg, meta, data, now);
    && s.mutator.Idle?
    && rk.tier != Memory && meta.key == rk.key
    && IsActive(s.rows, rk)
    && Payload(cfg, s, rk) == Some(data)
    && ReplayedTable(s, rk, m).Ok?
  }

  function DoReplay(cfg: Config, s: Sys, rk: RowKey, meta: KVMetadata, data: seq<Byte>, now: Time): Sys
    requires CanReplay(cfg, s, rk, meta, data, now)
  {
    s.(rows := ReplayedTable(s, rk, Sealed(cfg, meta, data, now)).value)
  }

  function JobOf(m: Mutator): Option<Job> {
    match m
    case Storing(job) => Some(job)
    case Moving(job, _, _) => Some(job)
    case _ => None
  }

  function WithWrite(m: Mutator, w: Write): Mutator
    requires JobOf(m).Some?
  {
    if m.Storing? then Storing(m.job.(write := w)) else m.(job := m.job.(write := w))
  }

  function SizeAt(disk: Disk, path: Path): nat {
    if path in disk then |disk[path]| else 0
  }

  /** A store writes to the file tier only once there is room; compaction writes to files of its own. */
  ghost predicate CanStartWrite(cfg: Config, s: Sys, name: SegmentName) {
    && JobOf(s.mutator).Some?
    && JobOf(s.mutator).value.write.NotStarted?
    && JobOf(s.mutator).value.rk.tier == Nvme
    && (s.mutator.Moving? ==> name.Compacted? && name.compactionId == s.mutator.id)
    && (s.mutator.Storing? ==> BytesUsed(s.rows, Nvme) + s.mutator.job.meta.bytes <= cfg.maxBytes)
  }

  function DoStartWrite(cfg: Config, s: Sys, name: SegmentName): Sys
    requires CanStartWrite(cfg, s, name)
  {
    var job := JobOf(s.mutator).value;
    if cfg.segmented then
      var path := SegmentPath(job.rk.key, name);
      s.(disk := if path in s.disk then s.disk else s.disk[path := []],
         mutator := WithWrite(s.mutator, Writing(SegmentUri(path, SizeAt(s.disk, path), |job.record|), 0)))
    else
      s.(disk := s.disk[TempPath(job.rk.key) := []],
         mutator := WithWrite(s.mutator, Writing(FileUri(BlockPath(job.rk.key)), 0)))
  }

  predicate CanWrite(cfg: Config, s: Sys, n: nat) {
    && JobOf(s.mutator).Some?
    && var job := JobOf(s.mutator).value;
    && job.write.Writing? && job.write.done <= n <= |job.record|
    && (cfg.segmented ==> job.write.uri.SegmentUri? && job.write.uri.path in s.disk)
  }

  function DoWrite(cfg: Config, s: Sys, n: nat): Sys
    requires CanWrite(cfg, s, n)
  {
    var job := JobOf(s.mutator).value;
    var uri := job.write.uri;
    s.(disk := if cfg.segmented then s.disk[uri.path := s.disk[uri.path] + job.record[job.write.done..n]]
               else s.disk[TempPath(job.rk.key) := job.record[..n]],
       mutator := WithWrite(s.mutator, Writing(uri, n)))
  }

  /** The last byte of a segment record, the rename of a finished file, or the upload of an object. */
  predicate CanPublish(s: Sys) {
    && JobOf(s.mutator).Some?
    && var job := JobOf(s.mutator).value;
    if job.rk.tier == S3 then job.write.NotStarted?
    else job.write.Writing? && job.write.done == |job.record|
  }

  function DoPublish(cfg: Config, s: Sys): Sys
    requires CanPublish(s)
  {
    var job := JobOf(s.mutator).value;
    if job.rk.tier == S3 then
      s.(disk := s.disk[ObjectPath(job.rk.key) := job.record],
         mutator := WithWrite(s.mutator, Written(ObjectUri(ObjectPath(job.rk.key)))))
    else
      s.(disk := if cfg.segmented then s.disk
                 else (s.disk - {TempPath(job.rk.key)})[BlockPath(job.rk.key) := job.record],
         mutator := WithWrite(s.mutator, Written(job.write.uri)))
  }

  function CommittedTable(s: Sys, job: Job): Result<Table>
    requires job.write.Written?
  {
    var loc := Location(job.write.uri, job.meta.bytes, job.meta.checksum, job.meta.createdAt, job.meta.lastAccess);
    Upserted(s.rows, job.rk, loc, job.meta, s.epoch)
  }

  predicate CanCommit(s: Sys) {
    s.mutator.Storing? && s.mutator.job.write.Written? && CommittedTable(s, s.mutator.job).Ok?
  }

  function DoCommit(s: Sys): Sys
    requires CanCommit(s)
  {
    s.(rows := CommittedTable(s, s.mutator.job).value, mutator := Idle)
  }

  // ----- evict -----

  /** An eviction of its own, or one that makes room for a store not yet writing. */
  predicate CanBeginEvict(s: Sys, rk: RowKey) {
    && rk.tier != Memory
    && Deletable(s.rows, rk, s.epoch)
    && (s.mutator.Idle? || (s.mutator.Storing? && s.mutator.job.write.NotStarted? && s.mutator.job.rk != rk))
  }

  function DoBeginEvict(s: Sys, rk: RowKey): Sys {
    s.(rows := Tombstoned(s.rows, rk, s.epoch), mutator := Evicting(rk, false, s.mutator))
  }

  predicate CanUnlink(s: Sys) {
    s.mutator.Evicting? && !s.mutator.unlinked
  }

  /** Segment records stay where they are; files and objects go. */
  function DoUnlink(cfg: Config, s: Sys): Sys
    requires CanUnlink(s)
  {
    var rk := s.mutator.rk;
    s.(disk := if rk.tier == S3 then s.disk - {ObjectPath(rk.key)}
               else if cfg.segmented then s.disk
               else s.disk - {BlockPath(rk.key)},
       mutator := s.mutator.(unlinked := true))
  }

  predicate CanFinishDelete(s: Sys) {
    s.mutator.Evicting? && s.mutator.unlinked
  }

  function DoFinishDelete(s: Sys): Sys
    requires CanFinishDelete(s)
  {
    s.(rows := Finished(s.rows, s.mutator.rk), mutator := s.mutator.resume)
  }

  // ----- compaction -----

  function DoBeginCompact(s: Sys, id: nat): Sys {
    s.(mutator := Compacting((set rk | rk in s.rows && rk.tier == Nvme && Evictable(s.rows, rk, s.epoch)), id))
  }

  /** The metadata a moved record carries: the row's, with its current use counters. */
  function MovedMeta(row: Row): KVMetadata {
    row.meta.(lastAccess := row.lastAccess, reuseCount := row.reuseCount)
  }

  predicate CanMove(cfg: Config, s: Sys, rk: RowKey) {
    && s.mutator.Compacting? && rk in s.mutator.todo
    && IsActive(s.rows, rk)
    && Bytes(s, rk).Some?
    && var meta := MovedMeta(s.rows[rk]);
    && ValidMetadata(meta)
    && Holds(cfg, rk, meta, Bytes(s, rk).value)
    && Rewritten(cfg, ParseExtent(cfg, rk.tier, Bytes(s, rk).value).value, meta).Ok?
  }

  function DoMove(cfg: Config, s: Sys, rk: RowKey): Sys
    requires CanMove(cfg, s, rk)
  {
    var meta := MovedMeta(s.rows[rk]);
    var record := Rewritten(cfg, ParseExtent(cfg, rk.tier, Bytes(s, rk).value).value, meta).value;
    s.(rows := Acquired(s.rows, rk, s.epoch),
       holders := s.holders[Compactor := Hold(rk, s.rows[rk].uri, Bytes(s, rk).value)],
       mutator := Moving(Job(rk, meta, record, NotStarted), s.mutator.todo - {rk}, s.mutator.id))
  }

  function MovedTable(s: Sys, job: Job): Result<Table>
    requires job.write.Written? && job.rk in s.rows
  {
    var was := s.rows[job.rk];
    var loc := Location(job.write.uri, job.meta.bytes, job.meta.checksum, was.createdAt, was.lastAccess);
    Upserted(s.rows, job.rk, loc, job.meta, s.epoch)
  }

  predicate CanCommitMove(s: Sys) {
    && s.mutator.Moving? && s.mutator.job.write.Written?
    && s.mutator.job.rk in s.rows
    && MovedTable(s, s.mutator.job).Ok?
  }

  function DoCommitMove(s: Sys): Sys
    requires CanCommitMove(s)
  {
    s.(rows := MovedTable(s, s.mutator.job).value, mutator := Moved(s.mutator.job.rk, s.mutator.todo, s.mutator.id))
  }

  predicate CanReleaseMove(s: Sys) {
    s.mutator.Moved? && Compactor in s.holders
  }

  function DoReleaseMove(s: Sys): Sys
    requires CanReleaseMove(s)
  {
    DropHolder(s, Compactor).(mutator := Compacting(s.mutator.todo, s.mutator.id))
  }

  predicate Referenced(rows: Table, path: Path) {
    exists rk :: rk in rows && rk.tier == Nvme && rows[rk].state == Active && rows[rk].uri.SegmentUri? && rows[rk].uri.path == path
  }

  predicate CanSweep(s: Sys, path: Path) {
    s.mutator.Sweeping? && path.SegmentFile? && path in s.disk && !Referenced(s.rows, path)
  }

  /** The pass over the segment files is over when only referenced ones are left. */
  predicate CanEndSweep(s: Sys) {
    s.mutator.Sweeping? && forall path :: path in s.disk && path.SegmentFile? ==> Referenced(s.rows, path)
  }

  // ----- failure, memory tier, crash -----

  /** An error ends the operation: a temporary file is removed, a compaction hold released, nothing else. */
  function DoAbort(cfg: Config, s: Sys): Sys {
    var job := JobOf(s.mutator);
    var cleaned := if job.Some? && job.value.rk.tier == Nvme && !cfg.segmented then s.disk - {TempPath(job.value.rk.key)} else s.disk;
    var dropped := if Compactor in s.holders then DropHolder(s, Compactor) else s;
    dropped.(disk := cleaned, mutator := Idle)
  }

  /** Where a memory store says the block is; a block that is there already keeps its birthday. */
  function MemoryLocation(rows: Table, m: KVMetadata): Location {
    var rk := RowKey(m.key, Memory);
    var created := if rk in rows then rows[rk].createdAt else m.createdAt;
    Location(MemoryUri(m.key.blockHash), m.bytes, m.checksum, created, m.lastAccess)
  }

  function MemoryTable(s: Sys, m: KVMetadata): Result<Table> {
    Upserted(s.rows, RowKey(m.key, Memory), MemoryLocation(s.rows, m), m, s.epoch)
  }

  predicate CanMemoryStore(cfg: Config, s: Sys, key: BlockKey, meta: KVMetadata, data: seq<Byte>, now: Time) {
    && s.mutator.Idle?
    && meta.key == key
    && MemoryTable(s, Sealed(cfg, meta, data, now)).Ok?
    && (IsActive(s.rows, RowKey(key, Memory)) ==> key in s.mem && s.mem[key] == data)
  }

  function DoMemoryStore(cfg: Config, s: Sys, key: BlockKey, meta: KVMetadata, data: seq<Byte>, now: Time): Sys
    requires CanMemoryStore(cfg, s, key, meta, data, now)
  {
    s.(rows := MemoryTable(s, Sealed(cfg, meta, data, now)).value, mem := s.mem[key := data])
  }

  predicate CanMemoryEvict(s: Sys, key: BlockKey) {
    s.mutator.Idle? && key in s.mem && Evictable(s.rows, RowKey(key, Memory), s.epoch)
  }

  function DoMemoryEvict(s: Sys, key: BlockKey): Sys {
    s.(rows := s.rows - {RowKey(key, Memory)}, mem := s.mem - {key})
  }

  /** A lookup that finds an active row without bytes deletes the row. */
  predicate CanDropStale(s: Sys, rk: RowKey) {
    s.mutator.Idle? && Evictable(s.rows, rk, s.epoch) && Bytes(s, rk).None?
  }

  /** The process dies and a new owner opens the table: rows and disk stay, everything else is gone. */
  function DoCrash(s: Sys, epoch: string): Sys {
    Sys(Reopened(s.rows), s.disk, map[], map[], Idle, epoch)
  }

  // ----- runs -----

  ghost predicate Enabled(cfg: Config, s: Sys, a: Action) {
    match a
    case Acquire(reader, rk) => CanAcquire(s, reader, rk)
    case Touch(reader, now) => Reader(reader) in s.holders && now >= 0
    case Release(reader) => Reader(reader) in s.holders
    case BeginStore(rk, meta, data, now) => CanBeginStore(cfg, s, rk, meta, data, now)
    case Replay(rk, meta, data, now) => CanReplay(cfg, s, rk, meta, data, now)
    case StartWrite(name) => CanStartWrite(cfg, s, name)
    case WriteUpTo(n) => CanWrite(cfg, s, n)
    case Publish => CanPublish(s)
    case Commit => CanCommit(s)
    case BeginEvict(rk) => CanBeginEvict(s, rk)
    case Unlink => CanUnlink(s)
    case FinishDelete => CanFinishDelete(s)
    case BeginCompact(_) => s.mutator.Idle? && cfg.segmented
    case Move(rk) => CanMove(cfg, s, rk)
    case CommitMove => CanCommitMove(s)
    case ReleaseMove => CanReleaseMove(s)
    case BeginSweep => s.mutator.Compacting? && s.mutator.todo == {}
    case Sweep(path) => CanSweep(s, path)
    case EndSweep => CanEndSweep(s)
    case Abort => !s.mutator.Idle?
    case MemoryStore(key, meta, data, now) => CanMemoryStore(cfg, s, key, meta, data, now)
    case MemoryEvict(key) => CanMemoryEvict(s, key)
    case DropStale(rk) => CanDropStale(s, rk)
    case Crash(epoch) => epoch != ""
  }

  function Step(cfg: Config, s: Sys, a: Action): Sys
    requires Enabled(cfg, s, a)
  {
    match a
    case Acquire(reader, rk) => DoAcquire(s, reader, rk)
    case Touch(reader, now) => DoTouch(s, reader, now)
    case Release(reader) => DropHolder(s, Reader(reader))
    case BeginStore(rk, meta, data, now) => DoBeginStore(cfg, s, rk, meta, data, now)
    case Replay(rk, meta, data, now) => DoReplay(cfg, s, rk, meta, data, now)
    case StartWrite(name) => DoStartWrite(cfg, s, name)
    case WriteUpTo(n) => DoWrite(cfg, s, n)
    case Publish => DoPublish(cfg, s)
    case Commit => DoCommit(s)
    case BeginEvict(rk) => DoBeginEvict(s, rk)
    case Unlink => DoUnlink(cfg, s)
    case FinishDelete => DoFinishDelete(s)
    case BeginCompact(id) => DoBeginCompact(s, id)
    case Move(rk) => DoMove(cfg, s, rk)
    case CommitMove => DoCommitMove(s)
    case ReleaseMove => DoReleaseMove(s)
    case BeginSweep => s.(mutator := Sweeping)
    case Sweep(path) => s.(disk := s.disk - {path})
    case EndSweep => s.(mutator := Idle)
    case Abort => DoAbort(cfg, s)
    case MemoryStore(key, meta, data, now) => DoMemoryStore(cfg, s, key, meta, data, now)
    case MemoryEvict(key) => DoMemoryEvict(s, key)
    case DropStale(rk) => s.(rows := s.rows - {rk})
    case Crash(epoch) => DoCrash(s, epoch)
  }

  /** States and the actions between them. */
  ghost predicate IsRun(cfg: Config, run: seq<Sys>, acts: seq<Action>) {
    && |run| == |acts| + 1
    && forall i :: 0 <= i < |acts| ==> Enabled(cfg, run[i], acts[i]) && run[i + 1] == Step(cfg, run[i], acts[i])
  }

  /** A store that was just created: no rows, no readers. The disk may already hold anything. */
  predicate Init(s: Sys) {
    s.rows == map[] && s.mem == map[] && s.holders == map[] && s.mutator == Idle && s.epoch != ""
  }
}
