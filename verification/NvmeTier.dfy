/** The file-backed tier: its methods, proved against the record format and the protocol. */
module FileTier {
  import opened Identity
  import opened Metadata
  import opened Record
  import opened Rows
  import opened Tiers
  import opened Accounting
  import opened Store
  import opened KvProtocol
  import opened KvInvariant
  import opened KvSafety
  import opened KvRuns
  import opened KvCapacity
  import opened KvCompaction
  import opened KvMoves
  import opened Loading

  /** What a compaction reports. */
  datatype Report = NotSegmented | Report(moved: nat, removed: nat, removedBytes: nat)

  /**
   Where a store fails, if it does: within the write, at the release of the row it loads to compare, or
   at the upsert. It goes no further than its first error, so there is at most one.
   */
  datatype StoreFault = Works | Torn(n: nat) | Unreleased | Uncommitted

  function Rk(key: BlockKey): RowKey { RowKey(key, Nvme) }

  /** What was handed out is the payload of a record that passes every check against the row. */
  ghost predicate Handed(cfg: Config, disk: Disk, key: BlockKey, row: Row, loaded: Loaded) {
    && |loaded.data| == row.bytes && cfg.codec.sha256(loaded.data) == row.checksum
    && PayloadDescriptor(loaded.meta) == PayloadDescriptor(row.meta) && loaded.meta.key == key
    && exists p :: FindsRecord(cfg, disk, Rk(key), row, p) && loaded.data == p.payload
  }

  lemma FoundIsHanded(cfg: Config, disk: Disk, key: BlockKey, row: Row, loaded: Loaded)
    requires exists p :: FindsRecord(cfg, disk, Rk(key), row, p) && loaded.data == p.payload
    requires PayloadDescriptor(loaded.meta) == PayloadDescriptor(row.meta) && loaded.meta.key == key
    ensures Handed(cfg, disk, key, row, loaded)
  {
    hide Canonical, ReadLocation;
  }

  /** A load cannot fail but at its release: its record passes, and so does the row. */
  ghost predicate Loadable(cfg: Config, disk: Disk, key: BlockKey, rows: Table, now: Time, p: Parsed) {
    && IsActive(rows, Rk(key)) && Extent(disk, rows[Rk(key)].uri).Some?
    && FindsRecord(cfg, disk, Rk(key), rows[Rk(key)], p)
    && ValidMetadata(MovedMeta(Touched(rows, Rk(key), now)[Rk(key)]))
  }

  /** No file changed but the key's own. */
  ghost predicate OnlyOwnFile(disk: Disk, after: Disk, key: BlockKey) {
    forall p :: p != BlockPath(key) ==> (p in after <==> p in disk) && (p in after ==> after[p] == disk[p])
  }

  /** The table after the victims were taken out one by one. */
  function Without(rows: Table, victims: seq<RowKey>): Table {
    if victims == [] then rows else Without(rows, victims[..|victims| - 1]) - {victims[|victims| - 1]}
  }

  lemma {:induction false} WithoutRows(rows: Table, victims: seq<RowKey>, rk: RowKey)
    ensures rk in Without(rows, victims) <==> rk in rows && rk !in victims
    ensures rk in Without(rows, victims) ==> Without(rows, victims)[rk] == rows[rk]
  {
    if victims != [] {
      WithoutRows(rows, victims[..|victims| - 1], rk);
      assert victims == victims[..|victims| - 1] + [victims[|victims| - 1]];
    }
  }

  /** Oldest first, and nothing older than a victim stayed. */
  ghost predicate OldestFirst(rows: Table, after: Table, epoch: string, victims: seq<RowKey>) {
    && after.Keys <= rows.Keys
    && (forall i :: 0 <= i < |victims| ==> victims[i] in EvictableKeys(rows, Nvme, epoch))
    && (forall i, j :: 0 <= i < j < |victims| ==> victims[i] != victims[j] && rows[victims[i]].lastAccess <= rows[victims[j]].lastAccess)
    && (forall i, rk :: 0 <= i < |victims| && rk in EvictableKeys(after, Nvme, epoch) ==> rows[victims[i]].lastAccess <= rows[rk].lastAccess)
  }

  /** Before each of the evictions the incoming bytes did not fit. */
  ghost predicate NoneTooMany(rows: Table, incoming: int, maxBytes: int, victims: seq<RowKey>) {
    forall n :: 0 <= n < |victims| ==> BytesUsed(Without(rows, victims[..n]), Nvme) + incoming > maxBytes
  }

  ghost predicate IsEviction(rows: Table, after: Table, epoch: string, incoming: int, maxBytes: int, victims: seq<RowKey>) {
    && after == Without(rows, victims)
    && OldestFirst(rows, after, epoch, victims)
    && NoneTooMany(rows, incoming, maxBytes, victims)
  }

  lemma NothingEvicted(rows: Table, epoch: string, incoming: int, maxBytes: int)
    ensures IsEviction(rows, rows, epoch, incoming, maxBytes, [])
  {}

  /** Nothing evictable is left, so what is in use are the rows that were being read all along. */
  lemma NobodyLeft(rows: Table, after: Table, epoch: string, incoming: int, maxBytes: int, victims: seq<RowKey>)
    requires IsEviction(rows, after, epoch, incoming, maxBytes, victims)
    requires EvictableKeys(after, Nvme, epoch) == {}
    ensures HeldBytes(rows, Nvme, epoch) == BytesUsed(after, Nvme)
  {
    forall rk | rk in rows
      ensures rk in after ==> after[rk] == rows[rk]
      ensures rk in ActiveKeys(rows, Nvme) ==> (rk in after <==> !Evictable(rows, rk, epoch))
    {
      WithoutRows(rows, victims, rk);
      assert rk in after ==> rk !in EvictableKeys(after, Nvme, epoch);
    }
    forall rk | rk in after ensures rk in rows { WithoutRows(rows, victims, rk); }
    assert HeldKeys(rows, Nvme, epoch) == ActiveKeys(after, Nvme);
    TotalFrame(rows, after, ActiveKeys(after, Nvme));
  }

  /** What is being read is still in use, so it fits whenever everything does. */
  lemma HeldFits(rows: Table, after: Table, epoch: string, incoming: int, maxBytes: int, victims: seq<RowKey>)
    requires IsEviction(rows, after, epoch, incoming, maxBytes, victims)
    requires forall rk :: rk in rows ==> rows[rk].bytes >= 0
    ensures HeldBytes(rows, Nvme, epoch) <= BytesUsed(after, Nvme)
  {
    forall rk | rk in HeldKeys(rows, Nvme, epoch)
      ensures rk in ActiveKeys(after, Nvme) && after[rk] == rows[rk]
    {
      WithoutRows(rows, victims, rk);
    }
    forall rk | rk in after ensures rk in rows && after[rk] == rows[rk] { WithoutRows(rows, victims, rk); }
    TotalFrame(rows, after, HeldKeys(rows, Nvme, epoch));
    TotalMonotone(after, HeldKeys(rows, Nvme, epoch), ActiveKeys(after, Nvme));
  }

  lemma OneMoreInOrder(rows: Table, mid: Table, epoch: string, victims: seq<RowKey>, victim: RowKey)
    requires OldestFirst(rows, mid, epoch, victims)
    requires victim in EvictableKeys(mid, Nvme, epoch) && victim !in victims
    requires forall rk :: rk in mid ==> rk in rows && mid[rk] == rows[rk]
    requires forall rk :: rk in EvictableKeys(mid, Nvme, epoch) ==> mid[victim].lastAccess <= mid[rk].lastAccess
    ensures OldestFirst(rows, mid - {victim}, epoch, victims + [victim])
  {
    assert EvictableKeys(mid - {victim}, Nvme, epoch) <= EvictableKeys(mid, Nvme, epoch);
  }

  lemma OneMoreNeeded(rows: Table, mid: Table, incoming: int, maxBytes: int, victims: seq<RowKey>, victim: RowKey)
    requires NoneTooMany(rows, incoming, maxBytes, victims) && mid == Without(rows, victims)
    requires BytesUsed(mid, Nvme) + incoming > maxBytes
    ensures NoneTooMany(rows, incoming, maxBytes, victims + [victim])
  {
    hide BytesUsed, Without;
    var all := victims + [victim];
    forall n | 0 <= n < |all|
      ensures BytesUsed(Without(rows, all[..n]), Nvme) + incoming > maxBytes
    {
      assert all[..n] == victims[..n];
      assert victims[..|victims|] == victims;
    }
  }

  lemma OneMoreEvicted(rows: Table, mid: Table, epoch: string, incoming: int, maxBytes: int, victims: seq<RowKey>, victim: RowKey)
    requires IsEviction(rows, mid, epoch, incoming, maxBytes, victims)
    requires victim in EvictableKeys(mid, Nvme, epoch)
    requires forall rk :: rk in EvictableKeys(mid, Nvme, epoch) ==> mid[victim].lastAccess <= mid[rk].lastAccess
    requires BytesUsed(mid, Nvme) + incoming > maxBytes
    ensures IsEviction(rows, mid - {victim}, epoch, incoming, maxBytes, victims + [victim])
  {
    hide OldestFirst, NoneTooMany, BytesUsed;
    forall rk | rk in mid
      ensures rk in rows && mid[rk] == rows[rk] && rk !in victims
    {
      WithoutRows(rows, victims, rk);
    }
    OneMoreInOrder(rows, mid, epoch, victims, victim);
    OneMoreNeeded(rows, mid, incoming, maxBytes, victims, victim);
    assert (victims + [victim])[..|victims|] == victims;
  }

  lemma TombstoneLowersUsage(rows: Table, rk: RowKey, epoch: string)
    requires forall k :: k in rows ==> rows[k].bytes >= 0
    ensures BytesUsed(Tombstoned(rows, rk, epoch), Nvme) <= BytesUsed(rows, Nvme)
  {
    var after := Tombstoned(rows, rk, epoch);
    assert ActiveKeys(after, Nvme) <= ActiveKeys(rows, Nvme);
    TotalFrame(rows, after, ActiveKeys(after, Nvme));
    TotalMonotone(rows, ActiveKeys(after, Nvme), ActiveKeys(rows, Nvme));
  }

  lemma StoredExtent(cfg: Config, disk: Disk, key: BlockKey, name: SegmentName, record: seq<Byte>)
    ensures Extent(DiskWith(cfg, disk, key, name, record), UriFor(cfg, disk, key, name, |record|)) == Some(record)
  {
    if cfg.segmented {
      var path := SegmentPath(key, name);
      var after := DiskWith(cfg, disk, key, name, record)[path];
      assert after[SizeAt(disk, path)..SizeAt(disk, path) + |record|] == record;
    }
  }

  lemma NewRecordErrors(cfg: Config, tier: Tier, m: KVMetadata, data: seq<Byte>)
    ensures NewRecord(cfg, tier, m, data).Err? ==> NewRecord(cfg, tier, m, data).error == InvalidArgument
  {}

  lemma AgreementAfterEviction(rows: Table, victims: seq<RowKey>, m: KVMetadata)
    requires DescriptorAgrees(rows, m)
    ensures DescriptorAgrees(Without(rows, victims), m)
  {
    forall tier: Tier | RowKey(m.key, tier) in Without(rows, victims)
      ensures PayloadDescriptor(Without(rows, victims)[RowKey(m.key, tier)].meta) == PayloadDescriptor(m)
    {
      WithoutRows(rows, victims, RowKey(m.key, tier));
    }
  }

  /** The checks that turn a store away before it looks at what is published. */
  ghost predicate Refused(rows: Table, cfg: Config, key: BlockKey, data: seq<Byte>, meta: KVMetadata, now: Time) {
    var m := Sealed(cfg, meta, data, now);
    meta.key != key || IsDeleting(rows, Rk(key)) || |data| > cfg.maxBytes || !ValidMetadata(m) || !DescriptorAgrees(rows, m)
  }

  /** An active row of a sound state is ready to be moved, if only its new header can be encoded. */
  lemma MoveReady(cfg: Config, s: Sys, key: BlockKey) returns (p: Parsed)
    requires Inv(cfg, s) && IsActive(s.rows, Rk(key))
    ensures var row := s.rows[Rk(key)];
            && FindsRecord(cfg, s.disk, Rk(key), row, p)
            && Bytes(s, Rk(key)).Some? && ParseExtent(cfg, Nvme, Bytes(s, Rk(key)).value) == Ok(p)
            && RowConsistent(Rk(key), row) && ValidMetadata(MovedMeta(row))
            && Holds(cfg, Rk(key), MovedMeta(row), Bytes(s, Rk(key)).value)
  {
    hide Counted, Pinned, MemoryBacked, MutatorOk, OneDescriptor;
    var row := s.rows[Rk(key)];
    assert RowSound(cfg, s.disk, Rk(key), row) && RowConsistent(Rk(key), row);
    p := ParseExtent(cfg, Nvme, Extent(s.disk, row.uri).value).value;
    ReadIsParseOfExtent(cfg, Rk(key), s.disk, row.uri, p);
    CountersKeepMetadataValid(row);
  }

  /** In a compaction it can be moved exactly if its new header fits. */
  lemma MoveIsPossible(cfg: Config, s: Sys, key: BlockKey, p: Parsed)
    requires Inv(cfg, s) && s.mutator.Compacting? && Rk(key) in s.mutator.todo && IsActive(s.rows, Rk(key))
    requires FindsRecord(cfg, s.disk, Rk(key), s.rows[Rk(key)], p)
    ensures var record := Rewritten(cfg, p, MovedMeta(s.rows[Rk(key)]));
            && Fits(cfg, s.disk, s.rows[Rk(key)]) == record.Ok?
            && (record.Ok? ==> CanMove(cfg, s, Rk(key)) && MovedRecord(cfg, s, Rk(key)) == record.value)
  {
    hide Inv, ParseExtent, Extent, Rewritten, Holds, ValidMetadata, Genuine;
    var q := MoveReady(cfg, s, key);
    assert q == p;
  }

  lemma TodoIsUnread(cfg: Config, s: Sys)
    requires Inv(cfg, s) && s.mutator.Compacting?
    ensures Compactor !in s.holders
    ensures forall rk :: rk in s.mutator.todo ==> IsActive(s.rows, rk) && rk.tier == Nvme
  {
    hide Core;
  }

  /** The header of the row's record still fits with the row's counters in it. */
  predicate Fits(cfg: Config, disk: Disk, row: Row) {
    match Extent(disk, row.uri)
    case None => false
    case Some(b) => ParseExtent(cfg, Nvme, b).Ok? && Rewritten(cfg, ParseExtent(cfg, Nvme, b).value, MovedMeta(row)).Ok?
  }

  lemma AppendedExtent(cfg: Config, disk: Disk, key: BlockKey, name: SegmentName, record: seq<Byte>, uri: Uri)
    requires cfg.segmented && uri.SegmentUri? && Extent(disk, uri).Some?
    ensures Extent(DiskWith(cfg, disk, key, name, record), uri) == Extent(disk, uri)
  {
    var path := SegmentPath(key, name);
    if uri.path == path {
      var after := DiskWith(cfg, disk, key, name, record)[path];
      assert after[uri.offset..uri.offset + uri.recordBytes] == disk[path][uri.offset..uri.offset + uri.recordBytes];
    }
  }

  /** In a sound state of the segment layout every file row points into a segment. */
  lemma SegmentsOnly(cfg: Config, s: Sys)
    requires Inv(cfg, s) && cfg.segmented
    ensures forall rk :: IsActive(s.rows, rk) && rk.tier == Nvme ==>
              Canonical(cfg, rk, s.rows[rk].uri) && s.rows[rk].uri.SegmentUri? && Extent(s.disk, s.rows[rk].uri).Some?
  {
    hide Consistent, Clocked, Counted, Pinned, MemoryBacked, MutatorOk, Holds;
    forall rk | IsActive(s.rows, rk) && rk.tier == Nvme
      ensures Canonical(cfg, rk, s.rows[rk].uri) && s.rows[rk].uri.SegmentUri? && Extent(s.disk, s.rows[rk].uri).Some?
    {
      assert RowSound(cfg, s.disk, rk, s.rows[rk]);
    }
  }

  lemma NothingDone(cfg: Config, s: Sys)
    ensures Leads(cfg, s, [s], [], s) && SameMeaning(cfg, s, s)
  {}

  /** Rows with the same descriptor have the same size. */
  lemma SameMeaningSameSize(cfg: Config, s: Sys, t: Sys)
    requires Inv(cfg, s) && Inv(cfg, t) && SameMeaning(cfg, s, t)
    ensures NotMore(s.rows, t.rows)
  {
    hide MutatorOk, Clocked, Placed, MemoryBacked, Counted, Pinned, OneDescriptor, Payload, ValidMetadata;
    forall rk | IsActive(t.rows, rk)
      ensures IsActive(s.rows, rk) && t.rows[rk].bytes == s.rows[rk].bytes
    {
      assert IsActive(s.rows, rk);
      assert RowConsistent(rk, s.rows[rk]) && RowConsistent(rk, t.rows[rk]);
    }
  }

  /** A compaction that ended early is a run too, and preserves meaning. */
  lemma Interrupted(cfg: Config, s: Sys, id: nat, run: seq<Sys>, acts: seq<Action>, t: Sys)
    requires FaithfulCodec(cfg.codec) && Inv(cfg, s) && s.mutator.Idle? && cfg.segmented
    requires Leads(cfg, DoBeginCompact(s, id), run, acts, t) && OnlyCompacts(acts)
    ensures Leads(cfg, s, [s] + run, [BeginCompact(id)] + acts, t)
    ensures SameMeaning(cfg, s, t) && Inv(cfg, t)
  {
    hide Inv, Leads, OnlyCompacts, SameMeaning, DoBeginCompact;
    FromTheStart(cfg, s, id, run, acts, t);
    CompactionsKeepMeaning(cfg, s, [s] + run, [BeginCompact(id)] + acts, t);
  }

  lemma BegunIsSound(cfg: Config, s: Sys, id: nat)
    requires FaithfulCodec(cfg.codec) && Inv(cfg, s) && s.mutator.Idle? && cfg.segmented
    ensures Inv(cfg, DoBeginCompact(s, id))
  {
    hide Inv;
    StepIsSafe(cfg, s, BeginCompact(id));
  }

  lemma UnderwayKeepsInv(cfg: Config, s: Sys, run: seq<Sys>, acts: seq<Action>, t: Sys)
    requires FaithfulCodec(cfg.codec) && Inv(cfg, s) && Underway(cfg, s, run, acts, t)
    ensures Inv(cfg, t)
  {
    hide Inv, Leads;
    LeadsKeepsInv(cfg, s, run, acts, t);
  }

  lemma SameExtentFits(cfg: Config, disk: Disk, after: Disk, row: Row)
    requires Extent(disk, row.uri) == Extent(after, row.uri)
    ensures Fits(cfg, disk, row) == Fits(cfg, after, row)
  {}

  /** Going on for a while and then giving up. */
  lemma GivenUpLater(cfg: Config, s: Sys, run: seq<Sys>, acts: seq<Action>, t: Sys, run': seq<Sys>, acts': seq<Action>, u: Sys)
    requires Underway(cfg, s, run, acts, t) && Leads(cfg, t, run', acts', u) && OnlyCompacts(acts')
    ensures |run'| >= 1 && Leads(cfg, s, run + run'[1..], acts + acts', u) && OnlyCompacts(acts + acts')
  {
    hide Leads;
    RunsJoin(cfg, s, run, acts, t, run', acts', u);
  }

  lemma SweepBegins(cfg: Config, s: Sys)
    requires s.mutator.Compacting? && s.mutator.todo == {}
    ensures Underway(cfg, s, [s, s.(mutator := Sweeping)], [BeginSweep], s.(mutator := Sweeping))
  {
    hide Underway;
    AtStart(cfg, s);
    OneFurther(cfg, s, [s], [], s, BeginSweep);
    assert [s] + [s.(mutator := Sweeping)] == [s, s.(mutator := Sweeping)] && [] + [BeginSweep] == [BeginSweep];
  }

  lemma OneSwept(cfg: Config, s: Sys, run: seq<Sys>, acts: seq<Action>, t: Sys, path: Path)
    requires Underway(cfg, s, run, acts, t) && CanSweep(t, path)
    ensures Underway(cfg, s, run + [t.(disk := t.disk - {path})], acts + [Sweep(path)], t.(disk := t.disk - {path}))
  {
    hide Underway, Referenced;
    OneFurther(cfg, s, run, acts, t, Sweep(path));
  }

  /**
   `after` is `disk` without some unreferenced segment files, and of the segment files still there
   those outside `left` are referenced.
   */
  ghost predicate IsSweep(rows: Table, disk: Disk, after: Disk, left: set<Path>) {
    && (forall path :: path in left ==> path in after && path.SegmentFile?)
    && (forall path :: path in after ==> path in disk && after[path] == disk[path])
    && (forall path :: path in disk && path !in after ==> path.SegmentFile? && !Referenced(rows, path))
    && (forall path :: path in after && path.SegmentFile? && path !in left ==> Referenced(rows, path))
  }

  /** How many files are gone. */
  ghost function Missing(disk: Disk, after: Disk): nat { |disk.Keys - after.Keys| }

  lemma NothingSwept(rows: Table, disk: Disk)
    ensures IsSweep(rows, disk, disk, set path | path in disk && path.SegmentFile?)
    ensures Missing(disk, disk) == 0
  {}

  lemma SweepSplits(rows: Table, disk: Disk, after: Disk, left: set<Path>, path: Path)
    requires IsSweep(rows, disk, after, left) && path in left
    ensures path in after && path.SegmentFile?
    ensures Referenced(rows, path) ==> IsSweep(rows, disk, after, left - {path})
    ensures !Referenced(rows, path) ==> IsSweep(rows, disk, after - {path}, left - {path})
    ensures Missing(disk, after - {path}) == Missing(disk, after) + 1
  {
    hide Referenced;
    assert disk.Keys - (after - {path}).Keys == (disk.Keys - after.Keys) + {path};
  }

  /** A compaction that reached its end, and what holds of it. */
  lemma Completed(cfg: Config, s: Sys, id: nat, run: seq<Sys>, acts: seq<Action>, t: Sys)
    requires FaithfulCodec(cfg.codec) && Inv(cfg, s) && s.mutator.Idle? && cfg.segmented
    requires Underway(cfg, DoBeginCompact(s, id), run, acts, t) && CanEndSweep(t)
    ensures var u := t.(mutator := Idle);
            && Leads(cfg, s, [s] + (run + [u]), [BeginCompact(id)] + (acts + [EndSweep]), u)
            && SameMeaning(cfg, s, u) && Inv(cfg, u)
            && (Unheld(s.holders) && (forall p :: p in s.disk ==> !IsOutput(p, id)) ==> OnlyLiveRecords(u))
    ensures forall path :: path in t.disk && path.SegmentFile? ==> Referenced(t.rows, path)
  {
    hide Inv, Leads, Underway, SameMeaning, OnlyLiveRecords, OnlyCompacts, Referenced;
    CompleteCompaction(cfg, s, id, run, acts, t);
    CompactionsKeepMeaning(cfg, s, [s] + (run + [t.(mutator := Idle)]), [BeginCompact(id)] + (acts + [EndSweep]), t.(mutator := Idle));
  }

  lemma SweepIsComplete(rows: Table, disk: Disk, s: Sys)
    requires IsSweep(rows, disk, s.disk, {}) && s.mutator.Sweeping? && s.rows == rows
    ensures CanEndSweep(s)
  {
    hide Referenced;
  }

  /** Giving up the sweep is a run of its own. */
  lemma GivenUp(cfg: Config, s: Sys, run: seq<Sys>, acts: seq<Action>, t: Sys)
    requires Underway(cfg, s, run, acts, t) && Compactor !in t.holders && t.mutator.Sweeping?
    ensures Leads(cfg, s, run + [t.(mutator := Idle)], acts + [Abort], t.(mutator := Idle)) && OnlyCompacts(acts + [Abort])
  {
    hide Leads;
    OneMore(cfg, s, run, acts, t, Abort);
    assert DoAbort(cfg, t) == t.(mutator := Idle);
  }

  class NvmeTier {
    const cfg: Config
    const db: MetadataStore
    var disk: Disk
    /** Files that the operating system refuses to unlink. */
    const stuck: set<Path>
    /** The rest of the system: process memory of the memory tier, and readers at work. */
    ghost var mem: map<BlockKey, seq<Byte>>
    ghost var holders: map<Holder, Hold>

    constructor (cfg: Config, db: MetadataStore, disk: Disk, stuck: set<Path>)
      requires cfg.maxBytes > 0 && cfg.segmentBytes > 0
      ensures this.cfg == cfg && this.db == db && this.disk == disk && this.stuck == stuck
      ensures mem == map[] && holders == map[]
    {
      this.cfg, this.db, this.disk, this.stuck := cfg, db, disk, stuck;
      mem, holders := map[], map[];
    }

    /** The protocol state between two calls. */
    ghost function View(): Sys
      reads this, db
    {
      Sys(db.rows, disk, mem, holders, Idle, db.epoch)
    }

    /** Find the published location; a row whose bytes are missing is stale and deleted. */
    method Lookup(key: BlockKey) returns (r: Result<Option<Location>>, ghost run: seq<Sys>, ghost acts: seq<Action>)
      modifies db`rows
      ensures Leads(cfg, old(View()), run, acts, View())
      ensures r.Err? <==> IsActive(old(db.rows), Rk(key)) && !Canonical(cfg, Rk(key), old(db.rows[Rk(key)].uri))
      ensures r.Err? ==> r.error == MetadataMismatch && db.rows == old(db.rows)
      ensures r.Ok? && r.value.Some? ==>
                && db.rows == old(db.rows) && IsActive(db.rows, Rk(key))
                && r.value.value == LocationOf(db.rows[Rk(key)]) && Extent(disk, db.rows[Rk(key)].uri).Some?
      ensures r.Ok? && r.value.None? ==>
                db.rows == (if IsActive(old(db.rows), Rk(key)) then Deleted(old(db.rows), Rk(key), db.epoch) else old(db.rows))
      ensures r.Ok? && IsActive(old(db.rows), Rk(key)) && Extent(disk, old(db.rows[Rk(key)].uri)).Some? ==> r.value.Some?
    {
      hide Leads, Canonical;
      ghost var s := View();
      Standing(cfg, s);
      run, acts := [s], [];
      var found := db.Lookup(Rk(key));
      if found.None? {
        return Ok(None), run, acts;
      }
      if !Canonical(cfg, Rk(key), found.value.uri) {
        return Err(MetadataMismatch), run, acts;
      }
      if Extent(disk, found.value.uri).Some? {
        return Ok(found), run, acts;
      }
      var removed := db.Delete(Rk(key));
      run, acts := LookupRun(cfg, s, View(), Rk(key));
      r := Ok(None);
    }

    /**
     Tombstone, unlink, finish. Whatever the disk holds, the outcome is one of four: nothing to
     delete; a location that is not canonical or a file that cannot be unlinked, which leave the
     tombstone; or the row and, outside segments, its file are gone. Each is a run of the protocol.
     */
    method Evict(key: BlockKey) returns (r: Result<bool>, ghost run: seq<Sys>, ghost acts: seq<Action>)
      requires Compactor !in holders
      modifies this`disk, db`rows
      ensures r == Ok(false) <==> !Deletable(old(db.rows), Rk(key), db.epoch)
      ensures r == Ok(false) ==> db.rows == old(db.rows) && disk == old(disk)
      ensures r == Ok(true) ==> db.rows == old(db.rows) - {Rk(key)}
      ensures r == Ok(true) ==> disk == (if cfg.segmented then old(disk) else old(disk) - {BlockPath(key)})
      ensures r.Err? ==> db.rows == Tombstoned(old(db.rows), Rk(key), db.epoch) && disk == old(disk)
      ensures r.Err? ==> !Canonical(cfg, Rk(key), old(db.rows[Rk(key)].uri)) || (!cfg.segmented && BlockPath(key) in stuck)
      ensures NotMore(old(db.rows), db.rows) && Leads(cfg, old(View()), run, acts, View())
    {
      hide Leads, Canonical;
      ghost var s := View();
      var loc := db.BeginDelete(Rk(key));
      if loc.None? {
        assert Leads(cfg, s, [s], [], s) by { Standing(cfg, s); }
        return Ok(false), [s], [];
      }
      if !Canonical(cfg, Rk(key), loc.value.uri) || (!cfg.segmented && BlockPath(key) in stuck) {
        run, acts := FailedEvictionRun(cfg, s, Rk(key));
        r := Err(if Canonical(cfg, Rk(key), loc.value.uri) then IoError else MetadataMismatch);
        return;
      }
      if !cfg.segmented {
        disk := disk - {BlockPath(key)};
      }
      var done := db.FinishDelete(Rk(key));
      run, acts := EvictionRun(cfg, s, Rk(key));
      assert db.rows == old(db.rows) - {Rk(key)};
      r := Ok(true);
    }

    /** What a failed load of a corrupt record does once the hold is released: it evicts the row. */
    method Invalidate(key: BlockKey, corruption: Error) returns (error: Error, ghost run: seq<Sys>, ghost acts: seq<Action>)
      requires Compactor !in holders && IsActive(db.rows, Rk(key))
      modifies this`disk, db`rows
      ensures IsActive(db.rows, Rk(key)) ==> error.CorruptionCleanupFailed?
      ensures error == corruption || error.CorruptionCleanupFailed?
      ensures HoldGivenBack(old(db.rows), db.rows, Rk(key), db.epoch, false)
      ensures OnlyOwnFile(old(disk), disk, key) && NotMore(old(db.rows), db.rows)
      ensures Leads(cfg, old(View()), run, acts, View())
    {
      hide Leads, Canonical;
      var removed;
      removed, run, acts := Evict(key);
      if removed.Err? {
        return CorruptionCleanupFailed("evict", corruption), run, acts;
      }
      if !removed.value {
        var remains := db.Lookup(Rk(key));
        if remains.Some? {
          return CorruptionCleanupFailed("evict", corruption), run, acts;
        }
      }
      error := corruption;
    }

    /** The rest of a load, once the row was found. */
    method LoadFound(key: BlockKey, now: Time, releaseFails: bool) returns (r: Result<Loaded>, ghost run: seq<Sys>, ghost acts: seq<Action>)
      requires Compactor !in holders && IsActive(db.rows, Rk(key)) && Extent(disk, db.rows[Rk(key)].uri).Some?
      modifies this`disk, this`holders, db`rows
      ensures r.Ok? ==> Handed(cfg, old(disk), key, old(db.rows[Rk(key)]), r.value)
      ensures r.Err? && IsCorruption(r.error) ==> r.error.CorruptionCleanupFailed? || !IsActive(db.rows, Rk(key))
      ensures HoldGivenBack(old(db.rows), db.rows, Rk(key), db.epoch, releaseFails)
      ensures OnlyOwnFile(old(disk), disk, key) && NotMore(old(db.rows), db.rows)
      ensures r.Ok? ==> disk == old(disk) && !releaseFails && db.rows == UsedRows(old(db.rows), Rk(key), now, db.epoch)
      ensures forall p :: Loadable(cfg, old(disk), key, old(db.rows), now, p) ==>
                if releaseFails then r == Err(IoError) else r.Ok? && r.value.data == p.payload
      ensures releaseFails ==> disk == old(disk) && OnlyUsed(old(db.rows), db.rows, Rk(key))
      ensures Compactor !in holders && (!releaseFails ==> holders == old(holders))
      ensures now >= 0 ==> Leads(cfg, old(View()), run, acts, View())
    {
      hide ReadLocation, ValidMetadata, PayloadDescriptor, Extent, Canonical, Leads, VisitedRows, OnlyUsed, HoldGivenBack, NotMore, Handed, FindsRecord, UsedRows;
      ghost var s := View();
      run, acts := [s], [];
      var outcome, used := ReadHeld(cfg, db, disk, Rk(key), now, releaseFails);
      if now >= 0 {
        ghost var reader;
        reader, run, acts := VisitRun(cfg, s, Rk(key), now, used, !releaseFails);
        holders := VisitedHolders(s, Rk(key), reader, !releaseFails);
      }
      if releaseFails {
        return Err(if outcome.Err? && IsCorruption(outcome.error) then CorruptionCleanupFailed("release", outcome.error) else IoError), run, acts;
      }
      ghost var mid := View();
      if outcome.Err? && IsCorruption(outcome.error) {
        var error, run', acts' := Invalidate(key, outcome.error);
        GivenBackThen(s.rows, mid.rows, db.rows, Rk(key), db.epoch);
        if now >= 0 {
          RunsJoin(cfg, s, run, acts, mid, run', acts', View());
          run, acts := run + run'[1..], acts + acts';
        }
        return Err(error), run, acts;
      }
      r := outcome;
      if r.Ok? { FoundIsHanded(cfg, s.disk, key, s.rows[Rk(key)], r.value); }
    }

    /**
     Load a block from whatever bytes the disk holds.

     A success hands out bytes whose length, digest, key and descriptor are the row's. A location
     that is not canonical is reported before anything is acquired and the row stays. Corruption
     found after the row was acquired leaves no active row, unless the error says that the cleanup
     failed. The acquisition is released in every case in which the release itself works; a hold that
     could not be given back stays. Every outcome is a run of the protocol.
     */
    method Load(key: BlockKey, now: Time, releaseFails: bool) returns (r: Result<Loaded>, ghost run: seq<Sys>, ghost acts: seq<Action>)
      requires Compactor !in holders
      modifies this`disk, this`holders, db`rows
      ensures r.Ok? ==> IsActive(old(db.rows), Rk(key)) && Handed(cfg, old(disk), key, old(db.rows[Rk(key)]), r.value)
      ensures IsActive(old(db.rows), Rk(key)) && !Canonical(cfg, Rk(key), old(db.rows[Rk(key)].uri)) ==>
                r == Err(MetadataMismatch) && db.rows == old(db.rows) && disk == old(disk)
      ensures r.Err? && IsCorruption(r.error) && IsActive(old(db.rows), Rk(key)) && Canonical(cfg, Rk(key), old(db.rows[Rk(key)].uri)) ==>
                r.error.CorruptionCleanupFailed? || !IsActive(db.rows, Rk(key))
      ensures HoldGivenBack(old(db.rows), db.rows, Rk(key), db.epoch, releaseFails)
      ensures OnlyOwnFile(old(disk), disk, key) && NotMore(old(db.rows), db.rows)
      ensures r.Ok? ==> disk == old(disk) && !releaseFails && db.rows == UsedRows(old(db.rows), Rk(key), now, db.epoch)
      ensures forall p :: Loadable(cfg, old(disk), key, old(db.rows), now, p) ==>
                && (if releaseFails then r == Err(IoError) else r.Ok? && r.value.data == p.payload)
                && disk == old(disk) && OnlyUsed(old(db.rows), db.rows, Rk(key))
      ensures Compactor !in holders && (!releaseFails ==> holders == old(holders))
      ensures now >= 0 ==> Leads(cfg, old(View()), run, acts, View())
    {
      hide ReadLocation, ValidMetadata, Extent, Canonical, Leads, Handed, UsedRows, Genuine;
      var found;
      found, run, acts := Lookup(key);
      if found.Err? {
        return Err(found.error), run, acts;
      }
      if found.value.None? {
        return Err(BlockNotFound), run, acts;
      }
      r, run, acts := LoadFound(key, now, releaseFails);
      assert r.Ok? ==> OnlyUsed(old(db.rows), db.rows, Rk(key)) by { UsedRowsOnly(old(db.rows), Rk(key), now, db.epoch); }
    }

    /** Evict the row used longest ago that nobody reads, if there is one. */
    method EvictOldest() returns (r: Result<bool>, freed: int, ghost victim: RowKey, ghost run: seq<Sys>, ghost acts: seq<Action>)
      requires Inv(cfg, View())
      modifies this`disk, db`rows
      ensures Leads(cfg, old(View()), run, acts, View())
      ensures r == Ok(false) <==> EvictableKeys(old(db.rows), Nvme, db.epoch) == {}
      ensures r == Ok(false) ==> db.rows == old(db.rows)
      ensures r == Ok(true) ==>
                && victim in EvictableKeys(old(db.rows), Nvme, db.epoch)
                && (forall rk :: rk in EvictableKeys(old(db.rows), Nvme, db.epoch) ==> old(db.rows)[victim].lastAccess <= old(db.rows)[rk].lastAccess)
                && db.rows == old(db.rows) - {victim} && freed == old(db.rows)[victim].bytes
      ensures r.Err? ==> stuck != {} && exists rk :: db.rows == Tombstoned(old(db.rows), rk, db.epoch)
    {
      hide Leads, Inv;
      var candidates := db.LruCandidates(Nvme, 16);
      if candidates == [] {
        Standing(cfg, View());
        return Ok(false), 0, Rk(BlockKey("", "", "", "", "", "", "")), [View()], [];
      }
      // Candidates are evictable and the mutation lock is held, so the first one goes.
      var oldest := candidates[0];
      CandidateIsCanonical(cfg, View(), oldest);
      freed := db.rows[oldest].bytes;
      victim := oldest;
      assert oldest == Rk(oldest.key);
      r, run, acts := Evict(oldest.key);
    }

    /**
     Make room for `incoming` more bytes by evicting the least recently used rows that nobody reads.

     `victims` lists what was evicted, in order. Rows are taken oldest first, not one more than is
     needed, and with files that can be unlinked the only failure is that the rows being read leave
     no room.
     */
    method EnsureCapacity(incoming: nat) returns (r: Result<()>, ghost victims: seq<RowKey>, ghost run: seq<Sys>, ghost acts: seq<Action>)
      requires FaithfulCodec(cfg.codec) && Inv(cfg, View())
      modifies this`disk, db`rows
      ensures Inv(cfg, View()) && Leads(cfg, old(View()), run, acts, View())
      ensures r.Ok? ==> BytesUsed(db.rows, Nvme) + incoming <= cfg.maxBytes
      ensures stuck == {} ==> (r.Err? <==> HeldBytes(old(db.rows), Nvme, db.epoch) + incoming > cfg.maxBytes)
      ensures stuck == {} && r.Err? ==> r.error == StoreFull
      ensures r.Ok? ==> IsEviction(old(db.rows), db.rows, db.epoch, incoming, cfg.maxBytes, victims)
      ensures BytesUsed(db.rows, Nvme) <= BytesUsed(old(db.rows), Nvme) && db.rows.Keys <= old(db.rows).Keys
    {
      hide Leads, Inv, IsEviction, BytesUsed, HeldBytes, FaithfulCodec;
      ghost var s := View();
      Standing(cfg, s);
      run, acts, victims := [s], [], [];
      var current := db.BytesInUse(Nvme);
      NothingEvicted(db.rows, db.epoch, incoming, cfg.maxBytes);
      SizesAreNatural(cfg, s);
      while current + incoming > cfg.maxBytes
        invariant current == BytesUsed(db.rows, Nvme) <= BytesUsed(old(db.rows), Nvme)
        invariant db.rows.Keys <= old(db.rows).Keys
        invariant Inv(cfg, View()) && Leads(cfg, s, run, acts, View())
        invariant IsEviction(old(db.rows), db.rows, db.epoch, incoming, cfg.maxBytes, victims)
        decreases |EvictableKeys(db.rows, Nvme, db.epoch)|
      {
        ghost var before := View();
        SizesAreNatural(cfg, before);
        var evicted, freed, victim, run', acts' := EvictOldest();
        RunsJoin(cfg, s, run, acts, before, run', acts', View());
        LeadsKeepsInv(cfg, before, run', acts', View());
        run, acts := run + run'[1..], acts + acts';
        if evicted.Err? {
          ghost var rk :| db.rows == Tombstoned(before.rows, rk, db.epoch);
          TombstoneLowersUsage(before.rows, rk, db.epoch);
          return Err(evicted.error), victims, run, acts;
        }
        if !evicted.value {
          NobodyLeft(old(db.rows), db.rows, db.epoch, incoming, cfg.maxBytes, victims);
          return Err(StoreFull), victims, run, acts;
        }
        assert EvictableKeys(db.rows, Nvme, db.epoch) == EvictableKeys(before.rows, Nvme, db.epoch) - {victim};
        UsageAfterRemoval(before.rows, victim);
        OneMoreEvicted(old(db.rows), before.rows, db.epoch, incoming, cfg.maxBytes, victims, victim);
        victims := victims + [victim];
        current := current - freed;
      }
      HeldFits(old(db.rows), db.rows, db.epoch, incoming, cfg.maxBytes, victims);
      r := Ok(());
    }

    /** Store a key that has no row in this tier: make room, write the record, publish the row. */
    method StoreNew(key: BlockKey, data: seq<Byte>, meta: KVMetadata, now: Time, name: SegmentName, fault: StoreFault)
      returns (r: Result<()>, ghost run: seq<Sys>, ghost acts: seq<Action>)
      requires FaithfulCodec(cfg.codec) && Inv(cfg, View())
      requires meta.key == key && Rk(key) !in db.rows && |data| <= cfg.maxBytes
      requires ValidMetadata(Sealed(cfg, meta, data, now)) && DescriptorAgrees(db.rows, Sealed(cfg, meta, data, now))
      modifies this`disk, db`rows
      ensures Leads(cfg, old(View()), run, acts, View())
      ensures r.Ok? ==> IsActive(db.rows, Rk(key)) && db.rows[Rk(key)].meta == Sealed(cfg, meta, data, now)
      ensures r.Ok? ==> exists record :: NewRecord(cfg, Nvme, Sealed(cfg, meta, data, now), data) == Ok(record)
                          && Extent(disk, db.rows[Rk(key)].uri) == Some(record)
      ensures r.Ok? ==> Payload(cfg, View(), Rk(key)) == Some(data)
      ensures r.Err? ==> Rk(key) !in db.rows
      ensures fault.Torn? || fault.Uncommitted? ==> r.Err?
      ensures stuck == {} && !fault.Torn? && !fault.Uncommitted? && NewRecord(cfg, Nvme, Sealed(cfg, meta, data, now), data).Ok? ==>
                (r == Err(StoreFull) <==> |data| + HeldBytes(old(db.rows), Nvme, db.epoch) > cfg.maxBytes)
      ensures stuck == {} && !fault.Torn? && !fault.Uncommitted? && NewRecord(cfg, Nvme, Sealed(cfg, meta, data, now), data).Ok? && r.Err? ==>
                r.error == StoreFull
      ensures r.Ok? ==> BytesUsed(db.rows, Nvme) <= cfg.maxBytes
      ensures r.Err? ==> BytesUsed(db.rows, Nvme) <= BytesUsed(old(db.rows), Nvme)
    {
      hide Leads, Inv, NewRecord, ValidMetadata, DescriptorAgrees, BytesUsed, OldestFirst, NoneTooMany, HeldBytes, DiskWith, UriFor;
      ghost var s := View();
      var m := Sealed(cfg, meta, data, now);
      var room, victims, run1, acts1 := EnsureCapacity(|data|);
      run, acts := run1, acts1;
      if room.Err? {
        return Err(room.error), run, acts;
      }
      ghost var mid := View();
      AgreementAfterEviction(s.rows, victims, m);
      IdleHasNoCompactor(cfg, mid);
      var record := NewRecord(cfg, Nvme, m, data);
      if record.Err? {
        NewRecordErrors(cfg, Nvme, m, data);
        return Err(InvalidArgument), run, acts;
      }
      if fault.Torn? {
        var n := Least(fault.n, |record.value|);
        disk := TornDisk(cfg, disk, key, name, record.value[..n]);
        ghost var run2, acts2 := FailedStoreRun(cfg, mid, Rk(key), meta, data, now, name, n);
        RunsJoin(cfg, s, run, acts, mid, run2, acts2, View());
        return Err(IoError), run + run2[1..], acts + acts2;
      }
      if fault.Uncommitted? {
        disk := DiskWith(cfg, disk, key, name, record.value);
        ghost var run2, acts2 := UncommittedStoreRun(cfg, mid, Rk(key), meta, data, now, name);
        RunsJoin(cfg, s, run, acts, mid, run2, acts2, View());
        return Err(IoError), run + run2[1..], acts + acts2;
      }
      var uri := UriFor(cfg, disk, key, name, |record.value|);
      ghost var run2, acts2 := StoreRun(cfg, mid, Rk(key), meta, data, now, name);
      StoredExtent(cfg, disk, key, name, record.value);
      disk := DiskWith(cfg, disk, key, name, record.value);
      var published := db.Upsert(Rk(key), PublishedLocation(uri, m), m);
      RunsJoin(cfg, s, run, acts, mid, run2, acts2, View());
      UsageAfterInsert(mid.rows, Rk(key), db.rows[Rk(key)]);
      StoredPayload(cfg, View(), Rk(key), m, data);
      r, run, acts := Ok(()), run + run2[1..], acts + acts2;
    }

    /** In a sound state a load of an active row fails only at its release, and is a use of the row and nothing else. */
    method LoadHealthy(key: BlockKey, now: Time, releaseFails: bool)
      returns (r: Result<seq<Byte>>, ghost run: seq<Sys>, ghost acts: seq<Action>)
      requires Inv(cfg, View()) && now >= 0 && IsActive(db.rows, Rk(key))
      modifies this`disk, this`holders, db`rows
      ensures Leads(cfg, old(View()), run, acts, View()) && disk == old(disk)
      ensures if releaseFails then r == Err(IoError) else r.Ok? && Payload(cfg, old(View()), Rk(key)) == Some(r.value)
      ensures r.Ok? ==> holders == old(holders) && db.rows == UsedRows(old(db.rows), Rk(key), now, db.epoch)
      ensures BytesUsed(db.rows, Nvme) == BytesUsed(old(db.rows), Nvme)
    {
      hide Leads, Inv, ValidMetadata, PayloadDescriptor, UsedRows, Genuine, ReadLocation, Extent, Canonical, PayloadOf, BytesUsed;
      IdleHasNoCompactor(cfg, View());
      ghost var p := HealthyRecord(cfg, View(), Rk(key), now);
      assert Loadable(cfg, disk, key, db.rows, now, p);
      var loaded;
      loaded, run, acts := Load(key, now, releaseFails);
      OnlyUsedUsage(old(db.rows), db.rows, Rk(key));
      r := if loaded.Ok? then Ok(loaded.value.data) else Err(loaded.error);
    }

    /** Store a key that is published: the same payload again is a use, another one a conflict. */
    method Restore(key: BlockKey, data: seq<Byte>, meta: KVMetadata, now: Time, fault: StoreFault)
      returns (r: Result<()>, ghost run: seq<Sys>, ghost acts: seq<Action>)
      requires FaithfulCodec(cfg.codec) && Inv(cfg, View()) && now >= 0
      requires meta.key == key && IsActive(db.rows, Rk(key))
      requires ValidMetadata(Sealed(cfg, meta, data, now)) && DescriptorAgrees(db.rows, Sealed(cfg, meta, data, now))
      modifies this`disk, this`holders, db`rows
      ensures Leads(cfg, old(View()), run, acts, View())
      ensures r.Ok? <==> Payload(cfg, old(View()), Rk(key)) == Some(data) && !fault.Unreleased? && !fault.Uncommitted?
      ensures r.Err? ==> r.error == if Payload(cfg, old(View()), Rk(key)) != Some(data) && !fault.Unreleased? then ImmutableBlockConflict else IoError
      ensures r.Ok? ==> IsActive(db.rows, Rk(key)) && db.rows[Rk(key)].meta == Sealed(cfg, meta, data, now)
      ensures r.Ok? ==> Payload(cfg, View(), Rk(key)) == Some(data)
      ensures disk == old(disk)
      ensures BytesUsed(db.rows, Nvme) == BytesUsed(old(db.rows), Nvme)
    {
      hide Leads, Inv, ValidMetadata, DescriptorAgrees, BytesUsed, Payload, UsedRows, Upserted;
      ghost var s := View();
      var m := Sealed(cfg, meta, data, now);
      var row := db.rows[Rk(key)];
      var loaded;
      loaded, run, acts := LoadHealthy(key, now, fault.Unreleased?);
      if loaded.Err? {
        return Err(loaded.error), run, acts;
      }
      if loaded.value != data {
        return Err(ImmutableBlockConflict), run, acts;
      }
      if fault.Uncommitted? {
        return Err(IoError), run, acts;
      }
      run, acts := RestoreRun(cfg, s, Rk(key), meta, data, now);
      var again := db.Upsert(Rk(key), Location(row.uri, |data|, m.checksum, row.createdAt, m.lastAccess), m);
      r := Ok(());
    }

    /** A store that no check turned away: write the row again if it is there, the block if it is not. */
    method StoreAccepted(key: BlockKey, data: seq<Byte>, meta: KVMetadata, now: Time, name: SegmentName, fault: StoreFault)
      returns (r: Result<()>, ghost run: seq<Sys>, ghost acts: seq<Action>)
      requires FaithfulCodec(cfg.codec) && Inv(cfg, View()) && now >= 0 && !Refused(db.rows, cfg, key, data, meta, now)
      modifies this`disk, this`holders, db`rows
      ensures Inv(cfg, View()) && Leads(cfg, old(View()), run, acts, View())
      ensures r.Ok? ==> IsActive(db.rows, Rk(key)) && Payload(cfg, View(), Rk(key)) == Some(data)
      ensures r.Ok? ==> db.rows[Rk(key)].meta == Sealed(cfg, meta, data, now)
      ensures IsActive(old(db.rows), Rk(key)) ==>
                && (r.Ok? <==> Payload(cfg, old(View()), Rk(key)) == Some(data) && !fault.Unreleased? && !fault.Uncommitted?)
                && (r.Err? && !fault.Unreleased? && !fault.Uncommitted? ==> r.error == ImmutableBlockConflict)
      ensures !IsActive(old(db.rows), Rk(key)) && r.Err? ==> Rk(key) !in db.rows
      ensures !IsActive(old(db.rows), Rk(key))
              && stuck == {} && !fault.Torn? && !fault.Uncommitted? && NewRecord(cfg, Nvme, Sealed(cfg, meta, data, now), data).Ok? ==>
                if |data| + HeldBytes(old(db.rows), Nvme, db.epoch) > cfg.maxBytes then r == Err(StoreFull) else r.Ok?
      ensures BytesUsed(old(db.rows), Nvme) <= cfg.maxBytes ==> BytesUsed(db.rows, Nvme) <= cfg.maxBytes
    {
      hide Leads, Inv, ValidMetadata, DescriptorAgrees, BytesUsed, HeldBytes, NewRecord, Payload, Extent, Deleted, FaithfulCodec, Canonical, Sealed;
      ghost var s := View();
      SoundLookups(cfg, s, Rk(key));
      var existing, looked, looking := Lookup(key);
      assert db.rows == s.rows;
      if existing.value.Some? {
        r, run, acts := Restore(key, data, meta, now, fault);
      } else {
        r, run, acts := StoreNew(key, data, meta, now, name, fault);
      }
      LeadsKeepsInv(cfg, s, run, acts, View());
    }

    /**
     Store a block.

     Every outcome is a run of the protocol, so everything proved about runs holds of it. A block
     that is reported as stored is active with exactly these bytes. A key under deletion, another
     descriptor anywhere, or other bytes under the same key are refused. For a new block, with a
     disk that works, the tier is full exactly when the block does not fit beside the rows that
     are being read, and usage never ends above the limit if it did not start there.
     */
    method Store(key: BlockKey, data: seq<Byte>, meta: KVMetadata, now: Time, name: SegmentName, fault: StoreFault)
      returns (r: Result<()>, ghost run: seq<Sys>, ghost acts: seq<Action>)
      requires FaithfulCodec(cfg.codec) && Inv(cfg, View()) && now >= 0
      modifies this`disk, this`holders, db`rows
      ensures Inv(cfg, View()) && Leads(cfg, old(View()), run, acts, View())
      ensures r.Ok? ==> IsActive(db.rows, Rk(key)) && Payload(cfg, View(), Rk(key)) == Some(data)
      ensures r.Ok? ==> db.rows[Rk(key)].meta == Sealed(cfg, meta, data, now)
      ensures meta.key != key ==> r == Err(MetadataMismatch)
      ensures meta.key == key && IsDeleting(old(db.rows), Rk(key)) ==> r == Err(TombstonePending)
      ensures Refused(old(db.rows), cfg, key, data, meta, now) ==> r.Err? && db.rows == old(db.rows) && disk == old(disk)
      ensures !Refused(old(db.rows), cfg, key, data, meta, now) && IsActive(old(db.rows), Rk(key)) ==>
                && (r.Ok? <==> Payload(cfg, old(View()), Rk(key)) == Some(data) && !fault.Unreleased? && !fault.Uncommitted?)
                && (r.Err? && !fault.Unreleased? && !fault.Uncommitted? ==> r.error == ImmutableBlockConflict)
      ensures !Refused(old(db.rows), cfg, key, data, meta, now) && !IsActive(old(db.rows), Rk(key)) && r.Err? ==> Rk(key) !in db.rows
      ensures !Refused(old(db.rows), cfg, key, data, meta, now) && !IsActive(old(db.rows), Rk(key))
              && stuck == {} && !fault.Torn? && !fault.Uncommitted? && NewRecord(cfg, Nvme, Sealed(cfg, meta, data, now), data).Ok? ==>
                if |data| + HeldBytes(old(db.rows), Nvme, db.epoch) > cfg.maxBytes then r == Err(StoreFull) else r.Ok?
      ensures BytesUsed(old(db.rows), Nvme) <= cfg.maxBytes ==> BytesUsed(db.rows, Nvme) <= cfg.maxBytes
    {
      hide Leads, Inv, ValidMetadata, DescriptorAgrees, BytesUsed, HeldBytes, NewRecord, Payload, Extent, Deleted, FaithfulCodec, Canonical, Sealed;
      ghost var s := View();
      Standing(cfg, s);
      run, acts := [s], [];
      if meta.key != key {
        return Err(MetadataMismatch), run, acts;
      }
      if IsDeleting(db.rows, Rk(key)) {
        return Err(TombstonePending), run, acts;
      }
      if |data| > cfg.maxBytes {
        return Err(StoreFull), run, acts;
      }
      var m := Sealed(cfg, meta, data, now);
      if !ValidMetadata(m) {
        return Err(InvalidArgument), run, acts;
      }
      var agreed := db.ValidatePayloadDescriptor(m);
      if agreed.Err? {
        return Err(agreed.error), run, acts;
      }
      r, run, acts := StoreAccepted(key, data, meta, now, name, fault);
    }

    /** The protocol state inside an operation. */
    ghost function At(m: Mutator): Sys
      reads this, db
    {
      View().(mutator := m)
    }

    /**
     Read the record behind a row snapshot and encode it again with the snapshot's metadata. Nothing
     to do if the row has gone elsewhere; an error if the record is not the one the row describes.
     */
    method Reencode(key: BlockKey, was: Row) returns (r: Result<Option<seq<Byte>>>)
      ensures r == Ok(None) <==> !IsActive(db.rows, Rk(key)) || db.rows[Rk(key)].uri != was.uri
      ensures r.Ok? && r.value.Some? ==> exists p ::
                && ReadLocation(cfg, Nvme, disk, was.uri) == Ok(p) && p.header.meta.key == key
                && PayloadDescriptor(p.header.meta) == PayloadDescriptor(was.meta)
                && |p.payload| == p.header.payloadBytes && cfg.codec.sha256(p.payload) == p.header.checksum
      ensures IsActive(db.rows, Rk(key)) && db.rows[Rk(key)].uri == was.uri && RowConsistent(Rk(key), was) && ValidMetadata(MovedMeta(was)) ==>
                forall p :: FindsRecord(cfg, disk, Rk(key), was, p) ==>
                  var record := Rewritten(cfg, p, MovedMeta(was));
                  r == if record.Ok? then Ok(Some(record.value)) else Err(record.error)
    {
      hide Canonical, ReadLocation, ValidMetadata, Rewritten;
      var current := db.Lookup(Rk(key));
      if current.None? || current.value.uri != was.uri {
        return Ok(None);
      }
      if !Canonical(cfg, Rk(key), was.uri) {
        return Err(MetadataMismatch);
      }
      var read := ReadLocation(cfg, Nvme, disk, was.uri);
      if read.Err? {
        return Err(read.error);
      }
      var p := read.value;
      if !ValidMetadata(MovedMeta(was)) {
        return Err(MetadataMismatch);
      }
      if p.header.meta.key != key || PayloadDescriptor(p.header.meta) != PayloadDescriptor(was.meta) {
        return Err(MetadataMismatch);
      }
      if |p.payload| != p.header.payloadBytes || cfg.codec.sha256(p.payload) != p.header.checksum {
        return Err(ChecksumMismatch);
      }
      var meta := MovedMeta(was).(checksum := p.header.checksum, bytes := |p.payload|);
      var record := Rewritten(cfg, p, meta);
      if record.Err? {
        return Err(record.error);
      }
      r := Ok(Some(record.value));
    }

    /**
     Append the record to a file of this compaction, point the row at it, let the row go. A fault after
     the last byte is an upsert that fails.
     */
    method MoveRecord(key: BlockKey, was: Row, record: seq<Byte>, id: nat, part: (Disk, BlockKey, nat) -> nat, fault: Option<nat>, ghost s: Sys)
      returns (r: Result<()>, ghost run: seq<Sys>, ghost acts: seq<Action>)
      requires cfg.segmented && Inv(cfg, s) && s.mutator.Compacting? && s.mutator.id == id && Compactor !in s.holders
      requires IsActive(s.rows, Rk(key)) && CanMove(cfg, s, Rk(key)) && record == MovedRecord(cfg, s, Rk(key)) && s.rows[Rk(key)] == was
      requires db.rows == Acquired(s.rows, Rk(key), s.epoch) && View() == s.(rows := db.rows, mutator := Idle)
      modifies this`disk, db`rows
      ensures r.Ok? ==> Underway(cfg, s, run, acts, At(Compacting(s.mutator.todo - {Rk(key)}, id)))
      ensures r.Err? ==> fault.Some? && Leads(cfg, s, run, acts, View()) && OnlyCompacts(acts)
      ensures db.rows.Keys == s.rows.Keys && forall rk :: rk in db.rows && rk != Rk(key) ==> db.rows[rk] == s.rows[rk]
      ensures r.Ok? ==> forall uri :: Extent(s.disk, uri).Some? && uri.SegmentUri? ==> Extent(disk, uri) == Extent(s.disk, uri)
    {
      hide Inv, Leads, Underway, Extent, CanMove, MovedRecord, ValidMetadata, DescriptorAgrees, ValidUpsert, DiskWith, UriFor;
      var name := Compacted(id, part(disk, key, |record|));
      if fault.Some? {
        var n := Least(fault.value, |record|);
        disk := DiskWith(cfg, disk, key, name, record[..n]);
        run, acts := TornMoveRun(cfg, s, Rk(key), name, n);
        db.Release(Rk(key));
        return Err(IoError), run, acts;
      }
      run, acts := MoveRun(cfg, s, Rk(key), name);
      var uri := UriFor(cfg, disk, key, name, |record|);
      forall uri: Uri | Extent(disk, uri).Some? && uri.SegmentUri?
        ensures Extent(DiskWith(cfg, disk, key, name, record), uri) == Extent(disk, uri)
      {
        AppendedExtent(cfg, disk, key, name, record, uri);
      }
      disk := DiskWith(cfg, disk, key, name, record);
      var moved := db.Upsert(Rk(key), MovedLocation(was, uri), MovedMeta(was));
      db.Release(Rk(key));
      r := Ok(());
    }

    /** Move one record into the files of this compaction and point its row at the new place. */
    method MoveEntry(key: BlockKey, was: Row, id: nat, part: (Disk, BlockKey, nat) -> nat, fault: Option<nat>, ghost todo: set<RowKey>)
      returns (r: Result<()>, ghost run: seq<Sys>, ghost acts: seq<Action>)
      requires FaithfulCodec(cfg.codec) && cfg.segmented && Inv(cfg, At(Compacting(todo, id)))
      requires Rk(key) in todo && db.rows[Rk(key)] == was
      modifies this`disk, db`rows
      ensures r.Ok? ==> Underway(cfg, old(At(Compacting(todo, id))), run, acts, At(Compacting(todo - {Rk(key)}, id)))
      ensures r.Err? ==> Leads(cfg, old(At(Compacting(todo, id))), run, acts, View()) && OnlyCompacts(acts)
      ensures r.Err? ==> fault.Some? || !Fits(cfg, old(disk), was)
      ensures db.rows.Keys == old(db.rows).Keys
      ensures forall rk :: rk in db.rows && rk != Rk(key) ==> db.rows[rk] == old(db.rows)[rk]
      ensures r.Ok? ==> forall uri :: Extent(old(disk), uri).Some? && uri.SegmentUri? ==> Extent(disk, uri) == Extent(old(disk), uri)
    {
      hide Inv, Leads, Underway, ReadLocation, ParseExtent, Extent, Rewritten, Holds, ValidMetadata, RowConsistent, Genuine, DiskWith, UriFor;
      hide DescriptorAgrees, ValidUpsert, PayloadDescriptor, CanMove, MovedRecord, Fits, FindsRecord, FaithfulCodec;
      ghost var s := At(Compacting(todo, id));
      TodoIsUnread(cfg, s);
      ghost var p := MoveReady(cfg, s, key);
      MoveIsPossible(cfg, s, key, p);
      var held := db.LookupAndAcquire(Rk(key));
      var encoded := Reencode(key, was);
      if encoded.Err? {
        run, acts := RefusedMoveRun(cfg, s, Rk(key));
        db.Release(Rk(key));
        return Err(encoded.error), run, acts;
      }
      r, run, acts := MoveRecord(key, was, encoded.value.value, id, part, fault, s);
    }

    /** The segment files that active rows point into; a location that cannot be trusted is an error. */
    method References() returns (r: Result<set<Path>>)
      ensures r.Ok? <==> forall rk :: IsActive(db.rows, rk) && rk.tier == Nvme && db.rows[rk].uri.SegmentUri? ==> Canonical(cfg, rk, db.rows[rk].uri)
      ensures r.Ok? ==> forall path :: path in r.value <==> Referenced(db.rows, path)
      ensures r.Err? ==> r.error == MetadataMismatch
    {
      hide Canonical;
      var all := set rk | rk in db.rows && rk.tier == Nvme && db.rows[rk].state == Active && db.rows[rk].uri.SegmentUri?;
      var todo := all;
      var found := {};
      while todo != {}
        invariant todo <= all
        invariant forall rk :: rk in all - todo ==> Canonical(cfg, rk, db.rows[rk].uri) && db.rows[rk].uri.path in found
        invariant forall path :: path in found ==> Referenced(db.rows, path)
        decreases |todo|
      {
        var rk :| rk in todo;
        if !Canonical(cfg, rk, db.rows[rk].uri) {
          return Err(MetadataMismatch);
        }
        found := found + {db.rows[rk].uri.path};
        todo := todo - {rk};
      }
      forall path | Referenced(db.rows, path) ensures path in found {
        var rk :| rk in db.rows && rk.tier == Nvme && db.rows[rk].state == Active && db.rows[rk].uri.SegmentUri? && db.rows[rk].uri.path == path;
        assert rk in all - todo;
      }
      r := Ok(found);
    }

    /** Unlink every segment file that no active row points into. */
    method RemoveUnreferencedSegmentFiles(ghost id: nat)
      returns (r: Result<(nat, nat)>, ghost run: seq<Sys>, ghost acts: seq<Action>)
      requires FaithfulCodec(cfg.codec) && cfg.segmented && Inv(cfg, At(Compacting({}, id)))
      modifies this`disk
      ensures r.Ok? ==> Underway(cfg, old(At(Compacting({}, id))), run, acts, At(Sweeping)) && CanEndSweep(At(Sweeping))
      ensures r.Err? ==> stuck != {} && Leads(cfg, old(At(Compacting({}, id))), run, acts, View()) && OnlyCompacts(acts)
      ensures exists left :: IsSweep(db.rows, old(disk), disk, left) && (r.Ok? ==> left == {} && r.value.0 == Missing(old(disk), disk))
    {
      hide Inv, Leads, Underway, IsSweep, Canonical, Extent, OnlyCompacts, CanEndSweep, FaithfulCodec, Referenced, Missing;
      ghost var s, compacting := At(Sweeping), At(Compacting({}, id));
      SegmentsOnly(cfg, compacting);
      TodoIsUnread(cfg, compacting);
      SweepBegins(cfg, compacting);
      run, acts := [compacting, s], [BeginSweep];
      var referenced := References();
      var todo := set path | path in disk && path.SegmentFile?;
      NothingSwept(db.rows, disk);
      var removed: nat, removedBytes: nat := 0, 0;
      while todo != {}
        invariant Underway(cfg, compacting, run, acts, At(Sweeping))
        invariant IsSweep(db.rows, old(disk), disk, todo)
        invariant removed == Missing(old(disk), disk)
        decreases |todo|
      {
        var path :| path in todo;
        SweepSplits(db.rows, old(disk), disk, todo, path);
        if path !in referenced.value {
          if path in stuck {
            GivenUp(cfg, compacting, run, acts, At(Sweeping));
            return Err(IoError), run + [View()], acts + [Abort];
          }
          OneSwept(cfg, compacting, run, acts, At(Sweeping), path);
          removed, removedBytes := removed + 1, removedBytes + |disk[path]|;
          disk := disk - {path};
          run, acts := run + [At(Sweeping)], acts + [Sweep(path)];
        }
        todo := todo - {path};
      }
      SweepIsComplete(db.rows, old(disk), At(Sweeping));
      r := Ok((removed, removedBytes));
    }

    /** Move the records of the entries, one after the other. */
    method MoveAll(entries: set<RowKey>, id: nat, part: (Disk, BlockKey, nat) -> nat, faults: map<BlockKey, nat>)
      returns (r: Result<nat>, ghost run: seq<Sys>, ghost acts: seq<Action>)
      requires FaithfulCodec(cfg.codec) && cfg.segmented && Inv(cfg, At(Compacting(entries, id)))
      requires forall rk :: rk in entries ==>
                 IsActive(db.rows, rk) && rk.tier == Nvme && db.rows[rk].uri.SegmentUri? && Extent(disk, db.rows[rk].uri).Some?
      modifies this`disk, db`rows
      ensures r.Ok? ==> Underway(cfg, old(At(Compacting(entries, id))), run, acts, At(Compacting({}, id))) && r.value == |entries|
      ensures r.Err? ==> Leads(cfg, old(At(Compacting(entries, id))), run, acts, View()) && OnlyCompacts(acts)
      ensures r.Err? ==> faults != map[] || exists rk :: rk in entries && !Fits(cfg, old(disk), old(db.rows)[rk])
      ensures db.rows.Keys == old(db.rows).Keys
      ensures forall rk :: rk in db.rows && rk !in entries ==> db.rows[rk] == old(db.rows)[rk]
    {
      hide Inv, Leads, Underway, Fits, Extent, OnlyCompacts;
      var snapshot := db.rows;
      ghost var s := At(Compacting(entries, id));
      AtStart(cfg, s);
      run, acts := [s], [];
      var todo, moved := entries, 0;
      while todo != {}
        invariant Inv(cfg, At(Compacting(todo, id))) && Underway(cfg, s, run, acts, At(Compacting(todo, id)))
        invariant todo <= entries && moved + |todo| == |entries|
        invariant db.rows.Keys == snapshot.Keys
        invariant forall rk :: rk in snapshot && (rk in todo || rk !in entries) ==> db.rows[rk] == snapshot[rk]
        invariant forall rk :: rk in todo ==> Extent(disk, snapshot[rk].uri) == Extent(old(disk), snapshot[rk].uri)
        decreases |todo|
      {
        var rk :| rk in todo;
        assert rk == Rk(rk.key);
        ghost var before := At(Compacting(todo, id));
        var fault := if rk.key in faults then Some(faults[rk.key]) else None;
        var one, run', acts' := MoveEntry(rk.key, snapshot[rk], id, part, fault, todo);
        if one.Err? {
          GivenUpLater(cfg, s, run, acts, before, run', acts', View());
          SameExtentFits(cfg, old(disk), before.disk, snapshot[rk]);
          return Err(one.error), run + run'[1..], acts + acts';
        }
        todo := todo - {rk};
        GoOn(cfg, s, run, acts, before, run', acts', At(Compacting(todo, id)));
        run, acts := run + run'[1..], acts + acts';
        UnderwayKeepsInv(cfg, s, run, acts, At(Compacting(todo, id)));
        moved := moved + 1;
      }
      r := Ok(moved);
    }

    /** Move the records, then drop the files that no row points into any more. */
    method MoveAndSweep(entries: set<RowKey>, id: nat, part: (Disk, BlockKey, nat) -> nat, faults: map<BlockKey, nat>)
      returns (r: Result<Report>, ghost run: seq<Sys>, ghost acts: seq<Action>)
      requires FaithfulCodec(cfg.codec) && cfg.segmented && Inv(cfg, At(Compacting(entries, id)))
      requires forall rk :: rk in entries ==>
                 IsActive(db.rows, rk) && rk.tier == Nvme && db.rows[rk].uri.SegmentUri? && Extent(disk, db.rows[rk].uri).Some?
      modifies this`disk, db`rows
      ensures r.Ok? ==> Underway(cfg, old(At(Compacting(entries, id))), run, acts, At(Sweeping)) && CanEndSweep(At(Sweeping))
      ensures r.Ok? ==> r.value.Report? && r.value.moved == |entries|
      ensures r.Err? ==> Leads(cfg, old(At(Compacting(entries, id))), run, acts, View()) && OnlyCompacts(acts)
      ensures r.Err? ==> stuck != {} || faults != map[] || exists rk :: rk in entries && !Fits(cfg, old(disk), old(db.rows)[rk])
      ensures db.rows.Keys == old(db.rows).Keys
      ensures forall rk :: rk in db.rows && rk !in entries ==> db.rows[rk] == old(db.rows)[rk]
    {
      hide Inv, Leads, Underway, Fits, Extent, CanEndSweep, OnlyCompacts, IsSweep, FaithfulCodec;
      ghost var s := At(Compacting(entries, id));
      var moved, run1, acts1 := MoveAll(entries, id, part, faults);
      if moved.Err? {
        return Err(moved.error), run1, acts1;
      }
      ghost var before := At(Compacting({}, id));
      UnderwayKeepsInv(cfg, s, run1, acts1, before);
      var swept, run2, acts2 := RemoveUnreferencedSegmentFiles(id);
      if swept.Err? {
        GivenUpLater(cfg, s, run1, acts1, before, run2, acts2, View());
        return Err(swept.error), run1 + run2[1..], acts1 + acts2;
      }
      GoOn(cfg, s, run1, acts1, before, run2, acts2, At(Sweeping));
      r, run, acts := Ok(Report(moved.value, swept.value.0, swept.value.1)), run1 + run2[1..], acts1 + acts2;
    }

    /**
     Rewrite the records nobody is reading into fresh files, then drop the files nobody points into.

     Whatever goes wrong on the way, the same rows are active and every one reads the payload and
     carries the descriptor it had before; rows that are being read do not even move. A compaction
     that is not interrupted fails only if a header no longer fits. If it began with no reader, it
     leaves segment files that consist of live records and nothing else.
     */
    method CompactSegments(id: nat, part: (Disk, BlockKey, nat) -> nat, faults: map<BlockKey, nat>)
      returns (r: Result<Report>, ghost run: seq<Sys>, ghost acts: seq<Action>)
      requires FaithfulCodec(cfg.codec) && Inv(cfg, View())
      modifies this`disk, db`rows
      ensures Inv(cfg, View()) && Leads(cfg, old(View()), run, acts, View())
      ensures SameMeaning(cfg, old(View()), View()) && NotMore(old(db.rows), db.rows)
      ensures forall rk :: rk in db.rows && !(rk.tier == Nvme && Evictable(old(db.rows), rk, db.epoch)) ==>
                rk in old(db.rows) && db.rows[rk] == old(db.rows)[rk]
      ensures !cfg.segmented ==> r == Ok(NotSegmented) && db.rows == old(db.rows) && disk == old(disk)
      ensures cfg.segmented && r.Ok? ==>
                && r.value.Report? && r.value.moved == |EvictableKeys(old(db.rows), Nvme, db.epoch)|
                && (forall path :: path in disk && path.SegmentFile? ==> Referenced(db.rows, path))
      ensures cfg.segmented && r.Ok? && Unheld(holders) && (forall path :: path in old(disk) ==> !IsOutput(path, id)) ==>
                OnlyLiveRecords(View())
      ensures r.Err? ==> stuck != {} || faults != map[]
                         || exists rk :: rk in EvictableKeys(old(db.rows), Nvme, db.epoch) && !Fits(cfg, old(disk), old(db.rows)[rk])
    {
      hide Inv, Leads, Underway, SameMeaning, Fits, Extent, Canonical, OnlyLiveRecords, CanEndSweep, OnlyCompacts, IsSweep;
      hide IsOutput, FaithfulCodec, NotMore;
      ghost var s := View();
      if !cfg.segmented {
        NothingDone(cfg, s);
        SameMeaningSameSize(cfg, s, s);
        return Ok(NotSegmented), [s], [];
      }
      SegmentsOnly(cfg, s);
      var entries := set rk | rk in db.rows && rk.tier == Nvme && Evictable(db.rows, rk, db.epoch)
                            && db.rows[rk].uri.SegmentUri? && Extent(disk, db.rows[rk].uri).Some?;
      assert entries == EvictableKeys(db.rows, Nvme, db.epoch);
      ghost var begun := At(Compacting(entries, id));
      assert begun == DoBeginCompact(s, id);
      BegunIsSound(cfg, s, id);
      var done, run1, acts1 := MoveAndSweep(entries, id, part, faults);
      if done.Err? {
        Interrupted(cfg, s, id, run1, acts1, View());
        SameMeaningSameSize(cfg, s, View());
        return done, [s] + run1, [BeginCompact(id)] + acts1;
      }
      Completed(cfg, s, id, run1, acts1, At(Sweeping));
      SameMeaningSameSize(cfg, s, View());
      r, run, acts := done, [s] + (run1 + [View()]), [BeginCompact(id)] + (acts1 + [EndSweep]);
    }
  }
}
