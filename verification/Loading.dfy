/** Loading a record through its location, the same way in the file tier and in the object tier. */
module Loading {
  import opened Identity
  import opened Metadata
  import opened Record
  import opened Rows
  import opened Tiers
  import opened Accounting
  import opened Store
  import opened KvProtocol
  import opened KvInvariant
  import opened KvSafety
  import opened KvRuns

  /** The first check a record fails against its location, in the order in which a load makes them. */
  function RecordFault(cfg: Config, rk: RowKey, loc: Location, p: Parsed): Option<Error> {
    if rk.tier == Nvme && Field(p.header.fields, "layout_mode") != JStr(LayoutName(cfg)) then Some(RecordFormatError)
    else if p.header.meta.key != rk.key then Some(MetadataMismatch)
    else if loc.bytes != |p.payload| || loc.bytes != p.header.payloadBytes then Some(MetadataMismatch)
    else if loc.checksum != p.header.checksum then Some(MetadataMismatch)
    else if cfg.codec.sha256(p.payload) != p.header.checksum then Some(ChecksumMismatch)
    else None
  }

  /** The location is canonical and its bytes are a record that passes every check of a load. */
  ghost predicate FindsRecord(cfg: Config, disk: Disk, rk: RowKey, row: Row, p: Parsed) {
    && Canonical(cfg, rk, row.uri)
    && ReadLocation(cfg, rk.tier, disk, row.uri) == Ok(p)
    && Genuine(cfg, rk, row.bytes, row.checksum, row.meta, p)
  }

  /** Only the counters, times and owner mark of one row may have changed. */
  ghost predicate OnlyUsed(rows: Table, after: Table, rk: RowKey) {
    && rows.Keys == after.Keys
    && (forall k :: k in rows && k != rk ==> after[k] == rows[k])
    && (rk in rows ==> SameRow(rows[rk], after[rk]))
  }

  /** No other row changed, none appeared, and all readers that were counted still are, if releasing works. */
  ghost predicate HoldGivenBack(rows: Table, after: Table, rk: RowKey, epoch: string, releaseFails: bool) {
    && (forall k :: k != rk ==> (k in after <==> k in rows) && (k in after ==> after[k] == rows[k]))
    && (!releaseFails ==> forall k :: k in after ==> k in rows && Held(after[k], epoch) == Held(rows[k], epoch))
  }

  lemma NoneTaken(rows: Table, after: Table, rk: RowKey, epoch: string, releaseFails: bool)
    requires HoldGivenBack(rows, after, rk, epoch, false)
    ensures HoldGivenBack(rows, after, rk, epoch, releaseFails)
  {}

  lemma GivenBackThen(rows: Table, mid: Table, after: Table, rk: RowKey, epoch: string)
    requires HoldGivenBack(rows, mid, rk, epoch, false) && HoldGivenBack(mid, after, rk, epoch, false)
    requires NotMore(rows, mid) && NotMore(mid, after)
    ensures HoldGivenBack(rows, after, rk, epoch, false) && NotMore(rows, after)
  {}

  // ----- what a sound state promises -----

  lemma IdleHasNoCompactor(cfg: Config, s: Sys)
    requires Inv(cfg, s) && s.mutator.Idle?
    ensures Compactor !in s.holders
  {
    hide Core;
  }

  /** In a sound state every location can be used. */
  lemma CandidateIsCanonical(cfg: Config, s: Sys, rk: RowKey)
    requires Inv(cfg, s) && rk in s.rows
    ensures Canonical(cfg, rk, s.rows[rk].uri) && (s.mutator.Idle? ==> Compactor !in s.holders)
  {
    hide Consistent, Holds, Counted, Pinned, MemoryBacked;
    assert RowSound(cfg, s.disk, rk, s.rows[rk]);
  }

  lemma BytesOfPayload(cfg: Config, s: Sys, rk: RowKey, data: seq<Byte>)
    requires Inv(cfg, s) && IsActive(s.rows, rk) && Payload(cfg, s, rk) == Some(data)
    ensures s.rows[rk].bytes == |data|
  {
    hide Counted, Pinned, MemoryBacked, MutatorOk, Placed, OneDescriptor, Payload;
    PayloadMatchesRow(cfg, s, rk);
    assert RowConsistent(rk, s.rows[rk]);
  }

  /** In a sound state a lookup finds every active row where it says it is. */
  lemma SoundLookups(cfg: Config, s: Sys, rk: RowKey)
    requires Inv(cfg, s)
    ensures IsActive(s.rows, rk) && rk.tier != Memory ==> Canonical(cfg, rk, s.rows[rk].uri) && Extent(s.disk, s.rows[rk].uri).Some?
  {
    hide Consistent, Counted, Pinned, MemoryBacked, MutatorOk, Holds;
    if IsActive(s.rows, rk) && rk.tier != Memory {
      assert RowSound(cfg, s.disk, rk, s.rows[rk]);
    }
  }

  /** A sound state's row and what a load of it will find. */
  lemma HealthyRecord(cfg: Config, s: Sys, rk: RowKey, now: Time) returns (p: Parsed)
    requires Inv(cfg, s) && IsActive(s.rows, rk) && rk.tier != Memory && now >= 0
    ensures FindsRecord(cfg, s.disk, rk, s.rows[rk], p)
    ensures Extent(s.disk, s.rows[rk].uri).Some? && Payload(cfg, s, rk) == Some(p.payload)
    ensures ValidMetadata(MovedMeta(Touched(s.rows, rk, now)[rk]))
  {
    hide Counted, Pinned, MemoryBacked, MutatorOk, OneDescriptor, ValidMetadata, ParseExtent, ReadLocation, Extent, Genuine, Canonical;
    var row := s.rows[rk];
    assert RowSound(cfg, s.disk, rk, row) && RowConsistent(rk, row);
    p := ParseExtent(cfg, rk.tier, Extent(s.disk, row.uri).value).value;
    ReadIsParseOfExtent(cfg, rk, s.disk, row.uri, p);
    UseKeepsMetadataValid(row, now);
  }

  lemma UseKeepsMetadataValid(row: Row, now: Time)
    requires ValidMetadata(row.meta) && row.reuseCount >= 0 && now >= 0
    ensures ValidMetadata(MovedMeta(row.(lastAccess := now, reuseCount := row.reuseCount + 1)))
  {}

  // ----- storing a block that is there -----

  /** A row that points at the record of a new block has the block's data. */
  lemma StoredPayload(cfg: Config, s: Sys, rk: RowKey, m: KVMetadata, data: seq<Byte>)
    requires FaithfulCodec(cfg.codec) && ValidMetadata(m) && m.key == rk.key && rk.tier != Memory
    requires m.bytes == |data| <= TierLimit(cfg, rk.tier) && m.checksum == cfg.codec.sha256(data)
    requires NewRecord(cfg, rk.tier, m, data).Ok? && rk in s.rows
    requires Extent(s.disk, s.rows[rk].uri) == Some(NewRecord(cfg, rk.tier, m, data).value)
    ensures Payload(cfg, s, rk) == Some(data)
  {
    hide NewRecord, PayloadOf, ValidMetadata, FaithfulCodec, Extent;
    NewRecordHolds(cfg, rk, m, data);
  }

  /** After the load that compared the payloads, the upsert of a store succeeds. */
  lemma ReplayGoesThrough(cfg: Config, s: Sys, rk: RowKey, meta: KVMetadata, data: seq<Byte>, now: Time)
    requires Inv(cfg, s) && s.mutator.Idle? && IsActive(s.rows, rk) && rk.tier != Memory && meta.key == rk.key
    requires Payload(cfg, s, rk) == Some(data)
    requires ValidMetadata(Sealed(cfg, meta, data, now)) && DescriptorAgrees(s.rows, Sealed(cfg, meta, data, now))
    ensures CanReplay(cfg, s.(rows := UsedRows(s.rows, rk, now, s.epoch)), rk, meta, data, now)
  {
    hide Core, MutatorOk, ValidMetadata, PayloadDescriptor, PayloadOf, Extent;
    var m, used := Sealed(cfg, meta, data, now), UsedRows(s.rows, rk, now, s.epoch);
    CandidateIsCanonical(cfg, s, rk);
    assert DescriptorAgrees(used, m) by {
      forall tier: Tier | RowKey(m.key, tier) in used
        ensures RowKey(m.key, tier) in s.rows && used[RowKey(m.key, tier)].meta == s.rows[RowKey(m.key, tier)].meta
      {}
    }
  }

  lemma ReplayedRow(cfg: Config, s: Sys, rk: RowKey, meta: KVMetadata, data: seq<Byte>, now: Time)
    requires CanReplay(cfg, s, rk, meta, data, now)
    ensures var t := DoReplay(cfg, s, rk, meta, data, now);
            && IsActive(t.rows, rk) && t.rows[rk].uri == s.rows[rk].uri
            && t.rows[rk].meta == Sealed(cfg, meta, data, now)
            && Payload(cfg, t, rk) == Some(data)
            && (s.rows[rk].bytes == |data| ==> BytesUsed(t.rows, rk.tier) == BytesUsed(s.rows, rk.tier))
  {
    hide ValidUpsert, DescriptorAgrees, PayloadOf, Extent;
    var t := DoReplay(cfg, s, rk, meta, data, now);
    if s.rows[rk].bytes == |data| {
      UsageFrame(s.rows, t.rows, rk.tier);
    }
  }

  lemma UsedRowsFacts(rows: Table, rk: RowKey, now: Time, epoch: string)
    requires IsActive(rows, rk)
    ensures var used := UsedRows(rows, rk, now, epoch);
            rk in used && used[rk].uri == rows[rk].uri && used[rk].bytes == rows[rk].bytes && used[rk].createdAt == rows[rk].createdAt
  {}

  /** Storing the same payload again is a load and one replay step. */
  lemma RestoreRun(cfg: Config, s: Sys, rk: RowKey, meta: KVMetadata, data: seq<Byte>, now: Time)
    returns (run: seq<Sys>, acts: seq<Action>)
    requires Inv(cfg, s) && s.mutator.Idle? && IsActive(s.rows, rk) && rk.tier != Memory && meta.key == rk.key && now >= 0
    requires Payload(cfg, s, rk) == Some(data)
    requires ValidMetadata(Sealed(cfg, meta, data, now)) && DescriptorAgrees(s.rows, Sealed(cfg, meta, data, now))
    ensures var m, row := Sealed(cfg, meta, data, now), s.rows[rk];
            var loc := Location(row.uri, |data|, m.checksum, row.createdAt, m.lastAccess);
            var after := Upserted(UsedRows(s.rows, rk, now, s.epoch), rk, loc, m, s.epoch);
            && after.Ok? && Leads(cfg, s, run, acts, s.(rows := after.value))
            && IsActive(after.value, rk) && after.value[rk].meta == m
            && Payload(cfg, s.(rows := after.value), rk) == Some(data)
            && BytesUsed(after.value, rk.tier) == BytesUsed(s.rows, rk.tier)
  {
    hide Leads, Inv, ValidMetadata, DescriptorAgrees, BytesUsed, PayloadOf, Extent, UsedRows, Upserted;
    var mid := s.(rows := UsedRows(s.rows, rk, now, s.epoch));
    UsedRowsFacts(s.rows, rk, now, s.epoch);
    UsedRowsUsage(s.rows, rk, now, s.epoch);
    ReplayGoesThrough(cfg, s, rk, meta, data, now);
    ReplayedRow(cfg, mid, rk, meta, data, now);
    BytesOfPayload(cfg, s, rk, data);
    run, acts := LoadRun(cfg, s, rk, now);
    OneMore(cfg, s, run, acts, mid, Replay(rk, meta, data, now));
    run, acts := run + [DoReplay(cfg, mid, rk, meta, data, now)], acts + [Replay(rk, meta, data, now)];
  }

  lemma UsedRowsUsage(rows: Table, rk: RowKey, now: Time, epoch: string)
    ensures BytesUsed(UsedRows(rows, rk, now, epoch), rk.tier) == BytesUsed(rows, rk.tier)
  {
    UsageFrame(rows, UsedRows(rows, rk, now, epoch), rk.tier);
  }

  lemma OnlyUsedUsage(rows: Table, after: Table, rk: RowKey)
    requires OnlyUsed(rows, after, rk)
    ensures BytesUsed(after, rk.tier) == BytesUsed(rows, rk.tier)
  {
    UsageFrame(rows, after, rk.tier);
  }

  lemma UsedRowsOnly(rows: Table, rk: RowKey, now: Time, epoch: string)
    ensures OnlyUsed(rows, UsedRows(rows, rk, now, epoch), rk)
  {}

  // ----- reading -----

  /** Compare what was read through an acquired location with the row; a sound record counts as a use. */
  method Inspect(cfg: Config, db: MetadataStore, rk: RowKey, loc: Location, now: Time, read: Result<Parsed>)
    returns (r: Result<Loaded>, ghost used: bool)
    requires IsActive(db.rows, rk) && loc == LocationOf(db.rows[rk])
    modifies db`rows
    ensures db.rows == (if used then Touched(old(db.rows), rk, now) else old(db.rows))
    ensures read.Err? ==> r == Err(read.error) && !used
    ensures r.Ok? ==>
              && used && read.Ok? && r.value.data == read.value.payload && r.value.meta.key == rk.key
              && Genuine(cfg, rk, old(db.rows[rk].bytes), old(db.rows[rk].checksum), old(db.rows[rk].meta), read.value)
              && PayloadDescriptor(r.value.meta) == PayloadDescriptor(old(db.rows[rk].meta))
    ensures read.Ok? && Genuine(cfg, rk, old(db.rows[rk].bytes), old(db.rows[rk].checksum), old(db.rows[rk].meta), read.value) ==>
              ValidMetadata(MovedMeta(Touched(old(db.rows), rk, now)[rk])) ==> r.Ok?
  {
    hide ValidMetadata;
    if read.Err? {
      return Err(read.error), false;
    }
    var p := read.value;
    var fault := RecordFault(cfg, rk, loc, p);
    if fault.Some? {
      return Err(fault.value), false;
    }
    db.Touch(rk, now);
    used := true;
    var row := db.rows[rk];
    if !ValidMetadata(MovedMeta(row)) || row.meta.key != rk.key {
      return Err(MetadataMismatch), used;
    }
    if PayloadDescriptor(row.meta) != PayloadDescriptor(p.header.meta) {
      return Err(MetadataMismatch), used;
    }
    r := Ok(Loaded(p.payload, p.header.meta.(lastAccess := row.lastAccess, reuseCount := row.reuseCount)));
  }

  /** A visit changes no more than the counters of its row, and gives its hold back if it can. */
  lemma VisitGivesBack(rows: Table, rk: RowKey, now: Time, epoch: string, used: bool, released: bool)
    requires IsActive(rows, rk)
    ensures var after := VisitedRows(rows, rk, now, epoch, used, released);
            && IsActive(after, rk) && OnlyUsed(rows, after, rk) && NotMore(rows, after)
            && HoldGivenBack(rows, after, rk, epoch, !released)
            && (used && released ==> after == UsedRows(rows, rk, now, epoch))
  {}

  /** Acquire the row, read and inspect its record, release it again if that works. */
  method ReadHeld(cfg: Config, db: MetadataStore, disk: Disk, rk: RowKey, now: Time, releaseFails: bool)
    returns (r: Result<Loaded>, ghost used: bool)
    requires IsActive(db.rows, rk)
    modifies db`rows
    ensures IsActive(db.rows, rk) && OnlyUsed(old(db.rows), db.rows, rk) && (r.Ok? ==> used)
    ensures db.rows == VisitedRows(old(db.rows), rk, now, db.epoch, used, !releaseFails)
    ensures used && !releaseFails ==> db.rows == UsedRows(old(db.rows), rk, now, db.epoch)
    ensures HoldGivenBack(old(db.rows), db.rows, rk, db.epoch, releaseFails) && NotMore(old(db.rows), db.rows)
    ensures r.Ok? ==> exists p :: FindsRecord(cfg, disk, rk, old(db.rows[rk]), p) && r.value.data == p.payload
    ensures r.Ok? ==> PayloadDescriptor(r.value.meta) == PayloadDescriptor(old(db.rows[rk].meta)) && r.value.meta.key == rk.key
    ensures forall p :: FindsRecord(cfg, disk, rk, old(db.rows[rk]), p) ==>
              ValidMetadata(MovedMeta(Touched(old(db.rows), rk, now)[rk])) ==> r.Ok? && r.value.data == p.payload
  {
    hide ReadLocation, ValidMetadata, PayloadDescriptor, Canonical, Genuine, OnlyUsed, HoldGivenBack, NotMore, UsedRows;
    var loc := db.LookupAndAcquire(rk);
    ghost var held := db.rows;
    assert MovedMeta(Touched(old(db.rows), rk, now)[rk]) == MovedMeta(Touched(held, rk, now)[rk]);
    var read := if Canonical(cfg, rk, loc.value.uri) then ReadLocation(cfg, rk.tier, disk, loc.value.uri) else Err(MetadataMismatch);
    r, used := Inspect(cfg, db, rk, loc.value, now, read);
    assert r.Ok? ==> FindsRecord(cfg, disk, rk, old(db.rows[rk]), read.value);
    if !releaseFails {
      db.Release(rk);
    }
    VisitGivesBack(old(db.rows), rk, now, db.epoch, used, !releaseFails);
  }
}
