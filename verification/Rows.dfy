/**
 The block table: one row per (key, tier), and what each statement of the metadata store does to it.

 The key stands for the pair (block hash, namespace) of the table; `Identity.NamespaceInjective`
 shows that the two identify each other.
 */
module Rows {
  import opened Identity
  import opened Metadata

  /** Where bytes live. Names of segment files are kept apart as (kind, number). */
  datatype SegmentName = Plain(id: nat) | Compacted(compactionId: nat, id: nat)

  datatype Path =
    | BlockFile(parts: seq<string>)
    | TempFile(parts: seq<string>)
    | SegmentFile(dir: seq<string>, name: SegmentName)
    | Object(parts: seq<string>)

  datatype Uri =
    | FileUri(path: Path)
    | SegmentUri(path: Path, offset: nat, recordBytes: nat)
    | ObjectUri(path: Path)
    | MemoryUri(blockHash: string)
    | OtherUri(text: string)

  datatype Location = Location(uri: Uri, bytes: int, checksum: string, createdAt: Time, lastAccess: Time)

  datatype RowKey = RowKey(key: BlockKey, tier: Tier)

  datatype RowState = Active | Deleting

  datatype Row = Row(
    uri: Uri,
    bytes: int,
    checksum: string,
    meta: KVMetadata,
    createdAt: Time,
    lastAccess: Time,
    reuseCount: int,
    inFlight: nat,
    epoch: string,
    state: RowState)

  type Table = map<RowKey, Row>

  /** Readers of the current owner that hold the row; counts of dead owners mean nothing. */
  function Held(row: Row, epoch: string): nat {
    if row.epoch == epoch then row.inFlight else 0
  }

  predicate IsActive(rows: Table, rk: RowKey) {
    rk in rows && rows[rk].state == Active
  }

  predicate IsDeleting(rows: Table, rk: RowKey) {
    rk in rows && rows[rk].state == Deleting
  }

  predicate Evictable(rows: Table, rk: RowKey, epoch: string) {
    IsActive(rows, rk) && Held(rows[rk], epoch) == 0
  }

  function LocationOf(row: Row): Location {
    Location(row.uri, row.bytes, row.checksum, row.createdAt, row.lastAccess)
  }

  // ----- statements -----

  /** No row of the key, in any tier and in any state, has another payload descriptor. */
  predicate DescriptorAgrees(rows: Table, meta: KVMetadata) {
    forall tier: Tier :: RowKey(meta.key, tier) in rows ==>
      PayloadDescriptor(rows[RowKey(meta.key, tier)].meta) == PayloadDescriptor(meta)
  }

  predicate ValidUpsert(rk: RowKey, loc: Location, meta: KVMetadata) {
    && ValidMetadata(meta)
    && rk.key == meta.key
    && loc.uri != OtherUri("")
    && loc.bytes >= 0 && loc.bytes == meta.bytes
    && loc.checksum == meta.checksum
  }

  function Earlier(a: Time, b: Time): Time { if a <= b then a else b }
  function Later(a: Time, b: Time): Time { if a <= b then b else a }
  function MaxInt(a: int, b: int): int { if a <= b then b else a }

  function MergedRow(rows: Table, rk: RowKey, loc: Location, meta: KVMetadata, epoch: string): Row {
    if rk in rows then
      var was := rows[rk];
      Row(loc.uri, loc.bytes, loc.checksum, meta, Earlier(was.createdAt, loc.createdAt),
          Later(was.lastAccess, loc.lastAccess), MaxInt(was.reuseCount, meta.reuseCount),
          Held(was, epoch), epoch, Active)
    else
      Row(loc.uri, loc.bytes, loc.checksum, meta, loc.createdAt, loc.lastAccess, meta.reuseCount, 0, epoch, Active)
  }

  function Upserted(rows: Table, rk: RowKey, loc: Location, meta: KVMetadata, epoch: string): Result<Table> {
    if !ValidUpsert(rk, loc, meta) then Err(MetadataMismatch)
    else if !DescriptorAgrees(rows, meta) then Err(ImmutableBlockConflict)
    else if IsDeleting(rows, rk) then Err(TombstonePending)
    else Ok(rows[rk := MergedRow(rows, rk, loc, meta, epoch)])
  }

  function Acquired(rows: Table, rk: RowKey, epoch: string): Table {
    if IsActive(rows, rk) then rows[rk := rows[rk].(inFlight := Held(rows[rk], epoch) + 1, epoch := epoch)] else rows
  }

  function Released(rows: Table, rk: RowKey, epoch: string): Table {
    if rk in rows && rows[rk].epoch == epoch && rows[rk].inFlight > 0
    then rows[rk := rows[rk].(inFlight := rows[rk].inFlight - 1)]
    else rows
  }

  function Touched(rows: Table, rk: RowKey, now: Time): Table {
    if IsActive(rows, rk)
    then rows[rk := rows[rk].(lastAccess := now, reuseCount := rows[rk].reuseCount + 1)]
    else rows
  }

  function Deleted(rows: Table, rk: RowKey, epoch: string): Table {
    if Evictable(rows, rk, epoch) then rows - {rk} else rows
  }

  /** A row can be deleted if it is a tombstone already, or active and held by nobody. */
  predicate Deletable(rows: Table, rk: RowKey, epoch: string) {
    IsDeleting(rows, rk) || Evictable(rows, rk, epoch)
  }

  function Tombstoned(rows: Table, rk: RowKey, epoch: string): Table {
    if Evictable(rows, rk, epoch)
    then rows[rk := rows[rk].(state := Deleting, inFlight := 0, epoch := "")]
    else rows
  }

  function Finished(rows: Table, rk: RowKey): Table {
    if IsDeleting(rows, rk) then rows - {rk} else rows
  }

  /** A new owner starts with no reader anywhere; nothing else about the table changes. */
  function Reopened(rows: Table): Table {
    map rk | rk in rows :: rows[rk].(inFlight := 0, epoch := "")
  }

  // ----- what every statement keeps -----

  predicate RowConsistent(rk: RowKey, row: Row) {
    && ValidMetadata(row.meta)
    && row.meta.key == rk.key
    && row.bytes == row.meta.bytes
    && row.checksum == row.meta.checksum
  }

  ghost predicate OneDescriptor(rows: Table) {
    forall a, b :: a in rows && b in rows && a.key == b.key ==>
      PayloadDescriptor(rows[a].meta) == PayloadDescriptor(rows[b].meta)
  }

  /** Rows describe themselves, and all rows of a key agree on its payload. */
  ghost predicate Consistent(rows: Table) {
    && (forall rk :: rk in rows ==> RowConsistent(rk, rows[rk]))
    && OneDescriptor(rows)
  }

  lemma UpsertKeepsConsistent(rows: Table, rk: RowKey, loc: Location, meta: KVMetadata, epoch: string)
    requires Consistent(rows)
    requires Upserted(rows, rk, loc, meta, epoch).Ok?
    ensures Consistent(Upserted(rows, rk, loc, meta, epoch).value)
  {
    var after := Upserted(rows, rk, loc, meta, epoch).value;
    forall a, b | a in after && b in after && a.key == b.key
      ensures PayloadDescriptor(after[a].meta) == PayloadDescriptor(after[b].meta)
    {
      if a.key == rk.key {
        assert a == RowKey(meta.key, a.tier) && b == RowKey(meta.key, b.tier);
      }
    }
  }


  /** `after` differs from `rows` only in counters, times and states, and in missing rows. */
  ghost predicate OnlyBookkeeping(rows: Table, after: Table) {
    forall rk :: rk in after ==>
      rk in rows && after[rk].meta == rows[rk].meta && after[rk].bytes == rows[rk].bytes && after[rk].checksum == rows[rk].checksum
  }

  lemma BookkeepingKeepsConsistent(rows: Table, after: Table)
    requires Consistent(rows) && OnlyBookkeeping(rows, after)
    ensures Consistent(after)
  {}
}
