/** The single-owner table and the statements its methods run. */
module Store {
  import opened Metadata
  import opened Rows
  import opened Accounting

  function Least(a: nat, b: nat): nat { if a <= b then a else b }

  /**
   `out` is what `ORDER BY last_access LIMIT limit` may return for the evictable rows of a tier:
   as many as there are up to the limit, oldest first, and none that is left out is older.
   */
  ghost predicate IsLruPrefix(rows: Table, tier: Tier, epoch: string, limit: nat, out: seq<RowKey>) {
    && |out| == Least(limit, |EvictableKeys(rows, tier, epoch)|)
    && (forall i :: 0 <= i < |out| ==> out[i] in EvictableKeys(rows, tier, epoch))
    && (forall i, j :: 0 <= i < j < |out| ==> out[i] != out[j] && rows[out[i]].lastAccess <= rows[out[j]].lastAccess)
    && (forall i, rk :: 0 <= i < |out| && rk in EvictableKeys(rows, tier, epoch) && rk !in out ==>
          rows[out[i]].lastAccess <= rows[rk].lastAccess)
  }

  class MetadataStore {
    var rows: Table
    const epoch: string

    /** Opening takes over the persisted rows and forgets the readers of the previous owner. */
    constructor (persisted: Table, epoch: string)
      requires epoch != ""
      ensures this.epoch == epoch && rows == Reopened(persisted)
      ensures forall rk :: rk in rows ==> Held(rows[rk], epoch) == 0
    {
      this.epoch := epoch;
      this.rows := Reopened(persisted);
    }

    /** Compare the descriptor with every row of the key, one after the other. */
    method ValidatePayloadDescriptor(meta: KVMetadata) returns (r: Result<()>)
      ensures r.Ok? <==> ValidMetadata(meta) && DescriptorAgrees(rows, meta)
      ensures r.Err? ==> r.error == (if ValidMetadata(meta) then ImmutableBlockConflict else MetadataMismatch)
    {
      if !ValidMetadata(meta) {
        return Err(MetadataMismatch);
      }
      var tiers := [Memory, Nvme, S3];
      for i := 0 to |tiers|
        invariant forall j :: 0 <= j < i ==>
          RowKey(meta.key, tiers[j]) in rows ==>
            PayloadDescriptor(rows[RowKey(meta.key, tiers[j])].meta) == PayloadDescriptor(meta)
      {
        var rk := RowKey(meta.key, tiers[i]);
        if rk in rows && PayloadDescriptor(rows[rk].meta) != PayloadDescriptor(meta) {
          return Err(ImmutableBlockConflict);
        }
      }
      forall tier: Tier | RowKey(meta.key, tier) in rows
        ensures PayloadDescriptor(rows[RowKey(meta.key, tier)].meta) == PayloadDescriptor(meta)
      {
        assert tier == tiers[0] || tier == tiers[1] || tier == tiers[2];
      }
      r := Ok(());
    }

    method Upsert(rk: RowKey, loc: Location, meta: KVMetadata) returns (r: Result<()>)
      modifies this`rows
      ensures r.Ok? <==> Upserted(old(rows), rk, loc, meta, epoch).Ok?
      ensures r.Ok? ==> rows == Upserted(old(rows), rk, loc, meta, epoch).value
      ensures r.Err? ==> rows == old(rows) && r.error == Upserted(old(rows), rk, loc, meta, epoch).error
      ensures Consistent(old(rows)) ==> Consistent(rows)
    {
      if !ValidUpsert(rk, loc, meta) {
        return Err(MetadataMismatch);
      }
      r := ValidatePayloadDescriptor(meta);
      if r.Err? {
        return;
      }
      if IsDeleting(rows, rk) {
        return Err(TombstonePending);
      }
      rows := rows[rk := MergedRow(rows, rk, loc, meta, epoch)];
      if Consistent(old(rows)) {
        UpsertKeepsConsistent(old(rows), rk, loc, meta, epoch);
      }
    }

    method Lookup(rk: RowKey) returns (loc: Option<Location>)
      ensures loc == (if IsActive(rows, rk) then Some(LocationOf(rows[rk])) else None)
    {
      loc := if IsActive(rows, rk) then Some(LocationOf(rows[rk])) else None;
    }

    method LookupAndAcquire(rk: RowKey) returns (loc: Option<Location>)
      modifies this`rows
      ensures rows == Acquired(old(rows), rk, epoch)
      ensures loc == (if IsActive(old(rows), rk) then Some(LocationOf(old(rows[rk]))) else None)
      ensures loc.Some? ==> Held(rows[rk], epoch) == Held(old(rows[rk]), epoch) + 1
    {
      if !IsActive(rows, rk) {
        return None;
      }
      loc := Some(LocationOf(rows[rk]));
      rows := Acquired(rows, rk, epoch);
    }

    /** Give one hold back; the count of this owner goes down by one but not below zero, and that is all. */
    method Release(rk: RowKey)
      modifies this`rows
      ensures rows == Released(old(rows), rk, epoch)
      ensures rows.Keys == old(rows).Keys && forall k :: k in rows && k != rk ==> rows[k] == old(rows)[k]
      ensures rk in rows ==> Held(rows[rk], epoch) == (if Held(old(rows[rk]), epoch) > 0 then Held(old(rows[rk]), epoch) - 1 else 0)
      ensures rk in rows ==> rows[rk].state == old(rows[rk].state) && LocationOf(rows[rk]) == LocationOf(old(rows[rk])) && rows[rk].meta == old(rows[rk].meta)
    {
      rows := Released(rows, rk, epoch);
    }

    /** Record a use: of an active row the time and the count, of nothing else anything. */
    method Touch(rk: RowKey, now: Time)
      modifies this`rows
      ensures rows == Touched(old(rows), rk, now)
      ensures rows.Keys == old(rows).Keys && forall k :: k in rows && (k != rk || rows[k].state == Deleting) ==> rows[k] == old(rows)[k]
      ensures IsActive(old(rows), rk) ==>
                && IsActive(rows, rk) && rows[rk].lastAccess == now && rows[rk].reuseCount == old(rows[rk].reuseCount) + 1
                && rows[rk].uri == old(rows[rk].uri) && rows[rk].meta == old(rows[rk].meta) && Held(rows[rk], epoch) == Held(old(rows[rk]), epoch)
    {
      rows := Touched(rows, rk, now);
    }

    method Delete(rk: RowKey) returns (removed: bool)
      modifies this`rows
      ensures rows == Deleted(old(rows), rk, epoch)
      ensures removed <==> Evictable(old(rows), rk, epoch)
      ensures removed ==> rk !in rows
    {
      removed := Evictable(rows, rk, epoch);
      rows := Deleted(rows, rk, epoch);
    }

    /** Make the row invisible; a tombstone that is already there is returned again. */
    method BeginDelete(rk: RowKey) returns (loc: Option<Location>)
      modifies this`rows
      ensures loc.Some? <==> Deletable(old(rows), rk, epoch)
      ensures loc.Some? ==> loc.value == LocationOf(old(rows[rk])) && IsDeleting(rows, rk)
      ensures rows == Tombstoned(old(rows), rk, epoch)
    {
      if !Deletable(rows, rk, epoch) {
        return None;
      }
      loc := Some(LocationOf(rows[rk]));
      rows := Tombstoned(rows, rk, epoch);
    }

    /** Take a tombstone out of the table; a row that is active stays. */
    method FinishDelete(rk: RowKey) returns (removed: bool)
      modifies this`rows
      ensures removed <==> IsDeleting(old(rows), rk)
      ensures rows == Finished(old(rows), rk)
      ensures !IsDeleting(rows, rk) && (removed ==> rk !in rows) && (IsActive(old(rows), rk) ==> IsActive(rows, rk))
      ensures forall k :: k in old(rows) && (k != rk || !removed) ==> k in rows && rows[k] == old(rows)[k]
      ensures rows.Keys <= old(rows).Keys
    {
      removed := IsDeleting(rows, rk);
      rows := Finished(rows, rk);
    }

    method BytesInUse(tier: Tier) returns (total: int)
      ensures total == BytesUsed(rows, tier)
    {
      var todo := ActiveKeys(rows, tier);
      total := 0;
      while todo != {}
        invariant todo <= ActiveKeys(rows, tier)
        invariant total + Total(rows, todo) == BytesUsed(rows, tier)
        decreases |todo|
      {
        var rk :| rk in todo;
        TotalSplit(rows, todo, rk);
        total := total + rows[rk].bytes;
        todo := todo - {rk};
      }
    }

    /** A row of the set that was accessed no later than any other. */
    method Oldest(ks: set<RowKey>) returns (oldest: RowKey)
      requires ks != {} && ks <= rows.Keys
      ensures oldest in ks
      ensures forall rk :: rk in ks ==> rows[oldest].lastAccess <= rows[rk].lastAccess
    {
      oldest :| oldest in ks;
      var todo := ks;
      while todo != {}
        invariant oldest in ks && todo <= ks
        invariant forall rk :: rk in ks - todo ==> rows[oldest].lastAccess <= rows[rk].lastAccess
        decreases |todo|
      {
        var rk :| rk in todo;
        if rows[rk].lastAccess < rows[oldest].lastAccess {
          oldest := rk;
        }
        todo := todo - {rk};
      }
    }

    method LruCandidates(tier: Tier, limit: nat) returns (out: seq<RowKey>)
      ensures IsLruPrefix(rows, tier, epoch, limit, out)
    {
      var all := EvictableKeys(rows, tier, epoch);
      var todo := all;
      out := [];
      while |out| < limit && todo != {}
        invariant todo <= all && |out| + |todo| == |all| && |out| <= limit
        invariant forall i :: 0 <= i < |out| ==> out[i] in all && out[i] !in todo
        invariant forall rk :: rk in all && rk !in out ==> rk in todo
        invariant forall i, j :: 0 <= i < j < |out| ==> out[i] != out[j] && rows[out[i]].lastAccess <= rows[out[j]].lastAccess
        invariant forall i, rk :: 0 <= i < |out| && rk in todo ==> rows[out[i]].lastAccess <= rows[rk].lastAccess
        decreases |todo|
      {
        var rk := Oldest(todo);
        out := out + [rk];
        todo := todo - {rk};
      }
    }
  }
}
