/** The object tier: its methods over a bucket that may fail, proved against the protocol. */
module ObjectTier {
  import opened Identity
  import opened Metadata
  import opened Record
  import opened ObjectBody
  import opened Rows
  import opened Tiers
  import opened Accounting
  import opened Store
  import opened KvProtocol
  import opened KvInvariant
  import opened KvRuns
  import opened Loading

  function Sk(key: BlockKey): RowKey { RowKey(key, S3) }

  /** An upload works, or raises an error with or without having stored the object. */
  datatype Put = Stored | Lost | Unsure

  /** A request for an object fails, or is answered by a body that delivers as it pleases. */
  datatype Response = Unreachable | Reply(plan: seq<Behaviour>, closeFails: bool)

  /** An answer that delivers the object, in chunks of any size. */
  predicate Friendly(response: Response) {
    response.Reply? && Honest(response.plan) && !response.closeFails
  }

  /** In a sound state whatever passes as the object's record has the payload of the row. */
  lemma RecordIsPayload(cfg: Config, s: Sys, key: BlockKey, p: Parsed)
    requires Inv(cfg, s) && IsActive(s.rows, Sk(key)) && ObjectPath(key) in s.disk
    requires ReadRecord(DecoderFor(cfg, S3), s.disk[ObjectPath(key)]) == Ok(p)
    ensures Payload(cfg, s, Sk(key)) == Some(p.payload)
  {
    hide Counted, Pinned, MemoryBacked, MutatorOk, Consistent, Clocked;
    assert RowSound(cfg, s.disk, Sk(key), s.rows[Sk(key)]);
    var b := s.disk[ObjectPath(key)];
    var q := ParseExtent(cfg, S3, b).value;
    ObjectsAndFilesAcceptAlike(DecoderFor(cfg, S3), b, q);
  }

  /** In a sound state an active row's object is in the bucket, under its canonical name. */
  lemma SoundObject(cfg: Config, s: Sys, key: BlockKey)
    requires Inv(cfg, s)
    ensures IsActive(s.rows, Sk(key)) ==>
              ObjectPath(key) in s.disk && Canonical(cfg, Sk(key), s.rows[Sk(key)].uri) && KvProtocol.Bytes(s, Sk(key)).Some?
  {
    hide Inv;
    SoundLookups(cfg, s, Sk(key));
  }

  lemma FoundObject(cfg: Config, s: Sys, key: BlockKey)
    requires IsActive(s.rows, Sk(key)) && Canonical(cfg, Sk(key), s.rows[Sk(key)].uri) && ObjectPath(key) in s.disk
    ensures KvProtocol.Bytes(s, Sk(key)).Some?
  {}

  lemma ObjectIsCanonical(cfg: Config, key: BlockKey, uri: Uri)
    requires uri == ObjectUri(ObjectPath(key))
    ensures Canonical(cfg, Sk(key), uri)
  {}

  /** What was handed out is the payload of the object's record, and that record is the row's. */
  ghost predicate Handed(cfg: Config, disk: Disk, key: BlockKey, row: Row, loaded: Loaded) {
    && |loaded.data| == row.bytes && cfg.codec.sha256(loaded.data) == row.checksum
    && PayloadDescriptor(loaded.meta) == PayloadDescriptor(row.meta) && loaded.meta.key == key
    && exists p :: ObjectPath(key) in disk && ReadRecord(DecoderFor(cfg, S3), disk[ObjectPath(key)]) == Ok(p) && loaded.data == p.payload
  }

  // ----- runs -----

  function UploadedRows(s: Sys, key: BlockKey, m: KVMetadata): Result<Table> {
    Upserted(s.rows, Sk(key), PublishedLocation(ObjectUri(ObjectPath(key)), m), m, s.epoch)
  }

  /** Begin, upload, commit. */
  lemma UploadRun(cfg: Config, s: Sys, key: BlockKey, meta: KVMetadata, data: seq<Byte>, now: Time) returns (run: seq<Sys>, acts: seq<Action>)
    requires s.mutator.Idle? && CanBeginStore(cfg, s, Sk(key), meta, data, now)
    ensures var m := Sealed(cfg, meta, data, now);
            && UploadedRows(s, key, m).Ok?
            && Leads(cfg, s, run, acts, s.(rows := UploadedRows(s, key, m).value,
                                           disk := s.disk[ObjectPath(key) := NewRecord(cfg, S3, m, data).value]))
  {
    hide Leads, NewRecord, ValidMetadata, DescriptorAgrees, MergedRow;
    hide CanAcquire, CanReplay, CanBeginEvict, CanMemoryStore, CanSweep, CanEndSweep, CanMove;
    var s1 := DoBeginStore(cfg, s, Sk(key), meta, data, now);
    var s2 := DoPublish(cfg, s1);
    var s3 := DoCommit(s2);
    Standing(cfg, s);
    OneMore(cfg, s, [s], [], s, BeginStore(Sk(key), meta, data, now));
    OneMore(cfg, s, [s] + [s1], [] + [BeginStore(Sk(key), meta, data, now)], s1, Publish);
    OneMore(cfg, s, [s] + [s1] + [s2], [] + [BeginStore(Sk(key), meta, data, now)] + [Publish], s2, Commit);
    run, acts := [s] + [s1] + [s2] + [s3], [] + [BeginStore(Sk(key), meta, data, now)] + [Publish] + [Commit];
  }

  /** An upload that reports an error: nothing is published, but the object may be there. */
  lemma FailedUploadRun(cfg: Config, s: Sys, key: BlockKey, meta: KVMetadata, data: seq<Byte>, now: Time, written: bool)
    returns (run: seq<Sys>, acts: seq<Action>)
    requires s.mutator.Idle? && CanBeginStore(cfg, s, Sk(key), meta, data, now) && Compactor !in s.holders
    ensures var disk := if written then s.disk[ObjectPath(key) := NewRecord(cfg, S3, Sealed(cfg, meta, data, now), data).value] else s.disk;
            Leads(cfg, s, run, acts, s.(disk := disk))
  {
    hide Leads, NewRecord, ValidMetadata, DescriptorAgrees;
    hide CanAcquire, CanReplay, CanBeginEvict, CanMemoryStore, CanSweep, CanEndSweep, CanMove;
    var s1 := DoBeginStore(cfg, s, Sk(key), meta, data, now);
    Standing(cfg, s);
    OneMore(cfg, s, [s], [], s, BeginStore(Sk(key), meta, data, now));
    run, acts := [s] + [s1], [] + [BeginStore(Sk(key), meta, data, now)];
    var last := s1;
    if written {
      last := DoPublish(cfg, s1);
      OneMore(cfg, s, run, acts, s1, Publish);
      run, acts := run + [last], acts + [Publish];
    }
    OneMore(cfg, s, run, acts, last, Abort);
    run, acts := run + [DoAbort(cfg, last)], acts + [Abort];
  }

  /** A deletion that reports an error although the object is gone leaves the tombstone. */
  lemma UnsureEvictionRun(cfg: Config, s: Sys, rk: RowKey) returns (run: seq<Sys>, acts: seq<Action>)
    requires s.mutator.Idle? && CanBeginEvict(s, rk) && Compactor !in s.holders
    ensures Leads(cfg, s, run, acts, s.(rows := Tombstoned(s.rows, rk, s.epoch), disk := DiskWithout(cfg, s.disk, rk)))
  {
    hide Leads;
    hide CanBeginStore, CanReplay, CanMemoryStore, CanSweep, CanEndSweep, CanMove, CanAcquire, CanStartWrite, CanWrite;
    var s1 := DoBeginEvict(s, rk);
    var s2 := DoUnlink(cfg, s1);
    Standing(cfg, s);
    OneMore(cfg, s, [s], [], s, BeginEvict(rk));
    OneMore(cfg, s, [s] + [s1], [] + [BeginEvict(rk)], s1, Unlink);
    OneMore(cfg, s, [s] + [s1] + [s2], [] + [BeginEvict(rk)] + [Unlink], s2, Abort);
    run, acts := [s] + [s1] + [s2] + [DoAbort(cfg, s2)], [] + [BeginEvict(rk)] + [Unlink] + [Abort];
  }

  /** The checks that turn a store away before it looks at what is published. */
  ghost predicate Refused(rows: Table, cfg: Config, key: BlockKey, data: seq<Byte>, meta: KVMetadata, now: Time) {
    var m := Sealed(cfg, meta, data, now);
    meta.key != key || |data| > cfg.maxObjectBytes || IsDeleting(rows, Sk(key)) || !ValidMetadata(m) || !DescriptorAgrees(rows, m)
  }

  class S3Tier {
    const cfg: Config
    const db: MetadataStore
    /** The bucket, beside the files of the other tier. */
    var disk: Disk
    ghost var mem: map<BlockKey, seq<Byte>>
    ghost var holders: map<Holder, Hold>

    constructor (cfg: Config, db: MetadataStore, disk: Disk)
      requires cfg.maxObjectBytes > 0
      ensures this.cfg == cfg && this.db == db && this.disk == disk && mem == map[] && holders == map[]
    {
      this.cfg, this.db, this.disk := cfg, db, disk;
      mem, holders := map[], map[];
    }

    ghost function View(): Sys
      reads this, db
    {
      Sys(db.rows, disk, mem, holders, Idle, db.epoch)
    }

    /** Find the published location. A row is stale only if the bucket says that the object is not there. */
    method Lookup(key: BlockKey, headFails: bool) returns (r: Result<Option<Location>>, ghost run: seq<Sys>, ghost acts: seq<Action>)
      modifies db`rows
      ensures Leads(cfg, old(View()), run, acts, View())
      ensures r.Err? <==> IsActive(old(db.rows), Sk(key)) && (headFails || !Canonical(cfg, Sk(key), old(db.rows[Sk(key)].uri)))
      ensures r.Err? ==> db.rows == old(db.rows)
      ensures r.Err? ==> r.error == if Canonical(cfg, Sk(key), db.rows[Sk(key)].uri) then TierUnavailable else MetadataMismatch
      ensures r.Ok? && r.value.Some? ==>
                && db.rows == old(db.rows) && IsActive(db.rows, Sk(key))
                && r.value.value == LocationOf(db.rows[Sk(key)]) && ObjectPath(key) in disk && db.rows[Sk(key)].uri == ObjectUri(ObjectPath(key))
      ensures r.Ok? && r.value.None? ==>
                && db.rows == (if IsActive(old(db.rows), Sk(key)) then Deleted(old(db.rows), Sk(key), db.epoch) else old(db.rows))
                && (IsActive(old(db.rows), Sk(key)) ==> ObjectPath(key) !in disk)
    {
      hide Leads;
      ghost var s := View();
      Standing(cfg, s);
      run, acts := [s], [];
      var found := db.Lookup(Sk(key));
      if found.None? {
        return Ok(None), run, acts;
      }
      if !Canonical(cfg, Sk(key), found.value.uri) {
        return Err(MetadataMismatch), run, acts;
      }
      if headFails {
        return Err(TierUnavailable), run, acts;
      }
      if ObjectPath(key) in disk {
        return Ok(found), run, acts;
      }
      var removed := db.Delete(Sk(key));
      run, acts := LookupRun(cfg, s, View(), Sk(key));
      r := Ok(None);
    }

    /**
     Tombstone, delete the object, make sure that it is gone, finish. If the bucket reports an error
     or still shows the object, the tombstone stays, whatever has become of the object.
     */
    method Evict(key: BlockKey, reported: bool, deleted: bool) returns (r: Result<bool>, ghost run: seq<Sys>, ghost acts: seq<Action>)
      requires Compactor !in holders
      modifies this`disk, db`rows
      ensures r == Ok(false) <==> !Deletable(old(db.rows), Sk(key), db.epoch)
      ensures r == Ok(false) ==> db.rows == old(db.rows) && disk == old(disk)
      ensures r == Ok(true) ==> db.rows == old(db.rows) - {Sk(key)} && disk == old(disk) - {ObjectPath(key)}
      ensures r.Err? ==> db.rows == Tombstoned(old(db.rows), Sk(key), db.epoch) && IsDeleting(db.rows, Sk(key))
      ensures r.Err? ==> disk == old(disk) || disk == old(disk) - {ObjectPath(key)}
      ensures r.Err? ==> !Canonical(cfg, Sk(key), old(db.rows[Sk(key)].uri)) || !reported || !deleted
      ensures NotMore(old(db.rows), db.rows) && Leads(cfg, old(View()), run, acts, View())
    {
      hide Leads, Canonical;
      ghost var s := View();
      var loc := db.BeginDelete(Sk(key));
      if loc.None? {
        Standing(cfg, s);
        return Ok(false), [s], [];
      }
      if !Canonical(cfg, Sk(key), loc.value.uri) {
        run, acts := FailedEvictionRun(cfg, s, Sk(key));
        return Err(MetadataMismatch), run, acts;
      }
      if deleted {
        disk := disk - {ObjectPath(key)};
      }
      if !reported || ObjectPath(key) in disk {
        if deleted {
          run, acts := UnsureEvictionRun(cfg, s, Sk(key));
        } else {
          run, acts := FailedEvictionRun(cfg, s, Sk(key));
        }
        return Err(TierUnavailable), run, acts;
      }
      assert disk == old(disk) - {ObjectPath(key)};
      var done := db.FinishDelete(Sk(key));
      run, acts := EvictionRun(cfg, s, Sk(key));
      assert db.rows == old(db.rows) - {Sk(key)};
      r := Ok(true);
    }

    /** What a failed load of a corrupt object does once the hold is released: it evicts the row. */
    method Invalidate(key: BlockKey, corruption: Error, reported: bool, deleted: bool)
      returns (error: Error, ghost run: seq<Sys>, ghost acts: seq<Action>)
      requires Compactor !in holders && IsActive(db.rows, Sk(key))
      modifies this`disk, db`rows
      ensures IsActive(db.rows, Sk(key)) ==> error.CorruptionCleanupFailed?
      ensures error == corruption || error.CorruptionCleanupFailed?
      ensures HoldGivenBack(old(db.rows), db.rows, Sk(key), db.epoch, false)
      ensures disk == old(disk) || disk == old(disk) - {ObjectPath(key)}
      ensures NotMore(old(db.rows), db.rows) && Leads(cfg, old(View()), run, acts, View())
    {
      hide Leads, Canonical;
      var removed;
      removed, run, acts := Evict(key, reported, deleted);
      if removed.Err? {
        return CorruptionCleanupFailed("evict", corruption), run, acts;
      }
      if !removed.value {
        var remains := db.Lookup(Sk(key));
        if remains.Some? {
          return CorruptionCleanupFailed("evict", corruption), run, acts;
        }
      }
      error := corruption;
    }

    /** Request the object and read the body of the answer. */
    method Fetch(key: BlockKey, uri: Uri, response: Response) returns (r: Result<Parsed>)
      ensures !Canonical(cfg, Sk(key), uri) ==> r == Err(MetadataMismatch)
      ensures Canonical(cfg, Sk(key), uri) && response.Unreachable? ==> r == Err(TierUnavailable)
      ensures Canonical(cfg, Sk(key), uri) && Friendly(response) ==> r == ReadLocation(cfg, S3, disk, uri)
      ensures r.Ok? ==> ObjectPath(key) in disk && ReadRecord(DecoderFor(cfg, S3), disk[ObjectPath(key)]) == r
    {
      hide DecoderFor, ReadObject, ReadFile, ReadRecord, Announced;
      if !Canonical(cfg, Sk(key), uri) {
        return Err(MetadataMismatch);
      }
      if response.Unreachable? {
        return Err(TierUnavailable);
      }
      if ObjectPath(key) !in disk {
        return Err(BlockNotFound);
      }
      var body := new Body(disk[ObjectPath(key)], response.plan, response.closeFails);
      r := ReadBody(DecoderFor(cfg, S3), body);
    }

    /** Acquire the row, fetch and inspect its object, release the row again if that works. */
    method FetchHeld(key: BlockKey, now: Time, response: Response, releaseFails: bool) returns (r: Result<Loaded>, ghost used: bool)
      requires IsActive(db.rows, Sk(key))
      modifies db`rows
      ensures IsActive(db.rows, Sk(key)) && OnlyUsed(old(db.rows), db.rows, Sk(key)) && (r.Ok? ==> used)
      ensures db.rows == VisitedRows(old(db.rows), Sk(key), now, db.epoch, used, !releaseFails)
      ensures used && !releaseFails ==> db.rows == UsedRows(old(db.rows), Sk(key), now, db.epoch)
      ensures HoldGivenBack(old(db.rows), db.rows, Sk(key), db.epoch, releaseFails) && NotMore(old(db.rows), db.rows)
      ensures r.Ok? ==> exists p ::
                && ObjectPath(key) in disk && ReadRecord(DecoderFor(cfg, S3), disk[ObjectPath(key)]) == Ok(p) && r.value.data == p.payload
                && Genuine(cfg, Sk(key), old(db.rows[Sk(key)].bytes), old(db.rows[Sk(key)].checksum), old(db.rows[Sk(key)].meta), p)
      ensures r.Ok? ==> PayloadDescriptor(r.value.meta) == PayloadDescriptor(old(db.rows[Sk(key)].meta)) && r.value.meta.key == key
      ensures response.Unreachable? && Canonical(cfg, Sk(key), old(db.rows[Sk(key)].uri)) ==> r == Err(TierUnavailable)
      ensures Friendly(response) ==> forall p :: FindsRecord(cfg, disk, Sk(key), old(db.rows[Sk(key)]), p) ==>
                ValidMetadata(MovedMeta(Touched(old(db.rows), Sk(key), now)[Sk(key)])) ==> r.Ok? && r.value.data == p.payload
    {
      hide ReadLocation, ValidMetadata, PayloadDescriptor, Canonical, Genuine, ReadRecord, DecoderFor, Friendly;
      hide OnlyUsed, HoldGivenBack, NotMore, UsedRows;
      var loc := db.LookupAndAcquire(Sk(key));
      ghost var held := db.rows;
      assert MovedMeta(Touched(old(db.rows), Sk(key), now)[Sk(key)]) == MovedMeta(Touched(held, Sk(key), now)[Sk(key)]);
      var read := Fetch(key, loc.value.uri, response);
      r, used := Inspect(cfg, db, Sk(key), loc.value, now, read);
      if !releaseFails {
        db.Release(Sk(key));
      }
      VisitGivesBack(old(db.rows), Sk(key), now, db.epoch, used, !releaseFails);
    }

    /** The rest of a load, once the row was found. */
    method LoadFound(key: BlockKey, now: Time, response: Response, releaseFails: bool, reported: bool, deleted: bool)
      returns (r: Result<Loaded>, ghost run: seq<Sys>, ghost acts: seq<Action>)
      requires Compactor !in holders && IsActive(db.rows, Sk(key)) && Canonical(cfg, Sk(key), db.rows[Sk(key)].uri) && ObjectPath(key) in disk
      modifies this`disk, this`holders, db`rows
      ensures r.Ok? ==> Handed(cfg, old(disk), key, old(db.rows[Sk(key)]), r.value)
      ensures response.Unreachable? ==> r.Err? && disk == old(disk) && IsActive(db.rows, Sk(key))
      ensures r.Err? && IsCorruption(r.error) ==> r.error.CorruptionCleanupFailed? || !IsActive(db.rows, Sk(key))
      ensures HoldGivenBack(old(db.rows), db.rows, Sk(key), db.epoch, releaseFails)
      ensures disk == old(disk) || disk == old(disk) - {ObjectPath(key)}
      ensures r.Ok? ==> disk == old(disk) && !releaseFails && db.rows == UsedRows(old(db.rows), Sk(key), now, db.epoch)
      ensures Friendly(response) && !releaseFails ==> forall p :: FindsRecord(cfg, old(disk), Sk(key), old(db.rows[Sk(key)]), p) ==>
                ValidMetadata(MovedMeta(Touched(old(db.rows), Sk(key), now)[Sk(key)])) ==> r.Ok? && r.value.data == p.payload
      ensures NotMore(old(db.rows), db.rows) && Compactor !in holders && (!releaseFails ==> holders == old(holders))
      ensures now >= 0 ==> Leads(cfg, old(View()), run, acts, View())
    {
      hide ReadLocation, ValidMetadata, PayloadDescriptor, Canonical, Leads, ReadRecord, DecoderFor, Friendly, FindsRecord, UsedRows;
      hide OnlyUsed, HoldGivenBack, NotMore, VisitedRows;
      ghost var s := View();
      run, acts := [s], [];
      var outcome, used := FetchHeld(key, now, response, releaseFails);
      if now >= 0 {
        FoundObject(cfg, s, key);
        ghost var reader;
        reader, run, acts := VisitRun(cfg, s, Sk(key), now, used, !releaseFails);
        holders := VisitedHolders(s, Sk(key), reader, !releaseFails);
      }
      if releaseFails {
        return Err(if outcome.Err? && IsCorruption(outcome.error) then CorruptionCleanupFailed("release", outcome.error) else IoError), run, acts;
      }
      ghost var mid := View();
      if outcome.Err? && IsCorruption(outcome.error) {
        var error, run', acts' := Invalidate(key, outcome.error, reported, deleted);
        GivenBackThen(s.rows, mid.rows, db.rows, Sk(key), db.epoch);
        if now >= 0 {
          RunsJoin(cfg, s, run, acts, mid, run', acts', View());
          run, acts := run + run'[1..], acts + acts';
        }
        return Err(error), run, acts;
      }
      r := outcome;
    }

    /**
     Load a block from whatever the bucket holds, through an answer that may end early, overrun, raise
     or not be closed. Success hands out bytes whose length, digest, key and descriptor are the row's.
     A bucket that cannot be reached is not corruption and leaves the row; corruption found after the
     row was acquired leaves no active row, or says that the cleanup failed. A hold that could not be
     given back stays. Every outcome is a run of the protocol.
     */
    method Load(key: BlockKey, now: Time, headFails: bool, response: Response, releaseFails: bool, reported: bool, deleted: bool)
      returns (r: Result<Loaded>, ghost run: seq<Sys>, ghost acts: seq<Action>)
      requires Compactor !in holders
      modifies this`disk, this`holders, db`rows
      ensures r.Ok? ==> IsActive(old(db.rows), Sk(key)) && Handed(cfg, old(disk), key, old(db.rows[Sk(key)]), r.value)
      ensures IsActive(old(db.rows), Sk(key)) && (headFails || response.Unreachable?) && ObjectPath(key) in old(disk) ==>
                r.Err? && disk == old(disk) && IsActive(db.rows, Sk(key))
      ensures r.Err? && IsCorruption(r.error) && IsActive(old(db.rows), Sk(key)) && Canonical(cfg, Sk(key), old(db.rows[Sk(key)].uri)) ==>
                r.error.CorruptionCleanupFailed? || !IsActive(db.rows, Sk(key))
      ensures HoldGivenBack(old(db.rows), db.rows, Sk(key), db.epoch, releaseFails)
      ensures disk == old(disk) || disk == old(disk) - {ObjectPath(key)}
      ensures r.Ok? ==> disk == old(disk) && !releaseFails && db.rows == UsedRows(old(db.rows), Sk(key), now, db.epoch)
      ensures IsActive(old(db.rows), Sk(key)) && !headFails && Friendly(response) && !releaseFails ==>
                forall p :: FindsRecord(cfg, old(disk), Sk(key), old(db.rows[Sk(key)]), p) && ObjectPath(key) in old(disk) ==>
                  ValidMetadata(MovedMeta(Touched(old(db.rows), Sk(key), now)[Sk(key)])) ==> r.Ok? && r.value.data == p.payload
      ensures NotMore(old(db.rows), db.rows) && Compactor !in holders && (!releaseFails ==> holders == old(holders))
      ensures now >= 0 ==> Leads(cfg, old(View()), run, acts, View())
    {
      hide ReadLocation, ValidMetadata, Extent, Canonical, Leads, Friendly, Handed, UsedRows, Genuine;
      var found;
      found, run, acts := Lookup(key, headFails);
      if found.Err? {
        return Err(found.error), run, acts;
      }
      if found.value.None? {
        return Err(BlockNotFound), run, acts;
      }
      ObjectIsCanonical(cfg, key, db.rows[Sk(key)].uri);
      r, run, acts := LoadFound(key, now, response, releaseFails, reported, deleted);
    }

    /** Store a key that is published: the same payload again is a use, another one a conflict. */
    method Restore(key: BlockKey, data: seq<Byte>, meta: KVMetadata, now: Time, response: Response,
                   releaseFails: bool, commitFails: bool, reported: bool, deleted: bool)
      returns (r: Result<()>, ghost run: seq<Sys>, ghost acts: seq<Action>)
      requires Inv(cfg, View()) && now >= 0
      requires meta.key == key && IsActive(db.rows, Sk(key))
      requires ValidMetadata(Sealed(cfg, meta, data, now)) && DescriptorAgrees(db.rows, Sealed(cfg, meta, data, now))
      modifies this`disk, this`holders, db`rows
      ensures Leads(cfg, old(View()), run, acts, View())
      ensures r.Ok? ==> Payload(cfg, old(View()), Sk(key)) == Some(data) && !releaseFails && !commitFails
      ensures Friendly(response) && !releaseFails && !commitFails ==>
                (r.Ok? <==> Payload(cfg, old(View()), Sk(key)) == Some(data)) && (r.Err? ==> r.error == ImmutableBlockConflict)
      ensures r.Ok? ==> IsActive(db.rows, Sk(key)) && db.rows[Sk(key)].meta == Sealed(cfg, meta, data, now)
      ensures r.Ok? ==> Payload(cfg, View(), Sk(key)) == Some(data)
      ensures disk == old(disk) || disk == old(disk) - {ObjectPath(key)}
    {
      hide Leads, Inv, ValidMetadata, DescriptorAgrees, Payload, UsedRows, Upserted, Extent, Canonical, ReadRecord, DecoderFor, FindsRecord, Honest, PayloadDescriptor;
      ghost var s := View();
      var m := Sealed(cfg, meta, data, now);
      var row := db.rows[Sk(key)];
      IdleHasNoCompactor(cfg, s);
      SoundObject(cfg, s, key);
      ghost var p := HealthyRecord(cfg, s, Sk(key), now);
      var loaded;
      loaded, run, acts := Load(key, now, false, response, releaseFails, reported, deleted);
      if loaded.Err? {
        return Err(loaded.error), run, acts;
      }
      ghost var q :| ObjectPath(key) in s.disk && ReadRecord(DecoderFor(cfg, S3), s.disk[ObjectPath(key)]) == Ok(q) && loaded.value.data == q.payload;
      RecordIsPayload(cfg, s, key, q);
      if loaded.value.data != data {
        return Err(ImmutableBlockConflict), run, acts;
      }
      if commitFails {
        return Err(IoError), run, acts;
      }
      run, acts := RestoreRun(cfg, s, Sk(key), meta, data, now);
      var again := db.Upsert(Sk(key), Location(row.uri, |data|, m.checksum, row.createdAt, m.lastAccess), m);
      r := Ok(());
    }

    /** Store a key that has no row in this tier: upload the object, publish the row. */
    method StoreNew(key: BlockKey, data: seq<Byte>, meta: KVMetadata, now: Time, put: Put, commitFails: bool)
      returns (r: Result<()>, ghost run: seq<Sys>, ghost acts: seq<Action>)
      requires FaithfulCodec(cfg.codec) && Inv(cfg, View()) && meta.key == key && Sk(key) !in db.rows && |data| <= cfg.maxObjectBytes
      requires ValidMetadata(Sealed(cfg, meta, data, now)) && DescriptorAgrees(db.rows, Sealed(cfg, meta, data, now))
      modifies this`disk, db`rows
      ensures Leads(cfg, old(View()), run, acts, View())
      ensures r.Ok? <==> put.Stored? && !commitFails && NewRecord(cfg, S3, Sealed(cfg, meta, data, now), data).Ok?
      ensures r.Ok? ==> IsActive(db.rows, Sk(key)) && db.rows[Sk(key)].meta == Sealed(cfg, meta, data, now)
      ensures r.Ok? ==> Extent(disk, db.rows[Sk(key)].uri) == Some(NewRecord(cfg, S3, Sealed(cfg, meta, data, now), data).value)
      ensures r.Ok? ==> Payload(cfg, View(), Sk(key)) == Some(data)
      ensures r.Err? ==> db.rows == old(db.rows) && (r.error == TierUnavailable || r.error == InvalidArgument || (r.error == IoError && commitFails))
      ensures disk - {ObjectPath(key)} == old(disk) - {ObjectPath(key)}
    {
      hide Leads, Inv, NewRecord, ValidMetadata, DescriptorAgrees, Payload, FaithfulCodec;
      ghost var s := View();
      var m := Sealed(cfg, meta, data, now);
      IdleHasNoCompactor(cfg, s);
      var record := NewRecord(cfg, S3, m, data);
      if record.Err? {
        Standing(cfg, s);
        return Err(InvalidArgument), [s], [];
      }
      if put != Stored {
        run, acts := FailedUploadRun(cfg, s, key, meta, data, now, put.Unsure?);
        if put.Unsure? {
          disk := disk[ObjectPath(key) := record.value];
        }
        return Err(TierUnavailable), run, acts;
      }
      if commitFails {
        run, acts := FailedUploadRun(cfg, s, key, meta, data, now, true);
        disk := disk[ObjectPath(key) := record.value];
        return Err(IoError), run, acts;
      }
      run, acts := UploadRun(cfg, s, key, meta, data, now);
      disk := disk[ObjectPath(key) := record.value];
      var published := db.Upsert(Sk(key), PublishedLocation(ObjectUri(ObjectPath(key)), m), m);
      StoredPayload(cfg, View(), Sk(key), m, data);
      r := Ok(());
    }

    /** A store that no check turned away: write the row again if it is there, the object if it is not. */
    method StoreAccepted(key: BlockKey, data: seq<Byte>, meta: KVMetadata, now: Time, headFails: bool, response: Response, put: Put,
                         releaseFails: bool, commitFails: bool, reported: bool, deleted: bool)
      returns (r: Result<()>, ghost run: seq<Sys>, ghost acts: seq<Action>)
      requires FaithfulCodec(cfg.codec) && Inv(cfg, View()) && now >= 0 && !Refused(db.rows, cfg, key, data, meta, now)
      modifies this`disk, this`holders, db`rows
      ensures Inv(cfg, View()) && Leads(cfg, old(View()), run, acts, View())
      ensures r.Ok? ==> IsActive(db.rows, Sk(key)) && Payload(cfg, View(), Sk(key)) == Some(data)
      ensures r.Ok? ==> db.rows[Sk(key)].meta == Sealed(cfg, meta, data, now)
      ensures IsActive(old(db.rows), Sk(key)) && !headFails && Friendly(response) && !releaseFails && !commitFails ==>
                (r.Ok? <==> Payload(cfg, old(View()), Sk(key)) == Some(data)) && (r.Err? ==> r.error == ImmutableBlockConflict)
      ensures !IsActive(old(db.rows), Sk(key)) ==>
                && (r.Ok? <==> put.Stored? && !commitFails && NewRecord(cfg, S3, Sealed(cfg, meta, data, now), data).Ok?)
                && (r.Err? ==> db.rows == old(db.rows))
      ensures disk - {ObjectPath(key)} == old(disk) - {ObjectPath(key)}
    {
      hide Leads, Inv, ValidMetadata, DescriptorAgrees, NewRecord, Payload, Deleted, FaithfulCodec, Friendly, PayloadDescriptor;
      ghost var s := View();
      SoundObject(cfg, s, key);
      var existing;
      existing, run, acts := Lookup(key, headFails);
      assert db.rows == s.rows;
      if existing.Err? {
        return Err(existing.error), run, acts;
      }
      if existing.value.Some? {
        r, run, acts := Restore(key, data, meta, now, response, releaseFails, commitFails, reported, deleted);
      } else {
        r, run, acts := StoreNew(key, data, meta, now, put, commitFails);
      }
      LeadsKeepsInv(cfg, s, run, acts, View());
    }

    /**
     Store a block. Every outcome is a run of the protocol. A block that is reported as stored is
     active with exactly these bytes. An upload that fails publishes nothing, also when the object did
     reach the bucket: such an object is an orphan that no lookup finds.
     */
    method Store(key: BlockKey, data: seq<Byte>, meta: KVMetadata, now: Time, headFails: bool, response: Response, put: Put,
                 releaseFails: bool, commitFails: bool, reported: bool, deleted: bool)
      returns (r: Result<()>, ghost run: seq<Sys>, ghost acts: seq<Action>)
      requires FaithfulCodec(cfg.codec) && Inv(cfg, View()) && now >= 0
      modifies this`disk, this`holders, db`rows
      ensures Inv(cfg, View()) && Leads(cfg, old(View()), run, acts, View())
      ensures r.Ok? ==> IsActive(db.rows, Sk(key)) && Payload(cfg, View(), Sk(key)) == Some(data)
      ensures r.Ok? ==> db.rows[Sk(key)].meta == Sealed(cfg, meta, data, now)
      ensures Refused(old(db.rows), cfg, key, data, meta, now) ==> r.Err? && db.rows == old(db.rows) && disk == old(disk)
      ensures !Refused(old(db.rows), cfg, key, data, meta, now) && IsActive(old(db.rows), Sk(key))
              && !headFails && Friendly(response) && !releaseFails && !commitFails ==>
                (r.Ok? <==> Payload(cfg, old(View()), Sk(key)) == Some(data)) && (r.Err? ==> r.error == ImmutableBlockConflict)
      ensures !Refused(old(db.rows), cfg, key, data, meta, now) && !IsActive(old(db.rows), Sk(key)) ==>
                && (r.Ok? <==> put.Stored? && !commitFails && NewRecord(cfg, S3, Sealed(cfg, meta, data, now), data).Ok?)
                && (r.Err? ==> db.rows == old(db.rows))
      ensures disk - {ObjectPath(key)} == old(disk) - {ObjectPath(key)}
    {
      hide Leads, Inv, ValidMetadata, DescriptorAgrees, NewRecord, Payload, Deleted, FaithfulCodec, Friendly;
      ghost var s := View();
      Standing(cfg, s);
      run, acts := [s], [];
      if meta.key != key {
        return Err(MetadataMismatch), run, acts;
      }
      if |data| > cfg.maxObjectBytes {
        return Err(StoreFull), run, acts;
      }
      if IsDeleting(db.rows, Sk(key)) {
        return Err(TombstonePending), run, acts;
      }
      var m := Sealed(cfg, meta, data, now);
      if !ValidMetadata(m) {
        return Err(InvalidArgument), run, acts;
      }
      var agreed := db.ValidatePayloadDescriptor(m);
      if agreed.Err? {
        return Err(agreed.error), run, acts;
      }
      r, run, acts := StoreAccepted(key, data, meta, now, headFails, response, put, releaseFails, commitFails, reported, deleted);
    }
  }
}
