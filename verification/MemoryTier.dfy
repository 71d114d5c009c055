/** The in-process tier: an ordered map of payloads with an exact byte count. */
module MemTier {
  import opened Identity
  import opened Metadata
  import opened Rows
  import opened Tiers
  import opened Accounting
  import opened Store
  import opened KvProtocol
  import opened KvInvariant
  import opened KvRuns
  import opened Loading

  function Mk(key: BlockKey): RowKey { RowKey(key, Memory) }

  type Payloads = map<BlockKey, seq<Byte>>

  /** The sum of the stored lengths over a set of keys. */
  ghost function Sum(data: Payloads, ks: set<BlockKey>): nat
    requires ks <= data.Keys
  {
    if ks == {} then 0 else
      var k :| k in ks;
      |data[k]| + Sum(data, ks - {k})
  }

  lemma {:induction false} SumSplit(data: Payloads, ks: set<BlockKey>, k: BlockKey)
    requires ks <= data.Keys && k in ks
    ensures Sum(data, ks) == |data[k]| + Sum(data, ks - {k})
    decreases |ks|
  {
    var first :| first in ks && Sum(data, ks) == |data[first]| + Sum(data, ks - {first});
    if first != k {
      SumSplit(data, ks - {first}, k);
      SumSplit(data, ks - {k}, first);
      assert ks - {first} - {k} == ks - {k} - {first};
    }
  }

  lemma {:induction false} SumFrame(data: Payloads, after: Payloads, ks: set<BlockKey>)
    requires ks <= data.Keys && ks <= after.Keys
    requires forall k :: k in ks ==> data[k] == after[k]
    ensures Sum(data, ks) == Sum(after, ks)
    decreases |ks|
  {
    if k :| k in ks {
      SumSplit(data, ks, k);
      SumSplit(after, ks, k);
      SumFrame(data, after, ks - {k});
    }
  }

  lemma {:induction false} SumMonotone(data: Payloads, small: set<BlockKey>, large: set<BlockKey>)
    requires small <= large <= data.Keys
    ensures Sum(data, small) <= Sum(data, large)
    decreases |large|
  {
    if k :| k in large {
      SumSplit(data, large, k);
      if k in small {
        SumSplit(data, small, k);
        SumMonotone(data, small - {k}, large - {k});
      } else {
        SumMonotone(data, small, large - {k});
      }
    }
  }

  /** `len` over everything that is stored. */
  ghost function Stored(data: Payloads): nat {
    Sum(data, data.Keys)
  }

  lemma StoredWithout(data: Payloads, k: BlockKey)
    requires k in data
    ensures Stored(data - {k}) == Stored(data) - |data[k]|
  {
    SumSplit(data, data.Keys, k);
    assert (data - {k}).Keys == data.Keys - {k};
    SumFrame(data, data - {k}, data.Keys - {k});
  }

  lemma StoredWith(data: Payloads, k: BlockKey, bytes: seq<Byte>)
    requires k !in data
    ensures Stored(data[k := bytes]) == Stored(data) + |bytes|
  {
    var after := data[k := bytes];
    StoredWithout(after, k);
    assert after - {k} == data;
  }

  // ----- order -----

  /** The order of an ordered map lists its keys, each once. */
  ghost predicate Lists(order: seq<BlockKey>, ks: set<BlockKey>) {
    && (forall i :: 0 <= i < |order| ==> order[i] in ks)
    && (forall k :: k in ks ==> k in order)
    && (forall i, j :: 0 <= i < j < |order| ==> order[i] != order[j])
  }

  function Dropped(order: seq<BlockKey>, k: BlockKey): (r: seq<BlockKey>) {
    if order == [] then []
    else if order[0] == k then order[1..]
    else [order[0]] + Dropped(order[1..], k)
  }

  lemma {:induction false} DroppedAt(order: seq<BlockKey>, k: BlockKey, i: nat)
    requires i < |order| && order[i] == k && k !in order[..i]
    ensures Dropped(order, k) == order[..i] + order[i + 1..]
  {
    if i > 0 {
      assert order[0] in order[..i] && forall x :: x in order[1..][..i - 1] ==> x in order[..i];
      DroppedAt(order[1..], k, i - 1);
      assert order[..i] == [order[0]] + order[1..][..i - 1];
    }
  }

  lemma DroppedLists(order: seq<BlockKey>, ks: set<BlockKey>, k: BlockKey)
    requires Lists(order, ks) && k in ks
    ensures Lists(Dropped(order, k), ks - {k})
  {
    hide Dropped;
    var i :| 0 <= i < |order| && order[i] == k;
    DroppedAt(order, k, i);
    CutLists(order, ks, i);
  }

  lemma CutLists(order: seq<BlockKey>, ks: set<BlockKey>, i: nat)
    requires Lists(order, ks) && i < |order|
    ensures Lists(order[..i] + order[i + 1..], ks - {order[i]})
  {
    var after := order[..i] + order[i + 1..];
    forall j | 0 <= j < |after|
      ensures after[j] == order[if j < i then j else j + 1] && after[j] in ks - {order[i]}
    {}
    forall a, b | 0 <= a < b < |after| ensures after[a] != after[b] {
      assert after[a] == order[if a < i then a else a + 1] && after[b] == order[if b < i then b else b + 1];
    }
    forall x | x in ks - {order[i]} ensures x in after {
      CutKeeps(order, i, x);
    }
  }

  lemma CutKeeps(order: seq<BlockKey>, i: nat, x: BlockKey)
    requires i < |order| && x in order && x != order[i]
    ensures x in order[..i] + order[i + 1..]
  {
    var j :| 0 <= j < |order| && order[j] == x;
    assert if j < i then order[..i][j] == x else order[i + 1..][j - i - 1] == x;
  }

  lemma AppendedLists(order: seq<BlockKey>, ks: set<BlockKey>, k: BlockKey)
    requires Lists(order, ks) && k !in ks
    ensures Lists(order + [k], ks + {k})
  {
    var after := order + [k];
    forall x | x in ks ensures x in after {
      var i :| 0 <= i < |order| && order[i] == x;
      assert after[i] == x;
    }
    assert after[|order|] == k;
  }

  // ----- eviction order -----

  predicate MayGo(rows: Table, epoch: string, exclude: BlockKey, k: BlockKey) {
    k != exclude && Evictable(rows, Mk(k), epoch)
  }

  /** The keys that could be evicted, least recently used first. */
  function Candidates(order: seq<BlockKey>, rows: Table, epoch: string, exclude: BlockKey): seq<BlockKey> {
    if order == [] then []
    else (if MayGo(rows, epoch, exclude, order[0]) then [order[0]] else []) + Candidates(order[1..], rows, epoch, exclude)
  }

  lemma {:induction false} CandidatesAre(order: seq<BlockKey>, rows: Table, epoch: string, exclude: BlockKey, k: BlockKey)
    ensures k in Candidates(order, rows, epoch, exclude) <==> k in order && MayGo(rows, epoch, exclude, k)
  {
    if order != [] {
      CandidatesAre(order[1..], rows, epoch, exclude, k);
    }
  }

  lemma {:induction false} CandidatesFrame(order: seq<BlockKey>, rows: Table, k: BlockKey, epoch: string, exclude: BlockKey)
    requires k !in order
    ensures Candidates(order, rows - {Mk(k)}, epoch, exclude) == Candidates(order, rows, epoch, exclude)
  {
    if order != [] {
      CandidatesFrame(order[1..], rows, k, epoch, exclude);
    }
  }

  lemma EvictableElsewhere(rows: Table, gone: RowKey, rk: RowKey, epoch: string)
    requires rk != gone
    ensures Evictable(rows - {gone}, rk, epoch) == Evictable(rows, rk, epoch)
  {}

  /** The first key that may go is the first candidate, and the others remain candidates without it. */
  lemma {:induction false} FirstCandidate(order: seq<BlockKey>, rows: Table, epoch: string, exclude: BlockKey, i: nat)
    requires i < |order| && MayGo(rows, epoch, exclude, order[i])
    requires forall j :: 0 <= j < i ==> !MayGo(rows, epoch, exclude, order[j])
    requires forall a, b :: 0 <= a < b < |order| ==> order[a] != order[b]
    ensures Candidates(order, rows, epoch, exclude)
         == [order[i]] + Candidates(Dropped(order, order[i]), rows - {Mk(order[i])}, epoch, exclude)
  {
    hide Evictable;
    var rest, k := order[1..], order[i];
    if i == 0 {
      CandidatesFrame(rest, rows, k, epoch, exclude);
    } else {
      assert rest[i - 1] == k;
      FirstCandidate(rest, rows, epoch, exclude, i - 1);
      EvictableElsewhere(rows, Mk(k), Mk(order[0]), epoch);
      assert Dropped(order, k) == [order[0]] + Dropped(rest, k);
    }
  }

  lemma {:induction false} NoCandidates(order: seq<BlockKey>, rows: Table, epoch: string, exclude: BlockKey)
    requires forall j :: 0 <= j < |order| ==> !MayGo(rows, epoch, exclude, order[j])
    ensures Candidates(order, rows, epoch, exclude) == []
  {
    if order != [] {
      NoCandidates(order[1..], rows, epoch, exclude);
    }
  }

  function KeySet(ks: seq<BlockKey>): set<BlockKey> { set k | k in ks }
  function RowSet(ks: seq<BlockKey>): set<RowKey> { set k | k in ks :: Mk(k) }

  /** The victims are the first of the candidates, and before each of them the bytes did not fit. */
  ghost predicate LeastRecent(order: seq<BlockKey>, rows: Table, epoch: string, exclude: BlockKey, victims: seq<BlockKey>) {
    victims <= Candidates(order, rows, epoch, exclude)
  }

  ghost predicate AllNeeded(data: Payloads, incoming: int, maxBytes: int, victims: seq<BlockKey>) {
    forall n :: 0 <= n < |victims| ==> Stored(data - KeySet(victims[..n])) + incoming > maxBytes
  }

  lemma FirstIfEvictable(order: seq<BlockKey>, rows: Table, epoch: string, exclude: BlockKey, i: nat)
    requires i < |order| && (forall a, b :: 0 <= a < b < |order| ==> order[a] != order[b])
    requires forall j :: 0 <= j < i ==> !MayGo(rows, epoch, exclude, order[j])
    ensures var rest := Candidates(Dropped(order, order[i]), rows - {Mk(order[i])}, epoch, exclude);
            MayGo(rows, epoch, exclude, order[i]) ==> Candidates(order, rows, epoch, exclude) == [order[i]] + rest
  {
    if MayGo(rows, epoch, exclude, order[i]) {
      FirstCandidate(order, rows, epoch, exclude, i);
    }
  }

  /** The victims are out of the map and of the table, nothing else is. */
  ghost predicate Gone(data: Payloads, after: Payloads, rows: Table, left: Table, victims: seq<BlockKey>) {
    after == data - KeySet(victims) && left == rows - RowSet(victims)
  }

  lemma NobodyGone(data: Payloads, rows: Table)
    ensures Gone(data, data, rows, rows, [])
  {}

  lemma OneMoreGone(data: Payloads, after: Payloads, rows: Table, left: Table, victims: seq<BlockKey>, victim: BlockKey)
    requires Gone(data, after, rows, left, victims)
    ensures Gone(data, after - {victim}, rows, left - {Mk(victim)}, victims + [victim])
  {
    assert KeySet(victims + [victim]) == KeySet(victims) + {victim};
    assert RowSet(victims + [victim]) == RowSet(victims) + {Mk(victim)} by { RowSetGrows(victims, victim); }
  }

  lemma RowSetGrows(victims: seq<BlockKey>, victim: BlockKey)
    ensures RowSet(victims + [victim]) == RowSet(victims) + {Mk(victim)}
  {
    forall k | k in victims + [victim] ensures k in victims || k == victim {}
    assert victim in victims + [victim];
  }

  lemma FewerLeft(data: Payloads, k: BlockKey)
    requires k in data
    ensures |data - {k}| < |data|
  {
    assert (data - {k}).Keys == data.Keys - {k};
    assert |data.Keys| == |data| && |(data - {k}).Keys| == |data - {k}|;
  }

  /** The victims so far, then the candidates that are left, are the candidates there were. */
  ghost predicate Ahead(order: seq<BlockKey>, rows: Table, now: seq<BlockKey>, left: Table, epoch: string, exclude: BlockKey, victims: seq<BlockKey>) {
    Candidates(order, rows, epoch, exclude) == victims + Candidates(now, left, epoch, exclude)
  }

  lemma NothingAhead(order: seq<BlockKey>, rows: Table, epoch: string, exclude: BlockKey)
    ensures Ahead(order, rows, order, rows, epoch, exclude, [])
  {}

  lemma OneAhead(order: seq<BlockKey>, rows: Table, mid: seq<BlockKey>, some: Table, now: seq<BlockKey>, left: Table,
                 epoch: string, exclude: BlockKey, victims: seq<BlockKey>, victim: BlockKey)
    requires Ahead(order, rows, mid, some, epoch, exclude, victims)
    requires Candidates(mid, some, epoch, exclude) == [victim] + Candidates(now, left, epoch, exclude)
    ensures Ahead(order, rows, now, left, epoch, exclude, victims + [victim])
  {
    hide Candidates;
    assert victims + ([victim] + Candidates(now, left, epoch, exclude)) == victims + [victim] + Candidates(now, left, epoch, exclude);
  }

  lemma AheadIsLeastRecent(order: seq<BlockKey>, rows: Table, now: seq<BlockKey>, left: Table, epoch: string, exclude: BlockKey, victims: seq<BlockKey>)
    requires Ahead(order, rows, now, left, epoch, exclude, victims)
    ensures LeastRecent(order, rows, epoch, exclude, victims)
    ensures Candidates(now, left, epoch, exclude) == [] ==> victims == Candidates(order, rows, epoch, exclude)
  {
    hide Candidates;
  }

  lemma EvictRun(cfg: Config, s: Sys, key: BlockKey)
    requires CanMemoryEvict(s, key)
    ensures Leads(cfg, s, [s, DoMemoryEvict(s, key)], [MemoryEvict(key)], DoMemoryEvict(s, key))
  {
    hide Leads;
    Standing(cfg, s);
    OneMore(cfg, s, [s], [], s, MemoryEvict(key));
    assert [s] + [DoMemoryEvict(s, key)] == [s, DoMemoryEvict(s, key)] && [] + [MemoryEvict(key)] == [MemoryEvict(key)];
  }

  lemma NothingNeeded(data: Payloads, incoming: int, maxBytes: int)
    ensures AllNeeded(data, incoming, maxBytes, [])
  {}

  lemma OneMoreNeeded(data: Payloads, mid: Payloads, rows: Table, left: Table, incoming: int, maxBytes: int, victims: seq<BlockKey>, victim: BlockKey)
    requires AllNeeded(data, incoming, maxBytes, victims) && Gone(data, mid, rows, left, victims)
    requires Stored(mid) + incoming > maxBytes
    ensures AllNeeded(data, incoming, maxBytes, victims + [victim])
  {
    hide Stored, KeySet;
    var all := victims + [victim];
    forall n | 0 <= n < |all|
      ensures Stored(data - KeySet(all[..n])) + incoming > maxBytes
    {
      assert all[..n] == victims[..n];
      assert victims[..|victims|] == victims;
    }
  }

  // ----- stores -----

  /** Keys whose payload somebody is reading. */
  function HeldPayloadKeys(data: Payloads, rows: Table, epoch: string): set<BlockKey> {
    set k | k in data && !Evictable(rows, Mk(k), epoch)
  }

  ghost function HeldPayloads(data: Payloads, rows: Table, epoch: string): nat {
    Sum(data, HeldPayloadKeys(data, rows, epoch))
  }

  lemma GoneIsLess(data: Payloads, after: Payloads, rows: Table, left: Table, victims: seq<BlockKey>)
    requires Gone(data, after, rows, left, victims)
    ensures after.Keys <= data.Keys && left.Keys <= rows.Keys
    ensures forall k :: k in after ==> after[k] == data[k]
    ensures forall rk :: rk in left ==> left[rk] == rows[rk]
  {}

  lemma StillAgrees(data: Payloads, after: Payloads, rows: Table, left: Table, victims: seq<BlockKey>, m: KVMetadata)
    requires Gone(data, after, rows, left, victims) && DescriptorAgrees(rows, m)
    ensures DescriptorAgrees(left, m)
  {
    hide Gone, PayloadDescriptor;
    GoneIsLess(data, after, rows, left, victims);
  }

  /** What is being read never goes, and when all else is gone it is all that is left. */
  lemma HeldStays(order: seq<BlockKey>, data: Payloads, rows: Table, after: Payloads, left: Table, epoch: string, exclude: BlockKey, victims: seq<BlockKey>)
    requires Lists(order, data.Keys) && exclude !in data
    requires Gone(data, after, rows, left, victims) && LeastRecent(order, rows, epoch, exclude, victims)
    ensures HeldPayloadKeys(data, rows, epoch) <= after.Keys
    ensures victims == Candidates(order, rows, epoch, exclude) ==> HeldPayloadKeys(data, rows, epoch) == after.Keys
  {
    var all := Candidates(order, rows, epoch, exclude);
    forall k | k in data
      ensures k in all <==> Evictable(rows, Mk(k), epoch)
    {
      CandidatesAre(order, rows, epoch, exclude, k);
    }
    assert forall k :: k in victims ==> k in all;
  }

  lemma FullIffHeld(order: seq<BlockKey>, data: Payloads, rows: Table, after: Payloads, left: Table, epoch: string, exclude: BlockKey,
                    victims: seq<BlockKey>, usedBytes: int)
    requires Lists(order, data.Keys) && exclude !in data
    requires Gone(data, after, rows, left, victims) && LeastRecent(order, rows, epoch, exclude, victims)
    requires usedBytes == Stored(after)
    ensures victims == Candidates(order, rows, epoch, exclude) ==> HeldPayloads(data, rows, epoch) == usedBytes
    ensures HeldPayloads(data, rows, epoch) <= usedBytes
  {
    var held := HeldPayloadKeys(data, rows, epoch);
    HeldStays(order, data, rows, after, left, epoch, exclude, victims);
    GoneIsLess(data, after, rows, left, victims);
    SumFrame(data, after, held);
    SumMonotone(after, held, after.Keys);
  }

  lemma StoreIsEnabled(cfg: Config, s: Sys, key: BlockKey, meta: KVMetadata, bytes: seq<Byte>, now: Time)
    requires s.mutator.Idle? && meta.key == key && !IsDeleting(s.rows, Mk(key))
    requires ValidMetadata(Sealed(cfg, meta, bytes, now)) && DescriptorAgrees(s.rows, Sealed(cfg, meta, bytes, now))
    requires IsActive(s.rows, Mk(key)) ==> key in s.mem && s.mem[key] == bytes
    ensures CanMemoryStore(cfg, s, key, meta, bytes, now)
  {
    hide DescriptorAgrees;
  }

  lemma StoreStep(cfg: Config, s: Sys, run: seq<Sys>, acts: seq<Action>, t: Sys, key: BlockKey, meta: KVMetadata, bytes: seq<Byte>, now: Time)
    requires Leads(cfg, s, run, acts, t) && CanMemoryStore(cfg, t, key, meta, bytes, now)
    ensures var u := DoMemoryStore(cfg, t, key, meta, bytes, now);
            Leads(cfg, s, run + [u], acts + [MemoryStore(key, meta, bytes, now)], u)
  {
    hide Leads, CanMemoryStore;
    OneMore(cfg, s, run, acts, t, MemoryStore(key, meta, bytes, now));
  }

  /** The checks that turn a store away before it looks at what is stored. */
  ghost predicate Turned(rows: Table, cfg: Config, maxBytes: nat, key: BlockKey, bytes: seq<Byte>, meta: KVMetadata, now: Time) {
    var m := Sealed(cfg, meta, bytes, now);
    meta.key != key || |bytes| > maxBytes || !ValidMetadata(m) || !DescriptorAgrees(rows, m)
  }

  /** What a lookup meets in a sound state: a block, a stale row that nobody holds, or nothing. */
  lemma MemoryLookups(cfg: Config, s: Sys, key: BlockKey)
    requires Inv(cfg, s) && s.mutator.Idle?
    ensures Mk(key) in s.rows ==> IsActive(s.rows, Mk(key)) && s.rows[Mk(key)].uri == MemoryUri(key.blockHash)
    ensures key in s.mem ==> IsActive(s.rows, Mk(key))
    ensures IsActive(s.rows, Mk(key)) && key !in s.mem ==> CanDropStale(s, Mk(key))
  {
    hide Consistent, Clocked, Holds, Extent;
    if Mk(key) in s.rows {
      assert RowSound(cfg, s.disk, Mk(key), s.rows[Mk(key)]);
      if key !in s.mem {
        assert forall h :: h in s.holders ==> h.Reader? && Bytes(s, s.holders[h].rk).Some?;
        assert HoldersOf(s.holders, Mk(key)) == {};
      }
    }
  }

  lemma BookedBytes(cfg: Config, s: Sys, key: BlockKey)
    requires Inv(cfg, s) && key in s.mem
    ensures s.rows[Mk(key)].bytes == |s.mem[key]| && s.rows[Mk(key)].checksum == cfg.codec.sha256(s.mem[key])
  {
    hide Consistent, Clocked, MutatorOk, Placed, Counted, Pinned;
  }

  lemma FewerRowsAgree(rows: Table, left: Table, m: KVMetadata)
    requires DescriptorAgrees(rows, m)
    requires forall rk :: rk in left ==> rk in rows && left[rk] == rows[rk]
    ensures DescriptorAgrees(left, m)
  {}

  lemma SameHeld(data: Payloads, rows: Table, left: Table, epoch: string, key: BlockKey)
    requires key !in data && (left == rows || left == rows - {Mk(key)})
    ensures HeldPayloads(data, rows, epoch) == HeldPayloads(data, left, epoch)
  {
    assert HeldPayloadKeys(data, rows, epoch) == HeldPayloadKeys(data, left, epoch);
  }

  /** The first check a stored payload fails against its row; all of them count as corruption. */
  function PayloadFault(cfg: Config, key: BlockKey, row: Row, bytes: seq<Byte>): (r: Option<Error>)
    ensures r.Some? ==> IsCorruption(r.value)
  {
    if !ValidMetadata(MovedMeta(row)) then Some(MetadataMismatch)
    else if row.meta.key != key then Some(MetadataMismatch)
    else if row.bytes != |bytes| || row.meta.bytes != |bytes| then Some(MetadataMismatch)
    else if row.checksum != row.meta.checksum then Some(MetadataMismatch)
    else if cfg.codec.sha256(bytes) != row.meta.checksum then Some(ChecksumMismatch)
    else None
  }

  /** Data of the key, if there is any, was published, as in every sound state. */
  predicate Published(rows: Table, data: Payloads, key: BlockKey) {
    key in data ==> IsActive(rows, Mk(key))
  }

  /** A lookup of the key succeeds. */
  predicate Found(rows: Table, data: Payloads, key: BlockKey) {
    key in data && IsActive(rows, Mk(key)) && rows[Mk(key)].uri == MemoryUri(key.blockHash)
  }

  /** In a sound state every stored payload passes. */
  lemma HealthyPayload(cfg: Config, s: Sys, key: BlockKey)
    requires Inv(cfg, s) && key in s.mem
    ensures Found(s.rows, s.mem, key) && PayloadFault(cfg, key, s.rows[Mk(key)], s.mem[key]).None?
  {
    hide Counted, Pinned, MutatorOk, OneDescriptor, ValidMetadata, Holds, Extent;
    var row := s.rows[Mk(key)];
    assert RowSound(cfg, s.disk, Mk(key), row) && RowConsistent(Mk(key), row);
    CountersKeepMetadataValid(row);
  }

  class MemoryTier {
    const cfg: Config
    const maxBytes: nat
    const db: MetadataStore
    var data: Payloads
    var order: seq<BlockKey>
    var usedBytes: int
    /** The rest of the system: files and objects, and readers at work. */
    ghost var disk: Disk
    ghost var holders: map<Holder, Hold>

    constructor (cfg: Config, maxBytes: nat, db: MetadataStore, ghost disk: Disk)
      requires maxBytes > 0
      ensures this.cfg == cfg && this.maxBytes == maxBytes && this.db == db && this.disk == disk
      ensures data == map[] && holders == map[] && Accounted() && usedBytes <= maxBytes
    {
      this.cfg, this.maxBytes, this.db, this.disk := cfg, maxBytes, db, disk;
      data, order, usedBytes, holders := map[], [], 0, map[];
    }

    /** The byte count is the sum of the stored lengths, and the order lists what is stored. */
    ghost predicate Accounted()
      reads this
    {
      usedBytes == Stored(data) && Lists(order, data.Keys)
    }

    ghost function View(): Sys
      reads this, db
    {
      Sys(db.rows, disk, data, holders, Idle, db.epoch)
    }

    /** Take a payload out of the map and off the books. */
    method Remove(key: BlockKey)
      requires Accounted() && key in data
      modifies this`data, this`order, this`usedBytes
      ensures Accounted() && data == old(data) - {key} && order == Dropped(old(order), key)
      ensures usedBytes == old(usedBytes) - |old(data)[key]|
    {
      StoredWithout(data, key);
      DroppedLists(order, data.Keys, key);
      assert (data - {key}).Keys == data.Keys - {key};
      usedBytes := usedBytes - |data[key]|;
      data := data - {key};
      order := Dropped(order, key);
    }

    method Insert(key: BlockKey, bytes: seq<Byte>)
      requires Accounted() && key !in data
      modifies this`data, this`order, this`usedBytes
      ensures Accounted() && data == old(data)[key := bytes] && order == old(order) + [key]
      ensures usedBytes == old(usedBytes) + |bytes|
    {
      StoredWith(data, key, bytes);
      AppendedLists(order, data.Keys, key);
      assert data[key := bytes].Keys == data.Keys + {key};
      data := data[key := bytes];
      usedBytes := usedBytes + |bytes|;
      order := order + [key];
    }

    method MoveToEnd(key: BlockKey)
      requires Accounted() && key in data
      modifies this`order
      ensures Accounted() && order == Dropped(old(order), key) + [key]
    {
      DroppedLists(order, data.Keys, key);
      AppendedLists(Dropped(order, key), data.Keys - {key}, key);
      assert data.Keys - {key} + {key} == data.Keys;
      order := Dropped(order, key) + [key];
    }

    /** Find a published block. A row without data is stale, data without a row was never published; both go. */
    method Lookup(key: BlockKey) returns (r: Result<Option<Location>>, ghost run: seq<Sys>, ghost acts: seq<Action>)
      requires Accounted()
      modifies this`data, this`order, this`usedBytes, db`rows
      ensures Accounted() && usedBytes <= old(usedBytes) && HoldGivenBack(old(db.rows), db.rows, Mk(key), db.epoch, false)
      ensures Published(old(db.rows), old(data), key) ==> Leads(cfg, old(View()), run, acts, View())
      ensures IsActive(old(db.rows), Mk(key)) && key in old(data) ==>
                && data == old(data) && order == old(order) && db.rows == old(db.rows)
                && r == (if db.rows[Mk(key)].uri == MemoryUri(key.blockHash) then Ok(Some(LocationOf(db.rows[Mk(key)]))) else Err(MetadataMismatch))
      ensures IsActive(old(db.rows), Mk(key)) && key !in old(data) ==>
                r == Ok(None) && data == old(data) && order == old(order) && db.rows == Deleted(old(db.rows), Mk(key), db.epoch)
      ensures !IsActive(old(db.rows), Mk(key)) ==> r == Ok(None) && data == old(data) - {key} && db.rows == old(db.rows)
      ensures !IsActive(old(db.rows), Mk(key)) && key !in old(data) ==> order == old(order)
    {
      hide Leads, Lists, Stored;
      ghost var s := View();
      Standing(cfg, s);
      run, acts := [s], [];
      var found := db.Lookup(Mk(key));
      if found.Some? && key !in data {
        var removed := db.Delete(Mk(key));
        run, acts := LookupRun(cfg, s, View(), Mk(key));
        return Ok(None), run, acts;
      }
      if found.None? {
        if key in data {
          Remove(key);
        } else {
          assert data - {key} == data;
        }
        return Ok(None), run, acts;
      }
      if found.value.uri != MemoryUri(key.blockHash) {
        return Err(MetadataMismatch), run, acts;
      }
      r := Ok(found);
    }

    /** Delete the row and the payload together, or neither. */
    method Evict(key: BlockKey) returns (removed: bool, ghost run: seq<Sys>, ghost acts: seq<Action>)
      requires Accounted()
      modifies this`data, this`order, this`usedBytes, db`rows
      ensures Accounted() && usedBytes <= old(usedBytes) && Leads(cfg, old(View()), run, acts, View())
      ensures removed <==> key in old(data) && Evictable(old(db.rows), Mk(key), db.epoch)
      ensures removed ==> data == old(data) - {key} && order == Dropped(old(order), key) && db.rows == old(db.rows) - {Mk(key)}
      ensures removed ==> usedBytes == old(usedBytes) - |old(data)[key]|
      ensures !removed ==> data == old(data) && order == old(order) && db.rows == old(db.rows)
    {
      hide Leads, Lists, Stored;
      ghost var s := View();
      Standing(cfg, s);
      run, acts := [s], [];
      if key !in data {
        return false, run, acts;
      }
      removed := db.Delete(Mk(key));
      if removed {
        Remove(key);
        EvictRun(cfg, s, key);
        run, acts := [s, View()], [MemoryEvict(key)];
      }
    }

    /** Go through the keys in order and evict the first one that can go. */
    method EvictFirst(exclude: BlockKey) returns (evicted: bool, ghost victim: BlockKey, ghost run: seq<Sys>, ghost acts: seq<Action>)
      requires Accounted()
      modifies this`data, this`order, this`usedBytes, db`rows
      ensures Accounted() && Leads(cfg, old(View()), run, acts, View())
      ensures !evicted ==> data == old(data) && order == old(order) && db.rows == old(db.rows)
                           && Candidates(order, db.rows, db.epoch, exclude) == []
      ensures evicted ==>
                && victim in old(data) && MayGo(old(db.rows), db.epoch, exclude, victim)
                && data == old(data) - {victim} && db.rows == old(db.rows) - {Mk(victim)}
                && usedBytes == old(usedBytes) - |old(data)[victim]|
                && Candidates(old(order), old(db.rows), db.epoch, exclude) == [victim] + Candidates(order, db.rows, db.epoch, exclude)
    {
      hide Stored, Candidates, Dropped, Leads;
      Standing(cfg, View());
      run, acts := [View()], [];
      var i, keys := 0, order;
      while i < |keys|
        invariant 0 <= i <= |keys| && Accounted()
        invariant data == old(data) && order == old(order) && db.rows == old(db.rows) && usedBytes == old(usedBytes)
        invariant forall j :: 0 <= j < i ==> !MayGo(db.rows, db.epoch, exclude, keys[j])
      {
        if keys[i] != exclude {
          FirstIfEvictable(order, db.rows, db.epoch, exclude, i);
          ghost var run', acts';
          evicted, run', acts' := Evict(keys[i]);
          if evicted {
            return true, keys[i], run', acts';
          }
        }
        i := i + 1;
      }
      NoCandidates(order, db.rows, db.epoch, exclude);
      evicted, victim := false, exclude;
    }

    /**
     Make room for `incoming` more bytes. Each round evicts the first evictable key, so the loop ends;
     it fails only when no key is left that could go.
     */
    method EnsureCapacity(incoming: int, exclude: BlockKey)
      returns (r: Result<()>, ghost victims: seq<BlockKey>, ghost run: seq<Sys>, ghost acts: seq<Action>)
      requires Accounted()
      modifies this`data, this`order, this`usedBytes, db`rows
      ensures Accounted() && usedBytes <= old(usedBytes)
      ensures Leads(cfg, old(View()), run, acts, View())
      ensures Gone(old(data), data, old(db.rows), db.rows, victims)
      ensures LeastRecent(old(order), old(db.rows), db.epoch, exclude, victims)
      ensures AllNeeded(old(data), incoming, maxBytes, victims)
      ensures r.Ok? ==> incoming <= 0 || usedBytes + incoming <= maxBytes
      ensures r.Err? ==> r.error == StoreFull && usedBytes + incoming > maxBytes && incoming > 0
                         && victims == Candidates(old(order), old(db.rows), db.epoch, exclude)
      ensures incoming <= 0 ==> victims == []
    {
      hide Leads, Stored, Candidates, Lists, Gone, AllNeeded, Ahead, LeastRecent;
      ghost var s, keys := View(), order;
      NothingNeeded(data, incoming, maxBytes);
      NobodyGone(data, db.rows);
      NothingAhead(order, db.rows, db.epoch, exclude);
      Standing(cfg, s);
      run, acts, victims := [s], [], [];
      AheadIsLeastRecent(keys, s.rows, order, db.rows, db.epoch, exclude, victims);
      if incoming <= 0 {
        return Ok(()), victims, run, acts;
      }
      while usedBytes + incoming > maxBytes
        invariant Accounted() && usedBytes <= old(usedBytes) && Leads(cfg, s, run, acts, View())
        invariant Gone(s.mem, data, s.rows, db.rows, victims)
        invariant Ahead(keys, s.rows, order, db.rows, db.epoch, exclude, victims)
        invariant AllNeeded(s.mem, incoming, maxBytes, victims)
        decreases |data|
      {
        ghost var before, mid := View(), order;
        AheadIsLeastRecent(keys, s.rows, order, db.rows, db.epoch, exclude, victims);
        var evicted, victim, run', acts' := EvictFirst(exclude);
        if !evicted {
          return Err(StoreFull), victims, run, acts;
        }
        RunsJoin(cfg, s, run, acts, before, run', acts', View());
        OneMoreNeeded(s.mem, before.mem, s.rows, before.rows, incoming, maxBytes, victims, victim);
        OneMoreGone(s.mem, before.mem, s.rows, before.rows, victims, victim);
        OneAhead(keys, s.rows, mid, before.rows, order, db.rows, db.epoch, exclude, victims, victim);
        FewerLeft(before.mem, victim);
        run, acts, victims := run + run'[1..], acts + acts', victims + [victim];
      }
      AheadIsLeastRecent(keys, s.rows, order, db.rows, db.epoch, exclude, victims);
      r := Ok(());
    }

    /** Store a key that is not there: make room, insert, publish; a failed publication undoes the insertion. */
    method StoreNew(key: BlockKey, bytes: seq<Byte>, meta: KVMetadata, now: Time, commitFails: bool)
      returns (r: Result<()>, ghost victims: seq<BlockKey>, ghost run: seq<Sys>, ghost acts: seq<Action>)
      requires FaithfulCodec(cfg.codec) && Inv(cfg, View()) && Accounted() && usedBytes <= maxBytes
      requires meta.key == key && |bytes| <= maxBytes && key !in data && Mk(key) !in db.rows
      requires ValidMetadata(Sealed(cfg, meta, bytes, now)) && DescriptorAgrees(db.rows, Sealed(cfg, meta, bytes, now))
      modifies this`data, this`order, this`usedBytes, db`rows
      ensures Accounted() && usedBytes <= maxBytes && Leads(cfg, old(View()), run, acts, View())
      ensures r.Ok? ==> key in data && data[key] == bytes && IsActive(db.rows, Mk(key)) && db.rows[Mk(key)].meta == Sealed(cfg, meta, bytes, now)
      ensures r.Ok? ==> Gone(old(data), data - {key}, old(db.rows), db.rows - {Mk(key)}, victims)
      ensures r.Err? ==> Gone(old(data), data, old(db.rows), db.rows, victims)
      ensures LeastRecent(old(order), old(db.rows), db.epoch, key, victims) && AllNeeded(old(data), |bytes|, maxBytes, victims)
      ensures r.Err? ==> r.error == StoreFull || commitFails
      ensures r == Err(StoreFull) <==> HeldPayloads(old(data), old(db.rows), db.epoch) + |bytes| > maxBytes
    {
      hide Leads, Inv, Gone, LeastRecent, AllNeeded, Lists, Stored, ValidMetadata, DescriptorAgrees, Candidates, Dropped, HeldPayloads;
      ghost var s, keys := View(), order;
      var m := Sealed(cfg, meta, bytes, now);
      var room;
      room, victims, run, acts := EnsureCapacity(|bytes|, key);
      ghost var mid := View();
      FullIffHeld(keys, s.mem, s.rows, data, db.rows, db.epoch, key, victims, usedBytes);
      if room.Err? {
        return Err(StoreFull), victims, run, acts;
      }
      StillAgrees(s.mem, data, s.rows, db.rows, victims, m);
      assert key !in data && Mk(key) !in db.rows by { GoneIsLess(s.mem, data, s.rows, db.rows, victims); }
      Insert(key, bytes);
      if commitFails {
        Remove(key);
        assert data == mid.mem;
        return Err(IoError), victims, run, acts;
      }
      StoreIsEnabled(cfg, mid, key, meta, bytes, now);
      StoreStep(cfg, s, run, acts, mid, key, meta, bytes, now);
      var published := db.Upsert(Mk(key), Location(MemoryUri(key.blockHash), |bytes|, m.checksum, m.createdAt, m.lastAccess), m);
      assert data - {key} == mid.mem && db.rows - {Mk(key)} == mid.rows;
      r, run, acts := Ok(()), run + [View()], acts + [MemoryStore(key, meta, bytes, now)];
    }

    /** Store a key that is there: the same payload again is a use, another one a conflict. */
    method Refresh(key: BlockKey, bytes: seq<Byte>, meta: KVMetadata, now: Time, existing: Location, commitFails: bool)
      returns (r: Result<()>, ghost run: seq<Sys>, ghost acts: seq<Action>)
      requires Accounted() && meta.key == key && key in data
      requires IsActive(db.rows, Mk(key)) && existing == LocationOf(db.rows[Mk(key)]) && existing.uri == MemoryUri(key.blockHash)
      requires ValidMetadata(Sealed(cfg, meta, bytes, now)) && DescriptorAgrees(db.rows, Sealed(cfg, meta, bytes, now)) && Inv(cfg, View())
      modifies this`order, db`rows
      ensures Accounted() && Leads(cfg, old(View()), run, acts, View())
      ensures r.Ok? <==> data[key] == bytes && !commitFails
      ensures r.Ok? ==> IsActive(db.rows, Mk(key)) && db.rows[Mk(key)].meta == Sealed(cfg, meta, bytes, now)
      ensures r.Err? ==> db.rows == old(db.rows) && (r.error == ImmutableBlockConflict <==> data[key] != bytes)
    {
      hide Leads, Inv, Lists, Stored, ValidMetadata, DescriptorAgrees, PayloadDescriptor;
      ghost var s := View();
      Standing(cfg, s);
      run, acts := [s], [];
      if data[key] != bytes {
        return Err(ImmutableBlockConflict), run, acts;
      }
      if commitFails {
        return Err(IoError), run, acts;
      }
      var m := Sealed(cfg, meta, bytes, now);
      StoreIsEnabled(cfg, s, key, meta, bytes, now);
      StoreStep(cfg, s, run, acts, s, key, meta, bytes, now);
      BookedBytes(cfg, s, key);
      var again := db.Upsert(Mk(key), existing.(lastAccess := m.lastAccess), m);
      MoveToEnd(key);
      assert data[key := bytes] == data;
      r, run, acts := Ok(()), run + [View()], acts + [MemoryStore(key, meta, bytes, now)];
    }

    /** A store that no check turned away: use the block if it is there, insert it if it is not. */
    method StoreAccepted(key: BlockKey, bytes: seq<Byte>, meta: KVMetadata, now: Time, commitFails: bool)
      returns (r: Result<()>, ghost run: seq<Sys>, ghost acts: seq<Action>)
      requires FaithfulCodec(cfg.codec) && Inv(cfg, View()) && Accounted() && usedBytes <= maxBytes
      requires !Turned(db.rows, cfg, maxBytes, key, bytes, meta, now)
      modifies this`data, this`order, this`usedBytes, db`rows
      ensures Inv(cfg, View()) && Accounted() && usedBytes <= maxBytes && Leads(cfg, old(View()), run, acts, View())
      ensures r.Ok? ==> key in data && data[key] == bytes && IsActive(db.rows, Mk(key)) && db.rows[Mk(key)].meta == Sealed(cfg, meta, bytes, now)
      ensures r.Err? ==> forall k :: k in data ==> k in old(data) && data[k] == old(data)[k]
      ensures key in old(data) ==>
                && data == old(data)
                && (!commitFails ==> (r.Ok? <==> old(data)[key] == bytes))
                && (old(data)[key] != bytes ==> r == Err(ImmutableBlockConflict) && db.rows == old(db.rows))
      ensures key !in old(data) ==>
                && (r == Err(StoreFull) <==> HeldPayloads(old(data), old(db.rows), db.epoch) + |bytes| > maxBytes)
                && (r.Err? ==> r.error == StoreFull || commitFails)
    {
      hide Leads, Inv, Lists, Stored, ValidMetadata, DescriptorAgrees, Gone, Candidates, LeastRecent, AllNeeded, HeldPayloads, PayloadDescriptor;
      ghost var s := View();
      MemoryLookups(cfg, s, key);
      var existing;
      existing, run, acts := Lookup(key);
      if existing.value.Some? {
        r, run, acts := Refresh(key, bytes, meta, now, existing.value.value, commitFails);
        LeadsKeepsInv(cfg, s, run, acts, View());
        return;
      }
      ghost var mid := View();
      assert mid.mem == s.mem;
      LeadsKeepsInv(cfg, s, run, acts, mid);
      FewerRowsAgree(s.rows, mid.rows, Sealed(cfg, meta, bytes, now));
      SameHeld(data, s.rows, mid.rows, db.epoch, key);
      var stored, victims, run', acts' := StoreNew(key, bytes, meta, now, commitFails);
      if stored.Err? {
        GoneIsLess(mid.mem, data, mid.rows, db.rows, victims);
      }
      RunsJoin(cfg, s, run, acts, mid, run', acts', View());
      run, acts, r := run + run'[1..], acts + acts', stored;
      LeadsKeepsInv(cfg, s, run, acts, View());
    }

    /**
     Store a block.

     Every outcome is a run of the protocol and keeps the books exact and under the limit. A store
     that is refused or fails leaves no trace of the new payload; what is gone besides are blocks
     evicted to make room. The tier is full exactly when the block does not fit beside the payloads
     that are being read.
     */
    method Store(key: BlockKey, bytes: seq<Byte>, meta: KVMetadata, now: Time, commitFails: bool)
      returns (r: Result<()>, ghost run: seq<Sys>, ghost acts: seq<Action>)
      requires FaithfulCodec(cfg.codec) && Inv(cfg, View()) && Accounted() && usedBytes <= maxBytes && now >= 0
      modifies this`data, this`order, this`usedBytes, db`rows
      ensures Inv(cfg, View()) && Accounted() && usedBytes <= maxBytes && Leads(cfg, old(View()), run, acts, View())
      ensures r.Ok? ==> key in data && data[key] == bytes && IsActive(db.rows, Mk(key)) && db.rows[Mk(key)].meta == Sealed(cfg, meta, bytes, now)
      ensures r.Err? ==> forall k :: k in data ==> k in old(data) && data[k] == old(data)[k]
      ensures Turned(old(db.rows), cfg, maxBytes, key, bytes, meta, now) ==> r.Err? && db.rows == old(db.rows) && data == old(data)
      ensures !Turned(old(db.rows), cfg, maxBytes, key, bytes, meta, now) && key in old(data) ==>
                && data == old(data)
                && (!commitFails ==> (r.Ok? <==> old(data)[key] == bytes))
                && (old(data)[key] != bytes ==> r == Err(ImmutableBlockConflict) && db.rows == old(db.rows))
      ensures !Turned(old(db.rows), cfg, maxBytes, key, bytes, meta, now) && key !in old(data) ==>
                && (r == Err(StoreFull) <==> HeldPayloads(old(data), old(db.rows), db.epoch) + |bytes| > maxBytes)
                && (r.Err? ==> r.error == StoreFull || commitFails)
    {
      hide Leads, Inv, Lists, Stored, ValidMetadata, DescriptorAgrees, Gone, Candidates, LeastRecent, AllNeeded, HeldPayloads, PayloadDescriptor;
      ghost var s := View();
      Standing(cfg, s);
      run, acts := [s], [];
      if meta.key != key {
        return Err(MetadataMismatch), run, acts;
      }
      if |bytes| > maxBytes {
        return Err(StoreFull), run, acts;
      }
      var m := Sealed(cfg, meta, bytes, now);
      if !ValidMetadata(m) {
        return Err(InvalidArgument), run, acts;
      }
      var agreed := db.ValidatePayloadDescriptor(m);
      if agreed.Err? {
        return Err(agreed.error), run, acts;
      }
      r, run, acts := StoreAccepted(key, bytes, meta, now, commitFails);
    }

    /** What a failed load does once the hold is released: it evicts the block. */
    method Invalidate(key: BlockKey, corruption: Error) returns (error: Error, ghost run: seq<Sys>, ghost acts: seq<Action>)
      requires Accounted() && key in data && IsActive(db.rows, Mk(key))
      modifies this`data, this`order, this`usedBytes, db`rows
      ensures Accounted() && usedBytes <= old(usedBytes) && Leads(cfg, old(View()), run, acts, View())
      ensures error == corruption || error.CorruptionCleanupFailed?
      ensures error.CorruptionCleanupFailed? || (Mk(key) !in db.rows && key !in data)
      ensures db.rows == old(db.rows) || db.rows == old(db.rows) - {Mk(key)}
      ensures HoldGivenBack(old(db.rows), db.rows, Mk(key), db.epoch, false) && NotMore(old(db.rows), db.rows)
      ensures data == old(data) || data == old(data) - {key}
    {
      hide Lists, Stored, Leads;
      var removed;
      removed, run, acts := Evict(key);
      if !removed {
        var remains := db.Lookup(Mk(key));
        if remains.Some? {
          return CorruptionCleanupFailed("evict", corruption), run, acts;
        }
      }
      error := corruption;
    }

    /** Acquire the row, check the payload against it, use it if it passes, release it again if that works. */
    method Visit(key: BlockKey, now: Time, releaseFails: bool) returns (fault: Option<Error>, ghost run: seq<Sys>, ghost acts: seq<Action>)
      requires Accounted() && Found(db.rows, data, key)
      modifies this`order, this`holders, db`rows
      ensures Accounted() && fault == PayloadFault(cfg, key, old(db.rows[Mk(key)]), data[key])
      ensures db.rows == VisitedRows(old(db.rows), Mk(key), now, db.epoch, fault.None?, !releaseFails)
      ensures !releaseFails ==> holders == old(holders)
      ensures now >= 0 ==> Leads(cfg, old(View()), run, acts, View())
    {
      hide Leads, Lists, Stored, ValidMetadata;
      ghost var s := View();
      run, acts := [s], [];
      var held := db.LookupAndAcquire(Mk(key));
      fault := PayloadFault(cfg, key, db.rows[Mk(key)], data[key]);
      if fault.None? {
        MoveToEnd(key);
        db.Touch(Mk(key), now);
      }
      if !releaseFails {
        db.Release(Mk(key));
      }
      if now >= 0 {
        ghost var reader;
        reader, run, acts := VisitRun(cfg, s, Mk(key), now, fault.None?, !releaseFails);
        holders := VisitedHolders(s, Mk(key), reader, !releaseFails);
      }
    }

    /**
     Load a block. Success hands out the stored bytes, and only if their length and digest are what
     the row says; corruption found after the row was acquired removes row and payload unless the
     error says that the cleanup failed; the acquisition is released unless the release fails, and then
     the hold stays. The byte count never grows, and every outcome is a run of the protocol.
     */
    method Load(key: BlockKey, now: Time, releaseFails: bool) returns (r: Result<Loaded>, ghost run: seq<Sys>, ghost acts: seq<Action>)
      requires Accounted()
      modifies this`data, this`order, this`usedBytes, this`holders, db`rows
      ensures Accounted() && usedBytes <= old(usedBytes)
      ensures r.Ok? ==>
                && IsActive(old(db.rows), Mk(key)) && key in old(data) && r.value.data == old(data)[key] && data == old(data)
                && |r.value.data| == old(db.rows[Mk(key)].bytes) && r.value.meta.key == key
                && cfg.codec.sha256(r.value.data) == old(db.rows[Mk(key)].checksum)
                && PayloadDescriptor(r.value.meta) == PayloadDescriptor(old(db.rows[Mk(key)].meta))
                && !releaseFails && db.rows == UsedRows(old(db.rows), Mk(key), now, db.epoch)
      ensures r.Err? && IsCorruption(r.error) && Found(old(db.rows), old(data), key) ==>
                r.error.CorruptionCleanupFailed? || (!IsActive(db.rows, Mk(key)) && key !in data)
      ensures Found(old(db.rows), old(data), key) && !releaseFails ==>
                (r.Ok? <==> PayloadFault(cfg, key, old(db.rows[Mk(key)]), old(data)[key]).None?)
      ensures HoldGivenBack(old(db.rows), db.rows, Mk(key), db.epoch, releaseFails)
      ensures data == old(data) || data == old(data) - {key}
      ensures !releaseFails ==> holders == old(holders)
      ensures now >= 0 && Published(old(db.rows), old(data), key) ==> Leads(cfg, old(View()), run, acts, View())
    {
      hide Lists, Stored, ValidMetadata, Leads, VisitedRows, UsedRows, OnlyUsed, NotMore, HoldGivenBack;
      ghost var s := View();
      var found;
      found, run, acts := Lookup(key);
      NoneTaken(s.rows, db.rows, Mk(key), db.epoch, releaseFails);
      if found.Err? {
        return Err(found.error), run, acts;
      }
      if found.value.None? {
        return Err(BlockNotFound), run, acts;
      }
      var row, bytes := db.rows[Mk(key)], data[key];
      var fault;
      fault, run, acts := Visit(key, now, releaseFails);
      VisitGivesBack(s.rows, Mk(key), now, db.epoch, fault.None?, !releaseFails);
      if releaseFails {
        return Err(if fault.Some? then CorruptionCleanupFailed("release", fault.value) else IoError), run, acts;
      }
      ghost var mid := View();
      if fault.Some? {
        var error, run', acts' := Invalidate(key, fault.value);
        GivenBackThen(s.rows, mid.rows, db.rows, Mk(key), db.epoch);
        if now >= 0 {
          RunsJoin(cfg, s, run, acts, mid, run', acts', View());
          run, acts := run + run'[1..], acts + acts';
        }
        return Err(error), run, acts;
      }
      r := Ok(Loaded(bytes, row.meta.(lastAccess := now, reuseCount := row.reuseCount + 1)));
    }
  }
}
