/** Byte totals over sets of rows. */
module Accounting {
  import opened Metadata
  import opened Rows

  function ActiveKeys(rows: Table, tier: Tier): set<RowKey> {
    set rk | rk in rows && rk.tier == tier && rows[rk].state == Active
  }

  function EvictableKeys(rows: Table, tier: Tier, epoch: string): set<RowKey> {
    set rk | rk in rows && rk.tier == tier && Evictable(rows, rk, epoch)
  }

  /** Active rows that somebody is reading. */
  function HeldKeys(rows: Table, tier: Tier, epoch: string): set<RowKey> {
    ActiveKeys(rows, tier) - EvictableKeys(rows, tier, epoch)
  }

  ghost function Total(rows: Table, ks: set<RowKey>): int
    requires ks <= rows.Keys
  {
    if ks == {} then 0 else
      var k :| k in ks;
      rows[k].bytes + Total(rows, ks - {k})
  }

  /** `SUM(bytes)` over the active rows of a tier. */
  ghost function BytesUsed(rows: Table, tier: Tier): int {
    Total(rows, ActiveKeys(rows, tier))
  }

  ghost function HeldBytes(rows: Table, tier: Tier, epoch: string): int {
    Total(rows, HeldKeys(rows, tier, epoch))
  }

  /** Any element may be counted first. */
  lemma {:induction false} TotalSplit(rows: Table, ks: set<RowKey>, k: RowKey)
    requires ks <= rows.Keys && k in ks
    ensures Total(rows, ks) == rows[k].bytes + Total(rows, ks - {k})
    decreases |ks|
  {
    var first :| first in ks && Total(rows, ks) == rows[first].bytes + Total(rows, ks - {first});
    if first != k {
      TotalSplit(rows, ks - {first}, k);
      TotalSplit(rows, ks - {k}, first);
      assert ks - {first} - {k} == ks - {k} - {first};
    }
  }

  /** Totals depend on the byte counts of the rows in the set and on nothing else. */
  lemma {:induction false} TotalFrame(rows: Table, after: Table, ks: set<RowKey>)
    requires ks <= rows.Keys && ks <= after.Keys
    requires forall k :: k in ks ==> rows[k].bytes == after[k].bytes
    ensures Total(rows, ks) == Total(after, ks)
    decreases |ks|
  {
    if k :| k in ks {
      TotalSplit(rows, ks, k);
      TotalSplit(after, ks, k);
      TotalFrame(rows, after, ks - {k});
    }
  }

  lemma {:induction false} TotalMonotone(rows: Table, small: set<RowKey>, large: set<RowKey>)
    requires small <= large <= rows.Keys
    requires forall k :: k in large ==> rows[k].bytes >= 0
    ensures 0 <= Total(rows, small) <= Total(rows, large)
    decreases |large|
  {
    if k :| k in large {
      TotalSplit(rows, large, k);
      if k in small {
        TotalSplit(rows, small, k);
        TotalMonotone(rows, small - {k}, large - {k});
      } else {
        TotalMonotone(rows, small, large - {k});
      }
    }
  }

  /** Removing an active row lowers the usage by exactly its bytes. */
  lemma UsageAfterRemoval(rows: Table, rk: RowKey)
    requires IsActive(rows, rk)
    ensures BytesUsed(rows - {rk}, rk.tier) == BytesUsed(rows, rk.tier) - rows[rk].bytes
  {
    var ks := ActiveKeys(rows, rk.tier);
    TotalSplit(rows, ks, rk);
    assert ActiveKeys(rows - {rk}, rk.tier) == ks - {rk};
    TotalFrame(rows, rows - {rk}, ks - {rk});
  }

  /** The same active rows with the same byte counts use the same space. */
  lemma UsageFrame(rows: Table, after: Table, tier: Tier)
    requires ActiveKeys(rows, tier) == ActiveKeys(after, tier)
    requires forall rk :: rk in ActiveKeys(rows, tier) ==> rows[rk].bytes == after[rk].bytes
    ensures BytesUsed(rows, tier) == BytesUsed(after, tier)
  {
    TotalFrame(rows, after, ActiveKeys(rows, tier));
  }

  /** Publishing a row that was not active adds its bytes. */
  lemma UsageAfterInsert(rows: Table, rk: RowKey, row: Row)
    requires !IsActive(rows, rk) && row.state == Active
    ensures BytesUsed(rows[rk := row], rk.tier) == BytesUsed(rows, rk.tier) + row.bytes
  {
    var after := rows[rk := row];
    var ks := ActiveKeys(after, rk.tier);
    TotalSplit(after, ks, rk);
    assert ActiveKeys(rows, rk.tier) == ks - {rk};
    TotalFrame(rows, after, ks - {rk});
  }

  /** No row of the tier has become active, and none has changed its size. */
  ghost predicate NotMoreIn(rows: Table, after: Table, tier: Tier) {
    forall rk :: IsActive(after, rk) && rk.tier == tier ==> IsActive(rows, rk) && after[rk].bytes == rows[rk].bytes
  }

  /** The same of all tiers. */
  ghost predicate NotMore(rows: Table, after: Table) {
    forall rk :: IsActive(after, rk) ==> IsActive(rows, rk) && after[rk].bytes == rows[rk].bytes
  }

  ghost predicate NaturalSizes(rows: Table) {
    forall rk :: rk in rows ==> rows[rk].bytes >= 0
  }

  /** Then the tier uses no more space than before. */
  lemma NotMoreUsage(rows: Table, after: Table, tier: Tier)
    requires NotMoreIn(rows, after, tier) && NaturalSizes(rows)
    ensures BytesUsed(after, tier) <= BytesUsed(rows, tier)
  {
    var small, large := ActiveKeys(after, tier), ActiveKeys(rows, tier);
    assert forall rk :: rk in small ==> IsActive(after, rk);
    TotalFrame(after, rows, small);
    TotalMonotone(rows, small, large);
  }
}
