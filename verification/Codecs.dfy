/**
 A codec that meets `FaithfulCodec`, so that nothing proved under it is empty.

 Numbers are written in unary, strings and collections with their length in front, and objects in
 the order in which their keys happen to be chosen.
 */
module Codecs {
  import opened Identity
  import opened Metadata

  // ----- writing -----

  function Nat(n: nat): seq<Byte> {
    if n == 0 then [0] else [1] + Nat(n - 1)
  }

  function Int(i: int): seq<Byte> {
    if i < 0 then Nat(1) + Nat(-i) else Nat(0) + Nat(i)
  }

  function Chars(s: string): seq<Byte> {
    if s == [] then [] else Nat(s[0] as int) + Chars(s[1..])
  }

  function Text(s: string): seq<Byte> {
    Nat(|s|) + Chars(s)
  }

  ghost function Dump(j: Json): seq<Byte>
    decreases j, 1
  {
    match j
    case JNull => Nat(0)
    case JBool(b) => Nat(1) + Nat(if b then 1 else 0)
    case JInt(i) => Nat(2) + Int(i)
    case JFloat(f) => Nat(3) + (Int(f.m) + Int(f.e))
    case JStr(s) => Nat(4) + Text(s)
    case JArr(items) => Nat(5) + (Nat(|items|) + Items(j, 0))
    case JObj(fields) => Nat(6) + (Nat(|fields.Keys|) + Fields(j, fields.Keys))
  }

  ghost function Items(j: Json, i: nat): seq<Byte>
    requires j.JArr? && i <= |j.items|
    decreases j, 0, |j.items| - i
  {
    if i == |j.items| then [] else Dump(j.items[i]) + Items(j, i + 1)
  }

  ghost function Fields(j: Json, ks: set<string>): seq<Byte>
    requires j.JObj? && ks <= j.fields.Keys
    decreases j, 0, |ks|
  {
    if ks == {} then [] else
      var k :| k in ks;
      Text(k) + (Dump(j.fields[k]) + Fields(j, ks - {k}))
  }

  // ----- what is written can be told from what follows -----

  lemma {:induction false} NatSplits(a: nat, x: seq<Byte>, b: nat, y: seq<Byte>)
    requires Nat(a) + x == Nat(b) + y
    ensures a == b && x == y
  {
    var l, r := Nat(a) + x, Nat(b) + y;
    assert l[0] == (if a == 0 then 0 else 1) && r[0] == (if b == 0 then 0 else 1);
    if a == 0 {
      assert x == l[1..] && y == r[1..];
    } else {
      assert l[1..] == Nat(a - 1) + x && r[1..] == Nat(b - 1) + y;
      NatSplits(a - 1, x, b - 1, y);
    }
  }

  lemma IntSplits(a: int, x: seq<Byte>, b: int, y: seq<Byte>)
    requires Int(a) + x == Int(b) + y
    ensures a == b && x == y
  {
    hide Nat;
    var sa, sb, na, nb := if a < 0 then 1 else 0, if b < 0 then 1 else 0, if a < 0 then -a else a, if b < 0 then -b else b;
    assert Int(a) + x == Nat(sa) + (Nat(na) + x) && Int(b) + y == Nat(sb) + (Nat(nb) + y);
    NatSplits(sa, Nat(na) + x, sb, Nat(nb) + y);
    NatSplits(na, x, nb, y);
  }

  lemma {:induction false} CharsSplit(a: string, x: seq<Byte>, b: string, y: seq<Byte>)
    requires |a| == |b| && Chars(a) + x == Chars(b) + y
    ensures a == b && x == y
  {
    hide Nat;
    if a == [] {
      assert [] + x == x && [] + y == y;
    } else {
      assert Chars(a) + x == Nat(a[0] as int) + (Chars(a[1..]) + x) && Chars(b) + y == Nat(b[0] as int) + (Chars(b[1..]) + y);
      NatSplits(a[0] as int, Chars(a[1..]) + x, b[0] as int, Chars(b[1..]) + y);
      CharsSplit(a[1..], x, b[1..], y);
      assert a == [a[0]] + a[1..] && b == [b[0]] + b[1..];
    }
  }

  lemma TextSplits(a: string, x: seq<Byte>, b: string, y: seq<Byte>)
    requires Text(a) + x == Text(b) + y
    ensures a == b && x == y
  {
    hide Nat, Chars;
    assert Text(a) + x == Nat(|a|) + (Chars(a) + x) && Text(b) + y == Nat(|b|) + (Chars(b) + y);
    NatSplits(|a|, Chars(a) + x, |b|, Chars(b) + y);
    CharsSplit(a, x, b, y);
  }

  function Tag(j: Json): nat {
    match j
    case JNull => 0
    case JBool(_) => 1
    case JInt(_) => 2
    case JFloat(_) => 3
    case JStr(_) => 4
    case JArr(_) => 5
    case JObj(_) => 6
  }

  ghost function Body(j: Json): seq<Byte> {
    match j
    case JNull => []
    case JBool(b) => Nat(if b then 1 else 0)
    case JInt(i) => Int(i)
    case JFloat(f) => Int(f.m) + Int(f.e)
    case JStr(s) => Text(s)
    case JArr(items) => Nat(|items|) + Items(j, 0)
    case JObj(fields) => Nat(|fields.Keys|) + Fields(j, fields.Keys)
  }

  lemma DumpIsTagged(j: Json)
    ensures Dump(j) == Nat(Tag(j)) + Body(j)
  {}

  lemma {:induction false} DumpSplits(a: Json, x: seq<Byte>, b: Json, y: seq<Byte>)
    requires Dump(a) + x == Dump(b) + y
    ensures a == b && x == y
    decreases a, 1
  {
    hide Nat, Int, Text, Dump, Items, Fields;
    DumpIsTagged(a);
    DumpIsTagged(b);
    assert Dump(a) + x == Nat(Tag(a)) + (Body(a) + x) && Dump(b) + y == Nat(Tag(b)) + (Body(b) + y);
    NatSplits(Tag(a), Body(a) + x, Tag(b), Body(b) + y);
    match a
    case JNull => assert [] + x == x && [] + y == y;
    case JBool(p) => NatSplits(if p then 1 else 0, x, if b.b then 1 else 0, y);
    case JInt(i) => IntSplits(i, x, b.i, y);
    case JFloat(f) =>
      assert Body(a) + x == Int(f.m) + (Int(f.e) + x) && Body(b) + y == Int(b.f.m) + (Int(b.f.e) + y);
      IntSplits(f.m, Int(f.e) + x, b.f.m, Int(b.f.e) + y);
      IntSplits(f.e, x, b.f.e, y);
    case JStr(s) => TextSplits(s, x, b.s, y);
    case JArr(items) =>
      assert Body(a) + x == Nat(|items|) + (Items(a, 0) + x) && Body(b) + y == Nat(|b.items|) + (Items(b, 0) + y);
      NatSplits(|items|, Items(a, 0) + x, |b.items|, Items(b, 0) + y);
      ItemsSplit(a, b, 0, x, y);
    case JObj(fields) =>
      assert Body(a) + x == Nat(|fields.Keys|) + (Fields(a, fields.Keys) + x) && Body(b) + y == Nat(|b.fields.Keys|) + (Fields(b, b.fields.Keys) + y);
      NatSplits(|fields.Keys|, Fields(a, fields.Keys) + x, |b.fields.Keys|, Fields(b, b.fields.Keys) + y);
      FieldsSplit(a, fields.Keys, x, b, b.fields.Keys, y);
  }

  lemma {:induction false} ItemsSplit(a: Json, b: Json, i: nat, x: seq<Byte>, y: seq<Byte>)
    requires a.JArr? && b.JArr? && |a.items| == |b.items| && i <= |a.items|
    requires Items(a, i) + x == Items(b, i) + y
    ensures a.items[i..] == b.items[i..] && x == y
    decreases a, 0, |a.items| - i
  {
    hide Dump;
    if i == |a.items| {
      assert [] + x == x && [] + y == y;
    } else {
      assert Items(a, i) + x == Dump(a.items[i]) + (Items(a, i + 1) + x) && Items(b, i) + y == Dump(b.items[i]) + (Items(b, i + 1) + y);
      DumpSplits(a.items[i], Items(a, i + 1) + x, b.items[i], Items(b, i + 1) + y);
      ItemsSplit(a, b, i + 1, x, y);
      assert a.items[i..] == [a.items[i]] + a.items[i + 1..] && b.items[i..] == [b.items[i]] + b.items[i + 1..];
    }
  }

  /** The key that is written first. */
  lemma FirstField(j: Json, ks: set<string>) returns (k: string)
    requires j.JObj? && ks <= j.fields.Keys && ks != {}
    ensures k in ks && Fields(j, ks) == Text(k) + (Dump(j.fields[k]) + Fields(j, ks - {k}))
  {
    hide Text, Dump;
    k :| k in ks && Fields(j, ks) == Text(k) + (Dump(j.fields[k]) + Fields(j, ks - {k}));
  }

  lemma NoFields(j: Json)
    requires j.JObj?
    ensures Fields(j, {}) == []
  {}

  lemma {:induction false} FieldsSplit(a: Json, ks: set<string>, x: seq<Byte>, b: Json, ls: set<string>, y: seq<Byte>)
    requires a.JObj? && b.JObj? && ks <= a.fields.Keys && ls <= b.fields.Keys && |ks| == |ls|
    requires Fields(a, ks) + x == Fields(b, ls) + y
    ensures ks == ls && x == y && forall k :: k in ks ==> a.fields[k] == b.fields[k]
    decreases a, 0, |ks|
  {
    hide Text, Dump, Fields;
    if ks == {} {
      NoFields(a);
      NoFields(b);
      assert [] + x == x && [] + y == y;
    } else {
      var k := FirstField(a, ks);
      var l := FirstField(b, ls);
      Regroup(Text(k), Dump(a.fields[k]), Fields(a, ks - {k}), x);
      Regroup(Text(l), Dump(b.fields[l]), Fields(b, ls - {l}), y);
      TextSplits(k, Dump(a.fields[k]) + (Fields(a, ks - {k}) + x), l, Dump(b.fields[l]) + (Fields(b, ls - {l}) + y));
      DumpSplits(a.fields[k], Fields(a, ks - {k}) + x, b.fields[l], Fields(b, ls - {l}) + y);
      FieldsSplit(a, ks - {k}, x, b, ls - {l}, y);
      assert ks == (ks - {k}) + {k} && ls == (ls - {l}) + {l};
    }
  }

  lemma Regroup(p: seq<Byte>, q: seq<Byte>, r: seq<Byte>, x: seq<Byte>)
    ensures p + (q + r) + x == p + (q + (r + x))
  {}

  lemma DumpInjective(a: Json, b: Json)
    requires Dump(a) == Dump(b)
    ensures a == b
  {
    assert Dump(a) + [] == Dump(b) + [];
    DumpSplits(a, [], b, []);
  }

  // ----- reading back -----

  ghost function Load(bytes: seq<Byte>): Option<Json> {
    if j: Json :| Dump(j) == bytes then Some(j) else None
  }

  function KeyItems(k: BlockKey): seq<Json> {
    [JStr(k.tenantId), JStr(k.modelId), JStr(k.modelRevision), JStr(k.tokenizerRevision), JStr(k.blockHash), JStr(k.loraId), JStr(k.modalityKey)]
  }

  function Ints(s: seq<int>): (r: seq<Json>)
    ensures |r| == |s| && forall i :: 0 <= i < |s| ==> r[i] == JInt(s[i])
  {
    seq(|s|, i requires 0 <= i < |s| => JInt(s[i]))
  }

  function MetaItems(m: KVMetadata): seq<Json> {
    [JArr(KeyItems(m.key)), JStr(m.dtype), JInt(m.numLayers), JInt(m.numKvHeads), JInt(m.headDim), JInt(m.tokens), JInt(m.bytes),
     JArr(Ints(m.shape)), JStr(m.checksum), JStr(m.checksumAlgo), JInt(m.createdAt), JInt(m.lastAccess), JInt(m.reuseCount), m.extra]
  }

  function ToDict(m: KVMetadata): Json {
    JObj(map["metadata" := JArr(MetaItems(m))])
  }

  lemma KeyItemsInjective(a: BlockKey, b: BlockKey)
    requires KeyItems(a) == KeyItems(b)
    ensures a == b
  {
    var k, l := KeyItems(a), KeyItems(b);
    assert forall i :: 0 <= i < 7 ==> k[i].s == l[i].s;
    assert a == BlockKey(k[0].s, k[1].s, k[2].s, k[3].s, k[4].s, k[5].s, k[6].s);
    assert b == BlockKey(l[0].s, l[1].s, l[2].s, l[3].s, l[4].s, l[5].s, l[6].s);
  }

  lemma IntsInjective(a: seq<int>, b: seq<int>)
    requires Ints(a) == Ints(b)
    ensures a == b
  {
    assert forall i :: 0 <= i < |a| ==> Ints(a)[i] == Ints(b)[i];
  }

  lemma ToDictInjective(a: KVMetadata, b: KVMetadata)
    requires ToDict(a) == ToDict(b)
    ensures a == b
  {
    hide KeyItems;
    var x, y := MetaItems(a), MetaItems(b);
    assert ToDict(a).fields["metadata"] == ToDict(b).fields["metadata"];
    assert forall i :: 0 <= i < 14 ==> x[i] == y[i];
    assert x[0].items == KeyItems(a.key) && y[0].items == KeyItems(b.key);
    KeyItemsInjective(a.key, b.key);
    assert x[7].items == Ints(a.shape) && y[7].items == Ints(b.shape);
    IntsInjective(a.shape, b.shape);
    assert a == KVMetadata(a.key, x[1].s, x[2].i, x[3].i, x[4].i, x[5].i, x[6].i, a.shape, x[8].s, x[9].s, x[10].i, x[11].i, x[12].i, x[13]);
    assert b == KVMetadata(b.key, y[1].s, y[2].i, y[3].i, y[4].i, y[5].i, y[6].i, b.shape, y[8].s, y[9].s, y[10].i, y[11].i, y[12].i, y[13]);
  }

  ghost function FromDict(j: Json): Option<KVMetadata> {
    if m: KVMetadata :| ToDict(m) == j then Some(m) else None
  }

  function Digest(data: seq<Byte>): string {
    seq(64, i => '0')
  }

  /** The laws can be met. */
  lemma FaithfulCodecExists() returns (c: Codec)
    ensures FaithfulCodec(c)
  {
    hide Dump, MetaItems;
    c := Codec((j: Json) => Dump(j), (b: seq<Byte>) => Load(b), (m: KVMetadata) => ToDict(m), (j: Json) => FromDict(j), (d: seq<Byte>) => Digest(d));
    forall j: Json ensures c.loads(c.dumps(j)) == Some(j) {
      var k :| Load(Dump(j)) == Some(k) && Dump(k) == Dump(j);
      DumpInjective(k, j);
    }
    forall m: KVMetadata ensures c.toDict(m).JObj? && c.fromDict(c.toDict(m)) == Some(m) {
      var n :| FromDict(ToDict(m)) == Some(n) && ToDict(n) == ToDict(m);
      ToDictInjective(n, m);
    }
  }
}
