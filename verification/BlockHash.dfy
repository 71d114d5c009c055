/**
 The namespace-isolated hash chain over blocks of tokens.

 Strings are byte sequences with lengths that fit a machine word. The digest (SHA-256, written in
 hexadecimal) is a parameter; what is assumed of it is said where it is used.
 */
module BlockHash {
  import opened Identity
  import opened Record

  const WORD := 0x1_0000_0000_0000_0000

  type Word = x: int | 0 <= x < WORD
  type Str = s: seq<Byte> | |s| < 0x8000_0000_0000_0000
  type Tokens = s: seq<Word> | |s| < 0x8000_0000_0000_0000
  type Digest = seq<Byte> -> Str

  function Zeros(n: nat): (r: seq<Byte>)
    ensures |r| == n
  {
    if n == 0 then [] else Zeros(n - 1) + ['0' as int]
  }

  /** Sixty-four times the digit zero stands for "no parent". */
  const EMPTY_PARENT: Str := Zeros(64)

  datatype IsolationKey = IsolationKey(
    tenantId: Str,
    tenantSalt: Str,
    modelId: Str,
    modelRevision: Str,
    tokenizerRevision: Str,
    loraId: Str,
    modalityKey: Str,
    cacheSalt: Str)

  // ----- serialization -----

  function WriteUint64(n: Word): (r: seq<Byte>)
    ensures |r| == 8
  {
    BigEndian32(n / 0x1_0000_0000) + BigEndian32(n % 0x1_0000_0000)
  }

  lemma WriteUint64Injective(a: Word, b: Word)
    requires WriteUint64(a) == WriteUint64(b)
    ensures a == b
  {
    var ah, al, bh, bl := a / 0x1_0000_0000, a % 0x1_0000_0000, b / 0x1_0000_0000, b % 0x1_0000_0000;
    assert BigEndian32(ah) == WriteUint64(a)[..4] && BigEndian32(bh) == WriteUint64(b)[..4];
    assert BigEndian32(al) == WriteUint64(a)[4..] && BigEndian32(bl) == WriteUint64(b)[4..];
    BigEndian32RoundTrip(ah);
    BigEndian32RoundTrip(al);
    BigEndian32RoundTrip(bh);
    BigEndian32RoundTrip(bl);
  }

  function WriteString(s: Str): seq<Byte> {
    WriteUint64(|s|) + s
  }

  function WriteStrings(ss: seq<Str>): seq<Byte> {
    if ss == [] then [] else WriteString(ss[0]) + WriteStrings(ss[1..])
  }

  function WriteWords(ws: seq<Word>): seq<Byte> {
    if ws == [] then [] else WriteUint64(ws[0]) + WriteWords(ws[1..])
  }

  /** A length-prefixed string can be told from what follows it. */
  lemma StringsSplit(a: Str, x: seq<Byte>, b: Str, y: seq<Byte>)
    requires WriteString(a) + x == WriteString(b) + y
    ensures a == b && x == y
  {
    var l, r := WriteString(a) + x, WriteString(b) + y;
    assert WriteUint64(|a|) == l[..8] && WriteUint64(|b|) == r[..8];
    WriteUint64Injective(|a|, |b|);
    assert a == l[8..8 + |a|] && b == r[8..8 + |b|];
    assert x == l[8 + |a|..] && y == r[8 + |b|..];
  }

  lemma {:induction false} StringListsSplit(a: seq<Str>, x: seq<Byte>, b: seq<Str>, y: seq<Byte>)
    requires |a| == |b| && WriteStrings(a) + x == WriteStrings(b) + y
    ensures a == b && x == y
  {
    hide WriteString;
    if a == [] {
      assert [] + x == x && [] + y == y;
    } else {
      assert WriteStrings(a) + x == WriteString(a[0]) + (WriteStrings(a[1..]) + x);
      assert WriteStrings(b) + y == WriteString(b[0]) + (WriteStrings(b[1..]) + y);
      StringsSplit(a[0], WriteStrings(a[1..]) + x, b[0], WriteStrings(b[1..]) + y);
      StringListsSplit(a[1..], x, b[1..], y);
      assert a == [a[0]] + a[1..] && b == [b[0]] + b[1..];
    }
  }

  lemma {:induction false} WriteWordsInjective(a: seq<Word>, b: seq<Word>)
    requires |a| == |b| && WriteWords(a) == WriteWords(b)
    ensures a == b
  {
    hide WriteUint64;
    if a != [] {
      assert WriteUint64(a[0]) == WriteWords(a)[..8] && WriteUint64(b[0]) == WriteWords(b)[..8];
      assert WriteWords(a[1..]) == WriteWords(a)[8..] && WriteWords(b[1..]) == WriteWords(b)[8..];
      WriteUint64Injective(a[0], b[0]);
      WriteWordsInjective(a[1..], b[1..]);
      assert a == [a[0]] + a[1..] && b == [b[0]] + b[1..];
    }
  }

  function Fields(parent: Str, key: IsolationKey): seq<Str> {
    [parent, key.tenantId, key.tenantSalt, key.modelId, key.modelRevision,
     key.tokenizerRevision, key.loraId, key.modalityKey, key.cacheSalt]
  }

  /** What is hashed for one block. */
  function Message(parent: Str, block: Tokens, key: IsolationKey): seq<Byte> {
    WriteStrings(Fields(parent, key)) + (WriteUint64(|block|) + WriteWords(block))
  }

  /** Parent, block and key can be read back from the message. */
  lemma MessageInjective(p: Str, a: Tokens, k: IsolationKey, q: Str, b: Tokens, l: IsolationKey)
    requires Message(p, a, k) == Message(q, b, l)
    ensures p == q && a == b && k == l
  {
    hide WriteStrings, WriteWords, WriteUint64;
    var f, g := Fields(p, k), Fields(q, l);
    StringListsSplit(f, WriteUint64(|a|) + WriteWords(a), g, WriteUint64(|b|) + WriteWords(b));
    assert forall i :: 0 <= i < 9 ==> f[i] == g[i];
    assert f[0] == p && g[0] == q;
    assert k == IsolationKey(f[1], f[2], f[3], f[4], f[5], f[6], f[7], f[8]);
    assert l == IsolationKey(g[1], g[2], g[3], g[4], g[5], g[6], g[7], g[8]);
    var x, y := WriteUint64(|a|) + WriteWords(a), WriteUint64(|b|) + WriteWords(b);
    assert WriteUint64(|a|) == x[..8] && WriteUint64(|b|) == y[..8];
    WriteUint64Injective(|a|, |b|);
    assert WriteWords(a) == x[8..] && WriteWords(b) == y[8..];
    WriteWordsInjective(a, b);
  }

  lemma {:induction false} OneMoreWord(ws: seq<Word>, w: Word)
    ensures WriteWords(ws + [w]) == WriteWords(ws) + WriteUint64(w)
  {
    hide WriteUint64;
    if ws == [] {
      assert [] + [w] == [w] && WriteWords([w]) == WriteUint64(w) + WriteWords([]);
    } else {
      assert (ws + [w])[1..] == ws[1..] + [w];
      OneMoreWord(ws[1..], w);
    }
  }

  lemma {:induction false} OneMoreString(ss: seq<Str>, s: Str)
    ensures WriteStrings(ss + [s]) == WriteStrings(ss) + WriteString(s)
  {
    hide WriteString;
    if ss == [] {
      assert [] + [s] == [s] && WriteStrings([s]) == WriteString(s) + WriteStrings([]);
    } else {
      assert (ss + [s])[1..] == ss[1..] + [s];
      OneMoreString(ss[1..], s);
    }
  }

  /** Write parent, key and tokens into a running hasher, piece by piece. */
  method ComputeOne(parent: Str, block: Tokens, key: IsolationKey, digest: Digest) returns (hash: Str)
    ensures hash == digest(Message(parent, block, key))
  {
    hide WriteStrings, WriteWords, WriteUint64, WriteString;
    var fields := Fields(parent, key);
    var written: seq<Byte> := [];
    assert WriteStrings([]) == [] && WriteWords([]) == [] by { NothingWritten(); }
    assert fields[..0] == [] && block[..0] == [];
    for i := 0 to |fields|
      invariant written == WriteStrings(fields[..i])
    {
      OneMoreString(fields[..i], fields[i]);
      assert fields[..i + 1] == fields[..i] + [fields[i]];
      written := written + WriteString(fields[i]);
    }
    assert fields[..|fields|] == fields;
    ghost var head := WriteStrings(fields) + WriteUint64(|block|);
    written := written + WriteUint64(|block|);
    for i := 0 to |block|
      invariant written == head + WriteWords(block[..i])
    {
      OneMoreWord(block[..i], block[i]);
      assert block[..i + 1] == block[..i] + [block[i]];
      written := written + WriteUint64(block[i]);
    }
    assert block[..|block|] == block;
    assert head + WriteWords(block) == WriteStrings(fields) + (WriteUint64(|block|) + WriteWords(block));
    hash := digest(written);
  }

  lemma NothingWritten()
    ensures WriteStrings([]) == [] && WriteWords([]) == []
  {}

  // ----- the chain -----

  /** A token list, its namespace and the block size. */
  datatype Input = Input(tokens: Tokens, key: IsolationKey, size: nat)

  ghost predicate Usable(input: Input) { input.size > 0 }

  /** Where block `i` starts, and where it ends: the last one may be short. */
  function Start(input: Input, i: nat): nat {
    if i == 0 then 0 else Start(input, i - 1) + input.size
  }

  function End(input: Input, i: nat): nat {
    if Start(input, i) + input.size <= |input.tokens| then Start(input, i) + input.size else |input.tokens|
  }

  predicate HasBlock(input: Input, i: nat) { Start(input, i) < |input.tokens| }

  predicate IsFull(input: Input, i: nat) { Start(input, i) + input.size <= |input.tokens| }

  function Block(input: Input, i: nat): Tokens
    requires HasBlock(input, i)
  {
    input.tokens[Start(input, i)..End(input, i)]
  }

  lemma {:induction false} BlocksInOrder(input: Input, i: nat, j: nat)
    requires i <= j
    ensures Start(input, i) <= Start(input, j)
    ensures HasBlock(input, j) ==> HasBlock(input, i)
    ensures i < j ==> Start(input, i) + input.size <= Start(input, j)
    decreases j
  {
    if i < j {
      BlocksInOrder(input, i, j - 1);
    }
  }

  function Parent(input: Input, digest: Digest, i: nat): Str
    requires i > 0 ==> HasBlock(input, i - 1)
    decreases i, 0
  {
    if i == 0 then EMPTY_PARENT else Hash(input, digest, i - 1)
  }

  function MessageAt(input: Input, digest: Digest, i: nat): seq<Byte>
    requires HasBlock(input, i)
    decreases i, 1
  {
    BlocksInOrder(input, if i == 0 then 0 else i - 1, i);
    Message(Parent(input, digest, i), Block(input, i), input.key)
  }

  function Hash(input: Input, digest: Digest, i: nat): Str
    requires HasBlock(input, i)
    decreases i, 2
  {
    digest(MessageAt(input, digest, i))
  }

  lemma NextHash(input: Input, digest: Digest, i: nat, start: nat, end: nat)
    requires HasBlock(input, i) && start == Start(input, i)
    requires end == if start + input.size > |input.tokens| then |input.tokens| else start + input.size
    requires i > 0 ==> HasBlock(input, i - 1)
    ensures Hash(input, digest, i) == digest(Message(Parent(input, digest, i), input.tokens[start..end], input.key))
    ensures Parent(input, digest, i + 1) == Hash(input, digest, i)
  {
    hide Message;
  }

  /** Walk over the tokens, block by block, with the last hash as the next parent. */
  method ComputeBlocks(input: Input, digest: Digest) returns (out: seq<Str>)
    requires Usable(input)
    ensures forall i :: 0 <= i < |out| ==> HasBlock(input, i) && out[i] == Hash(input, digest, i)
    ensures !HasBlock(input, |out|)
  {
    hide Message, Hash;
    var parent, start := EMPTY_PARENT, 0;
    out := [];
    while start < |input.tokens|
      invariant start == Start(input, |out|)
      invariant |out| > 0 ==> HasBlock(input, |out| - 1)
      invariant parent == Parent(input, digest, |out|)
      invariant forall i :: 0 <= i < |out| ==> HasBlock(input, i) && out[i] == Hash(input, digest, i)
      decreases |input.tokens| - start
    {
      var end := if start + input.size > |input.tokens| then |input.tokens| else start + input.size;
      NextHash(input, digest, |out|, start, end);
      parent := ComputeOne(parent, input.tokens[start..end], input.key, digest);
      out := out + [parent];
      start := start + input.size;
    }
  }

  // ----- prefix stability -----

  /** The hashes of all full blocks stay as they are when the token list is extended. */
  lemma {:induction false} ExtensionKeepsHashes(input: Input, longer: Input, digest: Digest, i: nat)
    requires Usable(input) && longer.key == input.key && longer.size == input.size && input.tokens <= longer.tokens
    requires IsFull(input, i)
    ensures HasBlock(input, i) && HasBlock(longer, i) && Hash(longer, digest, i) == Hash(input, digest, i)
  {
    hide Message;
    SameStarts(input, longer, i);
    assert HasBlock(input, i) && HasBlock(longer, i) && Block(longer, i) == Block(input, i);
    if i > 0 {
      BlocksInOrder(input, i - 1, i);
      BlocksInOrder(longer, i - 1, i);
      ExtensionKeepsHashes(input, longer, digest, i - 1);
    }
    assert Parent(longer, digest, i) == Parent(input, digest, i);
    assert MessageAt(longer, digest, i) == MessageAt(input, digest, i);
  }

  lemma {:induction false} SameStarts(a: Input, b: Input, i: nat)
    requires a.size == b.size
    ensures Start(a, i) == Start(b, i)
  {
    if i > 0 {
      SameStarts(a, b, i - 1);
    }
  }

  // ----- identity -----

  ghost predicate Used(input: Input, digest: Digest, m: seq<Byte>) {
    exists i: nat :: HasBlock(input, i) && m == MessageAt(input, digest, i)
  }

  /** No two of the messages that the two chains hash collide. */
  ghost predicate CollisionFree(a: Input, b: Input, digest: Digest) {
    forall m, n :: (Used(a, digest, m) || Used(b, digest, m)) && (Used(a, digest, n) || Used(b, digest, n)) && digest(m) == digest(n) ==> m == n
  }

  /** None of them hashes to the string that stands for "no parent". */
  ghost predicate NeverEmpty(a: Input, b: Input, digest: Digest) {
    forall m :: Used(a, digest, m) || Used(b, digest, m) ==> digest(m) != EMPTY_PARENT
  }

  lemma EqualHashesSplit(a: Input, b: Input, digest: Digest, i: nat, j: nat)
    requires CollisionFree(a, b, digest) && HasBlock(a, i) && HasBlock(b, j)
    requires Hash(a, digest, i) == Hash(b, digest, j)
    ensures (i > 0 ==> HasBlock(a, i - 1)) && (j > 0 ==> HasBlock(b, j - 1))
    ensures Parent(a, digest, i) == Parent(b, digest, j)
    ensures Block(a, i) == Block(b, j) && a.key == b.key
  {
    hide Message;
    BlocksInOrder(a, if i == 0 then 0 else i - 1, i);
    BlocksInOrder(b, if j == 0 then 0 else j - 1, j);
    assert Used(a, digest, MessageAt(a, digest, i)) && Used(b, digest, MessageAt(b, digest, j));
    MessageInjective(Parent(a, digest, i), Block(a, i), a.key, Parent(b, digest, j), Block(b, j), b.key);
  }

  /**
   Equal hashes mean equal namespaces, equal positions and equal tokens up to the end of the block,
   also between chains with different block sizes.
   */
  lemma {:induction false} EqualHashesMeanEqualPrefixes(a: Input, b: Input, digest: Digest, i: nat, j: nat)
    requires CollisionFree(a, b, digest) && (i == j || NeverEmpty(a, b, digest))
    requires HasBlock(a, i) && HasBlock(b, j) && Hash(a, digest, i) == Hash(b, digest, j)
    ensures i == j && a.key == b.key
    ensures a.tokens[..End(a, i)] == b.tokens[..End(b, j)]
    decreases i
  {
    hide MessageAt, CollisionFree, NeverEmpty, Hash;
    EqualHashesSplit(a, b, digest, i, j);
    if i == 0 || j == 0 {
      SameRoot(a, b, digest, i, j);
      assert a.tokens[..End(a, 0)] == Block(a, 0) && b.tokens[..End(b, 0)] == Block(b, 0);
    } else {
      EqualHashesMeanEqualPrefixes(a, b, digest, i - 1, j - 1);
      PrefixGrows(a, i);
      PrefixGrows(b, j);
    }
  }

  /** The first block of a chain is not the continuation of another. */
  lemma SameRoot(a: Input, b: Input, digest: Digest, i: nat, j: nat)
    requires (i == j || NeverEmpty(a, b, digest)) && (i == 0 || j == 0)
    requires (i > 0 ==> HasBlock(a, i - 1)) && (j > 0 ==> HasBlock(b, j - 1))
    requires Parent(a, digest, i) == Parent(b, digest, j)
    ensures i == 0 && j == 0
  {
    hide Hash, NeverEmpty;
    if i != j {
      HashesAreNoRoots(a, b, digest, a, i);
      HashesAreNoRoots(a, b, digest, b, j);
    }
  }

  lemma HashesAreNoRoots(a: Input, b: Input, digest: Digest, c: Input, i: nat)
    requires NeverEmpty(a, b, digest) && (c == a || c == b) && (i > 0 ==> HasBlock(c, i - 1))
    ensures i > 0 ==> Parent(c, digest, i) != EMPTY_PARENT
  {
    hide Message, MessageAt;
    if i > 0 {
      assert Used(c, digest, MessageAt(c, digest, i - 1));
    }
  }

  lemma PrefixGrows(a: Input, i: nat)
    requires i > 0 && HasBlock(a, i)
    ensures HasBlock(a, i - 1) && a.tokens[..End(a, i)] == a.tokens[..End(a, i - 1)] + Block(a, i)
  {
    BlocksInOrder(a, i - 1, i);
    assert End(a, i - 1) == Start(a, i);
  }
}
