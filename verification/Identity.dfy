/**
 Block identity: which strings name a block, and why two valid keys never share a name.

 A `BlockKey` is turned into two names. The relational store files it under a JSON array
 (`Namespace`) next to the block hash; the file and object tiers file it under a list of
 path components built from unpadded base64url. The theorems at the end say that both
 renderings are injective on valid keys, and that no component can escape its directory.
 */
module Identity {
  type Byte = x: int | 0 <= x < 256

  const MAX_IDENTITY_COMPONENT_BYTES := 128

  datatype BlockKey = BlockKey(
    tenantId: string,
    modelId: string,
    modelRevision: string,
    tokenizerRevision: string,
    blockHash: string,
    loraId: string,
    modalityKey: string)

  // ----- validity -----

  predicate IsLowerHex(s: string) {
    forall i :: 0 <= i < |s| ==> '0' <= s[i] <= '9' || 'a' <= s[i] <= 'f'
  }

  predicate IsSha256Hex(s: string) {
    |s| == 64 && IsLowerHex(s)
  }

  predicate HasControl(s: string) {
    exists i :: 0 <= i < |s| && (s[i] as int < 32 || s[i] as int == 127)
  }

  predicate ValidComponent(value: string, allowEmpty: bool) {
    && (allowEmpty || value != "")
    && |Utf8(value)| <= MAX_IDENTITY_COMPONENT_BYTES
    && !HasControl(value)
  }

  /** What the constructor of a block key accepts. */
  predicate ValidKey(k: BlockKey) {
    && ValidComponent(k.tenantId, false)
    && ValidComponent(k.modelId, false)
    && ValidComponent(k.modelRevision, false)
    && ValidComponent(k.tokenizerRevision, false)
    && ValidComponent(k.loraId, true)
    && ValidComponent(k.modalityKey, true)
    && IsSha256Hex(k.blockHash)
  }

  // ----- UTF-8 -----

  function Utf8Char(c: char): seq<Byte> {
    var n := c as int;
    if n < 0x80 then [n]
    else if n < 0x800 then [0xC0 + n / 64, 0x80 + n % 64]
    else if n < 0x10000 then [0xE0 + n / 4096, 0x80 + n / 64 % 64, 0x80 + n % 64]
    else [0xF0 + n / 262144, 0x80 + n / 4096 % 64, 0x80 + n / 64 % 64, 0x80 + n % 64]
  }

  function Utf8(s: string): seq<Byte> {
    if s == "" then [] else Utf8Char(s[0]) + Utf8(s[1..])
  }

  /** The code point that a well-formed byte group stands for; a left inverse of `Utf8Char`. */
  function Utf8Value(bs: seq<Byte>): int {
    var at: int -> int := i => if 0 <= i < |bs| then bs[i] as int else 0;
    if |bs| == 1 then at(0)
    else if |bs| == 2 then (at(0) - 0xC0) * 64 + at(1) - 0x80
    else if |bs| == 3 then (at(0) - 0xE0) * 4096 + (at(1) - 0x80) * 64 + at(2) - 0x80
    else (at(0) - 0xF0) * 262144 + (at(1) - 0x80) * 4096 + (at(2) - 0x80) * 64 + at(3) - 0x80
  }

  function Utf8Width(lead: Byte): int {
    if lead < 0x80 then 1 else if lead < 0xE0 then 2 else if lead < 0xF0 then 3 else 4
  }

  lemma Utf8CharDecodes(c: char)
    ensures |Utf8Char(c)| == Utf8Width(Utf8Char(c)[0])
    ensures Utf8Value(Utf8Char(c)) == c as int
  {
    var n := c as int;
    assert n == n / 64 * 64 + n % 64;
    assert n / 64 == n / 64 / 64 * 64 + n / 64 % 64;
    assert n / 64 / 64 == n / 4096;
    assert n / 4096 == n / 4096 / 64 * 64 + n / 4096 % 64;
    assert n / 4096 / 64 == n / 262144;
  }

  /** The lead byte fixes the length of a code point, so the encoding is prefix-free. */
  lemma Utf8CharPrefixFree(c: char, d: char, x: seq<Byte>, y: seq<Byte>)
    requires Utf8Char(c) + x == Utf8Char(d) + y
    ensures c == d && x == y
  {
    Utf8CharDecodes(c);
    Utf8CharDecodes(d);
    SplitEqual(Utf8Char(c), Utf8Char(d), x, y);
  }

  lemma SplitEqual(a: seq<Byte>, b: seq<Byte>, x: seq<Byte>, y: seq<Byte>)
    requires a + x == b + y && a != [] && b != []
    requires a[0] == b[0] ==> |a| == |b|
    ensures a == b && x == y
  {
    assert (a + x)[0] == (b + y)[0];
    assert a == (a + x)[..|a|] && b == (b + y)[..|b|];
    assert x == (a + x)[|a|..] && y == (b + y)[|b|..];
  }

  lemma {:induction false} Utf8Injective(a: string, b: string)
    requires Utf8(a) == Utf8(b)
    ensures a == b
  {
    if a == "" || b == "" {
      assert a == b;
    } else {
      Utf8CharPrefixFree(a[0], b[0], Utf8(a[1..]), Utf8(b[1..]));
      Utf8Injective(a[1..], b[1..]);
      assert a == [a[0]] + a[1..] && b == [b[0]] + b[1..];
    }
  }

  // ----- base64url (section 5 of RFC 4648) -----

  function Alphabet(n: int): char
    requires 0 <= n < 64
  {
    if n < 26 then ('A' as int + n) as char
    else if n < 52 then ('a' as int + n - 26) as char
    else if n < 62 then ('0' as int + n - 52) as char
    else if n == 62 then '-'
    else '_'
  }

  predicate InAlphabet(c: char) {
    'A' <= c <= 'Z' || 'a' <= c <= 'z' || '0' <= c <= '9' || c == '-' || c == '_'
  }

  /** Three bytes as four digits. */
  function Group(x: Byte, y: Byte, z: Byte): string {
    [Alphabet(x / 4), Alphabet(x % 4 * 16 + y / 16), Alphabet(y % 16 * 4 + z / 64), Alphabet(z % 64)]
  }

  /** The digits of the encoding, before padding. A short last group is filled up with zero bits. */
  function Base64Digits(bs: seq<Byte>): (r: string)
    ensures forall i :: 0 <= i < |r| ==> InAlphabet(r[i])
  {
    if |bs| == 0 then ""
    else if |bs| == 1 then Group(bs[0], 0, 0)[..2]
    else if |bs| == 2 then Group(bs[0], bs[1], 0)[..3]
    else Group(bs[0], bs[1], bs[2]) + Base64Digits(bs[3..])
  }

  function Base64Padded(bs: seq<Byte>): string {
    Base64Digits(bs) + (if |bs| % 3 == 1 then "==" else if |bs| % 3 == 2 then "=" else "")
  }

  function StripRight(s: string, c: char): string {
    if s != "" && s[|s| - 1] == c then StripRight(s[..|s| - 1], c) else s
  }

  lemma StripRightOfSuffix(s: string, pad: string)
    requires forall i :: 0 <= i < |s| ==> s[i] != '='
    requires forall i :: 0 <= i < |pad| ==> pad[i] == '='
    ensures StripRight(s + pad, '=') == s
  {
    if pad == "" {
      assert s + pad == s;
    } else {
      assert (s + pad)[..|s + pad| - 1] == s + pad[..|pad| - 1];
      StripRightOfSuffix(s, pad[..|pad| - 1]);
    }
  }

  lemma AlphabetInjective(m: int, n: int)
    requires 0 <= m < 64 && 0 <= n < 64 && Alphabet(m) == Alphabet(n)
    ensures m == n
  {}

  /** How a decoder puts the three bytes of a group back together from its four digits. */
  lemma BytesFromDigits(x: Byte, y: Byte, z: Byte)
    ensures x == x / 4 * 4 + (x % 4 * 16 + y / 16) / 16
    ensures y == (x % 4 * 16 + y / 16) % 16 * 16 + (y % 16 * 4 + z / 64) / 4
    ensures z == (y % 16 * 4 + z / 64) % 4 * 64 + z % 64
  {}

  lemma GroupInjective(x: Byte, y: Byte, z: Byte, u: Byte, v: Byte, w: Byte)
    requires Group(x, y, z) == Group(u, v, w)
    ensures x == u && y == v && z == w
  {
    var g, h := Group(x, y, z), Group(u, v, w);
    assert g[0] == h[0] && g[1] == h[1] && g[2] == h[2] && g[3] == h[3];
    AlphabetInjective(x / 4, u / 4);
    AlphabetInjective(x % 4 * 16 + y / 16, u % 4 * 16 + v / 16);
    AlphabetInjective(y % 16 * 4 + z / 64, v % 16 * 4 + w / 64);
    AlphabetInjective(z % 64, w % 64);
    BytesFromDigits(x, y, z);
    BytesFromDigits(u, v, w);
  }

  lemma ShortGroupInjective(x: Byte, y: Byte, u: Byte, v: Byte)
    requires Group(x, y, 0)[..3] == Group(u, v, 0)[..3]
    ensures x == u && y == v
  {
    var g, h := Group(x, y, 0), Group(u, v, 0);
    assert g == g[..3] + [Alphabet(0)] && h == h[..3] + [Alphabet(0)];
    GroupInjective(x, y, 0, u, v, 0);
  }

  lemma LoneByteInjective(x: Byte, u: Byte)
    requires Group(x, 0, 0)[..2] == Group(u, 0, 0)[..2]
    ensures x == u
  {
    var g, h := Group(x, 0, 0), Group(u, 0, 0);
    assert g[..3] == g[..2] + [Alphabet(0)] && h[..3] == h[..2] + [Alphabet(0)];
    ShortGroupInjective(x, 0, u, 0);
  }

  lemma {:induction false} Base64DigitsInjective(a: seq<Byte>, b: seq<Byte>)
    requires Base64Digits(a) == Base64Digits(b)
    ensures a == b
  {
    Base64DigitCount(a);
    Base64DigitCount(b);
    assert |a| == |b|;
    if |a| == 1 {
      LoneByteInjective(a[0], b[0]);
    } else if |a| == 2 {
      ShortGroupInjective(a[0], a[1], b[0], b[1]);
    } else if |a| >= 3 {
      var x, y := Base64Digits(a), Base64Digits(b);
      assert x[..4] == Group(a[0], a[1], a[2]) && y[..4] == Group(b[0], b[1], b[2]);
      GroupInjective(a[0], a[1], a[2], b[0], b[1], b[2]);
      assert x[4..] == Base64Digits(a[3..]) && y[4..] == Base64Digits(b[3..]);
      Base64DigitsInjective(a[3..], b[3..]);
      assert a == [a[0], a[1], a[2]] + a[3..] && b == [b[0], b[1], b[2]] + b[3..];
    }
  }

  /** The digit count alone tells how many bytes were encoded. */
  lemma Base64DigitCount(bs: seq<Byte>)
    ensures |Base64Digits(bs)| == |bs| / 3 * 4 + (if |bs| % 3 == 0 then 0 else |bs| % 3 + 1)
  {}

  // ----- path components -----

  function Component(tag: string, value: string): string {
    tag + "-v1-" + StripRight(Base64Padded(Utf8(value)), '=')
  }

  /** The six namespace fields, in the order in which every rendering lists them. */
  function Fields(k: BlockKey): seq<string> {
    [k.tenantId, k.modelId, k.modelRevision, k.tokenizerRevision, k.loraId, k.modalityKey]
  }

  const TAGS := ["tenant", "model", "revision", "tokenizer", "lora", "modality"]

  /** The first two characters, or all there are. */
  function HashPrefix(h: string): string {
    if |h| <= 2 then h else h[..2]
  }

  function NamespaceParts(k: BlockKey): seq<string> {
    seq(6, i requires 0 <= i < 6 => Component(TAGS[i], Fields(k)[i])) + ["hash-v1-" + HashPrefix(k.blockHash)]
  }

  function StorageKeyParts(k: BlockKey): seq<string> {
    NamespaceParts(k) + ["hash-v1-" + k.blockHash + ".kv"]
  }

  lemma ComponentInjective(tag: string, u: string, v: string)
    requires Component(tag, u) == Component(tag, v)
    ensures u == v
  {
    StrippedIsDigits(u);
    StrippedIsDigits(v);
    assert Component(tag, u)[|tag| + 4..] == Base64Digits(Utf8(u));
    assert Component(tag, v)[|tag| + 4..] == Base64Digits(Utf8(v));
    Base64DigitsInjective(Utf8(u), Utf8(v));
    Utf8Injective(u, v);
  }

  lemma StrippedIsDigits(v: string)
    ensures StripRight(Base64Padded(Utf8(v)), '=') == Base64Digits(Utf8(v))
  {
    var bs := Utf8(v);
    StripRightOfSuffix(Base64Digits(bs), Base64Padded(bs)[|Base64Digits(bs)|..]);
  }

  /** A path component that names exactly one directory entry below its parent. */
  predicate SafeComponent(s: string) {
    s != "" && s != "." && s != ".." && '/' !in s
  }

  lemma ConcatIsSafe(a: string, b: string)
    requires |a| > 2 && '/' !in a && '/' !in b
    ensures SafeComponent(a + b)
  {}

  lemma ComponentIsSafe(tag: string, v: string)
    requires '/' !in tag
    ensures SafeComponent(Component(tag, v))
  {
    StrippedIsDigits(v);
    var d := Base64Digits(Utf8(v));
    assert forall i :: 0 <= i < |d| ==> InAlphabet(d[i]);
    ConcatIsSafe(tag + "-v1-", d);
  }

  lemma HashPartIsSafe(hash: string)
    requires IsLowerHex(hash)
    ensures SafeComponent("hash-v1-" + hash)
    ensures SafeComponent("hash-v1-" + hash + ".kv")
  {
    assert forall i :: 0 <= i < |hash| ==> hash[i] != '/';
    ConcatIsSafe("hash-v1-", hash);
    ConcatIsSafe("hash-v1-" + hash, ".kv");
  }

  lemma TagsAreClean(i: int)
    requires 0 <= i < 6
    ensures '/' !in TAGS[i]
  {
    assert '/' !in "tenant" && '/' !in "model" && '/' !in "revision";
    assert '/' !in "tokenizer" && '/' !in "lora" && '/' !in "modality";
  }

  /** Storage paths stay below the root: no component is empty, `.`, `..` or holds a slash. */
  lemma StoragePathsAreSafe(k: BlockKey)
    requires ValidKey(k)
    ensures |StorageKeyParts(k)| == 8
    ensures forall i :: 0 <= i < 8 ==> SafeComponent(StorageKeyParts(k)[i])
  {
    forall i | 0 <= i < 8
      ensures SafeComponent(StorageKeyParts(k)[i])
    {
      if i < 6 {
        TagsAreClean(i);
        ComponentIsSafe(TAGS[i], Fields(k)[i]);
      } else {
        HashPartIsSafe(HashPrefix(k.blockHash));
        HashPartIsSafe(k.blockHash);
      }
    }
  }

  lemma PartsDetermineFields(a: BlockKey, b: BlockKey)
    requires NamespaceParts(a) == NamespaceParts(b)
    ensures a.(blockHash := "") == b.(blockHash := "")
  {
    var f, g := Fields(a), Fields(b);
    forall i | 0 <= i < 6
      ensures f[i] == g[i]
    {
      assert NamespaceParts(a)[i] == NamespaceParts(b)[i];
      ComponentInjective(TAGS[i], f[i], g[i]);
    }
    assert f[0] == g[0] && f[1] == g[1] && f[2] == g[2] && f[3] == g[3] && f[4] == g[4] && f[5] == g[5];
  }

  lemma HashPartInjective(g: string, h: string)
    requires "hash-v1-" + g + ".kv" == "hash-v1-" + h + ".kv"
    ensures g == h
  {
    var l, r := "hash-v1-" + g + ".kv", "hash-v1-" + h + ".kv";
    assert g == l[8..|l| - 3] && h == r[8..|r| - 3];
  }

  /** Distinct keys have distinct storage paths, in the file tier and in the object tier, valid or not. */
  lemma StoragePathInjective(a: BlockKey, b: BlockKey)
    requires StorageKeyParts(a) == StorageKeyParts(b)
    ensures a == b
  {
    var p, q := StorageKeyParts(a), StorageKeyParts(b);
    assert p[..7] == NamespaceParts(a) && q[..7] == NamespaceParts(b);
    assert p[7] == q[7];
    PartsDetermineFields(a, b);
    HashPartInjective(a.blockHash, b.blockHash);
  }

  // ----- the JSON namespace (section 7 of RFC 8259, non-ASCII left as is) -----

  function HexDigit(n: int): char
    requires 0 <= n < 16
  {
    if n < 10 then ('0' as int + n) as char else ('a' as int + n - 10) as char
  }

  function EscapeChar(c: char): string {
    if c == '"' then "\\\""
    else if c == '\\' then "\\\\"
    else if c as int == 8 then "\\b"
    else if c as int == 12 then "\\f"
    else if c == '\n' then "\\n"
    else if c == '\r' then "\\r"
    else if c == '\t' then "\\t"
    else if c as int < 32 then "\\u00" + [HexDigit(c as int / 16), HexDigit(c as int % 16)]
    else [c]
  }

  function Escape(s: string): string {
    if s == "" then "" else EscapeChar(s[0]) + Escape(s[1..])
  }

  function Quote(s: string): string {
    "\"" + Escape(s) + "\""
  }

  /** The rest of a JSON array of strings: each item with a comma before it, then the bracket. */
  function JsonTail(items: seq<string>): string {
    if items == [] then "]" else "," + (Quote(items[0]) + JsonTail(items[1..]))
  }

  function Namespace(k: BlockKey): string {
    "[" + Quote("kv-block-key-v1") + JsonTail(Fields(k))
  }

  lemma EscapeCharPrefixFree(c: char, d: char, x: string, y: string)
    requires EscapeChar(c) + x == EscapeChar(d) + y
    ensures c == d && x == y
  {
    var l, r := EscapeChar(c) + x, EscapeChar(d) + y;
    assert l[0] == r[0];
    if |EscapeChar(c)| == 1 || |EscapeChar(d)| == 1 {
      assert |EscapeChar(c)| == |EscapeChar(d)| == 1;
    } else {
      assert l[1] == r[1];
      assert |EscapeChar(c)| == |EscapeChar(d)|;
      if |EscapeChar(c)| == 6 {
        assert l[4] == r[4] && l[5] == r[5];
        assert c as int / 16 == d as int / 16 && c as int % 16 == d as int % 16;
        assert c as int == d as int;
      }
    }
    assert x == l[|EscapeChar(c)|..] == r[|EscapeChar(d)|..] == y;
  }

  lemma EscapeHead(s: string, x: string)
    requires s != ""
    ensures Escape(s) + "\"" + x == EscapeChar(s[0]) + (Escape(s[1..]) + "\"" + x)
    ensures (Escape(s) + "\"" + x)[0] != '"'
  {}

  /** A quoted string says itself where it ends: the closing quote is the only bare one. */
  lemma {:induction false} EscapedPrefixFree(a: string, b: string, x: string, y: string)
    requires Escape(a) + "\"" + x == Escape(b) + "\"" + y
    ensures a == b && x == y
  {
    if a == "" && b == "" {
      assert x == (Escape(a) + "\"" + x)[1..] == (Escape(b) + "\"" + y)[1..] == y;
    } else if a == "" {
      EscapeHead(b, y);
    } else if b == "" {
      EscapeHead(a, x);
    } else {
      EscapeHead(a, x);
      EscapeHead(b, y);
      EscapeCharPrefixFree(a[0], b[0], Escape(a[1..]) + "\"" + x, Escape(b[1..]) + "\"" + y);
      EscapedPrefixFree(a[1..], b[1..], x, y);
      assert a == [a[0]] + a[1..] && b == [b[0]] + b[1..];
    }
  }

  lemma QuotePrefixFree(a: string, b: string, x: string, y: string)
    requires Quote(a) + x == Quote(b) + y
    ensures a == b && x == y
  {
    QuoteTail(a, x);
    QuoteTail(b, y);
    EscapedPrefixFree(a, b, x, y);
  }

  lemma QuoteTail(s: string, x: string)
    ensures (Quote(s) + x)[1..] == Escape(s) + "\"" + x
  {}

  lemma {:induction false} JsonTailInjective(f: seq<string>, g: seq<string>)
    requires |f| == |g| && JsonTail(f) == JsonTail(g)
    ensures f == g
  {
    if f != [] {
      var l, r := JsonTail(f), JsonTail(g);
      assert l[1..] == Quote(f[0]) + JsonTail(f[1..]);
      assert r[1..] == Quote(g[0]) + JsonTail(g[1..]);
      QuotePrefixFree(f[0], g[0], JsonTail(f[1..]), JsonTail(g[1..]));
      JsonTailInjective(f[1..], g[1..]);
      assert f == [f[0]] + f[1..] && g == [g[0]] + g[1..];
    }
  }

  /**
   The namespace text determines the six namespace fields, for all strings and not only valid
   ones; together with the block hash it determines the key. This is why rows may be filed
   under the pair (hash, namespace).
   */
  lemma NamespaceInjective(a: BlockKey, b: BlockKey)
    requires Namespace(a) == Namespace(b)
    ensures a.(blockHash := "") == b.(blockHash := "")
    ensures a.blockHash == b.blockHash ==> a == b
  {
    var head := "[" + Quote("kv-block-key-v1");
    assert JsonTail(Fields(a)) == Namespace(a)[|head|..] == Namespace(b)[|head|..] == JsonTail(Fields(b));
    JsonTailInjective(Fields(a), Fields(b));
    var f, g := Fields(a), Fields(b);
    assert f[0] == g[0] && f[1] == g[1] && f[2] == g[2] && f[3] == g[3] && f[4] == g[4] && f[5] == g[5];
  }
}
