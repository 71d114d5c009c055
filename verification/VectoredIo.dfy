/**
 Positioned vectored reads: a loop over short reads, proved to be one contiguous read.

 Buffers are ranges of one flat memory. The kernel is a schedule of outcomes; when the schedule is
 used up every further call transfers all it can.
 */
module VectoredIo {
  import opened Identity
  import opened Metadata

  datatype IoVec = IoVec(base: nat, len: nat)

  /** What one call does: at most this many bytes, interrupted by a signal, or an error. */
  datatype Outcome = AtMost(n: nat) | Interrupted | Failed

  /** The addresses of a range, and of all parts one after the other. */
  function Range(base: nat, len: nat): (r: seq<nat>)
    ensures |r| == len && forall i :: 0 <= i < len ==> r[i] == base + i
  {
    seq(len, i => base + i)
  }

  function Addresses(iov: seq<IoVec>): seq<nat> {
    if iov == [] then [] else Range(iov[0].base, iov[0].len) + Addresses(iov[1..])
  }

  /** The parts lie in memory and do not overlap. */
  ghost predicate Sound(mem: array<Byte>, addrs: seq<nat>) {
    && (forall i :: 0 <= i < |addrs| ==> addrs[i] < mem.Length)
    && (forall i, j :: 0 <= i < j < |addrs| ==> addrs[i] != addrs[j])
  }

  function Min(a: nat, b: nat): nat { if a <= b then a else b }

  function Remaining(file: seq<Byte>, offset: nat): nat { if offset <= |file| then |file| - offset else 0 }

  /** `now` holds the first `n` bytes of the file from `offset` at the first `n` addresses, and is `was` elsewhere. */
  ghost predicate Filled(was: seq<Byte>, now: seq<Byte>, addrs: seq<nat>, file: seq<Byte>, offset: nat, n: nat) {
    && |now| == |was| && n <= |addrs| && (n > 0 ==> offset + n <= |file|)
    && (forall i :: 0 <= i < n && addrs[i] < |now| ==> now[addrs[i]] == file[offset + i])
    && (forall a :: 0 <= a < |now| && a !in addrs[..n] ==> now[a] == was[a])
  }

  lemma NothingFilled(was: seq<Byte>, addrs: seq<nat>, file: seq<Byte>, offset: nat)
    ensures Filled(was, was, addrs, file, offset, 0)
  {}

  /** Filling the next addresses after the first `n` fills them all. */
  lemma FilledOn(was: seq<Byte>, mid: seq<Byte>, now: seq<Byte>, addrs: seq<nat>, file: seq<Byte>, offset: nat, n: nat, more: nat)
    requires Filled(was, mid, addrs, file, offset, n)
    requires Filled(mid, now, addrs[n..], file, offset + n, more)
    requires forall i, j :: 0 <= i < j < |addrs| ==> addrs[i] != addrs[j]
    ensures Filled(was, now, addrs, file, offset, n + more)
  {
    var rest := addrs[n..];
    forall i | 0 <= i < n + more && addrs[i] < |now| ensures now[addrs[i]] == file[offset + i] {
      if i >= n {
        assert rest[i - n] == addrs[i];
      } else {
        assert addrs[i] !in rest[..more] by {
          assert forall j :: 0 <= j < more ==> rest[j] == addrs[n + j];
        }
      }
    }
    forall a | 0 <= a < |now| && a !in addrs[..n + more] ensures now[a] == was[a] {
      assert a !in addrs[..n] by { assert forall j :: 0 <= j < n ==> addrs[..n][j] == addrs[..n + more][j]; }
      assert a !in rest[..more] by { assert forall j :: 0 <= j < more ==> rest[..more][j] == addrs[..n + more][n + j]; }
    }
  }

  /** One call: some of the bytes that are left, at least one if there is one. */
  method Preadv(mem: array<Byte>, file: seq<Byte>, iov: seq<IoVec>, offset: nat, most: nat) returns (rc: nat)
    requires Sound(mem, Addresses(iov))
    modifies mem
    ensures Filled(old(mem[..]), mem[..], Addresses(iov), file, offset, rc)
    ensures rc == 0 <==> Min(|Addresses(iov)|, Remaining(file, offset)) == 0
  {
    var addrs := Addresses(iov);
    var available := Min(|addrs|, Remaining(file, offset));
    rc := Min(available, if most == 0 then 1 else most);
    NothingFilled(mem[..], addrs, file, offset);
    var i := 0;
    while i < rc
      invariant 0 <= i <= rc
      invariant Filled(old(mem[..]), mem[..], addrs, file, offset, i)
    {
      ghost var before := mem[..];
      mem[addrs[i]] := file[offset + i];
      OneByteMore(old(mem[..]), before, mem[..], addrs, file, offset, i);
      i := i + 1;
    }
  }

  lemma OneByteMore(was: seq<Byte>, mid: seq<Byte>, now: seq<Byte>, addrs: seq<nat>, file: seq<Byte>, offset: nat, i: nat)
    requires Filled(was, mid, addrs, file, offset, i) && i < |addrs| && offset + i < |file| && addrs[i] < |mid|
    requires forall a, b :: 0 <= a < b < |addrs| ==> addrs[a] != addrs[b]
    requires now == mid[addrs[i] := file[offset + i]]
    ensures Filled(was, now, addrs, file, offset, i + 1)
  {
    assert addrs[..i + 1] == addrs[..i] + [addrs[i]];
  }

  /** Dropping the first part drops its addresses. */
  lemma PartDone(iov: seq<IoVec>, index: nat)
    requires index < |iov|
    ensures Addresses(iov[index..]) == Range(iov[index].base, iov[index].len) + Addresses(iov[index + 1..])
  {
    assert iov[index..][1..] == iov[index + 1..];
  }

  /** Moving the base of the current part forward drops as many addresses. */
  lemma PartShifted(iov: seq<IoVec>, index: nat, consumed: nat)
    requires index < |iov| && consumed <= iov[index].len
    ensures var shifted := iov[index := IoVec(iov[index].base + consumed, iov[index].len - consumed)];
            Addresses(shifted[index..]) == Addresses(iov[index..])[consumed..]
  {
    var shifted := iov[index := IoVec(iov[index].base + consumed, iov[index].len - consumed)];
    PartDone(iov, index);
    PartDone(shifted, index);
    assert shifted[index + 1..] == iov[index + 1..];
    assert Range(iov[index].base + consumed, iov[index].len - consumed) == Range(iov[index].base, iov[index].len)[consumed..];
  }

  /** Step over the parts that the last call has filled; what is left starts at the next free address. */
  method Advance(iov: seq<IoVec>, start: nat, rc: nat) returns (left: seq<IoVec>, index: nat)
    requires start <= |iov| && rc <= |Addresses(iov[start..])|
    ensures start <= index <= |iov| == |left|
    ensures Addresses(left[index..]) == Addresses(iov[start..])[rc..]
  {
    var consumed := rc;
    left, index := iov, start;
    while index < |left| && consumed >= left[index].len
      invariant start <= index <= |iov| && left == iov && 0 <= consumed <= |Addresses(iov[index..])|
      invariant Addresses(iov[index..])[consumed..] == Addresses(iov[start..])[rc..]
      decreases |iov| - index
    {
      PartDone(iov, index);
      consumed := consumed - left[index].len;
      index := index + 1;
    }
    if index < |left| && consumed > 0 {
      PartShifted(left, index, consumed);
      left := left[index := IoVec(left[index].base + consumed, left[index].len - consumed)];
    }
  }

  /**
   Read until all parts are full or the file ends.

   The result is one contiguous read: the parts, one after the other, hold the bytes of the file from
   the offset on, as many as the smaller of the two has, and no other byte of memory has changed. After
   an error a prefix has been read and nothing else has changed.
   */
  method PositionedIovFull(mem: array<Byte>, file: seq<Byte>, parts: seq<IoVec>, offset: nat, kernel: seq<Outcome>) returns (r: Result<nat>)
    requires Sound(mem, Addresses(parts))
    modifies mem
    ensures r.Ok? ==> r.value == Min(|Addresses(parts)|, Remaining(file, offset))
    ensures r.Ok? ==> Filled(old(mem[..]), mem[..], Addresses(parts), file, offset, r.value)
    ensures r.Err? ==> Failed in kernel && exists n :: Filled(old(mem[..]), mem[..], Addresses(parts), file, offset, n)
  {
    hide Filled, Addresses;
    ghost var all := Addresses(parts);
    var iov, total, index, call := parts, 0, 0, 0;
    NothingFilled(mem[..], all, file, offset);
    assert parts[0..] == parts;
    while index < |iov|
      invariant 0 <= index <= |iov| && 0 <= call <= |kernel| && total <= |all|
      invariant Addresses(iov[index..]) == all[total..]
      invariant Filled(old(mem[..]), mem[..], all, file, offset, total)
      decreases |kernel| - call, |all| - total, |iov| - index
    {
      ghost var mid := mem[..];
      assert Sound(mem, all[total..]) by { assert forall i :: total <= i < |all| ==> all[total..][i - total] == all[i]; }
      var outcome := if call < |kernel| then kernel[call] else AtMost(|file|);
      call := Min(call + 1, |kernel|);
      if outcome == Interrupted {
        continue;
      }
      if outcome == Failed {
        return Err(IoError);
      }
      var rc := Preadv(mem, file, iov[index..], offset + total, outcome.n);
      FilledOn(old(mem[..]), mid, mem[..], all, file, offset, total, rc);
      FilledBounds(mid, mem[..], all[total..], file, offset + total, rc);
      if rc == 0 {
        break;
      }
      total := total + rc;
      iov, index := Advance(iov, index, rc);
      assert all[total - rc..][rc..] == all[total..];
    }
    Complete(old(mem[..]), mem[..], iov, index, all, file, offset, total);
    r := Ok(total);
  }

  lemma FilledBounds(was: seq<Byte>, now: seq<Byte>, addrs: seq<nat>, file: seq<Byte>, offset: nat, n: nat)
    requires Filled(was, now, addrs, file, offset, n)
    ensures n <= |addrs| && (n > 0 ==> offset + n <= |file|)
  {}

  lemma Complete(was: seq<Byte>, now: seq<Byte>, iov: seq<IoVec>, index: nat, all: seq<nat>, file: seq<Byte>, offset: nat, total: nat)
    requires index <= |iov| && total <= |all| && Addresses(iov[index..]) == all[total..]
    requires Filled(was, now, all, file, offset, total)
    requires index == |iov| || Min(|all| - total, Remaining(file, offset + total)) == 0
    ensures total == Min(|all|, Remaining(file, offset))
  {
    if index == |iov| {
      assert iov[index..] == [];
      assert |all[total..]| == 0;
    }
  }

  // ----- the four-way split of a block -----

  function Lengths(iov: seq<IoVec>): nat {
    if iov == [] then 0 else iov[0].len + Lengths(iov[1..])
  }

  lemma {:induction false} AddressesCount(iov: seq<IoVec>)
    ensures |Addresses(iov)| == Lengths(iov)
  {
    if iov != [] {
      AddressesCount(iov[1..]);
    }
  }

  /** Four buffers whose lengths differ by at most one and add up to the block. */
  method FourParts(blockSize: nat, bases: seq<nat>) returns (iov: seq<IoVec>)
    requires |bases| == 4
    ensures |iov| == 4 && |Addresses(iov)| == blockSize
    ensures forall i :: 0 <= i < 4 ==> iov[i].base == bases[i] && blockSize / 4 <= iov[i].len <= blockSize / 4 + 1
    ensures forall i, j :: 0 <= i < j < 4 ==> iov[i].len >= iov[j].len
  {
    var base, remainder := blockSize / 4, blockSize % 4;
    iov := [];
    for i := 0 to 4
      invariant |iov| == i
      invariant forall j :: 0 <= j < i ==> iov[j] == IoVec(bases[j], base + if j < remainder then 1 else 0)
    {
      iov := iov + [IoVec(bases[i], base + if i < remainder then 1 else 0)];
    }
    AddressesCount(iov);
    FourLengths(iov);
  }

  lemma FourLengths(iov: seq<IoVec>)
    requires |iov| == 4
    ensures Lengths(iov) == iov[0].len + iov[1].len + iov[2].len + iov[3].len
  {
    assert iov[1..][1..] == iov[2..] && iov[2..][1..] == iov[3..] && iov[3..][1..] == [];
    assert Lengths(iov[3..]) == iov[3].len;
    assert Lengths(iov[2..]) == iov[2].len + Lengths(iov[3..]);
    assert Lengths(iov[1..]) == iov[1].len + Lengths(iov[2..]);
  }
}
