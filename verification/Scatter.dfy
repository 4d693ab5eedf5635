/** The output of a read: sectors of 512 bytes each, scattered over memory. */
module Scatter {
  import opened Common
  import opened Volume
  import opened SmartIov

  const SECTOR := 512

  /** Which sector 512 bytes stand for. */
  type Decoder = seq<int> -> Sector

  function Zeros(n: nat): (r: seq<int>)
    ensures |r| == n && forall i :: 0 <= i < n ==> r[i] == 0
  {
    seq(n, _ => 0)
  }

  /** The bytes `n` from address `addr` on. */
  function Block(src: int -> int, addr: int, n: nat): (r: seq<int>)
    ensures |r| == n && forall i :: 0 <= i < n ==> r[i] == src(addr + i)
  {
    seq(n, i => src(addr + i))
  }

  /** The buffer lies in memory, no byte of it twice, and holds whole sectors; zeroes are the zero sector. */
  ghost predicate Usable(mem: array<int>, all: seq<int>, dec: Decoder) {
    InMemory(mem, all) && Distinct(all) && |all| % SECTOR == 0 && dec(Zeros(SECTOR)) == ZERO
  }

  ghost predicate Inside(ram: seq<int>, all: seq<int>) {
    forall i :: 0 <= i < |all| ==> 0 <= all[i] < |ram|
  }

  /** The bytes of sector `i` of the buffer. */
  ghost function BytesAt(ram: seq<int>, all: seq<int>, i: int): (r: seq<int>)
    requires Inside(ram, all) && 0 <= i && SECTOR * i + SECTOR <= |all|
    ensures |r| == SECTOR && forall k :: 0 <= k < SECTOR ==> r[k] == ram[all[SECTOR * i + k]]
  {
    seq(SECTOR, k requires 0 <= k < SECTOR => ram[all[SECTOR * i + k]])
  }

  /** The sectors the buffer holds. */
  ghost function Held(ram: seq<int>, all: seq<int>, dec: Decoder): (r: seq<Sector>)
    requires Inside(ram, all)
    ensures |r| == |all| / SECTOR && forall i :: 0 <= i < |r| ==> r[i] == dec(BytesAt(ram, all, i))
  {
    seq(|all| / SECTOR, i requires 0 <= i < |all| / SECTOR => dec(BytesAt(ram, all, i)))
  }

  /** The sectors in a run of bytes. */
  function Decoded(bytes: seq<int>, dec: Decoder): (r: seq<Sector>)
    ensures |r| == |bytes| / SECTOR
    ensures forall i :: 0 <= i < |r| ==> SECTOR * i + SECTOR <= |bytes| && r[i] == dec(bytes[SECTOR * i..SECTOR * i + SECTOR])
  {
    seq(|bytes| / SECTOR, i requires 0 <= i < |bytes| / SECTOR => dec(bytes[SECTOR * i..SECTOR * i + SECTOR]))
  }

  /** Only the buffer has changed. */
  ghost predicate OnlyBuffer(now: seq<int>, was: seq<int>, all: seq<int>) {
    |now| == |was| && forall x :: 0 <= x < |now| && x !in all ==> now[x] == was[x]
  }

  // ---- bytes ----

  /** The bytes [lo, lo + |buf|) of the buffer have become `buf`, and nothing else has changed. */
  ghost predicate Patched(now: seq<int>, was: seq<int>, all: seq<int>, lo: int, buf: seq<int>) {
    && Inside(now, all) && Inside(was, all) && 0 <= lo && lo + |buf| <= |all| && OnlyBuffer(now, was, all)
    && (forall k :: lo <= k < lo + |buf| ==> now[all[k]] == buf[k - lo])
    && (forall k :: 0 <= k < |all| && !(lo <= k < lo + |buf|) ==> now[all[k]] == was[all[k]])
  }

  lemma {:induction false} ZeroedPatch(now: seq<int>, was: seq<int>, all: seq<int>, lo: int, hi: int)
    requires 0 <= lo <= hi <= |all| && Zeroed(now, was, all[lo..hi]) && Inside(was, all) && Distinct(all)
    ensures Patched(now, was, all, lo, Zeros(hi - lo))
  {
    forall k | 0 <= k < |all| ensures all[k] in all[lo..hi] <==> lo <= k < hi {
      InSlice(all, lo, hi, k);
    }
    hide Distinct;
    assert forall x :: x in all[lo..hi] ==> x in all;
  }

  lemma {:induction false} InSlice(all: seq<int>, lo: int, hi: int, k: int)
    requires 0 <= lo <= hi <= |all| && 0 <= k < |all| && Distinct(all)
    ensures all[k] in all[lo..hi] <==> lo <= k < hi
  {
    if lo <= k < hi {
      assert all[lo..hi][k - lo] == all[k];
    }
  }

  lemma {:induction false} CopiedPatch(now: seq<int>, was: seq<int>, all: seq<int>, lo: int, hi: int, buf: seq<int>)
    requires 0 <= lo <= hi <= |all| && |buf| == hi - lo && Copied(now, was, all[lo..hi], hi - lo, buf) && Inside(was, all) && Distinct(all)
    ensures Patched(now, was, all, lo, buf)
  {
    var part := all[lo..hi];
    assert part[..hi - lo] == part;
    forall k | 0 <= k < |all| ensures now[all[k]] == if lo <= k < hi then buf[k - lo] else was[all[k]] {
      InSlice(all, lo, hi, k);
      if lo <= k < hi {
        assert part[k - lo] == all[k];
      }
    }
    hide Distinct;
    assert forall x :: x in part ==> x in all;
  }

  lemma {:induction false} SliceDistinct(all: seq<int>, lo: int, hi: int)
    requires 0 <= lo <= hi <= |all| && Distinct(all)
    ensures Distinct(all[lo..hi])
  {
  }

  // ---- sectors ----

  lemma {:induction false} SectorBounds(i: int, n: int)
    requires 0 <= i < n / SECTOR
    ensures SECTOR * i + SECTOR <= n
  {
  }

  /** A patch of whole sectors changes whole sectors. */
  lemma {:induction false} PatchedSector(now: seq<int>, was: seq<int>, all: seq<int>, dec: Decoder, from: int, buf: seq<int>, i: int)
    requires Patched(now, was, all, SECTOR * from, buf) && 0 <= from && |buf| % SECTOR == 0 && 0 <= i < |all| / SECTOR
    ensures from <= i < from + |buf| / SECTOR ==>
              SECTOR * (i - from) + SECTOR <= |buf| && Held(now, all, dec)[i] == dec(buf[SECTOR * (i - from)..SECTOR * (i - from) + SECTOR])
    ensures !(from <= i < from + |buf| / SECTOR) ==> Held(now, all, dec)[i] == Held(was, all, dec)[i]
  {
    SectorBounds(i, |all|);
    var now', was' := BytesAt(now, all, i), BytesAt(was, all, i);
    if from <= i < from + |buf| / SECTOR {
      SectorBounds(i - from, |buf|);
      assert now' == buf[SECTOR * (i - from)..SECTOR * (i - from) + SECTOR];
    } else {
      Elsewhere(from, |buf|, i);
      assert now' == was';
    }
  }

  lemma {:induction false} Elsewhere(from: int, n: int, i: int)
    requires 0 <= n && n % SECTOR == 0 && !(from <= i < from + n / SECTOR)
    ensures SECTOR * i + SECTOR <= SECTOR * from || SECTOR * from + n <= SECTOR * i
  {
    assert n == SECTOR * (n / SECTOR);
  }

  /** Sectors [from, to) of the buffer are zeroed, as far as it goes. */
  method ZeroSectors(mem: array<int>, iovs: seq<Iov>, ghost dec: Decoder, from: nat, to: nat)
    requires Usable(mem, Addrs(iovs), dec) && from <= to && SECTOR * from <= |Addrs(iovs)|
    modifies mem
    ensures OnlyBuffer(mem[..], old(mem[..]), Addrs(iovs)) && Inside(mem[..], Addrs(iovs)) && old(Inside(mem[..], Addrs(iovs)))
    ensures var now, was := Held(mem[..], Addrs(iovs), dec), old(Held(mem[..], Addrs(iovs), dec));
            forall i :: 0 <= i < |now| ==> now[i] == if from <= i < to then ZERO else was[i]
  {
    hide Addrs, Zeroed, Distinct, Held, OnlyBuffer;
    ghost var all, was := Addrs(iovs), mem[..];
    Zero(mem, iovs, SECTOR * from, SECTOR * to);
    ghost var hi := Min(SECTOR * to, |all|);
    ghost var n := hi - SECTOR * from;
    ZeroedPatch(mem[..], was, all, SECTOR * from, hi);
    WholeSectors(from, to, |all|);
    forall i | 0 <= i < |all| / SECTOR
      ensures Held(mem[..], all, dec)[i] == if from <= i < to then ZERO else Held(was, all, dec)[i] {
      PatchedSector(mem[..], was, all, dec, from, Zeros(n), i);
      ZeroSector(dec, n, i - from);
      assert from + n / SECTOR <= i ==> !(from <= i < to);
    }
    PatchedOnly(mem[..], was, all, SECTOR * from, Zeros(n));
  }

  lemma {:induction false} WholeSectors(from: nat, to: nat, n: nat)
    requires from <= to && SECTOR * from <= n && n % SECTOR == 0
    ensures var m := Min(SECTOR * to, n) - SECTOR * from; m % SECTOR == 0 && from + m / SECTOR == Min(to, n / SECTOR)
  {
    assert n == SECTOR * (n / SECTOR);
    assert Min(SECTOR * to, n) == SECTOR * Min(to, n / SECTOR);
    assert SECTOR * Min(to, n / SECTOR) - SECTOR * from == SECTOR * (Min(to, n / SECTOR) - from);
  }

  lemma {:induction false} ZeroSector(dec: Decoder, n: nat, i: int)
    requires dec(Zeros(SECTOR)) == ZERO
    ensures 0 <= i && SECTOR * i + SECTOR <= n ==> dec(Zeros(n)[SECTOR * i..SECTOR * i + SECTOR]) == ZERO
  {
    if 0 <= i && SECTOR * i + SECTOR <= n {
      assert Zeros(n)[SECTOR * i..SECTOR * i + SECTOR] == Zeros(SECTOR);
    }
  }

  lemma {:induction false} PatchedOnly(now: seq<int>, was: seq<int>, all: seq<int>, lo: int, buf: seq<int>)
    requires Patched(now, was, all, lo, buf)
    ensures OnlyBuffer(now, was, all) && Inside(now, all)
  {
  }

  /** The sectors of `buf` are copied into the slice of the buffer from sector `from` on. */
  method CopySectors(mem: array<int>, iovs: seq<Iov>, part: seq<Iov>, ghost dec: Decoder, ghost from: nat, buf: seq<int>)
    requires Usable(mem, Addrs(iovs), dec) && |buf| % SECTOR == 0 && SECTOR * from + |buf| <= |Addrs(iovs)|
    requires Addrs(part) == Addrs(iovs)[SECTOR * from..SECTOR * from + |buf|]
    modifies mem
    ensures OnlyBuffer(mem[..], old(mem[..]), Addrs(iovs)) && Inside(mem[..], Addrs(iovs)) && old(Inside(mem[..], Addrs(iovs)))
    ensures forall i :: 0 <= i < |Addrs(iovs)| / SECTOR ==>
      Written(Held(mem[..], Addrs(iovs), dec), old(Held(mem[..], Addrs(iovs), dec)), dec, from, buf, i)
  {
    hide Addrs, Copied, Distinct, Held, OnlyBuffer, Written;
    ghost var all, was := Addrs(iovs), mem[..];
    SliceDistinct(all, SECTOR * from, SECTOR * from + |buf|);
    CopyIn(mem, part, buf);
    CopiedPatch(mem[..], was, all, SECTOR * from, SECTOR * from + |buf|, buf);
    forall i | 0 <= i < |all| / SECTOR ensures Written(Held(mem[..], all, dec), Held(was, all, dec), dec, from, buf, i) {
      PatchedSector(mem[..], was, all, dec, from, buf, i);
      WrittenIs(Held(mem[..], all, dec), Held(was, all, dec), dec, from, buf, i);
    }
    PatchedOnly(mem[..], was, all, SECTOR * from, buf);
  }

  /** Sector `i` is the one `buf` has for it, or as before. */
  ghost predicate Written(now: seq<Sector>, was: seq<Sector>, dec: Decoder, from: int, buf: seq<int>, i: int) {
    && 0 <= i < |now| == |was|
    && if from <= i < from + |buf| / SECTOR then
         SECTOR * (i - from) + SECTOR <= |buf| && now[i] == dec(buf[SECTOR * (i - from)..SECTOR * (i - from) + SECTOR])
       else now[i] == was[i]
  }

  lemma {:induction false} WrittenIs(now: seq<Sector>, was: seq<Sector>, dec: Decoder, from: int, buf: seq<int>, i: int)
    requires 0 <= i < |now| == |was|
    requires from <= i < from + |buf| / SECTOR ==>
               SECTOR * (i - from) + SECTOR <= |buf| && now[i] == dec(buf[SECTOR * (i - from)..SECTOR * (i - from) + SECTOR])
    requires !(from <= i < from + |buf| / SECTOR) ==> now[i] == was[i]
    ensures Written(now, was, dec, from, buf, i)
  {
  }
}
