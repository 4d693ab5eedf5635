/** Scattered buffers: a list of memory ranges that stands for one sequence of bytes. */
module SmartIov {
  import opened Common

  datatype Iov = Iov(base: int, len: nat)

  /** The addresses base, base + 1, ... of a range. */
  function Run(base: int, len: nat): (r: seq<int>)
    ensures |r| == len && forall i :: 0 <= i < len ==> r[i] == base + i
  {
    if len == 0 then [] else Run(base, len - 1) + [base + len - 1]
  }

  /** The addresses of the bytes, in order. */
  function Addrs(iovs: seq<Iov>): seq<int> {
    if iovs == [] then [] else Run(iovs[0].base, iovs[0].len) + Addrs(iovs[1..])
  }

  lemma {:induction false} AddrsConcat(x: seq<Iov>, y: seq<Iov>)
    ensures Addrs(x + y) == Addrs(x) + Addrs(y)
  {
    if x == [] {
      assert x + y == y;
    } else {
      assert (x + y)[0] == x[0] && (x + y)[1..] == x[1..] + y;
      AddrsConcat(x[1..], y);
    }
  }

  lemma {:induction false} AddrsOne(v: Iov)
    ensures Addrs([v]) == Run(v.base, v.len)
  {
    assert [v][1..] == [];
  }

  lemma {:induction false} RunPart(base: int, len: nat, off: nat, n: nat)
    requires off + n <= len
    ensures Run(base + off, n) == Run(base, len)[off..off + n]
  {
  }

  /** Byte `i` of range `k` comes behind all the bytes of the ranges before it. */
  lemma {:induction false} AddrsAt(iovs: seq<Iov>, k: int, i: int)
    requires 0 <= k < |iovs| && 0 <= i < iovs[k].len
    ensures var n := |Addrs(iovs[..k])|;
            n + i < |Addrs(iovs)| && Addrs(iovs)[n + i] == iovs[k].base + i && |Addrs(iovs[..k + 1])| == n + iovs[k].len
  {
    assert iovs == iovs[..k] + ([iovs[k]] + iovs[k + 1..]);
    AddrsConcat(iovs[..k], [iovs[k]] + iovs[k + 1..]);
    AddrsConcat([iovs[k]], iovs[k + 1..]);
    AddrsOne(iovs[k]);
    assert iovs[..k + 1] == iovs[..k] + [iovs[k]];
    AddrsConcat(iovs[..k], [iovs[k]]);
  }

  method Bytes(iovs: seq<Iov>) returns (sum: nat)
    ensures sum == |Addrs(iovs)|
  {
    sum := 0;
    assert iovs[..0] == [];
    for i := 0 to |iovs|
      invariant sum == |Addrs(iovs[..i])|
    {
      assert iovs[..i + 1] == iovs[..i] + [iovs[i]];
      AddrsConcat(iovs[..i], [iovs[i]]);
      AddrsOne(iovs[i]);
      sum := sum + iovs[i].len;
    }
    assert iovs[..|iovs|] == iovs;
  }

  /**
   * One step through the list: `off` bytes still to skip and `len` still to take before range `v`,
   * `rest` the addresses from `v` on.
   */
  lemma {:induction false} TakeStep(v: Iov, rest: seq<int>, off: nat, len: nat)
    requires v.len <= |rest| && rest[..v.len] == Run(v.base, v.len) && off + len <= |rest|
    ensures v.len < off ==> rest[off..off + len] == rest[v.len..][off - v.len..off - v.len + len]
    ensures v.len >= off ==> var n := Min(len, v.len - off);
              rest[off..off + len] == Run(v.base + off, n) + rest[v.len..][..len - n]
  {
    if v.len >= off {
      var n := Min(len, v.len - off);
      RunPart(v.base, v.len, off, n);
      assert rest[off..off + n] == rest[..v.len][off..off + n];
      assert rest[off..off + len] == rest[off..off + n] + rest[off + n..off + len];
      if n < len {
        assert off + n == v.len;
        assert rest[off + n..off + len] == rest[v.len..][..len - n];
      }
    }
  }

  lemma {:induction false} AddrsFrom(iovs: seq<Iov>, i: int)
    requires 0 <= i < |iovs|
    ensures Addrs(iovs[i..]) == Run(iovs[i].base, iovs[i].len) + Addrs(iovs[i + 1..])
    ensures Addrs(iovs[i..])[..iovs[i].len] == Run(iovs[i].base, iovs[i].len)
    ensures Addrs(iovs[i..])[iovs[i].len..] == Addrs(iovs[i + 1..])
  {
    assert iovs[i..][1..] == iovs[i + 1..];
  }

  /** Going on to the next range, when the addresses from range `i` on are those from place `k` on. */
  lemma {:induction false} NextRange(iovs: seq<Iov>, i: int, all: seq<int>, k: int)
    requires 0 <= i < |iovs| && 0 <= k <= |all| && Addrs(iovs[i..]) == all[k..]
    ensures k + iovs[i].len <= |all| && all[k..k + iovs[i].len] == Run(iovs[i].base, iovs[i].len)
    ensures Addrs(iovs[i + 1..]) == all[k + iovs[i].len..]
    ensures forall l :: k <= l < k + iovs[i].len ==> all[l] == iovs[i].base + (l - k)
  {
    hide Addrs, Run;
    var v := iovs[i];
    AddrsFrom(iovs, i);
    assert all[k..][..v.len] == all[k..k + v.len];
    assert all[k..][v.len..] == all[k + v.len..];
    RunPlaces(all, k, v);
  }

  /** The bytes [off, limit) of a scattered buffer, as a scattered buffer. */
  method Slice(iovs: seq<Iov>, off: nat, limit: nat) returns (other: seq<Iov>)
    requires off <= limit <= |Addrs(iovs)|
    ensures Addrs(other) == Addrs(iovs)[off..limit]
  {
    hide Addrs, Run;
    other := [];
    var skip: nat, len: nat := off, limit - off;
    var i := 0;
    ghost var want := Addrs(iovs)[off..limit];
    AddrsNone();
    assert iovs[0..] == iovs;
    while i < |iovs| && len > 0
      invariant 0 <= i <= |iovs| && skip + len <= |Addrs(iovs[i..])| && want == Addrs(iovs[i..])[skip..skip + len]
      invariant Addrs(iovs)[off..limit] == Addrs(other) + want
    {
      var v := iovs[i];
      AddrsFrom(iovs, i);
      TakeStep(v, Addrs(iovs[i..]), skip, len);
      if v.len < skip {
        skip := skip - v.len;
      } else {
        var n := Min(len, v.len - skip);
        var part := Iov(v.base + skip, n);
        AddrsConcat(other, [part]);
        AddrsOne(part);
        want := Addrs(iovs[i + 1..])[..len - n];
        other := other + [part];
        len := len - n;
        skip := 0;
      }
      i := i + 1;
    }
    assert i == |iovs| ==> iovs[i..] == [];
  }

  lemma {:induction false} AddrsNone()
    ensures Addrs([]) == []
  {
  }

  // ---- memory ----

  ghost predicate InMemory(mem: array<int>, addrs: seq<int>) {
    forall i :: 0 <= i < |addrs| ==> 0 <= addrs[i] < mem.Length
  }

  ghost predicate Distinct(addrs: seq<int>) {
    forall i, j :: 0 <= i < j < |addrs| ==> addrs[i] != addrs[j]
  }

  method Fill(mem: array<int>, base: nat, len: nat)
    requires base + len <= mem.Length
    modifies mem
    ensures forall x :: 0 <= x < mem.Length ==> mem[x] == if base <= x < base + len then 0 else old(mem[x])
  {
    for k := 0 to len
      invariant forall x :: 0 <= x < mem.Length ==> mem[x] == if base <= x < base + k then 0 else old(mem[x])
    {
      mem[base + k] := 0;
    }
  }

  ghost predicate Zeroed(now: seq<int>, was: seq<int>, addrs: seq<int>) {
    |now| == |was| && forall x :: 0 <= x < |now| ==> now[x] == if x in addrs then 0 else was[x]
  }

  lemma {:induction false} ZeroedMore(now: seq<int>, now': seq<int>, was: seq<int>, all: seq<int>, off: nat, done: nat, base: int, n: nat)
    requires off <= done && done + n <= |all| && all[done..done + n] == Run(base, n) && Zeroed(now, was, all[off..done])
    requires |now'| == |now| && forall x :: 0 <= x < |now| ==> now'[x] == if base <= x < base + n then 0 else now[x]
    ensures Zeroed(now', was, all[off..done + n])
  {
    hide Run;
    RunAdds(all, off, done, base, n);
  }

  /** The next `n` bytes are in range `v`, behind its first `skip`. */
  method ZeroPart(mem: array<int>, v: Iov, skip: nat, n: nat, ghost was: seq<int>, ghost all: seq<int>, ghost off: nat, ghost pos: int)
    requires Part(all, pos, v) && skip + n <= v.len && InMemory(mem, all) && ZeroedTo(mem[..], was, all, off, pos + skip)
    modifies mem
    ensures ZeroedTo(mem[..], was, all, off, pos + skip + n)
  {
    hide Run, Zeroed;
    PartOfRange(all, pos, v, skip, n);
    ghost var now, done := mem[..], pos + skip;
    var base := v.base + skip;
    if n > 0 {
      PartInMemory(mem, all, done, n, base);
      Fill(mem, base, n);
    }
    ZeroedMore(now, mem[..], was, all, off, done, base, n);
  }

  lemma {:induction false} PartInMemory(mem: array<int>, all: seq<int>, done: nat, n: nat, base: int)
    requires 0 < n && done + n <= |all| && all[done..done + n] == Run(base, n) && InMemory(mem, all)
    ensures 0 <= base && base + n <= mem.Length
  {
    assert 0 <= all[done] < mem.Length && 0 <= all[done + n - 1] < mem.Length;
    assert all[done..done + n][0] == base && all[done..done + n][n - 1] == base + n - 1;
  }

  /** The bytes [off, limit) are zeroed, as far as the buffer goes; nothing else is touched. */
  method Zero(mem: array<int>, iovs: seq<Iov>, off: nat, limit: nat)
    requires off <= limit && off <= |Addrs(iovs)| && InMemory(mem, Addrs(iovs))
    modifies mem
    ensures Zeroed(mem[..], old(mem[..]), Addrs(iovs)[off..Min(limit, |Addrs(iovs)|)])
  {
    hide Addrs, ZeroedTo, Rest, Part, InMemory;
    var skip: nat, len: nat := off, limit - off;
    var i := 0;
    ghost var all, was := Addrs(iovs), mem[..];
    ghost var done, pos := off, 0;
    RestAll(iovs);
    ZeroedNothing(was, all, off);
    while i < |iovs| && len > 0
      invariant 0 <= i <= |iovs| && Rest(iovs, i, all, pos) && InMemory(mem, all)
      invariant off <= done <= Min(limit, |all|) && (len > 0 ==> skip + pos == done) && len == limit - done
      invariant ZeroedTo(mem[..], was, all, off, done)
    {
      var v := iovs[i];
      RestNext(iovs, i, all, pos);
      if v.len < skip {
        skip := skip - v.len;
      } else {
        var n := Min(len, v.len - skip);
        ZeroPart(mem, v, skip, n, was, all, off, pos);
        len := len - n;
        done := done + n;
        skip := 0;
      }
      pos := pos + v.len;
      i := i + 1;
    }
    RestNone(iovs, i, all, pos);
    ZeroedIs(mem[..], was, all, off, done);
  }

  /** The ranges from `i` on name the bytes from `pos` on. */
  ghost predicate Rest(iovs: seq<Iov>, i: int, all: seq<int>, pos: int) {
    0 <= i <= |iovs| && 0 <= pos <= |all| && Addrs(iovs[i..]) == all[pos..]
  }

  /** Range `v` names the bytes at `pos`. */
  ghost predicate Part(all: seq<int>, pos: int, v: Iov) {
    0 <= pos && pos + v.len <= |all| && all[pos..pos + v.len] == Run(v.base, v.len)
  }

  /** The bytes [off, done) have been zeroed. */
  ghost predicate ZeroedTo(now: seq<int>, was: seq<int>, all: seq<int>, off: int, done: int) {
    0 <= off <= done <= |all| && Zeroed(now, was, all[off..done])
  }

  lemma {:induction false} RestAll(iovs: seq<Iov>)
    ensures Rest(iovs, 0, Addrs(iovs), 0)
  {
    hide Addrs;
    assert iovs[0..] == iovs && Addrs(iovs)[0..] == Addrs(iovs);
  }

  lemma {:induction false} RestNext(iovs: seq<Iov>, i: int, all: seq<int>, pos: int)
    requires Rest(iovs, i, all, pos) && i < |iovs|
    ensures pos + iovs[i].len <= |all| && Rest(iovs, i + 1, all, pos + iovs[i].len) && Part(all, pos, iovs[i])
  {
    hide Addrs, Run;
    NextRange(iovs, i, all, pos);
  }

  lemma {:induction false} RestNone(iovs: seq<Iov>, i: int, all: seq<int>, pos: int)
    requires Rest(iovs, i, all, pos)
    ensures 0 <= pos <= |all| && (i == |iovs| ==> pos == |all|)
  {
    hide Addrs;
    if i == |iovs| {
      assert iovs[i..] == [];
      AddrsNone();
    }
  }

  lemma {:induction false} ZeroedIs(now: seq<int>, was: seq<int>, all: seq<int>, off: int, done: int)
    requires ZeroedTo(now, was, all, off, done)
    ensures 0 <= off <= done <= |all| && Zeroed(now, was, all[off..done])
  {
    hide Zeroed;
  }

  lemma {:induction false} PartOfRange(all: seq<int>, k: int, v: Iov, skip: nat, n: nat)
    requires 0 <= k && k + v.len <= |all| && all[k..k + v.len] == Run(v.base, v.len) && skip + n <= v.len
    ensures all[k + skip..k + skip + n] == Run(v.base + skip, n)
  {
    RunPart(v.base, v.len, skip, n);
    var l, r := all[k + skip..k + skip + n], all[k..k + v.len][skip..skip + n];
    assert |l| == |r| && forall i :: 0 <= i < n ==> l[i] == r[i];
    assert l == r;
  }

  lemma {:induction false} ZeroedNothing(was: seq<int>, all: seq<int>, off: nat)
    requires off <= |all|
    ensures ZeroedTo(was, was, all, off, off)
  {
    assert all[off..off] == [];
  }

  lemma {:induction false} RunAdds(all: seq<int>, off: nat, done: nat, base: int, n: nat)
    requires off <= done && done + n <= |all| && all[done..done + n] == Run(base, n)
    ensures forall x :: x in all[off..done + n] <==> x in all[off..done] || base <= x < base + n
    ensures n > 0 ==> all[done] == base && all[done + n - 1] == base + n - 1
  {
    assert all[off..done + n] == all[off..done] + all[done..done + n];
    InRun(base, n);
    if n > 0 {
      assert all[done..done + n][0] == all[done] && all[done..done + n][n - 1] == all[done + n - 1];
    }
  }

  lemma {:induction false} InRun(base: int, n: nat)
    ensures forall x :: x in Run(base, n) <==> base <= x < base + n
  {
    forall x | base <= x < base + n ensures x in Run(base, n) {
      assert Run(base, n)[x - base] == x;
    }
  }

  /** The first `k` addresses hold the first bytes of `buf`, the rest of memory what it held. */
  ghost predicate Copied(now: seq<int>, was: seq<int>, all: seq<int>, k: int, buf: seq<int>) {
    && |now| == |was| && 0 <= k <= |all| <= |buf|
    && (forall i :: 0 <= i < |all| ==> 0 <= all[i] < |now|)
    && (forall i :: 0 <= i < k ==> now[all[i]] == buf[i])
    && (forall x :: 0 <= x < |now| && x !in all[..k] ==> now[x] == was[x])
  }

  lemma {:induction false} Inverse(all: seq<int>, k: int, v: Iov, y: int)
    requires 0 <= k && k + v.len <= |all| && forall l :: k <= l < k + v.len ==> all[l] == v.base + (l - k)
    ensures v.base <= y < v.base + v.len ==> exists l :: k <= l < k + v.len && all[l] == y
  {
    if v.base <= y < v.base + v.len {
      assert all[k + (y - v.base)] == y;
    }
  }

  lemma {:induction false} CopiedMore(now: seq<int>, now': seq<int>, was: seq<int>, all: seq<int>, k: int, v: Iov, buf: seq<int>)
    requires Copied(now, was, all, k, buf) && Distinct(all) && k + v.len <= |all| && |now'| == |now|
    requires forall l :: k <= l < k + v.len ==> all[l] == v.base + (l - k)
    requires forall x :: 0 <= x < |now| ==> now'[x] == if v.base <= x < v.base + v.len then buf[k + (x - v.base)] else now[x]
    ensures Copied(now', was, all, k + v.len, buf)
  {
    var k' := k + v.len;
    forall i | 0 <= i < k' ensures now'[all[i]] == buf[i] {
      if i < k {
        assert forall l :: k <= l < k' ==> all[i] != all[l];
        Inverse(all, k, v, all[i]);
      }
    }
    forall x | 0 <= x < |now| && x !in all[..k'] ensures now'[x] == was[x] {
      assert forall l :: 0 <= l < k' ==> all[..k'][l] == all[l];
      assert forall l :: 0 <= l < k ==> all[..k][l] == all[l];
      Inverse(all, k, v, x);
    }
  }

  method Store(mem: array<int>, base: nat, len: nat, buf: seq<int>, k: nat)
    requires base + len <= mem.Length && k + len <= |buf|
    modifies mem
    ensures forall x :: 0 <= x < mem.Length ==> mem[x] == if base <= x < base + len then buf[k + (x - base)] else old(mem[x])
  {
    for j := 0 to len
      invariant forall x :: 0 <= x < mem.Length ==> mem[x] == if base <= x < base + j then buf[k + (x - base)] else old(mem[x])
    {
      mem[base + j] := buf[k + j];
    }
  }

  method CopyRange(mem: array<int>, v: Iov, buf: seq<int>, k: nat, ghost all: seq<int>, ghost was: seq<int>)
    requires Copied(mem[..], was, all, k, buf) && Distinct(all) && k + v.len <= |all|
    requires forall l :: k <= l < k + v.len ==> all[l] == v.base + (l - k)
    modifies mem
    ensures Copied(mem[..], was, all, k + v.len, buf)
  {
    hide Distinct;
    ghost var now := mem[..];
    assert v.len > 0 ==> 0 <= all[k] < |now| && 0 <= all[k + v.len - 1] < |now|;
    hide Copied;
    if v.len > 0 {
      Store(mem, v.base, v.len, buf, k);
    }
    CopiedMore(now, mem[..], was, all, k, v, buf);
  }

  /** The buffer takes the bytes of `buf`, one for each address; nothing else is touched. */
  method CopyIn(mem: array<int>, iovs: seq<Iov>, buf: seq<int>)
    requires |buf| >= |Addrs(iovs)| && InMemory(mem, Addrs(iovs)) && Distinct(Addrs(iovs))
    modifies mem
    ensures Copied(mem[..], old(mem[..]), Addrs(iovs), |Addrs(iovs)|, buf)
  {
    hide Addrs, Run, Distinct;
    ghost var all, was := Addrs(iovs), mem[..];
    var k := 0;
    assert iovs[0..] == iovs && all[0..] == all;
    assert Copied(mem[..], was, all, 0, buf);
    hide Copied;
    for i := 0 to |iovs|
      invariant 0 <= k <= |all| && Addrs(iovs[i..]) == all[k..] && Copied(mem[..], was, all, k, buf)
    {
      var v := iovs[i];
      NextRange(iovs, i, all, k);
      CopyRange(mem, v, buf, k, all, was);
      k := k + v.len;
    }
    assert iovs[|iovs|..] == [];
    AddrsNone();
  }

  /** What is copied in comes out again. */
  lemma {:induction false} CopyRoundTrip(now: seq<int>, was: seq<int>, all: seq<int>, buf: seq<int>, out: seq<int>)
    requires Copied(now, was, all, |all|, buf) && |out| == |all| && forall i :: 0 <= i < |out| ==> out[i] == now[all[i]]
    ensures out == buf[..|all|]
  {
  }

  /** The addresses of range `v` from place `k` on. */
  lemma {:induction false} RunPlaces(all: seq<int>, k: int, v: Iov)
    requires 0 <= k && k + v.len <= |all| && all[k..k + v.len] == Run(v.base, v.len)
    ensures forall l :: k <= l < k + v.len ==> all[l] == v.base + (l - k)
  {
    assert forall l :: k <= l < k + v.len ==> all[l] == all[k..k + v.len][l - k];
  }

  /** The bytes of the buffer in order. */
  method CopyOut(mem: array<int>, iovs: seq<Iov>) returns (buf: seq<int>)
    requires InMemory(mem, Addrs(iovs))
    ensures |buf| == |Addrs(iovs)| && forall i :: 0 <= i < |buf| ==> buf[i] == mem[Addrs(iovs)[i]]
  {
    hide Addrs, Run;
    ghost var all := Addrs(iovs);
    buf := [];
    assert iovs[0..] == iovs && all[0..] == all;
    for i := 0 to |iovs|
      invariant 0 <= |buf| <= |all| && Addrs(iovs[i..]) == all[|buf|..]
      invariant forall j :: 0 <= j < |buf| ==> buf[j] == mem[all[j]]
    {
      var v := iovs[i];
      ghost var k := |buf|;
      NextRange(iovs, i, all, k);
      for j := 0 to v.len
        invariant |buf| == k + j && forall l :: 0 <= l < |buf| ==> buf[l] == mem[all[l]]
      {
        assert all[k + j] == v.base + j;
        buf := buf + [mem[v.base + j]];
      }
    }
    assert iovs[|iovs|..] == [];
    AddrsNone();
  }
}
