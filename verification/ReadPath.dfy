/** Assembling a read from the buffer map, the object map, and zeroes. */
module ReadPath {
  import opened Common
  import opened Extents
  import opened ExtentMap
  import opened Volume
  import opened SmartIov
  import opened Scatter

  const BLOCK_SECTORS := 128

  /** A read of `sectors` sectors of an object, from `inBlock` in the cache block at `block`, into the output at `at`. */
  datatype BlockRead = BlockRead(obj: int, block: int, inBlock: int, at: int, sectors: int) {
    predicate Fills(i: int) {
      at <= i < at + sectors
    }

    /** The read stays in one aligned block. */
    predicate Aligned() {
      0 < sectors && block % BLOCK_SECTORS == 0 && 0 <= inBlock && inBlock + sectors <= BLOCK_SECTORS
    }

    /** The sector of the object that goes to sector `i` of the output. */
    function Source(i: int): Ptr {
      ObjPtr(obj, block + inBlock + (i - at))
    }
  }

  ghost predicate NoFill(reqs: seq<BlockRead>, i: int) {
    forall j :: 0 <= j < |reqs| ==> !reqs[j].Fills(i)
  }

  ghost predicate FilledFrom(reqs: seq<BlockRead>, i: int, p: Ptr) {
    exists j :: 0 <= j < |reqs| && reqs[j].Fills(i) && reqs[j].Source(i) == p
  }

  /** Aligned reads into disjoint parts of the output, in order, below `done`. */
  ghost predicate Ordered(reqs: seq<BlockRead>, done: int) {
    && (forall j :: 0 <= j < |reqs| ==> reqs[j].Aligned() && 0 <= reqs[j].at && reqs[j].at + reqs[j].sectors <= done)
    && (forall i, j :: 0 <= i < j < |reqs| ==> reqs[i].at + reqs[i].sectors <= reqs[j].at)
  }

  /** Sector `start + i`, at `i` of the output, comes from memory, else from its object, else it is zero. */
  ghost predicate Served(bm: map<int, Ptr>, om: map<int, Ptr>, mem: int -> Sector, start: int, i: int,
                         out: seq<Sector>, was: seq<Sector>, reqs: seq<BlockRead>)
    requires 0 <= i < |out| == |was|
  {
    var a := start + i;
    if a in bm then bm[a].BufPtr? && out[i] == mem(bm[a].addr) && NoFill(reqs, i)
    else if a in om then out[i] == was[i] && FilledFrom(reqs, i, om[a])
    else out[i] == ZERO && NoFill(reqs, i)
  }

  /** The output is served up to `done`, and untouched after that. */
  ghost predicate Progress(bm: map<int, Ptr>, om: map<int, Ptr>, mem: int -> Sector, start: int, done: int,
                           out: seq<Sector>, was: seq<Sector>, reqs: seq<BlockRead>) {
    && 0 <= done <= |out| == |was| && Ordered(reqs, done)
    && (forall i :: 0 <= i < done ==> Served(bm, om, mem, start, i, out, was, reqs))
    && (forall i :: done <= i < |out| ==> out[i] == was[i])
  }

  /** The map has nothing in [lo, hi). */
  ghost predicate Free(m: map<int, Ptr>, lo: int, hi: int) {
    forall a :: lo <= a < hi ==> a !in m
  }

  /** The map has [lo, hi) at consecutive places from `p`. */
  ghost predicate RunIn(m: map<int, Ptr>, lo: int, hi: int, p: Ptr) {
    forall a :: lo <= a < hi ==> a in m && m[a] == Adv(p, a - lo)
  }

  lemma {:induction false} FreeLess(m: map<int, Ptr>, lo: int, hi: int, hi': int)
    requires Free(m, lo, hi) && hi' <= hi
    ensures Free(m, lo, hi')
  {
  }

  lemma {:induction false} RunLess(m: map<int, Ptr>, lo: int, hi: int, hi': int, p: Ptr)
    requires RunIn(m, lo, hi, p) && hi' <= hi
    ensures RunIn(m, lo, hi', p)
  {
  }

  /** Sectors before `done` stay served when more is added after it. */
  lemma {:induction false} StaysServed(bm: map<int, Ptr>, om: map<int, Ptr>, mem: int -> Sector, start: int, i: int,
                    out: seq<Sector>, out': seq<Sector>, was: seq<Sector>, reqs: seq<BlockRead>, more: seq<BlockRead>)
    requires 0 <= i < |out| == |was| == |out'| && Served(bm, om, mem, start, i, out, was, reqs) && out'[i] == out[i]
    requires NoFill(more, i)
    ensures Served(bm, om, mem, start, i, out', was, reqs + more)
  {
    var a := start + i;
    if a !in bm && a in om {
      var j :| 0 <= j < |reqs| && reqs[j].Fills(i) && reqs[j].Source(i) == om[a];
      assert (reqs + more)[j].Fills(i);
    }
  }

  /** A stretch that no map covers. */
  lemma {:induction false} GapServed(bm: map<int, Ptr>, om: map<int, Ptr>, mem: int -> Sector, start: int, done: int, done': int,
                  out: seq<Sector>, out': seq<Sector>, was: seq<Sector>, reqs: seq<BlockRead>)
    requires Progress(bm, om, mem, start, done, out, was, reqs) && done <= done' <= |out| == |out'|
    requires forall i :: 0 <= i < |out| ==> out'[i] == if done <= i < done' then ZERO else out[i]
    requires Free(bm, start + done, start + done') && Free(om, start + done, start + done')
    ensures Progress(bm, om, mem, start, done', out', was, reqs)
  {
    forall i | 0 <= i < done' ensures Served(bm, om, mem, start, i, out', was, reqs) {
      if i < done {
        StaysServed(bm, om, mem, start, i, out, out', was, reqs, []);
        assert reqs + [] == reqs;
      }
    }
  }

  /** A stretch in memory. */
  lemma {:induction false} BufferServed(bm: map<int, Ptr>, om: map<int, Ptr>, mem: int -> Sector, start: int, done: int, done': int, addr: int,
                     out: seq<Sector>, out': seq<Sector>, was: seq<Sector>, reqs: seq<BlockRead>)
    requires Progress(bm, om, mem, start, done, out, was, reqs) && done <= done' <= |out| == |out'|
    requires forall i :: 0 <= i < |out| ==> out'[i] == if done <= i < done' then mem(addr + 512 * (i - done)) else out[i]
    requires RunIn(bm, start + done, start + done', BufPtr(addr))
    ensures Progress(bm, om, mem, start, done', out', was, reqs)
  {
    forall i | 0 <= i < done' ensures Served(bm, om, mem, start, i, out', was, reqs) {
      if i < done {
        StaysServed(bm, om, mem, start, i, out, out', was, reqs, []);
        assert reqs + [] == reqs;
      }
    }
  }

  /** A stretch in an object. */
  lemma {:induction false} ObjectServed(bm: map<int, Ptr>, om: map<int, Ptr>, mem: int -> Sector, start: int, done: int, r: BlockRead,
                     out: seq<Sector>, was: seq<Sector>, reqs: seq<BlockRead>)
    requires Progress(bm, om, mem, start, done, out, was, reqs) && r.Aligned() && r.at == done && done + r.sectors <= |out|
    requires Free(bm, start + done, start + done + r.sectors) && RunIn(om, start + done, start + done + r.sectors, r.Source(done))
    ensures Progress(bm, om, mem, start, done + r.sectors, out, was, reqs + [r])
  {
    var done', all := done + r.sectors, reqs + [r];
    forall i | 0 <= i < done' ensures Served(bm, om, mem, start, i, out, was, all) {
      if i < done {
        StaysServed(bm, om, mem, start, i, out, out, was, reqs, [r]);
      } else {
        assert all[|reqs|] == r && r.Fills(i) && r.Source(i) == om[start + i];
      }
    }
  }

  // ---- iterators ----

  /** `it` is at extent `k` of the map. */
  ghost predicate At(m: ExtMap, it: Pos, k: int)
    reads m
  {
    && m.Valid() && m.ValidPos(it) && 0 <= k <= |m.Contents()| && (it == m.End() <==> k == |m.Contents()|)
    && m.Index(it) == k
    && (it != m.End() ==> it.i < |m.lists| && it.j < |m.lists[it.i]| && m.Get(it) == m.Contents()[k])
  }

  /** Extents before `k` end at or before `cur`, extent `k` after it. */
  ghost predicate Ahead(c: seq<Extent>, k: int, cur: int) {
    0 <= k <= |c| && Below(c[..k], cur) && (k < |c| ==> cur < c[k].Limit())
  }

  method Seek(m: ExtMap, start: int) returns (it: Pos, ghost k: int)
    requires m.Valid()
    ensures At(m, it, k) && Ahead(m.Contents(), k, start)
  {
    hide Flat, Sorted;
    it := m.LowerBound(start);
    k := m.Index(it);
    m.PosIndex(it);
  }

  method Step(m: ExtMap, it: Pos, ghost k: int) returns (it': Pos)
    requires At(m, it, k) && it != m.End()
    ensures At(m, it', k + 1)
  {
    hide Flat, Sorted;
    m.NextIndex(it);
    it' := m.Next(it);
    m.PosIndex(it');
  }

  /** Extents that end by `limit` are skipped. */
  method SkipTo(m: ExtMap, at: Pos, ghost k0: int, cur: int, limit: int) returns (it: Pos, ghost k: int)
    requires At(m, at, k0) && Ahead(m.Contents(), k0, cur) && cur <= limit
    ensures At(m, it, k) && Ahead(m.Contents(), k, limit)
  {
    hide Flat, Sorted, Layout;
    it, k := at, k0;
    while it != m.End() && m.Get(it).Limit() <= limit
      invariant At(m, it, k) && Below(m.Contents()[..k], limit)
      decreases |m.Contents()| - k
    {
      assert m.Contents()[..k + 1] == m.Contents()[..k] + [m.Contents()[k]];
      it := Step(m, it, k);
      k := k + 1;
    }
  }

  lemma {:induction false} NotBefore(c: seq<Extent>, k: int, cur: int, a: int)
    requires Sorted(c) && Ahead(c, k, cur) && cur <= a && (k < |c| ==> a < c[k].base)
    ensures a !in Model(c)
  {
    hide Model;
    assert forall i :: 0 <= i < k ==> c[..k][i] == c[i];
    assert forall i :: k <= i < |c| ==> c[k].base <= c[i].base;
    if a in Model(c) {
      var i := ModelHasExtent(c, a);
    }
  }

  // ---- the read ----

  /** Both maps as a read needs them: buffers in memory, and objects at places that are not negative. */
  ghost predicate WellPlaced(bm: map<int, Ptr>, om: map<int, Ptr>) {
    && (forall a :: a in bm ==> bm[a].BufPtr?)
    && (forall a :: a in om ==> om[a].ObjPtr? && 0 <= om[a].offset)
  }

  /** Cutting a run of an object at the end of its cache block. */
  lemma {:induction false} BlockCut(off: int, sectors: int, at: int, obj: int)
    requires 0 <= off && 0 < sectors
    ensures var block := off / BLOCK_SECTORS * BLOCK_SECTORS;
            var n := Min(block + BLOCK_SECTORS, off + sectors) - off;
            var r := BlockRead(obj, block, off % BLOCK_SECTORS, at, n);
            0 < n <= sectors && r.Aligned() && r.Source(at) == ObjPtr(obj, off)
  {
  }

  /** Where the map next has something for a read at `cur`: a run [base, limit) at `ptr`, cut to the read. */
  method Peek(m: ExtMap, it: Pos, ghost k: int, cur: int, end: int) returns (base: int, limit: int, ptr: Ptr)
    requires At(m, it, k) && Ahead(m.Contents(), k, cur) && cur < end
    ensures cur <= base && Free(m.View(), cur, Min(base, end))
    ensures forall b :: cur <= b <= base && b < end ==> Ahead(m.Contents(), k, b)
    ensures base == cur ==> it.i < |m.lists| && it.j < |m.lists[it.i]|
    ensures base == cur ==> it != m.End() && cur < limit <= end && (limit == m.Get(it).Limit() || limit == end < m.Get(it).Limit())
    ensures base == cur ==> RunIn(m.View(), cur, limit, ptr) && cur in m.View() && m.View()[cur] == ptr
  {
    hide Flat, Model, Sorted, Layout;
    ghost var c := m.Contents();
    forall a | cur <= a && (k < |c| ==> a < c[k].base) ensures a !in Model(c) {
      NotBefore(c, k, cur, a);
    }
    if it == m.End() {
      return end, end, ObjPtr(0, 0);
    }
    var x := m.Get(it).Clip(cur, end);
    base, limit, ptr := x.base, x.Limit(), x.ptr;
    assert 0 < c[k].len by { PositiveAt(c, k); }
    if base == cur {
      RunAt(c, k, cur, end);
      assert m.View()[cur] == Adv(ptr, 0);
    }
  }

  lemma {:induction false} PositiveAt(c: seq<Extent>, k: int)
    requires Sorted(c) && 0 <= k < |c|
    ensures 0 < c[k].len
  {
  }

  /** The sectors that lie in memory, by the address of their first byte. */
  function Memory(src: int -> int, dec: Decoder): int -> Sector {
    (a: int) => dec(Block(src, a, SECTOR))
  }

  /** Every block read has the part of the output that it fills. */
  ghost predicate Targets(all: seq<int>, reqs: seq<BlockRead>, dests: seq<seq<Iov>>) {
    |dests| == |reqs| && forall j :: 0 <= j < |reqs| ==> Target(all, reqs[j], dests[j])
  }

  ghost predicate Target(all: seq<int>, r: BlockRead, dest: seq<Iov>) {
    0 <= r.at && 0 <= r.sectors && SECTOR * (r.at + r.sectors) <= |all| && Addrs(dest) == all[SECTOR * r.at..SECTOR * (r.at + r.sectors)]
  }

  /** A read into scattered buffers: zeroes and what is in memory are there at once, and the rest is left to block reads. */
  method HandleReads(bufmap: ExtMap, objmap: ExtMap, start: int, ram: array<int>, iovs: seq<Iov>, src: int -> int, ghost dec: Decoder)
    returns (reqs: seq<BlockRead>, dests: seq<seq<Iov>>)
    requires bufmap.Valid() && objmap.Valid() && WellPlaced(bufmap.View(), objmap.View()) && Usable(ram, Addrs(iovs), dec)
    modifies ram
    ensures OnlyBuffer(ram[..], old(ram[..]), Addrs(iovs)) && Inside(ram[..], Addrs(iovs)) && old(Inside(ram[..], Addrs(iovs)))
    ensures Progress(bufmap.View(), objmap.View(), Memory(src, dec), start, |Addrs(iovs)| / SECTOR,
                     Held(ram[..], Addrs(iovs), dec), old(Held(ram[..], Addrs(iovs), dec)), reqs)
    ensures Targets(Addrs(iovs), reqs, dests)
  {
    hide Flat, Model, Sorted, Layout, Ahead, At, Free, RunIn, Held, Addrs, OnlyBuffer, Targets, Usable, Memory, Inside, SoFar, Progress;
    ghost var first, bm, om := ram[..], bufmap.View(), objmap.View();
    ghost var g := Goal(first, Addrs(iovs), dec, bm, om, Memory(src, dec), start);
    NothingYet(ram, g);
    var size := Bytes(iovs);
    var end, cur := start + size / SECTOR, start;
    reqs, dests := [], [];
    var bit, oit;
    ghost var bk, ok;
    bit, bk := Seek(bufmap, start);
    oit, ok := Seek(objmap, start);
    while cur < end
      invariant start <= cur && At(bufmap, bit, bk) && At(objmap, oit, ok)
      invariant cur < end ==> Ahead(bufmap.Contents(), bk, cur) && Ahead(objmap.Contents(), ok, cur)
      invariant SoFar(g, ram[..], Min(cur, end) - start, reqs, dests)
      decreases end - cur
    {
      var base1, limit1, buf := Peek(bufmap, bit, bk, cur, end);
      var base2, limit2, ptr := Peek(objmap, oit, ok, cur, end);
      var base3 := Min(base1, base2);
      if base3 > cur {
        FreeLess(bm, cur, Min(base1, end), Min(base3, end));
        FreeLess(om, cur, Min(base2, end), Min(base3, end));
        FillGap(ram, iovs, g, cur - start, base3 - start, reqs, dests);
        cur := base3;
      } else if base1 == cur {
        FillFrom(ram, iovs, g, cur - start, limit1 - start, src, buf.addr, reqs, dests);
        oit, ok := SkipTo(objmap, oit, ok, cur, limit1);
        bit, bk := StepFrom(bufmap, bit, bk, cur);
        cur := limit1;
      } else {
        var r;
        r, oit, ok := BlockOf(objmap, oit, ok, cur, Min(limit2, base1), ptr, cur - start);
        FreeLess(bm, cur, Min(base1, end), cur + r.sectors);
        RunLess(om, cur, limit2, cur + r.sectors, ptr);
        var dest := FillLater(ram, iovs, g, cur - start, r, reqs, dests);
        reqs, dests := reqs + [r], dests + [dest];
        cur := cur + r.sectors;
      }
    }
    SoFarIs(g, ram[..], size / SECTOR, reqs, dests);
  }

  /** What a read is to come to: the memory it started with, where its bytes are, and what they stand for; both maps, the
      buffers, and the first sector. */
  datatype Goal = Goal(first: seq<int>, all: seq<int>, dec: Decoder, bm: map<int, Ptr>, om: map<int, Ptr>, mem: int -> Sector, start: int)

  /** The read is done up to sector `done` of the output. */
  ghost predicate SoFar(g: Goal, ram: seq<int>, done: int, reqs: seq<BlockRead>, dests: seq<seq<Iov>>) {
    && Inside(ram, g.all) && Inside(g.first, g.all) && OnlyBuffer(ram, g.first, g.all) && Targets(g.all, reqs, dests)
    && Progress(g.bm, g.om, g.mem, g.start, done, Held(ram, g.all, g.dec), Held(g.first, g.all, g.dec), reqs)
  }

  lemma {:induction false} SoFarIs(g: Goal, ram: seq<int>, done: int, reqs: seq<BlockRead>, dests: seq<seq<Iov>>)
    requires SoFar(g, ram, done, reqs, dests)
    ensures Inside(ram, g.all) && Inside(g.first, g.all) && OnlyBuffer(ram, g.first, g.all) && Targets(g.all, reqs, dests)
    ensures Progress(g.bm, g.om, g.mem, g.start, done, Held(ram, g.all, g.dec), Held(g.first, g.all, g.dec), reqs)
  {
    hide Held, Progress, Targets, OnlyBuffer, Inside;
  }

  lemma {:induction false} NothingYet(ram: array<int>, g: Goal)
    requires Usable(ram, g.all, g.dec) && g.first == ram[..]
    ensures SoFar(g, ram[..], 0, [], [])
  {
    hide Held;
    InsideNow(ram, g.all);
  }

  /** A stretch that neither map has. */
  method FillGap(ram: array<int>, iovs: seq<Iov>, ghost g: Goal, done: nat, to: int, ghost reqs: seq<BlockRead>, ghost dests: seq<seq<Iov>>)
    requires Usable(ram, Addrs(iovs), g.dec) && g.all == Addrs(iovs) && SoFar(g, ram[..], done, reqs, dests) && done <= to
    requires var stop := Min(to, |g.all| / SECTOR); Free(g.bm, g.start + done, g.start + stop) && Free(g.om, g.start + done, g.start + stop)
    modifies ram
    ensures SoFar(g, ram[..], Min(to, |g.all| / SECTOR), reqs, dests)
  {
    hide Held, Addrs, Free, Targets, OnlyBuffer, Usable, Progress, Inside;
    ghost var before, out := ram[..], Held(ram[..], g.all, g.dec);
    DoneWithin(g.bm, g.om, g.mem, g.start, done, out, Held(g.first, g.all, g.dec), reqs);
    WithinOutput(done, |g.all|);
    ZeroSectors(ram, iovs, g.dec, done, to);
    OnlyMore(ram[..], before, g.first, g.all);
    GapServed(g.bm, g.om, g.mem, g.start, done, Min(to, |g.all| / SECTOR), out, Held(ram[..], g.all, g.dec), Held(g.first, g.all, g.dec), reqs);
  }

  /** A stretch that is in memory. */
  method FillFrom(ram: array<int>, iovs: seq<Iov>, ghost g: Goal, done: nat, to: nat, src: int -> int, addr: int,
                  ghost reqs: seq<BlockRead>, ghost dests: seq<seq<Iov>>)
    requires Usable(ram, Addrs(iovs), g.dec) && g.all == Addrs(iovs) && SoFar(g, ram[..], done, reqs, dests) && done <= to <= |g.all| / SECTOR
    requires g.mem == Memory(src, g.dec) && RunIn(g.bm, g.start + done, g.start + to, BufPtr(addr))
    modifies ram
    ensures SoFar(g, ram[..], to, reqs, dests)
  {
    hide Held, Addrs, RunIn, Targets, OnlyBuffer, Usable, Progress, Inside, Memory;
    ghost var before, out := ram[..], Held(ram[..], g.all, g.dec);
    CopyFrom(ram, iovs, g.dec, done, to, src, addr);
    OnlyMore(ram[..], before, g.first, g.all);
    BufferServed(g.bm, g.om, g.mem, g.start, done, to, addr, out, Held(ram[..], g.all, g.dec), Held(g.first, g.all, g.dec), reqs);
  }

  /** A stretch that is in an object: its part of the output goes with the block read. */
  method FillLater(ram: array<int>, iovs: seq<Iov>, ghost g: Goal, done: nat, r: BlockRead, ghost reqs: seq<BlockRead>, ghost dests: seq<seq<Iov>>)
    returns (dest: seq<Iov>)
    requires g.all == Addrs(iovs) && SoFar(g, ram[..], done, reqs, dests) && r.Aligned() && r.at == done && done + r.sectors <= |g.all| / SECTOR
    requires Free(g.bm, g.start + done, g.start + done + r.sectors) && RunIn(g.om, g.start + done, g.start + done + r.sectors, r.Source(done))
    ensures SoFar(g, ram[..], done + r.sectors, reqs + [r], dests + [dest])
  {
    hide Held, Addrs, RunIn, Free, Targets, OnlyBuffer, Progress, Inside;
    WithinOutput(done + r.sectors, |g.all|);
    dest := Slice(iovs, SECTOR * r.at, SECTOR * (r.at + r.sectors));
    TargetsMore(g.all, reqs, dests, r, dest);
    ObjectServed(g.bm, g.om, g.mem, g.start, done, r, Held(ram[..], g.all, g.dec), Held(g.first, g.all, g.dec), reqs);
  }

  lemma {:induction false} DoneWithin(bm: map<int, Ptr>, om: map<int, Ptr>, mem: int -> Sector, start: int, done: int,
                                      out: seq<Sector>, was: seq<Sector>, reqs: seq<BlockRead>)
    requires Progress(bm, om, mem, start, done, out, was, reqs)
    ensures 0 <= done <= |out| == |was|
  {
  }

  lemma {:induction false} InsideNow(ram: array<int>, all: seq<int>)
    requires InMemory(ram, all)
    ensures Inside(ram[..], all)
  {
  }

  lemma {:induction false} TargetsMore(all: seq<int>, reqs: seq<BlockRead>, dests: seq<seq<Iov>>, r: BlockRead, dest: seq<Iov>)
    requires Targets(all, reqs, dests) && Target(all, r, dest)
    ensures Targets(all, reqs + [r], dests + [dest])
  {
    hide Target;
  }

  lemma {:induction false} WithinOutput(i: int, n: nat)
    requires i <= n / SECTOR
    ensures SECTOR * i <= n
  {
  }

  lemma {:induction false} OnlyMore(now: seq<int>, before: seq<int>, first: seq<int>, all: seq<int>)
    requires (OnlyBuffer(now, before, all) || now == before) && OnlyBuffer(before, first, all)
    ensures OnlyBuffer(now, first, all)
  {
  }

  /** Sectors [from, to) of the output are copied from memory. */
  method CopyFrom(ram: array<int>, iovs: seq<Iov>, ghost dec: Decoder, from: nat, to: nat, src: int -> int, addr: int)
    requires Usable(ram, Addrs(iovs), dec) && from <= to <= |Addrs(iovs)| / SECTOR
    modifies ram
    ensures OnlyBuffer(ram[..], old(ram[..]), Addrs(iovs)) && Inside(ram[..], Addrs(iovs)) && old(Inside(ram[..], Addrs(iovs)))
    ensures var now, was := Held(ram[..], Addrs(iovs), dec), old(Held(ram[..], Addrs(iovs), dec));
            |now| == |was| && forall i :: 0 <= i < |now| ==> now[i] == if from <= i < to then Memory(src, dec)(addr + SECTOR * (i - from)) else was[i]
  {
    hide Addrs, Distinct, Held, OnlyBuffer, InMemory, Inside, Written;
    ghost var all := Addrs(iovs);
    InsideNow(ram, all);
    ghost var was := Held(ram[..], all, dec);
    WithinOutput(to, |all|);
    var slice := Slice(iovs, SECTOR * from, SECTOR * to);
    var buf := Block(src, addr, SECTOR * (to - from));
    assert SECTOR * from + |buf| == SECTOR * to && |buf| / SECTOR == to - from && |buf| % SECTOR == 0;
    CopySectors(ram, iovs, slice, dec, from, buf);
    ghost var now := Held(ram[..], all, dec);
    forall i | 0 <= i < |now| ensures now[i] == if from <= i < to then Memory(src, dec)(addr + SECTOR * (i - from)) else was[i] {
      CopiedSector(now, was, dec, from, to, src, addr, i);
    }
  }

  lemma {:induction false} CopiedSector(now: seq<Sector>, was: seq<Sector>, dec: Decoder, from: nat, to: nat, src: int -> int, addr: int, i: int)
    requires from <= to && 0 <= i < |now| && Written(now, was, dec, from, Block(src, addr, SECTOR * (to - from)), i)
    ensures |now| == |was| && now[i] == if from <= i < to then Memory(src, dec)(addr + SECTOR * (i - from)) else was[i]
  {
    var buf := Block(src, addr, SECTOR * (to - from));
    assert |buf| / SECTOR == to - from;
    if from <= i < to {
      assert buf[SECTOR * (i - from)..SECTOR * (i - from) + SECTOR] == Block(src, addr + SECTOR * (i - from), SECTOR);
    }
  }

  /** The part of a run [cur, limit) that lies in one cache block, and where the object map goes on after it. */
  method BlockOf(m: ExtMap, at: Pos, ghost k0: int, cur: int, limit: int, ptr: Ptr, done: int) returns (r: BlockRead, it: Pos, ghost k: int)
    requires At(m, at, k0) && Ahead(m.Contents(), k0, cur) && at != m.End() && ptr.ObjPtr? && 0 <= ptr.offset
    requires cur < limit <= m.Get(at).Limit()
    ensures r.Aligned() && r.at == done && cur + r.sectors <= limit && r.Source(done) == ptr
    ensures 0 < r.sectors && (cur + r.sectors == limit || (ptr.offset + r.sectors) % 128 == 0)
    ensures At(m, it, k) && Ahead(m.Contents(), k, cur + r.sectors)
  {
    hide Flat, Model, Sorted, Layout, Ahead;
    var block := ptr.offset / BLOCK_SECTORS * BLOCK_SECTORS;
    var sectors := Min(block + BLOCK_SECTORS, ptr.offset + (limit - cur)) - ptr.offset;
    BlockCut(ptr.offset, limit - cur, done, ptr.obj);
    r := BlockRead(ptr.obj, block, ptr.offset % BLOCK_SECTORS, done, sectors);
    it, k := at, k0;
    if cur + sectors == m.Get(at).Limit() {
      it, k := StepFrom(m, at, k0, cur);
    } else {
      StillAhead(m, at, k0, cur, cur + sectors);
    }
  }

  method StepFrom(m: ExtMap, at: Pos, ghost k0: int, cur: int) returns (it: Pos, ghost k: int)
    requires At(m, at, k0) && Ahead(m.Contents(), k0, cur) && at != m.End()
    ensures At(m, it, k) && Ahead(m.Contents(), k, m.Get(at).Limit())
  {
    hide Flat, Model, Layout;
    StepAhead(m.Contents(), k0, cur);
    it := Step(m, at, k0);
    k := k0 + 1;
  }

  lemma {:induction false} StillAhead(m: ExtMap, it: Pos, k: int, cur: int, b: int)
    requires At(m, it, k) && Ahead(m.Contents(), k, cur) && it != m.End() && cur <= b < m.Get(it).Limit()
    ensures Ahead(m.Contents(), k, b)
  {
    hide Flat, Model, Layout;
  }

  /** The part of extent `k` from `cur` on, up to `end`. */
  lemma {:induction false} RunAt(c: seq<Extent>, k: int, cur: int, end: int)
    requires Sorted(c) && Ahead(c, k, cur) && k < |c| && c[k].base <= cur < end
    ensures var x := c[k].Clip(cur, end);
            x.base == cur < x.Limit() <= end && forall a :: cur <= a < x.Limit() ==> a in Model(c) && Model(c)[a] == Adv(x.ptr, a - cur)
  {
    hide Model;
    var x := c[k].Clip(cur, end);
    forall a | cur <= a < x.Limit() ensures a in Model(c) && Model(c)[a] == Adv(x.ptr, a - cur) {
      ModelAt(c, k, a);
    }
  }

  /** Past the end of extent `k`, extent `k + 1` is the next one. */
  lemma {:induction false} StepAhead(c: seq<Extent>, k: int, cur: int)
    requires Sorted(c) && Ahead(c, k, cur) && k < |c|
    ensures Ahead(c, k + 1, c[k].Limit())
  {
    assert c[..k + 1] == c[..k] + [c[k]];
  }

  // ---- the block reads come back ----

  /** Sector `i` after the block reads `reqs` have brought `chunks`: from the one that fills it, or as before. */
  ghost predicate Landed(now: seq<Sector>, was: seq<Sector>, dec: Decoder, reqs: seq<BlockRead>, chunks: seq<seq<int>>, i: int) {
    && 0 <= i < |now| == |was| && |chunks| == |reqs|
    && (NoFill(reqs, i) ==> now[i] == was[i])
    && (forall j :: 0 <= j < |reqs| && reqs[j].Fills(i) ==>
          i - reqs[j].at < |Decoded(chunks[j], dec)| && now[i] == Decoded(chunks[j], dec)[i - reqs[j].at])
  }

  lemma {:induction false} LandedMore(before: seq<Sector>, now: seq<Sector>, was: seq<Sector>, dec: Decoder, reqs: seq<BlockRead>,
                                      chunks: seq<seq<int>>, r: BlockRead, c: seq<int>, i: int)
    requires Landed(before, was, dec, reqs, chunks, i) && |now| == |was| && |c| == SECTOR * r.sectors && 0 <= r.sectors
    requires Written(now, before, dec, r.at, c, i) && forall j :: 0 <= j < |reqs| ==> reqs[j].at + reqs[j].sectors <= r.at
    ensures Landed(now, was, dec, reqs + [r], chunks + [c], i)
  {
    assert |c| / SECTOR == r.sectors;
    var all := reqs + [r];
    assert all[|reqs|] == r && forall j :: 0 <= j < |reqs| ==> all[j] == reqs[j];
    assert NoFill(all, i) <==> NoFill(reqs, i) && !r.Fills(i);
  }

  /** Every block read copies what it was given into its part of the output. */
  method Collect(ram: array<int>, iovs: seq<Iov>, ghost dec: Decoder, reqs: seq<BlockRead>, dests: seq<seq<Iov>>, chunks: seq<seq<int>>)
    requires Usable(ram, Addrs(iovs), dec) && Targets(Addrs(iovs), reqs, dests) && Ordered(reqs, |Addrs(iovs)| / SECTOR)
    requires |chunks| == |reqs| && forall j :: 0 <= j < |reqs| ==> |chunks[j]| == SECTOR * reqs[j].sectors
    modifies ram
    ensures OnlyBuffer(ram[..], old(ram[..]), Addrs(iovs)) && Inside(ram[..], Addrs(iovs)) && old(Inside(ram[..], Addrs(iovs)))
    ensures forall i :: 0 <= i < |Addrs(iovs)| / SECTOR ==>
      Landed(Held(ram[..], Addrs(iovs), dec), old(Held(ram[..], Addrs(iovs), dec)), dec, reqs, chunks, i)
  {
    hide Addrs, Held, OnlyBuffer, Usable, Inside, Landed, Written, Distinct;
    ghost var all, first := Addrs(iovs), ram[..];
    UsableInside(ram, all, dec);
    ghost var was := Held(first, all, dec);
    assert reqs[..0] == [] && chunks[..0] == [];
    forall i | 0 <= i < |all| / SECTOR ensures Landed(was, was, dec, [], [], i) {
      NothingLanded(was, dec, i);
    }
    OnlySelf(first, all);
    for j := 0 to |reqs|
      invariant Inside(ram[..], all) && OnlyBuffer(ram[..], first, all)
      invariant forall i :: 0 <= i < |all| / SECTOR ==> Landed(Held(ram[..], all, dec), was, dec, reqs[..j], chunks[..j], i)
    {
      ghost var before := ram[..];
      CollectOne(ram, iovs, dec, reqs[j], dests[j], chunks[j]);
      OnlyMore(ram[..], before, first, all);
      ghost var rs, cs, now := reqs[..j + 1], chunks[..j + 1], Held(ram[..], all, dec);
      assert rs == reqs[..j] + [reqs[j]] && cs == chunks[..j] + [chunks[j]];
      forall i | 0 <= i < |all| / SECTOR ensures Landed(now, was, dec, rs, cs, i) {
        LandedMore(Held(before, all, dec), now, was, dec, reqs[..j], chunks[..j], reqs[j], chunks[j], i);
      }
    }
    assert reqs[..|reqs|] == reqs && chunks[..|chunks|] == chunks;
  }

  method CollectOne(ram: array<int>, iovs: seq<Iov>, ghost dec: Decoder, r: BlockRead, dest: seq<Iov>, c: seq<int>)
    requires Usable(ram, Addrs(iovs), dec) && Target(Addrs(iovs), r, dest) && |c| == SECTOR * r.sectors
    modifies ram
    ensures OnlyBuffer(ram[..], old(ram[..]), Addrs(iovs)) && Inside(ram[..], Addrs(iovs)) && old(Inside(ram[..], Addrs(iovs)))
    ensures forall i :: 0 <= i < |Addrs(iovs)| / SECTOR ==>
      Written(Held(ram[..], Addrs(iovs), dec), old(Held(ram[..], Addrs(iovs), dec)), dec, r.at, c, i)
  {
    hide Addrs, Held, OnlyBuffer, Usable, Inside, Written;
    assert SECTOR * r.at + |c| == SECTOR * (r.at + r.sectors) && |c| % SECTOR == 0;
    CopySectors(ram, iovs, dest, dec, r.at, c);
  }

  lemma {:induction false} UsableInside(ram: array<int>, all: seq<int>, dec: Decoder)
    requires Usable(ram, all, dec)
    ensures Inside(ram[..], all)
  {
    InsideNow(ram, all);
  }

  lemma {:induction false} NothingLanded(was: seq<Sector>, dec: Decoder, i: int)
    requires 0 <= i < |was|
    ensures Landed(was, was, dec, [], [], i)
  {
  }

  lemma {:induction false} OnlySelf(ram: seq<int>, all: seq<int>)
    ensures OnlyBuffer(ram, ram, all)
  {
  }
}
