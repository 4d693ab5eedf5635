/** A finished batch leaves the buffer map: exactly the sectors whose newest write is its own. */
module Retirement {
  import opened Extents
  import opened ExtentMap
  import opened Volume
  import opened Machine
  import opened Accounting
  import opened LogStory
  import opened ReadCoherence
  import opened ReadSteps
  import opened ReadTheorem

  // ---- no extent straddles two buffers ----

  /** The place of sector `i` in the buffer at `b`. */
  function Slot(b: int, i: int): Ptr {
    BufPtr(b + 512 * i)
  }

  /** `p` is a sector of a buffer in use. */
  ghost predicate Owned(cfg: Config, s: State, p: Ptr) {
    exists b, i :: b in Buffers(s) && 0 <= i < cfg.max && p == Slot(b, i)
  }

  lemma {:induction false} HasOwned(cfg: Config, s: State, b: int, ws: seq<Write>, p: Ptr, v: Sector)
    requires BufferHas(b, ws, p, v) && b in Buffers(s) && Total(ws) <= cfg.max
    ensures Owned(cfg, s, p)
  {
    hide Buffers, Total;
    var i :| 0 <= i < Total(ws) && p == BufPtr(b + 512 * i);
    assert p == Slot(b, i);
  }

  lemma {:induction false} MemoryOwned(cfg: Config, s: State, p: Ptr, v: Sector)
    requires Accounted(cfg, s) && SmallPuts(cfg, s.log, s.inflight) && InMemory(s, p, v)
    ensures Owned(cfg, s, p)
  {
    InflightBelow(cfg, s);
    hide Accounted, Owned, BufferHas, Total;
    if BufferHas(s.current.addr, s.current.writes, p, v) {
      HasOwned(cfg, s, s.current.addr, s.current.writes, p, v);
    } else if i :| 0 <= i < |s.queue| && s.queue[i].PutReq? && BufferHas(s.queue[i].batch.addr, s.queue[i].batch.writes, p, v) {
      HasOwned(cfg, s, s.queue[i].batch.addr, s.queue[i].batch.writes, p, v);
    } else {
      var n :| n in s.inflight && s.inflight[n].BatchPut? && 0 <= n < |s.log| && s.log[n].DataRec? &&
        BufferHas(s.inflight[n].addr, s.log[n].obj.pieces, p, v);
      HasOwned(cfg, s, s.inflight[n].addr, s.log[n].obj.pieces, p, v);
    }
  }

  /** Everything in the buffer map points into a buffer in use. */
  lemma {:induction false} BufferedOwned(cfg: Config, s: State, a: int)
    requires Accounted(cfg, s) && Tracked(cfg, s) && a in s.bufmap
    ensures Owned(cfg, s, s.bufmap[a])
  {
    var t := s.(history := LogWrites(s.log, |s.log|) + QueueWrites(s.queue) + s.current.writes);
    assert Buffered(t) == Buffered(s);
    hide Buffered, Accounted, BuffersApart, SmallPuts, LogWrites, QueueWrites, DiskAfter;
    BufferedIsNewest(t);
    var v := DiskAfter(t.history)[a];
    assert InMemory(t, t.bufmap[a], v);
    assert InMemory(s, s.bufmap[a], v);
    hide InMemory, Owned;
    MemoryOwned(cfg, s, s.bufmap[a], v);
  }

  lemma {:induction false} BuffersPairwise(cfg: Config, s: State, b: int, c: int)
    requires BuffersApart(cfg, s) && b in Buffers(s) && c in Buffers(s) && b != c
    ensures Apart(cfg, b, c)
  {
  }

  /** Neighbouring places are in the same buffer. */
  lemma {:induction false} SameBuffer(cfg: Config, s: State, addr: int, p: Ptr)
    requires BuffersApart(cfg, s) && addr in Buffers(s) && Owned(cfg, s, p) && Owned(cfg, s, Adv(p, 1))
    ensures InBuffer(cfg, addr, p) <==> InBuffer(cfg, addr, Adv(p, 1))
  {
    hide BuffersApart, Buffers;
    var b, i :| b in Buffers(s) && 0 <= i < cfg.max && p == Slot(b, i);
    var c, j :| c in Buffers(s) && 0 <= j < cfg.max && Adv(p, 1) == Slot(c, j);
    if b != c {
      BuffersPairwise(cfg, s, b, c);
    }
    if b != addr {
      BuffersPairwise(cfg, s, b, addr);
    }
  }

  /** A run of sectors at consecutive places is in one buffer or in none. */
  ghost predicate Unstraddled(cfg: Config, m: map<int, Ptr>, addr: int) {
    forall a :: a in m && a + 1 in m && m[a + 1] == Adv(m[a], 1) ==> (InBuffer(cfg, addr, m[a]) <==> InBuffer(cfg, addr, m[a + 1]))
  }

  /** No extent of the buffer map straddles two buffers. */
  lemma {:induction false} NoStraddle(cfg: Config, s: State, addr: int)
    requires Accounted(cfg, s) && Tracked(cfg, s) && addr in Buffers(s)
    ensures Unstraddled(cfg, s.bufmap, addr)
  {
    hide Accounted, Buffered, BuffersApart, Buffers, SmallPuts, Owned;
    forall a | a in s.bufmap && a + 1 in s.bufmap && s.bufmap[a + 1] == Adv(s.bufmap[a], 1)
      ensures InBuffer(cfg, addr, s.bufmap[a]) <==> InBuffer(cfg, addr, s.bufmap[a + 1])
    {
      BufferedOwned(cfg, s, a);
      BufferedOwned(cfg, s, a + 1);
      SameBuffer(cfg, s, addr, s.bufmap[a]);
    }
  }

  // ---- removal ----

  lemma {:induction false} WholeExtent(cfg: Config, m: map<int, Ptr>, addr: int, x: Extent, a: int)
    requires Unstraddled(cfg, m, addr) && x.base <= a < x.Limit()
    requires forall b :: In(b, x.base, x.Limit()) ==> b in m && m[b] == Adv(x.ptr, b - x.base)
    ensures a in m && (InBuffer(cfg, addr, m[a]) <==> InBuffer(cfg, addr, x.ptr))
    decreases a - x.base
  {
    assert In(a, x.base, x.Limit());
    if a > x.base {
      assert In(a - 1, x.base, x.Limit());
      WholeExtent(cfg, m, addr, x, a - 1);
    } else {
      assert Adv(x.ptr, 0) == x.ptr;
    }
  }

  ghost predicate Gone(rs: seq<Extent>, a: int) {
    exists i :: 0 <= i < |rs| && In(a, rs[i].base, rs[i].Limit())
  }

  lemma {:induction false} GoneConcat(x: seq<Extent>, y: seq<Extent>, a: int)
    ensures Gone(x + y, a) <==> Gone(x, a) || Gone(y, a)
  {
    if Gone(x, a) {
      var i :| 0 <= i < |x| && In(a, x[i].base, x[i].Limit());
      assert In(a, (x + y)[i].base, (x + y)[i].Limit());
    }
    if Gone(y, a) {
      var i :| 0 <= i < |y| && In(a, y[i].base, y[i].Limit());
      assert In(a, (x + y)[|x| + i].base, (x + y)[|x| + i].Limit());
    }
  }

  ghost function Mine(cfg: Config, addr: int, r: seq<Extent>): seq<Extent> {
    if r == [] then [] else Mine(cfg, addr, r[..|r| - 1]) + MineOne(cfg, addr, r[|r| - 1])
  }

  function MineOne(cfg: Config, addr: int, x: Extent): seq<Extent> {
    if InBuffer(cfg, addr, x.ptr) then [x] else []
  }

  lemma {:induction false} MineGone(cfg: Config, addr: int, r: seq<Extent>, a: int)
    ensures Gone(Mine(cfg, addr, r), a) <==> exists i :: 0 <= i < |r| && In(a, r[i].base, r[i].Limit()) && InBuffer(cfg, addr, r[i].ptr)
  {
    if r != [] {
      var k := |r| - 1;
      var f := r[..k];
      MineGone(cfg, addr, f, a);
      GoneConcat(Mine(cfg, addr, f), MineOne(cfg, addr, r[k]), a);
      if In(a, r[k].base, r[k].Limit()) && InBuffer(cfg, addr, r[k].ptr) {
        assert In(a, MineOne(cfg, addr, r[k])[0].base, MineOne(cfg, addr, r[k])[0].Limit());
      }
      if i :| 0 <= i < |r| && In(a, r[i].base, r[i].Limit()) && InBuffer(cfg, addr, r[i].ptr) && i < k {
        assert f[i] == r[i];
      }
      if Gone(Mine(cfg, addr, f), a) {
        var i :| 0 <= i < |f| && In(a, f[i].base, f[i].Limit()) && InBuffer(cfg, addr, f[i].ptr);
        assert r[i] == f[i];
      }
    }
  }

  /** What one write takes out: the sectors under it that are still in its buffer. */
  lemma {:induction false} MineUnder(cfg: Config, m: map<int, Ptr>, addr: int, r: seq<Extent>, lo: int, hi: int, a: int)
    requires Unstraddled(cfg, m, addr) && Sorted(r) && Model(r) == Restrict(m, lo, hi)
    ensures Gone(Mine(cfg, addr, r), a) <==> a in m && lo <= a < hi && InBuffer(cfg, addr, m[a])
  {
    hide Model, Mine, Unstraddled, InBuffer;
    MineGone(cfg, addr, r, a);
    if Gone(Mine(cfg, addr, r), a) {
      var i :| 0 <= i < |r| && In(a, r[i].base, r[i].Limit()) && InBuffer(cfg, addr, r[i].ptr);
      ExtentMapped(m, r, i, lo, hi);
      WholeExtent(cfg, m, addr, r[i], a);
    }
    if a in m && lo <= a < hi && InBuffer(cfg, addr, m[a]) {
      assert a in Restrict(m, lo, hi);
      var i := ModelHasExtent(r, a);
      assert In(a, r[i].base, r[i].Limit());
      ExtentMapped(m, r, i, lo, hi);
      WholeExtent(cfg, m, addr, r[i], a);
    }
  }

  lemma {:induction false} ExtentMapped(m: map<int, Ptr>, r: seq<Extent>, i: int, lo: int, hi: int)
    requires Sorted(r) && Model(r) == Restrict(m, lo, hi) && 0 <= i < |r|
    ensures forall b :: In(b, r[i].base, r[i].Limit()) ==> b in m && lo <= b < hi && m[b] == Adv(r[i].ptr, b - r[i].base)
  {
    hide Model, Sorted;
    forall b | In(b, r[i].base, r[i].Limit()) ensures b in m && lo <= b < hi && m[b] == Adv(r[i].ptr, b - r[i].base) {
      ModelAt(r, i, b);
    }
  }

  method Collect(cfg: Config, addr: int, r: seq<Extent>) returns (mine: seq<Extent>)
    ensures mine == Mine(cfg, addr, r)
  {
    mine := [];
    assert r[..0] == [];
    for i := 0 to |r|
      invariant mine == Mine(cfg, addr, r[..i])
    {
      assert r[..i + 1][..i] == r[..i];
      if InBuffer(cfg, addr, r[i].ptr) {
        mine := mine + [r[i]];
      }
    }
    assert r[..|r|] == r;
  }

  lemma {:induction false} MineWithin(cfg: Config, addr: int, r: seq<Extent>)
    requires Sorted(r)
    ensures forall i :: 0 <= i < |Mine(cfg, addr, r)| ==> 0 < Mine(cfg, addr, r)[i].len
  {
    if r != [] {
      MineWithin(cfg, addr, r[..|r| - 1]);
    }
  }

  /** The sectors of the finished writes that are still in their own buffer. */
  ghost predicate Retiring(cfg: Config, m: map<int, Ptr>, addr: int, ws: seq<Write>, rs: seq<Extent>) {
    && (forall i :: 0 <= i < |rs| ==> 0 < rs[i].len)
    && (forall a :: Gone(rs, a) <==> a in m && Touches(ws, a) && InBuffer(cfg, addr, m[a]))
  }

  lemma {:induction false} RetiringNone(cfg: Config, m: map<int, Ptr>, addr: int)
    ensures Retiring(cfg, m, addr, [], [])
  {
  }

  lemma {:induction false} RetiringMore(cfg: Config, m: map<int, Ptr>, addr: int, ws: seq<Write>, w: Write, rs: seq<Extent>, r: seq<Extent>)
    requires Unstraddled(cfg, m, addr) && Retiring(cfg, m, addr, ws, rs)
    requires Sorted(r) && Model(r) == Restrict(m, w.lba, w.Limit())
    ensures Retiring(cfg, m, addr, ws + [w], rs + Mine(cfg, addr, r))
  {
    hide Model, Mine, Gone, Touches, InBuffer, Unstraddled, Sorted;
    MineWithin(cfg, addr, r);
    forall a ensures Gone(rs + Mine(cfg, addr, r), a) <==> a in m && Touches(ws + [w], a) && InBuffer(cfg, addr, m[a]) {
      GoneConcat(rs, Mine(cfg, addr, r), a);
      TouchesMore(ws, w, a);
      MineUnder(cfg, m, addr, r, w.lba, w.Limit(), a);
    }
  }

  method StillOwned(cfg: Config, bmap: ExtMap, addr: int, ws: seq<Write>) returns (rs: seq<Extent>)
    requires bmap.Valid() && Unstraddled(cfg, bmap.View(), addr) && forall j :: 0 <= j < |ws| ==> 0 < |ws[j].data|
    ensures Retiring(cfg, bmap.View(), addr, ws, rs)
  {
    hide Flat, Model, Mine, Sorted, Retiring, Unstraddled;
    ghost var m := bmap.View();
    rs := [];
    RetiringNone(cfg, m, addr);
    assert ws[..0] == [];
    for j := 0 to |ws|
      invariant Retiring(cfg, m, addr, ws[..j], rs)
    {
      var r := bmap.Overlaps(ws[j].lba, ws[j].Limit());
      var mine := Collect(cfg, addr, r);
      assert ws[..j + 1] == ws[..j] + [ws[j]];
      RetiringMore(cfg, m, addr, ws[..j], ws[j], rs, r);
      rs := rs + mine;
    }
    assert ws[..|ws|] == ws;
  }

  ghost function Without(m: map<int, Ptr>, rs: seq<Extent>): map<int, Ptr> {
    map a | a in m && !Gone(rs, a) :: m[a]
  }

  lemma {:induction false} WithoutMore(m: map<int, Ptr>, rs: seq<Extent>, x: Extent)
    ensures Without(m, rs + [x]) == Remove(Without(m, rs), x.base, x.Limit())
  {
    var l, r := Without(m, rs + [x]), Remove(Without(m, rs), x.base, x.Limit());
    forall a ensures Gone(rs + [x], a) <==> Gone(rs, a) || In(a, x.base, x.Limit()) {
      GoneConcat(rs, [x], a);
      assert Gone([x], a) <==> In(a, [x][0].base, [x][0].Limit());
    }
    hide Gone;
    assert l.Keys == r.Keys;
    assert l == r;
  }

  /** A finished batch leaves the buffer map: its sectors go, but only where they are still its own. */
  method Retire(cfg: Config, bmap: ExtMap, addr: int, ws: seq<Write>)
    requires bmap.Valid() && Unstraddled(cfg, bmap.View(), addr) && forall j :: 0 <= j < |ws| ==> 0 < |ws[j].data|
    modifies bmap
    ensures bmap.Valid() && bmap.View() == Drop(cfg, old(bmap.View()), addr, ws)
  {
    hide Flat, Model, Mine, Sorted, Gone;
    ghost var m := bmap.View();
    var rs := StillOwned(cfg, bmap, addr, ws);
    assert rs[..0] == [];
    WithoutNone(m);
    for k := 0 to |rs|
      invariant bmap.Valid() && bmap.View() == Without(m, rs[..k])
    {
      assert rs[..k + 1] == rs[..k] + [rs[k]];
      WithoutMore(m, rs[..k], rs[k]);
      var _ := bmap.Trim(rs[k].base, rs[k].Limit());
    }
    assert rs[..|rs|] == rs;
    assert Without(m, rs) == Drop(cfg, m, addr, ws);
  }

  lemma {:induction false} WithoutNone(m: map<int, Ptr>)
    ensures Without(m, []) == m
  {
  }
}
