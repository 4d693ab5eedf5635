/** The extents an update displaces, added up, are exactly the change in the live counts. */
module LiveCounts {
  import opened Extents
  import opened Volume
  import opened Machine
  import opened Accounting

  /** Sectors of the displaced extents that lie in object `n`. */
  ghost function SumLen(del: seq<Extent>, n: int): int {
    if del == [] then 0 else SumLen(del[..|del| - 1], n) + Share(del[|del| - 1], n)
  }

  function Share(e: Extent, n: int): int {
    if e.ptr.ObjPtr? && e.ptr.obj == n then e.len else 0
  }

  lemma {:induction false} SumLenConcat(x: seq<Extent>, y: seq<Extent>, n: int)
    ensures SumLen(x + y, n) == SumLen(x, n) + SumLen(y, n)
  {
    if y == [] {
      assert x + y == x;
    } else {
      var k := |y| - 1;
      assert (x + y)[..|x + y| - 1] == x + y[..k];
      SumLenConcat(x, y[..k], n);
    }
  }

  lemma {:induction false} SumLenPositive(x: seq<Extent>, n: int)
    requires forall i :: 0 <= i < |x| ==> 0 <= x[i].len
    ensures 0 <= SumLen(x, n)
  {
    if x != [] {
      SumLenPositive(x[..|x| - 1], n);
    }
  }

  /** Displaced extents that do not overlap count each sector once. */
  lemma {:induction false} SumLenCount(del: seq<Extent>, n: int)
    requires Sorted(del)
    ensures SumLen(del, n) == Count(Model(del), n)
  {
    if del == [] {
      assert Refs(Model(del), n) == {};
    } else {
      hide Model, Count;
      var k := |del| - 1;
      assert Sorted(del[..k]);
      hide Sorted;
      SumLenCount(del[..k], n);
      LastShare(del, n);
    }
  }

  lemma {:induction false} LastShare(del: seq<Extent>, n: int)
    requires Sorted(del) && del != []
    ensures Count(Model(del), n) == Count(Model(del[..|del| - 1]), n) + Share(del[|del| - 1], n)
  {
    var k := |del| - 1;
    var m, e := Model(del[..k]), del[k];
    ModelBelow(del[..k], e.base);
    hide Model;
    assert Model(del) == m + SpanOf(e) by { ModelLast(del); }
    CountApart(m, SpanOf(e), n);
    CountSpan(e, n);
  }

  lemma {:induction false} ModelLast(del: seq<Extent>)
    requires del != []
    ensures Model(del) == Model(del[..|del| - 1]) + SpanOf(del[|del| - 1])
  {
  }

  lemma {:induction false} CountApart(x: map<int, Ptr>, y: map<int, Ptr>, n: int)
    requires forall a :: a in y ==> a !in x
    ensures Count(x + y, n) == Count(x, n) + Count(y, n)
  {
    var r, s := Refs(x, n), Refs(y, n);
    forall a | a in y ensures a !in r {
    }
    assert forall a :: a in Refs(x + y, n) <==> a in r || a in s;
    assert Refs(x + y, n) == r + s;
    assert r !! s;
  }

  lemma {:induction false} CountSpan(e: Extent, n: int)
    requires 0 <= e.len
    ensures Count(SpanOf(e), n) == Share(e, n)
  {
    if e.ptr.ObjPtr? && e.ptr.obj == n {
      assert Refs(SpanOf(e), n) == Range(e.base, e.Limit());
      RangeSize(e.base, e.Limit());
    } else {
      assert Refs(SpanOf(e), n) == {};
    }
  }

  lemma {:induction false} CountRemove(m: map<int, Ptr>, base: int, limit: int, n: int)
    ensures Count(m, n) == Count(Remove(m, base, limit), n) + Count(Restrict(m, base, limit), n)
  {
    var out, inside := Remove(m, base, limit), Restrict(m, base, limit);
    assert (out + inside).Keys == m.Keys;
    assert out + inside == m;
    CountApart(out, inside, n);
  }

  lemma {:induction false} CountOverride(m: map<int, Ptr>, base: int, limit: int, p: Ptr, n: int)
    requires base <= limit
    ensures Count(Override(m, base, limit, p), n) ==
            Count(m, n) - Count(Restrict(m, base, limit), n) + Share(Extent(base, limit - base, p), n)
  {
    var e := Extent(base, limit - base, p);
    var out := Remove(m, base, limit);
    assert Override(m, base, limit, p) == out + SpanOf(e);
    CountApart(out, SpanOf(e), n);
    CountSpan(e, n);
    CountRemove(m, base, limit, n);
  }

  /** `del` accounts for all the references the map lost on the way from `m` to `m'`, where object `n` gained `more` sectors. */
  ghost predicate Displaced(del: seq<Extent>, m: map<int, Ptr>, m': map<int, Ptr>, n: int, more: int) {
    && (forall i :: 0 <= i < |del| ==> 0 <= del[i].len)
    && (forall k :: SumLen(del, k) == Count(m, k) - Count(m', k) + if k == n then more else 0)
  }

  lemma {:induction false} DisplacedNothing(m: map<int, Ptr>, n: int)
    ensures Displaced([], m, m, n, 0)
  {
  }

  /** One more update. */
  lemma {:induction false} DisplacedMore(del: seq<Extent>, d: seq<Extent>, m: map<int, Ptr>, m1: map<int, Ptr>, base: int, limit: int, n: int, off: int, more: int)
    requires Displaced(del, m, m1, n, more) && base < limit
    requires Sorted(d) && Model(d) == Restrict(m1, base, limit)
    ensures var m2 := Override(m1, base, limit, ObjPtr(n, off));
            Displaced(del + d, m, m2, n, more + (limit - base))
  {
    hide Model, Count, SumLen;
    var m2 := Override(m1, base, limit, ObjPtr(n, off));
    forall k ensures SumLen(del + d, k) == Count(m, k) - Count(m2, k) + if k == n then more + (limit - base) else 0 {
      SumLenConcat(del, d, k);
      SumLenCount(d, k);
      CountOverride(m1, base, limit, ObjPtr(n, off), k);
    }
  }

  /** Removing a range, which may be empty. */
  lemma {:induction false} DisplacedByTrim(d: seq<Extent>, m: map<int, Ptr>, base: int, limit: int, n: int)
    requires base < limit ==> Sorted(d) && Model(d) == Restrict(m, base, limit)
    requires base <= limit && forall i :: 0 <= i < |d| ==> 0 <= d[i].len
    requires base == limit ==> forall i :: 0 <= i < |d| ==> d[i].len == 0
    ensures Displaced(d, m, Remove(m, base, limit), n, 0)
  {
    hide Model, Count, SumLen, Sorted;
    if base == limit {
      assert Remove(m, base, limit) == m;
      forall k ensures SumLen(d, k) == 0 {
        EmptySum(d, k);
      }
      return;
    }
    forall k ensures SumLen(d, k) == Count(m, k) - Count(Remove(m, base, limit), k) {
      SumLenCount(d, k);
      CountRemove(m, base, limit, k);
    }
  }

  lemma {:induction false} EmptySum(d: seq<Extent>, n: int)
    requires forall i :: 0 <= i < |d| ==> d[i].len == 0
    ensures SumLen(d, n) == 0
  {
    if d != [] {
      EmptySum(d[..|d| - 1], n);
    }
  }

  /** The table with the displaced sectors taken off the live counts. */
  ghost function Deducted(info: map<int, Info>, del: seq<Extent>): map<int, Info> {
    map n | n in info :: info[n].(live := info[n].live - SumLen(del, n))
  }

  /** One more displaced extent touches one count. */
  lemma {:induction false} DeductedMore(info: map<int, Info>, x: seq<Extent>, d: Extent)
    ensures var r := Deducted(info, x);
            Deducted(info, x + [d]) ==
            if d.ptr.ObjPtr? && d.ptr.obj in info then r[d.ptr.obj := r[d.ptr.obj].(live := r[d.ptr.obj].live - d.len)] else r
  {
    assert (x + [d])[..|x|] == x;
    assert forall n :: SumLen(x + [d], n) == SumLen(x, n) + Share(d, n);
    hide SumLen;
    var l := Deducted(info, x + [d]);
    var r := Deducted(info, x);
    var s := if d.ptr.ObjPtr? && d.ptr.obj in info then r[d.ptr.obj := r[d.ptr.obj].(live := r[d.ptr.obj].live - d.len)] else r;
    assert l.Keys == s.Keys;
    assert forall n :: n in l ==> l[n] == s[n];
    assert l == s;
  }

  /** Taking the displaced extents off one at a time, no count goes below zero on the way. */
  method Deduct(info: map<int, Info>, del: seq<Extent>) returns (r: map<int, Info>)
    requires forall i :: 0 <= i < |del| ==> 0 <= del[i].len
    requires forall n :: n in info ==> SumLen(del, n) <= info[n].live
    ensures r == Deducted(info, del)
  {
    r := info;
    assert del[..0] == [];
    hide SumLen;
    NothingDeducted(info);
    for i := 0 to |del|
      invariant r == Deducted(info, del[..i])
    {
      var d := del[i];
      assert del[..i + 1] == del[..i] + [d];
      DeductedMore(info, del[..i], d);
      if d.ptr.ObjPtr? && d.ptr.obj in r {
        var n := d.ptr.obj;
        var live := r[n].live - d.len;
        assert live >= 0 by { StillLive(del, i, n, info[n].live); }
        r := r[n := r[n].(live := live)];
      }
    }
    assert del[..|del|] == del;
  }

  lemma {:induction false} NothingDeducted(info: map<int, Info>)
    ensures Deducted(info, []) == info
  {
  }

  lemma {:induction false} StillLive(del: seq<Extent>, i: int, n: int, live: int)
    requires 0 <= i < |del| && SumLen(del, n) <= live
    requires forall j :: 0 <= j < |del| ==> 0 <= del[j].len
    ensures SumLen(del[..i], n) + Share(del[i], n) <= live
  {
    var front, back := del[..i + 1], del[i + 1..];
    assert del == front + back && front[..i] == del[..i];
    SumLenConcat(front, back, n);
    SumLenPositive(back, n);
  }

  /** Process-batch order: the new object is entered with all its sectors live, and overlaps in the batch taken off it. */
  lemma {:induction false} DeductedAfterEntry(info: map<int, Info>, del: seq<Extent>, m: map<int, Ptr>, m': map<int, Ptr>, n: int, o: DataObj)
    requires Displaced(del, m, m', n, Total(o.pieces)) && n !in info && Unreferenced(m, n)
    ensures Deducted(info[n := Info(o.hdr, Total(o.pieces), Total(o.pieces))], del) == AddObject(info, m, m', n, o)
  {
    hide Total;
    CountZero(m, n);
  }

  /** Collection order: the new object is entered afterwards, right only when nothing of it was displaced. */
  lemma {:induction false} DeductedBeforeEntry(info: map<int, Info>, del: seq<Extent>, m: map<int, Ptr>, m': map<int, Ptr>, n: int, o: DataObj)
    requires Displaced(del, m, m', n, Total(o.pieces)) && n !in info && Unreferenced(m, n)
    ensures Deducted(info, del)[n := Info(o.hdr, Total(o.pieces), Total(o.pieces))] == AddObject(info, m, m', n, o) <==>
            SumLen(del, n) == 0
  {
    hide Total, SumLen, Count;
    CountZero(m, n);
    var l, r := Deducted(info, del)[n := Info(o.hdr, Total(o.pieces), Total(o.pieces))], AddObject(info, m, m', n, o);
    assert l.Keys == r.Keys;
    assert forall k :: k in info ==> l[k] == r[k];
    if SumLen(del, n) == 0 {
      assert l == r;
    } else {
      assert l[n] != r[n];
    }
  }

  /** The pieces of an object leave none of its own sectors displaced exactly when they do not overlap. */
  lemma {:induction false} DisjointNothingLost(del: seq<Extent>, m: map<int, Ptr>, n: int, off: int, ps: seq<Write>)
    requires Displaced(del, m, ApplyPieces(m, n, off, ps), n, Total(ps)) && Unreferenced(m, n)
    ensures SumLen(del, n) == 0 <==> DisjointPieces(ps)
  {
    hide SumLen, Total, DisjointPieces, ApplyPieces, Count;
    var m' := ApplyPieces(m, n, off, ps);
    CountZero(m, n);
    assert Refs(m', n) == Lbas(ps) by { RefsArePieces(m, n, off, ps); }
    assert Count(m', n) == |Refs(m', n)| by { CountIs(m', n); }
    if DisjointPieces(ps) {
      LbasSize(ps);
    } else {
      OverlapSmaller(ps);
    }
  }

  lemma {:induction false} UnionSize(x: set<int>, y: set<int>)
    ensures |x + y| <= |x| + |y|
    ensures x * y != {} ==> |x + y| < |x| + |y|
  {
    assert |x + y| == |x| + |y| - |x * y|;
  }

  lemma {:induction false} LbasBound(ps: seq<Write>)
    ensures |Lbas(ps)| <= Total(ps)
  {
    if ps != [] {
      var k := |ps| - 1;
      LbasBound(ps[..k]);
      RangeSize(ps[k].lba, ps[k].Limit());
      UnionSize(Lbas(ps[..k]), Range(ps[k].lba, ps[k].Limit()));
    }
  }

  lemma {:induction false} LbasLast(ps: seq<Write>, a: int)
    requires ps != []
    ensures var k := |ps| - 1;
            && Lbas(ps) == Lbas(ps[..k]) + Range(ps[k].lba, ps[k].Limit()) && Total(ps) == Total(ps[..k]) + |ps[k].data|
            && (ps[k].Covers(a) ==> a in Range(ps[k].lba, ps[k].Limit()))
  {
  }

  lemma {:induction false} OverlapSmaller(ps: seq<Write>)
    requires !DisjointPieces(ps)
    ensures |Lbas(ps)| < Total(ps)
  {
    hide Lbas, Total, Range;
    var k := |ps| - 1;
    var i, j, a :| 0 <= i < j < |ps| && ps[i].Covers(a) && ps[j].Covers(a);
    var front, last := ps[..k], Range(ps[k].lba, ps[k].Limit());
    LbasLast(ps, a);
    RangeSize(ps[k].lba, ps[k].Limit());
    UnionSize(Lbas(front), last);
    if j < k {
      assert front[i].Covers(a) && front[j].Covers(a);
      OverlapSmaller(front);
    } else {
      assert front[i].Covers(a);
      LbasIn(front, a);
      assert a in Lbas(front) * last;
      LbasBound(front);
    }
  }

  lemma {:induction false} CountIs(m: map<int, Ptr>, n: int)
    ensures Count(m, n) == |Refs(m, n)|
  {
  }

  lemma {:induction false} RefsArePieces(m: map<int, Ptr>, n: int, off: int, ps: seq<Write>)
    requires Unreferenced(m, n)
    ensures Refs(ApplyPieces(m, n, off, ps), n) == Lbas(ps)
  {
    hide ApplyPieces, Lbas, Touches;
    var m' := ApplyPieces(m, n, off, ps);
    forall a ensures a in Refs(m', n) <==> a in Lbas(ps) {
      PiecesInside(m, n, off, ps, a);
      LbasIn(ps, a);
    }
  }

  // ---- what is displaced at all ----

  /** Some sector of the pieces is mapped already, or is in an earlier piece as well. */
  ghost predicate Displaces(m: map<int, Ptr>, ps: seq<Write>) {
    exists j, a :: 0 <= j < |ps| && Hits(m, ps, j, a)
  }

  ghost predicate Hits(m: map<int, Ptr>, ps: seq<Write>, j: int, a: int)
    requires 0 <= j < |ps|
  {
    ps[j].Covers(a) && (a in m || Touches(ps[..j], a))
  }

  ghost predicate InMap(m: map<int, Ptr>, p: Ptr) {
    exists a :: a in m && m[a] == p
  }

  /** Extents are displaced exactly if the pieces fall on something, and all of them come from the map or the object itself. */
  ghost predicate Ousted(del: seq<Extent>, m: map<int, Ptr>, ps: seq<Write>, n: int) {
    && (del == [] <==> !Displaces(m, ps))
    && (forall i :: 0 <= i < |del| ==> InMap(m, del[i].ptr) || (del[i].ptr.ObjPtr? && del[i].ptr.obj == n))
  }

  lemma {:induction false} DisplacesMore(m: map<int, Ptr>, ps: seq<Write>, j: int)
    requires 0 <= j < |ps|
    ensures Displaces(m, ps[..j + 1]) <==> Displaces(m, ps[..j]) || exists a :: Hits(m, ps, j, a)
  {
    var x, y := ps[..j], ps[..j + 1];
    assert forall i :: 0 <= i < j ==> x[i] == y[i] == ps[i] && x[..i] == y[..i] == ps[..i];
    assert y[j] == ps[j] && y[..j] == x;
    hide Hits;
    forall i, a | 0 <= i < j ensures Hits(m, x, i, a) <==> Hits(m, y, i, a) {
      HitsSame(m, x, y, i, a);
    }
    forall a ensures Hits(m, y, j, a) <==> Hits(m, ps, j, a) {
      HitsSame(m, y, ps, j, a);
    }
  }

  lemma {:induction false} HitsSame(m: map<int, Ptr>, x: seq<Write>, y: seq<Write>, i: int, a: int)
    requires 0 <= i < |x| && i < |y| && x[i] == y[i] && x[..i] == y[..i]
    ensures Hits(m, x, i, a) <==> Hits(m, y, i, a)
  {
  }

  lemma {:induction false} OustedNothing(m: map<int, Ptr>, n: int)
    ensures Ousted([], m, [], n)
  {
  }

  /** One more piece. */
  lemma {:induction false} OustedMore(del: seq<Extent>, d: seq<Extent>, m: map<int, Ptr>, n: int, off: int, ps: seq<Write>, j: int)
    requires 0 <= j < |ps| && Ousted(del, m, ps[..j], n)
    requires Sorted(d) && Model(d) == Restrict(ApplyPieces(m, n, off, ps[..j]), ps[j].lba, ps[j].Limit())
    ensures Ousted(del + d, m, ps[..j + 1], n)
  {
    hide ApplyPieces, Model, Displaces;
    DisplacesMore(m, ps, j);
    OustedHere(d, m, n, off, ps, j);
    hide Hits;
  }

  lemma {:induction false} OustedHere(d: seq<Extent>, m: map<int, Ptr>, n: int, off: int, ps: seq<Write>, j: int)
    requires 0 <= j < |ps| && Sorted(d) && Model(d) == Restrict(ApplyPieces(m, n, off, ps[..j]), ps[j].lba, ps[j].Limit())
    ensures d == [] <==> !exists a :: Hits(m, ps, j, a)
    ensures forall i :: 0 <= i < |d| ==> InMap(m, d[i].ptr) || (d[i].ptr.ObjPtr? && d[i].ptr.obj == n)
  {
    hide ApplyPieces, Touches;
    var m1 := ApplyPieces(m, n, off, ps[..j]);
    forall i | 0 <= i < |d|
      ensures InMap(m, d[i].ptr) || (d[i].ptr.ObjPtr? && d[i].ptr.obj == n)
      ensures Hits(m, ps, j, d[i].base) {
      ModelAt(d, i, d[i].base);
      PiecesKeepOthers(m, n, off, ps[..j], d[i].base);
      PiecesInside(m, n, off, ps[..j], d[i].base);
    }
    forall a | Hits(m, ps, j, a) ensures d != [] {
      PiecesInside(m, n, off, ps[..j], a);
      assert a in Model(d);
      NothingMapped(d, a);
    }
  }

  lemma {:induction false} NothingMapped(d: seq<Extent>, a: int)
    requires a in Model(d)
    ensures d != []
  {
  }
}
