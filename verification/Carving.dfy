/** How an extent sequence changes while the range [base, limit) is cut out of it and an extent is put in. */
module Carving {
  import opened Extents

  /** `del` holds what `s0` mapped and `s` no longer maps, all of it inside [base, limit). */
  ghost predicate Conserved(s0: seq<Extent>, s: seq<Extent>, del: seq<Extent>, base: int, limit: int) {
    && Model(s0) == Model(s) + Model(del)
    && (forall a :: a in Model(s) ==> a !in Model(del))
    && (forall a :: a in Model(del) ==> base <= a < limit)
  }

  /** The cut so far has made `x + y` of `s0`: `x` lies below `base` and `y` above it. */
  ghost predicate PartlyCut(s0: seq<Extent>, x: seq<Extent>, y: seq<Extent>, del: seq<Extent>, base: int, limit: int) {
    && Sorted(x) && Sorted(y) && Below(x, base) && Above(y, base)
    && Conserved(s0, x + y, del, base, limit)
    && (base < limit ==> Sorted(del))
    && (y != [] ==> Below(del, y[0].base))
    && (Canonical(s0) ==> Canonical(x) && Canonical(y))
    && (base == limit ==> EmptyCut(s0, x, y, del, base))
  }

  /** Sector `b` starts in the middle of an extent. */
  ghost predicate Inside(s: seq<Extent>, b: int) {
    exists i :: 0 <= i < |s| && s[i].base < b < s[i].Limit()
  }

  /** Cutting out an empty range takes nothing away, but it parts an extent the range lies in. */
  ghost predicate EmptyCut(s0: seq<Extent>, x: seq<Extent>, y: seq<Extent>, del: seq<Extent>, b: int) {
    && (forall i :: 0 <= i < |del| ==> del[i].len == 0)
    && (if Inside(s0, b) then x != [] && y != [] && Adjacent(x[|x| - 1], y[0]) else x + y == s0)
  }

  // ---- sequences ----

  lemma {:induction false} SortedAppend(x: seq<Extent>, y: seq<Extent>, b: int)
    requires Sorted(x) && Sorted(y) && Below(x, b) && Above(y, b)
    ensures Sorted(x + y)
  {
  }

  lemma {:induction false} SortedParts(x: seq<Extent>, y: seq<Extent>)
    requires Sorted(x + y)
    ensures Sorted(x) && Sorted(y) && (y != [] ==> Below(x, y[0].base))
    ensures x != [] ==> Above(y, x[|x| - 1].Limit())
  {
    var s := x + y;
    assert forall i :: 0 <= i < |x| ==> x[i] == s[i];
    assert forall i :: 0 <= i < |y| ==> y[i] == s[|x| + i];
  }

  lemma {:induction false} CanonicalParts(x: seq<Extent>, y: seq<Extent>)
    requires Canonical(x + y)
    ensures Canonical(x) && Canonical(y)
    ensures x != [] && y != [] ==> !Adjacent(x[|x| - 1], y[0])
  {
    SortedParts(x, y);
    var s := x + y;
    assert forall i :: 0 <= i < |x| ==> x[i] == s[i];
    assert forall i :: 0 <= i < |y| ==> y[i] == s[|x| + i];
    assert x != [] && y != [] ==> !Adjacent(s[|x| - 1], s[|x|]);
  }

  lemma {:induction false} CanonicalAppend(x: seq<Extent>, y: seq<Extent>, b: int)
    requires Canonical(x) && Canonical(y) && Below(x, b) && Above(y, b)
    requires x != [] && y != [] ==> !Adjacent(x[|x| - 1], y[0])
    ensures Canonical(x + y)
  {
    SortedAppend(x, y, b);
  }

  lemma {:induction false} One(e: Extent)
    ensures Model([e]) == SpanOf(e) && (0 < e.len ==> Canonical([e]))
    ensures Below([e], e.Limit()) && Above([e], e.base)
  {
    ModelSingle(e);
  }

  /** The facts about a sorted sequence with `e` in the middle. */
  lemma {:induction false} Middle(x: seq<Extent>, e: Extent, y: seq<Extent>)
    requires Sorted(x + [e] + y)
    ensures Sorted(x) && Sorted(y) && 0 < e.len && Below(x, e.base) && Above(y, e.Limit())
    ensures Canonical(x + [e] + y) ==> Canonical(x) && Canonical(y)
    ensures Canonical(x + [e] + y) && x != [] ==> !Adjacent(x[|x| - 1], e)
    ensures Canonical(x + [e] + y) && y != [] ==> !Adjacent(e, y[0])
  {
    SortedParts(x + [e], y);
    SortedParts(x, [e]);
    if Canonical(x + [e] + y) {
      CanonicalParts(x + [e], y);
      CanonicalParts(x, [e]);
    }
  }

  // ---- maps ----

  lemma {:induction false} ModelThree(x: seq<Extent>, m: seq<Extent>, y: seq<Extent>)
    ensures Model(x + m + y) == Model(x) + Model(m) + Model(y)
  {
    ModelConcat(x + m, y);
    ModelConcat(x, m);
  }

  lemma {:induction false} UnionMiddle(x: map<int, Ptr>, m: map<int, Ptr>, m': map<int, Ptr>, y: map<int, Ptr>, d: map<int, Ptr>)
    requires m == m' + d && (forall a :: a in m' ==> a !in d)
    requires (forall a :: a in x ==> a !in m) && (forall a :: a in y ==> a !in m)
    ensures x + m + y == x + m' + y + d && (forall a :: a in x + m' + y ==> a !in d)
  {
    assert forall a :: a in d ==> a in m;
    assert forall a :: a in m' ==> a in m;
    var l, r := x + m + y, x + m' + y + d;
    assert l.Keys == r.Keys;
    assert forall a :: a in l ==> l[a] == r[a];
    assert l == r;
  }

  lemma {:induction false} UnionTwice(m: map<int, Ptr>, d1: map<int, Ptr>, d2: map<int, Ptr>)
    requires forall a :: a in m + d2 ==> a !in d1
    ensures m + d2 + d1 == m + (d1 + d2)
  {
    assert forall a :: a in d2 ==> a in m + d2;
    var l, r := m + d2 + d1, m + (d1 + d2);
    assert l.Keys == r.Keys;
    assert forall a :: a in l ==> l[a] == r[a];
    assert l == r;
  }

  /** Replacing the extents `m` in the middle by `m'` gives up exactly `d`. */
  lemma {:induction false} ReplaceMiddle(x: seq<Extent>, m: seq<Extent>, m': seq<Extent>, y: seq<Extent>, d: seq<Extent>,
                      lo: int, hi: int, base: int, limit: int)
    requires Below(x, lo) && Above(m, lo) && Below(m, hi) && Above(y, hi)
    requires Conserved(m, m', d, base, limit)
    ensures Conserved(x + m + y, x + m' + y, d, base, limit)
  {
    hide Model;
    ModelThree(x, m, y);
    ModelThree(x, m', y);
    ModelBelow(x, lo);
    ModelAbove(m, lo);
    ModelBelow(m, hi);
    ModelAbove(y, hi);
    UnionMiddle(Model(x), Model(m), Model(m'), Model(y), Model(d));
  }

  lemma {:induction false} ConservedTrans(s0: seq<Extent>, s1: seq<Extent>, s2: seq<Extent>, d1: seq<Extent>, d2: seq<Extent>,
                       base: int, limit: int)
    requires Conserved(s0, s1, d1, base, limit) && Conserved(s1, s2, d2, base, limit)
    ensures Conserved(s0, s2, d1 + d2, base, limit)
  {
    hide Model;
    ModelConcat(d1, d2);
    UnionTwice(Model(s2), Model(d1), Model(d2));
  }

  lemma {:induction false} ConservedSame(s: seq<Extent>, base: int, limit: int)
    ensures Conserved(s, s, [], base, limit)
  {
  }

  // ---- the cut ----

  /** Nothing sticks out to the left of the range. */
  lemma {:induction false} CarveNone(x: seq<Extent>, y: seq<Extent>, base: int, limit: int)
    requires Sorted(x + y) && Below(x, base) && Above(y, base)
    ensures PartlyCut(x + y, x, y, [], base, limit)
  {
    ConservedSame(x + y, base, limit);
    SortedParts(x, y);
    if Canonical(x + y) {
      CanonicalParts(x, y);
    }
    assert Sorted([]);
    assert !Inside(x + y, base);
  }

  function Cut(e: Extent, base: int, limit: int): Extent {
    var hi := if limit < e.Limit() then limit else e.Limit();
    Extent(base, hi - base, Adv(e.ptr, base - e.base))
  }

  /** What is left of an extent above `limit`. */
  function Tail(e: Extent, limit: int): seq<Extent> {
    if limit < e.Limit() then [e.Rebase(limit)] else []
  }

  lemma {:induction false} SpanCut(e: Extent, base: int, limit: int)
    requires e.base < base < e.Limit() && base <= limit
    ensures Conserved([e], [e.Relimit(base)] + Tail(e, limit), [Cut(e, base, limit)], base, limit)
  {
    hide Model, Span, Adv, Canonical, Below, Above;
    var l, d, t := e.Relimit(base), Cut(e, base, limit), Tail(e, limit);
    One(e);
    One(l);
    One(d);
    ModelConcat([l], t);
    TailSpan(e, limit);
    SpanThree(e.base, base, d.Limit(), e.Limit(), e.ptr);
  }

  lemma {:induction false} SpanThree(lo: int, b: int, c: int, hi: int, p: Ptr)
    requires lo <= b <= c <= hi
    ensures var m, d := Span(lo, b, p) + Span(c, hi, Adv(p, c - lo)), Span(b, c, Adv(p, b - lo));
            Span(lo, hi, p) == m + d && (forall a :: a in m ==> a !in d) && (forall a :: a in d ==> b <= a < c)
  {
    var l, r := Span(lo, hi, p), Span(lo, b, p) + Span(c, hi, Adv(p, c - lo)) + Span(b, c, Adv(p, b - lo));
    assert forall a :: a in l <==> In(a, lo, hi);
    assert forall a :: a in r <==> In(a, lo, b) || In(a, c, hi) || In(a, b, c);
    assert l.Keys == r.Keys;
    assert forall a :: a in l ==> l[a] == r[a];
    assert l == r;
  }

  lemma {:induction false} TailSpan(e: Extent, limit: int)
    requires e.base < limit
    ensures var c := if limit < e.Limit() then limit else e.Limit();
            Model(Tail(e, limit)) == Span(c, e.Limit(), Adv(e.ptr, c - e.base))
  {
    if limit < e.Limit() {
      One(e.Rebase(limit));
    }
  }

  lemma {:induction false} CarveEmpty(x: seq<Extent>, e: Extent, y: seq<Extent>, b: int)
    requires e.base < b < e.Limit()
    ensures EmptyCut(x + [e] + y, x + [e.Relimit(b)], Tail(e, b) + y, [Cut(e, b, b)], b)
  {
    assert (x + [e] + y)[|x|] == e;
    assert (Tail(e, b) + y)[0] == e.Rebase(b);
  }

  lemma {:induction false} CarveSorted(x: seq<Extent>, e: Extent, y: seq<Extent>, base: int, limit: int)
    requires Sorted(x + [e] + y) && e.base < base < e.Limit() && base <= limit
    ensures Sorted(x + [e.Relimit(base)]) && Sorted(Tail(e, limit) + y)
    ensures Canonical(x + [e] + y) ==> Canonical(x + [e.Relimit(base)]) && Canonical(Tail(e, limit) + y)
  {
    hide Model;
    var l, t := e.Relimit(base), Tail(e, limit);
    Middle(x, e, y);
    One(l);
    SortedAppend(x, [l], e.base);
    if t != [] {
      One(t[0]);
      SortedAppend(t, y, e.Limit());
    } else {
      assert t + y == y;
    }
    if Canonical(x + [e] + y) {
      CanonicalAppend(x, [l], e.base);
      if t != [] {
        CanonicalAppend(t, y, e.Limit());
      }
    }
  }

  /** The part of `e` below the range stays before the cut, the part above it after the cut. */
  lemma {:induction false} CarveLeft(x: seq<Extent>, e: Extent, y: seq<Extent>, base: int, limit: int)
    requires Sorted(x + [e] + y) && e.base < base < e.Limit() && base <= limit
    ensures PartlyCut(x + [e] + y, x + [e.Relimit(base)], Tail(e, limit) + y, [Cut(e, base, limit)], base, limit)
  {
    hide Model, Conserved, EmptyCut, Canonical;
    var l, d, t := e.Relimit(base), Cut(e, base, limit), Tail(e, limit);
    if base == limit {
      CarveEmpty(x, e, y, base);
    }
    CarveSorted(x, e, y, base, limit);
    Middle(x, e, y);
    One(e);
    SpanCut(e, base, limit);
    ReplaceMiddle(x, [e], [l] + t, y, [d], e.base, e.Limit(), base, limit);
    assert x + ([l] + t) + y == (x + [l]) + (t + y);
  }

  /** An extent inside the range goes. */
  lemma {:induction false} CarveErase(s0: seq<Extent>, x: seq<Extent>, e: Extent, y: seq<Extent>, del: seq<Extent>, base: int, limit: int)
    requires PartlyCut(s0, x, [e] + y, del, base, limit) && e.Limit() <= limit
    ensures PartlyCut(s0, x, y, del + [e], base, limit)
  {
    hide Model;
    assert ([e] + y)[0] == e && base <= e.base;
    GiveUpOne(e, base, limit);
    Split(s0, x, e, y, del, base, limit);
    One(e);
    ReplaceMiddle(x, [e], [], y, [e], e.base, e.Limit(), base, limit);
    assert x + [e] + y == x + ([e] + y) && x + [] + y == x + y;
    ConservedTrans(s0, x + ([e] + y), x + y, del, [e], base, limit);
    SortedAppend(del, [e], e.base);
  }

  lemma {:induction false} GiveUpOne(e: Extent, base: int, limit: int)
    requires base <= e.base && e.Limit() <= limit
    ensures Conserved([e], [], [e], base, limit)
  {
    ModelSingle(e);
  }

  lemma {:induction false} Split(s0: seq<Extent>, x: seq<Extent>, e: Extent, y: seq<Extent>, del: seq<Extent>, base: int, limit: int)
    requires PartlyCut(s0, x, [e] + y, del, base, limit)
    ensures Sorted(y) && 0 < e.len && Below(x, e.base) && Above(y, e.Limit()) && base <= e.base && Below(del, e.base)
    ensures Canonical(s0) ==> Canonical(x) && Canonical(y) && (y != [] ==> !Adjacent(e, y[0]))
  {
    hide Model;
    var s := [e] + y;
    assert s[0] == e;
    SortedParts([e], y);
    if Canonical(s0) {
      CanonicalParts([e], y);
    }
  }

  /** The part of an extent inside the range goes, the rest stays above it. */
  lemma {:induction false} CarveRight(s0: seq<Extent>, x: seq<Extent>, e: Extent, y: seq<Extent>, del: seq<Extent>, base: int, limit: int)
    requires PartlyCut(s0, x, [e] + y, del, base, limit) && e.base < limit < e.Limit()
    ensures PartlyCut(s0, x, [e.Rebase(limit)] + y, del + [Extent(e.base, limit - e.base, e.ptr)], base, limit)
  {
    hide Model;
    var r, d := e.Rebase(limit), Extent(e.base, limit - e.base, e.ptr);
    Split(s0, x, e, y, del, base, limit);
    GiveUpLeft(e, base, limit);
    One(e);
    One(r);
    One(d);
    ReplaceMiddle(x, [e], [r], y, [d], e.base, e.Limit(), base, limit);
    assert x + [e] + y == x + ([e] + y) && x + [r] + y == x + ([r] + y);
    ConservedTrans(s0, x + ([e] + y), x + ([r] + y), del, [d], base, limit);
    SortedAppend(del, [d], e.base);
    SortedAppend([r], y, e.Limit());
    if Canonical(s0) {
      CanonicalAppend([r], y, e.Limit());
    }
  }

  lemma {:induction false} GiveUpLeft(e: Extent, base: int, limit: int)
    requires base <= e.base < limit < e.Limit()
    ensures Conserved([e], [e.Rebase(limit)], [Extent(e.base, limit - e.base, e.ptr)], base, limit)
  {
    var r, d := e.Rebase(limit), Extent(e.base, limit - e.base, e.ptr);
    ModelSingle(e);
    ModelSingle(r);
    ModelSingle(d);
    hide Model;
    assert SpanOf(e).Keys == (SpanOf(r) + SpanOf(d)).Keys;
    assert SpanOf(e) == SpanOf(r) + SpanOf(d);
  }

  /** When the range is clear, the cut is the map without the range, and `del` is the map inside it. */
  lemma {:induction false} CarveDone(s0: seq<Extent>, x: seq<Extent>, y: seq<Extent>, del: seq<Extent>, base: int, limit: int)
    requires PartlyCut(s0, x, y, del, base, limit) && base <= limit && Above(y, limit)
    ensures Sorted(x + y)
    ensures Model(x + y) == Remove(Model(s0), base, limit)
    ensures Model(del) == Restrict(Model(s0), base, limit)
    ensures base < limit && Canonical(s0) ==> Canonical(x + y)
    ensures base == limit && Canonical(s0) ==> (Canonical(x + y) <==> !Inside(s0, base))
    ensures forall i :: 0 <= i < |del| ==> if base < limit then 0 < del[i].len else del[i].len == 0
  {
    hide Model;
    if base == limit && Inside(s0, base) {
      assert (x + y)[|x| - 1] == x[|x| - 1] && (x + y)[|x|] == y[0];
    }
    SortedAppend(x, y, base);
    ModelConcat(x, y);
    ModelBelow(x, base);
    ModelAbove(y, limit);
    if base < limit && Canonical(s0) {
      CanonicalAppend(x, y, base);
    }
    assert forall a :: a in Model(x + y) ==> !(base <= a < limit);
    assert Model(x + y).Keys == Remove(Model(s0), base, limit).Keys;
    assert Model(del).Keys == Restrict(Model(s0), base, limit).Keys;
  }

  // ---- putting an extent in ----

  /** `s` with `e` entered is `s'`. */
  ghost predicate Placed(s: seq<Extent>, e: Extent, s': seq<Extent>) {
    && Sorted(s') && Model(s') == Model(s) + SpanOf(e)
    && (Canonical(s) ==> Canonical(s'))
  }

  /** Between two extents it cannot be merged with. */
  lemma {:induction false} PlaceAlone(x: seq<Extent>, y: seq<Extent>, e: Extent)
    requires Sorted(x + y) && Below(x, e.base) && Above(y, e.Limit()) && 0 < e.len
    requires x != [] ==> !Adjacent(x[|x| - 1], e)
    requires y != [] ==> !Adjacent(e, y[0])
    ensures Placed(x + y, e, x + [e] + y)
  {
    SortedParts(x, y);
    PlaceMiddle(x, [], e, e, y);
    assert x + [] + y == x + y;
    if Canonical(x + y) {
      CanonicalParts(x, y);
      PlaceCanonical(x, e, y);
    }
  }

  lemma {:induction false} PlaceCanonical(x: seq<Extent>, f: Extent, y: seq<Extent>)
    requires Canonical(x) && Canonical(y) && 0 < f.len && Below(x, f.base) && Above(y, f.Limit())
    requires (x != [] ==> !Adjacent(x[|x| - 1], f)) && (y != [] ==> !Adjacent(f, y[0]))
    ensures Canonical(x + [f] + y)
  {
    One(f);
    CanonicalAppend(x, [f], f.base);
    CanonicalAppend(x + [f], y, f.Limit());
  }

  /** `f` covers what `m` and `e` cover. */
  lemma {:induction false} PlaceMiddle(x: seq<Extent>, m: seq<Extent>, e: Extent, f: Extent, y: seq<Extent>)
    requires Sorted(x) && Sorted(y) && Below(x, f.base) && Above(y, f.Limit()) && 0 < f.len
    requires SpanOf(f) == Model(m) + SpanOf(e) && f.base <= e.base && e.Limit() <= f.Limit()
    ensures Sorted(x + [f] + y) && Model(x + [f] + y) == Model(x + m + y) + SpanOf(e)
  {
    hide Model;
    One(f);
    SortedAppend(x, [f], f.base);
    SortedAppend(x + [f], y, f.Limit());
    ModelThree(x, [f], y);
    ModelThree(x, m, y);
    ModelAbove(y, f.Limit());
    UnionPast(Model(x), Model(m), SpanOf(e), Model(y));
  }

  lemma {:induction false} UnionPast(x: map<int, Ptr>, m: map<int, Ptr>, e: map<int, Ptr>, y: map<int, Ptr>)
    requires forall a :: a in y ==> a !in e
    ensures x + (m + e) + y == x + m + y + e
  {
    var l, r := x + (m + e) + y, x + m + y + e;
    assert l.Keys == r.Keys;
    assert forall a :: a in l ==> l[a] == r[a];
    assert l == r;
  }

  lemma {:induction false} SpanJoin(l: Extent, e: Extent)
    requires Adjacent(l, e) && 0 < l.len && 0 < e.len
    ensures SpanOf(l.Relimit(e.Limit())) == SpanOf(l) + SpanOf(e)
    ensures SpanOf(l.Relimit(e.Limit())) == SpanOf(e) + SpanOf(l)
    ensures e.Rebase(l.base) == l.Relimit(e.Limit())
  {
    assert SpanOf(l.Relimit(e.Limit())).Keys == (SpanOf(l) + SpanOf(e)).Keys;
    assert SpanOf(l.Relimit(e.Limit())) == SpanOf(l) + SpanOf(e);
    assert SpanOf(l) + SpanOf(e) == SpanOf(e) + SpanOf(l);
  }

  /** Merged with the extent before it. */
  lemma {:induction false} PlaceAfter(x: seq<Extent>, l: Extent, y: seq<Extent>, e: Extent)
    requires Sorted(x + [l] + y) && Adjacent(l, e) && 0 < e.len && Above(y, e.Limit())
    requires y != [] ==> !Adjacent(e, y[0])
    ensures Placed(x + [l] + y, e, x + [l.Relimit(e.Limit())] + y)
  {
    Middle(x, l, y);
    One(l);
    SpanJoin(l, e);
    PlaceMiddle(x, [l], e, l.Relimit(e.Limit()), y);
    if Canonical(x + [l] + y) {
      PlaceCanonical(x, l.Relimit(e.Limit()), y);
    }
  }

  /** Merged with the extent after it. */
  lemma {:induction false} PlaceBefore(x: seq<Extent>, r: Extent, y: seq<Extent>, e: Extent)
    requires Sorted(x + [r] + y) && Adjacent(e, r) && 0 < e.len && Below(x, e.base)
    requires x != [] ==> !Adjacent(x[|x| - 1], e)
    ensures Placed(x + [r] + y, e, x + [r.Rebase(e.base)] + y)
  {
    Middle(x, r, y);
    One(r);
    SpanJoin(e, r);
    PlaceMiddle(x, [r], e, r.Rebase(e.base), y);
    if Canonical(x + [r] + y) {
      PlaceCanonical(x, r.Rebase(e.base), y);
    }
  }

  lemma {:induction false} UnionSwap(l: map<int, Ptr>, e: map<int, Ptr>, r: map<int, Ptr>)
    requires forall a :: a in e ==> a !in r
    ensures l + e + r == l + r + e
  {
    var a, b := l + e + r, l + r + e;
    assert a.Keys == b.Keys;
    assert forall k :: k in a ==> a[k] == b[k];
    assert a == b;
  }

  /** An extent that closes the gap between two makes one extent of them. */
  lemma {:induction false} Bridged(l: Extent, r: Extent, e: Extent)
    requires Adjacent(l, e) && Adjacent(e, r) && 0 < l.len && 0 < e.len && 0 < r.len
    ensures SpanOf(l.Relimit(r.Limit())) == Model([l] + [r]) + SpanOf(e)
  {
    hide Model;
    One(l);
    One(r);
    SpanJoin(l, e);
    SpanJoin(l.Relimit(e.Limit()), r);
    ModelConcat([l], [r]);
    UnionSwap(SpanOf(l), SpanOf(e), SpanOf(r));
  }

  lemma {:induction false} PlaceBetween(x: seq<Extent>, l: Extent, r: Extent, y: seq<Extent>, e: Extent)
    requires Sorted(x + [l] + ([r] + y)) && Adjacent(l, e) && Adjacent(e, r) && 0 < e.len
    ensures Placed(x + [l] + ([r] + y), e, x + [l.Relimit(r.Limit())] + y)
  {
    hide Model, Sorted, Canonical, SpanOf;
    var f := l.Relimit(r.Limit());
    Middle(x, l, [r] + y);
    assert x + [l] + ([r] + y) == (x + [l]) + [r] + y;
    Middle(x + [l], r, y);
    Bridged(l, r, e);
    PlaceMiddle(x, [l] + [r], e, f, y);
    assert x + ([l] + [r]) + y == x + [l] + ([r] + y);
    if Canonical(x + [l] + ([r] + y)) {
      PlaceCanonical(x, f, y);
    }
  }
}
