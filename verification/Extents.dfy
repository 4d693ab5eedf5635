/** Pointers, extents, and the plain map that a sequence of extents stands for. */
module Extents {

  /** What an extent map maps to: a sector of a numbered object, or a byte address of an in-memory buffer. */
  datatype Ptr = ObjPtr(obj: int, offset: int) | BufPtr(addr: int)

  /** Pointers advance in sectors; a buffer address moves 512 bytes for each of them. */
  function Adv(p: Ptr, n: int): Ptr {
    match p
    case ObjPtr(obj, offset) => ObjPtr(obj, offset + n)
    case BufPtr(addr) => BufPtr(addr + 512 * n)
  }

  datatype Extent = Extent(base: int, len: int, ptr: Ptr) {
    function Limit(): int {
      base + len
    }

    function Relimit(limit: int): Extent {
      this.(len := limit - base)
    }

    function Rebase(newBase: int): Extent {
      Extent(newBase, len - (newBase - base), Adv(ptr, newBase - base))
    }

    /** The part of the extent inside [lo, hi). */
    function Clip(lo: int, hi: int): Extent {
      var b := if base < lo then lo else base;
      var l := if hi < Limit() then hi else Limit();
      Extent(b, l - b, Adv(ptr, b - base))
    }
  }

  /** Two extents that are really one run of sectors. */
  predicate Adjacent(left: Extent, right: Extent) {
    left.Limit() == right.base && Adv(left.ptr, left.len) == right.ptr
  }

  predicate In(a: int, base: int, limit: int) {
    base <= a < limit
  }

  /** The sectors [base, limit). */
  function Range(base: int, limit: int): set<int> {
    set a | base <= a < limit && In(a, base, limit)
  }

  /** The mapping of the sectors [base, limit) to consecutive places from `p`. */
  function Span(base: int, limit: int, p: Ptr): map<int, Ptr> {
    map a | base <= a < limit && In(a, base, limit) :: Adv(p, a - base)
  }

  function SpanOf(e: Extent): map<int, Ptr> {
    Span(e.base, e.Limit(), e.ptr)
  }

  /** The plain map a sequence of extents stands for. */
  function Model(s: seq<Extent>): map<int, Ptr> {
    if s == [] then map[] else Model(s[..|s| - 1]) + SpanOf(s[|s| - 1])
  }

  function Override(m: map<int, Ptr>, base: int, limit: int, p: Ptr): map<int, Ptr> {
    m + Span(base, limit, p)
  }

  function Remove(m: map<int, Ptr>, base: int, limit: int): map<int, Ptr> {
    map a | a in m && !(base <= a < limit) :: m[a]
  }

  function Restrict(m: map<int, Ptr>, base: int, limit: int): map<int, Ptr> {
    map a | a in m && base <= a < limit :: m[a]
  }

  /** What overriding, removing and keeping a range does to each sector. */
  lemma {:induction false} RangeLaws(m: map<int, Ptr>, base: int, limit: int, p: Ptr, a: int)
    ensures var o, r, k := Override(m, base, limit, p), Remove(m, base, limit), Restrict(m, base, limit);
            if base <= a < limit then
              && a in o && o[a] == (match p case ObjPtr(n, off) => ObjPtr(n, off + (a - base)) case BufPtr(x) => BufPtr(x + 512 * (a - base)))
              && a !in r && (a in k <==> a in m) && (a in m ==> k[a] == m[a])
            else
              && (a in o <==> a in m) && (a in m ==> o[a] == m[a])
              && (a in r <==> a in m) && (a in m ==> r[a] == m[a]) && a !in k
  {
  }

  /** Nonempty extents in increasing order that do not overlap. */
  ghost predicate Sorted(s: seq<Extent>) {
    && (forall i :: 0 <= i < |s| ==> 0 < s[i].len)
    && (forall i, j :: 0 <= i < j < |s| ==> s[i].Limit() <= s[j].base)
  }

  /** Sorted, and no two neighbours can be merged. */
  ghost predicate Canonical(s: seq<Extent>) {
    && Sorted(s)
    && (forall i :: 0 <= i < |s| - 1 ==> !Adjacent(s[i], s[i + 1]))
  }

  ghost predicate Below(s: seq<Extent>, b: int) {
    forall i :: 0 <= i < |s| ==> s[i].Limit() <= b
  }

  ghost predicate Above(s: seq<Extent>, b: int) {
    forall i :: 0 <= i < |s| ==> b <= s[i].base
  }

  lemma {:induction false} UnionAssociative(m: map<int, Ptr>, n: map<int, Ptr>, o: map<int, Ptr>)
    ensures m + n + o == m + (n + o)
  {
  }

  lemma {:induction false} ModelConcat(s: seq<Extent>, t: seq<Extent>)
    ensures Model(s + t) == Model(s) + Model(t)
  {
    if t == [] {
      assert s + t == s;
    } else {
      var n := |t| - 1;
      assert (s + t)[..|s + t| - 1] == s + t[..n];
      ModelConcat(s, t[..n]);
      UnionAssociative(Model(s), Model(t[..n]), SpanOf(t[n]));
    }
  }

  lemma {:induction false} ModelSingle(e: Extent)
    ensures Model([e]) == SpanOf(e)
  {
    assert [e][..0] == [];
  }

  /** Every mapped sector lies in some extent, at the place that extent gives it. */
  lemma {:induction false} ModelHasExtent(s: seq<Extent>, a: int) returns (i: int)
    requires a in Model(s)
    ensures 0 <= i < |s| && s[i].base <= a < s[i].Limit() && Model(s)[a] == Adv(s[i].ptr, a - s[i].base)
  {
    var n := |s| - 1;
    if a in SpanOf(s[n]) {
      i := n;
    } else {
      i := ModelHasExtent(s[..n], a);
    }
  }

  /** In a sorted sequence every extent determines the mapping of all its sectors. */
  lemma {:induction false} ModelAt(s: seq<Extent>, i: int, a: int)
    requires Sorted(s) && 0 <= i < |s| && s[i].base <= a < s[i].Limit()
    ensures a in Model(s) && Model(s)[a] == Adv(s[i].ptr, a - s[i].base)
  {
    var n := |s| - 1;
    if i < n {
      ModelAt(s[..n], i, a);
    }
  }

  lemma {:induction false} ModelBelow(s: seq<Extent>, b: int)
    requires Below(s, b)
    ensures forall a :: a in Model(s) ==> a < b
  {
    forall a | a in Model(s) ensures a < b {
      var i := ModelHasExtent(s, a);
    }
  }

  lemma {:induction false} ModelAbove(s: seq<Extent>, b: int)
    requires Above(s, b)
    ensures forall a :: a in Model(s) ==> b <= a
  {
    forall a | a in Model(s) ensures b <= a {
      var i := ModelHasExtent(s, a);
    }
  }

  /** A canonical sequence is the decomposition of its map into maximal runs: the map determines it. */
  lemma {:induction false} CanonicalUnique(s: seq<Extent>, t: seq<Extent>)
    requires Canonical(s) && Canonical(t) && Model(s) == Model(t)
    ensures s == t
    decreases |s| + |t|
  {
    if s == [] || t == [] {
      if s != [] {
        ModelAt(s, 0, s[0].base);
      }
      if t != [] {
        ModelAt(t, 0, t[0].base);
      }
    } else {
      FirstRunNotShorter(s, t);
      FirstRunNotShorter(t, s);
      assert s[0] == t[0];
      DropFirst(s);
      DropFirst(t);
      CanonicalUnique(s[1..], t[1..]);
      assert s == [s[0]] + s[1..];
      assert t == [t[0]] + t[1..];
    }
  }

  lemma {:induction false} DropFirst(s: seq<Extent>)
    requires Canonical(s) && s != []
    ensures Canonical(s[1..]) && Model(s[1..]) == Remove(Model(s), s[0].base, s[0].Limit())
  {
    hide Model, Remove;
    TailCanonical(s);
    DropSpan(s[0], s[1..]);
    assert s == [s[0]] + s[1..];
  }

  lemma {:induction false} TailCanonical(s: seq<Extent>)
    requires Canonical(s) && s != []
    ensures Canonical(s[1..]) && Above(s[1..], s[0].Limit())
  {
    hide Model;
    var t := s[1..];
    assert forall i :: 0 <= i < |t| ==> t[i] == s[i + 1];
  }

  lemma {:induction false} DropSpan(e: Extent, t: seq<Extent>)
    requires Above(t, e.Limit())
    ensures Model(t) == Remove(Model([e] + t), e.base, e.Limit())
  {
    ModelConcat([e], t);
    ModelSingle(e);
    ModelAbove(t, e.Limit());
  }

  lemma {:induction false} FirstBase(s: seq<Extent>, a: int)
    requires Sorted(s) && a in Model(s)
    ensures s != [] && s[0].base <= a
  {
    var i := ModelHasExtent(s, a);
    assert i > 0 ==> s[0].Limit() <= s[i].base;
  }

  lemma {:induction false} FirstRunNotShorter(s: seq<Extent>, t: seq<Extent>)
    requires Canonical(s) && Canonical(t) && Model(s) == Model(t) && s != [] && t != []
    ensures s[0].base == t[0].base && s[0].ptr == t[0].ptr && s[0].len >= t[0].len
  {
    ModelAt(s, 0, s[0].base);
    ModelAt(t, 0, t[0].base);
    FirstBase(s, t[0].base);
    FirstBase(t, s[0].base);
    if s[0].len < t[0].len {
      ModelAt(t, 0, s[0].Limit());
      NotAfterFirst(s, Adv(s[0].ptr, s[0].len));
    }
  }

  /** The first extent of a canonical sequence is a maximal run. */
  lemma {:induction false} NotAfterFirst(s: seq<Extent>, p: Ptr)
    requires Canonical(s) && s != [] && p == Adv(s[0].ptr, s[0].len)
    ensures s[0].Limit() in Model(s) ==> Model(s)[s[0].Limit()] != p
  {
    var a := s[0].Limit();
    if a in Model(s) {
      var k := ModelHasExtent(s, a);
      assert forall j :: 1 < j < |s| ==> s[0].Limit() <= s[1].base < s[1].Limit() <= s[j].base;
      assert !Adjacent(s[0], s[1]);
    }
  }

  /** Every extent of a sorted sequence whose map stays inside a run of `n` places has at most `n` sectors. */
  lemma {:induction false} ExtentWithin(s: seq<Extent>, i: int, obj: int, lo: int, n: int)
    requires Sorted(s) && 0 <= i < |s|
    requires forall a :: a in Model(s) ==> Model(s)[a].ObjPtr?
    requires s[i].ptr.ObjPtr? && s[i].ptr.obj == obj
    requires forall a :: a in Model(s) && Model(s)[a].obj == obj ==> lo <= Model(s)[a].offset < lo + n
    ensures s[i].len <= n
  {
    ModelAt(s, i, s[i].base);
    ModelAt(s, i, s[i].Limit() - 1);
  }
}
