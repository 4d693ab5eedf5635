/** Revalidating a collection request against the map: what is still mapped where it was picked is kept. */
module Revalidation {
  import opened Extents
  import opened ExtentMap
  import opened Volume
  import opened Machine

  /** The sectors of the entry under extent `x`, if that still points into the entry's object. */
  function Piece(e: GcEntry, x: Extent): seq<Write> {
    if x.ptr.ObjPtr? && x.ptr.obj == e.obj && e.lba <= x.base <= x.Limit() <= e.lba + |e.data|
    then [Write(x.base, e.data[x.base - e.lba..x.Limit() - e.lba])] else []
  }

  ghost function Pieces(e: GcEntry, r: seq<Extent>): seq<Write> {
    if r == [] then [] else Pieces(e, r[..|r| - 1]) + Piece(e, r[|r| - 1])
  }

  /** Every piece comes from an extent. */
  lemma {:induction false} PieceFrom(e: GcEntry, r: seq<Extent>, j: int) returns (i: int)
    requires 0 <= j < |Pieces(e, r)|
    ensures 0 <= i < |r| && Piece(e, r[i]) == [Pieces(e, r)[j]]
  {
    var k := |r| - 1;
    if j < |Pieces(e, r[..k])| {
      i := PieceFrom(e, r[..k], j);
    } else {
      i := k;
    }
  }

  /** Every extent gives its piece. */
  lemma {:induction false} PieceFor(e: GcEntry, r: seq<Extent>, i: int) returns (j: int)
    requires 0 <= i < |r| && Piece(e, r[i]) != []
    ensures 0 <= j < |Pieces(e, r)| && [Pieces(e, r)[j]] == Piece(e, r[i])
  {
    var k := |r| - 1;
    if i < k {
      j := PieceFor(e, r[..k], i);
    } else {
      j := |Pieces(e, r)| - 1;
    }
  }

  lemma {:induction false} PiecesBelow(e: GcEntry, r: seq<Extent>, b: int)
    requires Below(r, b)
    ensures forall j :: 0 <= j < |Pieces(e, r)| ==> Pieces(e, r)[j].Limit() <= b
  {
    if r != [] {
      PiecesBelow(e, r[..|r| - 1], b);
    }
  }

  /** Pieces of extents that do not overlap do not overlap. */
  lemma {:induction false} PiecesSorted(e: GcEntry, r: seq<Extent>)
    requires Sorted(r)
    ensures forall j :: 0 <= j < |Pieces(e, r)| ==> 0 < |Pieces(e, r)[j].data|
    ensures forall i, j :: 0 <= i < j < |Pieces(e, r)| ==> Pieces(e, r)[i].Limit() <= Pieces(e, r)[j].lba
  {
    if r != [] {
      var k := |r| - 1;
      PiecesSorted(e, r[..k]);
      PiecesBelow(e, r[..k], r[k].base);
    }
  }

  /** What one entry keeps. */
  ghost predicate KeptOf(m: map<int, Ptr>, e: GcEntry, part: seq<Write>) {
    && (forall j :: 0 <= j < |part| ==> 0 < |part[j].data|)
    && DisjointPieces(part)
    && (forall j :: 0 <= j < |part| ==> Kept(m, e, part[j]))
    && (forall a :: Keeps(m, e, a) ==> Touches(part, a))
  }

  ghost predicate Kept(m: map<int, Ptr>, e: GcEntry, p: Write) {
    forall a :: p.Covers(a) ==> Keeps(m, e, a) && p.data[a - p.lba] == e.data[a - e.lba]
  }

  lemma {:induction false} KeptPiece(m: map<int, Ptr>, e: GcEntry, r: seq<Extent>, j: int)
    requires Sorted(r) && Model(r) == Restrict(m, e.lba, e.lba + |e.data|)
    requires 0 <= j < |Pieces(e, r)|
    ensures Kept(m, e, Pieces(e, r)[j])
  {
    hide Model, Pieces;
    var i := PieceFrom(e, r, j);
    var p := Pieces(e, r)[j];
    forall a | p.Covers(a) ensures Keeps(m, e, a) && p.data[a - p.lba] == e.data[a - e.lba] {
      ModelAt(r, i, a);
    }
  }

  lemma {:induction false} KeptTouched(m: map<int, Ptr>, e: GcEntry, r: seq<Extent>, a: int)
    requires Sorted(r) && Model(r) == Restrict(m, e.lba, e.lba + |e.data|)
    requires Above(r, e.lba) && Below(r, e.lba + |e.data|) && Keeps(m, e, a)
    ensures Touches(Pieces(e, r), a)
  {
    hide Model, Pieces;
    var i := ModelHasExtent(r, a);
    var j := PieceFor(e, r, i);
    assert Pieces(e, r)[j].Covers(a);
  }

  lemma {:induction false} KeptAll(m: map<int, Ptr>, e: GcEntry, r: seq<Extent>)
    requires Sorted(r) && Model(r) == Restrict(m, e.lba, e.lba + |e.data|)
    requires Above(r, e.lba) && Below(r, e.lba + |e.data|)
    ensures KeptOf(m, e, Pieces(e, r))
  {
    hide Model, Pieces, Sorted, Restrict, Touches, Keeps, Kept;
    PiecesSorted(e, r);
    var ps := Pieces(e, r);
    forall j | 0 <= j < |ps| ensures Kept(m, e, ps[j]) {
      KeptPiece(m, e, r, j);
    }
    forall a | Keeps(m, e, a) ensures Touches(ps, a) {
      KeptTouched(m, e, r, a);
    }
  }

  /** One more entry. */
  lemma {:induction false} RevalidatedMore(m: map<int, Ptr>, es: seq<GcEntry>, e: GcEntry, ps: seq<Write>, part: seq<Write>)
    requires Revalidated(m, es, ps) && KeptOf(m, e, part) && DisjointEntries(es + [e])
    ensures Revalidated(m, es + [e], ps + part)
  {
    hide Keeps, Touches, Revalidated, KeptOf;
    RevalidatedPositive(m, es, e, ps, part);
    RevalidatedKept(m, es, e, ps, part);
    RevalidatedCovers(m, es, e, ps, part);
    RevalidatedIs(m, es + [e], ps + part);
  }

  /** The third and fourth clause of revalidation. */
  ghost predicate OnlyKept(m: map<int, Ptr>, entries: seq<GcEntry>, pieces: seq<Write>) {
    forall j, a :: 0 <= j < |pieces| && pieces[j].Covers(a) ==>
      exists i :: 0 <= i < |entries| && Keeps(m, entries[i], a) && pieces[j].data[a - pieces[j].lba] == entries[i].data[a - entries[i].lba]
  }

  ghost predicate AllKept(m: map<int, Ptr>, entries: seq<GcEntry>, pieces: seq<Write>) {
    forall i, a :: 0 <= i < |entries| && Keeps(m, entries[i], a) ==> Touches(pieces, a)
  }

  ghost predicate Positive(ps: seq<Write>) {
    forall j :: 0 <= j < |ps| ==> 0 < |ps[j].data|
  }

  lemma {:induction false} RevalidatedIs(m: map<int, Ptr>, entries: seq<GcEntry>, pieces: seq<Write>)
    ensures Revalidated(m, entries, pieces) <==>
            Positive(pieces) && DisjointPieces(pieces) && OnlyKept(m, entries, pieces) && AllKept(m, entries, pieces)
  {
  }

  lemma {:induction false} RevalidatedPositive(m: map<int, Ptr>, es: seq<GcEntry>, e: GcEntry, ps: seq<Write>, part: seq<Write>)
    requires Revalidated(m, es, ps) && KeptOf(m, e, part) && DisjointEntries(es + [e])
    ensures Positive(ps + part) && DisjointPieces(ps + part)
  {
    RevalidatedIs(m, es, ps);
    hide Revalidated, Touches;
    var all := ps + part;
    forall i, j, a | 0 <= i < j < |all| && all[i].Covers(a) ensures !all[j].Covers(a) {
      if i < |ps| <= j {
        assert ps[i].Covers(a);
        var k :| 0 <= k < |es| && Keeps(m, es[k], a);
        assert (es + [e])[k].Covers(a);
        assert !(es + [e])[|es|].Covers(a);
        assert !Keeps(m, e, a);
        assert all[j] == part[j - |ps|] && Kept(m, e, part[j - |ps|]);
      }
    }
  }

  lemma {:induction false} RevalidatedKept(m: map<int, Ptr>, es: seq<GcEntry>, e: GcEntry, ps: seq<Write>, part: seq<Write>)
    requires Revalidated(m, es, ps) && KeptOf(m, e, part)
    ensures OnlyKept(m, es + [e], ps + part)
  {
    RevalidatedIs(m, es, ps);
    hide Revalidated, Touches;
    var all, ee := ps + part, es + [e];
    forall j, a | 0 <= j < |all| && all[j].Covers(a)
      ensures exists i :: 0 <= i < |ee| && Keeps(m, ee[i], a) && all[j].data[a - all[j].lba] == ee[i].data[a - ee[i].lba]
    {
      if j < |ps| {
        var i :| 0 <= i < |es| && Keeps(m, es[i], a) && ps[j].data[a - ps[j].lba] == es[i].data[a - es[i].lba];
        assert Keeps(m, ee[i], a);
      } else {
        assert all[j] == part[j - |ps|] && Kept(m, e, part[j - |ps|]);
        assert Keeps(m, ee[|es|], a);
      }
    }
  }

  lemma {:induction false} RevalidatedCovers(m: map<int, Ptr>, es: seq<GcEntry>, e: GcEntry, ps: seq<Write>, part: seq<Write>)
    requires Revalidated(m, es, ps) && KeptOf(m, e, part)
    ensures AllKept(m, es + [e], ps + part)
  {
    RevalidatedIs(m, es, ps);
    hide Revalidated, Keeps;
    forall i, a | 0 <= i < |es + [e]| && Keeps(m, (es + [e])[i], a) ensures Touches(ps + part, a) {
      if i < |es| {
        assert (es + [e])[i] == es[i] && Touches(ps, a);
        var j :| 0 <= j < |ps| && ps[j].Covers(a);
        assert (ps + part)[j].Covers(a);
      } else {
        assert (es + [e])[i] == e && Touches(part, a);
        var j :| 0 <= j < |part| && part[j].Covers(a);
        assert (ps + part)[|ps| + j].Covers(a);
      }
    }
  }

  // ---- no piece could be longer ----

  /** Sectors `a` and `a + 1` are at consecutive places. */
  ghost predicate Joined(m: map<int, Ptr>, a: int) {
    a in m && a + 1 in m && m[a + 1] == Adv(m[a], 1)
  }

  /** The run of sectors ends where its extent ends. */
  ghost predicate Edges(m: map<int, Ptr>, lo: int, hi: int) {
    !Joined(m, lo - 1) && !Joined(m, hi - 1)
  }

  /** The piece is a run of sectors the entry keeps that could not be longer. */
  ghost predicate WholePiece(m: map<int, Ptr>, e: GcEntry, p: Write) {
    && 0 < |p.data| && e.lba <= p.lba && p.Limit() <= e.lba + |e.data|
    && (forall a :: p.Covers(a) ==> Keeps(m, e, a))
    && (p.lba == e.lba || !Joined(m, p.lba - 1)) && (p.Limit() == e.lba + |e.data| || !Joined(m, p.Limit() - 1))
  }

  /** The pieces of one entry, in order. */
  ghost predicate WholePart(m: map<int, Ptr>, e: GcEntry, part: seq<Write>) {
    && (forall j :: 0 <= j < |part| ==> WholePiece(m, e, part[j]))
    && (forall i, j :: 0 <= i < j < |part| ==> part[i].Limit() <= part[j].lba)
  }

  ghost function Joint(parts: seq<seq<Write>>): seq<Write> {
    if parts == [] then [] else Joint(parts[..|parts| - 1]) + parts[|parts| - 1]
  }

  ghost predicate WholeParts(m: map<int, Ptr>, es: seq<GcEntry>, parts: seq<seq<Write>>) {
    |parts| == |es| && forall i :: 0 <= i < |es| ==> WholePart(m, es[i], parts[i])
  }

  /** In a sequence of merged extents no run goes on across the end of an extent. */
  lemma {:induction false} CanonicalEdge(c: seq<Extent>, i: int, a: int)
    requires Canonical(c) && 0 <= i < |c| && (a + 1 == c[i].base || a + 1 == c[i].Limit())
    ensures !Joined(Model(c), a)
  {
    hide Model;
    if Joined(Model(c), a) {
      var x := ModelHasExtent(c, a);
      var y := ModelHasExtent(c, a + 1);
      if x < y {
        NeighboursApart(c, x, y, a);
      }
    }
  }

  /** Sectors side by side in two merged extents are not at consecutive places. */
  lemma {:induction false} NeighboursApart(c: seq<Extent>, x: int, y: int, a: int)
    requires Canonical(c) && 0 <= x < y < |c| && c[x].base <= a < c[x].Limit() && c[y].base <= a + 1 < c[y].Limit()
    ensures Adv(c[y].ptr, a + 1 - c[y].base) != Adv(Adv(c[x].ptr, a - c[x].base), 1)
  {
    assert c[x].Limit() == a + 1 && c[y].base == a + 1;
    assert c[x].Limit() <= c[x + 1].base && 0 < c[x + 1].len && !Adjacent(c[x], c[x + 1]);
    assert y == x + 1;
  }

  /** What an entry keeps of a merged map is in runs that could not be longer. */
  lemma {:induction false} PiecesWhole(m: map<int, Ptr>, e: GcEntry, r: seq<Extent>)
    requires Canonical(r) && Model(r) == Restrict(m, e.lba, e.lba + |e.data|) && Above(r, e.lba) && Below(r, e.lba + |e.data|)
    ensures WholePart(m, e, Pieces(e, r))
  {
    hide Model, Pieces, WholePiece;
    PiecesSorted(e, r);
    forall j | 0 <= j < |Pieces(e, r)| ensures WholePiece(m, e, Pieces(e, r)[j]) {
      PieceWholeAt(m, e, r, j);
    }
  }

  lemma {:induction false} PieceWholeAt(m: map<int, Ptr>, e: GcEntry, r: seq<Extent>, j: int)
    requires Canonical(r) && Model(r) == Restrict(m, e.lba, e.lba + |e.data|) && Above(r, e.lba) && Below(r, e.lba + |e.data|)
    requires 0 <= j < |Pieces(e, r)|
    ensures WholePiece(m, e, Pieces(e, r)[j])
  {
    hide Model, Pieces;
    PiecesSorted(e, r);
    KeptPiece(m, e, r, j);
    var i := PieceFrom(e, r, j);
    var p := Pieces(e, r)[j];
    assert p.lba == r[i].base && p.Limit() == r[i].Limit();
    CanonicalEdge(r, i, p.lba - 1);
    CanonicalEdge(r, i, p.Limit() - 1);
    JoinedInside(m, e.lba, e.lba + |e.data|, p.lba - 1);
    JoinedInside(m, e.lba, e.lba + |e.data|, p.Limit() - 1);
  }

  lemma {:induction false} JoinedInside(m: map<int, Ptr>, lo: int, hi: int, a: int)
    ensures Joined(m, a) && lo <= a && a + 1 < hi ==> Joined(Restrict(m, lo, hi), a)
  {
  }

  lemma {:induction false} WholeMore(m: map<int, Ptr>, es: seq<GcEntry>, parts: seq<seq<Write>>, e: GcEntry, part: seq<Write>)
    requires WholeParts(m, es, parts) && WholePart(m, e, part)
    ensures WholeParts(m, es + [e], parts + [part])
  {
    hide WholePart;
  }

  /** The pieces of a request that are still live, with the data that was read for them. */
  method Revalidate(omap: ExtMap, entries: seq<GcEntry>) returns (pieces: seq<Write>, ghost parts: seq<seq<Write>>)
    requires omap.Valid() && DisjointEntries(entries)
    requires forall i :: 0 <= i < |entries| ==> 0 < |entries[i].data|
    ensures Revalidated(omap.View(), entries, pieces) && pieces == Joint(parts)
    ensures Canonical(omap.Contents()) ==> WholeParts(omap.View(), entries, parts)
  {
    hide Flat, Model, Revalidated, Sorted, Canonical, KeptOf, Pieces, WholeParts, WholePart;
    ghost var m := omap.View();
    pieces, parts := [], [];
    assert entries[..0] == [];
    RevalidatedNone(m);
    for k := 0 to |entries|
      invariant Revalidated(m, entries[..k], pieces) && pieces == Joint(parts)
      invariant Canonical(omap.Contents()) ==> WholeParts(m, entries[..k], parts)
    {
      var e := entries[k];
      var r := omap.Overlaps(e.lba, e.lba + |e.data|);
      var part := Under(e, r);
      KeptAll(m, e, r);
      assert entries[..k + 1] == entries[..k] + [e];
      DisjointPrefix(entries, k + 1);
      RevalidatedMore(m, entries[..k], e, pieces, part);
      if Canonical(omap.Contents()) {
        PiecesWhole(m, e, r);
        WholeMore(m, entries[..k], parts, e, part);
      }
      assert (parts + [part])[..|parts|] == parts;
      pieces, parts := pieces + part, parts + [part];
    }
    assert entries[..|entries|] == entries;
  }

  method Under(e: GcEntry, r: seq<Extent>) returns (part: seq<Write>)
    ensures part == Pieces(e, r)
  {
    part := [];
    assert r[..0] == [];
    for i := 0 to |r|
      invariant part == Pieces(e, r[..i])
    {
      assert r[..i + 1][..i] == r[..i];
      part := part + Piece(e, r[i]);
    }
    assert r[..|r|] == r;
  }

  lemma {:induction false} RevalidatedNone(m: map<int, Ptr>)
    ensures Revalidated(m, [], []) && Joint([]) == [] && WholeParts(m, [], [])
  {
  }

  lemma {:induction false} DisjointPrefix(es: seq<GcEntry>, k: int)
    requires DisjointEntries(es) && 0 <= k <= |es|
    ensures DisjointEntries(es[..k])
  {
    forall i, j, a | 0 <= i < j < k && es[..k][i].Covers(a) ensures !es[..k][j].Covers(a) {
      assert es[i].Covers(a);
    }
  }
}
