/** The write journal: a ring of pages holding records and pads, each with a link to the header before it. */
module Journal {

  datatype Header = Header(pad: bool, len: int, num: int, prev: int)

  datatype Page = Head(h: Header) | Body

  /** Where a record lies: pages written before it, and before the lap of the ring it is on. */
  datatype Place = Place(at: int, lap: int)

  // ---- layout ----

  function DivUp(n: int, d: int): int
    requires 0 < d
  {
    (n + d - 1) / d
  }

  /** The data region [base, limit) of a journal file of `bytes` bytes. */
  function Region(bytes: nat): (int, int) {
    var content := bytes / 4096 - 2;
    var meta := 2 * (DivUp(content, 256) + DivUp(content, 512));
    (1 + meta, 1 + meta + (content - meta))
  }

  /** Behind page 0 come two copies of the map and of the lengths: `a` pages of 256 entries and `b` of 512, as many as the
      content needs. The region behind them lies inside the file, and has room for a page exactly from seven pages on. */
  lemma {:induction false} RegionInFile(bytes: nat) returns (a: int, b: int)
    ensures var content := bytes / 4096 - 2;
            256 * (a - 1) < content <= 256 * a && 512 * (b - 1) < content <= 512 * b && Region(bytes).0 == 1 + 2 * a + 2 * b
    ensures var (base, limit) := Region(bytes);
            && limit == bytes / 4096 - 1
            && (base < limit <==> 7 <= bytes / 4096)
            && (base < limit ==> 0 < base && 4096 * limit < bytes)
  {
    var content := bytes / 4096 - 2;
    a, b := DivUp(content, 256), DivUp(content, 512);
    assert 256 * a < content + 256 && 512 * b < content + 512;
    assert content <= 256 * a && content <= 512 * b;
  }

  // ---- records on the ring ----

  /** A record that fits its lap. */
  ghost predicate Fits(n: int, h: Header, p: Place) {
    0 < h.len && p.lap <= p.at && p.at + h.len <= p.lap + n
  }

  /** Records one after the other on a ring of `n` pages: each starts where the last one ended, on that lap or the next. */
  ghost predicate Tiled(n: int, hs: seq<Header>, ps: seq<Place>) {
    && |hs| == |ps|
    && (forall k :: 0 <= k < |hs| ==> FitsAt(n, hs, ps, k))
    && (forall k :: 0 < k < |hs| ==> FollowsAt(n, hs, ps, k))
  }

  ghost predicate FitsAt(n: int, hs: seq<Header>, ps: seq<Place>, k: int)
    requires 0 <= k < |hs| == |ps|
  {
    Fits(n, hs[k], ps[k])
  }

  ghost predicate FollowsAt(n: int, hs: seq<Header>, ps: seq<Place>, k: int)
    requires 0 < k < |hs| == |ps|
  {
    Follows(n, hs[k - 1], ps[k - 1], ps[k])
  }

  ghost predicate Follows(n: int, h: Header, p: Place, q: Place) {
    q.at == p.at + h.len && q.lap == if q.at < p.lap + n then p.lap else p.lap + n
  }

  lemma {:induction false} Laps(n: int, hs: seq<Header>, ps: seq<Place>, i: int, j: int)
    requires Tiled(n, hs, ps) && 0 <= i <= j < |hs|
    ensures ps[j].lap == ps[i].lap || ps[j].lap == ps[i].lap + n || ps[j].lap >= ps[i].lap + 2 * n
    ensures i < j ==> ps[i].at + hs[i].len <= ps[j].at
    decreases j
  {
    if i < j {
      Laps(n, hs, ps, i, j - 1);
      assert FitsAt(n, hs, ps, j - 1) && FollowsAt(n, hs, ps, j);
    }
  }

  /** The pages of a record. */
  ghost predicate OnPage(base: int, h: Header, p: Place, page: int) {
    base + (p.at - p.lap) <= page < base + (p.at - p.lap) + h.len
  }

  /** Records that together take no more pages than the ring has do not overlap. */
  lemma {:induction false} Apart(n: int, hs: seq<Header>, ps: seq<Place>, i: int, j: int, base: int, page: int)
    requires Tiled(n, hs, ps) && 0 <= i < j < |hs| && ps[j].at + hs[j].len - ps[i].at <= n
    ensures !(OnPage(base, hs[i], ps[i], page) && OnPage(base, hs[j], ps[j], page))
  {
    Laps(n, hs, ps, i, j);
    assert FitsAt(n, hs, ps, i) && FitsAt(n, hs, ps, j);
  }

  /** Pages written so far. */
  ghost function End(hs: seq<Header>, ps: seq<Place>): int
    requires |hs| == |ps|
  {
    if hs == [] then 0 else ps[|ps| - 1].at + hs[|hs| - 1].len
  }

  /** Where the next record goes. */
  ghost function NextPlace(n: int, hs: seq<Header>, ps: seq<Place>): Place
    requires |hs| == |ps|
  {
    if hs == [] then Place(0, 0)
    else var p, e := ps[|ps| - 1], End(hs, ps); Place(e, if e < p.lap + n then p.lap else p.lap + n)
  }

  lemma {:induction false} TiledMore(n: int, hs: seq<Header>, ps: seq<Place>, h: Header)
    requires Tiled(n, hs, ps) && 0 < h.len
    requires var p := NextPlace(n, hs, ps); p.at + h.len <= p.lap + n
    ensures Tiled(n, hs + [h], ps + [NextPlace(n, hs, ps)])
  {
    var p := NextPlace(n, hs, ps);
    var hs', ps' := hs + [h], ps + [p];
    if hs != [] {
      assert FitsAt(n, hs, ps, |hs| - 1);
    }
    forall k | 0 < k < |hs'| ensures FollowsAt(n, hs', ps', k) {
      if k < |hs| {
        assert FollowsAt(n, hs, ps, k);
      }
    }
    forall k | 0 <= k < |hs'| ensures FitsAt(n, hs', ps', k) {
      if k < |hs| {
        assert FitsAt(n, hs, ps, k);
      }
    }
  }

  /** Numbers rise by one, and every header links to the page of the one before it. */
  ghost predicate Linked(base: int, first: int, hs: seq<Header>, ps: seq<Place>) {
    && |hs| == |ps|
    && (forall k :: 0 <= k < |hs| ==> LinkedAt(base, first, hs, ps, k))
  }

  ghost predicate LinkedAt(base: int, first: int, hs: seq<Header>, ps: seq<Place>, k: int)
    requires 0 <= k < |hs| == |ps|
  {
    hs[k].num == first + k && hs[k].prev == PageBefore(base, ps, k)
  }

  ghost function PageBefore(base: int, ps: seq<Place>, k: int): int
    requires 0 <= k <= |ps|
  {
    if k == 0 then 0 else base + (ps[k - 1].at - ps[k - 1].lap)
  }

  /** Every record written in the last `n` pages is still there. */
  ghost predicate Intact(n: int, disk: seq<Page>, hs: seq<Header>, ps: seq<Place>)
    requires |hs| == |ps|
  {
    |disk| == n && forall k :: 0 <= k < |hs| && End(hs, ps) - ps[k].at <= n ==> HeadAt(disk, ps[k].at - ps[k].lap, hs[k])
  }

  ghost predicate HeadAt(disk: seq<Page>, i: int, h: Header) {
    0 <= i < |disk| && disk[i] == Head(h)
  }

  /** A record overwrites only what is a whole ring behind it. */
  lemma {:induction false} IntactMore(n: int, disk: seq<Page>, disk': seq<Page>, hs: seq<Header>, ps: seq<Place>, h: Header)
    requires Tiled(n, hs, ps) && 0 < h.len && var p := NextPlace(n, hs, ps); p.at + h.len <= p.lap + n
    requires Intact(n, disk, hs, ps) && |disk'| == n
    requires var p := NextPlace(n, hs, ps); var o := p.at - p.lap;
             HeadAt(disk', o, h) && forall i :: 0 <= i < n && !(o <= i < o + h.len) ==> disk'[i] == disk[i]
    ensures Intact(n, disk', hs + [h], ps + [NextPlace(n, hs, ps)])
  {
    var p := NextPlace(n, hs, ps);
    var hs', ps' := hs + [h], ps + [p];
    TiledMore(n, hs, ps, h);
    forall k | 0 <= k < |hs'| && End(hs', ps') - ps'[k].at <= n ensures HeadAt(disk', ps'[k].at - ps'[k].lap, hs'[k]) {
      if k < |hs| {
        assert HeadAt(disk, ps[k].at - ps[k].lap, hs[k]) && FitsAt(n, hs, ps, k);
        Apart(n, hs', ps', k, |hs|, 0, ps[k].at - ps[k].lap);
        assert OnPage(0, hs'[k], ps'[k], ps[k].at - ps[k].lap);
      }
    }
  }

  /** Reading `m` headers backwards from `page`; a page without a header ends the walk. */
  ghost function WalkBack(disk: seq<Page>, base: int, page: int, m: nat): seq<Header>
    decreases m
  {
    if m == 0 || !(0 <= page - base < |disk|) || !disk[page - base].Head? then []
    else [disk[page - base].h] + WalkBack(disk, base, disk[page - base].h.prev, m - 1)
  }

  lemma {:induction false} StillThere(n: int, disk: seq<Page>, hs: seq<Header>, ps: seq<Place>, i: int, j: int)
    requires Tiled(n, hs, ps) && Intact(n, disk, hs, ps) && 0 <= i <= j < |hs| && End(hs, ps) - ps[i].at <= n
    ensures End(hs, ps) - ps[j].at <= n && HeadAt(disk, ps[j].at - ps[j].lap, hs[j])
  {
    Laps(n, hs, ps, i, j);
    assert FitsAt(n, hs, ps, i);
  }

  /** What a walk of `m` headers back from header `k` finds. */
  ghost predicate Visits(w: seq<Header>, hs: seq<Header>, first: int, k: int, m: nat) {
    m <= k <= |hs| && |w| == m && forall i :: 0 <= i < m ==> w[i] == hs[k - 1 - i] && w[i].num == first + k - 1 - i
  }

  lemma {:induction false} VisitsMore(w: seq<Header>, hs: seq<Header>, first: int, k: int, m: nat)
    requires 0 < k <= |hs| && Visits(w, hs, first, k - 1, m) && hs[k - 1].num == first + k - 1
    ensures Visits([hs[k - 1]] + w, hs, first, k, m + 1)
  {
    var v := [hs[k - 1]] + w;
    forall i | 0 <= i < m + 1 ensures v[i] == hs[k - 1 - i] && v[i].num == first + k - 1 - i {
      if i > 0 {
        assert v[i] == w[i - 1];
      }
    }
  }

  /** Following the links visits the last records newest first, pads among them, with numbers falling by one. */
  lemma {:induction false} WalkVisits(n: int, disk: seq<Page>, base: int, first: int, hs: seq<Header>, ps: seq<Place>, k: int, m: nat)
    requires Tiled(n, hs, ps) && Linked(base, first, hs, ps) && Intact(n, disk, hs, ps)
    requires m <= k <= |hs| && (m > 0 ==> End(hs, ps) - ps[k - m].at <= n)
    ensures Visits(WalkBack(disk, base, PageBefore(base, ps, k), m), hs, first, k, m)
    decreases m
  {
    if m > 0 {
      assert LinkedAt(base, first, hs, ps, k - 1);
      hide Tiled, Linked, Intact, Visits, End, WalkBack;
      StillThere(n, disk, hs, ps, k - m, k - 1);
      WalkVisits(n, disk, base, first, hs, ps, k - 1, m - 1);
      WalkStep(disk, base, PageBefore(base, ps, k), m, hs[k - 1]);
      VisitsMore(WalkBack(disk, base, PageBefore(base, ps, k - 1), m - 1), hs, first, k, m - 1);
    }
  }

  lemma {:induction false} WalkStep(disk: seq<Page>, base: int, page: int, m: nat, h: Header)
    requires 0 < m && HeadAt(disk, page - base, h)
    ensures WalkBack(disk, base, page, m) == [h] + WalkBack(disk, base, h.prev, m - 1)
  {
  }

  // ---- the allocator ----

  class WriteCache {
    const base: int
    const limit: int
    var nextAlloc: int
    var previousHdr: int
    var sequence: int
    var disk: seq<Page>
    ghost const first: int
    ghost var heads: seq<Header>
    ghost var places: seq<Place>

    ghost predicate Valid()
      reads this
    {
      && Ring(base, limit, first, disk, heads, places)
      && sequence == first + |heads| && previousHdr == PageBefore(base, places, |heads|)
      && nextAlloc == PageOf(base, NextPlace(limit - base, heads, places))
    }

    /** A journal starts anew on its region, whatever headers an earlier one has left there. */
    constructor (base: int, limit: int, sequence: int, disk: seq<Page>)
      requires 0 < base < limit && |disk| == limit - base
      ensures Valid() && heads == [] && this.base == base && this.limit == limit && first == sequence && this.disk == disk
    {
      this.base, this.limit, this.sequence, first := base, limit, sequence, sequence;
      nextAlloc, previousHdr := base, 0;
      this.disk := disk;
      heads, places := [], [];
    }

    /** The pages for a record of `n` pages, and for the pad in front of it when it does not fit before the end of the ring. */
    method Allocate(n: int) returns (start: int, pad: int, nPad: int, prev: int)
      requires 0 < n && 0 < base <= nextAlloc < limit
      modifies this`nextAlloc, this`previousHdr
      ensures prev == old(previousHdr) && previousHdr == start
      ensures pad == if limit - old(nextAlloc) < n then old(nextAlloc) else 0
      ensures nPad == if pad != 0 then limit - old(nextAlloc) else 0
      ensures start == if pad != 0 then base else old(nextAlloc)
      ensures nextAlloc == if start + n == limit then base else start + n
      ensures start + n <= limit <==> n <= limit - base
    {
      prev := previousHdr;
      pad, nPad := 0, 0;
      if limit - nextAlloc < n {
        pad := nextAlloc;
        nPad := limit - nextAlloc;
        nextAlloc := base;
      }
      start := nextAlloc;
      previousHdr := start;
      nextAlloc := nextAlloc + n;
      if nextAlloc == limit {
        nextAlloc := base;
      }
    }

    method MkHeader(pad: bool, len: int, prev: int) returns (h: Header)
      modifies this`sequence
      ensures h == Header(pad, len, old(sequence), prev) && sequence == old(sequence) + 1
    {
      h := Header(pad, len, sequence, prev);
      sequence := sequence + 1;
    }

    /** A header page and the pages behind it. */
    method WritePages(page: int, h: Header)
      requires base <= page && 0 < h.len && page + h.len <= limit && |disk| == limit - base
      modifies this`disk
      ensures |disk| == limit - base && HeadAt(disk, page - base, h)
      ensures forall i :: 0 <= i < |disk| && !(page - base <= i < page - base + h.len) ==> disk[i] == old(disk[i])
    {
      var o := page - base;
      disk := disk[..o] + [Head(h)] + seq(h.len - 1, _ => Body) + disk[o + h.len..];
    }

    /** One more record, behind the last one. */
    method Record(page: int, h: Header)
      requires Ring(base, limit, first, disk, heads, places) && h.num == first + |heads| && h.prev == PageBefore(base, places, |heads|)
      requires 0 < h.len && page + h.len <= limit && page == PageOf(base, NextPlace(limit - base, heads, places))
      modifies this`disk, this`heads, this`places
      ensures Ring(base, limit, first, disk, heads, places) && heads == old(heads) + [h]
      ensures places == old(places) + [NextPlace(limit - base, old(heads), old(places))]
      ensures PageBefore(base, places, |heads|) == page
      ensures PageOf(base, NextPlace(limit - base, heads, places)) == if page + h.len == limit then base else page + h.len
    {
      hide Tiled, Linked, Intact;
      PlaceInRing(limit - base, heads, places);
      DiskSize(limit - base, disk, heads, places);
      WritePages(page, h);
      RecordMore(base, limit, first, old(disk), disk, heads, places, h);
      heads, places := heads + [h], places + [NextPlace(limit - base, heads, places)];
    }

    /** A record of `pages` data pages: the pad, if there is one, links to the last header, and the record to the pad. */
    method RecordPad(pad: int, nPad: int, prev: int) returns (h: Header)
      requires Ring(base, limit, first, disk, heads, places) && sequence == first + |heads| && prev == PageBefore(base, places, |heads|)
      requires 0 < nPad && pad + nPad == limit && pad == PageOf(base, NextPlace(limit - base, heads, places))
      modifies this`sequence, this`disk, this`heads, this`places
      ensures Ring(base, limit, first, disk, heads, places) && heads == old(heads) + [h] && sequence == old(sequence) + 1
      ensures h.pad && h.len == nPad && PageBefore(base, places, |heads|) == pad
      ensures PageOf(base, NextPlace(limit - base, heads, places)) == base
    {
      hide Ring, NextPlace, PageBefore, PageOf;
      h := MkHeader(true, nPad, prev);
      Record(pad, h);
    }

    method Writev(pages: nat) returns (page: int, ghost added: seq<Header>)
      requires Valid() && pages + 1 <= limit - base
      modifies this
      ensures Valid() && heads == old(heads) + added && page == PageBefore(base, places, |heads|)
      ensures base <= page && page + 1 + pages <= limit
      ensures added != [] && var h := added[|added| - 1]; !h.pad && h.len == 1 + pages
      ensures |added| == if limit - old(nextAlloc) < pages + 1 then 2 else 1
      ensures |added| == 2 ==> added[0].pad && added[0].len == limit - old(nextAlloc) && page == base
    {
      RingRoom(base, limit, first, disk, heads, places);
      hide Ring, NextPlace, PageBefore, PageOf;
      added := [];
      var start, pad, nPad, prev := Allocate(pages + 1);
      if pad != 0 {
        var h := RecordPad(pad, nPad, prev);
        added := [h];
        prev := pad;
      }
      assert heads == old(heads) + added;
      var h := MkHeader(false, 1 + pages, prev);
      Record(start, h);
      added := added + [h];
      page := start;
    }
  }

  lemma {:induction false} RingRoom(base: int, limit: int, first: int, disk: seq<Page>, hs: seq<Header>, ps: seq<Place>)
    requires Ring(base, limit, first, disk, hs, ps)
    ensures 0 < base < limit && base <= PageOf(base, NextPlace(limit - base, hs, ps)) < limit
  {
    PlaceInRing(limit - base, hs, ps);
  }

  /** The ring and what is on it. */
  ghost predicate Ring(base: int, limit: int, first: int, disk: seq<Page>, hs: seq<Header>, ps: seq<Place>) {
    && 0 < base < limit && |hs| == |ps|
    && Tiled(limit - base, hs, ps) && Linked(base, first, hs, ps) && Intact(limit - base, disk, hs, ps)
  }

  ghost function PageOf(base: int, p: Place): int {
    base + (p.at - p.lap)
  }

  lemma {:induction false} DiskSize(n: int, disk: seq<Page>, hs: seq<Header>, ps: seq<Place>)
    requires |hs| == |ps| && Intact(n, disk, hs, ps)
    ensures |disk| == n
  {
  }

  lemma {:induction false} PlaceInRing(n: int, hs: seq<Header>, ps: seq<Place>)
    requires 0 < n && Tiled(n, hs, ps)
    ensures var p := NextPlace(n, hs, ps); 0 <= p.at - p.lap < n
  {
    if hs != [] {
      assert FitsAt(n, hs, ps, |hs| - 1);
    }
  }

  /** One more record keeps the ring in order. */
  lemma {:induction false} RecordMore(base: int, limit: int, first: int, disk: seq<Page>, disk': seq<Page>, hs: seq<Header>, ps: seq<Place>, h: Header)
    requires 0 < base < limit && Tiled(limit - base, hs, ps) && Linked(base, first, hs, ps) && Intact(limit - base, disk, hs, ps)
    requires 0 < h.len && h.num == first + |hs| && h.prev == PageBefore(base, ps, |hs|) && |disk'| == limit - base
    requires var p := NextPlace(limit - base, hs, ps); var o := p.at - p.lap;
             && o + h.len <= limit - base && HeadAt(disk', o, h)
             && forall i :: 0 <= i < limit - base && !(o <= i < o + h.len) ==> disk'[i] == disk[i]
    ensures var n, p := limit - base, NextPlace(limit - base, hs, ps);
            var hs', ps' := hs + [h], ps + [p];
            && Tiled(n, hs', ps') && Linked(base, first, hs', ps') && Intact(n, disk', hs', ps')
            && PageBefore(base, ps', |hs'|) == base + (p.at - p.lap)
            && var q := NextPlace(n, hs', ps'); q.at - q.lap == if p.at - p.lap + h.len == n then 0 else p.at - p.lap + h.len
  {
    hide Tiled, Linked, Intact;
    var n := limit - base;
    TiledMore(n, hs, ps, h);
    IntactMore(n, disk, disk', hs, ps, h);
    LinkedMore(base, first, hs, ps, h, NextPlace(n, hs, ps));
  }

  lemma {:induction false} LinkedMore(base: int, first: int, hs: seq<Header>, ps: seq<Place>, h: Header, p: Place)
    requires Linked(base, first, hs, ps) && h.num == first + |hs| && h.prev == PageBefore(base, ps, |hs|)
    ensures Linked(base, first, hs + [h], ps + [p])
  {
    var hs', ps' := hs + [h], ps + [p];
    forall k | 0 <= k < |hs'| ensures LinkedAt(base, first, hs', ps', k) {
      assert k > 0 ==> ps'[k - 1] == ps[k - 1];
      if k < |hs| {
        assert LinkedAt(base, first, hs, ps, k);
      }
    }
  }
}
