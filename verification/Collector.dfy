/** The collector: which objects to clean, what is live in them, and how it is packed into requests. */
module Collector {
  import opened Extents
  import opened ExtentMap
  import opened Volume
  import opened Machine
  import opened Accounting
  import opened AccountingSteps
  import opened CopiedData
  import opened ReadSteps
  import opened Revalidation
  import opened Translate

  // ---- choosing ----

  /** Utilisation; an object without data counts as empty. */
  function Rho(i: Info): real {
    if i.data <= 0 then 0.0 else i.live as real / i.data as real
  }

  /** Objects in increasing order of utilisation, and of number where that is equal. */
  predicate Emptier(info: map<int, Info>, x: int, y: int)
    requires x in info && y in info
  {
    Rho(info[x]) < Rho(info[y]) || (Rho(info[x]) == Rho(info[y]) && x < y)
  }

  ghost predicate Ranked(info: map<int, Info>, xs: seq<int>) {
    && (forall i :: 0 <= i < |xs| ==> xs[i] in info)
    && (forall i, j :: 0 <= i < j < |xs| ==> Emptier(info, xs[i], xs[j]))
  }

  lemma {:induction false} BeforeOrder(info: map<int, Info>, x: int, y: int, z: int)
    requires x in info && y in info && z in info
    ensures Emptier(info, x, y) && Emptier(info, y, z) ==> Emptier(info, x, z)
    ensures x != y ==> Emptier(info, x, y) || Emptier(info, y, x)
  {
  }

  lemma {:induction false} RankedInsert(info: map<int, Info>, front: seq<int>, x: int, back: seq<int>)
    requires Ranked(info, front + back) && x in info
    requires forall j :: 0 <= j < |front| ==> front[j] in info && Emptier(info, front[j], x)
    requires back != [] ==> back[0] in info && Emptier(info, x, back[0])
    ensures Ranked(info, front + [x] + back)
  {
    hide Emptier;
    var s, r := front + back, front + [x] + back;
    assert forall j :: 0 <= j < |back| ==> back[j] == s[|front| + j];
    forall j | 0 <= j < |back| ensures Emptier(info, x, back[j]) {
      BeforeOrder(info, x, back[0], back[j]);
    }
    forall i, j | 0 <= i < j < |r| ensures r[i] in info && r[j] in info && Emptier(info, r[i], r[j]) {
      if i < |front| && j < |front| {
        assert Emptier(info, s[i], s[j]);
      } else if i < |front| && j > |front| {
        assert Emptier(info, s[i], s[j - 1]);
      } else if i > |front| {
        assert Emptier(info, s[i - 1], s[j - 1]);
      }
    }
  }

  method InsertRanked(info: map<int, Info>, xs: seq<int>, x: int) returns (r: seq<int>)
    requires Ranked(info, xs) && x in info && x !in xs
    ensures Ranked(info, r) && forall n :: n in r <==> n in xs || n == x
  {
    hide Emptier;
    var i := 0;
    while i < |xs| && Emptier(info, xs[i], x)
      invariant 0 <= i <= |xs| && forall j :: 0 <= j < i ==> Emptier(info, xs[j], x)
    {
      i := i + 1;
    }
    var front, back := xs[..i], xs[i..];
    assert xs == front + back;
    if i < |xs| {
      BeforeOrder(info, x, xs[i], x);
    }
    RankedInsert(info, front, x, back);
    r := front + [x] + back;
  }

  method Some(s: set<int>) returns (n: int)
    requires s != {}
    ensures n in s
  {
    Inhabited(s);
    n :| n in s;
  }

  lemma {:induction false} Inhabited(s: set<int>)
    ensures s == {} || exists x :: x in s
  {
    if forall x :: x !in s {
      assert s == {};
    }
  }

  /** The objects no newer than `last`, least used first. */
  method Rank(info: map<int, Info>, last: int) returns (r: seq<int>)
    ensures Ranked(info, r) && forall n :: n in r <==> n in info && n <= last
  {
    r := [];
    var rest: set<int> := info.Keys;
    while rest != {}
      invariant Ranked(info, r) && rest <= info.Keys
      invariant forall n :: n in r <==> n in info && n <= last && n !in rest
      decreases |rest|
    {
      var n := Some(rest);
      rest := rest - {n};
      if n <= last {
        r := InsertRanked(info, r, n);
      }
    }
  }

  /** The order on the counts alone: the emptier object is the one with the smaller share of live sectors, and of two with
      equal shares the older one. */
  lemma {:induction false} EmptierCounts(info: map<int, Info>, x: int, y: int)
    requires x in info && y in info && 0 < info[x].data && 0 < info[y].data
    ensures Emptier(info, x, y) <==>
              info[x].live * info[y].data < info[y].live * info[x].data ||
              (info[x].live * info[y].data == info[y].live * info[x].data && x < y)
  {
    var a, b, c, d := info[x].live, info[x].data, info[y].live, info[y].data;
    Ratios(a, b, c, d);
    Ratios(c, d, a, b);
  }

  lemma {:induction false} Ratios(a: int, b: int, c: int, d: int)
    requires 0 < b && 0 < d
    ensures a as real / b as real < c as real / d as real <==> a * d < c * b
  {
    var x, y := a as real / b as real, c as real / d as real;
    var p, q := b as real, d as real;
    assert x * p == a as real && y * q == c as real;
    assert x * (p * q) == a as real * q == (a * d) as real;
    assert y * (p * q) == c as real * p == (c * b) as real;
    assert p * q > 0.0;
    Scaled(x, y, p * q);
  }

  lemma {:induction false} Scaled(x: real, y: real, q: real)
    requires q > 0.0
    ensures x < y <==> x * q < y * q
  {
    assert (y - x) * q == y * q - x * q;
    if x < y {
      assert (y - x) * q > 0.0;
    } else {
      assert (y - x) * q <= 0.0;
    }
  }

  /** Objects are taken in order until there are 33. */
  method ChooseRanked(info: map<int, Info>, last: int, pc: nat) returns (objs: seq<int>)
    ensures |objs| <= 33 && Ranked(info, objs)
    ensures forall n :: n in objs ==> n in info && n <= last && Rho(info[n]) <= pc as real / 100.0
    ensures forall n :: n in info && n <= last && Rho(info[n]) <= pc as real / 100.0 && n !in objs ==>
              |objs| == 33 && forall c :: c in objs ==> Emptier(info, c, n)
  {
    var ranked := Rank(info, last);
    objs := [];
    var i := 0;
    while i < |ranked| && |objs| <= 32
      invariant 0 <= i <= |ranked| && |objs| <= 33 && Ranked(info, objs)
      invariant forall n :: n in objs <==> n in ranked[..i] && Rho(info[n]) <= pc as real / 100.0
    {
      var o := ranked[i];
      assert ranked[..i + 1] == ranked[..i] + [o];
      if Rho(info[o]) <= pc as real / 100.0 {
        assert forall n :: n in objs ==> Emptier(info, n, o);
        objs := objs + [o];
      }
      i := i + 1;
    }
    forall n, c | n in info && n <= last && Rho(info[n]) <= pc as real / 100.0 && n !in objs && c in objs
      ensures Emptier(info, c, n)
    {
      assert n in ranked && n !in ranked[..i];
    }
  }

  /** At most 33 objects at or below the threshold, and no object left out is emptier than one that is chosen. */
  method Choose(info: map<int, Info>, last: int, pc: nat) returns (objs: seq<int>)
    ensures |objs| <= 33 && Ranked(info, objs)
    ensures forall n :: n in objs ==> n in info && n <= last && Rho(info[n]) <= pc as real / 100.0
    ensures forall n :: n in info && n <= last && Rho(info[n]) <= pc as real / 100.0 && n !in objs ==> |objs| == 33
    ensures forall n :: n in objs && 0 < info[n].data ==> 100 * info[n].live <= pc * info[n].data
    ensures forall n :: n in info && n <= last && 0 < info[n].data && 100 * info[n].live <= pc * info[n].data && n !in objs ==>
              && |objs| == 33
              && forall c :: c in objs && 0 < info[c].data ==>
                   info[c].live * info[n].data <= info[n].live * info[c].data &&
                   (info[c].live * info[n].data == info[n].live * info[c].data ==> c < n)
  {
    hide Rho, Emptier;
    objs := ChooseRanked(info, last, pc);
    forall n | n in info && 0 < info[n].data
      ensures Rho(info[n]) <= pc as real / 100.0 <==> 100 * info[n].live <= pc * info[n].data
    {
      RhoCounts(info[n], pc);
    }
    forall n, c | n in info && c in info && 0 < info[n].data && 0 < info[c].data
      ensures Emptier(info, c, n) ==>
                info[c].live * info[n].data <= info[n].live * info[c].data &&
                (info[c].live * info[n].data == info[n].live * info[c].data ==> c < n)
    {
      EmptierCounts(info, c, n);
    }
  }

  lemma {:induction false} RhoCounts(i: Info, pc: nat)
    requires 0 < i.data
    ensures Rho(i) <= pc as real / 100.0 <==> 100 * i.live <= pc * i.data
  {
    Ratios(pc, 100, i.live, i.data);
  }

  /** For a table with exact counts, utilisation at or below the threshold is what the machine calls sparse. */
  lemma {:induction false} RhoSparse(cfg: Config, i: Info)
    requires 0 <= i.live && 0 <= i.data && (i.data == 0 ==> i.live == 0)
    ensures Rho(i) <= cfg.pc as real / 100.0 <==> Sparse(cfg, i)
  {
    if i.data > 0 {
      RhoCounts(i, cfg.pc);
    }
  }

  // ---- gathering ----

  /** The part of the map that points into the objects. */
  ghost function Picks(m: map<int, Ptr>, objs: set<int>): map<int, Ptr> {
    map a | a in m && m[a].ObjPtr? && m[a].obj in objs :: m[a]
  }

  lemma {:induction false} PicksMore(m: map<int, Ptr>, e: Extent, objs: set<int>)
    ensures e.ptr.ObjPtr? && e.ptr.obj in objs && (forall a :: a in m ==> a < e.base) ==>
              Picks(m + SpanOf(e), objs) == Override(Picks(m, objs), e.base, e.Limit(), e.ptr)
    ensures !(e.ptr.ObjPtr? && e.ptr.obj in objs) && (forall a :: a in m ==> a < e.base) ==>
              Picks(m + SpanOf(e), objs) == Picks(m, objs)
  {
    var l, r := Picks(m + SpanOf(e), objs), if e.ptr.ObjPtr? && e.ptr.obj in objs then Picks(m, objs) + SpanOf(e) else Picks(m, objs);
    if forall a :: a in m ==> a < e.base {
      assert l.Keys == r.Keys;
      assert forall a :: a in l ==> l[a] == r[a];
      assert l == r;
    }
  }

  /** The live extents of the objects, collected in a map of their own. */
  method Gather(omap: ExtMap, objs: set<int>) returns (live: seq<Extent>)
    requires omap.Valid()
    ensures Sorted(live) && Canonical(live) && Model(live) == Picks(omap.View(), objs)
  {
    hide Flat, Model, Picks, Canonical;
    var all := omap.Entries();
    var found := new ExtMap(omap.load);
    PicksNone(objs);
    assert all[..0] == [];
    for k := 0 to |all|
      invariant found.Valid() && found.View() == Picks(Model(all[..k]), objs) && Canonical(found.Contents())
    {
      var e := all[k];
      assert all[..k + 1] == all[..k] + [e];
      ModelConcat(all[..k], [e]);
      ModelSingle(e);
      ModelBelow(all[..k], e.base);
      PicksMore(Model(all[..k]), e, objs);
      if e.ptr.ObjPtr? && e.ptr.obj in objs {
        var _ := found.Update(e.base, e.Limit(), e.ptr);
      }
    }
    assert all[..|all|] == all;
    live := found.Entries();
  }

  lemma {:induction false} PicksNone(objs: set<int>)
    ensures Model([]) == map[] && Picks(map[], objs) == map[]
  {
  }

  // ---- packing ----

  /** The extent lies in the data of its object, if that is there. */
  predicate Legible(stored: map<int, Stored>, x: Extent) {
    && 0 < x.len && x.ptr.ObjPtr?
    && (x.ptr.obj in stored ==>
          && stored[x.ptr.obj].DataOf?
          && var o := stored[x.ptr.obj].obj; o.hdr <= x.ptr.offset && x.ptr.offset + x.len <= o.hdr + Total(o.pieces))
  }

  /** What the buffer holds where nothing was read: by object and sector, anything at all. */
  type Stale = (int, int) -> Sector

  /** The entry for an extent: where it is mapped, and what the read of its object left in the buffer. */
  function EntryOf(stored: map<int, Stored>, stale: Stale, x: Extent): (e: GcEntry)
    requires Legible(stored, x)
    ensures |e.data| == x.len
  {
    var n, off := x.ptr.obj, x.ptr.offset;
    GcEntry(x.base, n, off,
            if n in stored then Payload(stored[n].obj.pieces)[off - stored[n].obj.hdr..off - stored[n].obj.hdr + x.len]
            else seq(x.len, i => stale(n, off + i)))
  }

  function Sectors(xs: seq<Extent>): int {
    if xs == [] then 0 else Sectors(xs[..|xs| - 1]) + xs[|xs| - 1].len
  }

  /** Extents for one request: they are taken until the object is full, so all but the last stay below the limit. */
  method Take(xs: seq<Extent>, max: nat) returns (n: nat)
    requires xs != [] && 0 < max
    ensures 0 < n <= |xs| && Sectors(xs[..n - 1]) < max
    ensures n < |xs| ==> max <= Sectors(xs[..n])
  {
    n := 0;
    var sectors := 0;
    while n < |xs| && sectors < max
      invariant 0 <= n <= |xs| && sectors == Sectors(xs[..n])
      invariant n > 0 ==> Sectors(xs[..n - 1]) < max
    {
      assert xs[..n + 1][..n] == xs[..n];
      sectors := sectors + xs[n].len;
      n := n + 1;
    }
  }

  ghost predicate EntriesFor(stored: map<int, Stored>, stale: Stale, xs: seq<Extent>, es: seq<GcEntry>) {
    |es| == |xs| && forall i :: 0 <= i < |xs| ==> Legible(stored, xs[i]) && es[i] == EntryOf(stored, stale, xs[i])
  }

  method ReadAll(stored: map<int, Stored>, stale: Stale, xs: seq<Extent>) returns (es: seq<GcEntry>)
    requires forall i :: 0 <= i < |xs| ==> Legible(stored, xs[i])
    ensures EntriesFor(stored, stale, xs, es)
  {
    hide Legible;
    es := [];
    for i := 0 to |xs|
      invariant |es| == i && forall j :: 0 <= j < i ==> es[j] == EntryOf(stored, stale, xs[j])
    {
      es := es + [EntryOf(stored, stale, xs[i])];
    }
  }

  lemma {:induction false} EntriesSectors(stored: map<int, Stored>, stale: Stale, xs: seq<Extent>, es: seq<GcEntry>)
    requires EntriesFor(stored, stale, xs, es)
    ensures EntriesTotal(es) == Sectors(xs)
  {
    if xs != [] {
      var k := |xs| - 1;
      EntriesSectors(stored, stale, xs[..k], es[..k]);
      assert es[k] == EntryOf(stored, stale, xs[k]);
    }
  }

  /** Requests as the machine wants them: nonempty, disjoint, and full before the last entry is added. */
  ghost predicate PackedOk(max: nat, es: seq<GcEntry>) {
    es != [] && DisjointEntries(es) && EntriesTotal(es[..|es| - 1]) < max
  }

  lemma {:induction false} GroupOk(stored: map<int, Stored>, stale: Stale, xs: seq<Extent>, es: seq<GcEntry>, max: nat)
    requires EntriesFor(stored, stale, xs, es) && xs != [] && Sorted(xs) && Sectors(xs[..|xs| - 1]) < max
    ensures PackedOk(max, es)
  {
    var k := |xs| - 1;
    assert EntriesFor(stored, stale, xs[..k], es[..k]);
    EntriesSectors(stored, stale, xs[..k], es[..k]);
    hide EntriesTotal, Sectors, Payload, Total;
    forall i, j, a | 0 <= i < j < |es| && es[i].Covers(a) ensures !es[j].Covers(a) {
      assert es[i] == EntryOf(stored, stale, xs[i]) && es[j] == EntryOf(stored, stale, xs[j]);
      assert |es[i].data| == xs[i].len;
    }
  }

  ghost predicate InSome(todo: seq<seq<GcEntry>>, e: GcEntry) {
    exists g :: 0 <= g < |todo| && e in todo[g]
  }

  /** All live extents, packed into requests in order. */
  method Pack(stored: map<int, Stored>, stale: Stale, live: seq<Extent>, max: nat) returns (todo: seq<seq<GcEntry>>)
    requires Sorted(live) && 0 < max && forall i :: 0 <= i < |live| ==> Legible(stored, live[i])
    ensures forall g :: 0 <= g < |todo| ==> PackedOk(max, todo[g])
    ensures forall g :: 0 <= g < |todo| - 1 ==> max <= EntriesTotal(todo[g])
    ensures forall g, e :: 0 <= g < |todo| && e in todo[g] ==> exists i :: 0 <= i < |live| && e == EntryOf(stored, stale, live[i])
    ensures forall i :: 0 <= i < |live| ==> InSome(todo, EntryOf(stored, stale, live[i]))
  {
    hide Legible, EntryOf, Sectors, PackedOk, Sorted, EntriesTotal;
    todo := [];
    var k := 0;
    while k < |live|
      invariant 0 <= k <= |live|
      invariant forall g :: 0 <= g < |todo| ==> PackedOk(max, todo[g])
      invariant forall g :: 0 <= g < |todo| && (k < |live| || g < |todo| - 1) ==> max <= EntriesTotal(todo[g])
      invariant forall g, e :: 0 <= g < |todo| && e in todo[g] ==> exists i :: 0 <= i < |live| && e == EntryOf(stored, stale, live[i])
      invariant forall i :: 0 <= i < k ==> InSome(todo, EntryOf(stored, stale, live[i]))
    {
      ghost var was := todo;
      var n := Take(live[k..], max);
      var xs := live[k..k + n];
      assert live[k..][..n - 1] == xs[..n - 1] && live[k..][..n] == xs;
      assert forall i :: 0 <= i < n ==> xs[i] == live[k + i];
      var es := ReadAll(stored, stale, xs);
      SortedSlice(live, k, k + n);
      GroupOk(stored, stale, xs, es, max);
      EntriesSectors(stored, stale, xs, es);
      todo := todo + [es];
      forall i | 0 <= i < k + n ensures InSome(todo, EntryOf(stored, stale, live[i])) {
        if i < k {
          var g :| 0 <= g < |was| && EntryOf(stored, stale, live[i]) in was[g];
          assert todo[g] == was[g];
        } else {
          assert es[i - k] == EntryOf(stored, stale, live[i]);
          assert todo[|was|] == es;
        }
      }
      forall g, e | 0 <= g < |todo| && e in todo[g] ensures exists i :: 0 <= i < |live| && e == EntryOf(stored, stale, live[i]) {
        if g == |was| {
          var j :| 0 <= j < |es| && es[j] == e;
          assert e == EntryOf(stored, stale, live[k + j]);
        }
      }
      k := k + n;
    }
  }

  // ---- a cycle ----

  /** The live extents of tracked objects. */
  ghost predicate Live(cfg: Config, s: State, stored: map<int, Stored>, objs: set<int>, live: seq<Extent>) {
    && Accounted(cfg, s) && s.backend == AsRecs(stored)
    && (forall n :: n in objs ==> n in s.info)
    && Sorted(live) && Model(live) == Picks(s.objmap, objs)
  }

  lemma {:induction false} LiveSector(cfg: Config, s: State, stored: map<int, Stored>, objs: set<int>, live: seq<Extent>, i: int, a: int)
    requires Live(cfg, s, stored, objs, live) && 0 <= i < |live| && live[i].base <= a < live[i].Limit()
    ensures a in s.objmap && s.objmap[a] == Adv(live[i].ptr, a - live[i].base) && live[i].ptr.ObjPtr? && live[i].ptr.obj in objs
    ensures ValidPtr(s.log, s.objmap[a]) && 0 < live[i].ptr.obj < |s.log| && s.log[live[i].ptr.obj].DataRec?
    ensures live[i].ptr.obj in stored <==> live[i].ptr.obj in s.backend
    ensures live[i].ptr.obj in stored ==> stored[live[i].ptr.obj] == DataOf(s.log[live[i].ptr.obj].obj)
  {
    hide Model, Sorted, LogOk, QueueOk, GcOk;
    ModelAt(live, i, a);
    var n := live[i].ptr.obj;
    assert n in stored ==> AsRecs(stored)[n] == AsRec(stored[n]);
  }

  lemma {:induction false} LiveLegible(cfg: Config, s: State, stored: map<int, Stored>, objs: set<int>, live: seq<Extent>, i: int)
    requires Live(cfg, s, stored, objs, live) && 0 <= i < |live|
    ensures Legible(stored, live[i])
  {
    assert 0 < live[i].len by { hide Model, Accounted; }
    hide Live, Total;
    LiveSector(cfg, s, stored, objs, live, i, live[i].base);
    LiveSector(cfg, s, stored, objs, live, i, live[i].Limit() - 1);
  }

  lemma {:induction false} LivePicked(cfg: Config, s: State, stored: map<int, Stored>, stale: Stale, objs: set<int>, live: seq<Extent>, i: int)
    requires Live(cfg, s, stored, objs, live) && 0 <= i < |live| && Legible(stored, live[i])
    ensures Picked(s, objs, EntryOf(stored, stale, live[i]))
  {
    hide Live, Total, Payload;
    var x, e := live[i], EntryOf(stored, stale, live[i]);
    LiveSector(cfg, s, stored, objs, live, i, x.base);
    forall a | e.Covers(a) ensures a in s.objmap && s.objmap[a] == ObjPtr(e.obj, e.offset + (a - e.lba)) {
      LiveSector(cfg, s, stored, objs, live, i, a);
    }
    forall k | 0 <= k < |e.data| && e.obj in s.backend ensures Holds(s.log, ObjPtr(e.obj, e.offset + k), e.data[k]) {
      LiveSector(cfg, s, stored, objs, live, i, x.base + k);
    }
  }

  lemma {:induction false} LiveCovered(cfg: Config, s: State, stored: map<int, Stored>, stale: Stale, objs: set<int>, live: seq<Extent>, todo: seq<seq<GcEntry>>, a: int)
    requires Live(cfg, s, stored, objs, live)
    requires forall i :: 0 <= i < |live| ==> Legible(stored, live[i]) && InSome(todo, EntryOf(stored, stale, live[i]))
    requires a in s.objmap && s.objmap[a].ObjPtr? && s.objmap[a].obj in objs
    ensures CoveredBy(todo, a, s.objmap[a].obj)
  {
    hide Model, Accounted, Total, Payload, Sorted;
    assert a in Picks(s.objmap, objs);
    var i := ModelHasExtent(live, a);
    var e := EntryOf(stored, stale, live[i]);
    assert e.Covers(a) && e.obj == s.objmap[a].obj;
    assert InSome(todo, e);
  }

  /** What is packed from the live extents is what a cycle may start with. */
  lemma {:induction false} PackedSnapshot(cfg: Config, s: State, stored: map<int, Stored>, stale: Stale, objs: set<int>, live: seq<Extent>, todo: seq<seq<GcEntry>>)
    requires Live(cfg, s, stored, objs, live)
    requires Choice(cfg, s, objs)
    requires forall i :: 0 <= i < |live| ==> Legible(stored, live[i]) && InSome(todo, EntryOf(stored, stale, live[i]))
    requires forall g :: 0 <= g < |todo| ==> PackedOk(cfg.max, todo[g])
    requires forall g, e :: 0 <= g < |todo| && e in todo[g] ==> exists i :: 0 <= i < |live| && e == EntryOf(stored, stale, live[i])
    ensures Snapshot(cfg, s, objs, todo)
  {
    hide Live, Legible, EntryOf, Picked, CoveredBy, Sparse, Choice;
    forall g, e | 0 <= g < |todo| && e in todo[g] ensures Picked(s, objs, e) {
      var i :| 0 <= i < |live| && e == EntryOf(stored, stale, live[i]);
      LivePicked(cfg, s, stored, stale, objs, live, i);
    }
    forall a | a in s.objmap && s.objmap[a].ObjPtr? && s.objmap[a].obj in objs ensures CoveredBy(todo, a, s.objmap[a].obj) {
      LiveCovered(cfg, s, stored, stale, objs, live, todo, a);
    }
    assert forall g :: 0 <= g < |todo| ==> PackedOk(cfg.max, todo[g]);
  }

  lemma {:induction false} TableShape(cfg: Config, s: State, n: int)
    requires Accounted(cfg, s) && n in s.info
    ensures 0 <= s.info[n].live && 0 <= s.info[n].data && (s.info[n].data == 0 ==> s.info[n].live == 0)
  {
    hide LogOk, StoreOk, QueueOk, GcOk;
    CountZero(s.objmap, n);
  }

  /** Every object no newer than the newest checkpoint, if there is one, that is at or below the threshold. */
  ghost predicate AllSparse(cfg: Config, s: State, objs: seq<int>) {
    forall n :: n in s.info && (s.checkpoints != [] ==> n <= s.checkpoints[|s.checkpoints| - 1]) && 100 * s.info[n].live <= cfg.pc * s.info[n].data
      ==> n in objs
  }

  lemma {:induction false} ChosenAll(cfg: Config, s: State, objs: seq<int>)
    requires Accounted(cfg, s)
    requires forall n :: n in objs ==> n in s.info && n <= LastNamed(s.checkpoints, |s.log|) && Rho(s.info[n]) <= cfg.pc as real / 100.0
    requires forall n :: n in s.info && n <= LastNamed(s.checkpoints, |s.log|) && Rho(s.info[n]) <= cfg.pc as real / 100.0 && n !in objs ==> |objs| == 33
    ensures Choice(cfg, s, (set n | n in objs)) && (|objs| < 33 ==> AllSparse(cfg, s, objs))
  {
    hide LogOk, StoreOk, QueueOk, GcOk, Rho;
    forall n | n in s.info ensures n < |s.log| && (Rho(s.info[n]) <= cfg.pc as real / 100.0 <==> Sparse(cfg, s.info[n])) {
      TableShape(cfg, s, n);
      RhoSparse(cfg, s.info[n]);
    }
  }

  function LastNamed(cs: seq<int>, next: int): int {
    if cs == [] then next else cs[|cs| - 1]
  }

  /** The live extents are those of the map: none of them goes on in it. */
  lemma {:induction false} EntryEdges(m: map<int, Ptr>, objs: set<int>, live: seq<Extent>, i: int)
    requires Canonical(live) && Model(live) == Picks(m, objs) && 0 <= i < |live|
    ensures Edges(m, live[i].base, live[i].Limit())
  {
    hide Model;
    CanonicalEdge(live, i, live[i].base - 1);
    CanonicalEdge(live, i, live[i].Limit() - 1);
    ModelAt(live, i, live[i].base);
    ModelAt(live, i, live[i].Limit() - 1);
  }

  lemma {:induction false} EntryPlace(stored: map<int, Stored>, stale: Stale, x: Extent)
    requires Legible(stored, x)
    ensures var e := EntryOf(stored, stale, x); e.lba == x.base && e.lba + |e.data| == x.Limit()
  {
  }

  /** A cycle starts: sparse objects are chosen, their live extents gathered, read and packed. What is packed is what
      the objects hold, if all of them that matter are there. */
  method StartCycle(t: TranslationLayer, stale: Stale) returns (objs: seq<int>, todo: seq<seq<GcEntry>>)
    requires t.Valid() && t.gc.Idle? && 0 < t.cfg.max
    modifies t
    ensures t.Valid() && Next(t.cfg, old(t.View()), GcStart((set n | n in objs), todo), t.View())
    ensures |objs| < 33 ==> AllSparse(t.cfg, old(t.View()), objs)
    ensures forall g :: 0 <= g < |todo| - 1 ==> t.cfg.max <= EntriesTotal(todo[g])
    ensures DurableChoice(old(t.View()), (set n | n in objs)) ==> AllRead(t.log, todo)
    ensures forall i, e :: 0 <= i < |todo| && e in todo[i] ==> Edges(old(t.objmap.View()), e.lba, e.lba + |e.data|)
  {
    hide Flat, Model, Accounted, Tracked, Layout, Sorted, Picks, Legible, EntryOf, Snapshot, PackedOk, Rho, Sparse, InSome, AsRecs, Ranked,
      DurableChoice, AllRead, Edges, Canonical, AllSparse, Choice, Next;
    ghost var s := t.View();
    objs := Choose(t.info, LastNamed(t.checkpoints, t.next), t.cfg.pc);
    ChosenAll(t.cfg, s, objs);
    var chosen := set n | n in objs;
    var live := Gather(t.objmap, chosen);
    assert Live(t.cfg, s, t.stored, chosen, live);
    forall i | 0 <= i < |live| ensures Legible(t.stored, live[i]) {
      LiveLegible(t.cfg, s, t.stored, chosen, live, i);
    }
    todo := Pack(t.stored, stale, live, t.cfg.max);
    PackedSnapshot(t.cfg, s, t.stored, stale, chosen, live, todo);
    StartKeeps(t.cfg, s, chosen, todo);
    if DurableChoice(s, chosen) {
      StartTruthful(t.cfg, s, chosen, todo);
    }
    forall i, e | 0 <= i < |todo| && e in todo[i] ensures Edges(s.objmap, e.lba, e.lba + |e.data|) {
      var j :| 0 <= j < |live| && e == EntryOf(t.stored, stale, live[j]);
      EntryEdges(s.objmap, chosen, live, j);
      EntryPlace(t.stored, stale, live[j]);
    }
    t.gc := Copying(chosen, todo);
  }

  lemma {:induction false} StartKeeps(cfg: Config, s: State, objs: set<int>, todo: seq<seq<GcEntry>>)
    requires Accounted(cfg, s) && Tracked(cfg, s) && s.gc.Idle? && Snapshot(cfg, s, objs, todo)
    ensures Accounted(cfg, s.(gc := Copying(objs, todo))) && Tracked(cfg, s.(gc := Copying(objs, todo)))
    ensures Next(cfg, s, GcStart(objs, todo), s.(gc := Copying(objs, todo)))
  {
    hide Accounted, Tracked, Snapshot;
    StepAccounted(cfg, s, GcStart(objs, todo));
    StepTracked(cfg, s, GcStart(objs, todo));
  }

  /** The next packed request goes on the worker's queue. */
  method Submit(t: TranslationLayer, r: seq<GcEntry>)
    requires t.Valid() && t.gc.Copying? && t.gc.todo != [] && r == t.gc.todo[0]
    modifies t
    ensures t.Valid() && Next(t.cfg, old(t.View()), GcSubmit, t.View()) && t.queue == old(t.queue) + [GcReq(r)]
  {
    hide Flat, Model, Accounted, Tracked, Layout, Sorted, AsRecs;
    ghost var s := t.View();
    StepAccounted(t.cfg, s, GcSubmit);
    StepTracked(t.cfg, s, GcSubmit);
    t.queue := t.queue + [GcReq(r)];
    t.gc := Copying(t.gc.objs, t.gc.todo[1..]);
  }

  /** When every request of the cycle is done, its objects leave the table. */
  method FinishCycle(t: TranslationLayer, objs: set<int>)
    requires t.Valid() && t.gc == Copying(objs, []) && NoGcPending(t.View())
    modifies t
    ensures t.Valid() && Next(t.cfg, old(t.View()), GcFinish, t.View()) && t.info == old(t.info) - objs && t.gc == Cleaned(objs, t.next)
    ensures forall n :: n in objs ==> Unreferenced(t.objmap.View(), n)
  {
    hide Flat, Model, Accounted, Tracked, Layout, Sorted, AsRecs, NoGcPending, Unreferenced;
    ghost var s := t.View();
    StepAccounted(t.cfg, s, GcFinish);
    StepTracked(t.cfg, s, GcFinish);
    t.info := t.info - objs;
    t.gc := Cleaned(objs, t.next);
    CleanedFacts(t.cfg, t.View());
  }

  /** On a stop request the rows go at once, whatever is outstanding: the layer stays in order exactly when nothing is
      mapped to the objects any more. */
  method StopCycle(t: TranslationLayer, objs: set<int>)
    requires t.Valid() && t.gc == Copying(objs, [])
    modifies t
    ensures Next(t.cfg, old(t.View()), GcStop, t.View()) && t.info == old(t.info) - objs && t.gc.Idle?
    ensures t.Valid() <==> StopClean(old(t.View()))
  {
    hide Flat, Model, Accounted, Tracked, Layout, Sorted, AsRecs, StopClean;
    ghost var s := t.View();
    if StopClean(s) {
      StepAccounted(t.cfg, s, GcStop);
    }
    NotStopped(t.cfg, s);
    StepTracked(t.cfg, s, GcStop);
    t.info := t.info - objs;
    t.gc := Idle;
  }

  lemma {:induction false} NotStopped(cfg: Config, s: State)
    requires Accounted(cfg, s) && Enabled(cfg, s, GcStop)
    ensures Accounted(cfg, Do(cfg, s, GcStop)) ==> StopClean(s)
  {
    StopExact(cfg, s);
    hide Exact, LogOk, StoreOk, QueueOk, GcOk;
  }

  lemma {:induction false} CleanedFacts(cfg: Config, s: State)
    requires Accounted(cfg, s) && s.gc.Cleaned?
    ensures forall n :: n in s.gc.objs ==> Unreferenced(s.objmap, n)
  {
    hide LogOk, Exact, StoreOk, QueueOk, Unreferenced;
  }

  method DeleteOne(t: TranslationLayer, n: int)
    requires t.Valid() && t.gc.Cleaned? && n in t.gc.objs && t.checkpoints != [] && t.gc.since <= LastCkpt(t.View())
    modifies t
    ensures t.Valid() && Next(t.cfg, old(t.View()), GcDelete(n), t.View())
    ensures t.View() == old(t.View()).(backend := old(t.View()).backend - {n})
  {
    hide Flat, Model, Accounted, Tracked, Layout, Sorted, AsRecs;
    DeleteKeeps(t.cfg, t.View(), n);
    AsRecsLess(t.stored, n);
    t.stored := t.stored - {n};
  }

  /** Once a later checkpoint is named, the cleaned objects are deleted one after the other. */
  method DeleteCleaned(t: TranslationLayer, objs: seq<int>)
    requires t.Valid() && t.gc.Cleaned? && t.gc.objs == (set n | n in objs)
    requires t.checkpoints != [] && t.gc.since <= LastCkpt(t.View())
    modifies t
    ensures t.Valid() && t.View() == old(t.View()).(backend := old(t.View()).backend - (set n | n in objs))
  {
    hide Flat, Model, Accounted, Tracked, Layout, Sorted, AsRecs;
    ghost var s := t.View();
    for i := 0 to |objs|
      invariant t.Valid() && t.View() == s.(backend := s.backend - (set n | n in objs[..i]))
    {
      ghost var front, more := objs[..i], objs[..i + 1];
      assert (set n | n in more) == (set n | n in front) + {objs[i]};
      assert objs[i] in t.gc.objs;
      DeleteOne(t, objs[i]);
      MinusMore(s.backend, (set n | n in front), objs[i]);
    }
    assert objs[..|objs|] == objs;
  }

  lemma {:induction false} AsRecsLess(m: map<int, Stored>, n: int)
    ensures AsRecs(m - {n}) == AsRecs(m) - {n}
  {
    hide AsRec;
  }

  lemma {:induction false} DeleteKeeps(cfg: Config, s: State, n: int)
    requires Accounted(cfg, s) && Tracked(cfg, s) && Enabled(cfg, s, GcDelete(n))
    ensures Accounted(cfg, s.(backend := s.backend - {n})) && Tracked(cfg, s.(backend := s.backend - {n}))
  {
    hide Accounted, Tracked;
    StepAccounted(cfg, s, GcDelete(n));
    StepTracked(cfg, s, GcDelete(n));
  }

  lemma {:induction false} ReapKeeps(cfg: Config, s: State, n: int)
    requires Accounted(cfg, s) && Tracked(cfg, s) && Enabled(cfg, s, Reap(n))
    ensures var s' := s.(backend := s.backend - {n}, info := s.info - {n}); Accounted(cfg, s') && Tracked(cfg, s')
  {
    hide Accounted, Tracked;
    StepAccounted(cfg, s, Reap(n));
    StepTracked(cfg, s, Reap(n));
  }

  method ReapOne(t: TranslationLayer, n: int)
    requires t.Valid() && n in t.info && t.info[n].live == 0
    modifies t
    ensures t.Valid() && Next(t.cfg, old(t.View()), Reap(n), t.View())
    ensures t.View() == old(t.View()).(backend := old(t.View()).backend - {n}, info := old(t.info) - {n})
  {
    hide Flat, Model, Accounted, Tracked, Layout, Sorted, AsRecs;
    ReapKeeps(t.cfg, t.View(), n);
    AsRecsLess(t.stored, n);
    t.stored := t.stored - {n};
    t.info := t.info - {n};
  }

  /** Objects no sector is mapped to are deleted and leave the table. */
  method ReapDead(t: TranslationLayer)
    requires t.Valid()
    modifies t
    ensures t.Valid() && var s := old(t.View()); var dead := set n | n in s.info && s.info[n].live == 0;
            t.View() == s.(backend := s.backend - dead, info := s.info - dead) && forall n :: n in dead ==> Unreferenced(s.objmap, n)
  {
    hide Flat, Model, Accounted, Tracked, Layout, Sorted, Dead, AsRecs, Increasing;
    ghost var s := t.View();
    var rest := Dead(t.info);
    ghost var done: set<int> := {};
    DeadFacts(t.cfg, s);
    while rest != {}
      invariant t.Valid() && t.View() == s.(backend := s.backend - done, info := s.info - done)
      invariant t.info == s.info - done && rest !! done && rest + done == Dead(s.info)
      decreases |rest|
    {
      var n := Some(rest);
      assert n in Dead(s.info);
      ReapOne(t, n);
      MinusMore(s.backend, done, n);
      MinusMore(s.info, done, n);
      rest, done := rest - {n}, done + {n};
    }
    assert done == Dead(s.info);
    DeadSet(s.info);
  }

  lemma {:induction false} DeadSet(info: map<int, Info>)
    ensures Dead(info) == set n | n in info && info[n].live == 0
  {
  }

  lemma {:induction false} MinusMore<V>(m: map<int, V>, d: set<int>, n: int)
    ensures m - d - {n} == m - (d + {n})
  {
  }

  function Dead(info: map<int, Info>): set<int> {
    set n | n in info && info[n].live == 0
  }

  lemma {:induction false} DeadFacts(cfg: Config, s: State)
    requires Accounted(cfg, s)
    ensures forall n :: n in Dead(s.info) ==> n in s.info && s.info[n].live == 0 && Unreferenced(s.objmap, n)
  {
    hide LogOk, StoreOk, QueueOk, GcOk;
    forall n | n in Dead(s.info) ensures Unreferenced(s.objmap, n) {
      CountZero(s.objmap, n);
    }
  }
}
