/** The two-level extent map: short sorted lists of extents with an index of their upper ends. */
module ExtentMap {
  import opened Extents
  import opened Carving

  function Flat(ls: seq<seq<Extent>>): seq<Extent> {
    if ls == [] then [] else Flat(ls[..|ls| - 1]) + ls[|ls| - 1]
  }

  lemma {:induction false} FlatConcat(a: seq<seq<Extent>>, b: seq<seq<Extent>>)
    ensures Flat(a + b) == Flat(a) + Flat(b)
  {
    if b == [] {
      assert a + b == a;
    } else {
      var n := |b| - 1;
      assert (a + b)[..|a + b| - 1] == a + b[..n] && (a + b)[|a + b| - 1] == b[n];
      FlatConcat(a, b[..n]);
      assert Flat(a) + Flat(b[..n]) + b[n] == Flat(a) + (Flat(b[..n]) + b[n]);
    }
  }

  lemma {:induction false} FlatEmpty()
    ensures Flat([]) == []
  {
  }

  lemma {:induction false} FlatPair(l: seq<Extent>, m: seq<Extent>)
    ensures Flat([l]) == l && Flat([l, m]) == l + m
  {
    assert [l][..0] == [];
    assert [l, m][..1] == [l];
  }

  /** The contents around list `i`. */
  lemma {:induction false} FlatSplit(ls: seq<seq<Extent>>, i: int)
    requires 0 <= i < |ls|
    ensures Flat(ls) == Flat(ls[..i]) + ls[i] + Flat(ls[i + 1..])
    ensures Flat(ls[..i + 1]) == Flat(ls[..i]) + ls[i]
  {
    hide Flat;
    assert ls == ls[..i] + [ls[i]] + ls[i + 1..];
    assert ls[..i + 1] == ls[..i] + [ls[i]];
    FlatConcat(ls[..i] + [ls[i]], ls[i + 1..]);
    FlatConcat(ls[..i], [ls[i]]);
    FlatPair(ls[i], []);
  }

  /** Replacing list `i` by the lists `new` changes the contents in that place only. */
  lemma {:induction false} FlatReplace(ls: seq<seq<Extent>>, i: int, k: int, new': seq<seq<Extent>>)
    requires 0 <= i && 0 <= k && i + k <= |ls|
    ensures Flat(ls) == Flat(ls[..i]) + Flat(ls[i..i + k]) + Flat(ls[i + k..])
    ensures Flat(ls[..i] + new' + ls[i + k..]) == Flat(ls[..i]) + Flat(new') + Flat(ls[i + k..])
  {
    assert ls == ls[..i] + ls[i..i + k] + ls[i + k..];
    FlatConcat(ls[..i] + ls[i..i + k], ls[i + k..]);
    FlatConcat(ls[..i], ls[i..i + k]);
    FlatConcat(ls[..i] + new', ls[i + k..]);
    FlatConcat(ls[..i], new');
  }

  /** A list and its entry in the index. */
  ghost predicate Indexed(l: seq<Extent>, max: int) {
    l != [] && max == l[|l| - 1].Limit()
  }

  /** The structure of the two levels; list `big` may be over-full while it waits to be split. */
  ghost predicate Layout(load: int, ls: seq<seq<Extent>>, maxes: seq<int>, big: int) {
    && 2 <= load
    && |maxes| == |ls|
    && (forall i :: 0 <= i < |ls| ==> Indexed(ls[i], maxes[i]))
    && (forall i :: 0 <= i < |ls| ==> |ls[i]| < if i == big then 3 * load else 2 * load)
    && (|ls| > 1 ==> forall i :: 0 <= i < |ls| ==> load / 2 < |ls[i]|)
  }

  function Last(l: seq<Extent>): Extent
    requires l != []
  {
    l[|l| - 1]
  }

  /** Splitting the over-full list `i` restores the structure and keeps the contents. */
  lemma {:induction false} SplitList(load: int, ls: seq<seq<Extent>>, maxes: seq<int>, i: int)
    requires 0 <= i < |ls| && Layout(load, ls, maxes, i) && 2 * load <= |ls[i]|
    ensures var left, right := ls[i][..load], ls[i][load..];
            var ls' := ls[..i] + [left, right] + ls[i + 1..];
            && Layout(load, ls', maxes[..i] + [Last(left).Limit(), Last(right).Limit()] + maxes[i + 1..], -1)
            && Flat(ls') == Flat(ls)
            && Flat(ls'[..i]) == Flat(ls[..i]) && Flat(ls'[..i + 1]) == Flat(ls[..i]) + left
  {
    hide Flat;
    var left, right := ls[i][..load], ls[i][load..];
    var ls' := ls[..i] + [left, right] + ls[i + 1..];
    assert ls[i] == left + right;
    FlatReplace(ls, i, 1, [left, right]);
    FlatPair(ls[i], []);
    FlatPair(left, right);
    assert ls[i..i + 1] == [ls[i]];
    assert ls'[..i] == ls[..i];
    FlatSplit(ls', i);
  }

  /** Replacing list `i` by `l`, with its index entry, changes the contents in that place only. */
  lemma {:induction false} ReplaceList(load: int, ls: seq<seq<Extent>>, maxes: seq<int>, i: int, l: seq<Extent>)
    requires 0 <= i < |ls| && Layout(load, ls, maxes, -1)
    requires 0 < |l| < 3 * load && (|ls| > 1 ==> load / 2 < |l|)
    ensures Layout(load, ls[i := l], maxes[i := Last(l).Limit()], if |l| < 2 * load then -1 else i)
    ensures Layout(load, ls[i := l], maxes[i := Last(l).Limit()], i)
    ensures Flat(ls) == Flat(ls[..i]) + ls[i] + Flat(ls[i + 1..])
    ensures Flat(ls[i := l]) == Flat(ls[..i]) + l + Flat(ls[i + 1..])
    ensures Flat(ls[i := l][..i]) == Flat(ls[..i])
  {
    hide Flat;
    FlatSplit(ls, i);
    FlatSplit(ls[i := l], i);
    assert ls[i := l][..i] == ls[..i] && ls[i := l][i + 1..] == ls[i + 1..];
  }

  /** Replacing lists `p` and `p + 1` by one list `l`. */
  lemma {:induction false} JoinLists(load: int, ls: seq<seq<Extent>>, maxes: seq<int>, p: int, l: seq<Extent>)
    requires Layout(load, ls, maxes, -1) && 0 <= p < |ls| - 1 && load / 2 < |l| < 3 * load
    ensures Layout(load, ls[..p] + [l] + ls[p + 2..], maxes[..p] + [Last(l).Limit()] + maxes[p + 2..], p)
    ensures Flat(ls[..p] + [l] + ls[p + 2..]) == Flat(ls[..p]) + l + Flat(ls[p + 2..])
    ensures (ls[..p] + [l] + ls[p + 2..])[..p] == ls[..p]
    ensures Flat(ls[..p + 1]) == Flat(ls[..p]) + ls[p]
    ensures Flat(ls[p + 1..]) == ls[p + 1] + Flat(ls[p + 2..])
  {
    hide Flat;
    FlatReplace(ls, p, 2, [l]);
    FlatPair(l, []);
    FlatSplit(ls, p);
    assert ls[p + 1..] == [ls[p + 1]] + ls[p + 2..];
    FlatConcat([ls[p + 1]], ls[p + 2..]);
    FlatPair(ls[p + 1], []);
  }

  /** List `i`, cut down to `l`, joined with the list before it, or with the one after it if it is the first. */
  lemma {:induction false} JoinedSame(ls: seq<seq<Extent>>, i: int, l: seq<Extent>)
    requires 0 <= i < |ls| && |ls| > 1
    ensures i > 0 ==> Flat(ls[..i - 1]) + (ls[i - 1] + l) + Flat(ls[i + 1..]) == Flat(ls[..i]) + l + Flat(ls[i + 1..])
    ensures i > 0 ==> |Flat(ls[..i])| == |Flat(ls[..i - 1])| + |ls[i - 1]|
    ensures i == 0 ==> Flat(ls[..0]) + (l + ls[1]) + Flat(ls[2..]) == Flat(ls[..0]) + l + Flat(ls[1..])
  {
    hide Flat;
    if i > 0 {
      assert ls[..i] == ls[..i - 1] + [ls[i - 1]];
      FlatConcat(ls[..i - 1], [ls[i - 1]]);
      FlatPair(ls[i - 1], []);
    } else {
      assert ls[1..] == [ls[1]] + ls[2..];
      FlatConcat([ls[1]], ls[2..]);
      FlatPair(ls[1], []);
    }
  }

  lemma {:induction false} InsertInMiddle(x: seq<Extent>, l: seq<Extent>, y: seq<Extent>, j: int, e: Extent)
    requires 0 <= j <= |l|
    ensures var s, k := x + l + y, |x| + j; x + (l[..j] + [e] + l[j..]) + y == s[..k] + [e] + s[k..]
  {
  }

  lemma {:induction false} EraseInMiddle(x: seq<Extent>, l: seq<Extent>, y: seq<Extent>, j: int)
    requires 0 <= j < |l|
    ensures var s, k := x + l + y, |x| + j; x + (l[..j] + l[j + 1..]) + y == s[..k] + s[k + 1..]
  {
  }

  lemma {:induction false} UpdateInMiddle(x: seq<Extent>, l: seq<Extent>, y: seq<Extent>, j: int, e: Extent)
    requires 0 <= j < |l|
    ensures var s, k := x + l + y, |x| + j; x + l[j := e] + y == s[k := e]
  {
  }

  /** std::lower_bound on the index of upper ends. */
  method FirstMaxNotBelow(xs: seq<int>, v: int) returns (k: int)
    requires forall i, j :: 0 <= i < j < |xs| ==> xs[i] <= xs[j]
    ensures 0 <= k <= |xs|
    ensures forall i :: 0 <= i < k ==> xs[i] < v
    ensures forall i :: k <= i < |xs| ==> v <= xs[i]
  {
    k := 0;
    var hi := |xs|;
    while k < hi
      invariant 0 <= k <= hi <= |xs|
      invariant forall i :: 0 <= i < k ==> xs[i] < v
      invariant forall i :: hi <= i < |xs| ==> v <= xs[i]
    {
      var mid := (k + hi) / 2;
      if xs[mid] < v {
        k := mid + 1;
      } else {
        hi := mid;
      }
    }
  }

  /** std::lower_bound on a list of extents, ordered by base. */
  method FirstBaseNotBelow(l: seq<Extent>, v: int) returns (k: int)
    requires forall i, j :: 0 <= i < j < |l| ==> l[i].base <= l[j].base
    ensures 0 <= k <= |l|
    ensures forall i :: 0 <= i < k ==> l[i].base < v
    ensures forall i :: k <= i < |l| ==> v <= l[i].base
  {
    k := 0;
    var hi := |l|;
    while k < hi
      invariant 0 <= k <= hi <= |l|
      invariant forall i :: 0 <= i < k ==> l[i].base < v
      invariant forall i :: hi <= i < |l| ==> v <= l[i].base
    {
      var mid := (k + hi) / 2;
      if l[mid].base < v {
        k := mid + 1;
      } else {
        hi := mid;
      }
    }
  }

  /** A list is a slice of the contents, so it is sorted too. */
  lemma {:induction false} ListSorted(ls: seq<seq<Extent>>, i: int)
    requires 0 <= i < |ls| && Sorted(Flat(ls))
    ensures Sorted(ls[i])
  {
    hide Flat;
    FlatSplit(ls, i);
    var n := |Flat(ls[..i])|;
    assert ls[i] == Flat(ls)[n..n + |ls[i]|];
    SortedSlice(Flat(ls), n, n + |ls[i]|);
  }

  lemma {:induction false} SortedSlice(s: seq<Extent>, lo: int, hi: int)
    requires Sorted(s) && 0 <= lo <= hi <= |s|
    ensures Sorted(s[lo..hi])
  {
    assert forall i :: 0 <= i < hi - lo ==> s[lo..hi][i] == s[lo + i];
  }

  /** The lists before `i` end at or before the lower end of every extent from list `i` on. */
  lemma {:induction false} ListsBefore(ls: seq<seq<Extent>>, i: int)
    requires 0 < i <= |ls| && Sorted(Flat(ls)) && ls[i - 1] != []
    ensures Below(Flat(ls[..i]), Last(ls[i - 1]).Limit())
    ensures Above(Flat(ls[i..]), Last(ls[i - 1]).Limit())
  {
    hide Flat;
    FlatSplit(ls, i - 1);
    var x := Flat(ls[..i]);
    assert x[|x| - 1] == Last(ls[i - 1]);
    var s := Flat(ls);
    assert forall j :: 0 <= j < |x| ==> x[j] == s[j];
    assert forall j :: 0 <= j < |Flat(ls[i..])| ==> Flat(ls[i..])[j] == s[|x| + j];
  }

  lemma {:induction false} MaxesSorted(ls: seq<seq<Extent>>, maxes: seq<int>, i: int, j: int)
    requires Sorted(Flat(ls)) && |maxes| == |ls| && 0 <= i < j < |ls|
    requires forall i :: 0 <= i < |ls| ==> Indexed(ls[i], maxes[i])
    ensures maxes[i] < maxes[j]
  {
    hide Flat;
    ListsBefore(ls, i + 1);
    FlatSplit(ls[i + 1..], j - i - 1);
    ListSorted(ls, j);
    var y := Flat(ls[i + 1..]);
    var k := |Flat(ls[i + 1..][..j - i - 1])| + |ls[j]| - 1;
    assert y[k] == Last(ls[j]);
  }

  lemma {:induction false} AboveFrom(s: seq<Extent>, k: int, b: int)
    requires Sorted(s) && 0 <= k <= |s| && (k < |s| ==> b <= s[k].base)
    ensures Above(s[k..], b)
  {
  }

  lemma {:induction false} AboveHead(y: seq<Extent>, b: int)
    requires Sorted(y) && (y != [] ==> b <= y[0].base)
    ensures Above(y, b)
  {
  }

  lemma {:induction false} EmptyModel(s: seq<Extent>)
    requires |s| == 0
    ensures s == [] && Model(s) == map[]
  {
  }

  lemma {:induction false} SortedNothing()
    ensures Sorted([])
  {
  }

  lemma {:induction false} ModelNothing(ls: seq<seq<Extent>>)
    requires ls == []
    ensures Flat(ls) == [] && Model(Flat(ls)) == map[] && Sorted([]) && Model([]) == map[]
  {
  }

  lemma {:induction false} RemoveThenSpan(m: map<int, Ptr>, base: int, limit: int, p: Ptr)
    ensures Remove(m, base, limit) + Span(base, limit, p) == Override(m, base, limit, p)
  {
    var a, b := Remove(m, base, limit) + Span(base, limit, p), Override(m, base, limit, p);
    assert a.Keys == b.Keys;
  }

  lemma {:induction false} AdjacentVia(l: Extent, e: Extent)
    requires Adjacent(l, e)
    ensures forall r :: Adjacent(l.Relimit(e.Limit()), r) <==> Adjacent(e, r)
  {
  }

  /** A place in the map: an entry of a list, or the end of the last list. */
  datatype Pos = Pos(i: nat, j: nat)

  /** An extent that closes the gap behind extent `k`. */
  lemma {:induction false} PlaceAtGap(s: seq<Extent>, k: int, e: Extent)
    requires Sorted(s) && 0 <= k < |s| - 1 && Adjacent(s[k], e) && Adjacent(e, s[k + 1]) && 0 < e.len
    ensures Placed(s, e, s[..k] + [s[k].Relimit(s[k + 1].Limit())] + s[k + 2..])
  {
    hide Sorted, Placed, Adjacent;
    assert s == s[..k] + [s[k]] + ([s[k + 1]] + s[k + 2..]);
    PlaceBetween(s[..k], s[k], s[k + 1], s[k + 2..], e);
  }

  /** An extent right behind extent `k`, and not touching the next. */
  lemma {:induction false} PlaceBehind(s: seq<Extent>, k: int, e: Extent)
    requires Sorted(s) && 0 <= k < |s| && Adjacent(s[k], e) && 0 < e.len && Above(s[k + 1..], e.Limit())
    requires k + 1 < |s| ==> !Adjacent(e, s[k + 1])
    ensures Placed(s, e, s[..k] + [s[k].Relimit(e.Limit())] + s[k + 1..])
  {
    hide Sorted, Placed, Adjacent;
    assert s == s[..k] + [s[k]] + s[k + 1..];
    PlaceAfter(s[..k], s[k], s[k + 1..], e);
  }

  class ExtMap {
    const load: int
    var lists: seq<seq<Extent>>
    var maxes: seq<int>
    var count: int

    ghost function Contents(): seq<Extent>
      reads this
    {
      Flat(lists)
    }

    /** The plain map this extent map stands for. */
    ghost function View(): map<int, Ptr>
      reads this
    {
      Model(Contents())
    }

    ghost predicate Shape()
      reads this
    {
      Layout(load, lists, maxes, -1) && count == |Contents()|
    }

    ghost predicate Valid()
      reads this
    {
      Shape() && Sorted(Contents())
    }

    ghost function Index(p: Pos): int
      requires p.i <= |lists|
      reads this
    {
      |Flat(lists[..p.i])| + p.j
    }

    ghost predicate ValidPos(p: Pos)
      reads this
    {
      if lists == [] then p == Pos(0, 0)
      else p.i < |lists| && p.j <= |lists[p.i]| && (p.j == |lists[p.i]| ==> p.i == |lists| - 1)
    }

    constructor (load: int)
      requires 2 <= load
      ensures Valid() && Contents() == [] && Canonical(Contents()) && View() == map[] && this.load == load
    {
      this.load := load;
      lists, maxes, count := [], [], 0;
    }

    function Begin(): Pos {
      Pos(0, 0)
    }

    function End(): Pos
      reads this
    {
      if lists == [] then Pos(0, 0) else Pos(|lists| - 1, |lists[|lists| - 1]|)
    }

    /** The end is the one valid place with no extent; every other names the extent at its index. */
    lemma {:induction false} PosIndex(p: Pos)
      requires ValidPos(p)
      requires forall i :: 0 <= i < |lists| ==> lists[i] != []
      ensures 0 <= Index(p) <= |Contents()|
      ensures p == End() <==> Index(p) == |Contents()|
      ensures p == Begin() <==> Index(p) == 0
      ensures p != End() ==> p.i < |lists| && p.j < |lists[p.i]| && lists[p.i][p.j] == Contents()[Index(p)]
    {
      if lists != [] {
        FlatSplit(lists, p.i);
        FlatSplit(lists, |lists| - 1);
        assert lists[|lists|..] == [] && lists[..0] == [];
        if p.i != 0 {
          FlatSplit(lists[..p.i], 0);
        }
        if p.i != |lists| - 1 {
          FlatSplit(lists[p.i + 1..], 0);
        }
      }
    }

    function Get(p: Pos): Extent
      requires p.i < |lists| && p.j < |lists[p.i]|
      reads this
    {
      lists[p.i][p.j]
    }

    function Next(p: Pos): Pos
      requires p.i < |lists| && p.j < |lists[p.i]|
      reads this
    {
      if p.j + 1 == |lists[p.i]| && p.i + 1 < |lists| then Pos(p.i + 1, 0) else Pos(p.i, p.j + 1)
    }

    lemma {:induction false} NextIndex(p: Pos)
      requires p.i < |lists| && p.j < |lists[p.i]|
      requires forall i :: 0 <= i < |lists| ==> lists[i] != []
      ensures ValidPos(Next(p)) && Index(Next(p)) == Index(p) + 1
    {
      FlatSplit(lists, p.i);
    }

    function Prev(p: Pos): Pos
      requires p.i < |lists|
      reads this
    {
      if p.j > 0 then Pos(p.i, p.j - 1)
      else if p.i > 0 && lists[p.i - 1] != [] then Pos(p.i - 1, |lists[p.i - 1]| - 1)
      else Pos(0, 0)
    }

    lemma {:induction false} PrevIndex(p: Pos)
      requires ValidPos(p) && lists != [] && p != Begin()
      requires forall i :: 0 <= i < |lists| ==> lists[i] != []
      ensures ValidPos(Prev(p)) && Index(Prev(p)) == Index(p) - 1
    {
      if p.j == 0 {
        FlatSplit(lists, p.i - 1);
      }
    }

    /** Split an over-full list in two; the contents and the place stay the same. */
    method Expand(it: Pos) returns (r: Pos)
      requires it.i < |lists| && it.j <= |lists[it.i]|
      requires Layout(load, lists, maxes, it.i) && count == |Contents()|
      modifies this
      ensures Shape() && Contents() == old(Contents())
      ensures r.i < |lists| && r.j <= |lists[r.i]| && Index(r) == old(Index(it))
      ensures it.j < old(|lists[it.i]|) ==> r.j < |lists[r.i]|
    {
      hide Flat;
      r := it;
      var l := lists[it.i];
      if |l| >= 2 * load {
        SplitList(load, lists, maxes, it.i);
        var left, right := l[..load], l[load..];
        lists := lists[..it.i] + [left, right] + lists[it.i + 1..];
        maxes := maxes[..it.i] + [Last(left).Limit(), Last(right).Limit()] + maxes[it.i + 1..];
        if it.j >= load {
          r := Pos(it.i + 1, it.j - load);
        }
      }
    }

    /** The first entry of an empty map. */
    method First(e: Extent)
      requires Shape() && Contents() == []
      modifies this
      ensures Shape() && ValidPos(Begin()) && Contents() == [e] && Index(Begin()) == 0
    {
      lists, maxes, count := [[e]], [e.Limit()], 1;
      FlatPair([e], []);
      assert lists[..0] == [];
    }

    /** Insert an extent just before `it`; the result names it. */
    method Insert(it: Pos, e: Extent) returns (r: Pos)
      requires Shape() && ValidPos(it)
      modifies this
      ensures Shape() && ValidPos(r)
      ensures var s, k := old(Contents()), old(Index(it));
              0 <= k <= |s| && Contents() == s[..k] + [e] + s[k..] && Index(r) == k
    {
      hide Flat;
      PosIndex(it);
      if count == 0 {
        First(e);
        return Begin();
      }
      hide Layout;
      InsertInto(it, e);
      r := Expand(it);
    }

    /** Insert into the list of `it`, which may then be over-full. */
    method InsertInto(it: Pos, e: Extent)
      requires Shape() && it.i < |lists| && it.j <= |lists[it.i]|
      modifies this
      ensures it.i < |lists| && it.j < |lists[it.i]| && Layout(load, lists, maxes, it.i) && count == |Contents()|
      ensures var s, k := old(Contents()), old(Index(it));
              0 <= k <= |s| && Contents() == s[..k] + [e] + s[k..] && Index(it) == k
    {
      hide Flat;
      var l := lists[it.i][..it.j] + [e] + lists[it.i][it.j..];
      ReplaceList(load, lists, maxes, it.i, l);
      hide Layout;
      InsertInMiddle(Flat(lists[..it.i]), lists[it.i], Flat(lists[it.i + 1..]), it.j, e);
      lists := lists[it.i := l];
      maxes := maxes[it.i := Last(l).Limit()];
      count := count + 1;
    }

    /** Remove the extent at `it`; the result names the one after it. */
    method Erase(it: Pos) returns (r: Pos)
      requires Shape() && it.i < |lists| && it.j < |lists[it.i]|
      modifies this
      ensures Shape() && ValidPos(r)
      ensures var s, k := old(Contents()), old(Index(it));
              0 <= k < |s| && Contents() == s[..k] + s[k + 1..] && Index(r) == k
    {
      hide Flat;
      r := TakeOut(it);
      if lists != [] && r.j == |lists[r.i]| && r.i != |lists| - 1 {
        FlatSplit(lists, r.i);
        r := Pos(r.i + 1, 0);
      }
    }

    /** Without the extent at `it`; the result may be the end of a list. */
    method TakeOut(it: Pos) returns (r: Pos)
      requires Shape() && it.i < |lists| && it.j < |lists[it.i]|
      modifies this
      ensures Shape() && (if lists == [] then r == Pos(0, 0) else r.i < |lists| && r.j <= |lists[r.i]|)
      ensures var s, k := old(Contents()), old(Index(it));
              0 <= k < |s| && Contents() == s[..k] + s[k + 1..] && Index(r) == k
    {
      hide Flat;
      var l := lists[it.i][..it.j] + lists[it.i][it.j + 1..];
      FlatSplit(lists, it.i);
      EraseInMiddle(Flat(lists[..it.i]), lists[it.i], Flat(lists[it.i + 1..]), it.j);
      count := count - 1;
      r := it;
      if l == [] {
        DropOnly();
        return;
      } else if |l| > load / 2 || |lists| == 1 {
        ReplaceList(load, lists, maxes, it.i, l);
        lists := lists[it.i := l];
        maxes := maxes[it.i := Last(l).Limit()];
      } else {
        r := Join(it, l);
      }
    }

    /** Only the sole list of the map can run empty: with more lists each holds at least two extents. */
    method DropOnly()
      requires Layout(load, lists, maxes, -1) && |lists| == 1 && |lists[0]| == 1 && count == |Contents()| - 1
      modifies this
      ensures Shape() && lists == [] && Contents() == [] && old(Flat(lists[..0])) == []
      ensures |old(Contents())| == 1
    {
      FlatPair(lists[0], []);
      assert lists == [lists[0]];
      lists := lists[..0] + lists[1..];
      maxes := maxes[..0] + maxes[1..];
    }

    /** Merge list `it.i`, cut down to `l`, with a neighbour, and split the result if it is over-full. */
    method Join(it: Pos, l: seq<Extent>) returns (r: Pos)
      requires Layout(load, lists, maxes, -1) && it.i < |lists| && it.j < |lists[it.i]| && |lists| > 1
      requires l != [] && |l| == |lists[it.i]| - 1 <= load / 2
      requires count == |Flat(lists[..it.i]) + l + Flat(lists[it.i + 1..])|
      modifies this
      ensures Shape() && Contents() == old(Flat(lists[..it.i]) + l + Flat(lists[it.i + 1..]))
      ensures r.i < |lists| && r.j <= |lists[r.i]| && Index(r) == old(Index(it))
    {
      hide Flat;
      var pos := if it.i > 0 then it.i else it.i + 1;
      var prev := pos - 1;
      var j := if pos == it.i then it.j + |lists[prev]| else it.j;
      var joined := if pos == it.i then lists[prev] + l else l + lists[pos];
      JoinLists(load, lists, maxes, prev, joined);
      JoinedSame(lists, it.i, l);
      hide Layout;
      lists := lists[..prev] + [joined] + lists[pos + 1..];
      maxes := maxes[..prev] + [Last(joined).Limit()] + maxes[pos + 1..];
      r := Expand(Pos(prev, j));
    }

    /** The first extent that ends after `base`: the one containing it, or else the next one up. */
    method LowerBound(base: int) returns (r: Pos)
      requires Shape() && Sorted(Contents())
      ensures ValidPos(r)
      ensures 0 <= Index(r) <= |Contents()| && Below(Contents()[..Index(r)], base)
      ensures Index(r) < |Contents()| ==> base < Contents()[Index(r)].Limit()
    {
      hide Flat;
      if lists == [] {
        FlatEmpty();
        return End();
      }
      forall i, j | 0 <= i < j < |maxes| ensures maxes[i] <= maxes[j] {
        MaxesSorted(lists, maxes, i, j);
      }
      var m := FirstMaxNotBelow(maxes, base);
      if m < |maxes| && maxes[m] == base {
        if m + 1 < |maxes| {
          MaxesSorted(lists, maxes, m, m + 1);
        }
        m := m + 1;
      }
      if m > 0 {
        ListsBefore(lists, m);
      } else {
        FlatEmpty();
        assert lists[..0] == [];
      }
      if m == |maxes| {
        PosIndex(End());
        assert lists[..|lists|] == lists;
        return End();
      }
      r := FindInList(m, base);
    }

    method FindInList(m: int, base: int) returns (r: Pos)
      requires Shape() && Sorted(Contents()) && 0 <= m < |lists|
      requires base < maxes[m] && Below(Flat(lists[..m]), base)
      ensures ValidPos(r)
      ensures 0 <= Index(r) < |Contents()| && Below(Contents()[..Index(r)], base)
      ensures base < Contents()[Index(r)].Limit()
    {
      hide Flat;
      ListSorted(lists, m);
      NonemptyLists();
      var l := lists[m];
      assert Indexed(l, maxes[m]);
      hide Layout;
      var j := FirstBaseNotBelow(l, base);
      if j > 0 && l[j - 1].base <= base && base < l[j - 1].Limit() {
        j := j - 1;
      }
      assert j < |l| && base < l[j].Limit() && Below(l[..j], base);
      r := Pos(m, j);
      hide Sorted;
      FlatSplit(lists, m);
      PosIndex(r);
      assert Contents()[..Index(r)] == Flat(lists[..m]) + l[..j];
    }

    /** The lists keep their sizes, so every place keeps its index. */
    twostate predicate SameSizes()
      reads this
    {
      |lists| == old(|lists|) && forall i :: 0 <= i < |lists| ==> |lists[i]| == old(|lists[i]|)
    }

    /** Change the upper end of the extent at `it` in place, and the index of upper ends with it. */
    method Relimit(it: Pos, limit: int)
      requires Shape() && it.i < |lists| && it.j < |lists[it.i]|
      modifies this
      ensures Shape() && SameSizes() && Index(it) == old(Index(it))
      ensures var s, k := old(Contents()), old(Index(it));
              0 <= k < |s| && Contents() == s[k := s[k].Relimit(limit)]
    {
      hide Flat;
      var e := lists[it.i][it.j].Relimit(limit);
      var l := lists[it.i][it.j := e];
      ReplaceList(load, lists, maxes, it.i, l);
      UpdateInMiddle(Flat(lists[..it.i]), lists[it.i], Flat(lists[it.i + 1..]), it.j, e);
      lists := lists[it.i := l];
      maxes := maxes[it.i := Last(l).Limit()];
    }

    /** Change the lower end of the extent at `it` in place; its upper end, and so the index, stays. */
    method Rebase(it: Pos, base: int)
      requires Shape() && it.i < |lists| && it.j < |lists[it.i]|
      modifies this
      ensures Shape() && SameSizes() && Index(it) == old(Index(it))
      ensures var s, k := old(Contents()), old(Index(it));
              0 <= k < |s| && Contents() == s[k := s[k].Rebase(base)]
    {
      hide Flat;
      var e := lists[it.i][it.j].Rebase(base);
      var l := lists[it.i][it.j := e];
      ReplaceList(load, lists, maxes, it.i, l);
      UpdateInMiddle(Flat(lists[..it.i]), lists[it.i], Flat(lists[it.i + 1..]), it.j, e);
      assert maxes[it.i := Last(l).Limit()] == maxes;
      lists := lists[it.i := l];
    }

    /** Cut [base, limit) out of the map; the result names the first extent above it. */
    method Carve(base: int, limit: int) returns (it: Pos, del: seq<Extent>)
      requires Valid() && base <= limit
      modifies this
      ensures Valid() && ValidPos(it)
      ensures 0 <= Index(it) <= |Contents()|
      ensures Below(Contents()[..Index(it)], base) && Above(Contents()[Index(it)..], limit)
      ensures View() == Remove(old(View()), base, limit)
      ensures Model(del) == Restrict(old(View()), base, limit)
      ensures base < limit ==> Sorted(del) && (old(Canonical(Contents())) ==> Canonical(Contents()))
      ensures base == limit && old(Canonical(Contents())) ==> (Canonical(Contents()) <==> !Inside(old(Contents()), base))
      ensures forall i :: 0 <= i < |del| ==> if base < limit then 0 < del[i].len else del[i].len == 0
    {
      hide Flat, Model, Canonical, Inside, Layout, Sorted;
      it := LowerBound(base);
      ghost var s0 := Contents();
      it, del := CarveLeftPart(it, base, limit);
      it, del := EraseInside(s0, it, del, base, limit);
      del := CarveRightPart(s0, it, del, base, limit);
      ghost var x, y := Contents()[..Index(it)], Contents()[Index(it)..];
      assert Contents() == x + y;
      AboveHead(y, limit);
      CarveDone(s0, x, y, del, base, limit);
    }

    /** The cut so far, with `it` the place where it is being made. */
    ghost predicate CutAt(s0: seq<Extent>, it: Pos, del: seq<Extent>, base: int, limit: int)
      reads this
    {
      && Shape() && ValidPos(it) && 0 <= Index(it) <= |Contents()|
      && PartlyCut(s0, Contents()[..Index(it)], Contents()[Index(it)..], del, base, limit)
    }

    /** Bisected and left-hand overlapping extents. */
    method CarveLeftPart(at: Pos, base: int, limit: int) returns (it: Pos, del: seq<Extent>)
      requires Valid() && base <= limit && ValidPos(at)
      requires 0 <= Index(at) <= |Contents()| && Below(Contents()[..Index(at)], base)
      requires Index(at) < |Contents()| ==> base < Contents()[Index(at)].Limit()
      modifies this
      ensures CutAt(old(Contents()), it, del, base, limit)
    {
      hide Flat, Model;
      it, del := at, [];
      PosIndex(it);
      ghost var s, k := Contents(), Index(it);
      if it != End() && Get(it).base < base {
        var e := Get(it);
        assert s == s[..k] + [e] + s[k + 1..];
        CarveLeft(s[..k], e, s[k + 1..], base, limit);
        del := [Cut(e, base, limit)];
        it := SplitAt(it, base, limit);
      } else {
        assert s == s[..k] + s[k..];
        AboveFrom(s, k, base);
        CarveNone(s[..k], s[k..], base, limit);
      }
    }

    /** Keep the part of the extent below `base`, and after it the part above `limit` if there is one. */
    method SplitAt(at: Pos, base: int, limit: int) returns (it: Pos)
      requires Shape() && at.i < |lists| && at.j < |lists[at.i]| && Index(at) < |Contents()|
      modifies this
      ensures Shape() && ValidPos(it) && Index(it) == old(Index(at)) + 1 <= |Contents()|
      ensures var s, k, e := old(Contents()), old(Index(at)), old(Get(at));
              && Contents()[..k + 1] == s[..k] + [e.Relimit(base)]
              && Contents()[k + 1..] == Tail(e, limit) + s[k + 1..]
    {
      hide Flat, Model;
      it := at;
      PosIndex(at);
      ghost var s, k := Contents(), Index(at);
      var e := Get(it);
      Relimit(it, base);
      NextIndex(it);
      it := Next(it);
      if limit < e.Limit() {
        it := Insert(it, e.Rebase(limit));
      }
    }

    /** Extents that lie inside the range. */
    method EraseInside(ghost s0: seq<Extent>, at: Pos, old': seq<Extent>, base: int, limit: int)
      returns (it: Pos, del: seq<Extent>)
      requires CutAt(s0, at, old', base, limit)
      modifies this
      ensures CutAt(s0, it, del, base, limit)
      ensures Index(it) < |Contents()| ==> limit < Contents()[Index(it)].Limit()
    {
      hide Flat, Model;
      it, del := at, old';
      PosIndex(it);
      while it != End() && Get(it).Limit() <= limit
        invariant CutAt(s0, it, del, base, limit)
        invariant it == End() <==> Index(it) == |Contents()|
        invariant it != End() ==> it.i < |lists| && it.j < |lists[it.i]| && Get(it) == Contents()[Index(it)]
        decreases count
      {
        ghost var s, k := Contents(), Index(it);
        var e := Get(it);
        assert s[k..] == [e] + s[k + 1..];
        CarveErase(s0, s[..k], e, s[k + 1..], del, base, limit);
        del := del + [e];
        it := Erase(it);
        assert Contents()[..k] == s[..k] && Contents()[k..] == s[k + 1..];
        PosIndex(it);
      }
    }

    /** The extent that sticks out to the right of the range. */
    method CarveRightPart(ghost s0: seq<Extent>, it: Pos, old': seq<Extent>, base: int, limit: int)
      returns (del: seq<Extent>)
      requires CutAt(s0, it, old', base, limit)
      requires Index(it) < |Contents()| ==> limit < Contents()[Index(it)].Limit()
      modifies this
      ensures CutAt(s0, it, del, base, limit)
      ensures Index(it) < |Contents()| ==> limit <= Contents()[Index(it)].base
    {
      hide Flat, Model;
      del := old';
      PosIndex(it);
      if it != End() && Get(it).base < limit {
        ghost var s, k := Contents(), Index(it);
        var e := Get(it);
        assert s[k..] == [e] + s[k + 1..];
        CarveRight(s0, s[..k], e, s[k + 1..], del, base, limit);
        del := del + [Extent(e.base, limit - e.base, e.ptr)];
        Rebase(it, limit);
        assert Contents()[..k] == s[..k] && Contents()[k..] == [e.Rebase(limit)] + s[k + 1..];
      }
    }

    /** Enter `e` just before `it`, merging it with its neighbours where the runs continue. */
    method PlaceAt(it: Pos, e: Extent)
      requires Valid() && ValidPos(it) && 0 < e.len && 0 <= Index(it) <= |Contents()|
      requires Below(Contents()[..Index(it)], e.base) && Above(Contents()[Index(it)..], e.Limit())
      modifies this
      ensures Shape() && Placed(old(Contents()), e, Contents())
    {
      hide Flat, Model, Sorted, Canonical, Layout;
      NonemptyLists();
      PosIndex(it);
      ghost var s, k := Contents(), Index(it);
      ghost var x, y := s[..k], s[k..];
      assert s == x + y;
      if it != Begin() && Adjacent(Get(Before(it)), e) {
        MergeLeft(it, e);
      } else if it != End() && Adjacent(e, Get(it)) {
        var r := Get(it);
        assert s == x + [r] + s[k + 1..];
        PlaceBefore(x, r, s[k + 1..], e);
        Rebase(it, e.base);
        assert Contents() == x + [r.Rebase(e.base)] + s[k + 1..];
      } else {
        PlaceAlone(x, y, e);
        var _ := Insert(it, e);
      }
    }

    /** The place before `it`, which holds an extent. */
    function Before(it: Pos): (p: Pos)
      requires Shape() && ValidPos(it) && it != Begin()
      reads this
      ensures p.i < |lists| && p.j < |lists[p.i]| && Index(p) == Index(it) - 1
      ensures 0 <= Index(p) < |Contents()| && Get(p) == Contents()[Index(p)] && Next(p) == it
    {
      PosIndex(it);
      PrevIndex(it);
      PosIndex(Prev(it));
      Prev(it)
    }

    lemma {:induction false} NonemptyLists()
      requires Shape()
      ensures forall i :: 0 <= i < |lists| ==> lists[i] != []
    {
      hide Flat;
      assert forall i :: 0 <= i < |lists| ==> Indexed(lists[i], maxes[i]);
    }

    /** Extend the extent before `it` over `e`, and over the extent at `it` if that plugs a hole. */
    method MergeLeft(it: Pos, e: Extent)
      requires Valid() && ValidPos(it) && 0 < e.len && it != Begin() && 0 <= Index(it) <= |Contents()|
      requires Above(Contents()[Index(it)..], e.Limit()) && Adjacent(Get(Before(it)), e)
      modifies this
      ensures Shape() && Placed(old(Contents()), e, Contents())
    {
      hide Flat, Model, Sorted, Canonical, Layout, Placed;
      NonemptyLists();
      PosIndex(it);
      var prev := Before(it);
      PosIndex(prev);
      ghost var s, k := Contents(), Index(prev);
      Relimit(prev, e.Limit());
      MergeOn(prev, it, e, s, k);
    }

    /** The extent at `prev` has grown over `e`; if it now touches the next one, that goes too. */
    method MergeOn(prev: Pos, it: Pos, e: Extent, ghost s: seq<Extent>, ghost k: int)
      requires Shape() && prev.i < |lists| && prev.j < |lists[prev.i]| && ValidPos(it) && it == Next(prev) && Index(prev) == k
      requires 0 <= k < |s| && Contents() == s[k := s[k].Relimit(e.Limit())]
      requires Sorted(s) && Adjacent(s[k], e) && 0 < e.len && Above(s[k + 1..], e.Limit())
      modifies this
      ensures Shape() && Placed(s, e, Contents())
    {
      hide Flat, Model, Sorted, Canonical, Layout, Placed;
      NonemptyLists();
      NextIndex(prev);
      PosIndex(prev);
      PosIndex(it);
      AdjacentVia(s[k], e);
      if it != End() && Adjacent(Get(prev), Get(it)) {
        var r := Get(it);
        PlaceAtGap(s, k, e);
        PlugHole(prev, it, r.Limit());
        assert Contents() == s[..k] + [s[k].Relimit(r.Limit())] + s[k + 2..];
      } else {
        PlaceBehind(s, k, e);
        assert Contents() == s[..k] + [s[k].Relimit(e.Limit())] + s[k + 1..];
      }
    }

    /** Extend the extent at `prev` over the next one, which goes. */
    method PlugHole(prev: Pos, it: Pos, limit: int)
      requires Shape() && prev.i < |lists| && prev.j < |lists[prev.i]| && it == Next(prev) && it != End()
      requires 0 <= Index(prev) < |Contents()| - 1
      modifies this
      ensures Shape()
      ensures var s, k := old(Contents()), old(Index(prev));
              Contents() == s[..k] + [s[k].Relimit(limit)] + s[k + 2..]
    {
      hide Flat;
      ghost var s, k := Contents(), Index(prev);
      Relimit(prev, limit);
      NextIndex(prev);
      PosIndex(it);
      var _ := Erase(it);
    }

    /** Map [base, limit) to consecutive places from `p`; the result holds the mappings this displaced. */
    method Update(base: int, limit: int, p: Ptr) returns (del: seq<Extent>)
      requires Valid() && base < limit
      modifies this
      ensures Valid() && View() == Override(old(View()), base, limit, p)
      ensures Sorted(del) && Model(del) == Restrict(old(View()), base, limit)
      ensures old(Canonical(Contents())) ==> Canonical(Contents())
    {
      hide Flat, Model;
      var e := Extent(base, limit - base, p);
      if maxes == [] {
        ModelNothing(lists);
        First(e);
        One(e);
        return [];
      }
      ghost var m := View();
      var it;
      it, del := Carve(base, limit);
      PlaceAt(it, e);
      RemoveThenSpan(m, base, limit, p);
    }

    /** Unmap [base, limit); an empty range changes nothing but may split an extent in two. */
    method Trim(base: int, limit: int) returns (del: seq<Extent>)
      requires Valid() && base <= limit
      modifies this
      ensures Valid() && View() == Remove(old(View()), base, limit)
      ensures Model(del) == Restrict(old(View()), base, limit)
      ensures base < limit ==> Sorted(del) && (old(Canonical(Contents())) ==> Canonical(Contents()))
      ensures base == limit && old(Canonical(Contents())) ==> (Canonical(Contents()) <==> !Inside(old(Contents()), base))
      ensures forall i :: 0 <= i < |del| ==> if base < limit then 0 < del[i].len else del[i].len == 0
    {
      hide Flat, Model;
      if count > 0 {
        var it;
        it, del := Carve(base, limit);
      } else {
        EmptyModel(Contents());
        SortedNothing();
        del := [];
      }
    }

    /** The loop over the extents that meet [lo, hi), each cut down to the range. */
    method Overlaps(lo: int, hi: int) returns (r: seq<Extent>)
      requires Valid() && lo < hi
      ensures Sorted(r) && Model(r) == Restrict(View(), lo, hi)
      ensures Above(r, lo) && Below(r, hi) && (Canonical(Contents()) ==> Canonical(r))
    {
      hide Flat, Model, Sorted, Canonical;
      var it := LowerBound(lo);
      ghost var c, k := Contents(), Index(it);
      ghost var k0 := k;
      r := [];
      OverlapsNone(c, k, lo, hi);
      PosIndex(it);
      while it != End() && Get(it).base < hi
        invariant ValidPos(it) && 0 <= k == Index(it) <= |c|
        invariant it == End() <==> k == |c|
        invariant it != End() ==> it.i < |lists| && it.j < |lists[it.i]| && Get(it) == c[k]
        invariant k < |c| ==> lo < c[k].Limit()
        invariant Clipped(c, k, r, lo, hi) && Clips(c, k0, k, r, lo, hi)
        decreases |c| - k
      {
        OverlapsMore(c, k, r, lo, hi);
        r := r + [Get(it).Clip(lo, hi)];
        NextIndex(it);
        it := Next(it);
        k := k + 1;
        PosIndex(it);
      }
      OverlapsAll(c, k, r, lo, hi);
      if Canonical(c) {
        ClipsCanonical(c, k0, k, r, lo, hi);
      }
    }

    /** The loop over the whole map. */
    method Entries() returns (r: seq<Extent>)
      requires Valid()
      ensures r == Contents()
    {
      hide Flat, Sorted;
      var it := Begin();
      ghost var c, k := Contents(), 0;
      r := [];
      FlatEmpty();
      assert lists != [] ==> lists[..0] == [];
      PosIndex(it);
      while it != End()
        invariant ValidPos(it) && 0 <= k == Index(it) <= |c| && r == c[..k]
        invariant it == End() <==> k == |c|
        invariant it != End() ==> it.i < |lists| && it.j < |lists[it.i]| && Get(it) == c[k]
        decreases |c| - k
      {
        r := r + [Get(it)];
        NextIndex(it);
        it := Next(it);
        k := k + 1;
        PosIndex(it);
      }
    }
  }

  /** `r` holds what the first `k` extents map inside [lo, hi). */
  ghost predicate Clipped(c: seq<Extent>, k: int, r: seq<Extent>, lo: int, hi: int) {
    && 0 <= k <= |c| && Sorted(c) && Sorted(r) && Above(r, lo) && Below(r, hi)
    && (k < |c| ==> Below(r, c[k].base))
    && Model(r) == Restrict(Model(c[..k]), lo, hi)
  }

  /** `r` is the extents [k0, k) one by one, cut to [lo, hi). */
  ghost predicate Clips(c: seq<Extent>, k0: int, k: int, r: seq<Extent>, lo: int, hi: int) {
    0 <= k0 && k0 + |r| == k <= |c| && forall i :: 0 <= i < |r| ==> r[i] == c[k0 + i].Clip(lo, hi)
  }

  lemma {:induction false} ClipsCanonical(c: seq<Extent>, k0: int, k: int, r: seq<Extent>, lo: int, hi: int)
    requires Canonical(c) && Clips(c, k0, k, r, lo, hi) && Sorted(r) && Above(r, lo) && Below(r, hi)
    ensures Canonical(r)
  {
    forall i | 0 <= i < |r| - 1 ensures !Adjacent(r[i], r[i + 1]) {
      assert r[i] == c[k0 + i].Clip(lo, hi) && r[i + 1] == c[k0 + i + 1].Clip(lo, hi);
      assert 0 < r[i].len && 0 < r[i + 1].len && r[i + 1].Limit() <= hi && lo <= r[i].base;
      assert !Adjacent(c[k0 + i], c[k0 + i + 1]);
    }
  }

  lemma {:induction false} OverlapsNone(c: seq<Extent>, k: int, lo: int, hi: int)
    requires Sorted(c) && 0 <= k <= |c| && Below(c[..k], lo)
    ensures Clipped(c, k, [], lo, hi)
  {
    ModelBelow(c[..k], lo);
  }

  lemma {:induction false} OverlapsMore(c: seq<Extent>, k: int, r: seq<Extent>, lo: int, hi: int)
    requires Clipped(c, k, r, lo, hi) && k < |c| && lo < c[k].Limit() && c[k].base < hi && lo < hi
    ensures Clipped(c, k + 1, r + [c[k].Clip(lo, hi)], lo, hi)
    ensures k + 1 < |c| ==> lo < c[k + 1].Limit()
  {
    hide Model;
    var e, d := c[k], c[k].Clip(lo, hi);
    assert c[..k + 1] == c[..k] + [e];
    ModelConcat(c[..k], [e]);
    ModelConcat(r, [d]);
    One(e);
    One(d);
    SortedAppend(r, [d], d.base);
    RestrictUnion(Model(c[..k]), SpanOf(e), lo, hi);
    ClipSpan(e, lo, hi);
  }

  lemma {:induction false} ClipSpan(e: Extent, lo: int, hi: int)
    ensures SpanOf(e.Clip(lo, hi)) == Restrict(SpanOf(e), lo, hi)
  {
    assert SpanOf(e.Clip(lo, hi)).Keys == Restrict(SpanOf(e), lo, hi).Keys;
  }

  lemma {:induction false} RestrictUnion(m: map<int, Ptr>, n: map<int, Ptr>, lo: int, hi: int)
    ensures Restrict(m + n, lo, hi) == Restrict(m, lo, hi) + Restrict(n, lo, hi)
  {
    var a, b := Restrict(m + n, lo, hi), Restrict(m, lo, hi) + Restrict(n, lo, hi);
    assert a.Keys == b.Keys;
    assert forall x :: x in a ==> a[x] == b[x];
    assert a == b;
  }

  lemma {:induction false} OverlapsAll(c: seq<Extent>, k: int, r: seq<Extent>, lo: int, hi: int)
    requires Clipped(c, k, r, lo, hi) && (k < |c| ==> hi <= c[k].base)
    ensures Model(r) == Restrict(Model(c), lo, hi) && Sorted(r) && Above(r, lo) && Below(r, hi)
  {
    hide Model;
    AboveFrom(c, k, hi);
    assert c == c[..k] + c[k..];
    ModelConcat(c[..k], c[k..]);
    ModelAbove(c[k..], hi);
    assert Restrict(Model(c), lo, hi).Keys == Restrict(Model(c[..k]), lo, hi).Keys;
  }

  /** In every valid map the lists are short, if there is more than one none is too short, and the index says where each ends. */
  lemma {:induction false} ListSizes(m: ExtMap, i: int)
    requires m.Valid() && 0 <= i < |m.lists|
    ensures 0 < |m.lists[i]| < 2 * m.load && (|m.lists| > 1 ==> m.load / 2 < |m.lists[i]|)
    ensures |m.maxes| == |m.lists| && m.maxes[i] == m.lists[i][|m.lists[i]| - 1].base + m.lists[i][|m.lists[i]| - 1].len
  {
  }

  /** Two histories that leave the same plain map leave the same extents. */
  lemma {:induction false} SameViewSameExtents(a: ExtMap, b: ExtMap)
    requires a.Valid() && b.Valid() && Canonical(a.Contents()) && Canonical(b.Contents())
    requires a.View() == b.View()
    ensures a.Contents() == b.Contents()
  {
    CanonicalUnique(a.Contents(), b.Contents());
  }
}
