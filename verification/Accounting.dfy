/** Every run keeps the live counts exact and the collector's pending requests sound. */
module Accounting {
  import opened Extents
  import opened Volume
  import opened Machine

  /** A map and its object table: every mapped sector is in a tracked object, and every count is exact. */
  ghost predicate Exact(log: seq<Rec>, k: int, m: map<int, Ptr>, info: map<int, Info>) {
    && 0 <= k <= |log|
    && (forall a :: a in m ==> ValidPtr(log, m[a]) && 0 < m[a].obj < k && m[a].obj in info)
    && (forall n :: n in info ==> 0 < n < k && log[n].DataRec?)
    && (forall n :: n in info ==> info[n] == Info(log[n].obj.hdr, Total(log[n].obj.pieces), Count(m, n)))
  }

  /** The size every object keeps to. */
  predicate Bounded(cfg: Config, sectors: int) {
    cfg.pc < 100 ==> sectors * (100 - cfg.pc) <= 100 * cfg.max
  }

  ghost predicate RecOk(cfg: Config, log: seq<Rec>, n: int)
    requires 0 <= n < |log|
  {
    match log[n]
    case DataRec(o) => ObjectOk(cfg, o)
    case CkptRec(m, info) => Exact(log, n, m, info)
  }

  ghost predicate ObjectOk(cfg: Config, o: DataObj) {
    && o.hdr == HdrSectors(|o.pieces|) && Bounded(cfg, Total(o.pieces))
    && (forall j :: 0 <= j < |o.pieces| ==> 0 < |o.pieces[j].data|)
  }

  ghost predicate LogOk(cfg: Config, log: seq<Rec>) {
    && log != [] && log[0] == CkptRec(map[], map[])
    && (forall n :: 0 <= n < |log| ==> RecOk(cfg, log, n))
  }

  /** What is durable is what was numbered, and nothing is durable and on its way at once. */
  ghost predicate StoreOk(log: seq<Rec>, backend: map<int, Rec>, inflight: map<int, Put>) {
    && (forall n :: n in backend ==> 0 < n < |log| && backend[n] == log[n])
    && (forall n :: n in inflight ==> 0 < n < |log| && log[n].DataRec? && n !in backend)
    && (forall n :: n in inflight ==> (inflight[n].GcPut? <==> log[n].obj.isGc))
  }

  ghost predicate BatchOk(cfg: Config, b: Batch) {
    && Total(b.writes) <= cfg.max
    && (forall j :: 0 <= j < |b.writes| ==> 0 < |b.writes[j].data|)
  }

  /** Comparing objects is enough: a sector of the entry still mapped to its object is mapped where it was. */
  ghost predicate StillThere(m: map<int, Ptr>, e: GcEntry) {
    forall a :: Keeps(m, e, a) ==> m[a].offset == e.offset + (a - e.lba)
  }

  ghost predicate EntryOk(log: seq<Rec>, m: map<int, Ptr>, e: GcEntry) {
    0 < |e.data| && 0 < e.obj < |log| && StillThere(m, e)
  }

  ghost predicate EntriesOk(cfg: Config, log: seq<Rec>, m: map<int, Ptr>, es: seq<GcEntry>) {
    && DisjointEntries(es) && Bounded(cfg, EntriesTotal(es))
    && (forall e :: e in es ==> EntryOk(log, m, e))
  }

  ghost predicate ReqOk(cfg: Config, log: seq<Rec>, m: map<int, Ptr>, r: Req) {
    match r
    case PutReq(b) => BatchOk(cfg, b)
    case GcReq(es) => EntriesOk(cfg, log, m, es)
    case _ => true
  }

  ghost predicate QueueOk(cfg: Config, log: seq<Rec>, m: map<int, Ptr>, queue: seq<Req>) {
    forall i :: 0 <= i < |queue| ==> ReqOk(cfg, log, m, queue[i])
  }

  /** Some request still on its way will move sector `a` out of object `n`. */
  ghost predicate Moving(queue: seq<Req>, todo: seq<seq<GcEntry>>, a: int, n: int) {
    (exists i, e :: 0 <= i < |queue| && queue[i].GcReq? && e in queue[i].entries && e.Covers(a) && e.obj == n)
    || CoveredBy(todo, a, n)
  }

  ghost predicate GcOk(cfg: Config, s: State) {
    match s.gc
    case Idle => true
    case Copying(objs, todo) =>
      && (forall n :: n in objs ==> 0 < n < |s.log| && s.log[n].DataRec?)
      && (forall i :: 0 <= i < |todo| ==> EntriesOk(cfg, s.log, s.objmap, todo[i]))
      && (forall a :: a in s.objmap && s.objmap[a].ObjPtr? && s.objmap[a].obj in objs ==>
            Moving(s.queue, todo, a, s.objmap[a].obj))
    case Cleaned(objs, since) =>
      && since <= |s.log| && (forall n :: n in objs ==> 0 < n < since && s.log[n].DataRec? && n !in s.info)
      && (forall n :: n in objs ==> Unreferenced(s.objmap, n))
      && (forall n, c :: n in objs && since <= c < |s.log| && s.log[c].CkptRec? ==> Unreferenced(s.log[c].omap, n))
  }

  ghost predicate Accounted(cfg: Config, s: State) {
    && LogOk(cfg, s.log) && Exact(s.log, |s.log|, s.objmap, s.info)
    && StoreOk(s.log, s.backend, s.inflight)
    && BatchOk(cfg, s.current) && QueueOk(cfg, s.log, s.objmap, s.queue)
    && GcOk(cfg, s)
    && (forall i :: 0 <= i < |s.checkpoints| ==>
          s.checkpoints[i] in s.backend && s.backend[s.checkpoints[i]].CkptRec? && s.checkpoints[i] <= LastCkpt(s))
    && (s.publishing ==> |s.log| - 1 in s.backend && s.backend[|s.log| - 1].CkptRec?)
  }

  // ---- the log grows ----

  lemma {:induction false} ExactMore(log: seq<Rec>, r: Rec, k: int, m: map<int, Ptr>, info: map<int, Info>)
    requires Exact(log, k, m, info)
    ensures Exact(log + [r], k, m, info)
  {
  }

  lemma {:induction false} LogOkMore(cfg: Config, log: seq<Rec>, r: Rec)
    requires LogOk(cfg, log) && RecOk(cfg, log + [r], |log|)
    ensures LogOk(cfg, log + [r])
  {
    var log' := log + [r];
    forall n | 0 <= n < |log'| ensures RecOk(cfg, log', n) {
      if n < |log| {
        assert RecOk(cfg, log, n);
        if log[n].CkptRec? {
          ExactMore(log, r, n, log[n].omap, log[n].info);
        }
      }
    }
  }

  /** The entered object is referenced only inside its own data, and the other objects as before. */
  lemma {:induction false} PiecesValid(log: seq<Rec>, m: map<int, Ptr>, o: DataObj)
    requires forall a :: a in m ==> ValidPtr(log, m[a])
    ensures var m' := ApplyPieces(m, |log|, o.hdr, o.pieces);
            forall a :: a in m' ==> ValidPtr(log + [DataRec(o)], m'[a])
  {
    var d := map a | a in m :: Fetch(log, m[a]);
    assert Agree(log, m, d);
    AgreeMore(log, [DataRec(o)], m, d);
    assert o.pieces[..|o.pieces|] == o.pieces;
    AgreePieces(log + [DataRec(o)], |log|, m, d, |o.pieces|);
  }

  /** Entering an object keeps the counts exact. */
  lemma {:induction false} ExactIssue(log: seq<Rec>, m: map<int, Ptr>, info: map<int, Info>, o: DataObj)
    requires Exact(log, |log|, m, info) && log != []
    ensures var n, m' := |log|, ApplyPieces(m, |log|, o.hdr, o.pieces);
            Exact(log + [DataRec(o)], n + 1, m', AddObject(info, m, m', n, o))
  {
    hide ApplyPieces, Total;
    var n, m' := |log|, ApplyPieces(m, |log|, o.hdr, o.pieces);
    var log', info' := log + [DataRec(o)], AddObject(info, m, m', n, o);
    PiecesValid(log, m, o);
    forall a | a in m' ensures ValidPtr(log', m'[a]) && 0 < m'[a].obj < n + 1 && m'[a].obj in info' {
      PiecesKeepOthers(m, n, o.hdr, o.pieces, a);
    }
    hide ValidPtr;
    forall k | k in info' ensures 0 < k < n + 1 && log'[k].DataRec? &&
      info'[k] == Info(log'[k].obj.hdr, Total(log'[k].obj.pieces), Count(m', k)) {
    }
  }

  // ---- mappings are only shed ----

  /** Going from `m` to `m'`, sectors may move to object `n` or lose their mapping, and nothing else. */
  ghost predicate Sheds(m: map<int, Ptr>, m': map<int, Ptr>, n: int) {
    forall a :: a in m' ==> (m'[a].ObjPtr? && m'[a].obj == n) || (a in m && m'[a] == m[a])
  }

  ghost predicate Grown(log: seq<Rec>, log': seq<Rec>) {
    |log| <= |log'| && forall n :: 0 <= n < |log| ==> log'[n] == log[n]
  }

  lemma {:induction false} EntriesKept(cfg: Config, log: seq<Rec>, log': seq<Rec>, m: map<int, Ptr>, m': map<int, Ptr>, es: seq<GcEntry>)
    requires EntriesOk(cfg, log, m, es) && Grown(log, log') && Sheds(m, m', |log|)
    ensures EntriesOk(cfg, log', m', es)
  {
    forall e | e in es ensures EntryOk(log', m', e) {
      assert EntryOk(log, m, e);
      forall a | Keeps(m', e, a) ensures m'[a].offset == e.offset + (a - e.lba) {
        assert Keeps(m, e, a);
      }
    }
  }

  lemma {:induction false} QueueKept(cfg: Config, log: seq<Rec>, log': seq<Rec>, m: map<int, Ptr>, m': map<int, Ptr>, q: seq<Req>, k: int)
    requires QueueOk(cfg, log, m, q) && Grown(log, log') && Sheds(m, m', |log|) && 0 <= k <= |q|
    ensures QueueOk(cfg, log', m', q[k..])
  {
    forall i | 0 <= i < |q| - k ensures ReqOk(cfg, log', m', q[k..][i]) {
      assert ReqOk(cfg, log, m, q[k + i]);
      if q[k + i].GcReq? {
        EntriesKept(cfg, log, log', m, m', q[k + i].entries);
      }
    }
  }

  /** Numbering and sending an object, with the head of the queue as its source. */
  lemma {:induction false} AccountedIssue(cfg: Config, s: State, o: DataObj, put: Put)
    requires Accounted(cfg, s) && !s.publishing && s.queue != [] && ObjectOk(cfg, o) && (put.GcPut? <==> o.isGc)
    requires s.queue[0].GcReq? ==>
      forall e, a :: e in s.queue[0].entries && Keeps(s.objmap, e, a) ==> Touches(o.pieces, a)
    ensures Accounted(cfg, Issue(s, o, put))
  {
    hide ApplyPieces, AddObject, ObjectOk, Bounded;
    var n, m := |s.log|, s.objmap;
    var s' := Issue(s, o, put);
    ExactIssue(s.log, m, s.info, o);
    assert RecOk(cfg, s'.log, n);
    LogOkMore(cfg, s.log, DataRec(o));
    forall a | a in s'.objmap
      ensures (s'.objmap[a].ObjPtr? && s'.objmap[a].obj == n) || (a in m && s'.objmap[a] == m[a]) {
      PiecesKeepOthers(m, n, o.hdr, o.pieces, a);
    }
    QueueKept(cfg, s.log, s'.log, m, s'.objmap, s.queue, 1);
    GcIssue(cfg, s, o, put);
  }

  lemma {:induction false} GcIssue(cfg: Config, s: State, o: DataObj, put: Put)
    requires GcOk(cfg, s) && s.queue != []
    requires forall n :: n in s.info ==> n < |s.log|
    requires Sheds(s.objmap, Issue(s, o, put).objmap, |s.log|)
    requires s.queue[0].GcReq? ==>
      forall e, a :: e in s.queue[0].entries && Keeps(s.objmap, e, a) ==> Touches(o.pieces, a)
    ensures GcOk(cfg, Issue(s, o, put))
  {
    hide ApplyPieces;
    var s' := Issue(s, o, put);
    if s.gc.Copying? {
      var objs, todo := s.gc.objs, s.gc.todo;
      forall i | 0 <= i < |todo| ensures EntriesOk(cfg, s'.log, s'.objmap, todo[i]) {
        EntriesKept(cfg, s.log, s'.log, s.objmap, s'.objmap, todo[i]);
      }
      forall a | a in s'.objmap && s'.objmap[a].ObjPtr? && s'.objmap[a].obj in objs
        ensures Moving(s'.queue, todo, a, s'.objmap[a].obj) {
        assert s'.objmap[a] == s.objmap[a];
        StillMoving(s, o, a);
      }
    }
  }

  lemma {:induction false} StillMoving(s: State, o: DataObj, a: int)
    requires s.queue != [] && s.gc.Copying? && a in s.objmap && s.objmap[a].ObjPtr? && s.objmap[a].obj != |s.log|
    requires s.queue[0].GcReq? ==>
      forall e, a :: e in s.queue[0].entries && Keeps(s.objmap, e, a) ==> Touches(o.pieces, a)
    requires var m' := ApplyPieces(s.objmap, |s.log|, o.hdr, o.pieces); a in m' && m'[a] == s.objmap[a]
    requires Moving(s.queue, s.gc.todo, a, s.objmap[a].obj)
    ensures Moving(s.queue[1..], s.gc.todo, a, s.objmap[a].obj)
  {
    PiecesInside(s.objmap, |s.log|, o.hdr, o.pieces, a);
    var n := s.objmap[a].obj;
    if !CoveredBy(s.gc.todo, a, n) {
      var i, e :| 0 <= i < |s.queue| && s.queue[i].GcReq? && e in s.queue[i].entries && e.Covers(a) && e.obj == n;
      assert i > 0 by {
        if i == 0 {
          assert Keeps(s.objmap, e, a);
        }
      }
      assert s.queue[1..][i - 1] == s.queue[i];
    }
  }

  // ---- sizes ----

  lemma {:induction false} RangeSize(lo: int, hi: int)
    requires lo <= hi
    ensures |Range(lo, hi)| == hi - lo
    decreases hi - lo
  {
    if lo < hi {
      RangeSize(lo, hi - 1);
      assert Range(lo, hi) == Range(lo, hi - 1) + {hi - 1};
    } else {
      assert Range(lo, hi) == {};
    }
  }

  ghost function Lbas(ps: seq<Write>): set<int> {
    if ps == [] then {} else Lbas(ps[..|ps| - 1]) + Range(ps[|ps| - 1].lba, ps[|ps| - 1].Limit())
  }

  lemma {:induction false} LbasIn(ps: seq<Write>, a: int)
    ensures a in Lbas(ps) <==> Touches(ps, a)
  {
    if ps != [] {
      var k := |ps| - 1;
      LbasIn(ps[..k], a);
      assert forall j :: 0 <= j < k ==> ps[..k][j] == ps[j];
      assert Touches(ps, a) <==> Touches(ps[..k], a) || ps[k].Covers(a);
    }
  }

  lemma {:induction false} LbasSize(ps: seq<Write>)
    requires DisjointPieces(ps)
    ensures |Lbas(ps)| == Total(ps)
  {
    if ps != [] {
      var k := |ps| - 1;
      LastApart(ps);
      LbasSize(ps[..k]);
      RangeSize(ps[k].lba, ps[k].Limit());
    }
  }

  lemma {:induction false} LastApart(ps: seq<Write>)
    requires DisjointPieces(ps) && ps != []
    ensures DisjointPieces(ps[..|ps| - 1])
    ensures Lbas(ps[..|ps| - 1]) !! Range(ps[|ps| - 1].lba, ps[|ps| - 1].Limit())
  {
    var k := |ps| - 1;
    var front := ps[..k];
    assert forall j :: 0 <= j < k ==> front[j] == ps[j];
    forall a | a in Lbas(front) ensures !ps[k].Covers(a) {
      LbasIn(front, a);
      var i :| 0 <= i < k && front[i].Covers(a);
      assert ps[i].Covers(a);
    }
  }

  ghost function EntryLbas(es: seq<GcEntry>): set<int> {
    if es == [] then {} else EntryLbas(es[..|es| - 1]) + Range(es[|es| - 1].lba, es[|es| - 1].lba + |es[|es| - 1].data|)
  }

  lemma {:induction false} EntryLbasIn(es: seq<GcEntry>, i: int, a: int)
    requires 0 <= i < |es| && es[i].Covers(a)
    ensures a in EntryLbas(es)
  {
    if i < |es| - 1 {
      EntryLbasIn(es[..|es| - 1], i, a);
    }
  }

  lemma {:induction false} EntryLbasSize(es: seq<GcEntry>)
    ensures |EntryLbas(es)| <= EntriesTotal(es)
  {
    if es != [] {
      hide Range;
      var k := |es| - 1;
      EntryLbasSize(es[..k]);
      RangeSize(es[k].lba, es[k].lba + |es[k].data|);
      UnionNoLarger(EntryLbas(es[..k]), Range(es[k].lba, es[k].lba + |es[k].data|));
    }
  }

  lemma {:induction false} UnionNoLarger(x: set<int>, y: set<int>)
    ensures |x + y| <= |x| + |y|
  {
    assert x + y == x + (y - x);
    SubsetSize(y - x, y);
  }

  lemma {:induction false} SubsetSize(x: set<int>, y: set<int>)
    requires x <= y
    ensures |x| <= |y|
  {
    assert y == x + (y - x);
  }

  /** Revalidation never makes a collected object larger than its request. */
  lemma {:induction false} RevalidatedSize(m: map<int, Ptr>, es: seq<GcEntry>, ps: seq<Write>)
    requires Revalidated(m, es, ps)
    ensures Total(ps) <= EntriesTotal(es)
  {
    LbasSize(ps);
    EntryLbasSize(es);
    forall a | a in Lbas(ps) ensures a in EntryLbas(es) {
      LbasIn(ps, a);
      var j :| 0 <= j < |ps| && ps[j].Covers(a);
      var i :| 0 <= i < |es| && Keeps(m, es[i], a);
      EntryLbasIn(es, i, a);
    }
    SubsetSize(Lbas(ps), EntryLbas(es));
  }

  lemma {:induction false} SmallBounded(cfg: Config, x: nat, y: nat)
    requires x <= y && (y <= cfg.max || Bounded(cfg, y))
    ensures Bounded(cfg, x)
  {
    if cfg.pc < 100 {
      var q := 100 - cfg.pc;
      Times(x, y, q);
      if y <= cfg.max {
        Times(y, cfg.max, q);
        Times(q, 100, cfg.max);
      }
    }
  }

  lemma {:induction false} Times(x: int, y: int, q: nat)
    requires x <= y
    ensures x * q <= y * q
  {
  }

  /** A request may overshoot a batch by one extent of a sparse object, which the threshold keeps short. */
  lemma {:induction false} PackedBounded(cfg: Config, front: nat, last: nat, i: Info)
    requires front < cfg.max && last <= i.live && Sparse(cfg, i) && 0 <= i.data && Bounded(cfg, i.data)
    ensures Bounded(cfg, front + last)
  {
    if cfg.pc < 100 {
      PackedArithmetic(front, last, i.data, cfg.max, cfg.pc, 100 - cfg.pc);
    }
  }

  lemma {:induction false} PackedArithmetic(front: nat, last: nat, data: nat, max: nat, p: nat, q: nat)
    requires p + q == 100 && front < max && 100 * last <= p * data && data * q <= 100 * max
    ensures (front + last) * q <= 100 * max
  {
    Times(100 * last, p * data, q);
    Times(data * q, 100 * max, p);
    Times(front, max, q);
    Regroup(p, data, q);
    Regroup(p, 100, max);
    Regroup(q, 100, last);
    Distribute(front, last, q);
    Distribute(p, q, max);
  }

  lemma {:induction false} Regroup(x: int, y: int, z: int)
    ensures x * y * z == y * z * x == y * (z * x)
  {
  }

  lemma {:induction false} Distribute(x: int, y: int, z: int)
    ensures (x + y) * z == x * z + y * z
  {
  }

  /** A run of sectors mapped to an object is no longer than the object's live count. */
  lemma {:induction false} RunWithinLive(m: map<int, Ptr>, e: GcEntry)
    requires forall a :: e.Covers(a) ==> a in m && m[a].ObjPtr? && m[a].obj == e.obj
    ensures |e.data| <= Count(m, e.obj)
  {
    RangeSize(e.lba, e.lba + |e.data|);
    forall a | a in Range(e.lba, e.lba + |e.data|) ensures a in Refs(m, e.obj) {
      assert e.Covers(a);
    }
    SubsetSize(Range(e.lba, e.lba + |e.data|), Refs(m, e.obj));
  }
}
