/** Volumes written in whole pages of 4 KB: everything the collector packs and writes is whole pages, and every header fits. */
module Pages {
  import opened Extents
  import opened Volume
  import opened Machine
  import opened Accounting
  import opened AccountingSteps
  import opened CopiedData
  import opened Revalidation
  import opened Encoding

  /** Sectors in a page. */
  const PAGE := 8

  ghost predicate SamePage(a: int, b: int) {
    a / PAGE == b / PAGE
  }

  /** The sectors of a page are mapped together, to consecutive places. */
  ghost predicate PageMap(m: map<int, Ptr>) {
    forall a, b :: a in m && SamePage(a, b) ==> b in m && m[b] == Adv(m[a], b - a)
  }

  predicate Whole(lba: int, len: int) {
    lba % PAGE == 0 && len % PAGE == 0 && 0 < len
  }

  ghost predicate WholeWrites(ws: seq<Write>) {
    forall j :: 0 <= j < |ws| ==> Whole(ws[j].lba, |ws[j].data|)
  }

  lemma {:induction false} SameSide(a: int, b: int, x: int)
    requires SamePage(a, b) && x % PAGE == 0
    ensures a < x <==> b < x
  {
  }

  lemma {:induction false} PageOverride(m: map<int, Ptr>, lba: int, len: int, p: Ptr)
    requires PageMap(m) && lba % PAGE == 0 && len % PAGE == 0
    ensures PageMap(Override(m, lba, lba + len, p))
  {
    var m' := Override(m, lba, lba + len, p);
    OverrideAt(m, lba, lba + len, p);
    hide SamePage, Override;
    forall a, b | a in m' && SamePage(a, b) ensures b in m' && m'[b] == Adv(m'[a], b - a) {
      SameSide(a, b, lba);
      SameSide(a, b, lba + len);
    }
  }

  lemma {:induction false} OverrideAt(m: map<int, Ptr>, base: int, limit: int, p: Ptr)
    ensures var m' := Override(m, base, limit, p);
            && (forall a :: a in m' <==> a in m || base <= a < limit)
            && (forall a :: a in m' ==> m'[a] == if base <= a < limit then Adv(p, a - base) else m[a])
  {
  }

  lemma {:induction false} PageRemove(m: map<int, Ptr>, base: int, limit: int)
    requires PageMap(m) && base % PAGE == 0 && limit % PAGE == 0
    ensures PageMap(Remove(m, base, limit))
  {
    var m' := Remove(m, base, limit);
    forall a, b | a in m' && SamePage(a, b) ensures b in m' && m'[b] == Adv(m'[a], b - a) {
      SameSide(a, b, base);
      SameSide(a, b, limit);
    }
  }

  lemma {:induction false} PagePieces(m: map<int, Ptr>, n: int, off: int, ps: seq<Write>)
    requires PageMap(m) && WholeWrites(ps)
    ensures PageMap(ApplyPieces(m, n, off, ps))
  {
    hide PageMap, Override;
    if ps != [] {
      var k := |ps| - 1;
      PagePieces(m, n, off, ps[..k]);
      assert Whole(ps[k].lba, |ps[k].data|);
      PageOverride(ApplyPieces(m, n, off, ps[..k]), ps[k].lba, |ps[k].data|, ObjPtr(n, off + Total(ps[..k])));
    }
  }

  lemma {:induction false} PageReplay(backend: map<int, Rec>, m: map<int, Ptr>, from: int, k: int)
    requires from <= k && PageMap(m)
    requires forall n :: from <= n < k ==> n in backend && backend[n].DataRec? && WholeWrites(backend[n].obj.pieces)
    ensures PageMap(Replay(backend, m, from, k))
    decreases k - from
  {
    hide PageMap, ApplyPieces, WholeWrites;
    if from < k {
      PageReplay(backend, m, from, k - 1);
      PagePieces(Replay(backend, m, from, k - 1), k - 1, backend[k - 1].obj.hdr, backend[k - 1].obj.pieces);
    }
  }

  // ---- runs that cannot be longer ----

  lemma {:induction false} PageJoined(m: map<int, Ptr>, a: int)
    requires PageMap(m) && (a + 1) % PAGE != 0 && (a in m || a + 1 in m)
    ensures Joined(m, a)
  {
    assert SamePage(a, a + 1) && SamePage(a + 1, a);
  }

  lemma {:induction false} EdgesWhole(m: map<int, Ptr>, lo: int, hi: int)
    requires PageMap(m) && lo < hi && lo in m && hi - 1 in m && Edges(m, lo, hi)
    ensures Whole(lo, hi - lo)
  {
    hide PageMap, Joined;
    if lo % PAGE != 0 {
      PageJoined(m, lo - 1);
    }
    if hi % PAGE != 0 {
      PageJoined(m, hi - 1);
    }
  }

  // ---- what is left of an entry ----

  lemma {:induction false} PieceWhole(m: map<int, Ptr>, e: GcEntry, p: Write)
    requires PageMap(m) && Whole(e.lba, |e.data|) && WholePiece(m, e, p)
    ensures Whole(p.lba, |p.data|)
  {
    hide PageMap, Joined;
    assert Keeps(m, e, p.lba) && Keeps(m, e, p.Limit() - 1) by { assert p.Covers(p.lba) && p.Covers(p.Limit() - 1); }
    if p.lba % PAGE != 0 {
      PageJoined(m, p.lba - 1);
    }
    if p.Limit() % PAGE != 0 {
      PageJoined(m, p.Limit() - 1);
    }
  }

  /** Two pieces of one entry have a page between them that the entry does not keep. */
  lemma {:induction false} PageBetween(m: map<int, Ptr>, e: GcEntry, p: Write, q: Write)
    requires PageMap(m) && Whole(e.lba, |e.data|) && StillThere(m, e) && WholePiece(m, e, p) && WholePiece(m, e, q) && p.Limit() <= q.lba
    ensures p.Limit() + PAGE <= q.lba
  {
    PieceWhole(m, e, p);
    PieceWhole(m, e, q);
    KeptJoined(m, e, q.lba - 1);
    hide PageMap, Joined, StillThere, Keeps;
    assert q.Covers(q.lba) && p.Covers(p.Limit() - 1);
  }

  lemma {:induction false} KeptJoined(m: map<int, Ptr>, e: GcEntry, a: int)
    requires StillThere(m, e)
    ensures Keeps(m, e, a) && Keeps(m, e, a + 1) ==> Joined(m, a)
  {
  }

  /** An entry of `n` pages leaves at most half of them, rounded up, as pieces. */
  lemma {:induction false} PartCount(m: map<int, Ptr>, e: GcEntry, part: seq<Write>)
    requires PageMap(m) && Whole(e.lba, |e.data|) && StillThere(m, e) && WholePart(m, e, part)
    ensures WholeWrites(part) && 2 * PAGE * |part| <= |e.data| + PAGE && PAGE * |part| <= |e.data|
    ensures part != [] ==> 2 * PAGE * |part| - PAGE <= part[|part| - 1].Limit() - e.lba
  {
    hide PageMap, StillThere, WholePiece;
    if part != [] {
      var k := |part| - 1;
      assert WholePart(m, e, part[..k]);
      PartCount(m, e, part[..k]);
      PieceWhole(m, e, part[k]);
      PieceWithin(m, e, part[k]);
      assert forall j :: 0 <= j < k ==> part[..k][j] == part[j];
      if k > 0 {
        PageBetween(m, e, part[k - 1], part[k]);
      }
    }
  }

  lemma {:induction false} PieceWithin(m: map<int, Ptr>, e: GcEntry, p: Write)
    requires WholePiece(m, e, p)
    ensures e.lba <= p.lba && p.Limit() <= e.lba + |e.data|
  {
    hide Joined, Keeps;
  }

  /** Entries whole, in order, and still where they were. */
  ghost predicate Sound(m: map<int, Ptr>, es: seq<GcEntry>) {
    forall i :: 0 <= i < |es| ==> Whole(es[i].lba, |es[i].data|) && StillThere(m, es[i])
  }

  lemma {:induction false} JointCount(m: map<int, Ptr>, es: seq<GcEntry>, parts: seq<seq<Write>>)
    requires PageMap(m) && Sound(m, es) && WholeParts(m, es, parts)
    ensures WholeWrites(Joint(parts)) && PAGE * |Joint(parts)| <= EntriesTotal(es)
    ensures es != [] ==> 2 * PAGE * |Joint(parts)| <= 2 * EntriesTotal(es[..|es| - 1]) + |es[|es| - 1].data| + PAGE
  {
    hide PageMap, StillThere, WholePart, WholeWrites;
    if es != [] {
      var k := |es| - 1;
      assert Sound(m, es[..k]) && WholeParts(m, es[..k], parts[..k]);
      JointCount(m, es[..k], parts[..k]);
      PartCount(m, es[k], parts[k]);
      WholeConcat(Joint(parts[..k]), parts[k]);
    } else {
      WholeNone();
    }
  }

  lemma {:induction false} WholeConcat(x: seq<Write>, y: seq<Write>)
    requires WholeWrites(x) && WholeWrites(y)
    ensures WholeWrites(x + y)
  {
  }

  lemma {:induction false} WholeNone()
    ensures WholeWrites([])
  {
  }

  // ---- room ----

  /** The longest extent the collector can add to a request that is almost full. */
  function Longest(cfg: Config): int
    requires cfg.pc < 100
  {
    cfg.pc * cfg.max / (100 - cfg.pc)
  }

  /** The header of as many pieces as a request can come to fits in front of a collected object; batches are of 2 MB and more. */
  predicate Roomy(cfg: Config) {
    && cfg.pc < 100 && 4096 <= cfg.max
    && 72 + 8 * ((2 * cfg.max + Longest(cfg) + 6) / 16) <= GcRoom(512 * cfg.max) / 8 * 4096
  }

  /** The default of 8 MB is roomy exactly up to a threshold of 66 percent, so at the default of 60. */
  lemma {:induction false} DefaultRoomy(cfg: Config)
    requires cfg.max == 16384
    ensures Roomy(cfg) <==> cfg.pc <= 66
  {
    if cfg.pc < 100 {
      var y, q := cfg.pc * cfg.max, 100 - cfg.pc;
      assert cfg.pc <= 66 ==> Longest(cfg) <= 31804 by {
        SmallQuotient(y, q);
      }
      assert 66 < cfg.pc ==> 33264 <= Longest(cfg) by {
        LargeQuotient(y, q);
      }
      hide Longest;
      assert GcRoom(512 * cfg.max) == 65;
    }
  }

  lemma {:induction false} SmallQuotient(y: nat, q: nat)
    requires 0 < q
    ensures 34 <= q && y <= 66 * 16384 ==> y / q <= 31804
  {
    var l := y / q;
    assert y == l * q + y % q;
    if 34 <= q && 31804 < l {
      Times(34, q, l);
    }
  }

  lemma {:induction false} LargeQuotient(y: nat, q: nat)
    requires 0 < q
    ensures q <= 33 && 67 * 16384 <= y ==> 33264 <= y / q
  {
    var l := y / q;
    assert y == l * q + y % q;
    assert l * q + q == (l + 1) * q;
    if q <= 33 {
      Times(q, 33, l + 1);
    }
  }

  ghost predicate Fits(cfg: Config, o: DataObj) {
    if o.isGc then HdrSectors(|o.pieces|) <= GcRoom(512 * cfg.max) else 512 * HdrSectors(|o.pieces|) <= BatchRoom(512 * cfg.max)
  }

  /** A request as the collector packs it: full before its last entry, and that one is short. */
  ghost predicate Packed(cfg: Config, es: seq<GcEntry>) {
    && cfg.pc < 100 && es != [] && EntriesTotal(es[..|es| - 1]) < cfg.max
    && |es[|es| - 1].data| <= Longest(cfg)
    && (forall e :: e in es ==> Whole(e.lba, |e.data|))
  }

  lemma {:induction false} PackedFits(cfg: Config, m: map<int, Ptr>, es: seq<GcEntry>, parts: seq<seq<Write>>)
    requires Roomy(cfg) && PageMap(m) && Packed(cfg, es) && (forall e :: e in es ==> StillThere(m, e)) && WholeParts(m, es, parts)
    ensures WholeWrites(Joint(parts)) && HdrSectors(|Joint(parts)|) <= GcRoom(512 * cfg.max)
  {
    hide PageMap, StillThere, WholeParts, WholeWrites, GcRoom, HdrSectors;
    JointCount(m, es, parts);
    var n := |Joint(parts)|;
    assert 16 * n <= 2 * cfg.max + Longest(cfg) + 6;
    assert n <= (2 * cfg.max + Longest(cfg) + 6) / 16;
    GcHeaderPages(n, 512 * cfg.max);
  }

  lemma {:induction false} BatchFits(cfg: Config, ws: seq<Write>)
    requires 4096 <= cfg.max && WholeWrites(ws) && Total(ws) <= cfg.max
    ensures 512 * HdrSectors(|ws|) <= BatchRoom(512 * cfg.max)
  {
    hide HdrSectors, BatchRoom, Total;
    assert forall j :: 0 <= j < |ws| ==> Whole(ws[j].lba, |ws[j].data|);
    PagesAlwaysFit(ws, 512 * cfg.max);
  }

  // ---- the volume ----

  ghost predicate PagedRec(cfg: Config, r: Rec) {
    match r
    case DataRec(o) => WholeWrites(o.pieces) && Fits(cfg, o)
    case CkptRec(m, _) => PageMap(m)
  }

  ghost predicate PagedReq(cfg: Config, r: Req) {
    match r
    case PutReq(b) => WholeWrites(b.writes)
    case GcReq(es) => Packed(cfg, es)
    case _ => true
  }

  ghost predicate PagedLog(cfg: Config, log: seq<Rec>) {
    forall n :: 0 <= n < |log| ==> PagedRec(cfg, log[n])
  }

  ghost predicate PagedQueue(cfg: Config, q: seq<Req>) {
    forall i :: 0 <= i < |q| ==> PagedReq(cfg, q[i])
  }

  ghost predicate PagedTodo(cfg: Config, todo: seq<seq<GcEntry>>) {
    forall i :: 0 <= i < |todo| ==> Packed(cfg, todo[i])
  }

  ghost predicate Paged(cfg: Config, s: State) {
    && PageMap(s.objmap) && PagedLog(cfg, s.log) && WholeWrites(s.current.writes) && PagedQueue(cfg, s.queue) && PagedTodo(cfg, Todo(s.gc))
  }

  /** Clients write and trim whole pages; the collector takes the extents of the map as they are, at the snapshot and again
      when a request is processed. */
  ghost predicate PageStep(cfg: Config, s: State, step: Step) {
    && Clean(cfg, s, step)
    && match step
       case Append(w, _) => Whole(w.lba, |w.data|)
       case Trim(base, limit) => base % PAGE == 0 && limit % PAGE == 0
       case GcStart(_, todo) => forall i, e :: 0 <= i < |todo| && e in todo[i] ==> Edges(s.objmap, e.lba, e.lba + |e.data|)
       case WorkGc(ps) => s.queue != [] && s.queue[0].GcReq? && exists parts :: WholeParts(s.objmap, s.queue[0].entries, parts) && ps == Joint(parts)
       case _ => true
  }

  // ---- the steps ----

  lemma {:induction false} PagedMore(cfg: Config, log: seq<Rec>, r: Rec)
    requires PagedLog(cfg, log) && PagedRec(cfg, r)
    ensures PagedLog(cfg, log + [r])
  {
    hide PagedRec;
  }

  lemma {:induction false} QueuedMore(cfg: Config, q: seq<Req>, r: Req)
    requires PagedQueue(cfg, q) && PagedReq(cfg, r)
    ensures PagedQueue(cfg, q + [r])
  {
    hide PagedReq;
  }

  lemma {:induction false} AppendPaged(cfg: Config, s: State, w: Write, addr: int)
    requires Paged(cfg, s) && Whole(w.lba, |w.data|)
    ensures Paged(cfg, DoAppend(cfg, s, w, addr))
  {
    hide PageMap, PagedLog, PagedQueue, PagedTodo, BufferWrite, Total;
    QueuedMore(cfg, s.queue, PutReq(s.current));
  }

  lemma {:induction false} EnqueuePaged(cfg: Config, s: State, addr: int, r: Req)
    requires Paged(cfg, s) && (r.FlushReq? || r.CkptReq?)
    ensures Paged(cfg, DoEnqueue(s, addr, r))
  {
    hide PageMap, PagedLog, PagedQueue, PagedTodo;
    QueuedMore(cfg, s.queue, PutReq(s.current));
    QueuedMore(cfg, if s.current.writes != [] then s.queue + [PutReq(s.current)] else s.queue, r);
  }

  lemma {:induction false} IssuePaged(cfg: Config, s: State, o: DataObj, put: Put)
    requires Paged(cfg, s) && s.queue != [] && WholeWrites(o.pieces) && Fits(cfg, o)
    ensures Paged(cfg, Issue(s, o, put))
  {
    hide PageMap, PagedLog, PagedTodo, WholeWrites, Fits, ApplyPieces, AddObject;
    PagePieces(s.objmap, |s.log|, o.hdr, o.pieces);
    PagedMore(cfg, s.log, DataRec(o));
  }

  lemma {:induction false} PutPaged(cfg: Config, s: State)
    requires Roomy(cfg) && Accounted(cfg, s) && Paged(cfg, s) && s.queue != [] && s.queue[0].PutReq?
    ensures Paged(cfg, DoPut(s))
  {
    var b := s.queue[0].batch;
    assert PagedReq(cfg, s.queue[0]) && ReqOk(cfg, s.log, s.objmap, s.queue[0]);
    hide Accounted, Paged, Issue, Roomy;
    assert 4096 <= cfg.max by { RoomySize(cfg); }
    BatchFits(cfg, b.writes);
    IssuePaged(cfg, s, DataObj(HdrSectors(|b.writes|), b.writes, false), BatchPut(b.addr));
  }

  lemma {:induction false} RoomySize(cfg: Config)
    requires Roomy(cfg)
    ensures 4096 <= cfg.max
  {
  }

  lemma {:induction false} GcPaged(cfg: Config, s: State, ps: seq<Write>)
    requires Roomy(cfg) && Accounted(cfg, s) && Paged(cfg, s) && GcReady(s, ps) && PageStep(cfg, s, WorkGc(ps))
    ensures Paged(cfg, DoGc(s, ps))
  {
    var es := s.queue[0].entries;
    HeadStill(cfg, s);
    assert PagedReq(cfg, s.queue[0]);
    var parts :| WholeParts(s.objmap, es, parts) && ps == Joint(parts);
    assert PageMap(s.objmap);
    hide Accounted, Paged, Issue, Roomy, PageMap, WholeParts, Packed, StillThere, Revalidated, Clean;
    PackedFits(cfg, s.objmap, es, parts);
    IssuePaged(cfg, s, DataObj(HdrSectors(|ps|), ps, true), GcPut);
  }

  lemma {:induction false} HeadStill(cfg: Config, s: State)
    requires Accounted(cfg, s) && s.queue != [] && s.queue[0].GcReq?
    ensures forall e :: e in s.queue[0].entries ==> StillThere(s.objmap, e)
  {
    hide LogOk, Exact, StoreOk, GcOk, StillThere;
    assert ReqOk(cfg, s.log, s.objmap, s.queue[0]);
    forall e | e in s.queue[0].entries ensures StillThere(s.objmap, e) {
      assert EntryOk(s.log, s.objmap, e);
    }
  }

  lemma {:induction false} CkptPaged(cfg: Config, s: State)
    requires Paged(cfg, s) && s.queue != []
    ensures Paged(cfg, DoCkpt(s))
  {
    hide PageMap, PagedLog, PagedTodo, WholeWrites;
    PagedMore(cfg, s.log, CkptRec(s.objmap, s.info));
  }

  lemma {:induction false} TrimPaged(cfg: Config, s: State, base: int, limit: int)
    requires Paged(cfg, s) && base % PAGE == 0 && limit % PAGE == 0
    ensures Paged(cfg, DoTrim(s, base, limit))
  {
    hide PageMap, PagedLog, PagedQueue, PagedTodo, WholeWrites, Settle, Remove;
    PageRemove(s.objmap, base, limit);
  }

  /** What the collector picks from a paged map is whole pages, and its last extent is short. */
  lemma {:induction false} PickPacked(cfg: Config, s: State, objs: set<int>, todo: seq<seq<GcEntry>>, i: int)
    requires Accounted(cfg, s) && PageMap(s.objmap) && cfg.pc < 100 && Snapshot(cfg, s, objs, todo) && 0 <= i < |todo|
    requires forall e :: e in todo[i] ==> Edges(s.objmap, e.lba, e.lba + |e.data|)
    ensures Packed(cfg, todo[i])
  {
    hide Accounted, Sparse, CoveredBy, ReadFrom, Edges, DisjointEntries, PageMap, Picked, Whole, Choice, Longest, EntriesTotal;
    var es := todo[i];
    forall e | e in es ensures Whole(e.lba, |e.data|) {
      assert Picked(s, objs, e);
      PickedWhole(s, objs, e);
    }
    var last := es[|es| - 1];
    assert last in todo[i] && Picked(s, objs, last);
    PickedShort(cfg, s, objs, last);
  }

  lemma {:induction false} PickedWhole(s: State, objs: set<int>, e: GcEntry)
    requires PageMap(s.objmap) && Picked(s, objs, e) && Edges(s.objmap, e.lba, e.lba + |e.data|)
    ensures Whole(e.lba, |e.data|)
  {
    hide ReadFrom, PageMap;
    assert e.Covers(e.lba) && e.Covers(e.lba + |e.data| - 1);
    EdgesWhole(s.objmap, e.lba, e.lba + |e.data|);
  }

  lemma {:induction false} PickedShort(cfg: Config, s: State, objs: set<int>, e: GcEntry)
    requires Accounted(cfg, s) && Choice(cfg, s, objs) && Picked(s, objs, e) && cfg.pc < 100
    ensures |e.data| <= Longest(cfg)
  {
    hide LogOk, StoreOk, QueueOk, GcOk, Exact, ReadFrom;
    TrackedSize(cfg, s, e.obj);
    RunWithinLive(s.objmap, e);
    ShortArithmetic(|e.data|, s.info[e.obj].data, cfg.max, cfg.pc, 100 - cfg.pc);
    QuotientBound(|e.data|, cfg.pc * cfg.max, 100 - cfg.pc);
  }

  lemma {:induction false} ShortArithmetic(n: nat, data: nat, max: nat, p: nat, q: nat)
    requires 100 * n <= p * data && data * q <= 100 * max
    ensures n * q <= p * max
  {
    Times(100 * n, p * data, q);
    Times(data * q, 100 * max, p);
    Regroup(p, data, q);
    Regroup(p, 100, max);
    Regroup(q, 100, n);
  }

  lemma {:induction false} StartPaged(cfg: Config, s: State, objs: set<int>, todo: seq<seq<GcEntry>>)
    requires Roomy(cfg) && Accounted(cfg, s) && Paged(cfg, s) && Snapshot(cfg, s, objs, todo) && PageStep(cfg, s, GcStart(objs, todo))
    ensures Paged(cfg, s.(gc := Copying(objs, todo)))
  {
    hide Accounted, Snapshot, Packed, Edges, PageMap, PagedLog, PagedQueue, WholeWrites;
    forall i | 0 <= i < |todo| ensures Packed(cfg, todo[i]) {
      PickPacked(cfg, s, objs, todo, i);
    }
  }

  lemma {:induction false} CrashPaged(cfg: Config, s: State)
    requires Accounted(cfg, s) && Paged(cfg, s) && (s.checkpoints != [] ==> HasCkpt(s))
    ensures Paged(cfg, DoCrash(cfg, s))
  {
    RecoverPointInLog(cfg, s);
    CrashPageMap(cfg, s);
    hide Accounted, RecoveredMap, RecoveredInfo, LogWrites, PagedRec, PageMap, RecoverPoint;
    assert WholeWrites([]) by { WholeNone(); }
  }

  lemma {:induction false} CrashPageMap(cfg: Config, s: State)
    requires Accounted(cfg, s) && Paged(cfg, s) && (s.checkpoints != [] ==> HasCkpt(s))
    ensures PageMap(RecoveredMap(s))
  {
    hide LogOk, Exact, QueueOk, GcOk, PageMap, WholeWrites, Fits, Replay;
    if s.checkpoints == [] {
      NoPages();
    } else {
      var c, k := LastCkpt(s), RecoverPoint(s);
      assert s.backend[c] == s.log[c] && PagedRec(cfg, s.log[c]);
      forall n | c < n < k ensures n in s.backend && s.backend[n].DataRec? && WholeWrites(s.backend[n].obj.pieces) {
        assert s.backend[n] == s.log[n] && PagedRec(cfg, s.log[n]);
      }
      PageReplay(s.backend, s.backend[c].omap, c + 1, k);
    }
  }

  lemma {:induction false} NoPages()
    ensures PageMap(map[])
  {
  }

  lemma {:induction false} SamePaged(cfg: Config, s: State, t: State)
    requires Paged(cfg, s) && t.objmap == s.objmap && t.log == s.log && t.current == s.current
    requires t.queue == s.queue || (s.queue != [] && t.queue == s.queue[1..])
    requires Todo(t.gc) == Todo(s.gc) || Todo(t.gc) == []
    ensures Paged(cfg, t)
  {
    hide PageMap, PagedLog, PagedReq, Packed, WholeWrites;
  }

  lemma {:induction false} SubmitPaged(cfg: Config, s: State)
    requires Paged(cfg, s) && s.gc.Copying? && s.gc.todo != []
    ensures Paged(cfg, s.(gc := Copying(s.gc.objs, s.gc.todo[1..]), queue := s.queue + [GcReq(s.gc.todo[0])]))
  {
    hide PageMap, PagedLog, WholeWrites, Packed;
    QueuedMore(cfg, s.queue, GcReq(s.gc.todo[0]));
  }

  lemma {:induction false} StepPaged(cfg: Config, s: State, step: Step)
    requires Roomy(cfg) && Accounted(cfg, s) && Paged(cfg, s) && Enabled(cfg, s, step) && PageStep(cfg, s, step)
    ensures Paged(cfg, Do(cfg, s, step))
  {
    hide Accounted, Paged, Roomy, DoAppend, DoEnqueue, DoPut, DoGc, DoCkpt, DoTrim, DoCrash, Snapshot, Fresh, Revalidated, Edges, WholeParts, Drop,
      NoGcPending, HasCkpt, Clean;
    match step
    case Append(w, addr) => AppendPaged(cfg, s, w, addr);
    case Flush(addr) => EnqueuePaged(cfg, s, addr, FlushReq(|s.history|));
    case Checkpoint(addr) => EnqueuePaged(cfg, s, addr, CkptReq);
    case WorkPut => PutPaged(cfg, s);
    case WorkGc(ps) => GcPaged(cfg, s, ps);
    case WorkCkpt => CkptPaged(cfg, s);
    case GcStart(objs, todo) => StartPaged(cfg, s, objs, todo);
    case GcSubmit => SubmitPaged(cfg, s);
    case Trim(base, limit) => TrimPaged(cfg, s, base, limit);
    case Crash => CrashPaged(cfg, s);
    case _ => SamePaged(cfg, s, Do(cfg, s, step));
  }

  ghost predicate PageRun(cfg: Config, s: State, steps: seq<Step>)
    decreases |steps|
  {
    steps != [] && Enabled(cfg, s, steps[0]) ==> PageStep(cfg, s, steps[0]) && PageRun(cfg, Do(cfg, s, steps[0]), steps[1..])
  }

  lemma {:induction false} RunPaged(cfg: Config, s: State, steps: seq<Step>, t: State)
    requires Roomy(cfg) && Accounted(cfg, s) && Paged(cfg, s) && Run(cfg, s, steps, t) && PageRun(cfg, s, steps)
    ensures Accounted(cfg, t) && Paged(cfg, t)
    decreases |steps|
  {
    hide Accounted, Paged, Roomy, Enabled, Do;
    if steps != [] {
      StepPaged(cfg, s, steps[0]);
      StepAccounted(cfg, s, steps[0]);
      RunPaged(cfg, Do(cfg, s, steps[0]), steps[1..], t);
    }
  }

  lemma {:induction false} InitPaged(cfg: Config, addr: int)
    ensures Paged(cfg, Init(addr))
  {
  }

  /** Over every run on whole pages every object, batch or collected, is whole pages, and its header fits in the room that
      is kept for it. */
  lemma {:induction false} HeadersFit(cfg: Config, addr: int, steps: seq<Step>, t: State, n: int)
    requires Roomy(cfg) && Run(cfg, Init(addr), steps, t) && PageRun(cfg, Init(addr), steps) && 0 <= n < |t.log| && t.log[n].DataRec?
    ensures var o := t.log[n].obj;
            && WholeWrites(o.pieces)
            && (if o.isGc then HdrSectors(|o.pieces|) <= GcRoom(512 * cfg.max) else 512 * HdrSectors(|o.pieces|) <= BatchRoom(512 * cfg.max))
  {
    hide Accounted, Roomy, Run, PageRun, WholeWrites, HdrSectors, GcRoom, BatchRoom, PageMap;
    InitAccounted(cfg, addr);
    InitPaged(cfg, addr);
    RunPaged(cfg, Init(addr), steps, t);
    assert PagedRec(cfg, t.log[n]);
  }
}
