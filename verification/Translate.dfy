/** The translation layer: batches, the two maps, the object table, and the objects in the backend. */
module Translate {
  import opened Extents
  import opened Carving
  import opened ExtentMap
  import opened Volume
  import opened Machine
  import opened Accounting
  import opened AccountingSteps
  import opened ReadCoherence
  import opened ReadSteps
  import opened Revalidation
  import opened Retirement
  import opened LiveCounts

  /** An object as it lies in the backend; a checkpoint lists the extents of the map and the object table. */
  datatype Stored = DataOf(obj: DataObj) | CkptOf(entries: seq<Extent>, table: map<int, Info>)

  ghost function AsRec(o: Stored): Rec {
    match o
    case DataOf(obj) => DataRec(obj)
    case CkptOf(entries, table) => CkptRec(Model(entries), table)
  }

  ghost function AsRecs(m: map<int, Stored>): map<int, Rec> {
    map n | n in m :: AsRec(m[n])
  }

  /** Entering the pieces of an object in a map, one after the other. */
  method EnterPieces(omap: ExtMap, n: int, off: int, ps: seq<Write>) returns (del: seq<Extent>)
    requires omap.Valid() && forall j :: 0 <= j < |ps| ==> 0 < |ps[j].data|
    modifies omap
    ensures omap.Valid() && (old(Canonical(omap.Contents())) ==> Canonical(omap.Contents()))
    ensures omap.View() == ApplyPieces(old(omap.View()), n, off, ps)
    ensures Displaced(del, old(omap.View()), omap.View(), n, Total(ps)) && Ousted(del, old(omap.View()), ps, n)
  {
    hide Flat, Model, Displaced, Override, Canonical, Sorted, Ousted;
    ghost var m := omap.View();
    del := [];
    var offset := off;
    DisplacedNothing(m, n);
    OustedNothing(m, n);
    assert ps[..0] == [];
    for j := 0 to |ps|
      invariant omap.Valid() && (old(Canonical(omap.Contents())) ==> Canonical(omap.Contents()))
      invariant omap.View() == ApplyPieces(m, n, off, ps[..j])
      invariant offset == off + Total(ps[..j]) && Displaced(del, m, omap.View(), n, Total(ps[..j]))
      invariant Ousted(del, m, ps[..j], n)
    {
      assert ps[..j + 1][..j] == ps[..j];
      ghost var m1 := omap.View();
      var d := omap.Update(ps[j].lba, ps[j].Limit(), ObjPtr(n, offset));
      DisplacedMore(del, d, m, m1, ps[j].lba, ps[j].Limit(), n, offset, Total(ps[..j]));
      OustedMore(del, d, m, n, off, ps, j);
      del := del + d;
      offset := offset + |ps[j].data|;
    }
    assert ps[..|ps|] == ps;
  }

  /** A batch: the object is entered with all its sectors live, then everything displaced is taken off. */
  method EnterBatch(omap: ExtMap, info: map<int, Info>, n: int, o: DataObj) returns (r: map<int, Info>)
    requires omap.Valid() && forall j :: 0 <= j < |o.pieces| ==> 0 < |o.pieces[j].data|
    requires n !in info && Unreferenced(omap.View(), n) && forall k :: k in info ==> info[k].live == Count(omap.View(), k)
    modifies omap
    ensures omap.Valid() && (old(Canonical(omap.Contents())) ==> Canonical(omap.Contents()))
    ensures omap.View() == ApplyPieces(old(omap.View()), n, o.hdr, o.pieces)
    ensures r == AddObject(info, old(omap.View()), omap.View(), n, o)
  {
    hide Flat, Model, Sorted, Canonical, ApplyPieces, Layout, Count, AddObject, Total, Displaced, Ousted;
    ghost var m := omap.View();
    var data := Total(o.pieces);
    r := info[n := Info(o.hdr, data, data)];
    var del := EnterPieces(omap, n, o.hdr, o.pieces);
    EnteredCounts(info, del, m, omap.View(), n, o);
    r := Deduct(r, del);
    DeductedAfterEntry(info, del, m, omap.View(), n, o);
  }

  /** A collected object: everything displaced is taken off first, then the object is entered with all its sectors live. */
  method EnterKept(omap: ExtMap, info: map<int, Info>, n: int, o: DataObj) returns (r: map<int, Info>)
    requires omap.Valid() && DisjointPieces(o.pieces) && forall j :: 0 <= j < |o.pieces| ==> 0 < |o.pieces[j].data|
    requires n !in info && Unreferenced(omap.View(), n) && forall k :: k in info ==> info[k].live == Count(omap.View(), k)
    modifies omap
    ensures omap.Valid() && (old(Canonical(omap.Contents())) ==> Canonical(omap.Contents()))
    ensures omap.View() == ApplyPieces(old(omap.View()), n, o.hdr, o.pieces)
    ensures r == AddObject(info, old(omap.View()), omap.View(), n, o)
  {
    hide Flat, Model, Sorted, Canonical, ApplyPieces, Layout, Count, AddObject, Total, Displaced, Ousted, DisjointPieces;
    ghost var m := omap.View();
    var data := Total(o.pieces);
    var del := EnterPieces(omap, n, o.hdr, o.pieces);
    DeductedCounts(info, del, m, omap.View(), n);
    r := Deduct(info, del);
    DisjointNothingLost(del, m, n, o.hdr, o.pieces);
    DeductedBeforeEntry(info, del, m, omap.View(), n, o);
    r := r[n := Info(o.hdr, data, data)];
  }

  /** The last three checkpoints are kept. */
  method KeepThree(cs: seq<int>) returns (kept: seq<int>, dropped: seq<int>)
    ensures var k := if |cs| < 3 then 0 else |cs| - 3; dropped == cs[..k] && kept == cs[k..]
    ensures kept == Keep(cs) && cs == dropped + kept
  {
    kept, dropped := cs, [];
    while |kept| > 3
      invariant cs == dropped + kept && (dropped != [] ==> |kept| >= 3)
    {
      dropped, kept := dropped + [kept[0]], kept[1..];
    }
    assert cs[..|dropped|] == dropped && cs[|dropped|..] == kept;
  }

  method DeleteAll(m: map<int, Stored>, ns: seq<int>) returns (r: map<int, Stored>)
    ensures r == m - (set n | n in ns)
  {
    r := m;
    for i := 0 to |ns|
      invariant r == m - (set n | n in ns[..i])
    {
      ghost var front, more := ns[..i], ns[..i + 1];
      assert (set n | n in more) == (set n | n in front) + {ns[i]};
      r := r - {ns[i]};
    }
    assert ns[..|ns|] == ns;
  }

  class TranslationLayer {
    const cfg: Config
    const objmap: ExtMap
    const bufmap: ExtMap
    var current: Batch
    var queue: seq<Req>
    var info: map<int, Info>
    var next: int
    var checkpoints: seq<int>
    var stored: map<int, Stored>
    var inflight: map<int, Put>
    var publishing: bool
    ghost var history: seq<Write>
    ghost var flushed: nat
    ghost var log: seq<Rec>
    ghost var gc: Gc

    /** The machine state this object stands for. */
    ghost function View(): State
      reads this, objmap, bufmap
    {
      State(history, flushed, log, current, queue, objmap.View(), bufmap.View(), info, AsRecs(stored), inflight,
            checkpoints, publishing, gc)
    }

    ghost predicate Valid()
      reads this, objmap, bufmap
    {
      && objmap != bufmap && objmap.Valid() && bufmap.Valid() && next == |log|
      && Accounted(cfg, View()) && Tracked(cfg, View())
      && Increasing(checkpoints, if publishing then |log| - 1 else |log|)
    }

    constructor (cfg: Config, load: int, addr: int)
      requires 2 <= load
      ensures Valid() && View() == Init(addr) && this.cfg == cfg && fresh(objmap) && fresh(bufmap)
      ensures Canonical(objmap.Contents())
    {
      this.cfg := cfg;
      objmap := new ExtMap(load);
      bufmap := new ExtMap(load);
      current := Batch(addr, []);
      queue := [];
      info := map[];
      next := 1;
      checkpoints := [];
      stored := map[];
      inflight := map[];
      publishing := false;
      history := [];
      flushed := 0;
      log := [CkptRec(map[], map[])];
      gc := Idle;
      new;
      InitAccounted(cfg, addr);
      InitTracked(cfg, addr);
    }

    /** The layer of an image that has been recovered: everything not in the backend starts afresh. It is in order exactly
        when recovery has left nothing past the number it goes on with. */
    constructor Reopen(cfg: Config, load: int, addr: int, recovered: ExtMap, info: map<int, Info>, next: int, checkpoints: seq<int>,
                       stored: map<int, Stored>, ghost s: State)
      requires 2 <= load && Accounted(cfg, s) && (s.checkpoints != [] ==> HasCkpt(s))
      requires Increasing(s.checkpoints, |s.log|) && checkpoints == s.checkpoints && next == RecoverPoint(s)
      requires recovered.Valid() && recovered.View() == RecoveredMap(s) && info == RecoveredInfo(s) && AsRecs(stored) == Swept(cfg, s)
      ensures View() == Restart(cfg, s, addr) && (Valid() <==> CleanTail(cfg, s))
      ensures this.cfg == cfg && objmap == recovered && fresh(bufmap)
    {
      hide Accounted, Tracked, RecoveredMap, RecoveredInfo, RecoverPoint, LogWrites, AsRecs, Swept, CleanTail, HasCkpt, Flat, Layout, Next, Sorted, Increasing;
      this.cfg := cfg;
      objmap := recovered;
      bufmap := new ExtMap(load);
      current := Batch(addr, []);
      queue := [];
      this.info := info;
      this.next := next;
      this.checkpoints := checkpoints;
      this.stored := stored;
      inflight := map[];
      publishing := false;
      ghost var kept := DoCrash(cfg, s);
      log, history, flushed := kept.log, kept.history, s.flushed;
      gc := Idle;
      new;
      CrashKeeps(cfg, s, addr);
    }

    /** A client write goes into the current batch and the buffer map; a full batch goes on the queue first. */
    method Writev(w: Write, addr: int)
      requires Valid() && 0 < |w.data| <= cfg.max && Fresh(cfg, View(), addr)
      modifies this, bufmap
      ensures Valid() && Next(cfg, old(View()), Append(w, addr), View())
      ensures objmap.Contents() == old(objmap.Contents())
      ensures if old(Total(current.writes)) + |w.data| <= cfg.max
              then queue == old(queue) && current == Batch(old(current.addr), old(current.writes) + [w])
              else queue == old(queue) + [PutReq(old(current))] && current == Batch(addr, [w])
    {
      hide Flat, Model, Accounted, Tracked, Sorted, Fresh, Override, Layout, Next;
      AppendKeeps(cfg, View(), w, addr);
      if Total(current.writes) + |w.data| > cfg.max {
        queue := queue + [PutReq(current)];
        current := Batch(addr, []);
      }
      var ptr := current.addr + 512 * Total(current.writes);
      assert current.addr <= ptr && ptr + 512 * |w.data| <= current.addr + 512 * cfg.max;
      history := history + [w];
      current := current.(writes := current.writes + [w]);
      var _ := bufmap.Update(w.lba, w.Limit(), BufPtr(ptr));
    }

    /** A range is dropped from the object map, and from the counts of the objects it was in. */
    method Trim(base: int, limit: int)
      requires Valid() && base <= limit
      modifies this, objmap
      ensures Valid() && Next(cfg, old(View()), Step.Trim(base, limit), View())
      ensures old(Canonical(objmap.Contents())) ==>
                (Canonical(objmap.Contents()) <==> base < limit || !Inside(old(objmap.Contents()), base))
    {
      hide Flat, Model, Accounted, Tracked, Sorted, Canonical, Remove, Layout, Next, Count;
      ghost var s := View();
      TrimKeeps(cfg, s, base, limit);
      TableFacts(cfg, s);
      var del := objmap.Trim(base, limit);
      DisplacedByTrim(del, s.objmap, base, limit, |s.log|);
      DeductedCounts(info, del, s.objmap, objmap.View(), |s.log|);
      info := Deduct(info, del);
    }

    /** The batch at the head of the queue gets a number, enters the map and the table, and is sent to the backend. */
    method ProcessBatch()
      requires Valid() && !publishing && queue != [] && queue[0].PutReq?
      modifies this, objmap
      ensures Valid() && Next(cfg, old(View()), WorkPut, View())
      ensures old(Canonical(objmap.Contents())) ==> Canonical(objmap.Contents())
    {
      hide Flat, Model, Accounted, Tracked, Sorted, Canonical, ApplyPieces, Layout, Next, Count, AddObject, Total, Displaced, Ousted;
      ghost var s := View();
      PutKeeps(cfg, s);
      TableFacts(cfg, s);
      HeadFacts(cfg, s);
      var b, n := queue[0].batch, next;
      var o := DataObj(HdrSectors(|b.writes|), b.writes, false);
      next := next + 1;
      info := EnterBatch(objmap, info, n, o);
      log := log + [DataRec(o)];
      queue := queue[1..];
      inflight := inflight[n := BatchPut(b.addr)];
    }

    /** The collection request at the head of the queue is revalidated; what it keeps becomes an object. */
    method WriteGc() returns (pieces: seq<Write>)
      requires Valid() && !publishing && queue != [] && queue[0].GcReq?
      modifies this, objmap
      ensures Revalidated(old(objmap.View()), old(queue[0]).entries, pieces)
      ensures Valid() && Next(cfg, old(View()), WorkGc(pieces), View())
      ensures old(Canonical(objmap.Contents())) ==>
                exists parts :: WholeParts(old(objmap.View()), old(queue[0]).entries, parts) && pieces == Joint(parts)
      ensures old(Canonical(objmap.Contents())) ==> Canonical(objmap.Contents())
    {
      hide Flat, Model, Accounted, Tracked, Sorted, Canonical, ApplyPieces, Layout, Next, Count, AddObject, Total, Displaced, Revalidated;
      hide WholeParts, Joint;
      ghost var s := View();
      TableFacts(cfg, s);
      GcHeadFacts(cfg, s);
      var n := next;
      next := next + 1;
      ghost var parts;
      pieces, parts := Revalidate(objmap, queue[0].entries);
      GcKeeps(cfg, s, pieces);
      RevalidatedIs(s.objmap, queue[0].entries, pieces);
      var o := DataObj(HdrSectors(|pieces|), pieces, true);
      info := EnterKept(objmap, info, n, o);
      log := log + [DataRec(o)];
      queue := queue[1..];
      inflight := inflight[n := GcPut];
    }

    /** The current batch goes on the queue, and the flush waits behind it; `n` counts the writes it has to cover. */
    method Flush(addr: int, n: nat)
      requires Valid() && Fresh(cfg, View(), addr) && n == |history|
      modifies this
      ensures Valid() && Next(cfg, old(View()), Step.Flush(addr), View())
    {
      hide Fresh, Next, Accounted, Tracked;
      Enqueue(FlushReq(n), addr);
    }

    /** The same for a checkpoint. */
    method Checkpoint(addr: int)
      requires Valid() && Fresh(cfg, View(), addr)
      modifies this
      ensures Valid() && Next(cfg, old(View()), Step.Checkpoint(addr), View())
    {
      hide Fresh, Next, Accounted, Tracked;
      Enqueue(CkptReq, addr);
    }

    /** A flush or checkpoint request goes on the queue, behind the current batch if that holds anything. */
    method Enqueue(r: Req, addr: int)
      requires Valid() && Fresh(cfg, View(), addr) && (r == CkptReq || r == FlushReq(|history|))
      modifies this
      ensures Valid() && Next(cfg, old(View()), if r == CkptReq then Step.Checkpoint(addr) else Step.Flush(addr), View())
    {
      hide Flat, Model, Accounted, Tracked, Sorted, Fresh, Layout, Next;
      EnqueueKeeps(cfg, View(), addr, r);
      if current.writes != [] {
        queue := queue + [PutReq(current)];
        current := Batch(addr, []);
      }
      queue := queue + [r];
    }

    /** A flush returns when nothing is on its way to the backend. */
    method FinishFlush()
      requires Valid() && !publishing && queue != [] && queue[0].FlushReq? && inflight == map[]
      modifies this
      ensures Valid() && Next(cfg, old(View()), WorkFlush, View())
    {
      hide Flat, Model, Accounted, Tracked, Sorted, Layout, Next;
      FlushKeeps(cfg, View());
      flushed := if queue[0].covers > flushed then queue[0].covers else flushed;
      queue := queue[1..];
    }

    /** A checkpoint: the extents of the map and the object table become an object. */
    method StoreCheckpoint()
      requires Valid() && !publishing && queue != [] && queue[0].CkptReq?
      modifies this
      ensures Valid() && Next(cfg, old(View()), WorkCkpt, View())
      ensures old(next) in stored && stored[old(next)] == CkptOf(objmap.Contents(), info)
    {
      hide Flat, Model, Accounted, Tracked, Sorted, Layout, Next, AsRecs;
      ghost var s := View();
      CkptKeeps(cfg, s);
      var n := next;
      next := next + 1;
      var entries := objmap.Entries();
      AsRecsMore(stored, n, CkptOf(entries, info));
      stored := stored[n := CkptOf(entries, info)];
      log := log + [CkptRec(s.objmap, info)];
      queue := queue[1..];
      publishing := true;
    }

    /** The superblock names the checkpoint and the two before it; older ones are deleted. */
    method PublishCheckpoint()
      requires Valid() && publishing
      modifies this
      ensures Valid() && Next(cfg, old(View()), Publish, View())
      ensures var cs := old(checkpoints) + [old(next) - 1];
              var k := if |cs| < 3 then 0 else |cs| - 3;
              checkpoints == cs[k..] && stored == old(stored) - (set n | n in cs[..k])
    {
      hide Flat, Model, Accounted, Tracked, Sorted, Layout, Next, AsRecs, DoPublish, Increasing;
      ghost var s := View();
      PublishKeeps(cfg, s);
      var kept, dropped := KeepThree(checkpoints + [next - 1]);
      Published(s, stored, kept, dropped);
      checkpoints := kept;
      stored := DeleteAll(stored, dropped);
      publishing := false;
    }

    /** The write of object `n` has completed; a batch leaves the buffer map. */
    method Notify(n: int, o: DataObj)
      requires Valid() && n in inflight && 0 <= n < |log| && log[n] == DataRec(o)
      modifies this, bufmap
      ensures Valid() && Next(cfg, old(View()), Complete(n), View())
    {
      hide Flat, Model, Accounted, Tracked, Sorted, Layout, Next, AsRecs, Drop, Buffers;
      ghost var s := View();
      CompleteKeeps(cfg, s, n);
      AsRecsMore(stored, n, DataOf(o));
      stored := stored[n := DataOf(o)];
      if inflight[n].BatchPut? {
        InflightFacts(cfg, s, n);
        NoStraddle(cfg, s, inflight[n].addr);
        Retire(cfg, bufmap, inflight[n].addr, o.pieces);
      }
      inflight := inflight - {n};
    }
  }

  ghost predicate Increasing(cs: seq<int>, bound: int) {
    && (forall i, j :: 0 <= i < j < |cs| ==> cs[i] < cs[j])
    && (forall i :: 0 <= i < |cs| ==> cs[i] < bound)
  }

  lemma {:induction false} AppendKeeps(cfg: Config, s: State, w: Write, addr: int)
    requires Accounted(cfg, s) && Tracked(cfg, s) && 0 < |w.data| <= cfg.max && Fresh(cfg, s, addr)
    ensures Accounted(cfg, DoAppend(cfg, s, w, addr)) && Tracked(cfg, DoAppend(cfg, s, w, addr)) && Next(cfg, s, Append(w, addr), DoAppend(cfg, s, w, addr))
  {
    hide Accounted, Tracked, DoAppend, Fresh;
    StepAccounted(cfg, s, Append(w, addr));
    StepTracked(cfg, s, Append(w, addr));
  }

  lemma {:induction false} TrimKeeps(cfg: Config, s: State, base: int, limit: int)
    requires Accounted(cfg, s) && Tracked(cfg, s) && base <= limit
    ensures Accounted(cfg, DoTrim(s, base, limit)) && Tracked(cfg, DoTrim(s, base, limit)) && Next(cfg, s, Step.Trim(base, limit), DoTrim(s, base, limit))
  {
    hide Accounted, Tracked, DoTrim;
    StepAccounted(cfg, s, Step.Trim(base, limit));
    StepTracked(cfg, s, Step.Trim(base, limit));
  }

  lemma {:induction false} PutKeeps(cfg: Config, s: State)
    requires Accounted(cfg, s) && Tracked(cfg, s) && !s.publishing && s.queue != [] && s.queue[0].PutReq?
    ensures Accounted(cfg, DoPut(s)) && Tracked(cfg, DoPut(s)) && Next(cfg, s, WorkPut, DoPut(s))
  {
    hide Accounted, Tracked, DoPut;
    StepAccounted(cfg, s, WorkPut);
    StepTracked(cfg, s, WorkPut);
  }

  lemma {:induction false} GcKeeps(cfg: Config, s: State, pieces: seq<Write>)
    requires Accounted(cfg, s) && Tracked(cfg, s) && GcReady(s, pieces)
    ensures Accounted(cfg, DoGc(s, pieces)) && Tracked(cfg, DoGc(s, pieces)) && Next(cfg, s, WorkGc(pieces), DoGc(s, pieces))
  {
    hide Accounted, Tracked, DoGc, GcReady;
    StepAccounted(cfg, s, WorkGc(pieces));
    StepTracked(cfg, s, WorkGc(pieces));
  }

  /** The table before a request is processed: every count is exact and the next number is not in use. */
  lemma {:induction false} TableFacts(cfg: Config, s: State)
    requires Accounted(cfg, s)
    ensures forall n :: n in s.info ==> s.info[n].live == Count(s.objmap, n)
    ensures |s.log| !in s.info && Unreferenced(s.objmap, |s.log|)
  {
    hide LogOk, StoreOk, QueueOk, GcOk;
  }

  lemma {:induction false} HeadFacts(cfg: Config, s: State)
    requires Accounted(cfg, s) && s.queue != [] && s.queue[0].PutReq?
    ensures var ws := s.queue[0].batch.writes; forall j :: 0 <= j < |ws| ==> 0 < |ws[j].data|
  {
    hide LogOk, StoreOk, Exact, GcOk;
    assert ReqOk(cfg, s.log, s.objmap, s.queue[0]);
  }

  lemma {:induction false} GcHeadFacts(cfg: Config, s: State)
    requires Accounted(cfg, s) && s.queue != [] && s.queue[0].GcReq?
    ensures DisjointEntries(s.queue[0].entries)
    ensures forall i :: 0 <= i < |s.queue[0].entries| ==> 0 < |s.queue[0].entries[i].data|
  {
    hide LogOk, StoreOk, Exact, GcOk;
    assert ReqOk(cfg, s.log, s.objmap, s.queue[0]);
    var es := s.queue[0].entries;
    assert forall i :: 0 <= i < |es| ==> es[i] in es;
  }

  /** Taking off what was displaced moves every count with the map, and below zero it cannot go. */
  lemma {:induction false} DeductedCounts(info: map<int, Info>, del: seq<Extent>, m: map<int, Ptr>, m': map<int, Ptr>, n: int)
    requires exists more :: Displaced(del, m, m', n, more)
    requires n !in info && forall k :: k in info ==> info[k].live == Count(m, k)
    ensures forall i :: 0 <= i < |del| ==> 0 <= del[i].len
    ensures forall k :: k in info ==> SumLen(del, k) <= info[k].live
    ensures Deducted(info, del) == Settle(info, m, m')
  {
    hide SumLen, Count;
  }

  lemma {:induction false} EnteredCounts(info: map<int, Info>, del: seq<Extent>, m: map<int, Ptr>, m': map<int, Ptr>, n: int, o: DataObj)
    requires Displaced(del, m, m', n, Total(o.pieces)) && Unreferenced(m, n)
    requires n !in info && forall k :: k in info ==> info[k].live == Count(m, k)
    ensures forall i :: 0 <= i < |del| ==> 0 <= del[i].len
    ensures var info' := info[n := Info(o.hdr, Total(o.pieces), Total(o.pieces))];
            forall k :: k in info' ==> SumLen(del, k) <= info'[k].live
  {
    hide SumLen, Count, Total;
    CountZero(m, n);
  }

  lemma {:induction false} EnqueueKeeps(cfg: Config, s: State, addr: int, r: Req)
    requires Accounted(cfg, s) && Tracked(cfg, s) && Fresh(cfg, s, addr) && (r == CkptReq || r == FlushReq(|s.history|))
    ensures Accounted(cfg, DoEnqueue(s, addr, r)) && Tracked(cfg, DoEnqueue(s, addr, r))
    ensures Next(cfg, s, if r == CkptReq then Checkpoint(addr) else Flush(addr), DoEnqueue(s, addr, r))
  {
    hide Accounted, Tracked, DoEnqueue, Fresh;
    var step := if r == CkptReq then Checkpoint(addr) else Flush(addr);
    StepAccounted(cfg, s, step);
    StepTracked(cfg, s, step);
  }

  lemma {:induction false} FlushKeeps(cfg: Config, s: State)
    requires Accounted(cfg, s) && Tracked(cfg, s) && !s.publishing && s.queue != [] && s.queue[0].FlushReq? && s.inflight == map[]
    ensures Accounted(cfg, DoFlushed(s)) && Tracked(cfg, DoFlushed(s)) && Next(cfg, s, WorkFlush, DoFlushed(s))
  {
    hide Accounted, Tracked, DoFlushed;
    StepAccounted(cfg, s, WorkFlush);
    StepTracked(cfg, s, WorkFlush);
  }

  lemma {:induction false} CkptKeeps(cfg: Config, s: State)
    requires Accounted(cfg, s) && Tracked(cfg, s) && !s.publishing && s.queue != [] && s.queue[0].CkptReq?
    ensures Accounted(cfg, DoCkpt(s)) && Tracked(cfg, DoCkpt(s)) && Next(cfg, s, WorkCkpt, DoCkpt(s))
  {
    hide Accounted, Tracked, DoCkpt;
    StepAccounted(cfg, s, WorkCkpt);
    StepTracked(cfg, s, WorkCkpt);
  }

  lemma {:induction false} PublishKeeps(cfg: Config, s: State)
    requires Accounted(cfg, s) && Tracked(cfg, s) && s.publishing
    ensures Accounted(cfg, DoPublish(s)) && Tracked(cfg, DoPublish(s)) && Next(cfg, s, Publish, DoPublish(s))
  {
    hide Accounted, Tracked, DoPublish;
    StepAccounted(cfg, s, Publish);
    StepTracked(cfg, s, Publish);
  }

  lemma {:induction false} CompleteKeeps(cfg: Config, s: State, n: int)
    requires Accounted(cfg, s) && Tracked(cfg, s) && n in s.inflight && 0 <= n < |s.log| && s.log[n].DataRec?
    ensures Accounted(cfg, DoComplete(cfg, s, n)) && Tracked(cfg, DoComplete(cfg, s, n)) && Next(cfg, s, Complete(n), DoComplete(cfg, s, n))
  {
    hide Accounted, Tracked, DoComplete;
    StepAccounted(cfg, s, Complete(n));
    StepTracked(cfg, s, Complete(n));
  }

  lemma {:induction false} AsRecsMore(m: map<int, Stored>, n: int, o: Stored)
    ensures AsRecs(m[n := o]) == AsRecs(m)[n := AsRec(o)]
  {
    hide AsRec;
  }

  lemma {:induction false} IncreasingPush(cs: seq<int>, c: int)
    requires Increasing(cs, c)
    ensures Increasing(cs + [c], c + 1)
  {
  }

  lemma {:induction false} IncreasingDrop(x: seq<int>, y: seq<int>, bound: int)
    requires Increasing(x + y, bound)
    ensures Increasing(y, bound) && forall n :: n in x ==> n !in y
  {
    var s := x + y;
    assert forall i :: 0 <= i < |y| ==> y[i] == s[|x| + i];
    assert forall i :: 0 <= i < |x| ==> x[i] == s[i];
  }

  /** Deleting the dropped checkpoints is what naming only the last three means. */
  lemma {:induction false} Published(s: State, m: map<int, Stored>, kept: seq<int>, dropped: seq<int>)
    requires s.backend == AsRecs(m) && Increasing(s.checkpoints, |s.log| - 1)
    requires dropped + kept == s.checkpoints + [|s.log| - 1] && kept == Keep(dropped + kept)
    ensures DoPublish(s) == s.(checkpoints := kept, publishing := false, backend := AsRecs(m - (set n | n in dropped)))
    ensures Increasing(kept, |s.log|)
  {
    hide AsRec, Increasing, Keep;
    IncreasingPush(s.checkpoints, |s.log| - 1);
    IncreasingDrop(dropped, kept, |s.log|);
    var l, r := DoPublish(s).backend, AsRecs(m - (set n | n in dropped));
    assert l.Keys == r.Keys;
    assert l == r;
  }

  lemma {:induction false} InflightFacts(cfg: Config, s: State, n: int)
    requires Accounted(cfg, s) && n in s.inflight && s.inflight[n].BatchPut?
    ensures 0 <= n < |s.log| && s.log[n].DataRec? && s.inflight[n].addr in Buffers(s)
    ensures var ps := s.log[n].obj.pieces; forall j :: 0 <= j < |ps| ==> 0 < |ps[j].data|
  {
    hide Exact, QueueOk, GcOk;
    assert RecOk(cfg, s.log, n);
  }

  /** The state after a crash, with a new batch. */
  ghost function Restart(cfg: Config, s: State, addr: int): State
    requires s.checkpoints != [] ==> HasCkpt(s)
  {
    DoCrash(cfg, s).(current := Batch(addr, []))
  }

  /** What a crash leaves is in order. */
  lemma {:induction false} CrashKeeps(cfg: Config, s: State, addr: int)
    requires Accounted(cfg, s) && (s.checkpoints != [] ==> HasCkpt(s)) && Increasing(s.checkpoints, |s.log|)
    ensures var t := Restart(cfg, s, addr); Tracked(cfg, t) && Increasing(t.checkpoints, |t.log|)
    ensures |DoCrash(cfg, s).log| == RecoverPoint(s) && (Accounted(cfg, Restart(cfg, s, addr)) <==> CleanTail(cfg, s))
  {
    RecoverPointInLog(cfg, s);
    CrashNumbers(cfg, s);
    if CleanTail(cfg, s) {
      CrashAccounted(cfg, s);
      NewBatch(cfg, DoCrash(cfg, s), addr);
    }
    if Accounted(cfg, Restart(cfg, s, addr)) {
      NothingPast(cfg, s, addr);
    }
    hide Accounted, RecoveredMap, RecoveredInfo, LogWrites, CleanTail, HasCkpt, RecoverPoint, Tracked, Swept;
    NothingBuffered(cfg, Restart(cfg, s, addr));
  }

  lemma {:induction false} CrashNumbers(cfg: Config, s: State)
    requires (s.checkpoints != [] ==> HasCkpt(s) && LastCkpt(s) < RecoverPoint(s)) && 0 < RecoverPoint(s) <= |s.log|
    requires Increasing(s.checkpoints, |s.log|)
    ensures var t := DoCrash(cfg, s); |t.log| == RecoverPoint(s) && Increasing(t.checkpoints, |t.log|)
  {
    hide RecoveredMap, RecoveredInfo, LogWrites, RecoverPoint, Swept;
  }

  /** A table in order has no object past the log. */
  lemma {:induction false} NothingPast(cfg: Config, s: State, addr: int)
    requires (s.checkpoints != [] ==> HasCkpt(s)) && 0 < RecoverPoint(s) <= |s.log| && Accounted(cfg, Restart(cfg, s, addr))
    ensures CleanTail(cfg, s)
  {
    hide LogOk, Exact, QueueOk, GcOk, BatchOk, RecoveredMap, RecoveredInfo, LogWrites, RecoverPoint, Swept;
  }

  lemma {:induction false} NewBatch(cfg: Config, s: State, addr: int)
    requires Accounted(cfg, s)
    ensures Accounted(cfg, s.(current := Batch(addr, [])))
  {
    hide LogOk, QueueOk, Exact, StoreOk, EntriesOk, Moving, Unreferenced;
  }

  lemma {:induction false} NothingBuffered(cfg: Config, s: State)
    requires s.queue == [] && s.inflight == map[] && s.bufmap == map[] && s.current.writes == []
    ensures Tracked(cfg, s)
  {
    BufLogEmpty(s.log, |s.log|);
    CrashApart(cfg, s, s);
  }

  lemma {:induction false} InitTracked(cfg: Config, addr: int)
    ensures Tracked(cfg, Init(addr))
  {
    var s := Init(addr);
    assert BufLog(s.log, map[], 0) == BufLog(s.log, map[], 1) == map[];
  }
}
