/** At every moment of a run, a read finds the newest write. */
module ReadTheorem {
  import opened Extents
  import opened Volume
  import opened Machine
  import opened Accounting
  import opened LogStory
  import opened CrashSafety
  import opened PrefixConsistency
  import opened ReadCoherence
  import opened ReadSteps

  // ---- what a buffer holds ----

  /** The buffer at `addr`, filled by the writes `ws`, holds `v` where `p` points. */
  ghost predicate BufferHas(addr: int, ws: seq<Write>, p: Ptr, v: Sector) {
    exists i :: 0 <= i < Total(ws) && p == BufPtr(addr + 512 * i) && Payload(ws)[i] == v
  }

  /** Some buffer in use holds `v` where `p` points. */
  ghost predicate InMemory(s: State, p: Ptr, v: Sector) {
    || BufferHas(s.current.addr, s.current.writes, p, v)
    || (exists i :: 0 <= i < |s.queue| && s.queue[i].PutReq? && BufferHas(s.queue[i].batch.addr, s.queue[i].batch.writes, p, v))
    || (exists n :: n in s.inflight && s.inflight[n].BatchPut? && 0 <= n < |s.log| && s.log[n].DataRec? &&
          BufferHas(s.inflight[n].addr, s.log[n].obj.pieces, p, v))
  }

  lemma {:induction false} BufferHasMore(addr: int, f: seq<Write>, w: Write, p: Ptr, v: Sector)
    requires BufferHas(addr, f, p, v)
    ensures BufferHas(addr, f + [w], p, v)
  {
    var i :| 0 <= i < Total(f) && p == BufPtr(addr + 512 * i) && Payload(f)[i] == v;
    assert (f + [w])[..|f|] == f;
    assert Payload(f + [w])[i] == v;
  }

  lemma {:induction false} BufferHasLast(addr: int, f: seq<Write>, w: Write, i: int)
    requires 0 <= i < |w.data|
    ensures BufferHas(addr, f + [w], BufPtr(addr + 512 * (Total(f) + i)), w.data[i])
  {
    assert (f + [w])[..|f|] == f;
    assert Payload(f + [w])[Total(f) + i] == w.data[i];
  }

  lemma {:induction false} TouchesMore(f: seq<Write>, w: Write, a: int)
    ensures Touches(f + [w], a) <==> Touches(f, a) || w.Covers(a)
  {
    TouchesConcat(f, [w], a);
    if w.Covers(a) {
      assert [w][0].Covers(a);
    }
  }

  ghost predicate EntersValue(m: map<int, Ptr>, d: Disk, addr: int, ws: seq<Write>, a: int) {
    if Touches(ws, a) then
      a in Enter(m, addr, ws) && a in ApplyWrites(d, ws) && BufferHas(addr, ws, Enter(m, addr, ws)[a], ApplyWrites(d, ws)[a])
    else
      (a in ApplyWrites(d, ws) <==> a in d) && (a in d ==> ApplyWrites(d, ws)[a] == d[a])
  }

  lemma {:induction false} EnterLast(m: map<int, Ptr>, d: Disk, addr: int, f: seq<Write>, w: Write, a: int)
    ensures w.Covers(a) ==> a in Enter(m, addr, f + [w]) && a in ApplyWrites(d, f + [w])
    ensures w.Covers(a) ==> Enter(m, addr, f + [w])[a] == BufPtr(addr + 512 * (Total(f) + (a - w.lba)))
    ensures w.Covers(a) ==> ApplyWrites(d, f + [w])[a] == w.data[a - w.lba]
    ensures !w.Covers(a) ==> (a in Enter(m, addr, f + [w]) <==> a in Enter(m, addr, f))
    ensures !w.Covers(a) ==> (a in ApplyWrites(d, f + [w]) <==> a in ApplyWrites(d, f))
    ensures !w.Covers(a) && a in Enter(m, addr, f) ==> Enter(m, addr, f + [w])[a] == Enter(m, addr, f)[a]
    ensures !w.Covers(a) && a in ApplyWrites(d, f) ==> ApplyWrites(d, f + [w])[a] == ApplyWrites(d, f)[a]
  {
    hide Enter, ApplyWrites, Total;
    EnterMore(m, addr, f, w);
    WriteMore(d, f, w);
  }

  lemma {:induction false} EnterMore(m: map<int, Ptr>, addr: int, f: seq<Write>, w: Write)
    ensures Enter(m, addr, f + [w]) == Override(Enter(m, addr, f), w.lba, w.Limit(), BufPtr(addr + 512 * Total(f)))
  {
    hide Override, Total;
    assert (f + [w])[..|f|] == f && (f + [w])[|f|] == w;
  }

  lemma {:induction false} WriteMore(d: Disk, f: seq<Write>, w: Write)
    ensures ApplyWrites(d, f + [w]) == ApplyWrites(d, f) + Patch(w)
  {
    hide Patch;
    assert (f + [w])[..|f|] == f && (f + [w])[|f|] == w;
  }

  lemma {:induction false} EnterValueMore(m: map<int, Ptr>, d: Disk, addr: int, f: seq<Write>, w: Write, a: int)
    requires EntersValue(m, d, addr, f, a)
    ensures EntersValue(m, d, addr, f + [w], a)
  {
    hide Touches, BufferHas, Total, Payload, Enter, ApplyWrites;
    TouchesMore(f, w, a);
    EnterLast(m, d, addr, f, w, a);
    if w.Covers(a) {
      BufferHasLast(addr, f, w, a - w.lba);
    } else if Touches(f, a) {
      BufferHasMore(addr, f, w, Enter(m, addr, f)[a], ApplyWrites(d, f)[a]);
    }
  }

  /** A batch entered in the buffer map is found in its buffer with the value the disk has after the batch. */
  lemma {:induction false} EnterValue(m: map<int, Ptr>, d: Disk, addr: int, ws: seq<Write>, a: int)
    ensures EntersValue(m, d, addr, ws, a)
  {
    if ws != [] {
      hide EntersValue;
      var k := |ws| - 1;
      EnterValue(m, d, addr, ws[..k], a);
      EnterValueMore(m, d, addr, ws[..k], ws[k], a);
      assert ws[..k] + [ws[k]] == ws;
    }
  }

  /** Every buffered sector is in memory with its newest value. */
  ghost predicate Newest(s: State, m: map<int, Ptr>, d: Disk) {
    forall a :: a in m ==> a in d && InMemory(s, m[a], d[a])
  }

  lemma {:induction false} NewestEnter(s: State, m: map<int, Ptr>, d: Disk, addr: int, ws: seq<Write>)
    requires Newest(s, m, d)
    requires forall p, v :: BufferHas(addr, ws, p, v) ==> InMemory(s, p, v)
    ensures Newest(s, Enter(m, addr, ws), ApplyWrites(d, ws))
  {
    hide InMemory, BufferHas, Enter, ApplyWrites;
    forall a | a in Enter(m, addr, ws) ensures a in ApplyWrites(d, ws) && InMemory(s, Enter(m, addr, ws)[a], ApplyWrites(d, ws)[a]) {
      EnterValue(m, d, addr, ws, a);
      EnterAt(m, addr, ws, a);
    }
  }

  lemma {:induction false} NewestLeave(s: State, m: map<int, Ptr>, d: Disk, ws: seq<Write>)
    requires Newest(s, m, d)
    ensures Newest(s, Leave(m, ws), ApplyWrites(d, ws))
  {
    hide InMemory, ApplyWrites;
    forall a | a in Leave(m, ws) ensures a in ApplyWrites(d, ws) && ApplyWrites(d, ws)[a] == d[a] {
      EnterValue(m, d, 0, ws, a);
    }
  }

  lemma {:induction false} NewestLog(s: State, k: int)
    requires 0 <= k <= |s.log|
    ensures Newest(s, BufLog(s.log, s.inflight, k), DiskAfter(LogWrites(s.log, k)))
  {
    hide InMemory, Newest, Enter, Leave, ApplyWrites;
    if k == 0 {
      NewestNothing(s, DiskAfter(LogWrites(s.log, 0)));
    } else {
      var n := k - 1;
      NewestLog(s, n);
      var m, ws := BufLog(s.log, s.inflight, n), LogWrites(s.log, n);
      ApplyWritesConcat(map[], ws, RecWrites(s.log[n]));
      if s.log[n].DataRec? && !s.log[n].obj.isGc {
        var o := s.log[n].obj;
        if n in s.inflight && s.inflight[n].BatchPut? {
          PutInMemory(s, n);
          NewestEnter(s, m, DiskAfter(ws), s.inflight[n].addr, o.pieces);
        } else {
          NewestLeave(s, m, DiskAfter(ws), o.pieces);
        }
      } else {
        assert ws + [] == ws;
      }
    }
  }

  lemma {:induction false} NewestNothing(s: State, d: Disk)
    ensures Newest(s, map[], d)
  {
  }

  lemma {:induction false} PutInMemory(s: State, n: int)
    requires n in s.inflight && s.inflight[n].BatchPut? && 0 <= n < |s.log| && s.log[n].DataRec?
    ensures forall p, v :: BufferHas(s.inflight[n].addr, s.log[n].obj.pieces, p, v) ==> InMemory(s, p, v)
  {
    hide BufferHas;
  }

  lemma {:induction false} QueuedInMemory(s: State, i: int)
    requires 0 <= i < |s.queue| && s.queue[i].PutReq?
    ensures forall p, v :: BufferHas(s.queue[i].batch.addr, s.queue[i].batch.writes, p, v) ==> InMemory(s, p, v)
  {
    hide BufferHas;
  }

  lemma {:induction false} NewestQueue(s: State, m: map<int, Ptr>, ws: seq<Write>, k: int)
    requires 0 <= k <= |s.queue| && Newest(s, m, DiskAfter(ws))
    ensures Newest(s, BufQueue(m, s.queue[..k]), DiskAfter(ws + QueueWrites(s.queue[..k])))
  {
    hide InMemory, Newest, Enter, ApplyWrites;
    var q := s.queue[..k];
    if k == 0 {
      assert q == [] && ws + [] == ws;
    } else {
      assert q[..k - 1] == s.queue[..k - 1] && q[k - 1] == s.queue[k - 1];
      NewestQueue(s, m, ws, k - 1);
      var vs, r := QueueWrites(s.queue[..k - 1]), s.queue[k - 1];
      ApplyWritesConcat(map[], ws + vs, ReqWrites(r));
      assert ws + vs + ReqWrites(r) == ws + QueueWrites(q);
      if r.PutReq? {
        QueuedInMemory(s, k - 1);
        NewestEnter(s, BufQueue(m, s.queue[..k - 1]), DiskAfter(ws + vs), r.batch.addr, r.batch.writes);
      } else {
        assert ws + QueueWrites(q) == ws + vs;
      }
    }
  }

  /** Every sector in the buffer map is in memory with its newest value. */
  lemma {:induction false} BufferedIsNewest(s: State)
    requires s.history == LogWrites(s.log, |s.log|) + QueueWrites(s.queue) + s.current.writes
    ensures Newest(s, Buffered(s), DiskAfter(s.history))
  {
    hide Newest, Enter, ApplyWrites, BufLog, BufQueue, LogWrites, QueueWrites;
    var ws := LogWrites(s.log, |s.log|);
    NewestLog(s, |s.log|);
    NewestQueue(s, BufLog(s.log, s.inflight, |s.log|), ws, |s.queue|);
    assert s.queue[..|s.queue|] == s.queue;
    ApplyWritesConcat(map[], ws + QueueWrites(s.queue), s.current.writes);
    CurrentInMemory(s);
    NewestEnter(s, BufQueue(BufLog(s.log, s.inflight, |s.log|), s.queue), DiskAfter(ws + QueueWrites(s.queue)),
                s.current.addr, s.current.writes);
  }

  lemma {:induction false} CurrentInMemory(s: State)
    ensures forall p, v :: BufferHas(s.current.addr, s.current.writes, p, v) ==> InMemory(s, p, v)
  {
    hide BufferHas;
  }

  // ---- what is not buffered ----

  /** What a batch on its way is mapped to is still in its buffer. */
  lemma {:induction false} InflightBuffered(log: seq<Rec>, p: map<int, Put>, k: int, a: int)
    requires 0 <= k <= |log| && a in MapAt(log, k) && MapAt(log, k)[a].ObjPtr?
    requires forall n :: n in p && p[n].BatchPut? ==> 0 <= n < |log| && log[n].DataRec? && !log[n].obj.isGc
    requires MapAt(log, k)[a].obj in p && p[MapAt(log, k)[a].obj].BatchPut?
    ensures a in BufLog(log, p, k)
  {
    hide Enter, ApplyPieces;
    var n := k - 1;
    if log[n].DataRec? {
      var o := log[n].obj;
      PiecesInside(MapAt(log, n), n, o.hdr, o.pieces, a);
      if Touches(o.pieces, a) {
        EnterAt(BufLog(log, p, n), p[n].addr, o.pieces, a);
      } else {
        InflightBuffered(log, p, n, a);
        if n in p && p[n].BatchPut? {
          EnterAt(BufLog(log, p, n), p[n].addr, o.pieces, a);
        }
      }
    } else {
      InflightBuffered(log, p, n, a);
    }
  }

  lemma {:induction false} QueueKeeps(m: map<int, Ptr>, q: seq<Req>, a: int)
    ensures a in m ==> a in BufQueue(m, q)
    ensures a !in BufQueue(m, q) ==> !Touches(QueueWrites(q), a)
  {
    hide Enter;
    if q != [] {
      var k := |q| - 1;
      QueueKeeps(m, q[..k], a);
      if q[k].PutReq? {
        EnterAt(BufQueue(m, q[..k]), q[k].batch.addr, q[k].batch.writes, a);
      }
      TouchesConcat(QueueWrites(q[..k]), ReqWrites(q[k]), a);
    }
  }

  lemma {:induction false} TouchesConcat(x: seq<Write>, y: seq<Write>, a: int)
    ensures Touches(x + y, a) <==> Touches(x, a) || Touches(y, a)
  {
    if Touches(x, a) {
      var j :| 0 <= j < |x| && x[j].Covers(a);
      assert (x + y)[j].Covers(a);
    }
    if Touches(y, a) {
      var j :| 0 <= j < |y| && y[j].Covers(a);
      assert (x + y)[|x| + j].Covers(a);
    }
  }

  /** A sector not in the buffer map has its newest value in the log. */
  lemma {:induction false} UnbufferedInLog(s: State, a: int)
    requires s.history == LogWrites(s.log, |s.log|) + QueueWrites(s.queue) + s.current.writes && a !in Buffered(s)
    ensures var d, e := DiskAfter(s.history), DiskAfter(LogWrites(s.log, |s.log|));
            (a in d <==> a in e) && (a in d ==> d[a] == e[a])
    ensures a !in BufLog(s.log, s.inflight, |s.log|)
  {
    hide Enter, BufLog, LogWrites, ApplyWrites;
    var m, ws := BufLog(s.log, s.inflight, |s.log|), LogWrites(s.log, |s.log|);
    var rest := QueueWrites(s.queue) + s.current.writes;
    QueueKeeps(m, s.queue, a);
    EnterAt(BufQueue(m, s.queue), s.current.addr, s.current.writes, a);
    TouchesConcat(QueueWrites(s.queue), s.current.writes, a);
    EnterValue(m, DiskAfter(ws), 0, rest, a);
    ApplyWritesConcat(map[], ws, rest);
    assert ws + rest == s.history;
  }

  // ---- the theorem ----

  /** Where a read of sector `a` looks, and what it finds. */
  ghost predicate ReadsNewest(s: State, a: int) {
    var d := DiskAfter(s.history);
    if a in s.bufmap then a in d && InMemory(s, s.bufmap[a], d[a])
    else if a in s.objmap then a in d && Readable(s.backend, s.objmap[a], d[a])
    else a !in d
  }

  /** The sector is mapped to a collected object that is still on its way, and no buffer holds it. */
  ghost predicate OnlyInGcBuffer(s: State, a: int) {
    a !in s.bufmap && a in s.objmap && s.objmap[a].ObjPtr? && s.objmap[a].obj in s.inflight && s.inflight[s.objmap[a].obj].GcPut?
  }

  /** A read finds the newest write exactly when the sector has not just been moved by a collected object still on its way. */
  lemma {:induction false} CoherentReads(cfg: Config, s: State, a: int)
    requires Coherent(cfg, s)
    ensures ReadsNewest(s, a) <==> !OnlyInGcBuffer(s, a)
  {
    hide Buffered, Faithful, Replayed, LogWrites, QueueWrites, DiskAfter, InMemory, BuffersApart, GcOk, QueueOk, LogOk, Exact, Payload, Total;
    var d := DiskAfter(s.history);
    if a in s.bufmap {
      BufferedIsNewest(s);
    } else {
      UnbufferedInLog(s, a);
      LastAgree(s);
      if a in s.objmap {
        InflightGc(cfg, s, a);
      }
    }
  }

  lemma {:induction false} LastAgree(s: State)
    requires Replayed(s.log, s.objmap) && Faithful(s.log)
    ensures Agree(s.log, s.objmap, DiskAfter(LogWrites(s.log, |s.log|)))
  {
    hide Agree, DiskAfter, LogWrites;
  }

  lemma {:induction false} InflightGc(cfg: Config, s: State, a: int)
    requires Replayed(s.log, s.objmap) && SmallPuts(cfg, s.log, s.inflight) && a in s.objmap && s.objmap[a].ObjPtr?
    requires a !in BufLog(s.log, s.inflight, |s.log|)
    ensures s.objmap[a].obj in s.inflight ==> s.inflight[s.objmap[a].obj].GcPut?
  {
    if s.objmap[a].obj in s.inflight && s.inflight[s.objmap[a].obj].BatchPut? {
      InflightBuffered(s.log, s.inflight, |s.log|, a);
    }
  }

  ghost predicate ReadableRun(cfg: Config, s: State, steps: seq<Step>)
    decreases |steps|
  {
    steps != [] && Enabled(cfg, s, steps[0]) ==>
      ReadGuard(cfg, s, steps[0]) && ReadableRun(cfg, Do(cfg, s, steps[0]), steps[1..])
  }

  lemma {:induction false} RunCoherent(cfg: Config, s: State, steps: seq<Step>, t: State)
    requires Coherent(cfg, s) && Run(cfg, s, steps, t) && ReadableRun(cfg, s, steps)
    ensures Coherent(cfg, t)
    decreases |steps|
  {
    hide Coherent, ReadGuard, Enabled;
    if steps != [] {
      StepCoherent(cfg, s, steps[0]);
      RunCoherent(cfg, Do(cfg, s, steps[0]), steps[1..], t);
    }
  }

  lemma {:induction false} InitCoherent(cfg: Config, addr: int)
    ensures Coherent(cfg, Init(addr))
  {
    hide Logged, Tracked;
    InitSafe(cfg, addr);
    SafeLogged(cfg, Init(addr));
    InitBuffered(cfg, addr);
  }

  lemma {:induction false} SafeLogged(cfg: Config, s: State)
    requires Safe(cfg, s)
    ensures Logged(cfg, s)
  {
    hide Logged;
  }

  lemma {:induction false} InitBuffered(cfg: Config, addr: int)
    ensures Tracked(cfg, Init(addr))
  {
    var s := Init(addr);
    assert BufLog(s.log, map[], 0) == BufLog(s.log, map[], 1) == map[];
  }

  /** Over every run, in any order of completions, with collections, checkpoints and deletions in between. */
  lemma {:induction false} ReadCoherent(cfg: Config, addr: int, steps: seq<Step>, t: State, a: int)
    requires Run(cfg, Init(addr), steps, t) && ReadableRun(cfg, Init(addr), steps)
    ensures ReadsNewest(t, a) <==> !OnlyInGcBuffer(t, a)
  {
    InitCoherent(cfg, addr);
    RunCoherent(cfg, Init(addr), steps, t);
    CoherentReads(cfg, t, a);
  }
}
