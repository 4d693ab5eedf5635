/** The steps of the machine keep the books. */
module AccountingSteps {
  import opened Extents
  import opened Volume
  import opened Machine
  import opened Accounting

  /** After the sweep of recovery, no object numbered from the recovery point on is left. */
  ghost predicate CleanTail(cfg: Config, s: State) {
    forall n :: n in Swept(cfg, s) ==> n < RecoverPoint(s)
  }

  lemma {:induction false} AppendAccounted(cfg: Config, s: State, w: Write, addr: int)
    requires Accounted(cfg, s) && 0 < |w.data| <= cfg.max
    ensures Accounted(cfg, DoAppend(cfg, s, w, addr))
  {
    hide Exact, EntriesOk, RecOk, HdrSectors;
    var full := Total(s.current.writes) + |w.data| > cfg.max;
    var t := if full then Seal(s, addr) else s;
    var s' := DoAppend(cfg, s, w, addr);
    assert s'.current.writes[..|s'.current.writes| - 1] == t.current.writes;
    QueueExtended(cfg, s, PutReq(s.current));
    if full {
      GcLonger(cfg, s, PutReq(s.current));
    }
  }

  lemma {:induction false} QueueExtended(cfg: Config, s: State, r: Req)
    requires QueueOk(cfg, s.log, s.objmap, s.queue) && ReqOk(cfg, s.log, s.objmap, r)
    ensures QueueOk(cfg, s.log, s.objmap, s.queue + [r])
  {
  }

  /** A longer queue moves at least as much. */
  lemma {:induction false} GcLonger(cfg: Config, s: State, r: Req)
    requires GcOk(cfg, s)
    ensures GcOk(cfg, s.(queue := s.queue + [r]))
  {
    hide EntriesOk, Unreferenced;
    if s.gc.Copying? {
      forall a | a in s.objmap && s.objmap[a].ObjPtr? && s.objmap[a].obj in s.gc.objs
        ensures Moving(s.queue + [r], s.gc.todo, a, s.objmap[a].obj) {
        MovingLonger(s.queue, r, s.gc.todo, a, s.objmap[a].obj);
      }
    }
  }

  lemma {:induction false} MovingLonger(q: seq<Req>, r: Req, todo: seq<seq<GcEntry>>, a: int, n: int)
    requires Moving(q, todo, a, n)
    ensures Moving(q + [r], todo, a, n)
  {
    if !CoveredBy(todo, a, n) {
      var i, e :| 0 <= i < |q| && q[i].GcReq? && e in q[i].entries && e.Covers(a) && e.obj == n;
      assert (q + [r])[i] == q[i];
    }
  }

  lemma {:induction false} EnqueueAccounted(cfg: Config, s: State, addr: int, r: Req)
    requires Accounted(cfg, s) && (r.FlushReq? || r.CkptReq?)
    ensures Accounted(cfg, DoEnqueue(s, addr, r))
  {
    hide Exact, EntriesOk, RecOk;
    var t := if s.current.writes != [] then Seal(s, addr) else s;
    if s.current.writes != [] {
      QueueExtended(cfg, s, PutReq(s.current));
      GcLonger(cfg, s, PutReq(s.current));
    }
    QueueExtended(cfg, t, r);
    GcLonger(cfg, t, r);
  }

  lemma {:induction false} WorkPutAccounted(cfg: Config, s: State)
    requires Accounted(cfg, s) && !s.publishing && s.queue != [] && s.queue[0].PutReq?
    ensures Accounted(cfg, DoPut(s))
  {
    var b := s.queue[0].batch;
    assert ReqOk(cfg, s.log, s.objmap, s.queue[0]);
    SmallBounded(cfg, Total(b.writes), Total(b.writes));
    AccountedIssue(cfg, s, DataObj(HdrSectors(|b.writes|), b.writes, false), BatchPut(b.addr));
  }

  lemma {:induction false} WorkGcAccounted(cfg: Config, s: State, ps: seq<Write>)
    requires Accounted(cfg, s) && GcReady(s, ps)
    ensures Accounted(cfg, DoGc(s, ps))
  {
    var es := s.queue[0].entries;
    assert ReqOk(cfg, s.log, s.objmap, s.queue[0]);
    RevalidatedSize(s.objmap, es, ps);
    SmallBounded(cfg, Total(ps), EntriesTotal(es));
    AccountedIssue(cfg, s, DataObj(HdrSectors(|ps|), ps, true), GcPut);
  }

  /** The head of the queue is done and was no collection request. */
  lemma {:induction false} GcShorter(cfg: Config, s: State)
    requires GcOk(cfg, s) && s.queue != [] && !s.queue[0].GcReq?
    ensures GcOk(cfg, s.(queue := s.queue[1..]))
  {
    hide EntriesOk, Unreferenced;
    if s.gc.Copying? {
      forall a | a in s.objmap && s.objmap[a].ObjPtr? && s.objmap[a].obj in s.gc.objs
        ensures Moving(s.queue[1..], s.gc.todo, a, s.objmap[a].obj) {
        MovingShorter(s.queue, s.gc.todo, a, s.objmap[a].obj);
      }
    }
  }

  lemma {:induction false} MovingShorter(q: seq<Req>, todo: seq<seq<GcEntry>>, a: int, n: int)
    requires Moving(q, todo, a, n) && q != [] && !q[0].GcReq?
    ensures Moving(q[1..], todo, a, n)
  {
    if !CoveredBy(todo, a, n) {
      var i, e :| 0 <= i < |q| && q[i].GcReq? && e in q[i].entries && e.Covers(a) && e.obj == n;
      assert q[1..][i - 1] == q[i];
    }
  }

  lemma {:induction false} WorkCkptAccounted(cfg: Config, s: State)
    requires Accounted(cfg, s) && !s.publishing && s.queue != [] && s.queue[0].CkptReq?
    ensures Accounted(cfg, DoCkpt(s))
  {
    hide Exact, GcOk, QueueOk, BatchOk;
    var r := CkptRec(s.objmap, s.info);
    var s' := DoCkpt(s);
    ExactMore(s.log, r, |s.log|, s.objmap, s.info);
    ExactNext(s'.log, |s.log|, s.objmap, s.info);
    LogOkMore(cfg, s.log, r);
    QueueKept(cfg, s.log, s'.log, s.objmap, s.objmap, s.queue, 1);
    CkptGc(cfg, s);
  }

  lemma {:induction false} ExactNext(log: seq<Rec>, k: int, m: map<int, Ptr>, info: map<int, Info>)
    requires Exact(log, k, m, info) && k < |log|
    ensures Exact(log, k + 1, m, info)
  {
  }

  lemma {:induction false} CkptGc(cfg: Config, s: State)
    requires GcOk(cfg, s) && s.queue != [] && s.queue[0].CkptReq?
    ensures GcOk(cfg, DoCkpt(s))
  {
    hide EntriesOk, Unreferenced, Moving;
    var s' := DoCkpt(s);
    GcShorter(cfg, s);
    if s.gc.Copying? {
      forall i | 0 <= i < |s.gc.todo| ensures EntriesOk(cfg, s'.log, s.objmap, s.gc.todo[i]) {
        EntriesKept(cfg, s.log, s'.log, s.objmap, s.objmap, s.gc.todo[i]);
      }
    }
  }

  lemma {:induction false} PublishAccounted(cfg: Config, s: State)
    requires Accounted(cfg, s) && s.publishing
    ensures Accounted(cfg, DoPublish(s))
  {
    hide Exact, EntriesOk, RecOk, Unreferenced;
  }

  lemma {:induction false} WorkFlushAccounted(cfg: Config, s: State)
    requires Accounted(cfg, s) && s.queue != [] && s.queue[0].FlushReq?
    ensures Accounted(cfg, DoFlushed(s))
  {
    GcShorter(cfg, s);
    hide Exact, EntriesOk, RecOk, Unreferenced;
  }

  lemma {:induction false} CompleteAccounted(cfg: Config, s: State, n: int)
    requires Accounted(cfg, s) && n in s.inflight && 0 <= n < |s.log| && s.log[n].DataRec?
    ensures Accounted(cfg, DoComplete(cfg, s, n))
  {
    hide Exact, EntriesOk, RecOk, Unreferenced;
  }

  lemma {:induction false} GcStartAccounted(cfg: Config, s: State, objs: set<int>, todo: seq<seq<GcEntry>>)
    requires Accounted(cfg, s) && Enabled(cfg, s, GcStart(objs, todo))
    ensures Accounted(cfg, Do(cfg, s, GcStart(objs, todo)))
  {
    forall i | 0 <= i < |todo| ensures EntriesOk(cfg, s.log, s.objmap, todo[i]) {
      forall e | e in todo[i] ensures EntryOk(s.log, s.objmap, e) {
        assert Picked(s, objs, e);
      }
      PackedRequest(cfg, s, objs, todo[i]);
    }
    forall a | a in s.objmap && s.objmap[a].ObjPtr? && s.objmap[a].obj in objs
      ensures Moving(s.queue, todo, a, s.objmap[a].obj) {
      assert CoveredBy(todo, a, s.objmap[a].obj);
    }
    hide EntriesOk, RecOk, Moving;
  }

  /** The size bound holds for every request the packing loop makes. */
  lemma {:induction false} PackedRequest(cfg: Config, s: State, objs: set<int>, es: seq<GcEntry>)
    requires LogOk(cfg, s.log) && Exact(s.log, |s.log|, s.objmap, s.info)
    requires forall n :: n in objs ==> n in s.info && Sparse(cfg, s.info[n])
    requires es != [] && Picked(s, objs, es[|es| - 1]) && EntriesTotal(es[..|es| - 1]) < cfg.max
    ensures Bounded(cfg, EntriesTotal(es))
  {
    hide Bounded, Sparse, LogOk, Exact, ReadFrom;
    var last := es[|es| - 1];
    RunWithinLive(s.objmap, last);
    TrackedSize(cfg, s, last.obj);
    PackedBounded(cfg, EntriesTotal(es[..|es| - 1]), |last.data|, s.info[last.obj]);
  }

  lemma {:induction false} TrackedSize(cfg: Config, s: State, n: int)
    requires LogOk(cfg, s.log) && Exact(s.log, |s.log|, s.objmap, s.info) && n in s.info
    ensures 0 <= s.info[n].data && Bounded(cfg, s.info[n].data) && s.info[n].live == Count(s.objmap, n)
  {
    hide Bounded;
    assert RecOk(cfg, s.log, n);
  }

  lemma {:induction false} GcSubmitAccounted(cfg: Config, s: State)
    requires Accounted(cfg, s) && Enabled(cfg, s, GcSubmit)
    ensures Accounted(cfg, Do(cfg, s, GcSubmit))
  {
    var todo := s.gc.todo;
    hide Exact, EntriesOk, RecOk;
    QueueExtended(cfg, s, GcReq(todo[0]));
    forall a | a in s.objmap && s.objmap[a].ObjPtr? && s.objmap[a].obj in s.gc.objs
      ensures Moving(s.queue + [GcReq(todo[0])], todo[1..], a, s.objmap[a].obj) {
      Submitted(s.queue, todo, a, s.objmap[a].obj);
    }
    hide Moving;
  }

  lemma {:induction false} Submitted(q: seq<Req>, todo: seq<seq<GcEntry>>, a: int, n: int)
    requires Moving(q, todo, a, n) && todo != []
    ensures Moving(q + [GcReq(todo[0])], todo[1..], a, n)
  {
    var q' := q + [GcReq(todo[0])];
    if CoveredBy(todo, a, n) {
      var i, e :| 0 <= i < |todo| && e in todo[i] && e.Covers(a) && e.obj == n;
      if i == 0 {
        assert q'[|q|].GcReq? && e in q'[|q|].entries;
      } else {
        assert todo[1..][i - 1] == todo[i];
      }
    } else {
      var i, e :| 0 <= i < |q| && q[i].GcReq? && e in q[i].entries && e.Covers(a) && e.obj == n;
      assert q'[i] == q[i];
    }
  }

  /** Once every request of a cycle has been processed, nothing is mapped to a cleaned object. */
  lemma {:induction false} CleanedUnreferenced(cfg: Config, s: State, n: int)
    requires GcOk(cfg, s) && s.gc.Copying? && s.gc.todo == [] && NoGcPending(s) && n in s.gc.objs
    ensures Unreferenced(s.objmap, n)
  {
    forall a | a in s.objmap && s.objmap[a].ObjPtr? ensures s.objmap[a].obj != n {
      assert !Moving(s.queue, s.gc.todo, a, n);
    }
  }

  lemma {:induction false} GcFinishAccounted(cfg: Config, s: State)
    requires Accounted(cfg, s) && Enabled(cfg, s, GcFinish)
    ensures Accounted(cfg, Do(cfg, s, GcFinish))
  {
    hide EntriesOk, RecOk;
    forall n | n in s.gc.objs ensures Unreferenced(s.objmap, n) {
      CleanedUnreferenced(cfg, s, n);
    }
    ExactWithout(s, s.gc.objs);
    hide Exact, Moving, NoGcPending;
  }

  lemma {:induction false} GcDeleteAccounted(cfg: Config, s: State, n: int)
    requires Accounted(cfg, s) && Enabled(cfg, s, GcDelete(n))
    ensures Accounted(cfg, Do(cfg, s, GcDelete(n)))
  {
    hide Exact, EntriesOk, RecOk, Unreferenced, QueueOk, LogOk, BatchOk;
    assert s.log[n].DataRec?;
  }

  lemma {:induction false} ReapAccounted(cfg: Config, s: State, n: int)
    requires Accounted(cfg, s) && Enabled(cfg, s, Reap(n))
    ensures Accounted(cfg, Do(cfg, s, Reap(n)))
  {
    hide Exact, LogOk, QueueOk, BatchOk, GcOk, Unreferenced;
    DeadUnreferenced(s, n);
    ExactWithout(s, {n});
    GcFewer(cfg, s, Do(cfg, s, Reap(n)));
  }

  lemma {:induction false} DeadUnreferenced(s: State, n: int)
    requires Exact(s.log, |s.log|, s.objmap, s.info) && n in s.info && s.info[n].live == 0
    ensures Unreferenced(s.objmap, n) && 0 < n < |s.log| && s.log[n].DataRec?
  {
    hide ValidPtr;
    CountZero(s.objmap, n);
  }

  lemma {:induction false} GcFewer(cfg: Config, s: State, s': State)
    requires GcOk(cfg, s) && s'.log == s.log && s'.objmap == s.objmap && s'.queue == s.queue && s'.gc == s.gc
    requires forall n :: n in s'.info ==> n in s.info
    ensures GcOk(cfg, s')
  {
    hide EntriesOk, Moving, Unreferenced;
  }

  /** Dropping unreferenced objects from the table keeps the rest exact. */
  lemma {:induction false} ExactWithout(s: State, objs: set<int>)
    requires Exact(s.log, |s.log|, s.objmap, s.info)
    requires forall n :: n in objs ==> Unreferenced(s.objmap, n)
    ensures Exact(s.log, |s.log|, s.objmap, s.info - objs)
  {
    forall a | a in s.objmap ensures s.objmap[a].obj !in objs {
      assert ValidPtr(s.log, s.objmap[a]);
    }
  }

  lemma {:induction false} TrimExact(s: State, base: int, limit: int)
    requires Exact(s.log, |s.log|, s.objmap, s.info)
    ensures var m := Remove(s.objmap, base, limit); Exact(s.log, |s.log|, m, Settle(s.info, s.objmap, m))
  {
    hide ValidPtr;
  }

  lemma {:induction false} TrimAccounted(cfg: Config, s: State, base: int, limit: int)
    requires Accounted(cfg, s)
    ensures Accounted(cfg, DoTrim(s, base, limit))
  {
    hide Exact, RecOk, Settle;
    var s' := DoTrim(s, base, limit);
    TrimExact(s, base, limit);
    QueueKept(cfg, s.log, s.log, s.objmap, s'.objmap, s.queue, 0);
    assert s.queue[0..] == s.queue;
    TrimGc(cfg, s, base, limit);
  }

  lemma {:induction false} TrimGc(cfg: Config, s: State, base: int, limit: int)
    requires GcOk(cfg, s)
    ensures GcOk(cfg, DoTrim(s, base, limit))
  {
    var s' := DoTrim(s, base, limit);
    if s.gc.Copying? {
      forall i | 0 <= i < |s.gc.todo| ensures EntriesOk(cfg, s.log, s'.objmap, s.gc.todo[i]) {
        EntriesKept(cfg, s.log, s.log, s.objmap, s'.objmap, s.gc.todo[i]);
      }
    }
    hide EntriesOk, Moving;
  }

  // ---- recovery ----

  lemma {:induction false} ExactPrefix(log: seq<Rec>, k: int, j: int, m: map<int, Ptr>, info: map<int, Info>)
    requires Exact(log, k, m, info) && k <= j <= |log|
    ensures Exact(log[..j], j, m, info)
  {
  }

  lemma {:induction false} LogOkPrefix(cfg: Config, log: seq<Rec>, k: int)
    requires LogOk(cfg, log) && 0 < k <= |log|
    ensures LogOk(cfg, log[..k])
  {
    forall n | 0 <= n < k ensures RecOk(cfg, log[..k], n) {
      assert RecOk(cfg, log, n);
      if log[n].CkptRec? {
        var m, info := log[n].omap, log[n].info;
        assert forall a :: a in m ==> ValidPtr(log, m[a]);
        assert Exact(log[..k], n, m, info);
      }
    }
  }

  /** Replaying objects keeps the counts exact, as processing them did. */
  lemma {:induction false} ReplayExact(log: seq<Rec>, backend: map<int, Rec>, m: map<int, Ptr>, info: map<int, Info>, from: int, k: int)
    requires 0 < from <= k <= |log| && Exact(log[..from], from, m, info)
    requires forall n :: from <= n < k ==> n in backend && backend[n].DataRec? && backend[n] == log[n]
    ensures Exact(log[..k], k, Replay(backend, m, from, k), ReplayInfo(backend, m, info, from, k))
    decreases k
  {
    hide Exact, ApplyPieces, AddObject;
    if from < k {
      ReplayExact(log, backend, m, info, from, k - 1);
      assert backend[k - 1] == log[k - 1];
      assert log[..k] == log[..k - 1] + [log[k - 1]];
      ExactIssue(log[..k - 1], Replay(backend, m, from, k - 1), ReplayInfo(backend, m, info, from, k - 1), log[k - 1].obj);
    }
  }

  lemma {:induction false} RecoverPointInLog(cfg: Config, s: State)
    requires Accounted(cfg, s)
    ensures 0 < RecoverPoint(s) <= |s.log| && (s.checkpoints != [] ==> HasCkpt(s) && LastCkpt(s) < RecoverPoint(s))
  {
    hide Exact, RecOk, GcOk, QueueOk;
    if s.checkpoints != [] {
      var c, k := LastCkpt(s), RecoverPoint(s);
      assert k > c + 1 ==> k - 1 in s.backend;
    }
  }

  lemma {:induction false} RecoveredExact(cfg: Config, s: State)
    requires Accounted(cfg, s)
    ensures var k := RecoverPoint(s);
            0 < k <= |s.log| && (s.checkpoints != [] ==> HasCkpt(s)) && Exact(s.log[..k], k, RecoveredMap(s), RecoveredInfo(s))
  {
    RecoverPointInLog(cfg, s);
    if s.checkpoints != [] {
      var c, k := LastCkpt(s), RecoverPoint(s);
      assert RecOk(cfg, s.log, c);
      var r := s.log[c];
      ExactPrefix(s.log, c, c + 1, r.omap, r.info);
      ReplayExact(s.log, s.backend, r.omap, r.info, c + 1, k);
    }
  }

  lemma {:induction false} CrashAccounted(cfg: Config, s: State)
    requires Accounted(cfg, s) && (s.checkpoints != [] ==> HasCkpt(s)) && CleanTail(cfg, s)
    ensures Accounted(cfg, DoCrash(cfg, s))
  {
    RecoveredExact(cfg, s);
    RecoverPointInLog(cfg, s);
    LogOkPrefix(cfg, s.log, RecoverPoint(s));
    hide Exact, RecOk, LogOk;
    var k, s' := RecoverPoint(s), DoCrash(cfg, s);
    assert StoreOk(s'.log, s'.backend, s'.inflight);
  }

  // ---- a stop request ----

  /** Nothing is mapped any more to the objects of the cycle. */
  ghost predicate StopClean(s: State) {
    s.gc.Copying? && forall n :: n in s.gc.objs && n in s.info ==> s.info[n].live == 0
  }

  /** A stop request ends the wait for the cycle's requests and erases its rows: every mapped sector keeps its row
      exactly when nothing is mapped to those objects. */
  lemma {:induction false} StopExact(cfg: Config, s: State)
    requires Accounted(cfg, s) && Enabled(cfg, s, GcStop)
    ensures var s' := Do(cfg, s, GcStop); Exact(s'.log, |s'.log|, s'.objmap, s'.info) <==> StopClean(s)
  {
    hide LogOk, StoreOk, QueueOk, GcOk, ValidPtr;
    if StopClean(s) {
      StoppedUnreferenced(s);
      ExactWithout(s, s.gc.objs);
    } else {
      var n :| n in s.gc.objs && n in s.info && s.info[n].live != 0;
      CountZero(s.objmap, n);
      var a :| a in s.objmap && s.objmap[a].ObjPtr? && s.objmap[a].obj == n;
    }
  }

  lemma {:induction false} StoppedUnreferenced(s: State)
    requires Exact(s.log, |s.log|, s.objmap, s.info) && StopClean(s)
    ensures forall n :: n in s.gc.objs ==> Unreferenced(s.objmap, n)
  {
    forall n | n in s.gc.objs ensures Unreferenced(s.objmap, n) {
      CountZero(s.objmap, n);
      assert n !in s.info ==> forall a :: a in s.objmap ==> s.objmap[a].obj != n;
    }
  }

  lemma {:induction false} GcStopAccounted(cfg: Config, s: State)
    requires Accounted(cfg, s) && Enabled(cfg, s, GcStop) && StopClean(s)
    ensures Accounted(cfg, Do(cfg, s, GcStop))
  {
    StopExact(cfg, s);
    hide Exact, EntriesOk, RecOk;
  }

  /** A checkpoint taken right after the stop keeps the damage: what the image recovers from it has the map as it was, and
      its table is exact exactly when the stop erased no row in use. */
  lemma {:induction false} StopRecovered(cfg: Config, s: State)
    requires Accounted(cfg, s) && Enabled(cfg, s, GcStop) && !s.publishing && s.queue != [] && s.queue[0].CkptReq?
    ensures var u := DoPublish(DoCkpt(Do(cfg, s, GcStop)));
            && HasCkpt(u) && RecoveredMap(u) == s.objmap && RecoveredInfo(u) == s.info - s.gc.objs
            && (Exact(u.log, |u.log|, RecoveredMap(u), RecoveredInfo(u)) <==> StopClean(s))
            && (!StopClean(s) ==> exists a :: a in RecoveredMap(u) && RecoveredMap(u)[a].ObjPtr? && RecoveredMap(u)[a].obj !in RecoveredInfo(u))
  {
    hide LogOk, QueueOk, GcOk, Exact, BatchOk;
    StopExact(cfg, s);
    var t := Do(cfg, s, GcStop);
    assert |s.log| !in s.backend && |s.log| + 1 !in s.backend;
    NamedNow(t);
    var u, r := DoPublish(DoCkpt(t)), CkptRec(t.objmap, t.info);
    ExactLonger(t.log, r, t.objmap, t.info);
    if !StopClean(s) {
      var a := RowLost(s);
    }
  }

  /** What a checkpoint that has just been named recovers. */
  lemma {:induction false} NamedNow(t: State)
    requires t.queue != [] && |t.log| + 1 !in t.backend
    ensures var u := DoPublish(DoCkpt(t));
            && u.log == t.log + [CkptRec(t.objmap, t.info)] && HasCkpt(u) && RecoveredMap(u) == t.objmap && RecoveredInfo(u) == t.info
  {
    var u, c := DoPublish(DoCkpt(t)), |t.log|;
    assert LastCkpt(u) == c && c in u.backend && c + 1 !in u.backend;
    assert RecoverPoint(u) == c + 1;
  }

  lemma {:induction false} ExactLonger(log: seq<Rec>, r: Rec, m: map<int, Ptr>, info: map<int, Info>)
    requires r.CkptRec?
    ensures Exact(log + [r], |log| + 1, m, info) <==> Exact(log, |log|, m, info)
  {
    var log' := log + [r];
    hide Total, Payload, Count;
    assert forall n :: 0 <= n < |log| ==> log'[n] == log[n];
  }

  lemma {:induction false} RowLost(s: State) returns (a: int)
    requires Exact(s.log, |s.log|, s.objmap, s.info) && s.gc.Copying? && !StopClean(s)
    ensures a in s.objmap && s.objmap[a].ObjPtr? && s.objmap[a].obj !in s.info - s.gc.objs
  {
    hide ValidPtr;
    var n :| n in s.gc.objs && n in s.info && s.info[n].live != 0;
    CountZero(s.objmap, n);
    a :| a in s.objmap && s.objmap[a].ObjPtr? && s.objmap[a].obj == n;
  }

  // ---- runs ----

  /** A crash leaves nothing of the abandoned tail behind, and a stop erases no row that is in use. */
  ghost predicate Clean(cfg: Config, s: State, step: Step) {
    (step.Crash? ==> CleanTail(cfg, s)) && (step.GcStop? ==> StopClean(s))
  }

  lemma {:induction false} StepAccounted(cfg: Config, s: State, step: Step)
    requires Accounted(cfg, s) && Enabled(cfg, s, step) && Clean(cfg, s, step)
    ensures Accounted(cfg, Do(cfg, s, step))
  {
    match step
    case Append(w, addr) => AppendAccounted(cfg, s, w, addr);
    case Flush(addr) => EnqueueAccounted(cfg, s, addr, FlushReq(|s.history|));
    case Checkpoint(addr) => EnqueueAccounted(cfg, s, addr, CkptReq);
    case WorkPut => WorkPutAccounted(cfg, s);
    case WorkGc(pieces) => WorkGcAccounted(cfg, s, pieces);
    case WorkCkpt => WorkCkptAccounted(cfg, s);
    case Publish => PublishAccounted(cfg, s);
    case WorkFlush => WorkFlushAccounted(cfg, s);
    case Complete(n) => CompleteAccounted(cfg, s, n);
    case GcStart(objs, todo) => GcStartAccounted(cfg, s, objs, todo);
    case GcSubmit => GcSubmitAccounted(cfg, s);
    case GcFinish => GcFinishAccounted(cfg, s);
    case GcDelete(n) => GcDeleteAccounted(cfg, s, n);
    case GcAbort =>
    case GcStop => GcStopAccounted(cfg, s);
    case Reap(n) => ReapAccounted(cfg, s, n);
    case Trim(base, limit) => TrimAccounted(cfg, s, base, limit);
    case Crash => CrashAccounted(cfg, s);
  }

  /** No crash of the run leaves an object of the abandoned tail behind, and no stop erases a row that is in use. */
  ghost predicate CleanRun(cfg: Config, s: State, steps: seq<Step>)
    decreases |steps|
  {
    steps != [] && Enabled(cfg, s, steps[0]) ==>
      Clean(cfg, s, steps[0]) && CleanRun(cfg, Do(cfg, s, steps[0]), steps[1..])
  }

  lemma {:induction false} RunAccounted(cfg: Config, s: State, steps: seq<Step>, t: State)
    requires Accounted(cfg, s) && Run(cfg, s, steps, t) && CleanRun(cfg, s, steps)
    ensures Accounted(cfg, t)
    decreases |steps|
  {
    if steps != [] {
      StepAccounted(cfg, s, steps[0]);
      RunAccounted(cfg, Do(cfg, s, steps[0]), steps[1..], t);
    }
  }

  lemma {:induction false} InitAccounted(cfg: Config, addr: int)
    ensures Accounted(cfg, Init(addr))
  {
  }

  /** After every run the live count of every tracked object is the number of sectors mapped to it. */
  lemma {:induction false} ExactLiveCounts(cfg: Config, addr: int, steps: seq<Step>, t: State)
    requires Run(cfg, Init(addr), steps, t) && CleanRun(cfg, Init(addr), steps)
    ensures forall n :: n in t.info ==> t.info[n].live == Count(t.objmap, n) >= 0
    ensures forall n :: n in t.info ==> (t.info[n].live == 0 <==> Unreferenced(t.objmap, n))
    ensures forall a :: a in t.objmap ==> t.objmap[a].ObjPtr? && t.objmap[a].obj in t.info
  {
    InitAccounted(cfg, addr);
    RunAccounted(cfg, Init(addr), steps, t);
    forall n | n in t.info ensures t.info[n].live == 0 <==> Unreferenced(t.objmap, n) {
      CountZero(t.objmap, n);
    }
  }

  /** Every object ever written is within the size bound, collected ones included. */
  lemma {:induction false} ObjectSizeBound(cfg: Config, addr: int, steps: seq<Step>, t: State, n: int)
    requires Run(cfg, Init(addr), steps, t) && CleanRun(cfg, Init(addr), steps) && cfg.pc < 100
    requires n in t.backend && t.backend[n].DataRec?
    ensures Total(t.backend[n].obj.pieces) * (100 - cfg.pc) <= 100 * cfg.max
  {
    InitAccounted(cfg, addr);
    RunAccounted(cfg, Init(addr), steps, t);
    assert RecOk(cfg, t.log, n);
  }
}
