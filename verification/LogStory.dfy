/** The log tells the whole story: the running map is its replay, and every prefix of it is the disk after
    the client writes in that prefix. */
module LogStory {
  import opened Extents
  import opened Volume
  import opened Machine
  import opened Accounting
  import opened AccountingSteps
  import opened CopiedData

  function ReqWrites(r: Req): seq<Write> {
    if r.PutReq? then r.batch.writes else []
  }

  /** The client writes waiting on the queue, in order. */
  ghost function QueueWrites(q: seq<Req>): seq<Write> {
    if q == [] then [] else QueueWrites(q[..|q| - 1]) + ReqWrites(q[|q| - 1])
  }

  lemma {:induction false} QueueWritesHead(q: seq<Req>)
    requires q != []
    ensures QueueWrites(q) == ReqWrites(q[0]) + QueueWrites(q[1..])
  {
    if |q| > 1 {
      var f := q[..|q| - 1];
      QueueWritesHead(f);
      assert q[1..][..|q| - 2] == f[1..];
    }
  }

  lemma {:induction false} QueueWritesSnoc(q: seq<Req>, r: Req)
    ensures QueueWrites(q + [r]) == QueueWrites(q) + ReqWrites(r)
  {
    assert (q + [r])[..|q|] == q;
  }

  /** The running map and every checkpoint are replays of the log. */
  ghost predicate Replayed(log: seq<Rec>, m: map<int, Ptr>) {
    && m == MapAt(log, |log|)
    && (forall n :: 0 <= n < |log| && log[n].CkptRec? ==> log[n].omap == MapAt(log, n))
  }

  /** Every prefix of the log stands for the disk after the client writes in it. */
  ghost predicate Faithful(log: seq<Rec>) {
    forall k :: 0 <= k <= |log| ==> Agree(log, MapAt(log, k), DiskAfter(LogWrites(log, k)))
  }

  ghost predicate Logged(cfg: Config, s: State) {
    Storied(cfg, s) && Truthful(s.log, s.queue, Todo(s.gc))
  }

  ghost predicate Storied(cfg: Config, s: State) {
    && Accounted(cfg, s)
    && Replayed(s.log, s.objmap) && Faithful(s.log)
    && s.history == LogWrites(s.log, |s.log|) + QueueWrites(s.queue) + s.current.writes
  }

  // ---- the log grows ----

  lemma {:induction false} FaithfulMore(log: seq<Rec>, r: Rec)
    requires Faithful(log)
    requires Agree(log + [r], MapAt(log + [r], |log| + 1), DiskAfter(LogWrites(log + [r], |log| + 1)))
    ensures Faithful(log + [r])
  {
    hide MapAt, LogWrites, Agree, DiskAfter;
    var log' := log + [r];
    forall k | 0 <= k <= |log'| ensures Agree(log', MapAt(log', k), DiskAfter(LogWrites(log', k))) {
      if k <= |log| {
        assert log[..k] == log'[..k];
        LogSame(log, log', k);
        AgreeMore(log, [r], MapAt(log, k), DiskAfter(LogWrites(log, k)));
      }
    }
  }

  lemma {:induction false} ReplayedMore(log: seq<Rec>, m: map<int, Ptr>, r: Rec, m': map<int, Ptr>)
    requires Replayed(log, m)
    requires r.DataRec? ==> m' == ApplyPieces(m, |log|, r.obj.hdr, r.obj.pieces)
    requires r.CkptRec? ==> r.omap == m && m' == m
    ensures Replayed(log + [r], m') && MapAt(log + [r], |log|) == m
    ensures LogWrites(log + [r], |log|) == LogWrites(log, |log|)
    ensures LogWrites(log + [r], |log| + 1) == LogWrites(log, |log|) + RecWrites(r)
  {
    hide ApplyPieces, MapAt, LogWrites;
    var log' := log + [r];
    forall n | 0 <= n <= |log| ensures MapAt(log', n) == MapAt(log, n) && LogWrites(log', n) == LogWrites(log, n) {
      assert log[..n] == log'[..n];
      LogSame(log, log', n);
    }
    LogLast(log', |log|);
  }

  lemma {:induction false} LogLast(log: seq<Rec>, k: int)
    requires 0 <= k < |log|
    ensures MapAt(log, k + 1) == if log[k].DataRec? then ApplyPieces(MapAt(log, k), k, log[k].obj.hdr, log[k].obj.pieces) else MapAt(log, k)
    ensures LogWrites(log, k + 1) == LogWrites(log, k) + RecWrites(log[k])
  {
    hide ApplyPieces;
  }

  /** A client batch advances the disk by its writes. */
  lemma {:induction false} FaithfulPut(log: seq<Rec>, m: map<int, Ptr>, o: DataObj)
    requires Faithful(log) && Replayed(log, m) && !o.isGc
    ensures Faithful(log + [DataRec(o)])
  {
    hide ApplyPieces, Agree;
    var r, n := DataRec(o), |log|;
    var log', ws := log + [r], LogWrites(log, n);
    ReplayedMore(log, m, r, ApplyPieces(m, n, o.hdr, o.pieces));
    assert Agree(log, m, DiskAfter(ws));
    AgreeMore(log, [r], m, DiskAfter(ws));
    assert o.pieces[..|o.pieces|] == o.pieces;
    AgreePieces(log', n, m, DiskAfter(ws), |o.pieces|);
    ApplyWritesConcat(map[], ws, o.pieces);
    FaithfulMore(log, r);
  }

  lemma {:induction false} FaithfulCkpt(log: seq<Rec>, m: map<int, Ptr>, r: Rec)
    requires Faithful(log) && Replayed(log, m) && r.CkptRec? && r.omap == m
    ensures Faithful(log + [r])
  {
    hide Agree;
    hide LogWrites, MapAt;
    ReplayedMore(log, m, r, m);
    var ws := LogWrites(log, |log|);
    assert ws + [] == ws;
    AgreeMore(log, [r], m, DiskAfter(ws));
    FaithfulMore(log, r);
  }

  /** A collected object stands for no new writes and changes nothing. */
  lemma {:induction false} FaithfulGc(cfg: Config, s: State, ps: seq<Write>)
    requires Accounted(cfg, s) && GcReady(s, ps) && Faithful(s.log) && Replayed(s.log, s.objmap)
    requires Truthful(s.log, s.queue, Todo(s.gc))
    ensures Faithful(s.log + [DataRec(DataObj(HdrSectors(|ps|), ps, true))])
  {
    hide LogWrites, MapAt, ApplyPieces, AddObject, Agree, QueueOk, Truthful, SameData;
    var r, ws := DataRec(DataObj(HdrSectors(|ps|), ps, true)), LogWrites(s.log, |s.log|);
    KeptData(cfg, s, ps);
    GcAgrees(s, ps, DiskAfter(ws));
    ReplayedMore(s.log, s.objmap, r, DoGc(s, ps).objmap);
    assert ws + [] == ws;
    FaithfulMore(s.log, r);
  }

  // ---- the steps ----

  lemma {:induction false} AppendLogged(cfg: Config, s: State, w: Write, addr: int)
    requires Storied(cfg, s) && 0 < |w.data| <= cfg.max
    ensures Storied(cfg, DoAppend(cfg, s, w, addr))
  {
    hide Accounted, Replayed, Faithful, LogWrites, QueueWrites, BufferWrite;
    AppendAccounted(cfg, s, w, addr);
    QueueWritesSnoc(s.queue, PutReq(s.current));
    var s' := DoAppend(cfg, s, w, addr);
    var a, b, c := LogWrites(s.log, |s.log|), QueueWrites(s.queue), s.current.writes;
    assert a + b + c + [w] == a + b + (c + [w]) && a + b + c + [w] == a + (b + c) + [w];
    assert s'.history == a + QueueWrites(s'.queue) + s'.current.writes;
  }

  lemma {:induction false} EnqueueLogged(cfg: Config, s: State, addr: int, r: Req)
    requires Storied(cfg, s) && (r.FlushReq? || r.CkptReq?)
    ensures Storied(cfg, DoEnqueue(s, addr, r))
  {
    hide Accounted, Replayed, Faithful, LogWrites, QueueWrites;
    EnqueueAccounted(cfg, s, addr, r);
    var t := if s.current.writes != [] then Seal(s, addr) else s;
    QueueWritesSnoc(s.queue, PutReq(s.current));
    QueueWritesSnoc(t.queue, r);
    var a, b, c := LogWrites(s.log, |s.log|), QueueWrites(s.queue), s.current.writes;
    assert a + b + c == a + (b + c) + [];
    assert QueueWrites(t.queue) + [] == QueueWrites(t.queue);
  }

  /** Numbering an object and sending it on its way, once its contents are known to be right. */
  lemma {:induction false} IssueLogged(cfg: Config, s: State, o: DataObj, put: Put)
    requires Storied(cfg, s) && s.queue != [] && Accounted(cfg, Issue(s, o, put))
    requires Faithful(s.log + [DataRec(o)]) && RecWrites(DataRec(o)) == ReqWrites(s.queue[0])
    ensures Storied(cfg, Issue(s, o, put))
  {
    hide Accounted, Faithful, ApplyPieces, AddObject, Replayed, LogWrites, QueueWrites;
    ReplayedMore(s.log, s.objmap, DataRec(o), Issue(s, o, put).objmap);
    QueueWritesHead(s.queue);
    var a, b, c := LogWrites(s.log, |s.log|), ReqWrites(s.queue[0]), QueueWrites(s.queue[1..]);
    assert a + (b + c) == a + b + c;
  }

  lemma {:induction false} WorkPutLogged(cfg: Config, s: State)
    requires Storied(cfg, s) && !s.publishing && s.queue != [] && s.queue[0].PutReq?
    ensures Storied(cfg, DoPut(s))
  {
    hide Accounted, Faithful, LogWrites, ApplyPieces, AddObject, Replayed;
    WorkPutAccounted(cfg, s);
    var b := s.queue[0].batch;
    var o := DataObj(HdrSectors(|b.writes|), b.writes, false);
    FaithfulPut(s.log, s.objmap, o);
    IssueLogged(cfg, s, o, BatchPut(b.addr));
  }

  lemma {:induction false} WorkGcLogged(cfg: Config, s: State, ps: seq<Write>)
    requires Logged(cfg, s) && GcReady(s, ps)
    ensures Storied(cfg, DoGc(s, ps))
  {
    hide Truthful, Accounted, Faithful, LogWrites, ApplyPieces, AddObject, Replayed, Revalidated;
    WorkGcAccounted(cfg, s, ps);
    FaithfulGc(cfg, s, ps);
    IssueLogged(cfg, s, DataObj(HdrSectors(|ps|), ps, true), GcPut);
  }

  lemma {:induction false} WorkCkptLogged(cfg: Config, s: State)
    requires Storied(cfg, s) && !s.publishing && s.queue != [] && s.queue[0].CkptReq?
    ensures Storied(cfg, DoCkpt(s))
  {
    hide Accounted, QueueWrites, Faithful, Replayed, LogWrites;
    WorkCkptAccounted(cfg, s);
    var r := CkptRec(s.objmap, s.info);
    ReplayedMore(s.log, s.objmap, r, s.objmap);
    FaithfulCkpt(s.log, s.objmap, r);
    QueueWritesHead(s.queue);
    var a, c := LogWrites(s.log, |s.log|), QueueWrites(s.queue[1..]);
    assert a + [] == a && [] + c == c;
  }

  /** Steps that leave the log, the map and the writes under way alone. */
  lemma {:induction false} SameLogged(cfg: Config, s: State, s': State)
    requires Storied(cfg, s) && Accounted(cfg, s')
    requires s'.log == s.log && s'.objmap == s.objmap && s'.history == s.history && s'.current.writes == s.current.writes
    requires QueueWrites(s'.queue) == QueueWrites(s.queue)
    ensures Storied(cfg, s')
  {
    hide Accounted, QueueWrites, Faithful, Replayed, LogWrites;
  }

  lemma {:induction false} QueueSameWrites(q: seq<Req>, r: Req)
    requires !r.PutReq?
    ensures QueueWrites(q + [r]) == QueueWrites(q)
    ensures q != [] && !q[0].PutReq? ==> QueueWrites(q[1..]) == QueueWrites(q)
  {
    QueueWritesSnoc(q, r);
    if q != [] {
      QueueWritesHead(q);
    }
    assert QueueWrites(q) + [] == QueueWrites(q);
  }

  // ---- replay equals execution ----

  lemma {:induction false} ReplayIsMapAt(log: seq<Rec>, backend: map<int, Rec>, m: map<int, Ptr>, from: int, k: int)
    requires 0 < from <= k <= |log| && m == MapAt(log, from)
    requires forall n :: from <= n < k ==> n in backend && backend[n].DataRec? && backend[n] == log[n]
    ensures Replay(backend, m, from, k) == MapAt(log, k)
    decreases k
  {
    hide ApplyPieces;
    if from < k {
      ReplayIsMapAt(log, backend, m, from, k - 1);
      assert backend[k - 1] == log[k - 1];
    }
  }

  /** The recovered map is the map the running system had when it had numbered the records below the recovery point. */
  lemma {:induction false} RecoveredIsReplay(cfg: Config, s: State)
    requires Logged(cfg, s)
    ensures 0 < RecoverPoint(s) <= |s.log| && (s.checkpoints != [] ==> HasCkpt(s))
    ensures RecoveredMap(s) == MapAt(s.log, RecoverPoint(s))
  {
    hide LogOk, QueueOk, GcOk, Faithful, Truthful, LogWrites, QueueWrites, Exact, MapAt, Replay;
    RecoverPointInLog(cfg, s);
    FirstRec(cfg, s);
    if s.checkpoints != [] {
      NamedReplay(s.log, s.backend, s.objmap, LastCkpt(s), RecoverPoint(s));
    }
  }

  lemma {:induction false} CkptSame(log: seq<Rec>, c: int)
    requires 0 <= c < |log| && log[c].CkptRec?
    ensures MapAt(log, c + 1) == MapAt(log, c)
  {
  }

  /** The map of a checkpoint, with the objects after it replayed. */
  lemma {:induction false} NamedReplay(log: seq<Rec>, backend: map<int, Rec>, m: map<int, Ptr>, c: int, k: int)
    requires Replayed(log, m) && 0 <= c < k <= |log| && c in backend && backend[c] == log[c] && log[c].CkptRec?
    requires forall n :: c < n < k ==> n in backend && backend[n].DataRec? && backend[n] == log[n]
    ensures Replay(backend, backend[c].omap, c + 1, k) == MapAt(log, k)
  {
    hide MapAt, Replay;
    assert log[c].omap == MapAt(log, c);
    CkptSame(log, c);
    ReplayIsMapAt(log, backend, log[c].omap, c + 1, k);
  }

  lemma {:induction false} FirstRec(cfg: Config, s: State)
    requires LogOk(cfg, s.log)
    ensures s.log != [] && s.log[0].CkptRec? && MapAt(s.log, 1) == map[]
  {
    hide RecOk;
    assert MapAt(s.log, 0) == map[];
  }

  lemma {:induction false} MapAtBelow(log: seq<Rec>, k: int, a: int)
    requires 0 <= k <= |log| && a in MapAt(log, k)
    ensures MapAt(log, k)[a].ObjPtr? && 0 <= MapAt(log, k)[a].obj < k
  {
    if log[k - 1].DataRec? {
      var o := log[k - 1].obj;
      PiecesKeepOthers(MapAt(log, k - 1), k - 1, o.hdr, o.pieces, a);
    }
    if a in MapAt(log, k - 1) {
      MapAtBelow(log, k - 1, a);
    }
  }

  lemma {:induction false} FaithfulPrefix(log: seq<Rec>, k: int)
    requires Faithful(log) && 0 <= k <= |log|
    ensures Faithful(log[..k])
  {
    hide MapAt, LogWrites, DiskAfter;
    forall j | 0 <= j <= k ensures Agree(log[..k], MapAt(log[..k], j), DiskAfter(LogWrites(log[..k], j))) {
      assert log[..k][..j] == log[..j];
      LogSame(log, log[..k], j);
      forall a | a in MapAt(log, j) ensures MapAt(log, j)[a].ObjPtr? && MapAt(log, j)[a].obj < k {
        MapAtBelow(log, j, a);
      }
      AgreeFewer(log, k, MapAt(log, j), DiskAfter(LogWrites(log, j)));
    }
  }

  lemma {:induction false} ReplayedPrefix(log: seq<Rec>, m: map<int, Ptr>, k: int)
    requires Replayed(log, m) && 0 <= k <= |log|
    ensures Replayed(log[..k], MapAt(log, k))
  {
    hide ApplyPieces;
    forall n | 0 <= n <= k ensures MapAt(log[..k], n) == MapAt(log, n) {
      assert log[..k][..n] == log[..n];
      LogSame(log, log[..k], n);
    }
  }

  lemma {:induction false} CrashLogged(cfg: Config, s: State)
    requires Logged(cfg, s) && (s.checkpoints != [] ==> HasCkpt(s)) && CleanTail(cfg, s)
    ensures Logged(cfg, DoCrash(cfg, s))
  {
    hide Storied, Truthful, CleanTail, HasCkpt;
    CrashStoried(cfg, s);
    CrashTruthful(cfg, s);
    hide DoCrash;
  }

  lemma {:induction false} CrashStoried(cfg: Config, s: State)
    requires Logged(cfg, s) && (s.checkpoints != [] ==> HasCkpt(s)) && CleanTail(cfg, s)
    ensures Storied(cfg, DoCrash(cfg, s))
  {
    hide Truthful, Accounted, Replayed, Faithful, LogWrites, RecoveredMap, RecoveredInfo, MapAt;
    var k := RecoverPoint(s);
    RecoveredIsReplay(cfg, s);
    CrashAccounted(cfg, s);
    FaithfulPrefix(s.log, k);
    ReplayedPrefix(s.log, s.objmap, k);
    assert LogWrites(s.log[..k], k) + [] + [] == LogWrites(s.log[..k], k);
  }

  /** Every step but a trim, which the log does not record, keeps the story, if the collector reads only what is there. */
  lemma {:induction false} StepLogged(cfg: Config, s: State, step: Step)
    requires Logged(cfg, s) && Enabled(cfg, s, step) && !step.Trim? && Clean(cfg, s, step)
    requires step.GcStart? ==> DurableChoice(s, step.objs)
    ensures Logged(cfg, Do(cfg, s, step))
  {
    hide Accounted, Replayed, Faithful, LogWrites, QueueWrites, DoCrash, Issue, Truthful;
    StepStoried(cfg, s, step);
    if step.Crash? {
      CrashTruthful(cfg, s);
    } else {
      StepTruthful(cfg, s, step);
    }
  }

  lemma {:induction false} CrashTruthful(cfg: Config, s: State)
    requires s.checkpoints != [] ==> HasCkpt(s)
    ensures var s' := DoCrash(cfg, s); Truthful(s'.log, s'.queue, Todo(s'.gc))
  {
    hide RecoveredMap, RecoveredInfo, LogWrites;
  }

  lemma {:induction false} StepStoried(cfg: Config, s: State, step: Step)
    requires Logged(cfg, s) && Enabled(cfg, s, step) && !step.Trim? && Clean(cfg, s, step)
    ensures Storied(cfg, Do(cfg, s, step))
  {
    hide Accounted, Replayed, Faithful, LogWrites, QueueWrites, Issue, Truthful;
    match step
    case Append(w, addr) => AppendLogged(cfg, s, w, addr);
    case Flush(addr) => EnqueueLogged(cfg, s, addr, FlushReq(|s.history|));
    case Checkpoint(addr) => EnqueueLogged(cfg, s, addr, CkptReq);
    case WorkPut => WorkPutLogged(cfg, s);
    case WorkGc(pieces) => WorkGcLogged(cfg, s, pieces);
    case WorkCkpt => WorkCkptLogged(cfg, s);
    case Crash => CrashStoried(cfg, s);
    case _ => OtherLogged(cfg, s, step);
  }

  lemma {:induction false} OtherLogged(cfg: Config, s: State, step: Step)
    requires Storied(cfg, s) && Enabled(cfg, s, step) && Clean(cfg, s, step)
    requires step.Publish? || step.WorkFlush? || step.Complete? || step.GcStart? || step.GcSubmit? || step.GcFinish?
          || step.GcDelete? || step.GcAbort? || step.GcStop? || step.Reap?
    ensures Storied(cfg, Do(cfg, s, step))
  {
    hide Accounted, Replayed, Faithful, LogWrites, QueueWrites;
    StepAccounted(cfg, s, step);
    QueueSameWrites(s.queue, if step.GcSubmit? then GcReq(s.gc.todo[0]) else CkptReq);
    SameLogged(cfg, s, Do(cfg, s, step));
  }
}
