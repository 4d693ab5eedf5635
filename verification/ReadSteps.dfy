/** Every step keeps reads coherent. */
module ReadSteps {
  import opened Extents
  import opened Volume
  import opened Machine
  import opened Accounting
  import opened AccountingSteps
  import opened CopiedData
  import opened LogStory
  import opened ReadCoherence

  /** Every object the running map points into is durable or on its way. */
  ghost predicate Held(s: State) {
    forall a :: a in s.objmap ==> s.objmap[a].ObjPtr? && (s.objmap[a].obj in s.backend || s.objmap[a].obj in s.inflight)
  }

  ghost predicate Coherent(cfg: Config, s: State) {
    Logged(cfg, s) && Held(s) && Tracked(cfg, s)
  }

  /** The buffer map is what the batches in memory make it, and no two of their buffers touch. */
  ghost predicate Tracked(cfg: Config, s: State) {
    s.bufmap == Buffered(s) && BuffersApart(cfg, s) && SmallPuts(cfg, s.log, s.inflight)
  }

  // ---- the buffer map ----

  lemma {:induction false} EnterSnoc(m: map<int, Ptr>, b: Batch, w: Write)
    ensures Enter(m, b.addr, b.writes + [w]) == BufferWrite(Enter(m, b.addr, b.writes), b, w)
  {
    assert (b.writes + [w])[..|b.writes|] == b.writes;
  }

  /** Sealing the current batch moves it from the end of the list to the end of the queue. */
  lemma {:induction false} SealBuffered(s: State, addr: int)
    ensures Buffered(Seal(s, addr)) == Buffered(s)
  {
    hide BufLog;
    BufQueueSnoc(BufLog(s.log, s.inflight, |s.log|), s.queue, PutReq(s.current));
  }

  lemma {:induction false} AppendBuffered(cfg: Config, s: State, w: Write, addr: int)
    requires s.bufmap == Buffered(s)
    ensures var s' := DoAppend(cfg, s, w, addr); s'.bufmap == Buffered(s')
  {
    hide BufLog, BufQueue, Enter, BufferWrite;
    var t := if Total(s.current.writes) + |w.data| <= cfg.max then s else Seal(s, addr);
    SealBuffered(s, addr);
    EnterSnoc(BufQueue(BufLog(t.log, t.inflight, |t.log|), t.queue), t.current, w);
  }

  lemma {:induction false} EnqueueBuffered(s: State, addr: int, r: Req)
    requires s.bufmap == Buffered(s) && !r.PutReq?
    ensures var s' := DoEnqueue(s, addr, r); s'.bufmap == Buffered(s')
  {
    hide BufLog, BufQueue, Enter;
    SealBuffered(s, addr);
    var t := if s.current.writes != [] then Seal(s, addr) else s;
    BufQueueSnoc(BufLog(t.log, t.inflight, |t.log|), t.queue, r);
  }

  lemma {:induction false} PutBuffered(s: State)
    requires s.bufmap == Buffered(s) && s.queue != [] && s.queue[0].PutReq?
    requires forall n :: n in s.inflight ==> n < |s.log|
    ensures var s' := DoPut(s); s'.bufmap == Buffered(s')
  {
    hide Enter, BufQueue, ApplyPieces, AddObject;
    var s', n := DoPut(s), |s.log|;
    BufLogSame(s.log, s'.log, s.inflight, s'.inflight, n);
    assert BufLog(s'.log, s'.inflight, n + 1) == Enter(BufLog(s.log, s.inflight, n), s.queue[0].batch.addr, s.queue[0].batch.writes);
    BufQueueHead(BufLog(s.log, s.inflight, n), s.queue);
  }

  /** A record that is no client batch, and a request that is none either. */
  lemma {:induction false} OtherBuffered(s: State, s': State)
    requires s.bufmap == Buffered(s) && s.queue != [] && !s.queue[0].PutReq? && s'.queue == s.queue[1..]
    requires |s'.log| == |s.log| + 1 && s'.log[..|s.log|] == s.log
    requires !s'.log[|s.log|].DataRec? || s'.log[|s.log|].obj.isGc
    requires s'.bufmap == s.bufmap && s'.current == s.current
    requires forall n :: 0 <= n < |s.log| ==> (n in s.inflight <==> n in s'.inflight) && (n in s.inflight ==> s.inflight[n] == s'.inflight[n])
    ensures s'.bufmap == Buffered(s')
  {
    hide Enter, BufQueue;
    var n := |s.log|;
    assert forall i :: 0 <= i < n ==> s'.log[i] == s'.log[..n][i];
    BufLogSame(s.log, s'.log, s.inflight, s'.inflight, n);
    BufQueueHead(BufLog(s.log, s.inflight, n), s.queue);
  }

  lemma {:induction false} PopBuffered(s: State, s': State)
    requires s.bufmap == Buffered(s) && s'.bufmap == s.bufmap && s'.current == s.current && s'.log == s.log && s'.inflight == s.inflight
    requires (s.queue != [] && !s.queue[0].PutReq? && s'.queue == s.queue[1..])
          || (exists r :: s'.queue == s.queue + [r] && !r.PutReq?) || s'.queue == s.queue
    ensures s'.bufmap == Buffered(s')
  {
    hide Enter, BufQueue, BufLog;
    var m := BufLog(s.log, s.inflight, |s.log|);
    if s'.queue == s.queue {
    } else if s.queue != [] && !s.queue[0].PutReq? && s'.queue == s.queue[1..] {
      BufQueueHead(m, s.queue);
    } else {
      var r :| s'.queue == s.queue + [r] && !r.PutReq?;
      BufQueueSnoc(m, s.queue, r);
    }
  }

  lemma {:induction false} CompleteBuffered(cfg: Config, s: State, n: int)
    requires s.bufmap == Buffered(s) && BuffersApart(cfg, s) && SmallPuts(cfg, s.log, s.inflight)
    requires forall i :: 0 <= i < |s.queue| && s.queue[i].PutReq? ==> Total(s.queue[i].batch.writes) <= cfg.max
    requires Total(s.current.writes) <= cfg.max
    requires n in s.inflight && 0 <= n < |s.log| && s.log[n].DataRec? && (s.inflight[n].GcPut? ==> s.log[n].obj.isGc)
    ensures var s' := DoComplete(cfg, s, n); s'.bufmap == Buffered(s')
  {
    hide Enter, Drop, BufQueue;
    var s', m := DoComplete(cfg, s, n), BufLog(s.log, s.inflight, |s.log|);
    if s.inflight[n].GcPut? {
      BufLogGc(s.log, s.inflight, n, |s.log|);
    } else {
      var addr, ws := s.inflight[n].addr, s.log[n].obj.pieces;
      ApartSwap(cfg, s, addr, n);
      hide BuffersApart, BufLog;
      DropLog(cfg, s.log, s.inflight, n, |s.log|);
      DropQueue(cfg, m, s.queue, addr, ws);
      DropPastEnter(cfg, BufQueue(m, s.queue), addr, ws, s.current.addr, s.current.writes);
    }
  }

  lemma {:induction false} ApartSwap(cfg: Config, s: State, addr: int, n: int)
    requires BuffersApart(cfg, s) && n in s.inflight && s.inflight[n].BatchPut? && s.inflight[n].addr == addr
    ensures forall i :: 0 <= i < |s.queue| && s.queue[i].PutReq? ==> Apart(cfg, s.queue[i].batch.addr, addr)
    ensures Apart(cfg, s.current.addr, addr) && PutsApart(cfg, s.inflight)
  {
  }

  lemma {:induction false} BufLogGc(log: seq<Rec>, p: map<int, Put>, n: int, k: int)
    requires 0 <= k <= |log| && 0 <= n < |log| && log[n].DataRec? && log[n].obj.isGc
    ensures BufLog(log, p - {n}, k) == BufLog(log, p, k)
  {
    hide Enter, Leave;
    if k > 0 {
      BufLogGc(log, p, n, k - 1);
    }
  }

  // ---- buffers stay apart ----

  lemma {:induction false} SealApart(cfg: Config, s: State, addr: int)
    requires BuffersApart(cfg, s) && Fresh(cfg, s, addr)
    ensures BuffersApart(cfg, Seal(s, addr))
  {
    hide Apart, PutsApart;
    var q := s.queue;
    assert s.current.addr in Buffers(s);
    assert forall i :: 0 <= i < |q| && q[i].PutReq? ==> q[i].batch.addr in Buffers(s);
    assert forall n :: n in s.inflight && s.inflight[n].BatchPut? ==> s.inflight[n].addr in Buffers(s);
  }

  lemma {:induction false} PutApart(cfg: Config, s: State)
    requires BuffersApart(cfg, s) && s.queue != [] && s.queue[0].PutReq? && |s.log| !in s.inflight
    ensures BuffersApart(cfg, DoPut(s))
  {
    hide ApplyPieces, AddObject;
    var q := s.queue;
    assert forall i :: 0 <= i < |q| - 1 ==> q[1..][i] == q[i + 1];
  }

  /** The buffers in use afterwards were in use before. */
  lemma {:induction false} FewerApart(cfg: Config, s: State, s': State)
    requires BuffersApart(cfg, s) && s'.current.addr == s.current.addr
    requires forall n :: n in s'.inflight && s'.inflight[n].BatchPut? ==> n in s.inflight && s.inflight[n] == s'.inflight[n]
    requires (s.queue != [] && s'.queue == s.queue[1..]) || (exists r :: s'.queue == s.queue + [r] && !r.PutReq?) || s'.queue == s.queue
    ensures BuffersApart(cfg, s')
  {
    hide Apart;
    if s.queue != [] && s'.queue == s.queue[1..] {
      assert forall i :: 0 <= i < |s'.queue| ==> s'.queue[i] == s.queue[i + 1];
    } else if s'.queue != s.queue {
      var r :| s'.queue == s.queue + [r] && !r.PutReq?;
      assert forall i :: 0 <= i < |s'.queue| && s'.queue[i].PutReq? ==> i < |s.queue| && s'.queue[i] == s.queue[i];
    }
  }

  // ---- objects stay reachable ----

  lemma {:induction false} IssueHeld(cfg: Config, s: State, o: DataObj, put: Put)
    requires Held(s) && s.queue != []
    ensures Held(Issue(s, o, put))
  {
    hide ApplyPieces, AddObject;
    var s', n := Issue(s, o, put), |s.log|;
    forall a | a in s'.objmap
      ensures s'.objmap[a].ObjPtr? && (s'.objmap[a].obj in s'.backend || s'.objmap[a].obj in s'.inflight) {
      PiecesKeepOthers(s.objmap, n, o.hdr, o.pieces, a);
    }
  }

  lemma {:induction false} PublishHeld(cfg: Config, s: State)
    requires Accounted(cfg, s) && s.publishing && Held(s)
    ensures Held(DoPublish(s))
  {
    hide LogOk, QueueOk, GcOk;
    var s', cs := DoPublish(s), s.checkpoints + [|s.log| - 1];
    assert forall i :: 0 <= i < |cs| ==> cs[i] in s.backend && s.backend[cs[i]].CkptRec?;
    forall a | a in s.objmap ensures s.objmap[a].obj in s'.backend || s.objmap[a].obj in s'.inflight {
      assert ValidPtr(s.log, s.objmap[a]);
      assert s.objmap[a].obj !in cs;
    }
  }

  lemma {:induction false} DeleteHeld(s: State, s': State, n: int)
    requires Held(s) && Unreferenced(s.objmap, n) && s'.objmap == s.objmap && s'.backend == s.backend - {n} && s'.inflight == s.inflight
    ensures Held(s')
  {
  }

  /** Everything the recovered map points into is durable. */
  ghost predicate RecoveredHeld(s: State)
    requires s.checkpoints != [] ==> HasCkpt(s)
  {
    forall a :: a in RecoveredMap(s) ==> RecoveredMap(s)[a].ObjPtr? && RecoveredMap(s)[a].obj in s.backend
  }

  /** Trims are not logged, the collector must read what is there and not be stopped too early, and a crash has to be
      survivable; everything else may happen at any time. */
  ghost predicate ReadGuard(cfg: Config, s: State, step: Step)
    requires Enabled(cfg, s, step)
  {
    !step.Trim? && Clean(cfg, s, step) && (step.GcStart? ==> DurableChoice(s, step.objs)) && (step.Crash? ==> RecoveredHeld(s))
  }

  lemma {:induction false} CrashHeld(cfg: Config, s: State)
    requires Logged(cfg, s) && (s.checkpoints != [] ==> HasCkpt(s)) && CleanTail(cfg, s) && RecoveredHeld(s)
    ensures Held(DoCrash(cfg, s))
  {
    hide Logged, LogWrites, RecoveredInfo, MapAt, RecoveredMap;
    RecoveredIsReplay(cfg, s);
    var s', k := DoCrash(cfg, s), RecoverPoint(s);
    forall a | a in s'.objmap ensures s'.objmap[a].obj in s'.backend {
      MapAtBelow(s.log, k, a);
    }
  }

  lemma {:induction false} StepHeld(cfg: Config, s: State, step: Step)
    requires Logged(cfg, s) && Held(s) && Enabled(cfg, s, step) && ReadGuard(cfg, s, step)
    ensures Held(Do(cfg, s, step))
  {
    hide Accounted, Replayed, Faithful, Truthful, LogWrites, QueueWrites, Held, Issue, Revalidated, Snapshot, Fresh, NoGcPending,
      DoAppend, DoEnqueue, DoCkpt, DoPublish, DoFlushed, DoComplete, DoTrim, DoCrash, CleanTail, StopClean, DurableChoice, RecoveredHeld;
    match step
    case WorkPut =>
      var b := s.queue[0].batch;
      IssueHeld(cfg, s, DataObj(HdrSectors(|b.writes|), b.writes, false), BatchPut(b.addr));
    case WorkGc(ps) => IssueHeld(cfg, s, DataObj(HdrSectors(|ps|), ps, true), GcPut);
    case Publish => PublishHeld(cfg, s);
    case GcDelete(n) => DeletedHeld(cfg, s, n);
    case Reap(n) => ReapedHeld(cfg, s, n);
    case Crash => CrashHeld(cfg, s);
    case _ => OtherHeld(cfg, s, step);
  }

  lemma {:induction false} OtherHeld(cfg: Config, s: State, step: Step)
    requires Held(s) && Enabled(cfg, s, step)
    requires !(step.WorkPut? || step.WorkGc? || step.Publish? || step.GcDelete? || step.Reap? || step.Crash? || step.Trim?)
    ensures Held(Do(cfg, s, step))
  {
    hide Held, Drop, Snapshot, Fresh, NoGcPending, DoAppend, DoEnqueue;
    if step.Append? {
      AppendHeld(cfg, s, step.w, step.addr);
    } else if step.Flush? {
      EnqueueHeld(s, step.addr, FlushReq(|s.history|));
    } else if step.Checkpoint? {
      EnqueueHeld(s, step.addr, CkptReq);
    } else {
      SameHeld(s, Do(cfg, s, step));
    }
  }

  lemma {:induction false} AppendHeld(cfg: Config, s: State, w: Write, addr: int)
    requires Held(s)
    ensures Held(DoAppend(cfg, s, w, addr))
  {
    hide Held, BufferWrite, Total;
    SameHeld(s, DoAppend(cfg, s, w, addr));
  }

  lemma {:induction false} EnqueueHeld(s: State, addr: int, r: Req)
    requires Held(s)
    ensures Held(DoEnqueue(s, addr, r))
  {
    hide Held;
    SameHeld(s, DoEnqueue(s, addr, r));
  }

  lemma {:induction false} SameHeld(s: State, s': State)
    requires Held(s) && s'.objmap == s.objmap
    requires forall n :: n in s.backend || n in s.inflight ==> n in s'.backend || n in s'.inflight
    ensures Held(s')
  {
  }

  lemma {:induction false} DeletedHeld(cfg: Config, s: State, n: int)
    requires Accounted(cfg, s) && Held(s) && Enabled(cfg, s, GcDelete(n))
    ensures Held(Do(cfg, s, GcDelete(n)))
  {
    assert Unreferenced(s.objmap, n) by { hide LogOk, StoreOk, QueueOk, Exact, Unreferenced; }
    hide Accounted, Held;
    DeleteHeld(s, Do(cfg, s, GcDelete(n)), n);
  }

  lemma {:induction false} ReapedHeld(cfg: Config, s: State, n: int)
    requires Accounted(cfg, s) && Held(s) && Enabled(cfg, s, Reap(n))
    ensures Held(Do(cfg, s, Reap(n)))
  {
    hide LogOk, StoreOk, QueueOk, GcOk, Held;
    CountZero(s.objmap, n);
    assert Unreferenced(s.objmap, n);
    hide Accounted;
    DeleteHeld(s, Do(cfg, s, Reap(n)), n);
  }

  // ---- all together ----

  lemma {:induction false} InflightBelow(cfg: Config, s: State)
    requires Accounted(cfg, s)
    ensures forall n :: n in s.inflight ==> 0 <= n < |s.log|
    ensures forall n :: n in s.inflight && s.inflight[n].GcPut? ==> s.log[n].DataRec? && s.log[n].obj.isGc
    ensures Total(s.current.writes) <= cfg.max
    ensures forall i :: 0 <= i < |s.queue| && s.queue[i].PutReq? ==> Total(s.queue[i].batch.writes) <= cfg.max
  {
    hide LogOk, Exact, GcOk;
    forall i | 0 <= i < |s.queue| && s.queue[i].PutReq? ensures Total(s.queue[i].batch.writes) <= cfg.max {
      assert ReqOk(cfg, s.log, s.objmap, s.queue[i]);
    }
  }

  lemma {:induction false} StepBuffered(cfg: Config, s: State, step: Step)
    requires Accounted(cfg, s) && Tracked(cfg, s) && Enabled(cfg, s, step)
    ensures var s' := Do(cfg, s, step); s'.bufmap == Buffered(s')
  {
    hide Buffered, Drop, Revalidated, Snapshot, Fresh, ApplyPieces, AddObject, BuffersApart, SmallPuts, RecoveredMap, RecoveredInfo, LogWrites,
      NoGcPending, DoAppend, DoEnqueue, DoPut, DoComplete, DoTrim, DoCrash, DoPublish, DoFlushed;
    InflightBelow(cfg, s);
    hide Accounted;
    match step
    case Append(w, addr) => AppendBuffered(cfg, s, w, addr);
    case Flush(addr) => EnqueueBuffered(s, addr, FlushReq(|s.history|));
    case Checkpoint(addr) => EnqueueBuffered(s, addr, CkptReq);
    case WorkPut => PutBuffered(s);
    case WorkGc(_) => OtherBuffered(s, Do(cfg, s, step));
    case WorkCkpt => OtherBuffered(s, Do(cfg, s, step));
    case Complete(n) => CompleteBuffered(cfg, s, n);
    case Crash => CrashBuffered(cfg, s);
    case _ => IdleBuffered(cfg, s, step);
  }

  lemma {:induction false} IdleBuffered(cfg: Config, s: State, step: Step)
    requires s.bufmap == Buffered(s) && Enabled(cfg, s, step)
    requires step.Publish? || step.WorkFlush? || step.GcStart? || step.GcSubmit? || step.GcFinish? || step.GcDelete? || step.GcAbort?
          || step.GcStop? || step.Reap? || step.Trim?
    ensures var s' := Do(cfg, s, step); s'.bufmap == Buffered(s')
  {
    hide Buffered, Snapshot, Settle, Remove, NoGcPending;
    var s' := Do(cfg, s, step);
    if step.GcSubmit? {
      assert s'.queue == s.queue + [GcReq(s.gc.todo[0])];
    }
    PopBuffered(s, s');
  }

  lemma {:induction false} LoggedAccounted(cfg: Config, s: State)
    requires Logged(cfg, s)
    ensures Accounted(cfg, s)
  {
  }

  lemma {:induction false} CrashBuffered(cfg: Config, s: State)
    requires s.checkpoints != [] ==> HasCkpt(s)
    ensures var s' := DoCrash(cfg, s); s'.bufmap == Buffered(s')
  {
    hide RecoveredMap, RecoveredInfo, LogWrites;
    var s' := DoCrash(cfg, s);
    BufLogEmpty(s'.log, |s'.log|);
  }

  lemma {:induction false} StepApart(cfg: Config, s: State, step: Step)
    requires Accounted(cfg, s) && Tracked(cfg, s) && Enabled(cfg, s, step)
    ensures var s' := Do(cfg, s, step); BuffersApart(cfg, s') && SmallPuts(cfg, s'.log, s'.inflight)
  {
    hide Buffered, BuffersApart, SmallPuts, Fresh, Snapshot, Revalidated, NoGcPending, DoAppend, DoEnqueue, DoPut, DoGc, DoCkpt, DoPublish,
      DoFlushed, DoComplete, DoTrim, DoCrash;
    InflightBelow(cfg, s);
    StepSmall(cfg, s, step);
    hide Accounted;
    match step
    case Append(_, _) => AppendApart(cfg, s, step);
    case Flush(addr) => EnqueueApart(cfg, s, addr, FlushReq(|s.history|));
    case Checkpoint(addr) => EnqueueApart(cfg, s, addr, CkptReq);
    case WorkPut => PutApart(cfg, s);
    case _ => IdleApart(cfg, s, step);
  }

  lemma {:induction false} IdleApart(cfg: Config, s: State, step: Step)
    requires BuffersApart(cfg, s) && Enabled(cfg, s, step) && !(step.Append? || step.Flush? || step.Checkpoint? || step.WorkPut?)
    ensures BuffersApart(cfg, Do(cfg, s, step))
  {
    hide BuffersApart, Drop, Revalidated, Snapshot, ApplyPieces, AddObject, RecoveredMap, RecoveredInfo, LogWrites, Settle, Remove, NoGcPending;
    var s' := Do(cfg, s, step);
    if step.Crash? {
      CrashApart(cfg, s, s');
    } else if step.GcSubmit? {
      assert s'.queue == s.queue + [GcReq(s.gc.todo[0])];
      FewerApart(cfg, s, s');
    } else {
      FewerApart(cfg, s, s');
    }
  }

  lemma {:induction false} StepSmall(cfg: Config, s: State, step: Step)
    requires Accounted(cfg, s) && SmallPuts(cfg, s.log, s.inflight) && Enabled(cfg, s, step)
    ensures var s' := Do(cfg, s, step); SmallPuts(cfg, s'.log, s'.inflight)
  {
    hide Drop, Revalidated, Snapshot, Fresh, ApplyPieces, AddObject, RecoveredMap, RecoveredInfo, LogWrites, BufferWrite, Total, Settle, Remove,
      NoGcPending;
    InflightBelow(cfg, s);
    hide Accounted;
  }

  /** Every step, trims and crashes among them, keeps the buffer map in line with the batches in memory. */
  lemma {:induction false} StepTracked(cfg: Config, s: State, step: Step)
    requires Accounted(cfg, s) && Tracked(cfg, s) && Enabled(cfg, s, step)
    ensures Tracked(cfg, Do(cfg, s, step))
  {
    StepBuffered(cfg, s, step);
    StepApart(cfg, s, step);
    hide Buffered, BuffersApart, SmallPuts, Do;
  }

  lemma {:induction false} AppendApart(cfg: Config, s: State, step: Step)
    requires BuffersApart(cfg, s) && step.Append? && Enabled(cfg, s, step)
    ensures BuffersApart(cfg, Do(cfg, s, step))
  {
    hide BuffersApart, BufferWrite, Fresh;
    SealApart(cfg, s, step.addr);
    var t := if Total(s.current.writes) + |step.w.data| <= cfg.max then s else Seal(s, step.addr);
    FewerApart(cfg, t, Do(cfg, s, step));
  }

  lemma {:induction false} EnqueueApart(cfg: Config, s: State, addr: int, r: Req)
    requires BuffersApart(cfg, s) && Fresh(cfg, s, addr) && !r.PutReq?
    ensures BuffersApart(cfg, DoEnqueue(s, addr, r))
  {
    hide BuffersApart, Fresh;
    SealApart(cfg, s, addr);
    var t := if s.current.writes != [] then Seal(s, addr) else s;
    assert DoEnqueue(s, addr, r).queue == t.queue + [r];
    FewerApart(cfg, t, DoEnqueue(s, addr, r));
  }

  lemma {:induction false} CrashApart(cfg: Config, s: State, s': State)
    requires s'.queue == [] && s'.inflight == map[]
    ensures BuffersApart(cfg, s')
  {
  }

  lemma {:induction false} StepCoherent(cfg: Config, s: State, step: Step)
    requires Coherent(cfg, s) && Enabled(cfg, s, step) && ReadGuard(cfg, s, step)
    ensures Coherent(cfg, Do(cfg, s, step))
  {
    hide Logged, Held, Tracked, Do;
    LoggedAccounted(cfg, s);
    StepTracked(cfg, s, step);
    StepLogged(cfg, s, step);
    StepHeld(cfg, s, step);
  }
}
