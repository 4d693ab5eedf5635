/** What has to be durable, and when, for a crash to be harmless. */
module CrashSafety {
  import opened Extents
  import opened Volume
  import opened Machine
  import opened Accounting
  import opened AccountingSteps
  import opened CopiedData
  import opened LogStory

  /** Every flush on the queue has its writes in front of it. */
  ghost predicate FlushesOk(log: seq<Rec>, q: seq<Req>) {
    forall i :: 0 <= i < |q| && q[i].FlushReq? ==> q[i].covers <= |LogWrites(log, |log|)| + |QueueWrites(q[..i])|
  }

  /** Everything numbered after the last named checkpoint is a data object, durable or on its way. */
  ghost predicate Present(s: State) {
    && 0 <= LastCkpt(s) && (s.publishing ==> LastCkpt(s) < |s.log| - 1)
    && (forall n :: LastCkpt(s) < n < |s.log| && !(s.publishing && n == |s.log| - 1) ==>
          s.log[n].DataRec? && (n in s.backend || n in s.inflight))
  }

  /** Every object the last named checkpoint points into is durable. */
  ghost predicate Anchored(s: State) {
    && 0 <= LastCkpt(s) < |s.log| && s.log[LastCkpt(s)].CkptRec?
    && (forall a :: a in s.log[LastCkpt(s)].omap ==>
          s.log[LastCkpt(s)].omap[a].ObjPtr? && s.log[LastCkpt(s)].omap[a].obj in s.backend)
  }

  /** The flushed writes are in the first `f` records, and those of them past the checkpoint are durable. */
  ghost predicate FlushedBy(s: State, f: int) {
    && 0 <= f <= |s.log| && 0 <= LastCkpt(s) && s.flushed <= |LogWrites(s.log, f)|
    && (forall n :: LastCkpt(s) < n < f ==> n in s.backend && s.log[n].DataRec?)
  }

  ghost predicate Safe(cfg: Config, s: State) {
    Logged(cfg, s) && FlushesOk(s.log, s.queue) && Durable(s)
  }

  ghost predicate Durable(s: State) {
    Present(s) && Anchored(s) && exists f :: FlushedBy(s, f)
  }

  lemma {:induction false} DurableSame(s: State, s': State)
    requires Durable(s) && s'.log == s.log && s'.backend == s.backend && s'.inflight == s.inflight
    requires s'.checkpoints == s.checkpoints && s'.publishing == s.publishing && s'.flushed == s.flushed
    ensures Durable(s')
  {
    var f :| FlushedBy(s, f);
    assert FlushedBy(s', f);
  }

  // ---- when a step is safe ----

  /** No object still on its way holds live sectors. */
  ghost predicate PublishSafe(s: State) {
    forall n :: n in s.inflight && n in s.info ==> s.info[n].live == 0
  }

  /** The object is older than the last named checkpoint, which does not point into it. */
  ghost predicate ReapSafe(s: State, n: int) {
    s.checkpoints != [] && 0 <= LastCkpt(s) < |s.log| && n < LastCkpt(s) && s.log[LastCkpt(s)].CkptRec? && Unreferenced(s.log[LastCkpt(s)].omap, n)
  }

  ghost predicate Guarded(cfg: Config, s: State, step: Step) {
    match step
    case Publish => PublishSafe(s)
    case GcStart(objs, _) => s.checkpoints == [] ==> DurableChoice(s, objs)
    case GcStop => StopClean(s)
    case Reap(n) => ReapSafe(s, n)
    case Trim(_, _) => false
    case Crash => CleanTail(cfg, s)
    case _ => true
  }

  // ---- the steps ----

  lemma {:induction false} FlushesSeal(log: seq<Rec>, q: seq<Req>, r: Req)
    requires FlushesOk(log, q) && (r.FlushReq? ==> r.covers <= |LogWrites(log, |log|)| + |QueueWrites(q)|)
    ensures FlushesOk(log, q + [r])
  {
    hide QueueWrites, LogWrites;
    forall i | 0 <= i < |q + [r]| && (q + [r])[i].FlushReq?
      ensures (q + [r])[i].covers <= |LogWrites(log, |log|)| + |QueueWrites((q + [r])[..i])| {
      assert (q + [r])[..i] == if i < |q| then q[..i] else q;
    }
  }

  lemma {:induction false} FlushesPut(s: State, addr: int, r: Req)
    requires FlushesOk(s.log, s.queue)
    requires s.history == LogWrites(s.log, |s.log|) + QueueWrites(s.queue) + s.current.writes
    requires r == FlushReq(|s.history|) || r == CkptReq
    ensures FlushesOk(s.log, DoEnqueue(s, addr, r).queue)
  {
    hide LogWrites, QueueWrites;
    FlushesSeal(s.log, s.queue, PutReq(s.current));
    QueueWritesSnoc(s.queue, PutReq(s.current));
    hide FlushesOk;
    FlushesSeal(s.log, if s.current.writes != [] then s.queue + [PutReq(s.current)] else s.queue, r);
  }

  /** The queue after its head is gone; what the head held is now in the log. */
  lemma {:induction false} FlushesPop(log: seq<Rec>, log': seq<Rec>, q: seq<Req>)
    requires FlushesOk(log, q) && q != []
    requires |LogWrites(log, |log|)| + |ReqWrites(q[0])| <= |LogWrites(log', |log'|)|
    ensures FlushesOk(log', q[1..])
  {
    hide QueueWrites, LogWrites;
    forall i | 0 <= i < |q| - 1 && q[1..][i].FlushReq?
      ensures q[1..][i].covers <= |LogWrites(log', |log'|)| + |QueueWrites(q[1..][..i])| {
      assert q[1..][i] == q[i + 1] && q[..i + 1][1..] == q[1..][..i];
      QueueWritesHead(q[..i + 1]);
    }
  }

  /** A new record, on its way or just written as a checkpoint. */
  lemma {:induction false} DurableMore(s: State, s': State, r: Rec)
    requires Durable(s) && !s.publishing && s'.log == s.log + [r] && s'.flushed == s.flushed && s'.checkpoints == s.checkpoints
    requires (forall n :: n in s.backend ==> n in s'.backend) && (forall n :: n in s.inflight ==> n in s'.inflight)
    requires s'.publishing || (r.DataRec? && |s.log| in s'.inflight)
    ensures Durable(s')
  {
    hide LogWrites;
    assert s'.log[LastCkpt(s)] == s.log[LastCkpt(s)];
    var f :| FlushedBy(s, f);
    assert s'.log[..f] == s.log[..f];
    LogSame(s.log, s'.log, f);
    assert FlushedBy(s', f);
  }

  /** Every object the running map points into is durable or on its way. */
  lemma {:induction false} ReferencedPresent(cfg: Config, s: State, a: int)
    requires Safe(cfg, s) && a in s.objmap
    ensures s.objmap[a].ObjPtr? && 0 < s.objmap[a].obj < |s.log|
    ensures s.objmap[a].obj in s.backend || s.objmap[a].obj in s.inflight
  {
    hide LogOk, StoreOk, QueueOk, GcOk, Faithful, MapAt, FlushesOk, LogWrites, QueueWrites;
    var n, c := s.objmap[a].obj, LastCkpt(s);
    assert ValidPtr(s.log, s.objmap[a]);
    if n <= c {
      OldRefsShrink(s.log, c, |s.log|, a);
    }
  }

  /** Once a checkpoint is named, every object it may point into that still has live sectors is durable. */
  lemma {:induction false} LiveDurable(cfg: Config, s: State, n: int)
    requires Safe(cfg, s) && s.checkpoints != [] && n in s.info && n <= LastCkpt(s) && s.info[n].live != 0
    ensures n in s.backend
  {
    hide LogOk, StoreOk, QueueOk, GcOk, Faithful, MapAt, FlushesOk, LogWrites, QueueWrites, Truthful, ValidPtr;
    var a := SomeLive(cfg, s, n);
    var c := LastCkpt(s);
    assert s.log[n].DataRec?;
    OldRefsShrink(s.log, c, |s.log|, a);
  }

  /** So the objects a cycle chooses can be read, with no guard on the collector. */
  lemma {:induction false} ChoiceDurable(cfg: Config, s: State, objs: set<int>)
    requires Safe(cfg, s) && s.checkpoints != [] && Choice(cfg, s, objs)
    ensures DurableChoice(s, objs)
  {
    hide Safe;
    forall n | n in objs && n in s.info && s.info[n].live != 0 ensures n in s.backend {
      LiveDurable(cfg, s, n);
    }
  }

  lemma {:induction false} PublishKeeps(cfg: Config, s: State, n: int)
    requires Accounted(cfg, s) && s.publishing && n in s.backend && s.backend[n].DataRec?
    ensures n in DoPublish(s).backend && DoPublish(s).backend[n] == s.backend[n]
  {
    hide LogOk, QueueOk, GcOk, Exact;
    var cs := s.checkpoints + [|s.log| - 1];
    assert n !in cs;
  }

  lemma {:induction false} PublishLast(s: State)
    ensures DoPublish(s).checkpoints != [] && LastCkpt(DoPublish(s)) == |s.log| - 1
  {
  }

  /** While a checkpoint is being published its map is the running map. */
  lemma {:induction false} PublishedMap(cfg: Config, s: State)
    requires Logged(cfg, s) && s.publishing
    ensures 0 < |s.log| && |s.log| - 1 in s.backend && s.log[|s.log| - 1] == s.backend[|s.log| - 1]
    ensures 0 < |s.log| && s.log[|s.log| - 1].CkptRec? && s.log[|s.log| - 1].omap == s.objmap
  {
    hide LogOk, QueueOk, GcOk, Faithful, LogWrites, QueueWrites;
  }

  lemma {:induction false} PublishDurable(cfg: Config, s: State)
    requires Safe(cfg, s) && s.publishing && PublishSafe(s)
    ensures Durable(DoPublish(s))
  {
    hide Accounted, Replayed, Faithful, FlushesOk, LogWrites, QueueWrites;
    var s' := DoPublish(s);
    PublishLast(s);
    PublishedMap(cfg, s);
    forall a | a in s.objmap ensures s.objmap[a].ObjPtr? && s.objmap[a].obj in s'.backend {
      ReferencedPresent(cfg, s, a);
      LiveNotInflight(cfg, s, a);
      PublishKeeps(cfg, s, s.objmap[a].obj);
    }
    var f :| FlushedBy(s, f);
    assert FlushedBy(s', f);
  }

  lemma {:induction false} LiveNotInflight(cfg: Config, s: State, a: int)
    requires Accounted(cfg, s) && PublishSafe(s) && a in s.objmap && s.objmap[a].ObjPtr?
    requires s.objmap[a].obj in s.backend || s.objmap[a].obj in s.inflight
    ensures s.objmap[a].obj in s.backend && s.backend[s.objmap[a].obj].DataRec?
  {
    hide LogOk, QueueOk, GcOk;
    var n := s.objmap[a].obj;
    assert ValidPtr(s.log, s.objmap[a]) && n in s.info;
    CountZero(s.objmap, n);
  }

  /** With nothing on its way, everything in the log past the checkpoint is durable. */
  lemma {:induction false} FlushCovered(s: State)
    requires FlushesOk(s.log, s.queue) && s.queue != [] && s.queue[0].FlushReq?
    ensures s.queue[0].covers <= |LogWrites(s.log, |s.log|)|
  {
    assert s.queue[..0] == [];
  }

  lemma {:induction false} FlushedDurable(s: State)
    requires Durable(s) && !s.publishing && s.queue != [] && s.queue[0].FlushReq? && s.inflight == map[]
    requires s.queue[0].covers <= |LogWrites(s.log, |s.log|)|
    ensures Durable(DoFlushed(s))
  {
    hide LogWrites;
    var f :| FlushedBy(s, f);
    LogWritesPrefix(s.log, f, |s.log|);
    var s' := DoFlushed(s);
    assert s'.log == s.log && s'.backend == s.backend && s'.inflight == s.inflight && LastCkpt(s') == LastCkpt(s);
    assert FlushedBy(s', |s.log|);
  }

  /** Nothing an object older than the last named checkpoint holds is needed once the checkpoint does not point into it. */
  lemma {:induction false} DeleteSafe(s: State, s': State, n: int)
    requires Durable(s) && s'.log == s.log && s'.backend == s.backend - {n} && s'.inflight == s.inflight
    requires s'.checkpoints == s.checkpoints && s'.publishing == s.publishing && s'.flushed == s.flushed
    requires n < LastCkpt(s) && Unreferenced(s.log[LastCkpt(s)].omap, n)
    ensures Durable(s')
  {
    var f :| FlushedBy(s, f);
    assert FlushedBy(s', f);
  }

  lemma {:induction false} CleanedBeforeCkpt(cfg: Config, s: State, n: int)
    requires Safe(cfg, s) && s.gc.Cleaned? && n in s.gc.objs && s.gc.since <= LastCkpt(s)
    ensures n < LastCkpt(s) && Unreferenced(s.log[LastCkpt(s)].omap, n)
  {
    hide LogOk, StoreOk, QueueOk, Exact, Replayed, Faithful, LogWrites, FlushesOk, QueueWrites;
  }

  /** A guarded step other than a crash keeps what must be durable. */
  lemma {:induction false} StepDurable(cfg: Config, s: State, step: Step)
    requires Safe(cfg, s) && Enabled(cfg, s, step) && Guarded(cfg, s, step) && !step.Crash?
    ensures Durable(Do(cfg, s, step))
  {
    hide Logged, FlushesOk, Durable, Do, Enabled;
    match step
    case WorkPut => DurableWorked(cfg, s, step);
    case WorkGc(_) => DurableWorked(cfg, s, step);
    case WorkCkpt => DurableWorked(cfg, s, step);
    case Publish => DurableNamed(cfg, s, step);
    case WorkFlush => DurableNamed(cfg, s, step);
    case Complete(_) => DurableNamed(cfg, s, step);
    case GcDelete(n) => DurableDeleted(cfg, s, step, n);
    case Reap(n) => DurableDeleted(cfg, s, step, n);
    case _ => DurableIdle(cfg, s, step);
  }

  lemma {:induction false} DurableNamed(cfg: Config, s: State, step: Step)
    requires Safe(cfg, s) && Enabled(cfg, s, step) && Guarded(cfg, s, step) && (step.Publish? || step.WorkFlush? || step.Complete?)
    ensures Durable(Do(cfg, s, step))
  {
    hide Logged, FlushesOk, Durable, LogWrites, Drop;
    match step
    case Publish => PublishDurable(cfg, s);
    case WorkFlush => FlushCovered(s); FlushedDurable(s);
    case Complete(n) => DurableComplete(s, Do(cfg, s, step), n);
  }

  /** Steps that touch neither the log nor the backend. */
  lemma {:induction false} DurableIdle(cfg: Config, s: State, step: Step)
    requires Durable(s) && Enabled(cfg, s, step)
    requires step.Append? || step.Flush? || step.Checkpoint? || step.GcStart? || step.GcSubmit? || step.GcFinish? || step.GcAbort? || step.GcStop? || step.Trim?
    ensures Durable(Do(cfg, s, step))
  {
    hide Durable, Enabled, DoAppend, DoEnqueue, DoTrim;
    match step
    case Append(w, addr) => DurableAppend(cfg, s, w, addr);
    case Flush(addr) => DurableEnqueue(s, addr, FlushReq(|s.history|));
    case Checkpoint(addr) => DurableEnqueue(s, addr, CkptReq);
    case Trim(base, limit) => DurableTrim(s, base, limit);
    case _ => DurableCollector(cfg, s, step);
  }

  lemma {:induction false} DurableAppend(cfg: Config, s: State, w: Write, addr: int)
    requires Durable(s)
    ensures Durable(DoAppend(cfg, s, w, addr))
  {
    hide Durable, BufferWrite, Total;
    DurableSame(s, DoAppend(cfg, s, w, addr));
  }

  lemma {:induction false} DurableEnqueue(s: State, addr: int, r: Req)
    requires Durable(s)
    ensures Durable(DoEnqueue(s, addr, r))
  {
    hide Durable;
    DurableSame(s, DoEnqueue(s, addr, r));
  }

  lemma {:induction false} DurableTrim(s: State, base: int, limit: int)
    requires Durable(s)
    ensures Durable(DoTrim(s, base, limit))
  {
    hide Durable, Settle, Remove;
    DurableSame(s, DoTrim(s, base, limit));
  }

  lemma {:induction false} DurableCollector(cfg: Config, s: State, step: Step)
    requires Durable(s) && Enabled(cfg, s, step) && (step.GcStart? || step.GcSubmit? || step.GcFinish? || step.GcAbort? || step.GcStop?)
    ensures Durable(Do(cfg, s, step))
  {
    hide Durable, Snapshot, NoGcPending;
    DurableSame(s, Do(cfg, s, step));
  }

  lemma {:induction false} DurableDeleted(cfg: Config, s: State, step: Step, n: int)
    requires Safe(cfg, s) && Enabled(cfg, s, step) && Guarded(cfg, s, step) && (step == GcDelete(n) || step == Reap(n))
    ensures Durable(Do(cfg, s, step))
  {
    hide Logged, FlushesOk, Durable, Unreferenced;
    if step.GcDelete? {
      CleanedBeforeCkpt(cfg, s, n);
    }
    DeleteSafe(s, Do(cfg, s, step), n);
  }

  lemma {:induction false} DurableWorked(cfg: Config, s: State, step: Step)
    requires Durable(s) && Enabled(cfg, s, step) && (step.WorkPut? || step.WorkGc? || step.WorkCkpt?)
    ensures Durable(Do(cfg, s, step))
  {
    hide Durable, ApplyPieces, AddObject, Revalidated;
    var s' := Do(cfg, s, step);
    DurableMore(s, s', s'.log[|s.log|]);
  }

  lemma {:induction false} DurableComplete(s: State, s': State, n: int)
    requires Durable(s) && s'.log == s.log && s'.checkpoints == s.checkpoints && s'.publishing == s.publishing
    requires s'.flushed == s.flushed && s'.inflight == s.inflight - {n} && n in s'.backend
    requires forall k :: k in s.backend ==> k in s'.backend
    ensures Durable(s')
  {
    var f :| FlushedBy(s, f);
    assert FlushedBy(s', f);
  }

  lemma {:induction false} StepFlushes(cfg: Config, s: State, step: Step)
    requires Safe(cfg, s) && Enabled(cfg, s, step) && !step.Crash?
    ensures var s' := Do(cfg, s, step); FlushesOk(s'.log, s'.queue)
  {
    hide Accounted, Replayed, Faithful, FlushesOk, Durable, LogWrites, QueueWrites, ApplyPieces, AddObject, Drop, Revalidated;
    var s' := Do(cfg, s, step);
    match step
    case Append(_, _) => FlushesSeal(s.log, s.queue, PutReq(s.current));
    case Flush(addr) => FlushesPut(s, addr, FlushReq(|s.history|));
    case Checkpoint(addr) => FlushesPut(s, addr, CkptReq);
    case WorkPut => FlushesIssue(s, s');
    case WorkGc(_) => FlushesIssue(s, s');
    case WorkCkpt => FlushesIssue(s, s');
    case WorkFlush => FlushesPop(s.log, s.log, s.queue);
    case GcSubmit => FlushesSeal(s.log, s.queue, GcReq(s.gc.todo[0]));
    case _ =>
  }

  lemma {:induction false} FlushesIssue(s: State, s': State)
    requires FlushesOk(s.log, s.queue) && s.queue != [] && s'.queue == s.queue[1..] && |s'.log| == |s.log| + 1
    requires s'.log[..|s.log|] == s.log && RecWrites(s'.log[|s.log|]) == ReqWrites(s.queue[0])
    ensures FlushesOk(s'.log, s'.queue)
  {
    assert s.log[..|s.log|] == s.log;
    LogSame(s.log, s'.log, |s.log|);
    hide QueueWrites;
    FlushesPop(s.log, s'.log, s.queue);
  }
}
