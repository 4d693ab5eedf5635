/** What clients are told: a flush or a checkpoint that has returned covers every write before it. */
module Promises {
  import opened Extents
  import opened Volume
  import opened Machine
  import opened Accounting
  import opened AccountingSteps
  import opened CopiedData
  import opened LogStory
  import opened CrashSafety
  import opened PrefixConsistency

  /** The writes clients make in a run, in order. */
  function Appends(steps: seq<Step>): seq<Write> {
    if steps == [] then [] else (if steps[0].Append? then [steps[0].w] else []) + Appends(steps[1..])
  }

  /** The worker takes a request off its queue. */
  predicate Takes(step: Step) {
    step.WorkPut? || step.WorkGc? || step.WorkCkpt? || step.WorkFlush?
  }

  /** How many requests the worker takes off its queue in a run. */
  function Taken(steps: seq<Step>): nat {
    if steps == [] then 0 else (if Takes(steps[0]) then 1 else 0) + Taken(steps[1..])
  }

  // ---- the queue ----

  /** Requests leave the queue in the order they came in, and the log only grows. */
  lemma {:induction false} StepQueue(cfg: Config, s: State, step: Step)
    requires Enabled(cfg, s, step) && !step.Crash?
    ensures var t := Do(cfg, s, step);
            && (if Takes(step) then s.queue != [] && t.queue == s.queue[1..] else s.queue <= t.queue && t.log == s.log)
            && t.history == s.history + (if step.Append? then [step.w] else []) && s.flushed <= t.flushed && s.log <= t.log
  {
    hide Do, Enabled;
    if Takes(step) {
      WorkQueue(cfg, s, step);
    } else {
      OtherQueue(cfg, s, step);
    }
    assert s.history + [] == s.history;
  }

  lemma {:induction false} WorkQueue(cfg: Config, s: State, step: Step)
    requires Enabled(cfg, s, step) && Takes(step)
    ensures var t := Do(cfg, s, step);
            s.queue != [] && t.queue == s.queue[1..] && t.history == s.history && s.flushed <= t.flushed && s.log <= t.log
  {
    hide Revalidated, ApplyPieces, AddObject;
  }

  lemma {:induction false} OtherQueue(cfg: Config, s: State, step: Step)
    requires Enabled(cfg, s, step) && !Takes(step) && !step.Crash?
    ensures var t := Do(cfg, s, step);
            && s.queue <= t.queue && t.log == s.log && s.flushed <= t.flushed
            && t.history == if step.Append? then s.history + [step.w] else s.history
  {
    hide Fresh, Snapshot, Drop, BufferWrite, Settle, Remove, Total, NoGcPending, HasCkpt, Keep, LastCkpt, DoAppend, DoEnqueue, DoPublish, DoComplete, DoTrim;
    match step
    case Append(w, addr) => AppendQueue(cfg, s, w, addr);
    case Flush(addr) => EnqueueQueue(s, addr, FlushReq(|s.history|));
    case Checkpoint(addr) => EnqueueQueue(s, addr, CkptReq);
    case Publish => SameQueue(cfg, s, step);
    case Complete(_) => SameQueue(cfg, s, step);
    case Trim(_, _) => SameQueue(cfg, s, step);
    case _ =>
  }

  lemma {:induction false} SameQueue(cfg: Config, s: State, step: Step)
    requires Enabled(cfg, s, step) && (step.Publish? || step.Complete? || step.Trim?)
    ensures var t := Do(cfg, s, step); t.queue == s.queue && t.log == s.log && t.flushed == s.flushed && t.history == s.history
  {
    hide Drop, Settle, Remove, Keep;
  }

  lemma {:induction false} AppendQueue(cfg: Config, s: State, w: Write, addr: int)
    ensures var t := DoAppend(cfg, s, w, addr);
            s.queue <= t.queue && t.log == s.log && t.flushed == s.flushed && t.history == s.history + [w]
  {
    hide BufferWrite, Total;
  }

  lemma {:induction false} EnqueueQueue(s: State, addr: int, r: Req)
    ensures var t := DoEnqueue(s, addr, r); s.queue <= t.queue && t.log == s.log && t.flushed == s.flushed && t.history == s.history
  {
    assert s.queue <= s.queue + [PutReq(s.current)] <= s.queue + [PutReq(s.current)] + [r];
  }

  /** What the worker takes off the queue it puts in the log. */
  lemma {:induction false} StepWrites(cfg: Config, s: State, step: Step)
    requires Enabled(cfg, s, step) && Takes(step)
    ensures var t := Do(cfg, s, step); s.queue != [] && LogWrites(t.log, |t.log|) == LogWrites(s.log, |s.log|) + ReqWrites(s.queue[0])
  {
    hide Revalidated, ApplyPieces, AddObject, NoGcPending, LogWrites;
    var t := Do(cfg, s, step);
    if step.WorkFlush? {
      assert LogWrites(s.log, |s.log|) + [] == LogWrites(s.log, |s.log|);
    } else {
      NextWrites(s.log, t.log);
      assert RecWrites(t.log[|s.log|]) == ReqWrites(s.queue[0]);
    }
  }

  lemma {:induction false} NextWrites(log: seq<Rec>, log': seq<Rec>)
    requires |log'| == |log| + 1 && log <= log'
    ensures LogWrites(log', |log'|) == LogWrites(log, |log|) + RecWrites(log'[|log|])
  {
    assert log'[..|log|] == log[..|log|];
    LogSame(log, log', |log|);
  }

  /** Over a run without a crash, what was accepted is what clients wrote. */
  lemma {:induction false} RunHistory(cfg: Config, s: State, steps: seq<Step>, t: State)
    requires Run(cfg, s, steps, t) && NoCrash(steps)
    ensures t.history == s.history + Appends(steps) && s.flushed <= t.flushed && s.log <= t.log
    decreases |steps|
  {
    hide Do, Enabled;
    if steps != [] {
      StepQueue(cfg, s, steps[0]);
      RunHistory(cfg, Do(cfg, s, steps[0]), steps[1..], t);
    }
  }

  // ---- a flush ----

  /** A flush that waits behind `i` requests has returned when the worker has taken more than that many. */
  lemma {:induction false} FlushWaits(cfg: Config, s: State, steps: seq<Step>, t: State, i: int, n: nat)
    requires Run(cfg, s, steps, t) && NoCrash(steps) && 0 <= i < |s.queue| && s.queue[i] == FlushReq(n) && i < Taken(steps)
    ensures n <= t.flushed
    decreases |steps|
  {
    hide Do, Enabled;
    var step, u := steps[0], Do(cfg, s, steps[0]);
    StepQueue(cfg, s, step);
    if Takes(step) && i == 0 {
      FlushTaken(cfg, s, step);
      RunHistory(cfg, u, steps[1..], t);
    } else {
      FlushWaits(cfg, u, steps[1..], t, if Takes(step) then i - 1 else i, n);
    }
  }

  lemma {:induction false} FlushTaken(cfg: Config, s: State, step: Step)
    requires Enabled(cfg, s, step) && Takes(step) && s.queue != [] && s.queue[0].FlushReq?
    ensures s.queue[0].covers <= Do(cfg, s, step).flushed
  {
    hide Revalidated;
  }

  /** When a flush has returned, it has covered every write accepted before it. */
  lemma {:induction false} FlushReturns(cfg: Config, s: State, addr: int, steps: seq<Step>, t: State)
    requires Enabled(cfg, s, Flush(addr)) && Run(cfg, Do(cfg, s, Flush(addr)), steps, t) && NoCrash(steps)
    requires |Do(cfg, s, Flush(addr)).queue| <= Taken(steps)
    ensures |s.history| <= t.flushed && t.history == s.history + Appends(steps)
  {
    hide Run, Fresh;
    var u := Do(cfg, s, Flush(addr));
    RunHistory(cfg, u, steps, t);
    FlushWaits(cfg, u, steps, t, |u.queue| - 1, |s.history|);
  }

  /** So once a checkpoint is named, a crash at any time after it has returned keeps every write accepted before it, and of
      those after it a prefix. */
  lemma {:induction false} FlushSurvives(cfg: Config, s: State, addr: int, steps: seq<Step>, t: State)
    requires Safe(cfg, s) && Enabled(cfg, s, Flush(addr)) && Run(cfg, Do(cfg, s, Flush(addr)), steps, t) && NoCrash(steps)
    requires GuardedRun(cfg, Do(cfg, s, Flush(addr)), steps) && |Do(cfg, s, Flush(addr)).queue| <= Taken(steps) && t.checkpoints != []
    ensures t.history == s.history + Appends(steps) && exists j :: |s.history| <= j && Recovers(t, j)
  {
    hide Run, GuardedRun, Safe, Recovers, Enabled, Do;
    FlushReturns(cfg, s, addr, steps, t);
    StepSafe(cfg, s, Flush(addr));
    RunSafe(cfg, Do(cfg, s, Flush(addr)), steps, t);
    SafeIsCrashSafe(cfg, t);
    var j :| t.flushed <= j && Recovers(t, j);
  }

  /** From the empty volume, in terms of what clients did alone: all they wrote before the flush, and a prefix of the rest. */
  lemma {:induction false} FlushedWritesSurvive(cfg: Config, a: int, before: seq<Step>, s: State, addr: int, after: seq<Step>, t: State)
    requires Run(cfg, Init(a), before, s) && GuardedRun(cfg, Init(a), before) && NoCrash(before)
    requires Enabled(cfg, s, Flush(addr)) && Run(cfg, Do(cfg, s, Flush(addr)), after, t) && NoCrash(after)
    requires GuardedRun(cfg, Do(cfg, s, Flush(addr)), after) && |Do(cfg, s, Flush(addr)).queue| <= Taken(after) && t.checkpoints != []
    ensures t.history == Appends(before) + Appends(after) && exists j :: |Appends(before)| <= j && Recovers(t, j)
  {
    hide Run, GuardedRun, Safe, Recovers, Enabled, Do;
    InitSafe(cfg, a);
    RunSafe(cfg, Init(a), before, s);
    RunHistory(cfg, Init(a), before, s);
    assert [] + Appends(before) == Appends(before);
    FlushSurvives(cfg, s, addr, after, t);
  }

  // ---- a checkpoint ----

  /** Record `c` is a checkpoint over all of `h`, named by the superblock, about to be, or older than one that is. */
  ghost predicate Covering(s: State, c: int, h: seq<Write>) {
    && 0 < c < |s.log| && s.log[c].CkptRec? && h <= LogWrites(s.log, c)
    && ((s.publishing && c == |s.log| - 1) || c <= LastCkpt(s))
  }

  lemma {:induction false} StepCovering(cfg: Config, s: State, step: Step, c: int, h: seq<Write>)
    requires Enabled(cfg, s, step) && !step.Crash? && Covering(s, c, h)
    ensures Covering(Do(cfg, s, step), c, h)
  {
    hide Do, Enabled, LogWrites;
    var t := Do(cfg, s, step);
    StepQueue(cfg, s, step);
    StepNames(cfg, s, step);
    assert t.log[..c] == s.log[..c];
    LogSame(s.log, t.log, c);
  }

  /** Only naming the checkpoint that was written last changes which are named, and until then no record follows it. */
  lemma {:induction false} StepNames(cfg: Config, s: State, step: Step)
    requires Enabled(cfg, s, step) && !step.Crash?
    ensures var t := Do(cfg, s, step);
            && (if step.Publish? then LastCkpt(t) == |s.log| - 1 else t.checkpoints == s.checkpoints)
            && (s.publishing ==> step.Publish? || (t.publishing && |t.log| == |s.log|))
  {
    hide Fresh, Revalidated, Snapshot, ApplyPieces, AddObject, Drop, BufferWrite, Settle, Remove, Total, NoGcPending, HasCkpt;
    if step.Publish? {
      PublishLast(s);
    }
  }

  lemma {:induction false} RunCovering(cfg: Config, s: State, steps: seq<Step>, t: State, c: int, h: seq<Write>)
    requires Run(cfg, s, steps, t) && NoCrash(steps) && Covering(s, c, h)
    ensures Covering(t, c, h)
    decreases |steps|
  {
    hide Do, Enabled, Covering;
    if steps != [] {
      StepCovering(cfg, s, steps[0], c, h);
      RunCovering(cfg, Do(cfg, s, steps[0]), steps[1..], t, c, h);
    }
  }

  /** A checkpoint that waits behind `i` requests, with all of `h` in front of it. */
  ghost predicate Ahead(s: State, i: int, h: seq<Write>) {
    0 <= i < |s.queue| && s.queue[i] == CkptReq && h <= LogWrites(s.log, |s.log|) + QueueWrites(s.queue[..i])
  }

  lemma {:induction false} StepAhead(cfg: Config, s: State, step: Step, i: int, h: seq<Write>)
    requires Enabled(cfg, s, step) && !step.Crash? && Ahead(s, i, h) && !(Takes(step) && i == 0)
    ensures Ahead(Do(cfg, s, step), if Takes(step) then i - 1 else i, h)
  {
    hide Do, Enabled, LogWrites, QueueWrites;
    StepQueue(cfg, s, step);
    var t := Do(cfg, s, step);
    if Takes(step) {
      StepWrites(cfg, s, step);
      var q := s.queue[..i];
      assert q[1..] == t.queue[..i - 1];
      QueueWritesHead(q);
      var x, y, z := LogWrites(s.log, |s.log|), ReqWrites(q[0]), QueueWrites(q[1..]);
      assert x + (y + z) == x + y + z;
    } else {
      assert t.queue[..i] == s.queue[..i];
    }
  }

  lemma {:induction false} CkptTaken(cfg: Config, s: State, step: Step, h: seq<Write>)
    requires Enabled(cfg, s, step) && Takes(step) && Ahead(s, 0, h) && s.log != []
    ensures Covering(Do(cfg, s, step), |s.log|, h)
  {
    hide Revalidated, LogWrites;
    var t := Do(cfg, s, step);
    assert s.queue[..0] == [] && LogWrites(s.log, |s.log|) + [] == LogWrites(s.log, |s.log|);
    assert t.log[..|s.log|] == s.log[..|s.log|];
    LogSame(s.log, t.log, |s.log|);
  }

  lemma {:induction false} CkptWaits(cfg: Config, s: State, steps: seq<Step>, t: State, i: int, h: seq<Write>) returns (c: int)
    requires Run(cfg, s, steps, t) && NoCrash(steps) && Ahead(s, i, h) && s.log != [] && 0 <= i < Taken(steps)
    ensures Covering(t, c, h)
    decreases |steps|
  {
    hide Do, Enabled, Ahead, Covering;
    var step, u := steps[0], Do(cfg, s, steps[0]);
    StepQueue(cfg, s, step);
    if Takes(step) && i == 0 {
      CkptTaken(cfg, s, step, h);
      c := |s.log|;
      RunCovering(cfg, u, steps[1..], t, c, h);
    } else {
      StepAhead(cfg, s, step, i, h);
      c := CkptWaits(cfg, u, steps[1..], t, if Takes(step) then i - 1 else i, h);
    }
  }

  /** When the worker has come to a checkpoint, every write accepted before it is in the log below a checkpoint record, which
      the superblock names, is about to name, or has named. */
  lemma {:induction false} CheckpointReturns(cfg: Config, s: State, addr: int, steps: seq<Step>, t: State) returns (c: int)
    requires Safe(cfg, s) && Enabled(cfg, s, Checkpoint(addr)) && Run(cfg, Do(cfg, s, Checkpoint(addr)), steps, t) && NoCrash(steps)
    requires |Do(cfg, s, Checkpoint(addr)).queue| <= Taken(steps)
    ensures Covering(t, c, s.history)
  {
    hide Run, Safe, Covering;
    var u := Do(cfg, s, Checkpoint(addr));
    AheadNow(cfg, s, addr);
    c := CkptWaits(cfg, u, steps, t, |u.queue| - 1, s.history);
  }

  lemma {:induction false} AheadNow(cfg: Config, s: State, addr: int)
    requires Safe(cfg, s) && Enabled(cfg, s, Checkpoint(addr))
    ensures var u := Do(cfg, s, Checkpoint(addr)); Ahead(u, |u.queue| - 1, s.history) && u.log != []
  {
    hide LogWrites, QueueWrites, QueueOk, GcOk, StoreOk, Exact, Replayed, Faithful, Truthful, FlushesOk, Durable, Fresh;
    var u := Do(cfg, s, Checkpoint(addr));
    var front := u.queue[..|u.queue| - 1];
    QueueWritesSnoc(s.queue, PutReq(s.current));
    assert front == if s.current.writes != [] then s.queue + [PutReq(s.current)] else s.queue;
    var x, y, z := LogWrites(s.log, |s.log|), QueueWrites(s.queue), s.current.writes;
    assert x + y + z == x + (y + z);
  }

  /** So when the superblock has been written, a crash keeps every write accepted before the checkpoint, flushed or not. */
  lemma {:induction false} CheckpointSurvives(cfg: Config, s: State, addr: int, steps: seq<Step>, t: State)
    requires Safe(cfg, s) && Enabled(cfg, s, Checkpoint(addr)) && Run(cfg, Do(cfg, s, Checkpoint(addr)), steps, t) && NoCrash(steps)
    requires GuardedRun(cfg, Do(cfg, s, Checkpoint(addr)), steps) && |Do(cfg, s, Checkpoint(addr)).queue| <= Taken(steps) && !t.publishing
    ensures t.history == s.history + Appends(steps) && exists j :: |s.history| <= j && Recovers(t, j)
  {
    hide Run, GuardedRun, Safe, Recovers, Enabled, Do, Covering;
    var c := CheckpointReturns(cfg, s, addr, steps, t);
    StepQueue(cfg, s, Checkpoint(addr));
    RunHistory(cfg, Do(cfg, s, Checkpoint(addr)), steps, t);
    StepSafe(cfg, s, Checkpoint(addr));
    RunSafe(cfg, Do(cfg, s, Checkpoint(addr)), steps, t);
    SafeRecovers(cfg, t);
    CoveredBelow(cfg, t, c, s.history);
  }

  lemma {:induction false} CoveredBelow(cfg: Config, t: State, c: int, h: seq<Write>)
    requires Safe(cfg, t) && Covering(t, c, h) && !t.publishing && 0 < RecoverPoint(t) <= |t.log|
    ensures |h| <= |LogWrites(t.log, RecoverPoint(t))|
  {
    hide Safe, LogWrites, Roll;
    LogWritesPrefix(t.log, c, RecoverPoint(t));
  }

  // ---- a crash ----

  /** A crash on a safe volume: what is left of the history is the prefix the recovered disk stands for. It holds every
      flushed write, and every write in an object that is durable with all those between it and the checkpoint. */
  lemma {:induction false} CrashKeepsPrefix(cfg: Config, s: State)
    requires Safe(cfg, s) && (s.checkpoints != [] || s.flushed == 0)
    ensures s.checkpoints != [] ==> HasCkpt(s)
    ensures var h := DoCrash(cfg, s).history; h <= s.history && s.flushed <= |h| && Recovers(s, |h|)
    ensures s.checkpoints != [] ==> forall n :: LastCkpt(s) < n < |s.log| && DurableTo(s, n) ==> LogWrites(s.log, n + 1) <= DoCrash(cfg, s).history
  {
    hide Safe, LogWrites, Recovers, RecoveredMap, RecoveredInfo, RecoverPoint, HasCkpt, Swept, DurableTo;
    SafeRecovers(cfg, s);
    HasNow(s);
    FlushedKept(cfg, s);
    HistoryOfLog(cfg, s);
    var k := RecoverPoint(s);
    LogWritesPrefix(s.log, k, |s.log|);
    assert s.log[..k][..k] == s.log[..k];
    LogSame(s.log, s.log[..k], k);
    assert DoCrash(cfg, s).history == LogWrites(s.log, k);
    if s.checkpoints != [] {
      forall n | LastCkpt(s) < n < |s.log| && DurableTo(s, n) ensures LogWrites(s.log, n + 1) <= DoCrash(cfg, s).history {
        BelowGap(s, n);
        LogWritesPrefix(s.log, n + 1, k);
      }
    }
  }

  lemma {:induction false} HasNow(s: State)
    requires exists j :: Recovers(s, j)
    ensures s.checkpoints != [] ==> HasCkpt(s)
  {
    hide RecoveredMap, DiskAfter;
  }

  lemma {:induction false} BelowGap(s: State, n: int)
    requires s.checkpoints != [] && LastCkpt(s) < n && DurableTo(s, n)
    ensures n < RecoverPoint(s)
  {
    hide Roll;
  }

  /** Every object from the last named checkpoint up to `n` is durable. */
  ghost predicate DurableTo(s: State, n: int) {
    forall i :: LastCkpt(s) < i <= n ==> i in s.backend && s.backend[i].DataRec?
  }

  lemma {:induction false} HistoryOfLog(cfg: Config, s: State)
    requires Safe(cfg, s)
    ensures LogWrites(s.log, |s.log|) <= s.history && 0 <= LastCkpt(s)
  {
    hide Accounted, Replayed, Faithful, Truthful, FlushesOk, FlushedBy, Anchored, LogWrites, QueueWrites;
  }

  lemma {:induction false} FlushedKept(cfg: Config, s: State)
    requires Safe(cfg, s) && (s.checkpoints != [] || s.flushed == 0) && 0 < RecoverPoint(s) <= |s.log|
    ensures s.flushed <= |LogWrites(s.log, RecoverPoint(s))|
  {
    hide LogOk, QueueOk, GcOk, Exact, Faithful, Replayed, FlushesOk, QueueWrites, LogWrites;
    if s.checkpoints != [] {
      RecoverPointInLog(cfg, s);
      var f :| FlushedBy(s, f);
      FlushedBelow(s, f);
      LogWritesPrefix(s.log, f, RecoverPoint(s));
    }
  }
}
