/** Objects of a generation that a crash has abandoned: when recovery can take one for an object of the next. */
module Generations {
  import opened Extents
  import opened Volume
  import opened Machine
  import opened CrashSafety
  import opened Runs
  import opened PrefixConsistency
  import opened Recovery

  /** Every durable data object that replay may reach is the one the log has under its number. Number 1 is never reached. */
  ghost predicate Own(s: State) {
    && s.log != [] && s.log[0].CkptRec? && 0 <= LastCkpt(s) < |s.log|
    && (s.checkpoints != [] ==> 1 <= LastCkpt(s)) && (s.publishing ==> 2 <= |s.log|)
    && OwnObjects(s.log, s.backend)
  }

  ghost predicate OwnObjects(log: seq<Rec>, backend: map<int, Rec>) {
    forall n :: 2 <= n && n in backend && backend[n].DataRec? ==> n < |log| && backend[n] == log[n]
  }

  /** Object `n` is durable, and is the one the log has there. */
  ghost predicate OfLog(s: State, n: int) {
    n in s.backend && 0 <= n < |s.log| && s.backend[n] == s.log[n]
  }

  /** A crash now would replay objects of the log only. */
  ghost predicate Unmixed(s: State) {
    s.checkpoints != [] ==> forall n :: LastCkpt(s) < n < RecoverPoint(s) ==> OfLog(s, n)
  }

  /** A data object that the sweep of recovery does not reach, at a number that replay may. */
  ghost predicate Leftover(cfg: Config, s: State, n: int) {
    && n in s.backend && s.backend[n].DataRec?
    && if s.checkpoints == [] then 2 <= n else RecoverPoint(s) <= n && RecoverPoint(s) + 4 * cfg.window - 1 <= n
  }

  // ---- runs without leftovers ----

  lemma {:induction false} OwnUnmixed(s: State)
    requires Own(s)
    ensures Unmixed(s)
  {
    hide Roll;
    forall n | s.checkpoints != [] && LastCkpt(s) < n < RecoverPoint(s) ensures OfLog(s, n) {
      assert n in s.backend && s.backend[n].DataRec?;
    }
  }

  /** Steps other than crashes, whatever else they do, number objects and make durable what was numbered. */
  lemma {:induction false} StepOwn(cfg: Config, s: State, step: Step)
    requires Own(s) && Enabled(cfg, s, step) && !step.Crash?
    ensures Own(Do(cfg, s, step))
  {
    hide Fresh, Revalidated, Snapshot, ApplyPieces, AddObject, Drop, BufferWrite, Settle, Remove, Total, NoGcPending, DoPublish, DoAppend, DoEnqueue;
    match step
    case Append(w, addr) => AppendOwn(cfg, s, w, addr);
    case Flush(addr) => EnqueueOwn(s, addr, FlushReq(|s.history|));
    case Checkpoint(addr) => EnqueueOwn(s, addr, CkptReq);
    case Publish => PublishOwn(s);
    case _ =>
  }

  lemma {:induction false} AppendOwn(cfg: Config, s: State, w: Write, addr: int)
    requires Own(s)
    ensures Own(DoAppend(cfg, s, w, addr))
  {
    hide BufferWrite, Total, Own;
    SameOwn(s, DoAppend(cfg, s, w, addr));
  }

  lemma {:induction false} EnqueueOwn(s: State, addr: int, r: Req)
    requires Own(s)
    ensures Own(DoEnqueue(s, addr, r))
  {
    hide Own;
    SameOwn(s, DoEnqueue(s, addr, r));
  }

  lemma {:induction false} SameOwn(s: State, t: State)
    requires Own(s) && t.log == s.log && t.backend == s.backend && t.checkpoints == s.checkpoints && t.publishing == s.publishing
    ensures Own(t)
  {
  }

  lemma {:induction false} PublishOwn(s: State)
    requires Own(s) && s.publishing
    ensures Own(DoPublish(s))
  {
  }

  /** A crash that leaves nothing over. */
  lemma {:induction false} CrashOwn(cfg: Config, s: State)
    requires Own(s) && (s.checkpoints != [] ==> HasCkpt(s)) && forall n :: !Leftover(cfg, s, n)
    ensures Own(DoCrash(cfg, s))
  {
    hide RecoveredMap, RecoveredInfo, LogWrites;
    var k, t := RecoverPoint(s), DoCrash(cfg, s);
    PointInLog(s);
    forall n | 2 <= n && n in t.backend && t.backend[n].DataRec? ensures n < |t.log| && t.backend[n] == t.log[n] {
      assert !Leftover(cfg, s, n);
    }
  }

  lemma {:induction false} PointInLog(s: State)
    requires Own(s)
    ensures LastCkpt(s) < RecoverPoint(s) <= |s.log| && 1 <= RecoverPoint(s)
  {
    var k := RecoverPoint(s);
    assert s.checkpoints != [] && k > LastCkpt(s) + 1 ==> k - 1 in s.backend;
  }

  lemma {:induction false} RunOwn(cfg: Config, s: State, steps: seq<Step>, t: State)
    requires Own(s) && Run(cfg, s, steps, t) && NoCrash(steps)
    ensures Own(t)
    decreases |steps|
  {
    hide Own, Enabled, Do;
    if steps != [] {
      StepOwn(cfg, s, steps[0]);
      assert forall i :: 0 <= i < |steps| - 1 ==> steps[1..][i] == steps[i + 1];
      RunOwn(cfg, Do(cfg, s, steps[0]), steps[1..], t);
    }
  }

  /** No crash of the run leaves an object over. */
  ghost predicate SweptRun(cfg: Config, s: State, steps: seq<Step>)
    decreases |steps|
  {
    steps != [] && Enabled(cfg, s, steps[0]) ==>
      (steps[0].Crash? ==> forall n :: !Leftover(cfg, s, n)) && SweptRun(cfg, Do(cfg, s, steps[0]), steps[1..])
  }

  lemma {:induction false} SweptRunOwn(cfg: Config, s: State, steps: seq<Step>, t: State)
    requires Own(s) && Run(cfg, s, steps, t) && SweptRun(cfg, s, steps)
    ensures Own(t)
    decreases |steps|
  {
    hide Own, Leftover, DoCrash;
    if steps != [] {
      if steps[0].Crash? {
        CrashOwn(cfg, s);
      } else {
        StepOwn(cfg, s, steps[0]);
      }
      hide Enabled, Do;
      SweptRunOwn(cfg, Do(cfg, s, steps[0]), steps[1..], t);
    }
  }

  /** Over every run from the empty volume, trims and unguarded deletions included, no crash mixes generations as long as
      none before it has left an object over. */
  lemma {:induction false} GenerationsApart(cfg: Config, addr: int, steps: seq<Step>, t: State)
    requires Run(cfg, Init(addr), steps, t) && SweptRun(cfg, Init(addr), steps)
    ensures Unmixed(t)
  {
    SweptRunOwn(cfg, Init(addr), steps, t);
    OwnUnmixed(t);
  }

  // ---- filling up to a leftover ----

  function RecOf(w: Write): Rec {
    DataRec(DataObj(HdrSectors(1), [w], false))
  }

  /** `m` writes later, all of them durable under the next numbers, and nothing else changed. */
  ghost predicate Later(s: State, t: State, w: Write, m: nat) {
    && |t.log| == |s.log| + m && t.log[..|s.log|] == s.log
    && (forall n :: |s.log| <= n < |t.log| ==> t.log[n] == RecOf(w) && n in t.backend && t.backend[n] == RecOf(w))
    && (forall n :: !(|s.log| <= n < |t.log|) ==> (n in t.backend <==> n in s.backend) && (n in s.backend ==> t.backend[n] == s.backend[n]))
    && t.inflight == s.inflight && t.checkpoints == s.checkpoints && t.flushed == s.flushed
    && |t.history| == |s.history| + m && t.history[..|s.history|] == s.history
    && (forall i :: |s.history| <= i < |t.history| ==> t.history[i] == w)
  }

  /** The write `w` fills the current batch, and buffer `y` is free. */
  ghost predicate Ready(cfg: Config, s: State, w: Write, x: int, y: int) {
    && !s.publishing && s.queue == [] && s.current == Batch(x, [w]) && 0 < |w.data| == cfg.max && Apart(cfg, x, y)
    && (forall n :: n in s.inflight ==> n < |s.log|)
    && (forall n :: n in s.inflight && s.inflight[n].BatchPut? ==> Apart(cfg, s.inflight[n].addr, x) && Apart(cfg, s.inflight[n].addr, y))
  }

  function FillingOne(w: Write, y: int, n: int): seq<Step> {
    [Append(w, y), WorkPut, Complete(n)]
  }

  /** A client write goes in only while no more than a window of backend writes are outstanding. */
  ghost predicate Paced(cfg: Config, s: State, steps: seq<Step>)
    decreases |steps|
  {
    steps != [] && Enabled(cfg, s, steps[0]) ==>
      (steps[0].Append? ==> |s.inflight| <= cfg.window) && Paced(cfg, Do(cfg, s, steps[0]), steps[1..])
  }

  lemma {:induction false} PacedJoin(cfg: Config, s: State, x: seq<Step>, t: State, y: seq<Step>)
    requires Run(cfg, s, x, t) && Paced(cfg, s, x) && Paced(cfg, t, y)
    ensures Paced(cfg, s, x + y)
    decreases |x|
  {
    hide Do, Enabled;
    if x == [] {
      assert x + y == y;
    } else {
      PacedJoin(cfg, Do(cfg, s, x[0]), x[1..], t, y);
      assert (x + y)[1..] == x[1..] + y;
    }
  }

  lemma {:induction false} PacedThree(cfg: Config, s: State, x: Step, y: Step, z: Step)
    requires !y.Append? && !z.Append? && (x.Append? ==> |s.inflight| <= cfg.window)
    ensures Paced(cfg, s, [x, y, z])
  {
    hide Enabled, Do;
    var l := [x, y, z];
    assert l[1..] == [y, z] && l[1..][1..] == [z] && l[1..][1..][1..] == [];
    if Enabled(cfg, s, x) && Enabled(cfg, Do(cfg, s, x), y) {
      PacedOne(cfg, Do(cfg, Do(cfg, s, x), y), z);
    }
  }

  /** One full batch more: the next write seals it, the worker sends it, and it arrives. */
  lemma {:induction false} FillOne(cfg: Config, s: State, w: Write, x: int, y: int) returns (t: State)
    requires Ready(cfg, s, w, x, y)
    ensures Run(cfg, s, FillingOne(w, y, |s.log|), t) && Ready(cfg, t, w, y, x) && Later(s, t, w, 1)
    ensures |s.inflight| <= cfg.window ==> Paced(cfg, s, FillingOne(w, y, |s.log|))
  {
    hide Run, Paced, Later, DoAppend, DoPut;
    assert Fresh(cfg, s, y);
    SealedFull(cfg, s, w, x, y);
    var s1 := DoAppend(cfg, s, w, y);
    var s2 := SentFull(s1, w, x);
    ArrivedFull(cfg, s, s2, w, x, y);
    t := DoComplete(cfg, s2, |s.log|);
    RunThree(cfg, s, Append(w, y), WorkPut, Complete(|s.log|));
    if |s.inflight| <= cfg.window {
      PacedThree(cfg, s, Append(w, y), WorkPut, Complete(|s.log|));
    }
  }

  lemma {:induction false} SealedFull(cfg: Config, s: State, w: Write, x: int, y: int)
    requires s.queue == [] && s.current == Batch(x, [w]) && 0 < |w.data| == cfg.max
    ensures var t := DoAppend(cfg, s, w, y);
            t == s.(history := s.history + [w], queue := [PutReq(Batch(x, [w]))], current := Batch(y, [w]), bufmap := t.bufmap)
  {
    hide BufferWrite;
    OneTotal(w);
    assert [] + [PutReq(s.current)] == [PutReq(s.current)] && [] + [w] == [w];
  }

  lemma {:induction false} SentFull(s: State, w: Write, x: int) returns (t: State)
    requires s.queue == [PutReq(Batch(x, [w]))]
    ensures t == DoPut(s)
    ensures t == s.(log := s.log + [RecOf(w)], queue := [], inflight := s.inflight[|s.log| := BatchPut(x)], objmap := t.objmap, info := t.info)
  {
    hide AddObject, ApplyPieces;
    t := DoPut(s);
  }

  lemma {:induction false} ArrivedFull(cfg: Config, s: State, s2: State, w: Write, x: int, y: int)
    requires Ready(cfg, s, w, x, y)
    requires s2 == s.(history := s.history + [w], current := Batch(y, [w]), bufmap := s2.bufmap, log := s.log + [RecOf(w)],
      queue := [], inflight := s.inflight[|s.log| := BatchPut(x)], objmap := s2.objmap, info := s2.info)
    ensures Enabled(cfg, s2, Complete(|s.log|))
    ensures var t := DoComplete(cfg, s2, |s.log|); Ready(cfg, t, w, y, x) && Later(s, t, w, 1)
  {
    hide Drop;
    var t := DoComplete(cfg, s2, |s.log|);
    assert t.inflight == s.inflight;
  }

  lemma {:induction false} OneTotal(w: Write)
    ensures Total([]) == 0 && Total([w]) == |w.data|
  {
    assert [w][..0] == [];
  }

  lemma {:induction false} LaterOne(s: State, t: State, u: State, w: Write, m: nat)
    requires Later(s, t, w, m) && Later(t, u, w, 1)
    ensures Later(s, u, w, m + 1)
  {
    assert u.log[..|s.log|] == t.log[..|s.log|];
    assert u.history[..|s.history|] == t.history[..|s.history|];
  }

  /** Any number of them, in two buffers by turns. */
  lemma {:induction false} FillMany(cfg: Config, s: State, w: Write, x: int, y: int, m: nat) returns (t: State, steps: seq<Step>, z: int)
    requires Ready(cfg, s, w, x, y)
    ensures Run(cfg, s, steps, t) && NoCrash(steps) && Later(s, t, w, m)
    ensures (z == x || z == y) && Ready(cfg, t, w, z, if z == x then y else x)
    ensures |s.inflight| <= cfg.window ==> Paced(cfg, s, steps)
    decreases m
  {
    hide Run, Paced, Ready;
    if m == 0 {
      t, steps, z := s, [], x;
      assert Run(cfg, s, [], s) && Paced(cfg, s, []) by { Nothing(cfg, s); }
      assert s.log[..|s.log|] == s.log && s.history[..|s.history|] == s.history;
    } else {
      var u, first, v := FillMany(cfg, s, w, x, y, m - 1);
      var v' := if v == x then y else x;
      t := FillOne(cfg, u, w, v, v');
      ReadyApart(cfg, u, w, v, v');
      z := v';
      steps := first + FillingOne(w, v', |u.log|);
      RunJoin(cfg, s, first, u, FillingOne(w, v', |u.log|), t);
      LaterOne(s, u, t, w, m - 1);
      if |s.inflight| <= cfg.window {
        PacedJoin(cfg, s, first, u, FillingOne(w, v', |u.log|));
      }
    }
  }

  lemma {:induction false} ReadyApart(cfg: Config, s: State, w: Write, x: int, y: int)
    requires Ready(cfg, s, w, x, y)
    ensures x != y
  {
  }

  lemma {:induction false} Nothing(cfg: Config, s: State)
    ensures Run(cfg, s, [], s) && Paced(cfg, s, [])
  {
  }

  /** A buffer that does not touch the one at `x`. */
  function Far(cfg: Config, x: int): (y: int)
    ensures Apart(cfg, x, y)
  {
    x + 512 * cfg.max + 1
  }

  /** The first write after a crash, then as many full batches as it takes. */
  lemma {:induction false} Refill(cfg: Config, s: State, w: Write, m: nat) returns (t: State, steps: seq<Step>)
    requires !s.publishing && s.queue == [] && s.inflight == map[] && s.current == Batch(s.current.addr, []) && 0 < |w.data| == cfg.max
    ensures Run(cfg, s, steps, t) && NoCrash(steps) && Paced(cfg, s, steps)
    ensures exists u :: Later(u, t, w, m) && u == s.(history := s.history + [w], current := u.current, bufmap := u.bufmap)
  {
    hide Run, Paced, Later, BufferWrite;
    var x := s.current.addr;
    var y := Far(cfg, x);
    var u := DoAppend(cfg, s, w, y);
    OneTotal(w);
    assert [] + [w] == [w] && u.current == Batch(x, [w]);
    assert Enabled(cfg, s, Append(w, y));
    RunOne(cfg, s, Append(w, y));
    assert Paced(cfg, s, [Append(w, y)]) by { PacedOne(cfg, s, Append(w, y)); }
    var rest, z;
    t, rest, z := FillMany(cfg, u, w, x, y, m);
    steps := [Append(w, y)] + rest;
    RunJoin(cfg, s, [Append(w, y)], u, rest, t);
    PacedJoin(cfg, s, [Append(w, y)], u, rest);
  }

  lemma {:induction false} PacedOne(cfg: Config, s: State, x: Step)
    requires x.Append? ==> |s.inflight| <= cfg.window
    ensures Paced(cfg, s, [x])
  {
    assert [x][1..] == [];
  }

  // ---- a crash with no checkpoint ----

  /** The image after a crash with no checkpoint, once it has named its first checkpoint. */
  ghost function Reopened(cfg: Config, s: State, b: int): State
    requires s.checkpoints == []
  {
    DoPublish(DoCkpt(DoEnqueue(DoCrash(cfg, s), b, CkptReq)))
  }

  lemma {:induction false} ReopenedFacts(cfg: Config, s: State, b: int)
    requires s.checkpoints == [] && s.log != [] && s.log[0].CkptRec?
    ensures var t := Reopened(cfg, s, b);
            && t.history == [] && t.checkpoints == [1] && t.backend == s.backend[1 := CkptRec(map[], map[])] && |t.log| == 2
            && !t.publishing && t.queue == [] && t.inflight == map[] && t.current == Batch(s.current.addr, []) && t.flushed == s.flushed
  {
    var s1 := DoCrash(cfg, s);
    assert s1.log == s.log[..1] && LogWrites(s1.log, 0) == [] && LogWrites(s1.log, 1) == [];
    var s2 := DoEnqueue(s1, b, CkptReq);
    var s3 := DoCkpt(s2);
    assert s3.backend == s.backend[1 := CkptRec(map[], map[])] && |s3.log| == 2;
    assert [] + [1] == [1] && Keep([1]) == [1];
    assert DoPublish(s3).backend == s3.backend;
  }

  lemma {:induction false} ReopenedRun(cfg: Config, s: State, b: int)
    requires s.checkpoints == [] && s.log != [] && Apart(cfg, s.current.addr, b)
    ensures Run(cfg, s, [Crash, Checkpoint(b), WorkCkpt, Publish], Reopened(cfg, s, b))
  {
    hide Run, RecoveredMap, RecoveredInfo, LogWrites, Swept, RecoverPoint;
    ReopenedStart(cfg, s, b);
    var s2 := DoEnqueue(DoCrash(cfg, s), b, CkptReq);
    RunTwo(cfg, s2, WorkCkpt, Publish);
    RunJoin(cfg, s, [Crash, Checkpoint(b)], s2, [WorkCkpt, Publish], Reopened(cfg, s, b));
    assert [Crash, Checkpoint(b)] + [WorkCkpt, Publish] == [Crash, Checkpoint(b), WorkCkpt, Publish];
  }

  lemma {:induction false} ReopenedStart(cfg: Config, s: State, b: int)
    requires s.checkpoints == [] && s.log != [] && Apart(cfg, s.current.addr, b)
    ensures Run(cfg, s, [Crash, Checkpoint(b)], DoEnqueue(DoCrash(cfg, s), b, CkptReq))
  {
    hide Run, RecoveredMap, RecoveredInfo, LogWrites, Swept, RecoverPoint;
    assert Buffers(DoCrash(cfg, s)) == {s.current.addr};
    RunTwo(cfg, s, Crash, Checkpoint(b));
  }

  /** Nothing of the lost generation that the next crash would replay holds a sector. */
  ghost predicate TailEmpty(backend: map<int, Rec>) {
    forall n, a :: 2 <= n < Roll(backend, 2) ==> !Touches(PiecesOf(backend, n), a)
  }

  /** With no checkpoint recovery sweeps nothing. Once the image has named its first checkpoint it has accepted no write,
      and a crash gives the empty disk exactly when the objects from number 2 on, up to the first gap, hold nothing. */
  lemma {:induction false} AbandonedTailExact(cfg: Config, s: State, b: int)
    requires s.checkpoints == [] && s.log != [] && s.log[0].CkptRec?
    ensures Reopened(cfg, s, b).history == []
    ensures Recovers(Reopened(cfg, s, b), 0) <==> TailEmpty(s.backend)
    ensures (exists j :: Recovers(Reopened(cfg, s, b), j)) <==> TailEmpty(s.backend)
  {
    hide Reopened, RecoveredMap, TailEmpty;
    ReopenedFacts(cfg, s, b);
    var t := Reopened(cfg, s, b);
    ReopenedMap(s, t);
    assert DiskAfter(t.history[..0]) == map[];
    assert RecoveredMap(t) == map[] <==> RecoveredMap(t).Keys == {};
  }

  lemma {:induction false} ReopenedMap(s: State, t: State)
    requires t.checkpoints == [1] && t.backend == s.backend[1 := CkptRec(map[], map[])]
    ensures HasCkpt(t) && (RecoveredMap(t) == map[] <==> TailEmpty(s.backend))
  {
    hide Touches;
    SameRoll(s.backend, t.backend, 2);
    var k := RecoverPoint(t);
    assert forall n :: 2 <= n < k ==> PiecesOf(t.backend, n) == PiecesOf(s.backend, n);
    hide PiecesOf;
    forall a ensures a in RecoveredMap(t) <==> exists n :: 2 <= n < k && Touches(PiecesOf(s.backend, n), a) {
      ReplayKeys(t, k, a);
      BeforeIs(s, t, k, a);
    }
    hide RecoveredMap;
    assert RecoveredMap(t) == map[] <==> forall a :: a !in RecoveredMap(t);
    assert k == Roll(s.backend, 2);
    hide RecoverPoint;
    if RecoveredMap(t) == map[] {
      forall n, a | 2 <= n < k ensures !Touches(PiecesOf(s.backend, n), a) {
        assert a !in RecoveredMap(t);
      }
    }
  }

  lemma {:induction false} BeforeIs(s: State, t: State, k: int, a: int)
    requires LastCkpt(t) == 1 && forall n :: 2 <= n < k ==> PiecesOf(t.backend, n) == PiecesOf(s.backend, n)
    ensures TouchedBefore(t, k, a) <==> exists n :: 2 <= n < k && Touches(PiecesOf(s.backend, n), a)
  {
    hide PiecesOf, Touches;
  }

  lemma {:induction false} SameRoll(x: map<int, Rec>, y: map<int, Rec>, k: int)
    requires forall n :: k <= n ==> (n in x <==> n in y) && (n in x ==> x[n] == y[n])
    ensures Roll(x, k) == Roll(y, k)
  {
    var r, q := Roll(x, k), Roll(y, k);
    assert (r < q ==> r in y) && (q < r ==> q in x);
  }

  /** A run on which the tail is not empty: two writes are lost in a crash, and the second of them comes back in the next,
      on a volume that has accepted nothing since. */
  lemma {:induction false} GenerationsMixed(cfg: Config, a: int, b: int) returns (t: State)
    requires 1 <= cfg.max && Apart(cfg, a, b)
    ensures Run(cfg, Init(a), Writing(ONE, b, 1) + Writing(TWO, a, 2) + [Crash, Checkpoint(b), WorkCkpt, Publish], t)
    ensures t.history == [] && HasCkpt(t) && 0 in RecoveredMap(t) && forall j :: !Recovers(t, j)
  {
    hide Run, Quiet, Reopened, Recovers, RecoveredMap, TailEmpty;
    var s := TwoWritten(cfg, a, b);
    AbandonedTailExact(cfg, s, b);
    ReopenedFacts(cfg, s, b);
    ReopenedRun(cfg, s, b);
    t := Reopened(cfg, s, b);
    RunJoin(cfg, Init(a), Writing(ONE, b, 1) + Writing(TWO, a, 2), s, [Crash, Checkpoint(b), WorkCkpt, Publish], t);
    SecondBack(s, t);
  }

  lemma {:induction false} SecondBack(s: State, t: State)
    requires 2 in s.backend && s.backend[2] == RecOf(TWO) && t.checkpoints == [1] && t.backend == s.backend[1 := CkptRec(map[], map[])]
    ensures !TailEmpty(s.backend) && HasCkpt(t) && 0 in RecoveredMap(t)
  {
    hide RecoveredMap;
    assert [TWO][0].Covers(0);
    assert Touches(PiecesOf(s.backend, 2), 0) && 2 < Roll(s.backend, 2);
    assert Touches(PiecesOf(t.backend, 2), 0);
    assert 2 < RecoverPoint(t) && TouchedBefore(t, RecoverPoint(t), 0);
    RecoveredKeys(t, 0);
  }

  lemma {:induction false} RecoveredKeys(t: State, a: int)
    requires HasCkpt(t) && TouchedBefore(t, RecoverPoint(t), a)
    ensures a in RecoveredMap(t)
  {
    hide TouchedBefore, Replay;
    ReplayKeys(t, RecoverPoint(t), a);
  }

  lemma {:induction false} TwoWritten(cfg: Config, a: int, b: int) returns (s: State)
    requires 1 <= cfg.max && Apart(cfg, a, b)
    ensures Run(cfg, Init(a), Writing(ONE, b, 1) + Writing(TWO, a, 2), s)
    ensures s.checkpoints == [] && |s.log| == 3 && s.log[0].CkptRec? && s.current.addr == a
    ensures 2 in s.backend && s.backend[2] == RecOf(TWO)
  {
    hide Run, Safe, AddObject, ApplyPieces;
    StartQuiet(cfg, a);
    var s1 := WriteRun(cfg, Init(a), ONE, b);
    s := WriteRun(cfg, s1, TWO, a);
    RunJoin(cfg, Init(a), Writing(ONE, b, 1), s1, Writing(TWO, a, 2), s);
  }

  // ---- every object left over can come back ----

  /** The image opened again, with a checkpoint named. */
  lemma {:induction false} NamedAgain(cfg: Config, s: State) returns (t: State, steps: seq<Step>)
    requires Own(s) && (s.checkpoints != [] ==> HasCkpt(s))
    ensures Run(cfg, DoCrash(cfg, s), steps, t) && NoCrash(steps) && Paced(cfg, DoCrash(cfg, s), steps)
    ensures HasCkpt(t) && !t.publishing && t.queue == [] && t.inflight == map[] && t.current == Batch(s.current.addr, [])
    ensures t.history == DoCrash(cfg, s).history && t.flushed == s.flushed
    ensures forall n :: LastCkpt(t) < n < |t.log| ==> n in t.backend && t.backend[n].DataRec?
    ensures LastCkpt(t) < |t.log| && 0 < |t.log|
    ensures forall n :: Leftover(cfg, s, n) ==> |t.log| <= n && n in t.backend && t.backend[n] == s.backend[n] && t.backend[n].DataRec?
  {
    hide Run, Paced;
    if s.checkpoints == [] {
      var b := Far(cfg, s.current.addr);
      hide DoCrash;
      t, steps := FirstNamed(cfg, s, b);
    } else {
      hide RecoveredMap, RecoveredInfo, LogWrites;
      PointInLog(s);
      t, steps := DoCrash(cfg, s), [];
      Nothing(cfg, t);
    }
  }

  lemma {:induction false} FirstNamed(cfg: Config, s: State, b: int) returns (t: State, steps: seq<Step>)
    requires Own(s) && s.checkpoints == [] && Apart(cfg, s.current.addr, b)
    ensures Run(cfg, DoCrash(cfg, s), steps, t) && NoCrash(steps) && Paced(cfg, DoCrash(cfg, s), steps)
    ensures HasCkpt(t) && !t.publishing && t.queue == [] && t.inflight == map[] && t.current == Batch(s.current.addr, [])
    ensures t.history == DoCrash(cfg, s).history && t.flushed == s.flushed && LastCkpt(t) == 1 && |t.log| == 2
    ensures forall n :: 2 <= n && n in s.backend ==> n in t.backend && t.backend[n] == s.backend[n]
  {
    hide Run, Paced, Reopened, RecoveredMap, RecoveredInfo, Swept, LogWrites;
    t, steps := Reopened(cfg, s, b), [Checkpoint(b), WorkCkpt, Publish];
    ReopenedFacts(cfg, s, b);
    MarkedAgain(cfg, s, b);
    PacedThree(cfg, DoCrash(cfg, s), Checkpoint(b), WorkCkpt, Publish);
  }

  lemma {:induction false} MarkedAgain(cfg: Config, s: State, b: int)
    requires Own(s) && s.checkpoints == [] && Apart(cfg, s.current.addr, b)
    ensures Run(cfg, DoCrash(cfg, s), [Checkpoint(b), WorkCkpt, Publish], Reopened(cfg, s, b))
    ensures DoCrash(cfg, s).history == []
  {
    hide Run, RecoveredMap, RecoveredInfo, Swept;
    var t := DoCrash(cfg, s);
    assert t.log == s.log[..1] && LogWrites(t.log, 0) == [] && LogWrites(t.log, 1) == [];
    assert Buffers(t) == {s.current.addr};
    RunThree(cfg, t, Checkpoint(b), WorkCkpt, Publish);
  }

  /** Whatever object is left over, filling up to its number makes the next crash replay it. */
  lemma {:induction false} LeftoverReplayed(cfg: Config, s: State, n: int, w: Write) returns (u: State, steps: seq<Step>)
    requires Own(s) && (s.checkpoints != [] ==> HasCkpt(s)) && Leftover(cfg, s, n) && 0 < |w.data| == cfg.max
    ensures Run(cfg, DoCrash(cfg, s), steps, u) && NoCrash(steps) && Paced(cfg, DoCrash(cfg, s), steps)
    ensures HasCkpt(u) && LastCkpt(u) < |u.log| == n < RecoverPoint(u) && n in u.backend && u.backend[n] == s.backend[n] && u.flushed == s.flushed
    ensures var h := DoCrash(cfg, s).history; h <= u.history && forall i :: |h| <= i < |u.history| ==> u.history[i] == w
  {
    hide Run, Paced, Leftover, DoCrash, HasCkpt, RecoverPoint;
    var t, first := NamedAgain(cfg, s);
    var rest;
    u, rest := Refill(cfg, t, w, n - |t.log|);
    var v :| Later(v, u, w, n - |t.log|) && v == t.(history := t.history + [w], current := v.current, bufmap := v.bufmap);
    Caught(t, v, u, w, n);
    steps := first + rest;
    RunJoin(cfg, DoCrash(cfg, s), first, t, rest, u);
    PacedJoin(cfg, DoCrash(cfg, s), first, t, rest);
  }

  lemma {:induction false} Caught(t: State, v: State, u: State, w: Write, n: int)
    requires HasCkpt(t) && 0 < |t.log| <= n && n in t.backend && t.backend[n].DataRec? && LastCkpt(t) < |t.log|
    requires forall i :: LastCkpt(t) < i < |t.log| ==> i in t.backend && t.backend[i].DataRec?
    requires v == t.(history := t.history + [w], current := v.current, bufmap := v.bufmap) && Later(v, u, w, n - |t.log|)
    ensures HasCkpt(u) && LastCkpt(u) < |u.log| == n < RecoverPoint(u) && n in u.backend && u.backend[n] == t.backend[n] && u.flushed == t.flushed
    ensures t.history <= u.history && forall i :: |t.history| <= i < |u.history| ==> u.history[i] == w
  {
    assert forall i :: LastCkpt(u) < i <= n ==> i in u.backend && u.backend[i].DataRec?;
    assert v.history[..|t.history|] == t.history;
    assert forall i :: 0 <= i <= |t.history| ==> u.history[i] == v.history[i] by { assert u.history[..|v.history|] == v.history; }
  }

  /** After a crash the volume can go on as long as it likes, with trims and deletions of any kind, and the next crash mixes no
      generations, exactly when the sweep has left no data object at a number that replay may reach. */
  lemma {:induction false} MixExact(cfg: Config, s: State)
    requires Own(s) && (s.checkpoints != [] ==> HasCkpt(s)) && 0 < cfg.max
    ensures (forall steps, u :: Run(cfg, DoCrash(cfg, s), steps, u) && NoCrash(steps) ==> Unmixed(u)) <==> (forall n :: !Leftover(cfg, s, n))
  {
    hide Run, Own, Leftover, DoCrash, RecoverPoint, HasCkpt;
    if forall n :: !Leftover(cfg, s, n) {
      CrashOwn(cfg, s);
      forall steps, u | Run(cfg, DoCrash(cfg, s), steps, u) && NoCrash(steps) ensures Unmixed(u) {
        RunOwn(cfg, DoCrash(cfg, s), steps, u);
        OwnUnmixed(u);
      }
    } else {
      var n :| Leftover(cfg, s, n);
      var u, steps := LeftoverReplayed(cfg, s, n, Whole(cfg, 0, 0));
      Mixed(u, n);
    }
  }

  lemma {:induction false} Mixed(u: State, n: int)
    requires HasCkpt(u) && LastCkpt(u) < |u.log| == n < RecoverPoint(u) && n in u.backend
    ensures !Unmixed(u)
  {
    assert !OfLog(u, n);
  }

  /** A write that fills a batch. */
  function Whole(cfg: Config, lba: int, v: Sector): (w: Write)
    ensures w.lba == lba && |w.data| == cfg.max && forall i :: 0 <= i < cfg.max ==> w.data[i] == v
  {
    Write(lba, seq(cfg.max, _ => v))
  }

  // ---- a tail longer than the sweep ----

  /** One object is stuck on its way, the next full batch is in memory, and the one checkpoint is number 1. */
  ghost predicate Stuck(cfg: Config, s: State, w: Write, a: int) {
    && s.checkpoints == [1] && |s.log| == 3 && s.log[0].CkptRec? && s.log[1].CkptRec? && s.backend == map[1 := s.log[1]]
    && s.inflight == map[2 := BatchPut(a)] && s.flushed == 0 && s.history == [w, w]
    && Ready(cfg, s, w, Far(cfg, a), Far(cfg, Far(cfg, a)))
  }

  lemma {:induction false} StickRun(cfg: Config, a: int, w: Write) returns (t: State, steps: seq<Step>)
    requires 0 < |w.data| == cfg.max
    ensures Run(cfg, Init(a), steps, t) && NoCrash(steps) && Paced(cfg, Init(a), steps) && Stuck(cfg, t, w, a)
  {
    hide Run, Paced, Safe, DoAppend, DoPut;
    var x := Far(cfg, a);
    StartQuiet(cfg, a);
    var s := MarkRun(cfg, Init(a), x);
    PacedThree(cfg, Init(a), Checkpoint(x), WorkCkpt, Publish);
    FirstFull(cfg, s, w, x);
    var s1 := DoAppend(cfg, s, w, x);
    SealedFull(cfg, s1, w, a, x);
    var s2 := DoAppend(cfg, s1, w, x);
    t := SentFull(s2, w, a);
    assert [] + [w] + [w] == [w, w];
    assert Enabled(cfg, s, Append(w, x)) && Enabled(cfg, s1, Append(w, x)) && Enabled(cfg, s2, WorkPut);
    RunThree(cfg, s, Append(w, x), Append(w, x), WorkPut);
    PacedStick(cfg, s, Append(w, x), WorkPut);
    steps := Marking(x) + [Append(w, x), Append(w, x), WorkPut];
    RunJoin(cfg, Init(a), Marking(x), s, [Append(w, x), Append(w, x), WorkPut], t);
    PacedJoin(cfg, Init(a), Marking(x), s, [Append(w, x), Append(w, x), WorkPut]);
    assert t.inflight == map[2 := BatchPut(a)];
  }

  lemma {:induction false} PacedStick(cfg: Config, s: State, x: Step, z: Step)
    requires x.Append? && Enabled(cfg, s, x) && s.inflight == map[] && Do(cfg, s, x).inflight == map[] && !z.Append?
    ensures Paced(cfg, s, [x, x, z])
  {
    hide Enabled, Do;
    var l := [x, x, z];
    assert l[1..] == [x, z] && l[1..][1..] == [z];
    if Enabled(cfg, Do(cfg, s, x), x) {
      PacedOne(cfg, Do(cfg, Do(cfg, s, x), x), z);
    }
  }

  lemma {:induction false} FirstFull(cfg: Config, s: State, w: Write, y: int)
    requires s.current.writes == [] && |w.data| == cfg.max
    ensures var t := DoAppend(cfg, s, w, y);
            t == s.(history := s.history + [w], current := Batch(s.current.addr, [w]), bufmap := t.bufmap)
  {
    hide BufferWrite;
    OneTotal(w);
    assert [] + [w] == [w];
  }

  /** The stuck object is the gap recovery stops at; the last of the objects behind it is past the sweep. */
  lemma {:induction false} LongTail(cfg: Config, s: State, t: State, w: Write, a: int)
    requires Stuck(cfg, s, w, a) && 1 <= cfg.window && Later(s, t, w, 4 * cfg.window - 1)
    ensures HasCkpt(t) && RecoverPoint(t) == 2 && Leftover(cfg, t, 4 * cfg.window + 1) && t.backend[4 * cfg.window + 1] == RecOf(w)
    ensures DoCrash(cfg, t).history == [] && t.flushed == 0
  {
    hide RecoveredMap, RecoveredInfo, Ready;
    assert 2 !in t.backend && RecoverPoint(t) == 2;
    var log := t.log[..2];
    assert t.log[0] == t.log[..|s.log|][0] && t.log[1] == t.log[..|s.log|][1];
    assert log[0] == s.log[0] && log[1] == s.log[1];
    assert LogWrites(log, 0) == [] && LogWrites(log, 1) == [] && LogWrites(log, 2) == [];
  }

  lemma {:induction false} NotWritten(ws: seq<Write>, a: int)
    requires forall i :: 0 <= i < |ws| ==> !ws[i].Covers(a)
    ensures a !in DiskAfter(ws)
  {
    if ws != [] {
      NotWritten(ws[..|ws| - 1], a);
      assert !ws[|ws| - 1].Covers(a);
    }
  }

  /** A volume that has accepted nothing but `w` recovers as something else if an object it replays holds another sector. */
  lemma {:induction false} OldBack(u: State, n: int, old': Write, w: Write, a: int)
    requires HasCkpt(u) && LastCkpt(u) < n < RecoverPoint(u) && n in u.backend && u.backend[n] == RecOf(old')
    requires old'.Covers(a) && !w.Covers(a) && forall i :: 0 <= i < |u.history| ==> u.history[i] == w
    ensures a in RecoveredMap(u) && forall j :: !Recovers(u, j)
  {
    assert [old'][0].Covers(a) && Touches(PiecesOf(u.backend, n), a);
    assert TouchedBefore(u, RecoverPoint(u), a);
    RecoveredKeys(u, a);
    hide RecoveredMap, DiskAfter;
    forall j | 0 <= j <= |u.history| ensures a !in DiskAfter(u.history[..j]) {
      NotWritten(u.history[..j], a);
    }
  }

  /** For any window: an object stuck on its way, and behind it as many durable ones as the sweep has numbers. After the
      crash the volume fills the numbers again with other writes, and the next crash replays an object of the generation
      that was lost, although no flush was ever asked for, a checkpoint is named, and clients kept to the window. */
  lemma {:induction false} TailOutrunsSweep(cfg: Config, a: int) returns (u: State, before: seq<Step>, after: seq<Step>)
    requires 0 < cfg.max && 1 <= cfg.window
    ensures Run(cfg, Init(a), before + ([Crash] + after), u) && NoCrash(before) && NoCrash(after)
    ensures Paced(cfg, Init(a), before + ([Crash] + after)) && u.flushed == 0
    ensures HasCkpt(u) && (forall i :: 0 <= i < |u.history| ==> u.history[i] == Whole(cfg, cfg.max, 8))
    ensures 0 in RecoveredMap(u) && forall j :: !Recovers(u, j)
  {
    hide Run, Paced, Stuck, Later, Ready, Leftover, Own, RecoverPoint, RecoveredMap, Recovers, DoCrash, HasCkpt, Whole;
    var w, n := Whole(cfg, 0, 7), 4 * cfg.window + 1;
    var s, first := StickRun(cfg, a, w);
    StuckReady(cfg, s, w, a);
    var t, rest, z := FillMany(cfg, s, w, Far(cfg, a), Far(cfg, Far(cfg, a)), 4 * cfg.window - 1);
    LongTail(cfg, s, t, w, a);
    before := first + rest;
    RunJoin(cfg, Init(a), first, s, rest, t);
    PacedJoin(cfg, Init(a), first, s, rest);
    InitOwn(a);
    RunOwn(cfg, Init(a), before, t);
    u, after := LeftoverReplayed(cfg, t, n, Whole(cfg, cfg.max, 8));
    CrashThen(cfg, t, after, u);
    RunJoin(cfg, Init(a), before, t, [Crash] + after, u);
    PacedJoin(cfg, Init(a), before, t, [Crash] + after);
    OldBack(u, n, w, Whole(cfg, cfg.max, 8), 0);
  }

  lemma {:induction false} CrashThen(cfg: Config, t: State, after: seq<Step>, u: State)
    requires (t.checkpoints != [] ==> HasCkpt(t)) && Run(cfg, DoCrash(cfg, t), after, u) && Paced(cfg, DoCrash(cfg, t), after)
    ensures Run(cfg, t, [Crash] + after, u) && Paced(cfg, t, [Crash] + after)
  {
    hide DoCrash;
    assert ([Crash] + after)[1..] == after;
  }

  lemma {:induction false} StuckReady(cfg: Config, s: State, w: Write, a: int)
    requires Stuck(cfg, s, w, a)
    ensures Ready(cfg, s, w, Far(cfg, a), Far(cfg, Far(cfg, a))) && |s.inflight| == 1
  {
    hide Ready;
  }

  lemma {:induction false} InitOwn(a: int)
    ensures Own(Init(a))
  {
  }
}
