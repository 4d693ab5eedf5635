/** Runs put together from a few stretches: one write sent, its completion, a checkpoint. */
module Runs {
  import opened Volume
  import opened Machine
  import opened CrashSafety
  import opened PrefixConsistency

  const ONE: Write := Write(0, [7])
  const TWO: Write := Write(0, [8])

  lemma {:induction false} RunCons(cfg: Config, s: State, step: Step, rest: seq<Step>, t: State)
    requires Enabled(cfg, s, step) && Run(cfg, Do(cfg, s, step), rest, t)
    ensures Run(cfg, s, [step] + rest, t)
  {
    assert ([step] + rest)[1..] == rest;
  }

  lemma {:induction false} RunOne(cfg: Config, s: State, x: Step)
    requires Enabled(cfg, s, x)
    ensures Run(cfg, s, [x], Do(cfg, s, x))
  {
    assert [x][1..] == [];
  }

  lemma {:induction false} RunTwo(cfg: Config, s: State, x: Step, y: Step)
    requires Enabled(cfg, s, x) && Enabled(cfg, Do(cfg, s, x), y)
    ensures Run(cfg, s, [x, y], Do(cfg, Do(cfg, s, x), y))
  {
    assert [x, y][1..] == [y] && [y][1..] == [];
  }

  lemma {:induction false} RunThree(cfg: Config, s: State, x: Step, y: Step, z: Step)
    requires Enabled(cfg, s, x) && Enabled(cfg, Do(cfg, s, x), y) && Enabled(cfg, Do(cfg, Do(cfg, s, x), y), z)
    ensures Run(cfg, s, [x, y, z], Do(cfg, Do(cfg, Do(cfg, s, x), y), z))
  {
    RunTwo(cfg, Do(cfg, s, x), y, z);
    assert [x, y, z][1..] == [y, z];
  }

  lemma {:induction false} RunJoin(cfg: Config, s: State, x: seq<Step>, t: State, y: seq<Step>, u: State)
    requires Run(cfg, s, x, t) && Run(cfg, t, y, u)
    ensures Run(cfg, s, x + y, u)
    decreases |x|
  {
    hide Do, Enabled;
    if x == [] {
      assert x + y == y;
    } else {
      RunJoin(cfg, Do(cfg, s, x[0]), x[1..], t, y, u);
      assert (x + y)[1..] == x[1..] + y;
    }
  }

  /** Nothing is under way. */
  ghost predicate Quiet(cfg: Config, s: State, addr: int) {
    Safe(cfg, s) && s.queue == [] && s.inflight == map[] && !s.publishing && s.current == Batch(addr, [])
  }

  /** One write has been accepted, and its object is on its way with a flush behind it. */
  ghost function Sent(s: State, w: Write, b: int): State {
    var n, o := |s.log|, DataObj(HdrSectors(1), [w], false);
    var m := ApplyPieces(s.objmap, n, o.hdr, o.pieces);
    s.(history := s.history + [w], log := s.log + [DataRec(o)], current := Batch(b, []), queue := [FlushReq(|s.history| + 1)],
       objmap := m, info := AddObject(s.info, s.objmap, m, n, o), inflight := map[n := BatchPut(s.current.addr)])
  }

  function Sending(w: Write, b: int): seq<Step> {
    [Append(w, b), Flush(b), WorkPut]
  }

  lemma {:induction false} SendRun(cfg: Config, s: State, w: Write, b: int) returns (t: State)
    requires Quiet(cfg, s, s.current.addr) && 0 < |w.data| <= cfg.max && Apart(cfg, s.current.addr, b)
    ensures Run(cfg, s, Sending(w, b), t) && t == Sent(s, w, b).(bufmap := t.bufmap) && Safe(cfg, t)
  {
    hide Safe, Run, AddObject, ApplyPieces, BufferWrite, Issue;
    var s1 := DoAppend(cfg, s, w, b);
    assert [w][..0] == [] && [] + [w] == [w];
    assert s1 == s.(history := s.history + [w], current := Batch(s.current.addr, [w]), bufmap := s1.bufmap);
    assert Enabled(cfg, s, Append(w, b));
    StepSafe(cfg, s, Append(w, b));
    var s2 := DoEnqueue(s1, b, FlushReq(|s1.history|));
    assert [] + [PutReq(s1.current)] + [FlushReq(|s1.history|)] == [PutReq(s1.current), FlushReq(|s1.history|)];
    assert s2 == s1.(current := Batch(b, []), queue := [PutReq(s1.current), FlushReq(|s1.history|)]);
    assert Enabled(cfg, s1, Flush(b));
    StepSafe(cfg, s1, Flush(b));
    t := DoPut(s2);
    StepSafe(cfg, s2, WorkPut);
    RunThree(cfg, s, Append(w, b), Flush(b), WorkPut);
    SentBy(s, s2, w, b);
  }

  lemma {:induction false} SentBy(s: State, s2: State, w: Write, b: int)
    requires s.inflight == map[] && s2 == s.(history := s.history + [w], current := Batch(b, []), bufmap := s2.bufmap,
      queue := [PutReq(Batch(s.current.addr, [w])), FlushReq(|s.history| + 1)])
    ensures DoPut(s2) == Sent(s, w, b).(bufmap := s2.bufmap)
  {
    hide AddObject, ApplyPieces;
    assert s2.queue[1..] == [FlushReq(|s.history| + 1)];
    assert s.inflight[|s.log| := BatchPut(s.current.addr)] == map[|s.log| := BatchPut(s.current.addr)];
  }

  /** The object arrives and the flush returns. */
  ghost function Arrived(s: State): State
    requires s.log != [] && s.queue != [] && s.queue[0].FlushReq?
  {
    var n := |s.log| - 1;
    s.(backend := s.backend[n := s.log[n]], inflight := map[], queue := [],
       flushed := if s.queue[0].covers > s.flushed then s.queue[0].covers else s.flushed)
  }

  lemma {:induction false} ArriveRun(cfg: Config, s: State, addr: int) returns (t: State)
    requires Safe(cfg, s) && !s.publishing && s.log != [] && s.log[|s.log| - 1].DataRec?
    requires s.inflight == map[|s.log| - 1 := BatchPut(addr)] && |s.queue| == 1 && s.queue[0].FlushReq?
    ensures Run(cfg, s, [Complete(|s.log| - 1), WorkFlush], t) && t == Arrived(s).(bufmap := t.bufmap) && Safe(cfg, t)
  {
    hide Safe, Run, Drop;
    var n := |s.log| - 1;
    StepSafe(cfg, s, Complete(n));
    var s1 := DoComplete(cfg, s, n);
    assert s1.inflight == map[];
    StepSafe(cfg, s1, WorkFlush);
    t := DoFlushed(s1);
    assert s.queue[1..] == [];
    RunTwo(cfg, s, Complete(n), WorkFlush);
  }

  function Writing(w: Write, b: int, n: int): seq<Step> {
    Sending(w, b) + [Complete(n), WorkFlush]
  }

  /** A write, all the way to the backend and flushed. */
  lemma {:induction false} WriteRun(cfg: Config, s: State, w: Write, b: int) returns (t: State)
    requires Quiet(cfg, s, s.current.addr) && 0 < |w.data| <= cfg.max && Apart(cfg, s.current.addr, b) && s.flushed <= |s.history|
    ensures Run(cfg, s, Writing(w, b, |s.log|), t) && Quiet(cfg, t, b)
    ensures t == Arrived(Sent(s, w, b)).(bufmap := t.bufmap)
  {
    hide Safe, Run, AddObject, ApplyPieces;
    var u := SendRun(cfg, s, w, b);
    t := ArriveRun(cfg, u, s.current.addr);
    RunJoin(cfg, s, Sending(w, b), u, [Complete(|s.log|), WorkFlush], t);
  }

  /** A checkpoint of a quiet volume has been written and named. */
  function Marked(s: State): State {
    var r := CkptRec(s.objmap, s.info);
    s.(log := s.log + [r], backend := s.backend[|s.log| := r], checkpoints := s.checkpoints + [|s.log|])
  }

  function Marking(b: int): seq<Step> {
    [Checkpoint(b), WorkCkpt, Publish]
  }

  lemma {:induction false} MarkRun(cfg: Config, s: State, b: int) returns (t: State)
    requires Quiet(cfg, s, s.current.addr) && Apart(cfg, s.current.addr, b) && |s.checkpoints| < 3
    ensures Run(cfg, s, Marking(b), t) && t == Marked(s) && Quiet(cfg, t, s.current.addr)
  {
    hide Safe, Run;
    assert Enabled(cfg, s, Checkpoint(b));
    StepSafe(cfg, s, Checkpoint(b));
    var s1 := DoEnqueue(s, b, CkptReq);
    assert [] + [CkptReq] == [CkptReq] && s1 == s.(queue := [CkptReq]);
    StepSafe(cfg, s1, WorkCkpt);
    var s2 := DoCkpt(s1);
    assert [CkptReq][1..] == [];
    StepSafe(cfg, s2, Publish);
    t := DoPublish(s2);
    NamedAll(s2);
    RunThree(cfg, s, Checkpoint(b), WorkCkpt, Publish);
  }

  lemma {:induction false} NamedAll(s: State)
    requires |s.checkpoints| < 3
    ensures DoPublish(s) == s.(checkpoints := s.checkpoints + [|s.log| - 1], publishing := false)
  {
    var t := DoPublish(s);
    assert t.backend.Keys == s.backend.Keys;
    assert t.backend == s.backend;
  }

  lemma {:induction false} StartQuiet(cfg: Config, a: int)
    ensures Quiet(cfg, Init(a), a)
  {
    hide Safe;
    InitSafe(cfg, a);
  }
}
