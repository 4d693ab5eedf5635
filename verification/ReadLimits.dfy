/** Runs on which a read does not find the newest write, or a mapped sector has no row. */
module ReadLimits {
  import opened Extents
  import opened Volume
  import opened Machine
  import opened Runs
  import opened PrefixConsistency
  import opened ReadTheorem

  const BOTH: seq<Write> := [ONE, TWO]
  const MOVED: GcEntry := GcEntry(0, 1, 9, [8])

  lemma {:induction false} MapTwice()
    ensures ApplyPieces(map[], 1, 8, BOTH) == map[0 := ObjPtr(1, 9)]
  {
    assert BOTH[..1] == [ONE] && [ONE][..0] == [];
    assert Override(map[], 0, 1, ObjPtr(1, 8)) == map[0 := ObjPtr(1, 8)];
    assert ApplyPieces(map[], 1, 8, [ONE]) == map[0 := ObjPtr(1, 8)];
    assert Override(map[0 := ObjPtr(1, 8)], 0, 1, ObjPtr(1, 9)) == map[0 := ObjPtr(1, 9)];
    assert Total([ONE]) == 1;
  }

  lemma {:induction false} BothPayload()
    ensures Total(BOTH) == 2 && Payload(BOTH) == [7, 8]
  {
    assert BOTH[..1] == [ONE] && [ONE][..0] == [];
    assert Total([ONE]) == 1 && Payload([ONE]) == [7];
  }

  lemma {:induction false} MapMoved()
    ensures ApplyPieces(map[0 := ObjPtr(1, 9)], 2, 8, [TWO]) == map[0 := ObjPtr(2, 8)]
  {
    assert [TWO][..0] == [];
    var m := map[0 := ObjPtr(1, 9)];
    assert Override(m, 0, 1, ObjPtr(2, 8)) == map[0 := ObjPtr(2, 8)];
  }

  /** The state after two writes of one sector are in an object of their own. */
  ghost predicate Stored(s: State, a: int, done: bool) {
    && s.log == Init(a).log + [DataRec(DataObj(8, BOTH, false))] && s.history == BOTH
    && s.queue == [FlushReq(2)] && s.checkpoints == [] && !s.publishing && s.gc == Idle
    && s.objmap == map[0 := ObjPtr(1, 9)]
    && s.info == map[1 := Info(8, 2, 1)]
    && s.inflight == (if done then map[] else map[1 := BatchPut(a)])
    && s.backend == (if done then map[1 := s.log[1]] else map[])
    && (if done then 0 !in s.bufmap else 0 in s.bufmap && s.bufmap[0] == BufPtr(a + 512))
  }

  ghost predicate Waiting(s: State, a: int) {
    && s.log == Init(a).log && s.history == BOTH && s.queue == [PutReq(Batch(a, BOTH)), FlushReq(2)] && s.checkpoints == [] && !s.publishing
    && s.gc == Idle && s.objmap == map[] && s.info == map[] && s.inflight == map[] && s.backend == map[]
    && 0 in s.bufmap && s.bufmap[0] == BufPtr(a + 512)
  }

  /** Both writes are in the current batch. */
  lemma {:induction false} TwoAppended(cfg: Config, a: int, b: int)
    requires 2 <= cfg.max
    ensures var s := DoAppend(cfg, DoAppend(cfg, Init(a), ONE, b), TWO, b);
            && s.current == Batch(a, BOTH) && s.history == BOTH && 0 in s.bufmap && s.bufmap[0] == BufPtr(a + 512)
            && s == Init(a).(current := s.current, history := s.history, bufmap := s.bufmap)
  {
    hide Total, Touches;
    OneLong();
    var s := DoAppend(cfg, Init(a), ONE, b);
    assert [] + [ONE] == [ONE] && [ONE] + [TWO] == BOTH;
    assert s.current == Batch(a, [ONE]);
  }

  lemma {:induction false} TwoWaiting(cfg: Config, a: int, b: int) returns (t: State)
    requires 2 <= cfg.max && Apart(cfg, a, b)
    ensures Waiting(t, a) && Run(cfg, Init(a), [Append(ONE, b), Append(TWO, b), Flush(b)], t)
  {
    hide Run, Total;
    var s0 := Init(a);
    var s1 := DoAppend(cfg, s0, ONE, b);
    OneLong();
    assert s1.current.addr == a && s1.queue == [] && s1.inflight == map[];
    var s2 := DoAppend(cfg, s1, TWO, b);
    TwoAppended(cfg, a, b);
    assert Enabled(cfg, s0, Append(ONE, b)) && Enabled(cfg, s1, Append(TWO, b)) && Enabled(cfg, s2, Flush(b));
    hide DoAppend;
    t := DoEnqueue(s2, b, FlushReq(|s2.history|));
    assert [] + [PutReq(s2.current)] + [FlushReq(2)] == [PutReq(s2.current), FlushReq(2)];
    hide DoEnqueue, Enabled;
    RunOne(cfg, s2, Flush(b));
    RunCons(cfg, s1, Append(TWO, b), [Flush(b)], t);
    RunCons(cfg, s0, Append(ONE, b), [Append(TWO, b)] + [Flush(b)], t);
    assert [Append(ONE, b)] + ([Append(TWO, b)] + [Flush(b)]) == [Append(ONE, b), Append(TWO, b), Flush(b)];
  }

  lemma {:induction false} OneLong()
    ensures Total([]) == 0 && Total([ONE]) == 1
  {
    assert [ONE][..0] == [];
  }

  lemma {:induction false} WaitingPut(cfg: Config, s: State, a: int) returns (t: State)
    requires Waiting(s, a)
    ensures Stored(t, a, false) && Enabled(cfg, s, WorkPut) && t == Do(cfg, s, WorkPut)
  {
    hide ApplyPieces, Total, Payload, Count;
    t := DoPut(s);
    MapTwice();
    BothPayload();
    CountOne(0, 1, 9);
    assert t.info == map[1 := Info(8, 2, 1)];
  }

  lemma {:induction false} CountOne(a: int, n: int, off: int)
    ensures Count(map[a := ObjPtr(n, off)], n) == 1
  {
    assert Refs(map[a := ObjPtr(n, off)], n) == {a};
  }

  lemma {:induction false} StoredDone(cfg: Config, s: State, a: int) returns (t: State)
    requires Stored(s, a, false) && 2 <= cfg.max
    ensures Stored(t, a, true) && Enabled(cfg, s, Complete(1)) && t == Do(cfg, s, Complete(1))
  {
    t := DoComplete(cfg, s, 1);
    assert BOTH[0].Covers(0);
    assert t.inflight == map[];
  }

  lemma {:induction false} Chosen(cfg: Config, s: State, a: int)
    requires 50 <= cfg.pc && 2 <= cfg.max
    requires Stored(s.(queue := [FlushReq(2)]), a, true)
    ensures Snapshot(cfg, s, {1}, [[MOVED]])
  {
    BothPayload();
    assert Picked(s, {1}, MOVED);
    assert [MOVED][..0] == [];
    assert MOVED in [[MOVED]][0] && MOVED.Covers(0);
    assert CoveredBy([[MOVED]], 0, 1);
    assert Sparse(cfg, s.info[1]) by { assert 50 * 2 <= cfg.pc * 2; }
  }

  lemma {:induction false} Kept(m: map<int, Ptr>)
    requires m == map[0 := ObjPtr(1, 9)]
    ensures Revalidated(m, [MOVED], [TWO])
  {
    assert Keeps(m, [MOVED][0], 0);
    assert [TWO][0].Covers(0);
  }

  ghost predicate Submitted(s: State) {
    && s.objmap == map[0 := ObjPtr(1, 9)] && s.queue == [GcReq([MOVED])] && !s.publishing && |s.log| == 2 && 2 !in s.backend && 0 !in s.bufmap
    && s.history == BOTH
  }

  lemma {:induction false} StoredSubmit(cfg: Config, s: State, a: int) returns (t: State)
    requires Stored(s, a, true) && 50 <= cfg.pc && 2 <= cfg.max
    ensures Submitted(t) && Run(cfg, s, [WorkFlush, GcStart({1}, [[MOVED]]), GcSubmit], t)
  {
    hide Run, Snapshot;
    var s1 := DoFlushed(s);
    Chosen(cfg, s1, a);
    var s2 := s1.(gc := Copying({1}, [[MOVED]]));
    t := s2.(gc := Copying({1}, [[MOVED]][1..]), queue := s2.queue + [GcReq([MOVED])]);
    RunOne(cfg, s2, GcSubmit);
    RunCons(cfg, s1, GcStart({1}, [[MOVED]]), [GcSubmit], t);
    RunCons(cfg, s, WorkFlush, [GcStart({1}, [[MOVED]])] + [GcSubmit], t);
    assert [WorkFlush] + ([GcStart({1}, [[MOVED]])] + [GcSubmit]) == [WorkFlush, GcStart({1}, [[MOVED]]), GcSubmit];
  }

  /** The sector has gone to object 2, which is on its way. */
  ghost predicate Moved(s: State) {
    && s.history == BOTH && s.objmap == map[0 := ObjPtr(2, 8)] && 0 !in s.bufmap && 2 !in s.backend
    && 2 in s.inflight && s.inflight[2].GcPut? && |s.log| == 3 && s.log[2] == DataRec(DataObj(8, [TWO], true))
  }

  lemma {:induction false} SubmittedMove(cfg: Config, s: State) returns (t: State)
    requires Submitted(s)
    ensures Run(cfg, s, [WorkGc([TWO])], t) && !ReadsNewest(t, 0) && Moved(t)
  {
    hide Run, DiskAfter, AddObject, Revalidated;
    Kept(s.objmap);
    t := DoGc(s, [TWO]);
    MapMoved();
    RunOne(cfg, s, WorkGc([TWO]));
  }

  /** The collector moves a sector: its new object is on its way, no buffer holds it, and a read finds nothing. */
  lemma {:induction false} MovedUnreadable(cfg: Config, a: int, b: int) returns (t: State, steps: seq<Step>)
    requires 50 <= cfg.pc && 2 <= cfg.max && Apart(cfg, a, b)
    ensures Run(cfg, Init(a), steps, t) && (forall i :: 0 <= i < |steps| ==> !steps[i].Trim? && !steps[i].Crash?)
    ensures !ReadsNewest(t, 0) && Moved(t)
  {
    hide Run, Stored, Waiting, Submitted, Init, ReadsNewest, Enabled, Do, Moved;
    var s1 := TwoWaiting(cfg, a, b);
    var s2 := WaitingPut(cfg, s1, a);
    var s3 := StoredDone(cfg, s2, a);
    var s4 := StoredSubmit(cfg, s3, a);
    t := SubmittedMove(cfg, s4);
    var first, pick := [Append(ONE, b), Append(TWO, b), Flush(b)], [WorkFlush, GcStart({1}, [[MOVED]]), GcSubmit];
    RunJoin(cfg, s3, pick, s4, [WorkGc([TWO])], t);
    RunCons(cfg, s2, Complete(1), pick + [WorkGc([TWO])], t);
    RunCons(cfg, s1, WorkPut, [Complete(1)] + (pick + [WorkGc([TWO])]), t);
    RunJoin(cfg, Init(a), first, s1, [WorkPut] + ([Complete(1)] + (pick + [WorkGc([TWO])])), t);
    steps := first + ([WorkPut] + ([Complete(1)] + (pick + [WorkGc([TWO])])));
  }

  // ---- a cycle on an object that is not there ----

  const STALE: GcEntry := GcEntry(0, 1, 9, [9])
  const WRONG: Write := Write(0, [9])

  /** The object is chosen while it is on its way: what is read is whatever the buffer held. */
  lemma {:induction false} ChosenTooEarly(cfg: Config, s: State, a: int)
    requires 50 <= cfg.pc && 2 <= cfg.max && Stored(s, a, false)
    ensures Snapshot(cfg, s, {1}, [[STALE]])
  {
    assert Picked(s, {1}, STALE);
    assert [STALE][..0] == [];
    assert STALE in [[STALE]][0] && STALE.Covers(0);
    assert CoveredBy([[STALE]], 0, 1);
    assert Sparse(cfg, s.info[1]) by { assert 50 * 2 <= cfg.pc * 2; }
  }

  ghost predicate Queued(s: State, a: int) {
    && s.log == Init(a).log + [DataRec(DataObj(8, BOTH, false))] && s.history == BOTH && !s.publishing
    && s.objmap == map[0 := ObjPtr(1, 9)] && s.info == map[1 := Info(8, 2, 1)]
    && s.queue == [FlushReq(2), GcReq([STALE])] && s.gc == Copying({1}, [])
    && s.inflight == map[1 := BatchPut(a)]
  }

  lemma {:induction false} QueuedTooEarly(cfg: Config, s: State, a: int) returns (t: State)
    requires Stored(s, a, false) && 50 <= cfg.pc && 2 <= cfg.max
    ensures Queued(t, a) && Run(cfg, s, [GcStart({1}, [[STALE]]), GcSubmit], t)
  {
    hide Run, Snapshot;
    ChosenTooEarly(cfg, s, a);
    var s1 := s.(gc := Copying({1}, [[STALE]]));
    t := s1.(gc := Copying({1}, [[STALE]][1..]), queue := s1.queue + [GcReq([STALE])]);
    assert [FlushReq(2)] + [GcReq([STALE])] == [FlushReq(2), GcReq([STALE])];
    RunTwo(cfg, s, GcStart({1}, [[STALE]]), GcSubmit);
  }

  lemma {:induction false} FlushedQueued(cfg: Config, s: State, a: int) returns (t: State)
    requires Queued(s, a)
    ensures Run(cfg, s, [Complete(1), WorkFlush], t)
    ensures t.queue == [GcReq([STALE])] && t.objmap == s.objmap && |t.log| == 2 && !t.publishing && t.inflight == map[] && t.history == BOTH
  {
    hide Run, Drop;
    var s1 := DoComplete(cfg, s, 1);
    assert s1.inflight == map[];
    t := DoFlushed(s1);
    RunTwo(cfg, s, Complete(1), WorkFlush);
  }

  lemma {:induction false} CopiedWrong(cfg: Config, s: State) returns (t: State)
    requires s.queue == [GcReq([STALE])] && s.objmap == map[0 := ObjPtr(1, 9)] && |s.log| == 2 && !s.publishing && s.inflight == map[]
    ensures Run(cfg, s, [WorkGc([WRONG]), Complete(2)], t)
    ensures t.history == s.history && t.queue == [] && t.inflight == map[] && 0 in t.objmap && Readable(t.backend, t.objmap[0], 9)
  {
    hide Run, AddObject, Drop;
    assert Revalidated(s.objmap, [STALE], [WRONG]) by {
      assert Keeps(s.objmap, [STALE][0], 0) && [WRONG][0].Covers(0);
    }
    hide Revalidated;
    assert ApplyPieces(s.objmap, 2, 8, [WRONG]) == map[0 := ObjPtr(2, 8)] by {
      assert [WRONG][..0] == [];
      assert Override(s.objmap, 0, 1, ObjPtr(2, 8)) == map[0 := ObjPtr(2, 8)];
    }
    hide ApplyPieces;
    var s1 := DoGc(s, [WRONG]);
    t := DoComplete(cfg, s1, 2);
    assert t.inflight == map[];
    assert Payload([WRONG]) == [9] && Total([WRONG]) == 1 by { assert [WRONG][..0] == []; }
    RunTwo(cfg, s, WorkGc([WRONG]), Complete(2));
  }

  lemma {:induction false} QueuedMap(s: State, a: int)
    requires Queued(s, a)
    ensures s.objmap == map[0 := ObjPtr(1, 9)]
  {
  }

  lemma {:induction false} NewestIsTwo()
    ensures 0 in DiskAfter(BOTH) && DiskAfter(BOTH)[0] == 8
  {
    assert TWO.Covers(0) && 0 in Patch(TWO);
  }

  /** The collector copies an object before it has arrived: with everything written and nothing under way, a sector
      reads as something no client wrote there. */
  lemma {:induction false} CollectedTooEarly(cfg: Config, a: int, b: int) returns (t: State, steps: seq<Step>)
    requires 50 <= cfg.pc && 2 <= cfg.max && Apart(cfg, a, b)
    ensures Run(cfg, Init(a), steps, t) && (forall i :: 0 <= i < |steps| ==> !steps[i].Trim? && !steps[i].Crash? && !steps[i].GcStop?)
    ensures t.history == [ONE, TWO] && t.queue == [] && t.inflight == map[]
    ensures 0 in t.objmap && Readable(t.backend, t.objmap[0], 9) && ReadSector(DiskAfter(t.history), 0) == 8
  {
    hide Run, Stored, Waiting, Queued, Init, Enabled, Do, Readable, DiskAfter;
    NewestIsTwo();
    var s1 := TwoWaiting(cfg, a, b);
    var s2 := WaitingPut(cfg, s1, a);
    var s3 := QueuedTooEarly(cfg, s2, a);
    var s4 := FlushedQueued(cfg, s3, a);
    assert s4.objmap == map[0 := ObjPtr(1, 9)] by { QueuedMap(s3, a); }
    t := CopiedWrong(cfg, s4);
    var first, pick := [Append(ONE, b), Append(TWO, b), Flush(b)], [GcStart({1}, [[STALE]]), GcSubmit];
    var done, copy := [Complete(1), WorkFlush], [WorkGc([WRONG]), Complete(2)];
    RunJoin(cfg, s3, done, s4, copy, t);
    RunJoin(cfg, s2, pick, s3, done + copy, t);
    RunCons(cfg, s1, WorkPut, pick + (done + copy), t);
    RunJoin(cfg, Init(a), first, s1, [WorkPut] + (pick + (done + copy)), t);
    steps := first + ([WorkPut] + (pick + (done + copy)));
  }

  // ---- a stop request with a request outstanding ----

  /** The row of the object is erased while its sector is still mapped to it. */
  lemma {:induction false} StoppedTooEarly(cfg: Config, a: int, b: int) returns (t: State, steps: seq<Step>)
    requires 50 <= cfg.pc && 2 <= cfg.max && Apart(cfg, a, b)
    ensures Run(cfg, Init(a), steps, t) && 0 in t.objmap && t.objmap[0].ObjPtr? && t.objmap[0].obj !in t.info
  {
    hide Run, Stored, Waiting, Init, Enabled, Do;
    var s1 := TwoWaiting(cfg, a, b);
    var s2 := WaitingPut(cfg, s1, a);
    var s3 := QueuedTooEarly(cfg, s2, a);
    t := StoppedQueued(cfg, s3, a);
    var first, pick := [Append(ONE, b), Append(TWO, b), Flush(b)], [GcStart({1}, [[STALE]]), GcSubmit];
    RunJoin(cfg, s2, pick, s3, [GcStop], t);
    RunCons(cfg, s1, WorkPut, pick + [GcStop], t);
    RunJoin(cfg, Init(a), first, s1, [WorkPut] + (pick + [GcStop]), t);
    steps := first + ([WorkPut] + (pick + [GcStop]));
  }

  lemma {:induction false} StoppedQueued(cfg: Config, s: State, a: int) returns (t: State)
    requires Queued(s, a)
    ensures Run(cfg, s, [GcStop], t) && t.objmap == map[0 := ObjPtr(1, 9)] && 1 !in t.info
  {
    hide Run;
    t := Do(cfg, s, GcStop);
    RunOne(cfg, s, GcStop);
  }
}
