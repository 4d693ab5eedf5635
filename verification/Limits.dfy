/** Runs on which the volume does not meet the claims that hold under guard, and exactly when it does. */
module Limits {
  import opened Extents
  import opened Volume
  import opened Machine
  import opened Accounting
  import opened AccountingSteps
  import opened CopiedData
  import opened LogStory
  import opened CrashSafety
  import opened PrefixConsistency
  import opened Runs
  import opened Recovery

  // ---- a checkpoint named too early, a flush with no checkpoint ----

  /** One write, and a checkpoint request behind it. */
  function OneQueued(cfg: Config, a: int, b: int): State {
    DoEnqueue(DoAppend(cfg, Init(a), ONE, b), b, CkptReq)
  }

  lemma {:induction false} OneQueuedFacts(cfg: Config, a: int, b: int)
    requires 1 <= cfg.max && Apart(cfg, a, b)
    ensures var s := OneQueued(cfg, a, b);
            && Safe(cfg, s) && s.queue == [PutReq(Batch(a, [ONE])), CkptReq] && s.log == Init(a).log && s.objmap == map[]
            && s.inflight == map[] && !s.publishing && s.backend == map[]
    ensures Run(cfg, Init(a), [Append(ONE, b), Checkpoint(b)], OneQueued(cfg, a, b))
  {
    hide Safe, Run;
    InitSafe(cfg, a);
    StepSafe(cfg, Init(a), Append(ONE, b));
    var s := DoAppend(cfg, Init(a), ONE, b);
    assert [] + [ONE] == [ONE];
    StepSafe(cfg, s, Checkpoint(b));
    assert [] + [PutReq(s.current)] + [CkptReq] == [PutReq(s.current), CkptReq];
    RunTwo(cfg, Init(a), Append(ONE, b), Checkpoint(b));
  }

  lemma {:induction false} OneSentFacts(cfg: Config, q: State, a: int)
    requires Safe(cfg, q) && q.queue == [PutReq(Batch(a, [ONE])), CkptReq] && q.objmap == map[] && !q.publishing && |q.log| == 1
    ensures var s := DoPut(q);
            && Safe(cfg, s) && !s.publishing && s.queue == [CkptReq] && 1 in s.inflight && 1 in s.info && s.info[1].live != 0
  {
    hide Safe;
    StepSafe(cfg, q, WorkPut);
    PiecesInside(map[], 1, HdrSectors(1), [ONE], 0);
    assert [ONE][0].Covers(0);
    hide ApplyPieces;
    CountZero(DoPut(q).objmap, 1);
  }

  /** A checkpoint published while the object it points into is still on its way: a crash finds no such object. */
  lemma {:induction false} CheckpointTooEarly(cfg: Config, a: int, b: int) returns (t: State)
    requires 1 <= cfg.max && Apart(cfg, a, b)
    ensures Run(cfg, Init(a), [Append(ONE, b), Checkpoint(b)] + [WorkPut, WorkCkpt, Publish], t) && !CrashSafe(t)
  {
    hide Safe, OneQueued, Run, CrashSafe, DoPut;
    OneQueuedFacts(cfg, a, b);
    var q := OneQueued(cfg, a, b);
    OneSentFacts(cfg, q, a);
    var s := DoPut(q);
    StepSafe(cfg, s, WorkCkpt);
    var s' := DoCkpt(s);
    assert !PublishSafe(s') by { assert 1 in s'.inflight && 1 in s'.info && s'.info[1].live != 0; }
    PublishExact(cfg, s');
    t := DoPublish(s');
    RunThree(cfg, q, WorkPut, WorkCkpt, Publish);
    RunJoin(cfg, Init(a), [Append(ONE, b), Checkpoint(b)], q, [WorkPut, WorkCkpt, Publish], t);
  }

  /** A flush returns on a volume that has no checkpoint yet: a crash loses the flushed write. */
  lemma {:induction false} FlushedWriteLost(cfg: Config, a: int, b: int) returns (t: State)
    requires 1 <= cfg.max && Apart(cfg, a, b)
    ensures Run(cfg, Init(a), Writing(ONE, b, 1), t)
    ensures t.flushed == 1 && !CrashSafe(t)
  {
    hide Safe, Run, CrashSafe;
    StartQuiet(cfg, a);
    t := WriteRun(cfg, Init(a), ONE, b);
    NoCheckpointExact(cfg, t);
  }

  // ---- reaping ----

  /** The state after object `n` is gone. */
  ghost predicate Without(s: State, t: State, n: int) {
    t.backend == s.backend - {n} && t.checkpoints == s.checkpoints && t.history == s.history && t.flushed == s.flushed
  }

  /** What a crash recovers is the one disk the recovered map gives. */
  lemma {:induction false} RecoversExactly(t: State, d: Disk, j: int)
    requires (t.checkpoints != [] ==> HasCkpt(t)) && RecoveredMap(t).Keys == d.Keys && 0 <= j <= |t.history|
    requires forall a :: a in d ==> Readable(t.backend, RecoveredMap(t)[a], d[a])
    ensures Recovers(t, j) <==> DiskAfter(t.history[..j]) == d
  {
    hide RecoveredMap, DiskAfter;
    var m, e := RecoveredMap(t), DiskAfter(t.history[..j]);
    if Recovers(t, j) {
      assert e.Keys == d.Keys;
      forall a | a in e ensures e[a] == d[a] {
        assert Readable(t.backend, m[a], e[a]);
      }
      assert e == d;
    }
  }

  // ---- ... an object older than the checkpoint ----

  /** A sector the checkpoint maps to an older object is still mapped there after replay unless an object replayed has it. */
  lemma {:induction false} ReplayShadows(s: State, k: int, n: int, a: int)
    requires HasCkpt(s) && n < LastCkpt(s) < k <= RecoverPoint(s)
    ensures var c := LastCkpt(s); var m, r := s.backend[c].omap, Replay(s.backend, s.backend[c].omap, c + 1, k);
            (a in r && r[a].ObjPtr? && r[a].obj == n) <==> (a in m && m[a].ObjPtr? && m[a].obj == n && !TouchedBefore(s, k, a))
    decreases k - LastCkpt(s)
  {
    hide ApplyPieces, Touches;
    var c := LastCkpt(s);
    if k > c + 1 {
      ReplayShadows(s, k - 1, n, a);
      var o := s.backend[k - 1].obj;
      PiecesInside(Replay(s.backend, s.backend[c].omap, c + 1, k - 1), k - 1, o.hdr, o.pieces, a);
      assert TouchedBefore(s, k, a) <==> TouchedBefore(s, k - 1, a) || Touches(PiecesOf(s.backend, k - 1), a);
    }
  }

  /** Every sector the named checkpoint has in object `n` is overwritten by a durable object that replay will reach. */
  ghost predicate Overwritten(s: State, n: int)
    requires HasCkpt(s)
  {
    var m := s.backend[LastCkpt(s)].omap;
    forall a :: a in m && m[a].ObjPtr? && m[a].obj == n ==> TouchedBefore(s, RecoverPoint(s), a)
  }

  lemma {:induction false} OverwrittenExact(s: State, n: int)
    requires HasCkpt(s) && n < LastCkpt(s)
    ensures Unreferenced(RecoveredMap(s), n) <==> Overwritten(s, n)
  {
    hide TouchedBefore, Replay;
    var m, r := s.backend[LastCkpt(s)].omap, RecoveredMap(s);
    forall a ensures (a in r && r[a].ObjPtr? && r[a].obj == n) <==>
                     (a in m && m[a].ObjPtr? && m[a].obj == n && !TouchedBefore(s, RecoverPoint(s), a)) {
      ReplayShadows(s, RecoverPoint(s), n, a);
    }
  }

  /** Reaping an object older than the checkpoint is safe exactly when every sector the checkpoint has in it is overwritten
      by a durable object after the checkpoint: not only in memory, as the live count says. */
  lemma {:induction false} ReapOlder(cfg: Config, s: State, n: int)
    requires Safe(cfg, s) && Enabled(cfg, s, Reap(n)) && s.checkpoints != [] && n < LastCkpt(s)
    ensures HasCkpt(s) && (CrashSafe(Do(cfg, s, Reap(n))) <==> Overwritten(s, n))
  {
    hide Logged, FlushesOk, Durable, CrashSafe, RecoveredMap, Overwritten;
    RecoveredIsReplay(cfg, s);
    SafeIsCrashSafe(cfg, s);
    OverwrittenExact(s, n);
    Reaped(s, Do(cfg, s, Reap(n)), n);
  }

  lemma {:induction false} Reaped(s: State, t: State, n: int)
    requires HasCkpt(s) && n < LastCkpt(s) && CrashSafe(s) && Without(s, t, n)
    ensures CrashSafe(t) <==> Unreferenced(RecoveredMap(s), n)
  {
    hide DiskAfter, RecoveredMap;
    ReapedMap(s, t, n);
    if Unreferenced(RecoveredMap(s), n) {
      StillCrashSafe(s, t, n);
    } else {
      var a :| a in RecoveredMap(s) && RecoveredMap(s)[a].ObjPtr? && RecoveredMap(s)[a].obj == n;
      forall j | Recovers(t, j) ensures false {
      }
    }
  }

  /** Without an object the recovered map does not refer to, a crash recovers what it did before. */
  lemma {:induction false} StillCrashSafe(s: State, t: State, n: int)
    requires CrashSafe(s) && Without(s, t, n) && (s.checkpoints != [] ==> HasCkpt(s) && HasCkpt(t))
    requires RecoveredMap(t) == RecoveredMap(s) && Unreferenced(RecoveredMap(s), n)
    ensures CrashSafe(t)
  {
    hide DiskAfter, RecoveredMap;
    var j :| s.flushed <= j && Recovers(s, j);
    assert Recovers(t, j);
  }

  lemma {:induction false} ReapedMap(s: State, t: State, n: int)
    requires HasCkpt(s) && n < LastCkpt(s) && t.backend == s.backend - {n} && t.checkpoints == s.checkpoints
    ensures HasCkpt(t) && RecoverPoint(t) == RecoverPoint(s) && RecoveredMap(t) == RecoveredMap(s)
  {
    hide Roll, Replay, ReplayInfo, ApplyPieces, AddObject;
    var c, k := LastCkpt(s), RecoverPoint(s);
    assert forall i :: c < i ==> (i in t.backend <==> i in s.backend) && (i in s.backend ==> t.backend[i] == s.backend[i]);
    assert RecoverPoint(t) == k;
    ReplaySame(s.backend, t.backend, s.backend[c].omap, s.backend[c].info, c + 1, k);
  }

  // ---- ... an object replay would reach ----

  lemma {:induction false} CutMap(cfg: Config, s: State, t: State, n: int)
    requires Safe(cfg, s) && s.checkpoints != [] && LastCkpt(s) < n < RecoverPoint(s) && Without(s, t, n)
    ensures 0 < n <= |s.log| && HasCkpt(t) && RecoverPoint(t) == n && RecoveredMap(t) == MapAt(s.log, n)
  {
    hide LogOk, QueueOk, GcOk, Exact, Faithful, Truthful, LogWrites, QueueWrites, FlushesOk, MapAt, ApplyPieces, Roll, Replay;
    RecoverPointInLog(cfg, s);
    var c := LastCkpt(s);
    assert n !in t.backend && forall i :: c < i < n ==> i in t.backend && t.backend[i].DataRec?;
    assert RecoverPoint(t) == n;
    assert s.log[c].omap == MapAt(s.log, c) == MapAt(s.log, c + 1) by { NamedMap(s); CkptSame(s.log, c); }
    ReplayIsMapAt(s.log, t.backend, s.log[c].omap, c + 1, n);
  }

  lemma {:induction false} CutReadable(cfg: Config, s: State, t: State, n: int, a: int)
    requires Safe(cfg, s) && s.checkpoints != [] && LastCkpt(s) < n < RecoverPoint(s) && Without(s, t, n)
    requires 0 < n <= |s.log| && a in MapAt(s.log, n)
    ensures a in DiskAfter(LogWrites(s.log, n)) && Readable(t.backend, MapAt(s.log, n)[a], DiskAfter(LogWrites(s.log, n))[a])
  {
    hide LogOk, QueueOk, GcOk, Exact, Truthful, LogWrites, QueueWrites, FlushesOk, MapAt, DiskAfter, Total, Payload;
    var c := LastCkpt(s);
    MapAtBelow(s.log, n, a);
    OldRefsShrink(s.log, c, n, a);
    NamedMap(s);
    assert Agree(s.log, MapAt(s.log, n), DiskAfter(LogWrites(s.log, n)));
  }

  /** Some prefix of the writes, with all the flushed ones in it, leaves the disk as the log left it below object `n`. */
  ghost predicate KeptBelow(s: State, n: int)
    requires 0 <= n <= |s.log|
  {
    exists j :: s.flushed <= j <= |s.history| && DiskAfter(s.history[..j]) == DiskAfter(LogWrites(s.log, n))
  }

  /** Reaping an object replay would reach cuts the log there: a crash is safe exactly when some prefix of the writes, with
      all the flushed ones in it, leaves the disk as the log left it below that object. */
  lemma {:induction false} ReapNewer(cfg: Config, s: State, n: int)
    requires Safe(cfg, s) && Enabled(cfg, s, Reap(n)) && s.checkpoints != [] && LastCkpt(s) < n < RecoverPoint(s)
    ensures RecoverPoint(Do(cfg, s, Reap(n))) == n && 0 <= n <= |s.log|
    ensures CrashSafe(Do(cfg, s, Reap(n))) <==> KeptBelow(s, n)
  {
    hide Safe, RecoverPoint, RecoveredMap, MapAt, DiskAfter, LogWrites, HasCkpt, Readable, Recovers;
    var t := Do(cfg, s, Reap(n));
    CutMap(cfg, s, t, n);
    CutKeys(cfg, s, n);
    var d := DiskAfter(LogWrites(s.log, n));
    forall a | a in d ensures Readable(t.backend, RecoveredMap(t)[a], d[a]) {
      CutReadable(cfg, s, t, n, a);
    }
    forall j | 0 <= j <= |s.history| ensures Recovers(t, j) <==> DiskAfter(s.history[..j]) == d {
      RecoversExactly(t, d, j);
    }
    InHistory(t);
  }

  lemma {:induction false} CutKeys(cfg: Config, s: State, n: int)
    requires Safe(cfg, s) && 0 <= n <= |s.log|
    ensures MapAt(s.log, n).Keys == DiskAfter(LogWrites(s.log, n)).Keys
  {
    hide Accounted, Truthful, Replayed, Durable, FlushesOk, MapAt, DiskAfter, LogWrites;
    assert Agree(s.log, MapAt(s.log, n), DiskAfter(LogWrites(s.log, n)));
  }

  lemma {:induction false} InHistory(t: State)
    ensures forall j :: Recovers(t, j) ==> 0 <= j <= |t.history|
  {
    hide RecoveredMap, DiskAfter;
  }

  // ---- ... an object past the point recovery reaches ----

  /** Reaping an object replay never reaches changes nothing for a crash. */
  lemma {:induction false} ReapBeyond(cfg: Config, s: State, n: int)
    requires Safe(cfg, s) && Enabled(cfg, s, Reap(n)) && s.checkpoints != [] && RecoverPoint(s) <= n
    ensures RecoverPoint(Do(cfg, s, Reap(n))) == RecoverPoint(s) && CrashSafe(Do(cfg, s, Reap(n)))
  {
    hide Logged, FlushesOk, Durable, CrashSafe, RecoveredMap, MapAt;
    var t := Do(cfg, s, Reap(n));
    assert LastCkpt(s) < RecoverPoint(s);
    RecoveredIsReplay(cfg, s);
    SafeIsCrashSafe(cfg, s);
    BeyondMap(s, t, n);
    forall a | a in RecoveredMap(s) && RecoveredMap(s)[a].ObjPtr? ensures RecoveredMap(s)[a].obj != n {
      MapAtBelow(s.log, RecoverPoint(s), a);
    }
    StillCrashSafe(s, t, n);
  }

  lemma {:induction false} BeyondMap(s: State, t: State, n: int)
    requires HasCkpt(s) && LastCkpt(s) < RecoverPoint(s) <= n && Without(s, t, n)
    ensures HasCkpt(t) && RecoverPoint(t) == RecoverPoint(s) && RecoveredMap(t) == RecoveredMap(s)
  {
    hide Roll, Replay, ReplayInfo, ApplyPieces, AddObject;
    var c, k := LastCkpt(s), RecoverPoint(s);
    assert forall i :: c <= i < k ==> (i in t.backend <==> i in s.backend) && (i in s.backend ==> t.backend[i] == s.backend[i]);
    assert !(k in t.backend && t.backend[k].DataRec?);
    assert RecoverPoint(t) == k;
    ReplaySame(s.backend, t.backend, s.backend[c].omap, s.backend[c].info, c + 1, k);
  }

  // ---- ... with no checkpoint named ----

  /** With no checkpoint named, reaping changes nothing for a crash: it is safe exactly while nothing has been flushed. */
  lemma {:induction false} ReapUnnamed(cfg: Config, s: State, n: int)
    requires Safe(cfg, s) && Enabled(cfg, s, Reap(n)) && s.checkpoints == []
    ensures CrashSafe(Do(cfg, s, Reap(n))) <==> s.flushed == 0
  {
    hide Safe, DiskAfter;
    NoCheckpointExact(cfg, s);
    var t := Do(cfg, s, Reap(n));
    assert forall j :: Recovers(t, j) <==> Recovers(s, j);
  }

  // ---- ... all together ----

  /** What a caller can tell of a reap before it: from the superblock, the named checkpoint, and what is durable. */
  ghost predicate ReapHarmless(s: State, n: int)
    requires s.checkpoints != [] ==> HasCkpt(s)
    requires s.checkpoints != [] && n < RecoverPoint(s) ==> 0 <= n <= |s.log|
  {
    if s.checkpoints == [] then s.flushed == 0
    else if n < LastCkpt(s) then Overwritten(s, n)
    else if n < RecoverPoint(s) then KeptBelow(s, n)
    else true
  }

  /** After reaping a dead object a crash is safe exactly in those cases. */
  lemma {:induction false} ReapExact(cfg: Config, s: State, n: int)
    requires Safe(cfg, s) && Enabled(cfg, s, Reap(n))
    ensures (s.checkpoints != [] ==> HasCkpt(s)) && 0 < n < |s.log|
    ensures CrashSafe(Do(cfg, s, Reap(n))) <==> ReapHarmless(s, n)
  {
    hide Safe, CrashSafe, Overwritten, KeptBelow, LogWrites, DiskAfter, RecoverPoint, HasCkpt, Enabled, Do;
    NotTheCheckpoint(cfg, s, n);
    if s.checkpoints == [] {
      ReapUnnamed(cfg, s, n);
    } else if n < LastCkpt(s) {
      ReapOlder(cfg, s, n);
    } else if n < RecoverPoint(s) {
      ReapNewer(cfg, s, n);
    } else {
      ReapBeyond(cfg, s, n);
    }
  }

  lemma {:induction false} NotTheCheckpoint(cfg: Config, s: State, n: int)
    requires Safe(cfg, s) && Enabled(cfg, s, Reap(n))
    ensures (s.checkpoints != [] ==> HasCkpt(s)) && 0 < n < |s.log| && n != LastCkpt(s)
  {
    hide LogOk, QueueOk, GcOk, Replayed, Faithful, Truthful, FlushesOk, ValidPtr;
  }

  // ---- ... on runs ----

  /** The second write of a sector is on the backend, with a checkpoint from before the first. */
  lemma {:induction false} TwoAfterCkpt(cfg: Config, a: int, b: int) returns (s: State)
    requires 1 <= cfg.max && Apart(cfg, a, b)
    ensures Run(cfg, Init(a), Marking(b) + Writing(ONE, b, 2) + Writing(TWO, a, 3), s) && Safe(cfg, s)
    ensures s.checkpoints == [1] && |s.log| == 4 && s.flushed == 2 && s.history == [ONE, TWO] && s.backend.Keys == {1, 2, 3}
    ensures s.log[1] == CkptRec(map[], map[]) && s.log[2] == DataRec(DataObj(HdrSectors(1), [ONE], false))
    ensures s.log[3] == DataRec(DataObj(HdrSectors(1), [TWO], false))
    ensures s.objmap.Keys == {0} && s.objmap[0].ObjPtr? && s.objmap[0].obj == 3 && 2 in s.info
  {
    hide Run, Safe, AddObject, ApplyPieces;
    StartQuiet(cfg, a);
    var s1 := MarkRun(cfg, Init(a), b);
    var s2 := WriteRun(cfg, s1, ONE, b);
    s := WriteRun(cfg, s2, TWO, a);
    RunJoin(cfg, Init(a), Marking(b), s1, Writing(ONE, b, 2), s2);
    RunJoin(cfg, Init(a), Marking(b) + Writing(ONE, b, 2), s2, Writing(TWO, a, 3), s);
    OneSector(map[], 2, ONE);
    OneSector(s2.objmap, 3, TWO);
    assert s2.info.Keys == {2} by { Entered(s1.info, s1.objmap, s2.objmap, 2, DataObj(HdrSectors(1), [ONE], false)); }
    Entered(s2.info, s2.objmap, s.objmap, 3, DataObj(HdrSectors(1), [TWO], false));
    assert [] + [ONE] + [TWO] == [ONE, TWO];
  }

  lemma {:induction false} OneSector(m: map<int, Ptr>, n: int, w: Write)
    requires w == ONE || w == TWO
    ensures var m' := ApplyPieces(m, n, HdrSectors(1), [w]); m'.Keys == m.Keys + {0} && m'[0].ObjPtr? && m'[0].obj == n
  {
    hide ApplyPieces;
    var m' := ApplyPieces(m, n, HdrSectors(1), [w]);
    assert [w][0].Covers(0);
    forall a ensures a in m' <==> a in m || a == 0 {
      PiecesInside(m, n, HdrSectors(1), [w], a);
      assert Touches([w], a) <==> a == 0;
    }
    PiecesInside(m, n, HdrSectors(1), [w], 0);
  }

  lemma {:induction false} Entered(info: map<int, Info>, m: map<int, Ptr>, m': map<int, Ptr>, n: int, o: DataObj)
    ensures AddObject(info, m, m', n, o).Keys == info.Keys + {n}
  {
  }

  lemma {:induction false} DeadNow(cfg: Config, s: State, n: int)
    requires Safe(cfg, s) && n in s.info && Unreferenced(s.objmap, n)
    ensures s.info[n].live == 0
  {
    hide LogOk, StoreOk, QueueOk, GcOk, Replayed, Faithful, Truthful, FlushesOk, Durable;
    CountZero(s.objmap, n);
  }

  /** An object newer than the checkpoint is dead and reaped: both writes had been flushed, and a crash loses them. */
  lemma {:induction false} ReapedFlushedWrite(cfg: Config, a: int, b: int) returns (t: State)
    requires 1 <= cfg.max && Apart(cfg, a, b)
    ensures Run(cfg, Init(a), Marking(b) + Writing(ONE, b, 2) + Writing(TWO, a, 3) + [Reap(2)], t) && t.flushed == 2 && !CrashSafe(t)
  {
    hide Run, Safe, CrashSafe;
    var s := TwoAfterCkpt(cfg, a, b);
    DeadNow(cfg, s, 2);
    BackendIsLog(cfg, s);
    ReachesFour(s);
    ReapNewer(cfg, s, 2);
    t := Do(cfg, s, Reap(2));
    assert LogWrites(s.log, 2) == LogWrites(s.log, 1) == LogWrites(s.log, 0) == [] by { FirstIsCkpt(cfg, s); }
    assert s.history[..2] == s.history;
    WritesShow(s.history);
    RunOne(cfg, s, Reap(2));
    RunJoin(cfg, Init(a), Marking(b) + Writing(ONE, b, 2) + Writing(TWO, a, 3), s, [Reap(2)], t);
  }

  lemma {:induction false} ReachesFour(s: State)
    requires s.checkpoints == [1] && s.backend.Keys == {1, 2, 3} && s.backend[2].DataRec? && s.backend[3].DataRec?
    ensures RecoverPoint(s) == 4
  {
    assert 2 in s.backend && 3 in s.backend && 4 !in s.backend;
    assert RecoverPoint(s) > 4 ==> 4 in s.backend;
  }

  lemma {:induction false} FirstIsCkpt(cfg: Config, s: State)
    requires Safe(cfg, s)
    ensures s.log != [] && s.log[0].CkptRec?
  {
    hide Exact, StoreOk, QueueOk, GcOk, Replayed, Faithful, Truthful, FlushesOk, Durable, RecOk;
  }

  lemma {:induction false} BackendIsLog(cfg: Config, s: State)
    requires Safe(cfg, s)
    ensures forall n :: n in s.backend ==> 0 < n < |s.log| && s.backend[n] == s.log[n]
  {
    hide Exact, LogOk, QueueOk, GcOk, Replayed, Faithful, Truthful, FlushesOk, Durable;
  }

  /** A checkpoint has the sector in object 1; the object that overwrites it is on its way. */
  lemma {:induction false} OverwriteOnItsWay(cfg: Config, a: int, b: int) returns (s: State)
    requires 1 <= cfg.max && Apart(cfg, a, b)
    ensures Run(cfg, Init(a), Writing(ONE, b, 1) + Marking(a) + Sending(TWO, a), s) && Safe(cfg, s)
    ensures s.checkpoints == [2] && |s.log| == 4 && s.backend.Keys == {1, 2} && 3 in s.inflight
    ensures s.log[2].CkptRec? && 0 in s.log[2].omap && s.log[2].omap[0].ObjPtr? && s.log[2].omap[0].obj == 1
    ensures s.objmap.Keys == {0} && s.objmap[0].ObjPtr? && s.objmap[0].obj == 3 && 1 in s.info
  {
    hide Run, Safe, AddObject, ApplyPieces;
    StartQuiet(cfg, a);
    var s1 := WriteRun(cfg, Init(a), ONE, b);
    var s2 := MarkRun(cfg, s1, a);
    s := SendRun(cfg, s2, TWO, a);
    RunJoin(cfg, Init(a), Writing(ONE, b, 1), s1, Marking(a), s2);
    RunJoin(cfg, Init(a), Writing(ONE, b, 1) + Marking(a), s2, Sending(TWO, a), s);
    OneSector(map[], 1, ONE);
    OneSector(s1.objmap, 3, TWO);
    assert s1.info.Keys == {1} by { Entered(map[], map[], s1.objmap, 1, DataObj(HdrSectors(1), [ONE], false)); }
    Entered(s1.info, s1.objmap, s.objmap, 3, DataObj(HdrSectors(1), [TWO], false));
  }

  /** The named checkpoint still points into the object that is reaped: a crash finds the sector nowhere. */
  lemma {:induction false} ReapedUnderCheckpoint(cfg: Config, a: int, b: int) returns (t: State)
    requires 1 <= cfg.max && Apart(cfg, a, b)
    ensures Run(cfg, Init(a), Writing(ONE, b, 1) + Marking(a) + Sending(TWO, a) + [Reap(1)], t) && !CrashSafe(t)
  {
    hide Run, Safe, CrashSafe;
    var s := OverwriteOnItsWay(cfg, a, b);
    DeadNow(cfg, s, 1);
    BackendIsLog(cfg, s);
    assert RecoverPoint(s) == 3;
    ReapOlder(cfg, s, 1);
    assert !TouchedBefore(s, 3, 0);
    assert !Overwritten(s, 1);
    t := Do(cfg, s, Reap(1));
    RunOne(cfg, s, Reap(1));
    RunJoin(cfg, Init(a), Writing(ONE, b, 1) + Marking(a) + Sending(TWO, a), s, [Reap(1)], t);
  }

  // ---- opening ----

  /** Two flushed writes of one sector after a checkpoint: with the check as it is written the image cannot be opened. */
  lemma {:induction false} OpeningThrows(cfg: Config, a: int, b: int) returns (t: State)
    requires 1 <= cfg.max && Apart(cfg, a, b)
    ensures Run(cfg, Init(a), Marking(b) + Writing(ONE, b, 2) + Writing(TWO, a, 3), t) && CrashSafe(t) && HasCkpt(t) && OpenFails(t)
  {
    hide Run, Safe, CrashSafe;
    t := TwoAfterCkpt(cfg, a, b);
    BackendIsLog(cfg, t);
    SafeIsCrashSafe(cfg, t);
    ReachesFour(t);
    assert PiecesOf(t.backend, 2)[0].Covers(0) && PiecesOf(t.backend, 3)[0].Covers(0);
    assert TouchedBefore(t, 3, 0);
    assert TwiceAt(t, 3, 0, 0);
  }
}
