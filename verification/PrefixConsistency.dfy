/** What a crash can lose, and what it cannot. */
module PrefixConsistency {
  import opened Extents
  import opened Volume
  import opened Machine
  import opened Accounting
  import opened AccountingSteps
  import opened CopiedData
  import opened LogStory
  import opened CrashSafety

  /** The durable object holds the sector. */
  ghost predicate Readable(backend: map<int, Rec>, p: Ptr, v: Sector) {
    p.ObjPtr? && p.obj in backend && backend[p.obj].DataRec? && backend[p.obj].obj.Has(p.offset) &&
    backend[p.obj].obj.At(p.offset) == v
  }

  /** Opening the image now gives the disk after the first `j` client writes, all of it readable. */
  ghost predicate Recovers(s: State, j: int) {
    && 0 <= j <= |s.history| && (s.checkpoints != [] ==> HasCkpt(s))
    && var m, d := RecoveredMap(s), DiskAfter(s.history[..j]);
       m.Keys == d.Keys && forall a :: a in m ==> Readable(s.backend, m[a], d[a])
  }

  /** A crash now loses no flushed write and keeps the order of the others. */
  ghost predicate CrashSafe(s: State) {
    exists j :: s.flushed <= j && Recovers(s, j)
  }

  // ---- replay equals execution ----

  /** Two exact tables for one map agree on every object they share, and each has every object with live sectors. */
  lemma {:induction false} ExactTablesAgree(log: seq<Rec>, k: int, m: map<int, Ptr>, x: map<int, Info>, y: map<int, Info>, n: int)
    requires Exact(log, k, m, x) && Exact(log, k, m, y) && n in x
    ensures n in y ==> x[n] == y[n]
    ensures x[n].live != 0 ==> n in y
  {
    CountZero(m, n);
    if x[n].live != 0 {
      var a :| a in m && m[a].ObjPtr? && m[a].obj == n;
    }
  }

  /** Replay rebuilds what the running system had when it had numbered the objects below the recovery point: its map, the
      live count of every object with live sectors, and no other live count. */
  lemma {:induction false} ReplayEqualsExecution(cfg: Config, s: State, u: State)
    requires Logged(cfg, s) && Logged(cfg, u) && 0 <= RecoverPoint(s) <= |s.log| && u.log == s.log[..RecoverPoint(s)]
    ensures (s.checkpoints != [] ==> HasCkpt(s)) && RecoveredMap(s) == u.objmap
    ensures forall n :: n in u.info && n in RecoveredInfo(s) ==> RecoveredInfo(s)[n] == u.info[n]
    ensures forall n :: n in u.info && u.info[n].live != 0 ==> n in RecoveredInfo(s)
    ensures forall n :: n in RecoveredInfo(s) && RecoveredInfo(s)[n].live != 0 ==> n in u.info
  {
    hide QueueOk, GcOk, StoreOk, Faithful, Truthful, LogWrites, QueueWrites, LogOk, MapAt, Exact, RecoveredMap, RecoveredInfo, RecoverPoint;
    var k := RecoverPoint(s);
    RecoveredIsReplay(cfg, s);
    RecoveredExact(cfg, s);
    assert u.log[..k] == s.log[..k];
    LogSame(s.log, u.log, k);
    var r := RecoveredInfo(s);
    forall n | n in u.info ensures (n in r ==> r[n] == u.info[n]) && (u.info[n].live != 0 ==> n in r) {
      ExactTablesAgree(u.log, k, u.objmap, u.info, r, n);
    }
    forall n | n in r ensures r[n].live != 0 ==> n in u.info {
      ExactTablesAgree(u.log, k, u.objmap, r, u.info, n);
    }
  }

  // ---- the crash step ----

  lemma {:induction false} FlushedBelow(s: State, f: int)
    requires FlushedBy(s, f) && RecoverPoint(s) > LastCkpt(s)
    requires s.checkpoints == [] ==> forall n :: n in s.backend ==> n < 1
    requires forall n :: n in s.backend && 0 < n < |s.log| ==> s.backend[n] == s.log[n]
    ensures f <= RecoverPoint(s)
  {
    hide LogWrites;
    var k, c := RecoverPoint(s), LastCkpt(s);
    if s.checkpoints == [] {
      assert f > 1 ==> 1 in s.backend;
    } else {
      assert forall n :: c < n < f ==> n in s.backend && s.backend[n].DataRec?;
    }
  }

  lemma {:induction false} CrashSafely(cfg: Config, s: State)
    requires Safe(cfg, s) && (s.checkpoints != [] ==> HasCkpt(s)) && CleanTail(cfg, s)
    ensures Safe(cfg, DoCrash(cfg, s))
  {
    hide Logged, FlushesOk, Durable, RecoveredMap, RecoveredInfo;
    CrashLogged(cfg, s);
    CrashDurable(cfg, s);
    NoFlushes(DoCrash(cfg, s).log);
  }

  lemma {:induction false} NoFlushes(log: seq<Rec>)
    ensures FlushesOk(log, []) && QueueWrites([]) == []
  {
  }

  lemma {:induction false} CrashDurable(cfg: Config, s: State)
    requires Safe(cfg, s) && (s.checkpoints != [] ==> HasCkpt(s)) && CleanTail(cfg, s)
    ensures Durable(DoCrash(cfg, s))
  {
    hide LogOk, QueueOk, GcOk, Faithful, FlushesOk, QueueWrites, LogWrites, Exact, RecoveredMap, RecoveredInfo, Replayed, Durable;
    RecoverPointInLog(cfg, s);
    CrashStore(cfg, s);
    forall a | Anchored(s) && a in s.log[LastCkpt(s)].omap
      ensures s.log[LastCkpt(s)].omap[a].ObjPtr? && s.log[LastCkpt(s)].omap[a].obj < LastCkpt(s) {
      CkptBelow(cfg, s, LastCkpt(s), a);
    }
    DurableCut(s, DoCrash(cfg, s), RecoverPoint(s));
  }

  lemma {:induction false} CrashStore(cfg: Config, s: State)
    requires Accounted(cfg, s) && CleanTail(cfg, s) && (s.checkpoints != [] ==> HasCkpt(s))
    ensures forall n :: n in s.backend && n < RecoverPoint(s) ==> n in Swept(cfg, s)
    ensures s.checkpoints == [] ==> forall n :: n in s.backend ==> n < 1
    ensures forall n :: LastCkpt(s) < n < RecoverPoint(s) ==> n in s.backend && s.backend[n].DataRec?
  {
    hide Accounted;
    if s.checkpoints == [] {
      assert Swept(cfg, s) == s.backend && RecoverPoint(s) == 1 && LastCkpt(s) == 0;
    } else {
      assert RecoverPoint(s) == Roll(s.backend, LastCkpt(s) + 1);
      hide Roll;
    }
  }

  /** Cutting the log at the recovery point keeps what is durable below it. */
  lemma {:induction false} DurableCut(s: State, s': State, k: int)
    requires Durable(s) && s'.checkpoints == s.checkpoints && s'.flushed == s.flushed && !s'.publishing
    requires k == RecoverPoint(s) && LastCkpt(s) < k <= |s.log| && s'.log == s.log[..k]
    requires forall n :: n in s.backend && n < k ==> n in s'.backend
    requires s.checkpoints == [] ==> forall n :: n in s.backend ==> n < 1
    requires forall n :: n in s.backend ==> 0 < n < |s.log| && s.backend[n] == s.log[n]
    requires forall n :: LastCkpt(s) < n < k ==> n in s.backend && s.backend[n].DataRec?
    requires forall a :: Anchored(s) && a in s.log[LastCkpt(s)].omap ==>
      s.log[LastCkpt(s)].omap[a].ObjPtr? && s.log[LastCkpt(s)].omap[a].obj < LastCkpt(s)
    ensures Durable(s')
  {
    hide LogWrites;
    var f :| FlushedBy(s, f);
    FlushedBelow(s, f);
    assert s.log[..k][..f] == s.log[..f];
    LogSame(s.log, s'.log, f);
    assert FlushedBy(s', f);
  }

  lemma {:induction false} CkptBelow(cfg: Config, s: State, c: int, a: int)
    requires LogOk(cfg, s.log) && 0 <= c < |s.log| && s.log[c].CkptRec? && a in s.log[c].omap
    ensures s.log[c].omap[a].ObjPtr? && s.log[c].omap[a].obj < c
  {
    assert RecOk(cfg, s.log, c);
    assert ValidPtr(s.log, s.log[c].omap[a]);
  }

  // ---- a safe state survives a crash ----

  /** Everything the recovered map points into is durable. */
  lemma {:induction false} RecoveredDurable(cfg: Config, s: State, a: int)
    requires Safe(cfg, s) && 0 < RecoverPoint(s) <= |s.log| && a in MapAt(s.log, RecoverPoint(s))
    ensures var p := MapAt(s.log, RecoverPoint(s))[a]; ValidPtr(s.log, p) ==> p.obj in s.backend && s.backend[p.obj] == s.log[p.obj]
  {
    hide LogOk, QueueOk, GcOk, Exact, Faithful, FlushesOk, QueueWrites, LogWrites, MapAt;
    RecoverPointInLog(cfg, s);
    var k, c := RecoverPoint(s), LastCkpt(s);
    MapAtBelow(s.log, k, a);
    OldRefsShrink(s.log, c, k, a);
    FirstMap(cfg, s);
  }

  lemma {:induction false} FirstMap(cfg: Config, s: State)
    requires LogOk(cfg, s.log)
    ensures s.log != [] && MapAt(s.log, 0) == MapAt(s.log, 1) == map[]
  {
  }

  lemma {:induction false} SafeRecovers(cfg: Config, s: State)
    requires Safe(cfg, s)
    ensures 0 < RecoverPoint(s) <= |s.log| && Recovers(s, |LogWrites(s.log, RecoverPoint(s))|)
  {
    hide Accounted, Replayed, FlushesOk, QueueWrites, LogWrites, Durable, RecoveredMap, MapAt, DiskAfter, RecoverPoint;
    RecoveredIsReplay(cfg, s);
    var k := RecoverPoint(s);
    var ws, m := LogWrites(s.log, k), MapAt(s.log, k);
    LogWritesPrefix(s.log, k, |s.log|);
    assert s.history[..|ws|] == ws;
    assert Agree(s.log, m, DiskAfter(ws));
    hide Faithful;
    forall a | a in m ensures Readable(s.backend, m[a], DiskAfter(ws)[a]) {
      RecoveredDurable(cfg, s, a);
    }
  }

  /** In every safe state with a named checkpoint a crash keeps a prefix that holds every flushed write. */
  lemma {:induction false} SafeIsCrashSafe(cfg: Config, s: State)
    requires Safe(cfg, s) && (s.checkpoints != [] || s.flushed == 0)
    ensures CrashSafe(s)
  {
    SafeRecovers(cfg, s);
    hide LogOk, QueueOk, GcOk, Exact, Faithful, Replayed, FlushesOk, QueueWrites, LogWrites, Recovers;
    var k := RecoverPoint(s);
    if s.checkpoints != [] {
      RecoverPointInLog(cfg, s);
      var f :| FlushedBy(s, f);
      FlushedBelow(s, f);
      LogWritesPrefix(s.log, f, k);
    }
  }

  lemma {:induction false} LogWritesNonempty(cfg: Config, log: seq<Rec>, k: int)
    requires LogOk(cfg, log) && 0 <= k <= |log|
    ensures forall i :: 0 <= i < |LogWrites(log, k)| ==> 0 < |LogWrites(log, k)[i].data|
  {
    if k > 0 {
      LogWritesNonempty(cfg, log, k - 1);
      assert RecOk(cfg, log, k - 1);
    }
  }

  lemma {:induction false} QueueWritesNonempty(cfg: Config, log: seq<Rec>, m: map<int, Ptr>, q: seq<Req>)
    requires QueueOk(cfg, log, m, q)
    ensures forall i :: 0 <= i < |QueueWrites(q)| ==> 0 < |QueueWrites(q)[i].data|
  {
    if q != [] {
      var k := |q| - 1;
      assert ReqOk(cfg, log, m, q[k]);
      QueueWritesNonempty(cfg, log, m, q[..k]);
    }
  }

  /** With no checkpoint named, nothing is replayed: a crash is safe exactly while nothing has been flushed. */
  lemma {:induction false} NoCheckpointExact(cfg: Config, s: State)
    requires Safe(cfg, s) && s.checkpoints == []
    ensures CrashSafe(s) <==> s.flushed == 0
  {
    if s.flushed == 0 {
      SafeIsCrashSafe(cfg, s);
    }
    if CrashSafe(s) {
      var j :| s.flushed <= j && Recovers(s, j);
      HistoryNonempty(cfg, s);
      hide Accounted, Replayed, Faithful, LogWrites, QueueWrites, FlushesOk, Durable;
      if j > 0 {
        WritesShow(s.history[..j]);
      }
    }
  }

  lemma {:induction false} HistoryNonempty(cfg: Config, s: State)
    requires Safe(cfg, s)
    ensures forall i :: 0 <= i < |s.history| ==> 0 < |s.history[i].data|
  {
    LogWritesNonempty(cfg, s.log, |s.log|);
    QueueWritesNonempty(cfg, s.log, s.objmap, s.queue);
    hide LogWrites, QueueWrites, QueueOk, LogOk, GcOk, StoreOk, Exact, Replayed, Faithful, FlushesOk, Durable;
  }

  lemma {:induction false} WritesShow(ws: seq<Write>)
    requires ws != [] && 0 < |ws[|ws| - 1].data|
    ensures DiskAfter(ws) != map[]
  {
    var w := ws[|ws| - 1];
    assert w.Covers(w.lba) && w.lba in Patch(w);
    assert w.lba in DiskAfter(ws);
  }

  /** Publishing a checkpoint leaves the volume safe to crash exactly when no object still on its way holds live sectors. */
  lemma {:induction false} PublishExact(cfg: Config, s: State)
    requires Safe(cfg, s) && s.publishing
    ensures CrashSafe(DoPublish(s)) <==> PublishSafe(s)
  {
    hide Safe, CrashSafe;
    PublishLast(s);
    if PublishSafe(s) {
      StepSafe(cfg, s, Publish);
      SafeIsCrashSafe(cfg, DoPublish(s));
    } else {
      var n :| n in s.inflight && n in s.info && s.info[n].live != 0;
      PublishTooEarly(cfg, s, n);
    }
  }

  lemma {:induction false} PublishTooEarly(cfg: Config, s: State, n: int)
    requires Safe(cfg, s) && s.publishing && n in s.inflight && n in s.info && s.info[n].live != 0
    ensures !CrashSafe(DoPublish(s))
  {
    hide LogOk, QueueOk, GcOk, Faithful, Replayed, FlushesOk, QueueWrites, LogWrites, Durable, CrashSafe;
    PublishedMap(cfg, s);
    CountZero(s.objmap, n);
    var a :| a in s.objmap && s.objmap[a].ObjPtr? && s.objmap[a].obj == n;
    assert |s.log| !in s.backend && n !in s.backend;
    hide Accounted;
    Dangling(s, a);
  }

  /** A published map that points into an object which is not durable. */
  lemma {:induction false} Dangling(s: State, a: int)
    requires 0 < |s.log| && |s.log| - 1 in s.backend && |s.log| !in s.backend && a in s.objmap
    requires s.backend[|s.log| - 1].CkptRec? && s.backend[|s.log| - 1].omap == s.objmap
    requires s.objmap[a].ObjPtr? && s.objmap[a].obj !in s.backend
    ensures !CrashSafe(DoPublish(s))
  {
    hide DiskAfter;
    PublishLast(s);
    var s', c := DoPublish(s), |s.log| - 1;
    assert c + 1 !in s'.backend && s.objmap[a].obj !in s'.backend;
    assert RecoverPoint(s') == c + 1;
    assert HasCkpt(s') ==> RecoveredMap(s') == s.objmap;
    hide RecoveredMap, DoPublish;
    forall j | Recovers(s', j) ensures false {
    }
  }

  /** The sweep of recovery leaves nothing from the recovery point on exactly when the tail fits its window. */
  lemma {:induction false} SweepExact(cfg: Config, s: State)
    requires Accounted(cfg, s)
    ensures s.checkpoints != [] ==>
      (CleanTail(cfg, s) <==> forall n :: n in s.backend && RecoverPoint(s) <= n ==> n < RecoverPoint(s) + 4 * cfg.window - 1)
    ensures s.checkpoints == [] ==> (CleanTail(cfg, s) <==> s.backend == map[])
  {
    hide LogOk, QueueOk, GcOk, Exact;
    if s.checkpoints == [] {
      assert forall n :: n in s.backend ==> n >= 1;
      if CleanTail(cfg, s) {
        assert forall n :: n in s.backend ==> n in Swept(cfg, s);
        assert s.backend.Keys == {};
        assert s.backend == map[];
      }
    } else {
      var k := RecoverPoint(s);
      assert forall n :: n in s.backend && !(k <= n < k + 4 * cfg.window - 1) ==> n in Swept(cfg, s);
      assert forall n :: n in Swept(cfg, s) ==> n in s.backend;
    }
  }

  /** Replay depends on the objects it replays and on nothing else. */
  lemma {:induction false} ReplaySame(x: map<int, Rec>, y: map<int, Rec>, m: map<int, Ptr>, info: map<int, Info>, from: int, k: int)
    requires from <= k && forall n :: from <= n < k ==> n in x && n in y && x[n] == y[n] && x[n].DataRec?
    ensures Replay(x, m, from, k) == Replay(y, m, from, k) && ReplayInfo(x, m, info, from, k) == ReplayInfo(y, m, info, from, k)
    decreases k - from
  {
    hide ApplyPieces, AddObject;
    if from < k {
      ReplaySame(x, y, m, info, from, k - 1);
    }
  }

  /** Recovering twice is recovering once, whatever has been left over: the same point, map and table, and nothing more swept. */
  lemma {:induction false} RecoveryIdempotent(cfg: Config, s: State)
    requires s.checkpoints != [] ==> HasCkpt(s)
    ensures var t := DoCrash(cfg, s);
            && (t.checkpoints != [] ==> HasCkpt(t)) && RecoverPoint(t) == RecoverPoint(s) && RecoveredMap(t) == RecoveredMap(s)
            && RecoveredInfo(t) == RecoveredInfo(s) && Swept(cfg, t) == t.backend && DoCrash(cfg, t) == t
  {
    hide LogWrites, RecoveredMap, RecoveredInfo, Swept, RecoverPoint, HasCkpt;
    SweptOnce(cfg, s);
    var t, k := DoCrash(cfg, s), RecoverPoint(s);
    SameRecovered(s, t);
    assert 0 <= k <= |t.log| ==> t.log[..k] == t.log;
  }

  lemma {:induction false} SameRecovered(s: State, t: State)
    requires t.checkpoints == s.checkpoints && RecoverPoint(t) == RecoverPoint(s)
    requires s.checkpoints != [] ==> HasCkpt(s) && HasCkpt(t) && t.backend[LastCkpt(s)] == s.backend[LastCkpt(s)]
    requires s.checkpoints != [] ==> forall n :: LastCkpt(s) < n < RecoverPoint(s) ==> n in t.backend && n in s.backend && t.backend[n] == s.backend[n]
    ensures RecoveredMap(t) == RecoveredMap(s) && RecoveredInfo(t) == RecoveredInfo(s)
  {
    hide Replay, ReplayInfo;
    if s.checkpoints != [] {
      ReplaySame(s.backend, t.backend, s.backend[LastCkpt(s)].omap, s.backend[LastCkpt(s)].info, LastCkpt(s) + 1, RecoverPoint(s));
    }
  }

  lemma {:induction false} SweptOnce(cfg: Config, s: State)
    requires s.checkpoints != [] ==> HasCkpt(s)
    ensures var t := DoCrash(cfg, s);
            && (s.checkpoints != [] ==> HasCkpt(t) && t.backend[LastCkpt(s)] == s.backend[LastCkpt(s)])
            && RecoverPoint(t) == RecoverPoint(s) && Swept(cfg, t) == t.backend
            && (s.checkpoints != [] ==> forall n :: LastCkpt(s) < n < RecoverPoint(s) ==> n in t.backend && n in s.backend && t.backend[n] == s.backend[n])
  {
    hide RecoveredMap, RecoveredInfo, LogWrites;
    var t, k := DoCrash(cfg, s), RecoverPoint(s);
    if s.checkpoints != [] {
      assert forall n :: LastCkpt(s) <= n < k ==> (n in t.backend <==> n in s.backend);
      assert !(k in t.backend && t.backend[k].DataRec?);
      assert RecoverPoint(t) == k;
      assert Swept(cfg, t).Keys == t.backend.Keys;
      assert Swept(cfg, t) == t.backend;
    }
  }

  /** Neither the running map nor the map of any crash point refers to an object the collector may delete. */
  lemma {:induction false} DeletedUnreferenced(cfg: Config, s: State, n: int, k: int)
    requires Safe(cfg, s) && Enabled(cfg, s, GcDelete(n)) && LastCkpt(s) < k <= |s.log|
    ensures Unreferenced(s.objmap, n) && Unreferenced(MapAt(s.log, k), n)
  {
    hide Accounted, Replayed, Faithful, Truthful, FlushesOk, LogWrites, QueueWrites, Unreferenced;
    CleanedBeforeCkpt(cfg, s, n);
    NamedMap(s);
    StillUnreferenced(s.log, LastCkpt(s), k, n);
    CleanedNow(cfg, s, n);
  }

  /** The last named checkpoint is the map of the log below it. */
  lemma {:induction false} NamedMap(s: State)
    requires Replayed(s.log, s.objmap) && Anchored(s)
    ensures s.log[LastCkpt(s)].omap == MapAt(s.log, LastCkpt(s))
  {
    hide MapAt;
  }

  /** A map that does not refer to an older object never does again. */
  lemma {:induction false} StillUnreferenced(log: seq<Rec>, c: int, k: int, n: int)
    requires 0 <= c <= k <= |log| && n < c && Unreferenced(MapAt(log, c), n)
    ensures Unreferenced(MapAt(log, k), n)
  {
    hide MapAt;
    forall a | a in MapAt(log, k) && MapAt(log, k)[a].ObjPtr? ensures MapAt(log, k)[a].obj != n {
      OldRefsShrink(log, c, k, a);
    }
  }

  lemma {:induction false} CleanedNow(cfg: Config, s: State, n: int)
    requires Accounted(cfg, s) && s.gc.Cleaned? && n in s.gc.objs
    ensures Unreferenced(s.objmap, n)
  {
    hide LogOk, Exact, StoreOk, QueueOk, Unreferenced;
  }

  // ---- runs ----

  lemma {:induction false} StepSafe(cfg: Config, s: State, step: Step)
    requires Safe(cfg, s) && Enabled(cfg, s, step) && Guarded(cfg, s, step)
    ensures Safe(cfg, Do(cfg, s, step))
  {
    if step.Crash? {
      CrashSafely(cfg, s);
    } else {
      StepSafely(cfg, s, step);
    }
  }

  lemma {:induction false} StepSafely(cfg: Config, s: State, step: Step)
    requires Safe(cfg, s) && Enabled(cfg, s, step) && Guarded(cfg, s, step) && !step.Crash?
    ensures Safe(cfg, Do(cfg, s, step))
  {
    hide Logged, FlushesOk, Durable, Do, Enabled;
    StepReads(cfg, s, step);
    StepLogged(cfg, s, step);
    StepFlushes(cfg, s, step);
    StepDurable(cfg, s, step);
  }

  /** A guarded step is one the log can tell of. */
  lemma {:induction false} StepReads(cfg: Config, s: State, step: Step)
    requires Safe(cfg, s) && Enabled(cfg, s, step) && Guarded(cfg, s, step)
    ensures !step.Trim? && Clean(cfg, s, step) && (step.GcStart? ==> DurableChoice(s, step.objs))
  {
    hide Safe, DurableChoice, Choice, Picked, CoveredBy;
    if step.GcStart? && s.checkpoints != [] {
      ChoiceDurable(cfg, s, step.objs);
    }
  }

  ghost predicate GuardedRun(cfg: Config, s: State, steps: seq<Step>)
    decreases |steps|
  {
    steps != [] && Enabled(cfg, s, steps[0]) ==>
      Guarded(cfg, s, steps[0]) && GuardedRun(cfg, Do(cfg, s, steps[0]), steps[1..])
  }

  lemma {:induction false} RunSafe(cfg: Config, s: State, steps: seq<Step>, t: State)
    requires Safe(cfg, s) && Run(cfg, s, steps, t) && GuardedRun(cfg, s, steps)
    ensures Safe(cfg, t)
    decreases |steps|
  {
    hide Safe, Guarded, Enabled;
    if steps != [] {
      StepSafe(cfg, s, steps[0]);
      RunSafe(cfg, Do(cfg, s, steps[0]), steps[1..], t);
    }
  }

  lemma {:induction false} InitSafe(cfg: Config, addr: int)
    ensures Safe(cfg, Init(addr))
  {
    InitAccounted(cfg, addr);
    var s := Init(addr);
    assert FlushedBy(s, 0);
    assert MapAt(s.log, 0) == MapAt(s.log, 1) == map[] && LogWrites(s.log, 0) == LogWrites(s.log, 1) == [];
    assert Agree(s.log, map[], DiskAfter([]));
  }

  /** Over every run, at every crash point: recovery yields the disk after a prefix of the client writes that
      contains every write a returned flush covered, provided a checkpoint has been named or nothing was flushed. */
  lemma {:induction false} PrefixConsistent(cfg: Config, addr: int, steps: seq<Step>, t: State)
    requires Run(cfg, Init(addr), steps, t) && GuardedRun(cfg, Init(addr), steps)
    requires t.checkpoints != [] || t.flushed == 0
    ensures CrashSafe(t)
  {
    InitSafe(cfg, addr);
    RunSafe(cfg, Init(addr), steps, t);
    SafeIsCrashSafe(cfg, t);
  }
}
