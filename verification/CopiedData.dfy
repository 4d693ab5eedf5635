/** What the collector copies: a request keeps the contents of every sector exactly when the data it carries is what
    the objects hold, and that is so exactly when every object chosen was there to be read. */
module CopiedData {
  import opened Extents
  import opened Volume
  import opened Machine
  import opened Accounting

  /** The contents a map gives to the sectors it maps. */
  ghost function Contents(log: seq<Rec>, m: map<int, Ptr>): Disk
    requires forall a :: a in m ==> ValidPtr(log, m[a])
  {
    map a | a in m :: Fetch(log, m[a])
  }

  /** Every sector of the pieces has the data the map gives it already. */
  ghost predicate SameData(log: seq<Rec>, m: map<int, Ptr>, ps: seq<Write>) {
    forall j, a :: 0 <= j < |ps| && ps[j].Covers(a) ==> a in m && Holds(log, m[a], ps[j].data[a - ps[j].lba])
  }

  lemma {:induction false} AllValid(s: State)
    requires Exact(s.log, |s.log|, s.objmap, s.info)
    ensures forall a :: a in s.objmap ==> ValidPtr(s.log, s.objmap[a])
    ensures Agree(s.log, s.objmap, Contents(s.log, s.objmap))
  {
    assert forall a :: a in s.objmap ==> ValidPtr(s.log, s.objmap[a]);
  }

  lemma {:induction false} ContentsAgree(log: seq<Rec>, m: map<int, Ptr>, d: Disk)
    requires Agree(log, m, d)
    ensures (forall a :: a in m ==> ValidPtr(log, m[a])) && Contents(log, m) == d
  {
    hide Total, Payload;
    assert forall a :: a in m ==> ValidPtr(log, m[a]);
    var c := Contents(log, m);
    assert c.Keys == d.Keys;
    assert forall a :: a in c ==> c[a] == d[a];
    assert c == d;
  }

  /** The contents after a collected object are those before it with its pieces written over them. */
  lemma {:induction false} GcWrites(s: State, ps: seq<Write>, d: Disk)
    requires GcReady(s, ps) && Agree(s.log, s.objmap, d)
    ensures var s' := DoGc(s, ps); Agree(s'.log, s'.objmap, ApplyWrites(d, ps))
  {
    hide Total, Payload;
    var s', n := DoGc(s, ps), |s.log|;
    AgreeMore(s.log, [s'.log[n]], s.objmap, d);
    assert s'.log == s.log + [s'.log[n]] && ps[..|ps|] == ps;
    AgreePieces(s'.log, n, s.objmap, d, |ps|);
  }

  lemma {:induction false} GcAgrees(s: State, ps: seq<Write>, d: Disk)
    requires GcReady(s, ps) && Agree(s.log, s.objmap, d) && SameData(s.log, s.objmap, ps)
    ensures var s' := DoGc(s, ps); Agree(s'.log, s'.objmap, d)
  {
    hide Total, Payload, Agree;
    GcWrites(s, ps, d);
    forall j, a | 0 <= j < |ps| && ps[j].Covers(a) ensures a in d && d[a] == ps[j].data[a - ps[j].lba] {
      AgreeAt(s.log, s.objmap, d, a);
    }
    SameContents(d, ps);
  }

  lemma {:induction false} AgreeAt(log: seq<Rec>, m: map<int, Ptr>, d: Disk, a: int)
    requires Agree(log, m, d) && a in m
    ensures a in d && Holds(log, m[a], d[a])
  {
  }

  /** Disjoint pieces leave the disk as it was only if they were on it. */
  lemma {:induction false} WrittenAt(d: Disk, ps: seq<Write>, j: int, a: int)
    requires DisjointPieces(ps) && 0 <= j < |ps| && ps[j].Covers(a)
    ensures a in ApplyWrites(d, ps) && ApplyWrites(d, ps)[a] == ps[j].data[a - ps[j].lba]
  {
    var k := |ps| - 1;
    assert a in Patch(ps[k]) <==> ps[k].Covers(a);
    if j < k {
      assert forall i :: 0 <= i < k ==> ps[..k][i] == ps[i];
      WrittenAt(d, ps[..k], j, a);
    }
  }

  /** A collection request, however long after its snapshot it is processed, keeps the contents of every sector exactly
      when the data it carries for the sectors still mapped to its objects is what those objects hold. */
  lemma {:induction false} GcPreservesContents(cfg: Config, s: State, ps: seq<Write>)
    requires Accounted(cfg, s) && GcReady(s, ps)
    ensures var s' := DoGc(s, ps);
            && (forall a :: a in s.objmap ==> ValidPtr(s.log, s.objmap[a]))
            && (forall a :: a in s'.objmap ==> ValidPtr(s'.log, s'.objmap[a]))
            && (Contents(s'.log, s'.objmap) == Contents(s.log, s.objmap) <==> SameData(s.log, s.objmap, ps))
  {
    AllValid(s);
    hide DoGc, Accounted, Agree, Contents, Revalidated;
    var s' := DoGc(s, ps);
    var d := Contents(s.log, s.objmap);
    GcWrites(s, ps, d);
    ContentsAgree(s'.log, s'.objmap, ApplyWrites(d, ps));
    ContentsAgree(s.log, s.objmap, d);
    if SameData(s.log, s.objmap, ps) {
      GcAgrees(s, ps, d);
      ContentsAgree(s'.log, s'.objmap, d);
    } else if ApplyWrites(d, ps) == d {
      WritesShown(s, ps, d);
    }
  }

  lemma {:induction false} WritesShown(s: State, ps: seq<Write>, d: Disk)
    requires GcReady(s, ps) && Agree(s.log, s.objmap, d) && ApplyWrites(d, ps) == d
    ensures SameData(s.log, s.objmap, ps)
  {
    hide ApplyWrites;
    forall j, a | 0 <= j < |ps| && ps[j].Covers(a) ensures a in s.objmap && Holds(s.log, s.objmap[a], ps[j].data[a - ps[j].lba]) {
      WrittenAt(d, ps, j, a);
    }
  }

  // ---- the data of every pending request ----

  /** Every entry carries what its object holds. */
  ghost predicate Truthful(log: seq<Rec>, queue: seq<Req>, todo: seq<seq<GcEntry>>) {
    && (forall i, e :: 0 <= i < |queue| && queue[i].GcReq? && e in queue[i].entries ==> ReadFrom(log, e))
    && AllRead(log, todo)
  }

  ghost predicate AllRead(log: seq<Rec>, todo: seq<seq<GcEntry>>) {
    forall i, e :: 0 <= i < |todo| && e in todo[i] ==> ReadFrom(log, e)
  }

  /** The requests the collector has still to submit. */
  function Todo(g: Gc): seq<seq<GcEntry>> {
    if g.Copying? then g.todo else []
  }

  /** Every object chosen that has live sectors is there to be read. */
  ghost predicate DurableChoice(s: State, objs: set<int>) {
    forall n :: n in objs && n in s.info && s.info[n].live != 0 ==> n in s.backend
  }

  /** What a truthful request keeps is what is there. */
  lemma {:induction false} KeptData(cfg: Config, s: State, ps: seq<Write>)
    requires QueueOk(cfg, s.log, s.objmap, s.queue) && GcReady(s, ps) && Truthful(s.log, s.queue, Todo(s.gc))
    ensures SameData(s.log, s.objmap, ps)
  {
    var es := s.queue[0].entries;
    assert ReqOk(cfg, s.log, s.objmap, s.queue[0]);
    forall j, a | 0 <= j < |ps| && ps[j].Covers(a) ensures a in s.objmap && Holds(s.log, s.objmap[a], ps[j].data[a - ps[j].lba]) {
      var i :| 0 <= i < |es| && Keeps(s.objmap, es[i], a) && ps[j].data[a - ps[j].lba] == es[i].data[a - es[i].lba];
      var e := es[i];
      assert EntryOk(s.log, s.objmap, e) && ReadFrom(s.log, e);
      assert Holds(s.log, ObjPtr(e.obj, e.offset + (a - e.lba)), e.data[a - e.lba]);
      assert s.objmap[a] == ObjPtr(e.obj, e.offset + (a - e.lba));
    }
  }

  lemma {:induction false} ReadFromMore(log: seq<Rec>, log': seq<Rec>, e: GcEntry)
    requires ReadFrom(log, e) && Grown(log, log')
    ensures ReadFrom(log', e)
  {
    forall i | 0 <= i < |e.data| ensures Holds(log', ObjPtr(e.obj, e.offset + i), e.data[i]) {
      assert Holds(log, ObjPtr(e.obj, e.offset + i), e.data[i]);
    }
  }

  /** The log has grown, and no request has joined the pending ones. */
  lemma {:induction false} TruthfulMore(log: seq<Rec>, log': seq<Rec>, queue: seq<Req>, queue': seq<Req>, todo: seq<seq<GcEntry>>)
    requires Truthful(log, queue, todo) && Grown(log, log')
    requires forall r :: r in queue' && r.GcReq? ==> r in queue
    ensures Truthful(log', queue', todo)
  {
    hide ReadFrom;
    forall i, e | 0 <= i < |queue'| && queue'[i].GcReq? && e in queue'[i].entries ensures ReadFrom(log', e) {
      var k :| 0 <= k < |queue| && queue[k] == queue'[i];
      assert ReadFrom(log, e);
      ReadFromMore(log, log', e);
    }
    forall i, e | 0 <= i < |todo| && e in todo[i] ensures ReadFrom(log', e) {
      ReadFromMore(log, log', e);
    }
  }

  /** A live sector of the object is a sector counted. */
  lemma {:induction false} PickedLive(cfg: Config, s: State, objs: set<int>, e: GcEntry)
    requires Accounted(cfg, s) && Picked(s, objs, e)
    ensures e.obj in s.info && s.info[e.obj].live != 0
  {
    hide LogOk, StoreOk, QueueOk, GcOk, ValidPtr;
    assert e.Covers(e.lba);
    CountZero(s.objmap, e.obj);
  }

  lemma {:induction false} StartTruthful(cfg: Config, s: State, objs: set<int>, todo: seq<seq<GcEntry>>)
    requires Accounted(cfg, s) && Snapshot(cfg, s, objs, todo) && DurableChoice(s, objs)
    ensures AllRead(s.log, todo)
  {
    hide Accounted, ReadFrom;
    forall i, e | 0 <= i < |todo| && e in todo[i] ensures ReadFrom(s.log, e) {
      PickedLive(cfg, s, objs, e);
    }
  }

  /** Every step keeps the pending requests truthful, if a cycle only starts on objects that are there. */
  lemma {:induction false} StepTruthful(cfg: Config, s: State, step: Step)
    requires Accounted(cfg, s) && Enabled(cfg, s, step) && Truthful(s.log, s.queue, Todo(s.gc)) && !step.Crash?
    requires step.GcStart? ==> DurableChoice(s, step.objs)
    ensures var s' := Do(cfg, s, step); Truthful(s'.log, s'.queue, Todo(s'.gc))
  {
    hide Accounted, Snapshot, ReadFrom;
    if step.GcStart? {
      StartTruthful(cfg, s, step.objs, step.todo);
    } else if step.GcSubmit? {
      SubmitTruthful(s.log, s.queue, s.gc.todo);
    } else {
      OtherTruthful(cfg, s, step);
    }
  }

  lemma {:induction false} SubmitTruthful(log: seq<Rec>, queue: seq<Req>, todo: seq<seq<GcEntry>>)
    requires Truthful(log, queue, todo) && todo != []
    ensures Truthful(log, queue + [GcReq(todo[0])], todo[1..])
  {
    hide ReadFrom;
  }

  lemma {:induction false} OtherTruthful(cfg: Config, s: State, step: Step)
    requires Enabled(cfg, s, step) && Truthful(s.log, s.queue, Todo(s.gc)) && !step.Crash? && !step.GcStart? && !step.GcSubmit?
    ensures var s' := Do(cfg, s, step); Truthful(s'.log, s'.queue, Todo(s'.gc))
  {
    hide Truthful, Enabled, Do;
    var s' := Do(cfg, s, step);
    NoNewRequests(cfg, s, step);
    TruthfulMore(s.log, s'.log, s.queue, s'.queue, Todo(s.gc));
    TruthfulIdle(s'.log, s'.queue, Todo(s.gc));
  }

  /** The log has at most grown, and no collection request has come up. */
  ghost predicate NoNew(s: State, s': State) {
    && Grown(s.log, s'.log) && (forall r :: r in s'.queue && r.GcReq? ==> r in s.queue)
    && (s'.gc == s.gc || !s'.gc.Copying?)
  }

  lemma {:induction false} NoNewRequests(cfg: Config, s: State, step: Step)
    requires Enabled(cfg, s, step) && !step.Crash? && !step.GcStart? && !step.GcSubmit?
    ensures NoNew(s, Do(cfg, s, step))
  {
    hide Fresh, Revalidated, ApplyPieces, AddObject, Drop, BufferWrite, Settle, Remove, Total, NoGcPending, NoNew, Seal, DoAppend, DoEnqueue;
    var s' := Do(cfg, s, step);
    match step
    case Append(w, addr) => NoNewAppend(cfg, s, w, addr);
    case Flush(addr) => NoNewEnqueue(s, addr, FlushReq(|s.history|));
    case Checkpoint(addr) => NoNewEnqueue(s, addr, CkptReq);
    case _ => NoNewSame(s, s');
  }

  lemma {:induction false} NoNewAppend(cfg: Config, s: State, w: Write, addr: int)
    ensures NoNew(s, DoAppend(cfg, s, w, addr))
  {
    hide Total, BufferWrite;
  }

  lemma {:induction false} NoNewEnqueue(s: State, addr: int, r: Req)
    requires !r.GcReq?
    ensures NoNew(s, DoEnqueue(s, addr, r))
  {
  }

  lemma {:induction false} NoNewSame(s: State, s': State)
    requires s'.queue == s.queue || (s.queue != [] && s'.queue == s.queue[1..])
    requires s'.log == s.log || exists r :: s'.log == s.log + [r]
    requires s'.gc == s.gc || !s'.gc.Copying?
    ensures NoNew(s, s')
  {
  }

  lemma {:induction false} TruthfulIdle(log: seq<Rec>, queue: seq<Req>, todo: seq<seq<GcEntry>>)
    requires Truthful(log, queue, todo)
    ensures Truthful(log, queue, [])
  {
  }

  // ---- when a cycle copies the truth ----

  ghost function Referring(m: map<int, Ptr>, objs: set<int>): set<int> {
    set a | a in m && m[a].ObjPtr? && m[a].obj in objs
  }

  /** What a read of the sector's object puts in the buffer: its data, or, if it is not there, something else. */
  ghost function Found(s: State, a: int): Sector
    requires a in s.objmap && ValidPtr(s.log, s.objmap[a])
  {
    if s.objmap[a].obj in s.backend then Fetch(s.log, s.objmap[a]) else Fetch(s.log, s.objmap[a]) + 1
  }

  ghost function One(s: State, a: int): GcEntry
    requires a in s.objmap && ValidPtr(s.log, s.objmap[a])
  {
    GcEntry(a, s.objmap[a].obj, s.objmap[a].offset, [Found(s, a)])
  }

  /** One request for every live sector. */
  ghost function Singles(s: State, l: seq<int>): (todo: seq<seq<GcEntry>>)
    requires forall a :: a in l ==> a in s.objmap && ValidPtr(s.log, s.objmap[a])
    ensures |todo| == |l| && forall i :: 0 <= i < |l| ==> todo[i] == [One(s, l[i])]
  {
    if l == [] then [] else Singles(s, l[..|l| - 1]) + [[One(s, l[|l| - 1])]]
  }

  lemma {:induction false} Listed(xs: set<int>) returns (l: seq<int>)
    ensures forall a :: a in l <==> a in xs
    decreases |xs|
  {
    if forall a :: a !in xs {
      l := [];
    } else {
      var a :| a in xs;
      var rest := Listed(xs - {a});
      l := rest + [a];
    }
  }

  lemma {:induction false} SinglesSnapshot(cfg: Config, s: State, objs: set<int>, l: seq<int>)
    requires 0 < cfg.max && Choice(cfg, s, objs) && (forall a :: a in s.objmap ==> ValidPtr(s.log, s.objmap[a]))
    requires forall a :: a in l <==> a in Referring(s.objmap, objs)
    ensures Snapshot(cfg, s, objs, Singles(s, l))
  {
    hide ValidPtr, Choice;
    var todo := Singles(s, l);
    hide Singles;
    forall i, e | 0 <= i < |todo| && e in todo[i] ensures Picked(s, objs, e) {
      SinglePicked(s, objs, l[i]);
    }
    forall i | 0 <= i < |todo| ensures DisjointEntries(todo[i]) && todo[i] != [] && EntriesTotal(todo[i][..|todo[i]| - 1]) < cfg.max {
      assert todo[i][..0] == [];
    }
    forall a | a in s.objmap && s.objmap[a].ObjPtr? && s.objmap[a].obj in objs ensures CoveredBy(todo, a, s.objmap[a].obj) {
      assert a in l;
      var i :| 0 <= i < |l| && l[i] == a;
      assert One(s, a) in todo[i] && One(s, a).Covers(a);
    }
  }

  lemma {:induction false} SinglePicked(s: State, objs: set<int>, a: int)
    requires a in Referring(s.objmap, objs) && ValidPtr(s.log, s.objmap[a])
    ensures Picked(s, objs, One(s, a))
  {
    var e := One(s, a);
    assert forall b :: e.Covers(b) ==> b == a;
    assert s.objmap[a] == ObjPtr(e.obj, e.offset);
  }

  /** Whatever the reads of missing objects leave in the buffer, the requests of a cycle carry what the objects hold
      exactly when every object chosen that has live sectors is durable at the snapshot. */
  lemma {:induction false} SnapshotExact(cfg: Config, s: State, objs: set<int>)
    requires Accounted(cfg, s) && 0 < cfg.max && Choice(cfg, s, objs)
    ensures (forall todo :: Snapshot(cfg, s, objs, todo) ==> AllRead(s.log, todo)) <==> DurableChoice(s, objs)
  {
    if DurableChoice(s, objs) {
      forall todo | Snapshot(cfg, s, objs, todo) ensures AllRead(s.log, todo) {
        StartTruthful(cfg, s, objs, todo);
      }
    } else {
      var n :| n in objs && n in s.info && s.info[n].live != 0 && n !in s.backend;
      var todo := StaleSnapshot(cfg, s, objs, n);
    }
  }

  lemma {:induction false} StaleSnapshot(cfg: Config, s: State, objs: set<int>, n: int) returns (todo: seq<seq<GcEntry>>)
    requires Accounted(cfg, s) && 0 < cfg.max && Choice(cfg, s, objs)
    requires n in objs && n in s.info && s.info[n].live != 0 && n !in s.backend
    ensures Snapshot(cfg, s, objs, todo) && !AllRead(s.log, todo)
  {
    var a := SomeLive(cfg, s, n);
    AllValid(s);
    hide Accounted, Choice, ValidPtr, Agree;
    var l := Listed(Referring(s.objmap, objs));
    assert a in l;
    SinglesSnapshot(cfg, s, objs, l);
    todo := Singles(s, l);
    hide Snapshot, Referring, Singles;
    var i :| 0 <= i < |l| && l[i] == a;
    var e := One(s, a);
    assert todo[i] == [e] && e in todo[i];
    assert !ReadFrom(s.log, e) by {
      assert !Holds(s.log, ObjPtr(e.obj, e.offset + 0), e.data[0]);
    }
  }

  lemma {:induction false} SomeLive(cfg: Config, s: State, n: int) returns (a: int)
    requires Accounted(cfg, s) && n in s.info && s.info[n].live != 0
    ensures a in s.objmap && s.objmap[a].ObjPtr? && s.objmap[a].obj == n
  {
    hide LogOk, StoreOk, QueueOk, GcOk, ValidPtr;
    CountZero(s.objmap, n);
    a :| a in s.objmap && s.objmap[a].ObjPtr? && s.objmap[a].obj == n;
  }

  /** The pieces a request keeps if nothing has been overwritten. */
  function Whole(es: seq<GcEntry>): (ps: seq<Write>)
    ensures |ps| == |es| && forall i :: 0 <= i < |es| ==> ps[i] == Write(es[i].lba, es[i].data)
  {
    seq(|es|, i requires 0 <= i < |es| => Write(es[i].lba, es[i].data))
  }

  /** The requests of a snapshot would keep all contents at once exactly when they carry what the objects hold. */
  lemma {:induction false} CopiesExact(cfg: Config, s: State, objs: set<int>, todo: seq<seq<GcEntry>>)
    requires Snapshot(cfg, s, objs, todo)
    ensures (forall i, ps :: 0 <= i < |todo| && Revalidated(s.objmap, todo[i], ps) ==> SameData(s.log, s.objmap, ps))
            <==> AllRead(s.log, todo)
  {
    if AllRead(s.log, todo) {
      forall i, ps | 0 <= i < |todo| && Revalidated(s.objmap, todo[i], ps) ensures SameData(s.log, s.objmap, ps) {
        ReadCopied(cfg, s, objs, todo, i, ps);
      }
    } else if forall i, ps :: 0 <= i < |todo| && Revalidated(s.objmap, todo[i], ps) ==> SameData(s.log, s.objmap, ps) {
      forall i, e | 0 <= i < |todo| && e in todo[i] ensures ReadFrom(s.log, e) {
        WholeRead(cfg, s, objs, todo, i, e);
      }
    }
  }

  lemma {:induction false} ReadCopied(cfg: Config, s: State, objs: set<int>, todo: seq<seq<GcEntry>>, i: int, ps: seq<Write>)
    requires Snapshot(cfg, s, objs, todo) && AllRead(s.log, todo) && 0 <= i < |todo| && Revalidated(s.objmap, todo[i], ps)
    ensures SameData(s.log, s.objmap, ps)
  {
    hide Choice, CoveredBy, DisjointEntries, EntriesTotal, ValidPtr;
    forall j, a | 0 <= j < |ps| && ps[j].Covers(a) ensures a in s.objmap && Holds(s.log, s.objmap[a], ps[j].data[a - ps[j].lba]) {
      var k :| 0 <= k < |todo[i]| && Keeps(s.objmap, todo[i][k], a) && ps[j].data[a - ps[j].lba] == todo[i][k].data[a - todo[i][k].lba];
      var e := todo[i][k];
      assert e in todo[i] && Picked(s, objs, e) && ReadFrom(s.log, e);
      assert Holds(s.log, ObjPtr(e.obj, e.offset + (a - e.lba)), e.data[a - e.lba]);
    }
  }

  lemma {:induction false} WholeRead(cfg: Config, s: State, objs: set<int>, todo: seq<seq<GcEntry>>, i: int, e: GcEntry)
    requires Snapshot(cfg, s, objs, todo) && 0 <= i < |todo| && e in todo[i]
    requires forall ps :: Revalidated(s.objmap, todo[i], ps) ==> SameData(s.log, s.objmap, ps)
    ensures ReadFrom(s.log, e)
  {
    WholeKept(cfg, s, objs, todo, i);
    hide Choice, CoveredBy, EntriesTotal, Revalidated, DisjointEntries;
    assert Picked(s, objs, e) && SameData(s.log, s.objmap, Whole(todo[i]));
    hide Snapshot;
    var k :| 0 <= k < |todo[i]| && todo[i][k] == e;
    SameRead(s, objs, e, Whole(todo[i]), k);
  }

  lemma {:induction false} SameRead(s: State, objs: set<int>, e: GcEntry, ps: seq<Write>, k: int)
    requires Picked(s, objs, e) && SameData(s.log, s.objmap, ps) && 0 <= k < |ps| && ps[k] == Write(e.lba, e.data)
    ensures ReadFrom(s.log, e)
  {
    hide ValidPtr;
    forall x | 0 <= x < |e.data| ensures Holds(s.log, ObjPtr(e.obj, e.offset + x), e.data[x]) {
      assert ps[k].Covers(e.lba + x) && e.Covers(e.lba + x);
    }
  }

  lemma {:induction false} WholeKept(cfg: Config, s: State, objs: set<int>, todo: seq<seq<GcEntry>>, i: int)
    requires Snapshot(cfg, s, objs, todo) && 0 <= i < |todo|
    ensures Revalidated(s.objmap, todo[i], Whole(todo[i]))
  {
    hide Choice, CoveredBy, EntriesTotal, ReadFrom;
    var es, ps := todo[i], Whole(todo[i]);
    assert forall k :: 0 <= k < |es| ==> es[k] in todo[i] && Picked(s, objs, es[k]);
    forall j, a | 0 <= j < |ps| && ps[j].Covers(a)
      ensures exists k :: 0 <= k < |es| && Keeps(s.objmap, es[k], a) && ps[j].data[a - ps[j].lba] == es[k].data[a - es[k].lba] {
      assert es[j].Covers(a) && Keeps(s.objmap, es[j], a);
    }
    forall k, a | 0 <= k < |es| && Keeps(s.objmap, es[k], a) ensures Touches(ps, a) {
      assert ps[k].Covers(a);
    }
    forall x, y, a | 0 <= x < y < |ps| && ps[x].Covers(a) ensures !ps[y].Covers(a) {
      assert es[x].Covers(a) && !es[y].Covers(a);
    }
  }
}
