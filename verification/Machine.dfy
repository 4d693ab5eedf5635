/** The volume as a machine of atomic steps: clients, the one worker, completions, the collector, crashes. */
module Machine {
  import opened Extents
  import opened Volume

  /** `max`: sectors of a batch; `pc`: collection threshold in percent; `window`: backend write window. */
  datatype Config = Config(max: nat, pc: nat, window: nat)

  /** A batch of client writes, copied one after the other into a buffer whose data starts at `addr`. */
  datatype Batch = Batch(addr: int, writes: seq<Write>)

  /** A run of live sectors picked for collection: where it was mapped to, and the data read from there. */
  datatype GcEntry = GcEntry(lba: int, obj: int, offset: int, data: seq<Sector>) {
    predicate Covers(a: int) {
      lba <= a < lba + |data|
    }
  }

  /** Requests on the worker's queue. A flush remembers how many writes it has to cover. */
  datatype Req = PutReq(batch: Batch) | GcReq(entries: seq<GcEntry>) | CkptReq | FlushReq(covers: nat)

  /** A write to the backend that has not completed, and the buffer it is written from. */
  datatype Put = BatchPut(addr: int) | GcPut

  /** The collector: idle; copying, with requests still to submit; or done, waiting to delete. */
  datatype Gc =
    | Idle
    | Copying(objs: set<int>, todo: seq<seq<GcEntry>>)
    | Cleaned(objs: set<int>, since: int)

  datatype State = State(
    history: seq<Write>,         // the client writes accepted so far
    flushed: nat,                // how many of them a returned flush has covered
    log: seq<Rec>,               // log[n] is the record the worker numbered n; log[0] stands for the new volume
    current: Batch,
    queue: seq<Req>,
    objmap: map<int, Ptr>,
    bufmap: map<int, Ptr>,
    info: map<int, Info>,
    backend: map<int, Rec>,      // durable objects
    inflight: map<int, Put>,     // objects being written
    checkpoints: seq<int>,       // as named by the superblock
    publishing: bool,            // the newest record is a checkpoint the superblock does not name yet
    gc: Gc)

  datatype Step =
    | Append(w: Write, addr: int)
    | Flush(addr: int)
    | Checkpoint(addr: int)
    | WorkPut
    | WorkGc(pieces: seq<Write>)
    | WorkCkpt
    | Publish
    | WorkFlush
    | Complete(n: int)
    | GcStart(objs: set<int>, todo: seq<seq<GcEntry>>)
    | GcSubmit
    | GcFinish
    | GcDelete(n: int)
    | GcAbort
    | GcStop
    | Reap(n: int)
    | Trim(base: int, limit: int)
    | Crash

  /** Header sectors of an object with `n` extents: 72 bytes and 8 for each extent, in whole 4 KB pages. */
  function HdrSectors(n: nat): nat {
    (72 + 8 * n + 4095) / 4096 * 8
  }

  function Init(addr: int): State {
    State([], 0, [CkptRec(map[], map[])], Batch(addr, []), [], map[], map[], map[], map[], map[], [], false, Idle)
  }

  // ---- the buffer map ----

  /** Where a batch keeps its writes. */
  function BufferWrite(m: map<int, Ptr>, b: Batch, w: Write): map<int, Ptr> {
    Override(m, w.lba, w.Limit(), BufPtr(b.addr + 512 * Total(b.writes)))
  }

  /** The buffer of a batch is `max` sectors from its address. */
  predicate InBuffer(cfg: Config, addr: int, p: Ptr) {
    p.BufPtr? && addr <= p.addr < addr + 512 * cfg.max
  }

  /** On completion a batch removes its writes from the buffer map, where they are still its own. */
  function Drop(cfg: Config, m: map<int, Ptr>, addr: int, writes: seq<Write>): map<int, Ptr> {
    map a | a in m && !(Touches(writes, a) && InBuffer(cfg, addr, m[a])) :: m[a]
  }

  // ---- bookkeeping ----

  /** Every live count moves by exactly the change in the number of sectors mapped to its object. */
  ghost function Settle(info: map<int, Info>, m: map<int, Ptr>, m': map<int, Ptr>): map<int, Info> {
    map n | n in info :: info[n].(live := info[n].live - Count(m, n) + Count(m', n))
  }

  ghost function AddObject(info: map<int, Info>, m: map<int, Ptr>, m': map<int, Ptr>, n: int, o: DataObj): map<int, Info> {
    Settle(info, m, m')[n := Info(o.hdr, Total(o.pieces), Count(m', n))]
  }

  function LastCkpt(s: State): int {
    if s.checkpoints == [] then 0 else s.checkpoints[|s.checkpoints| - 1]
  }

  /** The superblock names the last three checkpoints. */
  function Keep(cs: seq<int>): seq<int> {
    if |cs| > 3 then cs[|cs| - 3..] else cs
  }

  // ---- recovery ----

  /** Roll forward: the first number from `k` on with no durable data object. */
  ghost function Roll(backend: map<int, Rec>, k: int): (r: int)
    ensures k <= r && !(r in backend && backend[r].DataRec?)
    ensures forall n :: k <= n < r ==> n in backend && backend[n].DataRec?
    decreases |set n | n in backend && k <= n|
  {
    if k in backend && backend[k].DataRec? then
      var above, next := set n | n in backend && k <= n, set n | n in backend && k + 1 <= n;
      assert next <= above - {k} && k in above;
      assert |next| < |above| by { Smaller(next, above, k); }
      Roll(backend, k + 1)
    else k
  }

  lemma {:induction false} Smaller(x: set<int>, y: set<int>, e: int)
    requires x <= y && e in y && e !in x
    ensures |x| < |y|
  {
    assert y == (y - x) + x;
    assert e in y - x;
  }

  /** Replaying the objects numbered [from, k) over a map. */
  ghost function Replay(backend: map<int, Rec>, m: map<int, Ptr>, from: int, k: int): map<int, Ptr>
    requires from <= k && forall n :: from <= n < k ==> n in backend && backend[n].DataRec?
    decreases k - from
  {
    if from == k then m else
      var o := backend[k - 1].obj;
      ApplyPieces(Replay(backend, m, from, k - 1), k - 1, o.hdr, o.pieces)
  }

  ghost function ReplayInfo(backend: map<int, Rec>, m: map<int, Ptr>, info: map<int, Info>, from: int, k: int): map<int, Info>
    requires from <= k && forall n :: from <= n < k ==> n in backend && backend[n].DataRec?
    decreases k - from
  {
    if from == k then info else
      AddObject(ReplayInfo(backend, m, info, from, k - 1), Replay(backend, m, from, k - 1), Replay(backend, m, from, k),
                k - 1, backend[k - 1].obj)
  }

  /** What the image starts from: the newest named checkpoint. */
  ghost predicate HasCkpt(s: State) {
    s.checkpoints != [] && LastCkpt(s) in s.backend && s.backend[LastCkpt(s)].CkptRec?
  }

  /** The number the next object gets after recovery. With no checkpoint nothing is replayed. */
  ghost function RecoverPoint(s: State): int {
    if s.checkpoints == [] then 1 else Roll(s.backend, LastCkpt(s) + 1)
  }

  ghost function RecoveredMap(s: State): map<int, Ptr>
    requires s.checkpoints != [] ==> HasCkpt(s)
  {
    if s.checkpoints == [] then map[]
    else Replay(s.backend, s.backend[LastCkpt(s)].omap, LastCkpt(s) + 1, RecoverPoint(s))
  }

  ghost function RecoveredInfo(s: State): map<int, Info>
    requires s.checkpoints != [] ==> HasCkpt(s)
  {
    if s.checkpoints == [] then map[]
    else ReplayInfo(s.backend, s.backend[LastCkpt(s)].omap, s.backend[LastCkpt(s)].info, LastCkpt(s) + 1, RecoverPoint(s))
  }

  /** Recovery deletes the objects just past the recovery point; with no checkpoint it deletes none. */
  ghost function Swept(cfg: Config, s: State): map<int, Rec> {
    if s.checkpoints == [] then s.backend
    else map n | n in s.backend && !(RecoverPoint(s) <= n < RecoverPoint(s) + 4 * cfg.window - 1) :: s.backend[n]
  }

  // ---- steps ----

  ghost predicate Fresh(cfg: Config, s: State, addr: int) {
    forall b :: b in Buffers(s) ==> Apart(cfg, b, addr)
  }

  /** Two buffers never touch: each has room for a header in front of its data. */
  ghost predicate Apart(cfg: Config, a: int, b: int) {
    a + 512 * cfg.max < b || b + 512 * cfg.max < a
  }

  /** The addresses of the buffers in use. */
  ghost function Buffers(s: State): set<int> {
    {s.current.addr}
    + (set i | 0 <= i < |s.queue| && s.queue[i].PutReq? :: s.queue[i].batch.addr)
    + (set n | n in s.inflight && s.inflight[n].BatchPut? :: s.inflight[n].addr)
  }

  /** The current batch goes on the queue and a new one is started. */
  function Seal(s: State, addr: int): State {
    s.(queue := s.queue + [PutReq(s.current)], current := Batch(addr, []))
  }

  ghost predicate Enabled(cfg: Config, s: State, step: Step) {
    match step
    case Append(w, addr) => 0 < |w.data| <= cfg.max && Fresh(cfg, s, addr)
    case Flush(addr) => Fresh(cfg, s, addr)
    case Checkpoint(addr) => Fresh(cfg, s, addr)
    case WorkPut => !s.publishing && s.queue != [] && s.queue[0].PutReq?
    case WorkGc(pieces) => GcReady(s, pieces)
    case WorkCkpt => !s.publishing && s.queue != [] && s.queue[0].CkptReq?
    case Publish => s.publishing
    case WorkFlush => !s.publishing && s.queue != [] && s.queue[0].FlushReq? && s.inflight == map[]
    case Complete(n) => n in s.inflight && 0 <= n < |s.log| && s.log[n].DataRec?
    case GcStart(objs, todo) => s.gc.Idle? && Snapshot(cfg, s, objs, todo)
    case GcSubmit => s.gc.Copying? && s.gc.todo != []
    case GcFinish => s.gc.Copying? && s.gc.todo == [] && NoGcPending(s)
    case GcDelete(n) => s.gc.Cleaned? && n in s.gc.objs && s.checkpoints != [] && s.gc.since <= LastCkpt(s)
    case GcAbort => true
    case GcStop => s.gc.Copying? && s.gc.todo == []
    case Reap(n) => n in s.info && s.info[n].live == 0
    case Trim(base, limit) => base <= limit
    case Crash => s.checkpoints != [] ==> HasCkpt(s)
  }

  ghost predicate NoGcPending(s: State) {
    && (forall i :: 0 <= i < |s.queue| ==> !s.queue[i].GcReq?)
    && (forall n :: n in s.inflight ==> !s.inflight[n].GcPut?)
  }

  /** Revalidation keeps exactly the sectors of the request still mapped to the object they were picked from. */
  ghost predicate Revalidated(m: map<int, Ptr>, entries: seq<GcEntry>, pieces: seq<Write>) {
    && (forall j :: 0 <= j < |pieces| ==> 0 < |pieces[j].data|)
    && DisjointPieces(pieces)
    && (forall j, a :: 0 <= j < |pieces| && pieces[j].Covers(a) ==>
          exists i :: 0 <= i < |entries| && Keeps(m, entries[i], a) && pieces[j].data[a - pieces[j].lba] == entries[i].data[a - entries[i].lba])
    && (forall i, a :: 0 <= i < |entries| && Keeps(m, entries[i], a) ==> Touches(pieces, a))
  }

  ghost predicate DisjointPieces(ps: seq<Write>) {
    forall i, j, a :: 0 <= i < j < |ps| && ps[i].Covers(a) ==> !ps[j].Covers(a)
  }

  ghost predicate Keeps(m: map<int, Ptr>, e: GcEntry, a: int) {
    e.Covers(a) && a in m && m[a].ObjPtr? && m[a].obj == e.obj
  }

  /** A cycle picks sparse objects no newer than the last checkpoint, reads them, and packs all their live sectors. */
  ghost predicate Snapshot(cfg: Config, s: State, objs: set<int>, todo: seq<seq<GcEntry>>) {
    && Choice(cfg, s, objs)
    && (forall i, e :: 0 <= i < |todo| && e in todo[i] ==> Picked(s, objs, e))
    && (forall i :: 0 <= i < |todo| ==> DisjointEntries(todo[i]) && todo[i] != [] && EntriesTotal(todo[i][..|todo[i]| - 1]) < cfg.max)
    && (forall a :: a in s.objmap && s.objmap[a].ObjPtr? && s.objmap[a].obj in objs ==> CoveredBy(todo, a, s.objmap[a].obj))
  }

  ghost predicate Choice(cfg: Config, s: State, objs: set<int>) {
    forall n :: n in objs ==> n in s.info && Sparse(cfg, s.info[n]) && (s.checkpoints != [] ==> n <= LastCkpt(s))
  }

  /** Utilisation at or below the threshold. */
  predicate Sparse(cfg: Config, i: Info) {
    100 * i.live <= cfg.pc * i.data
  }

  /** The result of the read is not looked at: if the object is not there, the data can be anything. */
  ghost predicate Picked(s: State, objs: set<int>, e: GcEntry) {
    && 0 < |e.data| && e.obj in objs
    && (forall a :: e.Covers(a) ==> a in s.objmap && s.objmap[a] == ObjPtr(e.obj, e.offset + (a - e.lba)))
    && (e.obj in s.backend ==> ReadFrom(s.log, e))
  }

  /** The data of an entry is what its object holds there. */
  ghost predicate ReadFrom(log: seq<Rec>, e: GcEntry) {
    forall i :: 0 <= i < |e.data| ==> Holds(log, ObjPtr(e.obj, e.offset + i), e.data[i])
  }

  ghost predicate DisjointEntries(es: seq<GcEntry>) {
    forall i, j, a :: 0 <= i < j < |es| && es[i].Covers(a) ==> !es[j].Covers(a)
  }

  function EntriesTotal(es: seq<GcEntry>): nat {
    if es == [] then 0 else EntriesTotal(es[..|es| - 1]) + |es[|es| - 1].data|
  }

  ghost predicate CoveredBy(todo: seq<seq<GcEntry>>, a: int, n: int) {
    exists i, e :: 0 <= i < |todo| && e in todo[i] && e.Covers(a) && e.obj == n
  }

  /** The worker numbers a data object and starts writing it. */
  ghost function Issue(s: State, o: DataObj, put: Put): State
    requires s.queue != []
  {
    var n := |s.log|;
    var m := ApplyPieces(s.objmap, n, o.hdr, o.pieces);
    s.(log := s.log + [DataRec(o)], queue := s.queue[1..], objmap := m,
       info := AddObject(s.info, s.objmap, m, n, o), inflight := s.inflight[n := put])
  }

  /** The head of the queue, a batch, becomes an object. */
  ghost function DoPut(s: State): State
    requires s.queue != [] && s.queue[0].PutReq?
  {
    var b := s.queue[0].batch;
    Issue(s, DataObj(HdrSectors(|b.writes|), b.writes, false), BatchPut(b.addr))
  }

  /** The head of the queue, a collection request, becomes an object of the pieces it has kept. */
  ghost function DoGc(s: State, pieces: seq<Write>): State
    requires s.queue != []
  {
    Issue(s, DataObj(HdrSectors(|pieces|), pieces, true), GcPut)
  }

  /** The head of the queue is a collection request that revalidates to `pieces`. */
  ghost predicate GcReady(s: State, pieces: seq<Write>) {
    !s.publishing && s.queue != [] && s.queue[0].GcReq? && Revalidated(s.objmap, s.queue[0].entries, pieces)
  }

  function DoAppend(cfg: Config, s: State, w: Write, addr: int): State {
    var t := if Total(s.current.writes) + |w.data| <= cfg.max then s else Seal(s, addr);
    t.(history := t.history + [w],
       bufmap := BufferWrite(t.bufmap, t.current, w),
       current := t.current.(writes := t.current.writes + [w]))
  }

  /** A flush or a checkpoint goes on the queue behind everything written so far. */
  function DoEnqueue(s: State, addr: int, r: Req): State {
    var t := if s.current.writes != [] then Seal(s, addr) else s;
    t.(queue := t.queue + [r])
  }

  function DoCkpt(s: State): State
    requires s.queue != []
  {
    var r := CkptRec(s.objmap, s.info);
    s.(log := s.log + [r], queue := s.queue[1..], backend := s.backend[|s.log| := r], publishing := true)
  }

  function DoPublish(s: State): State {
    var cs := s.checkpoints + [|s.log| - 1];
    s.(checkpoints := Keep(cs), publishing := false,
       backend := map n | n in s.backend && !(n in cs && n !in Keep(cs)) :: s.backend[n])
  }

  function DoFlushed(s: State): State
    requires s.queue != [] && s.queue[0].FlushReq?
  {
    s.(queue := s.queue[1..], flushed := if s.queue[0].covers > s.flushed then s.queue[0].covers else s.flushed)
  }

  function DoComplete(cfg: Config, s: State, n: int): State
    requires n in s.inflight && 0 <= n < |s.log| && s.log[n].DataRec?
  {
    s.(inflight := s.inflight - {n}, backend := s.backend[n := s.log[n]],
       bufmap := if s.inflight[n].GcPut? then s.bufmap
                 else Drop(cfg, s.bufmap, s.inflight[n].addr, s.log[n].obj.pieces))
  }

  ghost function DoTrim(s: State, base: int, limit: int): State {
    var m := Remove(s.objmap, base, limit);
    s.(objmap := m, info := Settle(s.info, s.objmap, m))
  }

  /** The image is opened again: everything in memory is rebuilt from the backend. */
  ghost function DoCrash(cfg: Config, s: State): State
    requires s.checkpoints != [] ==> HasCkpt(s)
  {
    var k := RecoverPoint(s);
    var log := if 0 <= k <= |s.log| then s.log[..k] else s.log;
    State(LogWrites(log, |log|), s.flushed, log, Batch(s.current.addr, []), [], RecoveredMap(s), map[], RecoveredInfo(s),
          Swept(cfg, s), map[], s.checkpoints, false, Idle)
  }

  ghost function Do(cfg: Config, s: State, step: Step): State
    requires Enabled(cfg, s, step)
  {
    match step
    case Append(w, addr) => DoAppend(cfg, s, w, addr)
    case Flush(addr) => DoEnqueue(s, addr, FlushReq(|s.history|))
    case Checkpoint(addr) => DoEnqueue(s, addr, CkptReq)
    case WorkPut => DoPut(s)
    case WorkGc(pieces) => DoGc(s, pieces)
    case WorkCkpt => DoCkpt(s)
    case Publish => DoPublish(s)
    case WorkFlush => DoFlushed(s)
    case Complete(n) => DoComplete(cfg, s, n)
    case GcStart(objs, todo) => s.(gc := Copying(objs, todo))
    case GcSubmit => s.(gc := Copying(s.gc.objs, s.gc.todo[1..]), queue := s.queue + [GcReq(s.gc.todo[0])])
    case GcFinish => s.(gc := Cleaned(s.gc.objs, |s.log|), info := s.info - s.gc.objs)
    case GcDelete(n) => s.(backend := s.backend - {n})
    case GcAbort => s.(gc := Idle)
    case GcStop => s.(gc := Idle, info := s.info - s.gc.objs)
    case Reap(n) => s.(backend := s.backend - {n}, info := s.info - {n})
    case Trim(base, limit) => DoTrim(s, base, limit)
    case Crash => DoCrash(cfg, s)
  }

  /** The step is possible and takes `s` to `t`. */
  ghost predicate Next(cfg: Config, s: State, step: Step, t: State) {
    Enabled(cfg, s, step) && t == Do(cfg, s, step)
  }

  /** `steps` lead from `s` to `t`. */
  ghost predicate Run(cfg: Config, s: State, steps: seq<Step>, t: State)
    decreases |steps|
  {
    if steps == [] then s == t
    else Enabled(cfg, s, steps[0]) && Run(cfg, Do(cfg, s, steps[0]), steps[1..], t)
  }

  ghost predicate NoCrash(steps: seq<Step>) {
    forall i :: 0 <= i < |steps| ==> !steps[i].Crash?
  }
}
