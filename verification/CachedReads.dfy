/** The volume and its read cache together: chunks are fetched from the objects that are durable at that moment. */
module CachedReads {
  import opened Extents
  import opened Volume
  import opened Machine
  import opened Accounting
  import opened PrefixConsistency
  import opened ReadSteps
  import opened ReadTheorem
  import opened ReadPath
  import opened ReadResult
  import opened Scatter
  import RC = ReadCache

  /** The chunk has what the object holds, wherever the object has data; headers and what lies past the end do not matter. */
  ghost predicate ChunkOf(log: seq<Rec>, k: RC.Key, b: RC.Bytes) {
    && 0 <= k.num < |log| && log[k.num].DataRec?
    && var o := log[k.num].obj; forall i :: 0 <= i < |b| && o.Has(k.offset + i) ==> b[i] == o.At(k.offset + i)
  }

  ghost function Objects(log: seq<Rec>): RC.Good {
    (k: RC.Key, b: RC.Bytes) => ChunkOf(log, k, b)
  }

  datatype System = System(s: State, c: RC.Cache)

  datatype Act = OnVolume(step: Step) | OnCache(ev: RC.Event)

  /** The object of a key is there to be fetched. */
  ghost predicate Present(s: State, k: RC.Key) {
    k.num in s.backend && s.backend[k.num].DataRec?
  }

  /** A fetch is sound exactly when it finds the object; nobody looks, and the chunk is kept either way. */
  ghost predicate CanAct(cfg: Config, x: System, act: Act) {
    match act
    case OnVolume(step) => Enabled(cfg, x.s, step)
    case OnCache(ev) =>
      && RC.Enabled(Objects(x.s.log), x.c, ev)
      && (ev.Fetched? ==> (ev.sound <==> Present(x.s, x.c.entries[x.c.reqs[ev.q].chunk].key)))
  }

  /** A crash takes the cache with it. */
  ghost function Acted(cfg: Config, x: System, act: Act): System
    requires CanAct(cfg, x, act)
  {
    match act
    case OnVolume(step) => System(Do(cfg, x.s, step), if step.Crash? then RC.Start(|x.c.store|, x.c.store) else x.c)
    case OnCache(ev) => System(x.s, RC.Apply(Objects(x.s.log), x.c, ev))
  }

  ghost predicate Acts(cfg: Config, x: System, acts: seq<Act>, y: System)
    decreases |acts|
  {
    if acts == [] then x == y else CanAct(cfg, x, acts[0]) && Acts(cfg, Acted(cfg, x, acts[0]), acts[1..], y)
  }

  /** The cache is in order with respect to the objects of the log. */
  ghost predicate CacheOk(x: System) {
    RC.Ok(Objects(x.s.log), x.c)
  }

  // ---- every run keeps the cache in order ----

  /** What is right stays right when more is. */
  lemma {:induction false} OkMore(good: RC.Good, more: RC.Good, c: RC.Cache)
    requires RC.Ok(good, c) && forall k, b :: good(k, b) ==> more(k, b)
    ensures RC.Ok(more, c)
  {
    hide RC.Inverse, RC.Users;
    forall i | 0 <= i < |c.entries| ensures RC.EntryOk(more, c.entries[i], c.store[i], c.reqs, i) {
      RC.EntryAt(good, c, i);
    }
    forall q ensures RC.RequestAt(more, c, q) {
      assert RC.RequestAt(good, c, q);
      RequestMore(good, more, c, q);
    }
  }

  lemma {:induction false} RequestMore(good: RC.Good, more: RC.Good, c: RC.Cache, q: int)
    requires RC.RequestAt(good, c, q) && forall k, b :: good(k, b) ==> more(k, b)
    ensures RC.RequestAt(more, c, q)
  {
    forall w, got | RC.Served(good, w, got) ensures RC.Served(more, w, got) {
      ServedMore(good, more, w, got);
    }
    hide RC.Served;
  }

  lemma {:induction false} ServedMore(good: RC.Good, more: RC.Good, w: RC.Want, got: RC.Outcome)
    requires RC.Served(good, w, got) && forall k, b :: good(k, b) ==> more(k, b)
    ensures RC.Served(more, w, got)
  {
    if got.sound {
      var b :| |b| == RC.CHUNK && good(w.key, b) && got.value == w.Of(b);
      assert more(w.key, b);
    }
  }

  lemma {:induction false} ObjectsMore(log: seq<Rec>, log': seq<Rec>)
    requires Grown(log, log')
    ensures forall k, b :: Objects(log)(k, b) ==> Objects(log')(k, b)
  {
    hide Total, Payload;
  }

  /** Only a crash takes records off the log. */
  lemma {:induction false} LogGrows(cfg: Config, s: State, step: Step)
    requires Enabled(cfg, s, step) && !step.Crash?
    ensures Grown(s.log, Do(cfg, s, step).log)
  {
    hide Fresh, Revalidated, ApplyPieces, AddObject, Drop, BufferWrite, Settle, Remove, Snapshot, Total, NoGcPending;
  }

  lemma {:induction false} ActOk(cfg: Config, x: System, act: Act)
    requires CacheOk(x) && CanAct(cfg, x, act) && |x.c.store| == |x.c.entries|
    ensures CacheOk(Acted(cfg, x, act)) && var y := Acted(cfg, x, act); |y.c.store| == |y.c.entries|
  {
    hide RC.Ok, Objects, Do, Enabled, RC.Enabled, RC.Apply;
    match act
    case OnVolume(step) =>
      var s' := Do(cfg, x.s, step);
      if step.Crash? {
        RC.StartOk(Objects(s'.log), |x.c.store|, x.c.store);
      } else {
        LogGrows(cfg, x.s, step);
        ObjectsMore(x.s.log, s'.log);
        OkMore(Objects(x.s.log), Objects(s'.log), x.c);
      }
    case OnCache(ev) =>
      RC.EventOk(Objects(x.s.log), x.c, ev);
      SameSize(Objects(x.s.log), RC.Apply(Objects(x.s.log), x.c, ev));
  }

  lemma {:induction false} SameSize(good: RC.Good, c: RC.Cache)
    requires RC.Ok(good, c)
    ensures |c.store| == |c.entries|
  {
  }

  lemma {:induction false} ActsOk(cfg: Config, x: System, acts: seq<Act>, y: System)
    requires CacheOk(x) && |x.c.store| == |x.c.entries| && Acts(cfg, x, acts, y)
    ensures CacheOk(y) && |y.c.store| == |y.c.entries|
    decreases |acts|
  {
    hide CacheOk, CanAct;
    if acts != [] {
      ActOk(cfg, x, acts[0]);
      ActsOk(cfg, Acted(cfg, x, acts[0]), acts[1..], y);
    }
  }

  lemma {:induction false} StartsOk(a: int, size: nat, store: seq<RC.Bytes>)
    requires |store| == size
    ensures var x := System(Init(a), RC.Start(size, store)); CacheOk(x) && |x.c.store| == |x.c.entries|
  {
    RC.StartOk(Objects(Init(a).log), size, store);
  }

  /** Over every run of volume and cache: a chunk in the store is its object's if the object was there at the fetch. */
  lemma {:induction false} ResidentAgrees(cfg: Config, a: int, size: nat, store: seq<RC.Bytes>, acts: seq<Act>, y: System, i: int)
    requires |store| == size && Acts(cfg, System(Init(a), RC.Start(size, store)), acts, y)
    requires 0 <= i < |y.c.entries| && y.c.entries[i].status == RC.Resident && y.c.entries[i].sound
    ensures i < |y.c.store| && ChunkOf(y.s.log, y.c.entries[i].key, y.c.store[i])
  {
    StartsOk(a, size, store);
    ActsOk(cfg, System(Init(a), RC.Start(size, store)), acts, y);
    hide RC.Users, RC.Inverse, ChunkOf;
    RC.EntryAt(Objects(y.s.log), y.c, i);
  }

  /** Whatever a fetch may leave in the buffer, it is the object's chunk exactly when the object is there. */
  lemma {:induction false} FetchExact(cfg: Config, x: System, q: int, i: int)
    requires StoreOk(x.s.log, x.s.backend, x.s.inflight)
    requires q in x.c.reqs && x.c.reqs[q].Miss? && !x.c.reqs[q].fetched && 0 <= x.c.reqs[q].chunk < |x.c.entries|
    requires var k := x.c.entries[x.c.reqs[q].chunk].key;
             0 <= k.num < |x.s.log| && x.s.log[k.num].DataRec? && 0 <= i < RC.CHUNK && x.s.log[k.num].obj.Has(k.offset + i)
    ensures var k := x.c.entries[x.c.reqs[q].chunk].key;
            (forall data, sound :: CanAct(cfg, x, OnCache(RC.Fetched(q, data, sound))) ==> ChunkOf(x.s.log, k, data)) <==> Present(x.s, k)
  {
    var k := x.c.entries[x.c.reqs[q].chunk].key;
    if !Present(x.s, k) {
      var v := x.s.log[k.num].obj.At(k.offset + i);
      var junk := Filled(v + 1, RC.CHUNK);
      assert CanAct(cfg, x, OnCache(RC.Fetched(q, junk, false)));
      assert junk[i] != v;
    }
  }

  function Filled(v: int, n: nat): (b: seq<int>)
    ensures |b| == n && forall i :: 0 <= i < n ==> b[i] == v
  {
    if n == 0 then [] else Filled(v, n - 1) + [v]
  }

  // ---- what a read gets through the cache ----

  /** What a block read asks the cache for. */
  function WantOf(name: string, r: BlockRead): RC.Want
    requires r.Aligned()
  {
    RC.Want(RC.Key(name, r.obj, r.block), r.inBlock, r.sectors)
  }

  /** The cache answers a read: with what a request that is over was given, or at once from a chunk being written to the store. */
  ghost predicate Answers(c: RC.Cache, w: RC.Want, part: RC.Outcome) {
    || (exists q :: q in c.wants && c.wants[q] == w && q !in c.reqs && q in c.got && part == c.got[q])
    || (exists i :: 0 <= i < |c.entries| && FromBuffer(c.entries[i], w, part))
  }

  ghost predicate FromBuffer(e: RC.Entry, w: RC.Want, part: RC.Outcome) {
    && e.status == RC.Filling && e.key == w.key && e.buffer.Some? && w.Fits() && |e.buffer.value| == RC.CHUNK
    && part == RC.Got(w.Of(e.buffer.value), e.sound)
  }

  /** ... at some moment from `x` on. */
  ghost predicate Answered(cfg: Config, x: System, acts: seq<Act>, w: RC.Want, part: RC.Outcome) {
    exists k, z :: 0 <= k <= |acts| && Acts(cfg, x, acts[..k], z) && Answers(z.c, w, part)
  }

  /** `got` is the output with what the cache answered the block reads. */
  ghost predicate Assembled(cfg: Config, x: System, acts: seq<Act>, name: string, out: seq<Sector>, reqs: seq<BlockRead>,
                            parts: seq<RC.Outcome>, got: seq<Sector>) {
    && |got| == |out| && |parts| == |reqs|
    && (forall j :: 0 <= j < |reqs| ==> reqs[j].Aligned() && Answered(cfg, x, acts, WantOf(name, reqs[j]), parts[j]))
    && (forall i :: 0 <= i < |out| && NoFill(reqs, i) ==> got[i] == out[i])
    && (forall i, j :: 0 <= i < |out| && 0 <= j < |reqs| && reqs[j].Fills(i) ==> Given(reqs[j], parts[j], got[i], i))
  }

  ghost predicate Given(r: BlockRead, part: RC.Outcome, v: Sector, i: int) {
    part.Got? && 0 <= i - r.at < |part.value| && v == part.value[i - r.at]
  }

  /** Every block read that fills sector `i` was served from a chunk fetched while its object was there. */
  ghost predicate SoundAt(reqs: seq<BlockRead>, parts: seq<RC.Outcome>, i: int)
    requires |parts| == |reqs|
  {
    forall j :: 0 <= j < |reqs| && reqs[j].Fills(i) ==> parts[j].Got? && parts[j].sound
  }

  lemma {:induction false} AnswersServe(good: RC.Good, c: RC.Cache, w: RC.Want, part: RC.Outcome)
    requires RC.Ok(good, c) && Answers(c, w, part)
    ensures RC.Served(good, w, part)
  {
    hide RC.Inverse, RC.Users, RC.Served;
    if exists q :: q in c.wants && c.wants[q] == w && q !in c.reqs && q in c.got && part == c.got[q] {
      var q :| q in c.wants && c.wants[q] == w && q !in c.reqs && q in c.got && part == c.got[q];
      assert RC.RequestAt(good, c, q);
    } else {
      var i :| 0 <= i < |c.entries| && FromBuffer(c.entries[i], w, part);
      RC.EntryAt(good, c, i);
      RC.HitServed(good, c.entries[i], c.entries[i].buffer.value, w);
    }
  }

  lemma {:induction false} ActsNone(cfg: Config, x: System, y: System)
    requires Acts(cfg, x, [], y)
    ensures x == y
  {
  }

  lemma {:induction false} ActsHead(cfg: Config, x: System, acts: seq<Act>, y: System)
    requires acts != [] && Acts(cfg, x, acts, y)
    ensures CanAct(cfg, x, acts[0]) && Acts(cfg, Acted(cfg, x, acts[0]), acts[1..], y)
  {
    hide CanAct, Acted;
  }

  lemma {:induction false} ActsPrefix(cfg: Config, x: System, acts: seq<Act>, y: System, k: int, z: System)
    requires Acts(cfg, x, acts, y) && 0 <= k <= |acts| && Acts(cfg, x, acts[..k], z)
    ensures Acts(cfg, z, acts[k..], y)
    decreases |acts|
  {
    hide CanAct, Acted, Acts;
    if k == 0 {
      assert acts[k..] == acts && acts[..k] == [];
      ActsNone(cfg, x, z);
    } else {
      assert acts[..k][1..] == acts[1..][..k - 1] && acts[k..] == acts[1..][k - 1..];
      ActsHead(cfg, x, acts, y);
      ActsHead(cfg, x, acts[..k], z);
      ActsPrefix(cfg, Acted(cfg, x, acts[0]), acts[1..], y, k - 1, z);
    }
  }

  /** What the cache answers is, if sound, the object's, and stays so. */
  lemma {:induction false} AnsweredServe(cfg: Config, x: System, acts: seq<Act>, y: System, w: RC.Want, part: RC.Outcome)
    requires CacheOk(x) && |x.c.store| == |x.c.entries| && Acts(cfg, x, acts, y) && Uncrashed(acts) && Answered(cfg, x, acts, w, part)
    ensures RC.Served(Objects(y.s.log), w, part)
  {
    hide Acts, Answers, RC.Served, Objects, Grown, RC.Ok;
    var k, z :| 0 <= k <= |acts| && Acts(cfg, x, acts[..k], z) && Answers(z.c, w, part);
    ActsPrefix(cfg, x, acts, y, k, z);
    ActsOk(cfg, x, acts[..k], z);
    AnswersServe(Objects(z.s.log), z.c, w, part);
    assert Uncrashed(acts[k..]) by { assert forall i :: 0 <= i < |acts| - k ==> acts[k..][i] == acts[k + i]; }
    ActsGrow(cfg, z, acts[k..], y);
    ObjectsMore(z.s.log, y.s.log);
    ServedMore(Objects(z.s.log), Objects(y.s.log), w, part);
  }

  lemma {:induction false} GivenRight(log: seq<Rec>, name: string, r: BlockRead, part: RC.Outcome, i: int, v: Sector)
    requires r.Aligned() && r.Fills(i) && RC.Served(Objects(log), WantOf(name, r), part) && part.sound && Given(r, part, v, i)
    ensures forall u :: Holds(log, r.Source(i), u) ==> v == u
  {
    hide Total, Payload;
    var w := WantOf(name, r);
    var b :| |b| == RC.CHUNK && Objects(log)(w.key, b) && part.value == w.Of(b);
    assert v == b[r.inBlock + (i - r.at)];
  }

  /** The block reads of a read deliver what the objects held, if the chunks they were served from are sound. */
  lemma {:induction false} CacheDelivers(cfg: Config, x: System, acts: seq<Act>, y: System, name: string, out: seq<Sector>, reqs: seq<BlockRead>,
                                         parts: seq<RC.Outcome>, got: seq<Sector>, i: int)
    requires StoreOk(x.s.log, x.s.backend, x.s.inflight) && CacheOk(x) && |x.c.store| == |x.c.entries| && Acts(cfg, x, acts, y) && Uncrashed(acts)
    requires Assembled(cfg, x, acts, name, out, reqs, parts, got) && 0 <= i < |out| && SoundAt(reqs, parts, i)
    ensures Delivered(x.s, out, reqs, got, i)
  {
    hide CacheOk, Acts, Uncrashed, Total, Payload, RC.Served, Objects, Answered;
    ActsGrow(cfg, x, acts, y);
    forall j, v | 0 <= j < |reqs| && reqs[j].Fills(i) && Readable(x.s.backend, reqs[j].Source(i), v) ensures got[i] == v {
      AnsweredServe(cfg, x, acts, y, WantOf(name, reqs[j]), parts[j]);
      assert Given(reqs[j], parts[j], got[i], i);
      GivenRight(y.s.log, name, reqs[j], parts[j], i, got[i]);
      assert Holds(y.s.log, reqs[j].Source(i), v);
    }
  }

  ghost predicate Uncrashed(acts: seq<Act>) {
    forall i :: 0 <= i < |acts| ==> !(acts[i].OnVolume? && acts[i].step.Crash?)
  }

  lemma {:induction false} ActsGrow(cfg: Config, x: System, acts: seq<Act>, y: System)
    requires Acts(cfg, x, acts, y) && Uncrashed(acts)
    ensures Grown(x.s.log, y.s.log)
    decreases |acts|
  {
    hide CanAct, Grown;
    if acts == [] {
      GrownSelf(x.s.log);
    } else {
      var u := Acted(cfg, x, acts[0]);
      ActGrows(cfg, x, acts[0]);
      assert forall i :: 0 <= i < |acts| - 1 ==> acts[1..][i] == acts[i + 1];
      ActsGrow(cfg, u, acts[1..], y);
      GrownTwice(x.s.log, u.s.log, y.s.log);
    }
  }

  lemma {:induction false} GrownSelf(log: seq<Rec>)
    ensures Grown(log, log)
  {
  }

  lemma {:induction false} GrownTwice(p: seq<Rec>, q: seq<Rec>, r: seq<Rec>)
    requires Grown(p, q) && Grown(q, r)
    ensures Grown(p, r)
  {
  }

  lemma {:induction false} ActGrows(cfg: Config, x: System, act: Act)
    requires CanAct(cfg, x, act) && (act.OnVolume? ==> !act.step.Crash?)
    ensures Grown(x.s.log, Acted(cfg, x, act).s.log)
  {
    hide Enabled, Do, RC.Enabled, RC.Apply, Grown;
    if act.OnVolume? {
      LogGrows(cfg, x.s, act.step);
    } else {
      GrownSelf(x.s.log);
    }
  }

  /** A read put together in state `x` and over when `acts` are, with anything but a crash in between: a sector is the
      newest write to it at `x`, unless a collected object still on its way has just taken it, or a chunk it came from
      was fetched while its object was missing. */
  lemma {:induction false} CachedReadNewest(cfg: Config, x: System, acts: seq<Act>, y: System, name: string, mem: int -> Sector, start: int,
                                            out: seq<Sector>, was: seq<Sector>, reqs: seq<BlockRead>, parts: seq<RC.Outcome>, got: seq<Sector>, i: int)
    requires Coherent(cfg, x.s) && CacheOk(x) && |x.c.store| == |x.c.entries| && Acts(cfg, x, acts, y) && Uncrashed(acts)
    requires MemoryOf(x.s, mem) && Progress(x.s.bufmap, x.s.objmap, mem, start, |out|, out, was, reqs)
    requires Assembled(cfg, x, acts, name, out, reqs, parts, got)
    requires 0 <= i < |out| && !OnlyInGcBuffer(x.s, start + i) && SoundAt(reqs, parts, i)
    ensures got[i] == ReadSector(DiskAfter(x.s.history), start + i)
  {
    CoherentStore(cfg, x.s);
    hide Coherent, CacheOk, StoreOk, Assembled, Delivered, Progress, DiskAfter, OnlyInGcBuffer, Acts, MemoryOf, SoundAt, Uncrashed;
    AssembledSize(cfg, x, acts, name, out, reqs, parts, got);
    CacheDelivers(cfg, x, acts, y, name, out, reqs, parts, got, i);
    ReadReturnsNewest(cfg, x.s, mem, start, out, was, reqs, got, i);
  }

  /** The same in the scattered buffers of the client: `mid` is memory when the read has been put together, `last` when
      every block read has copied in what the cache answered. */
  lemma {:induction false} ScatteredReadNewest(cfg: Config, x: System, acts: seq<Act>, y: System, name: string, src: int -> int, dec: Decoder,
                                               start: int, all: seq<int>, first: seq<int>, mid: seq<int>, last: seq<int>, reqs: seq<BlockRead>,
                                               chunks: seq<seq<int>>, parts: seq<RC.Outcome>, i: int)
    requires Coherent(cfg, x.s) && CacheOk(x) && |x.c.store| == |x.c.entries| && Acts(cfg, x, acts, y) && Uncrashed(acts)
    requires Scatter.Inside(first, all) && Scatter.Inside(mid, all) && Scatter.Inside(last, all) && MemoryOf(x.s, Memory(src, dec))
    requires Progress(x.s.bufmap, x.s.objmap, Memory(src, dec), start, |all| / SECTOR, Scatter.Held(mid, all, dec), Scatter.Held(first, all, dec), reqs)
    requires forall k :: 0 <= k < |all| / SECTOR ==> Landed(Scatter.Held(last, all, dec), Scatter.Held(mid, all, dec), dec, reqs, chunks, k)
    requires |parts| == |reqs| == |chunks|
    requires forall j :: 0 <= j < |reqs| ==> reqs[j].Aligned() && Answered(cfg, x, acts, WantOf(name, reqs[j]), parts[j]) && Brought(chunks[j], dec, parts[j])
    requires 0 <= i < |all| / SECTOR && !OnlyInGcBuffer(x.s, start + i) && SoundAt(reqs, parts, i)
    ensures Scatter.Held(last, all, dec)[i] == ReadSector(DiskAfter(x.s.history), start + i)
  {
    hide Coherent, CacheOk, Progress, DiskAfter, OnlyInGcBuffer, Acts, MemoryOf, SoundAt, Uncrashed, Answered, Scatter.Held, Memory, Landed, Assembled;
    var out, got := Scatter.Held(mid, all, dec), Scatter.Held(last, all, dec);
    forall k | 0 <= k < |out| ensures LandedAt(out, got, reqs, parts, k) {
      LandedGives(out, got, dec, reqs, chunks, parts, k);
    }
    AssembledOf(cfg, x, acts, name, out, reqs, parts, got);
    CachedReadNewest(cfg, x, acts, y, name, Memory(src, dec), start, out, Scatter.Held(first, all, dec), reqs, parts, got, i);
  }

  /** The bytes stand for the sectors the cache answered. */
  ghost predicate Brought(chunk: seq<int>, dec: Decoder, part: RC.Outcome) {
    part.Got? && part.value == Decoded(chunk, dec)
  }

  ghost predicate LandedAt(out: seq<Sector>, got: seq<Sector>, reqs: seq<BlockRead>, parts: seq<RC.Outcome>, i: int) {
    && 0 <= i < |got| == |out| && |parts| == |reqs| && (NoFill(reqs, i) ==> got[i] == out[i])
    && (forall j :: 0 <= j < |reqs| && reqs[j].Fills(i) ==> Given(reqs[j], parts[j], got[i], i))
  }

  lemma {:induction false} LandedGives(out: seq<Sector>, got: seq<Sector>, dec: Decoder, reqs: seq<BlockRead>, chunks: seq<seq<int>>,
                                       parts: seq<RC.Outcome>, i: int)
    requires Landed(got, out, dec, reqs, chunks, i) && |parts| == |reqs| && forall j :: 0 <= j < |reqs| ==> Brought(chunks[j], dec, parts[j])
    ensures LandedAt(out, got, reqs, parts, i)
  {
    hide NoFill;
  }

  lemma {:induction false} AssembledOf(cfg: Config, x: System, acts: seq<Act>, name: string, out: seq<Sector>, reqs: seq<BlockRead>,
                                       parts: seq<RC.Outcome>, got: seq<Sector>)
    requires |got| == |out| && |parts| == |reqs| && forall k :: 0 <= k < |out| ==> LandedAt(out, got, reqs, parts, k)
    requires forall j :: 0 <= j < |reqs| ==> reqs[j].Aligned() && Answered(cfg, x, acts, WantOf(name, reqs[j]), parts[j])
    ensures Assembled(cfg, x, acts, name, out, reqs, parts, got)
  {
    hide NoFill, Answered, Given;
    forall i | 0 <= i < |out| && NoFill(reqs, i) ensures got[i] == out[i] {
      assert LandedAt(out, got, reqs, parts, i);
    }
    forall i, j | 0 <= i < |out| && 0 <= j < |reqs| && reqs[j].Fills(i) ensures Given(reqs[j], parts[j], got[i], i) {
      assert LandedAt(out, got, reqs, parts, i);
    }
  }

  lemma {:induction false} AssembledSize(cfg: Config, x: System, acts: seq<Act>, name: string, out: seq<Sector>, reqs: seq<BlockRead>,
                                         parts: seq<RC.Outcome>, got: seq<Sector>)
    requires Assembled(cfg, x, acts, name, out, reqs, parts, got)
    ensures |parts| == |reqs| && |got| == |out|
  {
  }

  lemma {:induction false} CoherentStore(cfg: Config, s: State)
    requires Coherent(cfg, s)
    ensures StoreOk(s.log, s.backend, s.inflight)
  {
    LoggedAccounted(cfg, s);
  }

  // ---- when everything is sound ----

  /** No chunk in the cache and no answer given so far came from a fetch that missed its object. */
  ghost predicate AllSound(c: RC.Cache) {
    && (forall i :: 0 <= i < |c.entries| && (c.entries[i].status == RC.Filling || c.entries[i].status == RC.Resident) ==> c.entries[i].sound)
    && (forall q :: q in c.got && c.got[q].Got? ==> c.got[q].sound)
  }

  /** Every fetch of the run finds its object. */
  ghost predicate FindsAll(acts: seq<Act>) {
    forall i :: 0 <= i < |acts| && acts[i].OnCache? && acts[i].ev.Fetched? ==> acts[i].ev.sound
  }

  lemma {:induction false} ActSound(cfg: Config, x: System, act: Act)
    requires CacheOk(x) && AllSound(x.c) && CanAct(cfg, x, act) && (act.OnCache? && act.ev.Fetched? ==> act.ev.sound)
    ensures AllSound(Acted(cfg, x, act).c)
  {
    hide Enabled, Do, Objects;
    if act.OnCache? {
      EventSound(Objects(x.s.log), x.c, act.ev);
    }
  }

  lemma {:induction false} EventSound(good: RC.Good, c: RC.Cache, ev: RC.Event)
    requires RC.Ok(good, c) && AllSound(c) && RC.Enabled(good, c, ev) && (ev.Fetched? ==> ev.sound)
    ensures AllSound(RC.Apply(good, c, ev))
  {
    hide RC.Ok, AllSound, RC.DoHitDone, RC.DoStored, RC.DoFetched, RC.DoRun;
    match ev
    case ReadHit(i, w) => PinnedSound(c, i, RC.DoHit(c, i, w));
    case ReadFilling(i) => PinnedSound(c, i, RC.Apply(good, c, ev));
    case ReadJoin(i, w) => PinnedSound(c, i, RC.DoJoin(c, i, w));
    case ReadMiss(swept, i, w) => SweptSound(c, swept); ClaimedSound(c.(entries := swept), i, RC.Apply(good, c, ev));
    case InsertObject(swept, i, k, data) => SweptSound(c, swept); ClaimedSound(c.(entries := swept), i, RC.Apply(good, c, ev));
    case Run(q) => RunSound(c, q);
    case HitDone(q) => HitDoneSound(good, c, q);
    case Fetched(q, data, _) => FetchedSound(c, q, data);
    case Written(q) => WrittenSound(good, c, q);
  }

  /** Entry `i` keeps its status and where its data came from; a read that is new has not been given anything. */
  lemma {:induction false} PinnedSound(c: RC.Cache, i: int, d: RC.Cache)
    requires AllSound(c) && 0 <= i < |c.entries| && |d.entries| == |c.entries| && d.entries == c.entries[i := d.entries[i]]
    requires d.entries[i].status == c.entries[i].status && d.entries[i].sound == c.entries[i].sound
    requires d.got == c.got || d.got == c.got[c.next := RC.Waiting]
    ensures AllSound(d)
  {
  }

  /** Entry `i` is claimed for a fetch, or filled with an object's own data. */
  lemma {:induction false} ClaimedSound(c: RC.Cache, i: int, d: RC.Cache)
    requires AllSound(c) && 0 <= i < |c.entries| && |d.entries| == |c.entries| && d.entries == c.entries[i := d.entries[i]]
    requires d.entries[i].status == RC.Fetching || d.entries[i].sound
    requires d.got == c.got[c.next := RC.Waiting]
    ensures AllSound(d)
  {
  }

  lemma {:induction false} RunSound(c: RC.Cache, q: int)
    requires AllSound(c) && q in c.reqs && c.reqs[q].Pending?
    ensures AllSound(RC.DoRun(c, q))
  {
  }

  lemma {:induction false} HitDoneSound(good: RC.Good, c: RC.Cache, q: int)
    requires RC.Ok(good, c) && AllSound(c) && RC.Enabled(good, c, RC.HitDone(q))
    ensures AllSound(RC.DoHitDone(c, q))
  {
    hide RC.Ok, AllSound, RC.Served;
    RC.RequestIs(good, c, q);
    assert c.entries[c.reqs[q].chunk].status == RC.Resident;
    hide RC.RequestOk, RC.Wanted;
    ResidentSound(c, c.reqs[q].chunk);
    ToldSound(c, c.reqs[q].chunk, q, RC.DoHitDone(c, q));
  }

  lemma {:induction false} ResidentSound(c: RC.Cache, i: int)
    requires AllSound(c) && 0 <= i < |c.entries| && c.entries[i].status == RC.Resident
    ensures c.entries[i].sound
  {
  }

  /** A read is given what a sound entry holds. */
  lemma {:induction false} ToldSound(c: RC.Cache, i: int, q: int, d: RC.Cache)
    requires AllSound(c) && 0 <= i < |c.entries| && |d.entries| == |c.entries| && d.entries == c.entries[i := d.entries[i]]
    requires d.entries[i].status == c.entries[i].status && d.entries[i].sound == c.entries[i].sound
    requires q in d.got && d.got == c.got[q := d.got[q]] && d.got[q].Got? && d.got[q].sound
    ensures AllSound(d)
  {
  }

  lemma {:induction false} WrittenSound(good: RC.Good, c: RC.Cache, q: int)
    requires RC.Ok(good, c) && AllSound(c) && RC.Enabled(good, c, RC.Written(q))
    ensures AllSound(RC.DoStored(c, q))
  {
    RC.RequestIs(good, c, q);
    hide RC.Ok;
  }

  lemma {:induction false} FetchedSound(c: RC.Cache, q: int, data: RC.Bytes)
    requires AllSound(c) && q in c.reqs && c.reqs[q].Miss? && 0 <= c.reqs[q].chunk < |c.entries|
    ensures AllSound(RC.DoFetched(c, q, data, true))
  {
    hide RC.Waits, RC.Cut;
  }

  lemma {:induction false} SweptSound(c: RC.Cache, swept: seq<RC.Entry>)
    requires AllSound(c) && RC.Swept(c.entries, swept)
    ensures AllSound(c.(entries := swept))
  {
    forall i | 0 <= i < |swept| && (swept[i].status == RC.Filling || swept[i].status == RC.Resident) ensures swept[i].sound {
      assert RC.Similar(c.entries[i], swept[i]);
    }
  }

  /** If no fetch of a run misses its object, every answer the cache gives is sound. */
  lemma {:induction false} ActsSound(cfg: Config, x: System, acts: seq<Act>, y: System)
    requires CacheOk(x) && |x.c.store| == |x.c.entries| && AllSound(x.c) && Acts(cfg, x, acts, y) && FindsAll(acts)
    ensures AllSound(y.c)
    decreases |acts|
  {
    hide CacheOk, CanAct, AllSound;
    if acts != [] {
      ActOk(cfg, x, acts[0]);
      ActSound(cfg, x, acts[0]);
      assert forall i :: 0 <= i < |acts| - 1 ==> acts[1..][i] == acts[i + 1];
      ActsSound(cfg, Acted(cfg, x, acts[0]), acts[1..], y);
    }
  }
}
