/** A run on which the read cache keeps, and goes on serving, what no object ever held. */
module CacheLimits {
  import opened Common
  import opened Volume
  import opened Machine
  import opened Runs
  import opened ReadTheorem
  import opened ReadLimits
  import opened CachedReads
  import RC = ReadCache

  const KEY: RC.Key := RC.Key("v", 2, 0)
  const WANT: RC.Want := RC.Want(KEY, 8, 1)

  function Lifted(steps: seq<Step>): (acts: seq<Act>)
    ensures |acts| == |steps| && forall i :: 0 <= i < |steps| ==> acts[i] == OnVolume(steps[i])
  {
    if steps == [] then [] else [OnVolume(steps[0])] + Lifted(steps[1..])
  }

  /** A run of the volume alone. */
  lemma {:induction false} VolumeActs(cfg: Config, s: State, steps: seq<Step>, t: State, c: RC.Cache)
    requires Run(cfg, s, steps, t) && forall i :: 0 <= i < |steps| ==> !steps[i].Crash?
    ensures Acts(cfg, System(s, c), Lifted(steps), System(t, c))
    decreases |steps|
  {
    hide Enabled, Do;
    if steps != [] {
      assert Lifted(steps)[1..] == Lifted(steps[1..]);
      VolumeActs(cfg, Do(cfg, s, steps[0]), steps[1..], t, c);
    }
  }

  lemma {:induction false} ActsJoin(cfg: Config, x: System, p: seq<Act>, y: System, q: seq<Act>, z: System)
    requires Acts(cfg, x, p, y) && Acts(cfg, y, q, z)
    ensures Acts(cfg, x, p + q, z)
    decreases |p|
  {
    hide CanAct, Acted;
    if p == [] {
      assert p + q == q;
    } else {
      ActsJoin(cfg, Acted(cfg, x, p[0]), p[1..], y, q, z);
      assert (p + q)[1..] == p[1..] + q;
    }
  }

  /** A read of the moved sector misses. */
  lemma {:induction false} Missed(cfg: Config, s: State, store: seq<RC.Bytes>) returns (c: RC.Cache)
    requires |store| == 1
    ensures Acts(cfg, System(s, RC.Start(1, store)), [OnCache(RC.ReadMiss([RC.FRESH], 0, WANT))], System(s, c))
    ensures |c.entries| == 1 == |c.store| && c.entries[0].status == RC.Fetching && c.entries[0].key == KEY && c.entries[0].pending == []
    ensures c.cmap == map[KEY := 0] && c.next == 1 && c.reqs == map[0 := RC.Miss(0, WANT, false)]
  {
    hide Objects;
    var c0, ev := RC.Start(1, store), RC.ReadMiss([RC.FRESH], 0, WANT);
    assert c0.entries == [RC.FRESH];
    assert RC.Swept(c0.entries, [RC.FRESH]);
    assert CanAct(cfg, System(s, c0), OnCache(ev));
    c := RC.DoMiss(c0, 0, WANT);
    assert c.reqs == map[0 := RC.Miss(0, WANT, false)] && c.cmap == map[KEY := 0];
    assert [OnCache(ev)][1..] == [];
  }

  /** Its fetch finds no object, and what is in the buffer goes into the chunk. */
  lemma {:induction false} FoundNothing(cfg: Config, s: State, c: RC.Cache) returns (d: RC.Cache)
    requires Moved(s)
    requires |c.entries| == 1 == |c.store| && c.entries[0].status == RC.Fetching && c.entries[0].key == KEY && c.entries[0].pending == []
    requires c.cmap == map[KEY := 0] && c.next == 1 && c.reqs == map[0 := RC.Miss(0, WANT, false)]
    ensures Acts(cfg, System(s, c), [OnCache(RC.Fetched(0, Filled(9, RC.CHUNK), false))], System(s, d))
    ensures |d.entries| == 1 == |d.store| && d.entries[0].status == RC.Filling && d.entries[0].key == KEY && d.cmap == map[KEY := 0]
    ensures d.entries[0].buffer == Some(Filled(9, RC.CHUNK)) && !d.entries[0].sound
    ensures d.next == 1 && d.reqs == map[0 := RC.Miss(0, WANT, true)]
  {
    hide Objects, Filled, RC.Cut, RC.DoFetched;
    var ev := RC.Fetched(0, Filled(9, RC.CHUNK), false);
    assert CanAct(cfg, System(s, c), OnCache(ev));
    d := RC.DoFetched(c, 0, Filled(9, RC.CHUNK), false);
    NobodyWaits(c, Filled(9, RC.CHUNK));
    assert [OnCache(ev)][1..] == [];
  }

  lemma {:induction false} NobodyWaits(c: RC.Cache, data: RC.Bytes)
    requires |c.entries| == 1 == |c.store| && c.entries[0].pending == [] && c.reqs == map[0 := RC.Miss(0, WANT, false)]
    ensures var d := RC.DoFetched(c, 0, data, false);
            && |d.entries| == 1 && d.store == c.store && d.entries[0].status == RC.Filling && d.entries[0].key == c.entries[0].key
            && d.entries[0].buffer == Some(data) && !d.entries[0].sound && d.cmap == c.cmap && d.next == c.next
            && d.reqs == map[0 := RC.Miss(0, WANT, true)]
  {
    hide RC.Cut;
    assert RC.DoFetched(c, 0, data, false).reqs == map[0 := RC.Miss(0, WANT, true)];
  }

  /** The chunk is kept all the same, and serves the next read. */
  lemma {:induction false} Kept(cfg: Config, s: State, c: RC.Cache) returns (d: RC.Cache)
    requires |c.entries| == 1 == |c.store| && c.entries[0].status == RC.Filling && c.entries[0].key == KEY && c.cmap == map[KEY := 0]
    requires c.entries[0].buffer == Some(Filled(9, RC.CHUNK)) && !c.entries[0].sound
    requires c.next == 1 && c.reqs == map[0 := RC.Miss(0, WANT, true)]
    ensures Acts(cfg, System(s, c), [OnCache(RC.Written(0))], System(s, d))
    ensures |d.entries| == 1 == |d.store| && d.entries[0].status == RC.Resident && d.cmap == map[KEY := 0] && d.store[0] == Filled(9, RC.CHUNK)
    ensures d.next == 1 && d.reqs == map[] && !d.entries[0].sound
  {
    hide Objects, Filled;
    d := RC.DoStored(c, 0);
    assert d.reqs == map[];
    assert [OnCache(RC.Written(0))][1..] == [];
    assert CanAct(cfg, System(s, c), OnCache(RC.Written(0)));
  }

  lemma {:induction false} ServedAgain(cfg: Config, s: State, c: RC.Cache) returns (d: RC.Cache)
    requires |c.entries| == 1 == |c.store| && c.entries[0].status == RC.Resident && c.cmap == map[KEY := 0] && c.store[0] == Filled(9, RC.CHUNK)
    requires c.next == 1 && c.reqs == map[] && !c.entries[0].sound
    ensures Acts(cfg, System(s, c), [OnCache(RC.ReadHit(0, WANT)), OnCache(RC.HitDone(1))], System(s, d))
    ensures 1 in d.wants && d.wants[1] == WANT && 1 !in d.reqs && 1 in d.got && d.got[1] == RC.Got([9], false)
  {
    hide Acts;
    var c1 := HitAgain(cfg, s, c);
    d := HitOver(cfg, s, c1);
    ActsJoin(cfg, System(s, c), [OnCache(RC.ReadHit(0, WANT))], System(s, c1), [OnCache(RC.HitDone(1))], System(s, d));
    assert [OnCache(RC.ReadHit(0, WANT))] + [OnCache(RC.HitDone(1))] == [OnCache(RC.ReadHit(0, WANT)), OnCache(RC.HitDone(1))];
  }

  lemma {:induction false} HitAgain(cfg: Config, s: State, c: RC.Cache) returns (d: RC.Cache)
    requires |c.entries| == 1 == |c.store| && c.entries[0].status == RC.Resident && c.cmap == map[KEY := 0] && c.next == 1 && c.reqs == map[]
    ensures Acts(cfg, System(s, c), [OnCache(RC.ReadHit(0, WANT))], System(s, d))
    ensures |d.entries| == 1 && d.store == c.store && d.entries[0].sound == c.entries[0].sound
    ensures d.reqs == map[1 := RC.Hit(0, WANT)] && 1 in d.wants && d.wants[1] == WANT
  {
    hide Objects;
    d := RC.DoHit(c, 0, WANT);
    assert CanAct(cfg, System(s, c), OnCache(RC.ReadHit(0, WANT)));
    assert d.reqs == map[1 := RC.Hit(0, WANT)];
    assert [OnCache(RC.ReadHit(0, WANT))][1..] == [];
  }

  lemma {:induction false} HitOver(cfg: Config, s: State, c: RC.Cache) returns (d: RC.Cache)
    requires |c.entries| == 1 == |c.store| && c.store[0] == Filled(9, RC.CHUNK) && !c.entries[0].sound
    requires c.reqs == map[1 := RC.Hit(0, WANT)] && 1 in c.wants && c.wants[1] == WANT
    ensures Acts(cfg, System(s, c), [OnCache(RC.HitDone(1))], System(s, d))
    ensures 1 in d.wants && d.wants[1] == WANT && 1 !in d.reqs && 1 in d.got && d.got[1] == RC.Got([9], false)
  {
    hide Objects;
    d := RC.DoHitDone(c, 1);
    assert Filled(9, RC.CHUNK)[8..9] == [9];
    hide Filled;
    assert CanAct(cfg, System(s, c), OnCache(RC.HitDone(1)));
    assert [OnCache(RC.HitDone(1))][1..] == [];
  }

  /** Once the moved object has arrived a read of the sector finds it; the cache has something else. */
  lemma {:induction false} Arrives(cfg: Config, s: State) returns (t: State)
    requires Moved(s)
    ensures Run(cfg, s, [Complete(2)], t) && t.history == BOTH && !OnlyInGcBuffer(t, 0) && ReadsNewest(t, 0)
  {
    hide Run, Drop;
    t := Do(cfg, s, Complete(2));
    RunOne(cfg, s, Complete(2));
    NewestIsTwo();
    assert Payload([TWO]) == [8] && Total([TWO]) == 1 by { assert [TWO][..0] == []; }
    hide DiskAfter;
  }

  /** A sector is read while only the collector has it: the fetch finds nothing, the chunk is kept, and after the object
      has arrived, with the volume in order, a read still gets what was in the buffer. */
  lemma {:induction false} StaleChunk(cfg: Config, a: int, b: int, store: seq<RC.Bytes>) returns (y: System, acts: seq<Act>)
    requires 50 <= cfg.pc && 2 <= cfg.max && Apart(cfg, a, b) && |store| == 1
    ensures Acts(cfg, System(Init(a), RC.Start(1, store)), acts, y) && Uncrashed(acts)
    ensures ReadsNewest(y.s, 0) && !OnlyInGcBuffer(y.s, 0) && ReadSector(DiskAfter(y.s.history), 0) == 8
    ensures 1 in y.c.wants && y.c.wants[1] == WANT && 1 !in y.c.reqs && 1 in y.c.got && y.c.got[1] == RC.Got([9], false)
  {
    hide Run, Acts, Moved, ReadsNewest, OnlyInGcBuffer, DiskAfter, Init, RC.Start, Filled, Lifted, CanAct;
    NewestIsTwo();
    var c0 := RC.Start(1, store);
    var s, steps := MovedUnreadable(cfg, a, b);
    VolumeActs(cfg, Init(a), steps, s, c0);
    var c1 := Missed(cfg, s, store);
    var c2 := FoundNothing(cfg, s, c1);
    var c3 := Kept(cfg, s, c2);
    var t := Arrives(cfg, s);
    VolumeActs(cfg, s, [Complete(2)], t, c3);
    var d := ServedAgain(cfg, t, c3);
    y := System(t, d);
    var miss, fetch := [OnCache(RC.ReadMiss([RC.FRESH], 0, WANT))], [OnCache(RC.Fetched(0, Filled(9, RC.CHUNK), false))];
    var keep, arrive, hit := [OnCache(RC.Written(0))], Lifted([Complete(2)]), [OnCache(RC.ReadHit(0, WANT)), OnCache(RC.HitDone(1))];
    ActsJoin(cfg, System(s, c3), arrive, System(t, c3), hit, y);
    ActsJoin(cfg, System(s, c2), keep, System(s, c3), arrive + hit, y);
    ActsJoin(cfg, System(s, c1), fetch, System(s, c2), keep + (arrive + hit), y);
    ActsJoin(cfg, System(s, c0), miss, System(s, c1), fetch + (keep + (arrive + hit)), y);
    acts := Lifted(steps) + (miss + (fetch + (keep + (arrive + hit))));
    ActsJoin(cfg, System(Init(a), c0), Lifted(steps), System(s, c0), miss + (fetch + (keep + (arrive + hit))), y);
  }
}
