/** The read cache as an object that its requests change in place. */
module SharedCache {
  import opened Common
  import opened ReadCache

  class SharedReadCache {
    ghost const good: Good
    var entries: seq<Entry>
    var cmap: map<Key, int>
    var clock: int
    var store: seq<Bytes>
    var reqs: map<int, Request>
    var next: int
    ghost var wants: map<int, Want>
    ghost var notes: map<int, nat>
    ghost var got: map<int, Outcome>

    ghost function View(): Cache
      reads this
    {
      Cache(entries, cmap, store, reqs, next, wants, notes, got)
    }

    ghost predicate Valid()
      reads this
    {
      0 <= clock < |entries| && Ok(good, View())
    }

    constructor (size: nat, store: seq<Bytes>, ghost good: Good)
      requires 0 < size == |store|
      ensures Valid() && View() == Start(size, store) && this.good == good
    {
      this.good := good;
      entries, cmap, clock := seq(size, _ => FRESH), map[], 0;
      this.store := store;
      reqs, next := map[], 0;
      wants, notes, got := map[], map[], map[];
      new;
      StartOk(good, size, store);
    }

    /** One step of the hand, past a chunk that is not free. */
    method Advance(ghost start: seq<Entry>, ghost c: int, ghost steps: nat)
      requires 0 <= c < |start| == |entries| && steps + 1 < 2 * |start| && 0 <= clock == Hand(c, steps, |start|) < |entries|
      requires Passed(start, entries, c, steps) && NoneYet(start, c, steps) && !Free(entries[clock])
      modifies this`entries, this`clock
      ensures |entries| == |start| && 0 <= clock == Hand(c, steps + 1, |start|) < |entries|
      ensures Passed(start, entries, c, steps + 1) && NoneYet(start, c, steps + 1)
    {
      hide Hand, Passed, NoneYet, Free;
      HandNext(c, steps, |start|);
      HandIs(c, steps + 1, |start|);
      PassedNext(start, entries, c, steps);
      if entries[clock].refcount == 0 {
        entries := entries[clock := entries[clock].(accessed := false)];
      }
      clock := (clock + 1) % |entries|;
    }

    /** The hand moves on past entries in use and entries lately used, clearing the accessed bit of the latter. */
    method Search() returns (steps: nat)
      requires 0 <= clock < |entries| && exists w :: 0 <= w < |entries| && Evictable(entries[w])
      modifies this`entries, this`clock
      ensures Swept(old(entries), entries) && 0 <= clock < |entries| && steps < 2 * |entries|
      ensures Free(entries[clock]) && SecondChance(old(entries), entries, old(clock), clock, steps)
    {
      hide Swept, Hand, Reach, Passed, NoneYet, SecondChance, Free, Evictable;
      ghost var w :| 0 <= w < |entries| && Evictable(entries[w]);
      ghost var c, size, start := clock, |entries|, entries;
      ghost var last := Reach(c, w, size) + size;
      HandReaches(c, w, size);
      PassedNone(start, c);
      steps := 0;
      while !Free(entries[clock])
        invariant |entries| == size && 0 <= clock == Hand(c, steps, size) < size && steps <= last < 2 * size
        invariant Passed(start, entries, c, steps) && NoneYet(start, c, steps)
        decreases last - steps
      {
        HandStops(start, entries, c, w, steps);
        Advance(start, c, steps);
        steps := steps + 1;
      }
      SecondChanceNow(start, entries, c, steps);
      PassedSwept(start, entries, c, steps);
    }

    /** A free chunk: the first the hand finds. Pinned chunks are passed over and keep everything they have. */
    method AllocateChunk() returns (i: int, steps: nat)
      requires Valid() && exists w :: 0 <= w < |entries| && Evictable(entries[w])
      modifies this`entries, this`clock, this`cmap
      ensures Swept(old(entries), entries) && 0 <= clock < |entries| && steps < 2 * |entries|
      ensures 0 <= i < |entries| && Free(entries[i]) && entries[i].buffer == None && entries[i].pending == []
      ensures SecondChance(old(entries), entries, old(clock), i, steps) && clock == (i + 1) % |entries|
      ensures cmap == old(cmap) - {entries[i].key}
    {
      hide Ok, Swept, SecondChance;
      ghost var c := View();
      steps := Search();
      i := clock;
      SweptAt(c.entries, entries, i);
      EntryAt(good, c, i);
      UnusedEntry(good, c.entries[i], c.store[i], c.reqs, i);
      cmap := cmap - {entries[i].key};
      clock := (clock + 1) % |entries|;
    }

    method AddRequest(r: Request, ghost w: Want) returns (id: int)
      modifies this`reqs, this`next, this`wants, this`notes, this`got
      ensures id == old(next) && View() == AddRead(old(View()), r, w)
    {
      id := next;
      reqs, next := reqs[id := r], next + 1;
      wants, notes, got := wants[id := w], notes[id := 0], got[id := Waiting];
    }

    /** A read of part of a chunk: served at once from a buffer, or by a request. */
    method MakeReadRequest(w: Want) returns (id: Option<int>, data: Bytes, ghost ev: Event)
      requires Valid() && w.Fits() && w.key != NO_KEY && (w.key !in cmap ==> exists i :: 0 <= i < |entries| && Evictable(entries[i]))
      modifies this
      ensures Valid() && Enabled(good, old(View()), ev) && View() == Apply(good, old(View()), ev)
      ensures id.None? ==> ev.ReadFilling? && 0 <= ev.i < |entries| && Served(good, w, Got(data, entries[ev.i].sound))
      ensures id.Some? ==> id.value in reqs && id.value in wants && wants[id.value] == w && !reqs[id.value].Insert?
      ensures w.key in old(cmap) ==> var i := old(cmap)[w.key]; 0 <= i < |entries| && entries[i].key == w.key && entries[i].accessed
    {
      hide Ok, Swept;
      ghost var c := View();
      if w.key in cmap {
        var i := cmap[w.key];
        MappedKey(good, c, w.key);
        var e := entries[i];
        match e.status
        case Resident =>
          entries := entries[i := e.(refcount := e.refcount + 1, accessed := true)];
          var n := AddRequest(Hit(i, w), w);
          id, data, ev := Some(n), [], ReadHit(i, w);
        case Filling =>
          entries := entries[i := e.(accessed := true)];
          FillingData(good, c, i);
          HitServed(good, e, e.buffer.value, w);
          id, data, ev := None, e.buffer.value[w.adjust..w.adjust + w.len], ReadFilling(i);
        case Fetching =>
          entries := entries[i := e.(refcount := e.refcount + 1, accessed := true, pending := e.pending + [next])];
          var n := AddRequest(Pending(i, w, false, false), w);
          id, data, ev := Some(n), [], ReadJoin(i, w);
      } else {
        var n;
        n, ev := StartFetch(w);
        id, data := Some(n), [];
        return;
      }
      EventOk(good, c, ev);
    }

    /** Nobody has the chunk: one is evicted for it, and the fetch started. */
    method StartFetch(w: Want) returns (id: int, ghost ev: Event)
      requires Valid() && w.Fits() && w.key !in cmap && w.key != NO_KEY && exists i :: 0 <= i < |entries| && Evictable(entries[i])
      modifies this
      ensures Valid() && ev.ReadMiss? && Enabled(good, old(View()), ev) && View() == Apply(good, old(View()), ev)
      ensures id in reqs && id in wants && wants[id] == w && reqs[id].Miss?
    {
      hide Ok, Swept, SecondChance;
      ghost var c := View();
      var i, _ := AllocateChunk();
      SweptAt(c.entries, entries, i);
      ev := ReadMiss(entries, i, w);
      var e := entries[i];
      entries := entries[i := e.(status := Fetching, refcount := e.refcount + 1, buffer := Some([]), key := w.key)];
      cmap := cmap[w.key := i];
      id := AddRequest(Miss(i, w, false), w);
      EventOk(good, c, ev);
    }

    /** A chunk of a new object goes into the cache. A key that is in the map already stays where it is, so the map leads to
        every chunk exactly when the key was not there or its chunk is the one evicted. */
    method InsertChunk(k: Key, data: Bytes) returns (i: int, ghost ev: Event)
      requires Valid() && k != NO_KEY && |data| == CHUNK && good(k, data) && exists i :: 0 <= i < |entries| && Evictable(entries[i])
      modifies this
      ensures 0 <= i < |entries| && entries[i].key == k && entries[i].buffer == Some(data) && !entries[i].accessed
      ensures Inverse(entries, cmap) <==> (k !in old(cmap) || old(cmap[k]) == i)
      ensures k !in old(cmap) ==> Valid() && Enabled(good, old(View()), ev) && View() == Apply(good, old(View()), ev)
    {
      hide Ok, Swept, Inverse, SecondChance;
      ghost var c := View();
      var steps;
      i, steps := AllocateChunk();
      SweptAt(c.entries, entries, i);
      ev := InsertObject(entries, i, k, data);
      InsertMap(good, c, entries, i, k, data);
      FillChunk(i, k, data);
      hide Entered;
      if k !in c.cmap {
        InsertedIs(good, c, ev, View());
      }
    }

    /** The chunk takes key and data, and its write to the store starts. */
    method FillChunk(i: int, k: Key, data: Bytes)
      requires 0 <= i < |entries|
      modifies this`entries, this`cmap, this`reqs, this`next, this`notes, this`got
      ensures entries == old(entries)[i := Filled(old(entries[i]), k, data)] && cmap == Entered(old(cmap), k, i)
      ensures reqs == old(reqs)[old(next) := Insert(i)] && next == old(next) + 1
      ensures notes == old(notes)[old(next) := 0] && got == old(got)[old(next) := Waiting]
    {
      entries := entries[i := Filled(entries[i], k, data)];
      if k !in cmap {
        cmap := cmap[k := i];
      }
      notes, got := notes[next := 0], got[next := Waiting];
      reqs, next := reqs[next := Insert(i)], next + 1;
    }

    /** A pending read is given its parent, and is over if its bytes are there. */
    method RunPending(q: int)
      requires Valid() && q in reqs && reqs[q].Pending? && !reqs[q].running
      modifies this
      ensures Valid() && View() == DoRun(old(View()), q)
    {
      hide Ok, RequestOk, Wanted, Served;
      ghost var c := View();
      RunOk(good, c, q);
      RequestIs(good, c, q);
      if reqs[q].done {
        reqs := reqs - {q};
        notes := notes[q := notes[q] + 1];
      } else {
        reqs := reqs[q := reqs[q].(running := true)];
      }
    }

    /** The read from the store is done: the parent is told, and the chunk unpinned. */
    method OnHitDone(q: int)
      requires Valid() && q in reqs && reqs[q].Hit?
      modifies this
      ensures Valid() && Enabled(good, old(View()), HitDone(q)) && View() == DoHitDone(old(View()), q)
    {
      hide Ok, RequestOk, Wanted, Users;
      ghost var c := View();
      HitDoneOk(good, c, q);
      RequestIs(good, c, q);
      var i, w := reqs[q].chunk, reqs[q].want;
      got, notes := got[q := Got(store[i][w.adjust..w.adjust + w.len], entries[i].sound)], notes[q := notes[q] + 1];
      entries := entries[i := entries[i].(refcount := entries[i].refcount - 1)];
      reqs := reqs - {q};
    }

    /** The write to the store is done: the chunk can be read from there. */
    method OnStoreDone(q: int)
      requires Valid() && q in reqs && (reqs[q].Insert? || (reqs[q].Miss? && reqs[q].fetched))
      modifies this
      ensures Valid() && Enabled(good, old(View()), Written(q)) && View() == DoStored(old(View()), q)
    {
      hide Ok, RequestOk, Wanted, Users;
      StoredOk(good, View(), q);
      var i := reqs[q].chunk;
      var e := entries[i];
      store := store[i := e.buffer.value];
      entries := entries[i := e.(status := Resident, buffer := None, refcount := e.refcount - 1)];
      reqs := reqs - {q};
    }

    /** One waiting read gets its bytes; if it has been run already, its parent is told. */
    method WakeOne(p: int, data: Bytes, ghost sound: bool)
      requires p in reqs && reqs[p].Pending? && 0 <= reqs[p].chunk < |entries| && p in notes && p in got
      modifies this`entries, this`reqs, this`notes, this`got
      ensures View() == Woken(old(View()), p, data, sound)
    {
      var i := reqs[p].chunk;
      got := got[p := Got(Cut(data, reqs[p].want), sound)];
      entries := entries[i := entries[i].(refcount := entries[i].refcount - 1)];
      if reqs[p].running {
        notes := notes[p := notes[p] + 1];
        reqs := reqs - {p};
      } else {
        reqs := reqs[p := reqs[p].(done := true)];
      }
    }

    /** The fetch has come back from the backend, with the chunk if its object was there, and with anything if not: waiting reads are woken in order, and the parent told. */
    method OnBackendDone(q: int, data: Bytes, sound: bool)
      requires Valid() && q in reqs && reqs[q].Miss? && !reqs[q].fetched && |data| == CHUNK
      requires 0 <= reqs[q].chunk < |entries| && (sound ==> good(entries[reqs[q].chunk].key, data))
      modifies this
      ensures Valid() && View() == DoFetched(old(View()), q, data, sound)
    {
      hide Ok, Wake, Woken, Waits, RequestOk, Users;
      ghost var c := View();
      FetchedOk(good, c, q, data, sound);
      WaitingFacts(good, c, q);
      var i := reqs[q].chunk;
      var list := entries[i].pending;
      entries := entries[i := entries[i].(status := Filling, buffer := Some(data), pending := [], sound := sound)];
      WakeNone(c, i, data, sound);
      assert list[..0] == [];
      for k := 0 to |list|
        invariant View() == Wake(c, i, list[..k], data, sound) && clock == old(clock)
      {
        assert list[..k + 1] == list[..k] + [list[k]] && list[k] !in list[..k];
        WakeMore(c, i, list[..k], list[k], data, sound);
        WakeOne(list[k], data, sound);
      }
      assert list[..|list|] == list;
      WakeOther(c, i, list, q, data, sound);
      reqs := reqs[q := reqs[q].(fetched := true)];
      got, notes := got[q := Got(Cut(data, reqs[q].want), sound)], notes[q := notes[q] + 1];
    }
  }
}
