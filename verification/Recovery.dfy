/** Opening an image: the newest checkpoint is loaded, the objects after it replayed, the tail deleted. */
module Recovery {
  import opened Extents
  import opened ExtentMap
  import opened Volume
  import opened Machine
  import opened Accounting
  import opened AccountingSteps
  import opened LiveCounts
  import opened Translate

  /** Entering the extents of a checkpoint one after the other. */
  method LoadExtents(omap: ExtMap, entries: seq<Extent>)
    requires omap.Valid() && omap.Contents() == [] && Sorted(entries)
    modifies omap
    ensures omap.Valid() && omap.View() == Model(entries) && Canonical(omap.Contents())
    ensures Canonical(entries) ==> omap.Contents() == entries
  {
    hide Flat, Model, Layout;
    NoExtents();
    assert entries[..0] == [];
    for i := 0 to |entries|
      invariant omap.Valid() && omap.View() == Model(entries[..i]) && Canonical(omap.Contents())
    {
      var e := entries[i];
      assert entries[..i + 1] == entries[..i] + [e];
      ModelConcat(entries[..i], [e]);
      ModelSingle(e);
      var _ := omap.Update(e.base, e.Limit(), e.ptr);
    }
    assert entries[..|entries|] == entries;
    if Canonical(entries) {
      CanonicalUnique(omap.Contents(), entries);
    }
  }

  lemma {:induction false} NoExtents()
    ensures Model([]) == map[]
  {
  }

  /** The state a crash leaves: the machine state whose backend and superblock these are. */
  ghost predicate Crashed(cfg: Config, s: State, stored: map<int, Stored>, checkpoints: seq<int>) {
    && Accounted(cfg, s) && s.backend == AsRecs(stored) && s.checkpoints == checkpoints
    && (forall n :: n in stored && stored[n].CkptOf? ==> Sorted(stored[n].entries))
  }

  lemma {:induction false} StoredRecs(stored: map<int, Stored>, n: int)
    ensures n in AsRecs(stored) <==> n in stored
    ensures n in stored ==> (AsRecs(stored)[n].DataRec? <==> stored[n].DataOf?) && (stored[n].DataOf? ==> AsRecs(stored)[n] == DataRec(stored[n].obj))
    ensures n in stored && stored[n].CkptOf? ==> AsRecs(stored)[n] == CkptRec(Model(stored[n].entries), stored[n].table)
  {
  }

  /** The check on the live counts in replay: as it is written, and as it is meant. */
  datatype Check = AsWritten | AsMeant

  class Image {
    const cfg: Config
    const objmap: ExtMap
    var info: map<int, Info>
    var checkpoints: seq<int>
    var stored: map<int, Stored>

    constructor (cfg: Config, load: int, checkpoints: seq<int>, stored: map<int, Stored>)
      requires 2 <= load
      ensures this.cfg == cfg && this.checkpoints == checkpoints && this.stored == stored && info == map[]
      ensures fresh(objmap) && objmap.Valid() && objmap.Contents() == []
    {
      this.cfg := cfg;
      objmap := new ExtMap(load);
      info := map[];
      this.checkpoints := checkpoints;
      this.stored := stored;
    }

    /** The checkpoint's table and map, exactly as they were written. */
    method ReadFromCheckpoint(c: int)
      requires objmap.Valid() && objmap.Contents() == [] && c in stored && stored[c].CkptOf? && Sorted(stored[c].entries)
      modifies this`info, objmap
      ensures objmap.Valid() && objmap.View() == Model(stored[c].entries) && info == stored[c].table
      ensures Canonical(stored[c].entries) ==> objmap.Contents() == stored[c].entries
    {
      info := stored[c].table;
      LoadExtents(objmap, stored[c].entries);
    }

    /** Object `n` is replayed if it is there and is a data object. The check as it is written throws exactly when some
        sector of the object is mapped already or is in two of its pieces; as it is meant it never does. */
    method ApplyLog(n: int, check: Check) returns (ok: bool, thrown: bool)
      requires objmap.Valid() && n !in info && Unreferenced(objmap.View(), n)
      requires forall a :: a in objmap.View() ==> objmap.View()[a].ObjPtr? && objmap.View()[a].obj in info
      requires forall k :: k in info ==> info[k].live == Count(objmap.View(), k)
      requires n in stored && stored[n].DataOf? ==> forall j :: 0 <= j < |stored[n].obj.pieces| ==> 0 < |stored[n].obj.pieces[j].data|
      modifies this`info, objmap
      ensures objmap.Valid()
      ensures thrown <==> check.AsWritten? && n in stored && stored[n].DataOf? && Displaces(old(objmap.View()), stored[n].obj.pieces)
      ensures !thrown ==> (ok <==> n in stored && stored[n].DataOf?)
      ensures !thrown && !ok ==> objmap.View() == old(objmap.View()) && info == old(info)
      ensures !thrown && ok ==> objmap.View() == ApplyPieces(old(objmap.View()), n, stored[n].obj.hdr, stored[n].obj.pieces)
      ensures !thrown && ok ==> info == AddObject(old(info), old(objmap.View()), objmap.View(), n, stored[n].obj)
    {
      hide Flat, Model, Sorted, Canonical, ApplyPieces, Layout, Count, AddObject, Unreferenced, Total, Displaced, Displaces;
      if n !in stored || !stored[n].DataOf? {
        return false, false;
      }
      ghost var m := objmap.View();
      var o := stored[n].obj;
      var data := Total(o.pieces);
      ghost var was := info;
      info := info[n := Info(o.hdr, data, data)];
      var del := EnterPieces(objmap, n, o.hdr, o.pieces);
      EnteredCounts(was, del, m, objmap.View(), n, o);
      DeductedAfterEntry(was, del, m, objmap.View(), n, o);
      if check.AsWritten? {
        OustedKnown(del, m, o.pieces, n, info);
        ok, info := DeductOrFail(info, del);
        return ok, !ok;
      }
      info := Deduct(info, del);
      return true, false;
    }

    /** Replay up to the first gap, then delete what may lie past it. The result is the last object replayed. With the
        check as it is written this throws exactly when a sector is covered twice by the checkpoint and the objects after it. */
    method RollForward(ghost s: State, check: Check) returns (last: int, thrown: bool)
      requires Crashed(cfg, s, stored, checkpoints) && checkpoints != [] && objmap.Valid()
      requires LastCkpt(s) in stored && stored[LastCkpt(s)].CkptOf?
      requires objmap.View() == Model(stored[LastCkpt(s)].entries) && info == stored[LastCkpt(s)].table
      modifies this, objmap
      ensures HasCkpt(s) && checkpoints == old(checkpoints) && objmap.Valid() && (thrown <==> check.AsWritten? && OpenFails(s))
      ensures !thrown ==> last + 1 == RecoverPoint(s)
      ensures !thrown ==> objmap.View() == RecoveredMap(s) && info == RecoveredInfo(s) && AsRecs(stored) == Swept(cfg, s)
      ensures !thrown ==> FirstGap(checkpoints[|checkpoints| - 1], last, old(stored)) && stored == SweptAfter(old(stored), last, cfg.window)
    {
      hide Flat, Model, Sorted, Layout, Accounted, AsRecs, ApplyPieces, AddObject, Exact, Unreferenced, Count, Displaces, OpenFails, TwiceAt;
      ghost var c := checkpoints[|checkpoints| - 1];
      ghost var m0, i0 := objmap.View(), info;
      StoredRecs(stored, c);
      var n := checkpoints[|checkpoints| - 1] + 1;
      ReplayNone(s.backend, m0, i0, n);
      while true
        invariant objmap.Valid() && c < n <= RecoverPoint(s) && stored == old(stored) && checkpoints == old(checkpoints)
        invariant objmap.View() == Replay(s.backend, m0, c + 1, n) && info == ReplayInfo(s.backend, m0, i0, c + 1, n)
        invariant check.AsWritten? ==> forall k, j, a :: c < k < n ==> !TwiceAt(s, k, j, a)
        invariant forall k :: c < k < n ==> k in stored && stored[k].DataOf?
        decreases RecoverPoint(s) - n
      {
        StoredRecs(stored, n);
        ReplayFacts(cfg, s, stored, n);
        FallsOn(s, n);
        var ok;
        ok, thrown := ApplyLog(n, check);
        if thrown {
          FailsAt(s, n);
          return 0, true;
        }
        if !ok {
          break;
        }
        ReplayOne(s.backend, m0, i0, c + 1, n);
        n := n + 1;
      }
      NeverFails(s, check);
      last, thrown := n - 1, false;
      stored := SweepTail(stored, last, cfg.window);
      SweptTail(cfg, s, old(stored));
    }

    /** The image as it is after a crash. */
    method Recover(ghost s: State, check: Check) returns (last: int, thrown: bool)
      requires Crashed(cfg, s, stored, checkpoints) && objmap.Valid() && objmap.Contents() == [] && info == map[]
      modifies this, objmap
      ensures checkpoints == old(checkpoints) && (checkpoints != [] ==> HasCkpt(s)) && objmap.Valid()
      ensures thrown <==> check.AsWritten? && checkpoints != [] && OpenFails(s)
      ensures !thrown ==> last + 1 == RecoverPoint(s)
      ensures !thrown ==> objmap.View() == RecoveredMap(s) && info == RecoveredInfo(s) && AsRecs(stored) == Swept(cfg, s)
      ensures !thrown ==> if checkpoints == [] then last == 0 && stored == old(stored) && objmap.View() == map[] && info == map[]
                          else FirstGap(checkpoints[|checkpoints| - 1], last, old(stored)) && stored == SweptAfter(old(stored), last, cfg.window)
    {
      hide Flat, Sorted, Layout, Accounted, AsRecs, OpenFails, FirstGap, SweptAfter;
      NoExtents();
      if checkpoints == [] {
        return 0, false;
      }
      var c := checkpoints[|checkpoints| - 1];
      CkptThere(cfg, s, stored);
      ReadFromCheckpoint(c);
      last, thrown := RollForward(s, check);
    }
  }

  lemma {:induction false} RestartIs(cfg: Config, s: State, addr: int)
    requires s.checkpoints != [] ==> HasCkpt(s)
    ensures Enabled(cfg, s, Crash) && Restart(cfg, s, addr) == Do(cfg, s, Crash).(current := Batch(addr, []))
  {
    hide DoCrash;
  }

  /** Opening an image: recovery, then a translation layer on what it found. There is none if recovery throws. */
  method Open(cfg: Config, load: int, addr: int, checkpoints: seq<int>, stored: map<int, Stored>, ghost s: State, check: Check)
    returns (t: TranslationLayer?)
    requires 2 <= load && Crashed(cfg, s, stored, checkpoints) && Increasing(s.checkpoints, |s.log|)
    ensures Enabled(cfg, s, Crash) && (checkpoints != [] ==> HasCkpt(s))
    ensures t == null <==> check.AsWritten? && checkpoints != [] && OpenFails(s)
    ensures t != null ==> fresh(t) && t.View() == Do(cfg, s, Crash).(current := Batch(addr, [])) && (t.Valid() <==> CleanTail(cfg, s))
  {
    hide Accounted, RecoveredMap, RecoveredInfo, RecoverPoint, Swept, CleanTail, HasCkpt, Flat, Layout, Sorted, AsRecs, OpenFails, Restart;
    var image := new Image(cfg, load, checkpoints, stored);
    var last, thrown := image.Recover(s, check);
    RestartIs(cfg, s, addr);
    if thrown {
      return null;
    }
    t := new TranslationLayer.Reopen(cfg, load, addr, image.objmap, image.info, last + 1, image.checkpoints, image.stored, s);
  }

  lemma {:induction false} CkptThere(cfg: Config, s: State, stored: map<int, Stored>)
    requires Accounted(cfg, s) && s.backend == AsRecs(stored) && s.checkpoints != []
    ensures HasCkpt(s) && LastCkpt(s) in stored && stored[LastCkpt(s)].CkptOf?
  {
    hide LogOk, Exact, StoreOk, QueueOk, GcOk;
    StoredRecs(stored, LastCkpt(s));
  }

  lemma {:induction false} ReplayNone(b: map<int, Rec>, m: map<int, Ptr>, info: map<int, Info>, n: int)
    ensures Replay(b, m, n, n) == m && ReplayInfo(b, m, info, n, n) == info
  {
  }

  lemma {:induction false} ReplayOne(b: map<int, Rec>, m: map<int, Ptr>, info: map<int, Info>, from: int, n: int)
    requires from <= n && forall k :: from <= k <= n ==> k in b && b[k].DataRec?
    ensures Replay(b, m, from, n + 1) == ApplyPieces(Replay(b, m, from, n), n, b[n].obj.hdr, b[n].obj.pieces)
    ensures ReplayInfo(b, m, info, from, n + 1) == AddObject(ReplayInfo(b, m, info, from, n), Replay(b, m, from, n), Replay(b, m, from, n + 1), n, b[n].obj)
  {
    hide ApplyPieces, AddObject;
  }

  lemma {:induction false} ExactFacts(log: seq<Rec>, n: int, m: map<int, Ptr>, info: map<int, Info>)
    requires Exact(log, n, m, info)
    ensures n !in info && Unreferenced(m, n) && forall k :: k in info ==> info[k].live == Count(m, k)
    ensures forall a :: a in m ==> m[a].ObjPtr? && m[a].obj in info
  {
  }

  lemma {:induction false} ObjectFacts(cfg: Config, s: State, stored: map<int, Stored>, n: int)
    requires Accounted(cfg, s) && s.backend == AsRecs(stored) && n in stored && stored[n].DataOf?
    ensures forall j :: 0 <= j < |stored[n].obj.pieces| ==> 0 < |stored[n].obj.pieces[j].data|
  {
    hide GcOk, QueueOk, Exact;
    StoredRecs(stored, n);
    assert s.backend[n] == s.log[n] && RecOk(cfg, s.log, n);
  }

  lemma {:induction false} CkptExact(cfg: Config, s: State)
    requires Accounted(cfg, s) && s.checkpoints != [] && HasCkpt(s)
    ensures var c := LastCkpt(s); 0 <= c < |s.log| && Exact(s.log[..c + 1], c + 1, s.backend[c].omap, s.backend[c].info)
    ensures forall n :: n in s.backend ==> 0 < n < |s.log| && s.backend[n] == s.log[n]
  {
    hide GcOk, QueueOk, Exact;
    var c := LastCkpt(s);
    var r := s.log[c];
    assert s.backend[c] == r && RecOk(cfg, s.log, c);
    ExactPrefix(s.log, c, c + 1, r.omap, r.info);
  }

  /** The map and table on the way are exact, so the next object is new to both. */
  lemma {:induction false} ReplayFacts(cfg: Config, s: State, stored: map<int, Stored>, n: int)
    requires Accounted(cfg, s) && s.backend == AsRecs(stored) && s.checkpoints != [] && HasCkpt(s)
    requires LastCkpt(s) < n <= RecoverPoint(s)
    ensures var c := LastCkpt(s); var r := s.backend[c]; var m, info := Replay(s.backend, r.omap, c + 1, n), ReplayInfo(s.backend, r.omap, r.info, c + 1, n);
            && n !in info && Unreferenced(m, n) && (forall k :: k in info ==> info[k].live == Count(m, k))
            && (forall a :: a in m ==> m[a].ObjPtr? && m[a].obj in info)
    ensures n in stored && stored[n].DataOf? ==> n < RecoverPoint(s) && forall j :: 0 <= j < |stored[n].obj.pieces| ==> 0 < |stored[n].obj.pieces[j].data|
    ensures forall k :: LastCkpt(s) < k < RecoverPoint(s) ==> k in s.backend && s.backend[k].DataRec?
  {
    StoredRecs(stored, n);
    hide AsRecs, Accounted, Exact, Unreferenced, Count, Replay, ReplayInfo;
    RecoverPointInLog(cfg, s);
    CkptExact(cfg, s);
    var c := LastCkpt(s);
    var r := s.backend[c];
    ReplayExact(s.log, s.backend, r.omap, r.info, c + 1, n);
    ExactFacts(s.log[..n], n, Replay(s.backend, r.omap, c + 1, n), ReplayInfo(s.backend, r.omap, r.info, c + 1, n));
    if n in stored && stored[n].DataOf? {
      ObjectFacts(cfg, s, stored, n);
    }
  }

  ghost function SweptAfter(stored: map<int, Stored>, last: int, window: nat): map<int, Stored> {
    map n | n in stored && !(last < n < last + 4 * window) :: stored[n]
  }

  /** All objects after `c` up to `last` are data objects, and the one after `last` is missing or none. */
  ghost predicate FirstGap(c: int, last: int, stored: map<int, Stored>) {
    && c <= last && (forall n :: c < n <= last ==> n in stored && stored[n].DataOf?)
    && !(last + 1 in stored && stored[last + 1].DataOf?)
  }

  /** The objects numbered last + 1 up to last + 4 * window - 1 are deleted. */
  method SweepTail(stored: map<int, Stored>, last: int, window: nat) returns (r: map<int, Stored>)
    ensures r == SweptAfter(stored, last, window)
  {
    r := stored;
    var i := 1;
    while i < 4 * window
      invariant 1 <= i && (i <= 4 * window || i == 1)
      invariant r == map n | n in stored && !(last < n < last + i) :: stored[n]
    {
      r := r - {last + i};
      i := i + 1;
    }
  }

  lemma {:induction false} SweptTail(cfg: Config, s: State, stored: map<int, Stored>)
    requires s.backend == AsRecs(stored) && s.checkpoints != []
    ensures AsRecs(SweptAfter(stored, RecoverPoint(s) - 1, cfg.window)) == Swept(cfg, s)
  {
    hide AsRec, Roll;
    var k := RecoverPoint(s) - 1;
    var l, r := AsRecs(SweptAfter(stored, k, cfg.window)), Swept(cfg, s);
    assert l.Keys == r.Keys;
    assert l == r;
  }

  // ---- the check on the live counts ----

  /** The check as it is written fails when a count is not negative: on the first extent an object displaces. */
  method DeductOrFail(info: map<int, Info>, del: seq<Extent>) returns (ok: bool, r: map<int, Info>)
    requires forall i :: 0 <= i < |del| ==> 0 <= del[i].len && del[i].ptr.ObjPtr? && del[i].ptr.obj in info
    requires forall n :: n in info ==> SumLen(del, n) <= info[n].live
    ensures ok <==> del == []
    ensures ok ==> r == Deducted(info, del)
  {
    r := info;
    NothingDeducted(info);
    for i := 0 to |del|
      invariant i == 0 && r == info
    {
      var n := del[i].ptr.obj;
      r := r[n := r[n].(live := r[n].live - del[i].len)];
      StillLive(del, i, n, info[n].live);
      if r[n].live >= 0 {
        return false, r;
      }
    }
    return true, r;
  }

  /** Every displaced extent lies in an object of the table. */
  lemma {:induction false} OustedKnown(del: seq<Extent>, m: map<int, Ptr>, ps: seq<Write>, n: int, info: map<int, Info>)
    requires Ousted(del, m, ps, n) && n in info && forall a :: a in m ==> m[a].ObjPtr? && m[a].obj in info
    ensures forall i :: 0 <= i < |del| ==> del[i].ptr.ObjPtr? && del[i].ptr.obj in info
  {
    forall i | 0 <= i < |del| ensures del[i].ptr.ObjPtr? && del[i].ptr.obj in info {
      if InMap(m, del[i].ptr) {
        var a :| a in m && m[a] == del[i].ptr;
      }
    }
  }

  function PiecesOf(backend: map<int, Rec>, n: int): seq<Write> {
    if n in backend && backend[n].DataRec? then backend[n].obj.pieces else []
  }

  /** Sector `a` is in piece `j` of object `n`, and the checkpoint, an object replayed before or an earlier piece has it too. */
  ghost predicate TwiceAt(s: State, n: int, j: int, a: int)
    requires HasCkpt(s)
  {
    var ps := PiecesOf(s.backend, n);
    && 0 <= j < |ps| && ps[j].Covers(a)
    && (a in s.backend[LastCkpt(s)].omap || TouchedBefore(s, n, a) || Touches(ps[..j], a))
  }

  ghost predicate TouchedBefore(s: State, n: int, a: int) {
    exists k :: LastCkpt(s) < k < n && Touches(PiecesOf(s.backend, k), a)
  }

  ghost predicate OpenFails(s: State)
    requires HasCkpt(s)
  {
    exists n, j, a :: LastCkpt(s) < n < RecoverPoint(s) && TwiceAt(s, n, j, a)
  }

  lemma {:induction false} ReplayKeys(s: State, n: int, a: int)
    requires HasCkpt(s) && LastCkpt(s) < n <= RecoverPoint(s)
    ensures var c := LastCkpt(s); a in Replay(s.backend, s.backend[c].omap, c + 1, n) <==> a in s.backend[c].omap || TouchedBefore(s, n, a)
    decreases n - LastCkpt(s)
  {
    hide ApplyPieces, Touches;
    var c := LastCkpt(s);
    if n > c + 1 {
      ReplayKeys(s, n - 1, a);
      var o := s.backend[n - 1].obj;
      PiecesInside(Replay(s.backend, s.backend[c].omap, c + 1, n - 1), n - 1, o.hdr, o.pieces, a);
      assert TouchedBefore(s, n, a) <==> TouchedBefore(s, n - 1, a) || Touches(PiecesOf(s.backend, n - 1), a);
    }
  }

  /** The object falls on what is mapped when its turn comes exactly when one of its sectors is covered twice. */
  lemma {:induction false} FallsOn(s: State, n: int)
    requires HasCkpt(s) && LastCkpt(s) < n <= RecoverPoint(s)
    ensures var c := LastCkpt(s);
            Displaces(Replay(s.backend, s.backend[c].omap, c + 1, n), PiecesOf(s.backend, n)) <==> exists j, a :: TwiceAt(s, n, j, a)
  {
    hide Touches, TouchedBefore, PiecesOf;
    var c := LastCkpt(s);
    var m, ps := Replay(s.backend, s.backend[c].omap, c + 1, n), PiecesOf(s.backend, n);
    hide Replay;
    forall j, a | 0 <= j < |ps| ensures Hits(m, ps, j, a) <==> TwiceAt(s, n, j, a) {
      ReplayKeys(s, n, a);
    }
    if Displaces(m, ps) {
      var j, a :| 0 <= j < |ps| && Hits(m, ps, j, a);
      assert TwiceAt(s, n, j, a);
    }
  }

  lemma {:induction false} FailsAt(s: State, n: int)
    requires HasCkpt(s) && LastCkpt(s) < n < RecoverPoint(s) && exists j, a :: TwiceAt(s, n, j, a)
    ensures OpenFails(s)
  {
    hide TwiceAt;
  }

  lemma {:induction false} NeverFails(s: State, check: Check)
    requires HasCkpt(s) && (check.AsWritten? ==> forall k, j, a :: LastCkpt(s) < k < RecoverPoint(s) ==> !TwiceAt(s, k, j, a))
    ensures check.AsWritten? ==> !OpenFails(s)
  {
    hide TwiceAt;
  }
}
