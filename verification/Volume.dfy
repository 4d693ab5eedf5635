/** Objects, the log they form, and the disk contents a log stands for. */
module Volume {
  import opened Extents

  /** The contents of a sector. Nothing here looks inside one, so a number names it; 0 is all zeroes. */
  type Sector = int

  const ZERO: Sector := 0

  /** A run of sectors written at `lba`: a client write, or a piece of an object with its header entry. */
  datatype Write = Write(lba: int, data: seq<Sector>) {
    function Limit(): int {
      lba + |data|
    }

    predicate Covers(a: int) {
      lba <= a < Limit()
    }
  }

  type Disk = map<int, Sector>

  function Patch(w: Write): Disk {
    map a | w.lba <= a < w.Limit() && w.Covers(a) :: w.data[a - w.lba]
  }

  /** The disk after the writes, in order. */
  function ApplyWrites(d: Disk, ws: seq<Write>): Disk {
    if ws == [] then d else ApplyWrites(d, ws[..|ws| - 1]) + Patch(ws[|ws| - 1])
  }

  function DiskAfter(ws: seq<Write>): Disk {
    ApplyWrites(map[], ws)
  }

  /** A sector no write has reached reads as zeroes. */
  function ReadSector(d: Disk, a: int): Sector {
    if a in d then d[a] else ZERO
  }

  /** A sector holds what the last write to it put there. */
  lemma {:induction false} LastWriteWins(ws: seq<Write>, i: int, a: int)
    requires 0 <= i < |ws| && ws[i].lba <= a < ws[i].lba + |ws[i].data|
    requires forall j :: i < j < |ws| ==> !(ws[j].lba <= a < ws[j].lba + |ws[j].data|)
    ensures a in DiskAfter(ws) && ReadSector(DiskAfter(ws), a) == ws[i].data[a - ws[i].lba]
  {
    var k := |ws| - 1;
    assert ws[i].Covers(a);
    if i < k {
      LastWriteWins(ws[..k], i, a);
      assert !ws[k].Covers(a);
    }
  }

  /** And zeroes if there was none. */
  lemma {:induction false} NeverWritten(ws: seq<Write>, a: int)
    requires forall j :: 0 <= j < |ws| ==> !(ws[j].lba <= a < ws[j].lba + |ws[j].data|)
    ensures a !in DiskAfter(ws) && ReadSector(DiskAfter(ws), a) == 0
  {
    if ws != [] {
      var k := |ws| - 1;
      NeverWritten(ws[..k], a);
      assert !ws[k].Covers(a);
    }
  }

  lemma {:induction false} ApplyWritesConcat(d: Disk, x: seq<Write>, y: seq<Write>)
    ensures ApplyWrites(d, x + y) == ApplyWrites(ApplyWrites(d, x), y)
  {
    if y == [] {
      assert x + y == x;
    } else {
      var n := |y| - 1;
      assert (x + y)[..|x + y| - 1] == x + y[..n];
      ApplyWritesConcat(d, x, y[..n]);
    }
  }

  // ---- objects ----

  function Total(ps: seq<Write>): nat {
    if ps == [] then 0 else Total(ps[..|ps| - 1]) + |ps[|ps| - 1].data|
  }

  function Payload(ps: seq<Write>): (r: seq<Sector>)
    ensures |r| == Total(ps)
  {
    if ps == [] then [] else Payload(ps[..|ps| - 1]) + ps[|ps| - 1].data
  }

  /** A data object: header sectors, then the pieces one after the other. */
  datatype DataObj = DataObj(hdr: nat, pieces: seq<Write>, isGc: bool) {
    predicate Has(offset: int) {
      hdr <= offset < hdr + Total(pieces)
    }

    function At(offset: int): Sector
      requires Has(offset)
    {
      Payload(pieces)[offset - hdr]
    }
  }

  /** What the translation layer remembers of an object. */
  datatype Info = Info(hdr: int, data: int, live: int)

  datatype Rec = DataRec(obj: DataObj) | CkptRec(omap: map<int, Ptr>, info: map<int, Info>)

  /** The map after entering the pieces of object `n`, whose data starts at sector `off` of the object. */
  function ApplyPieces(m: map<int, Ptr>, n: int, off: int, ps: seq<Write>): map<int, Ptr> {
    if ps == [] then m else
      var k := |ps| - 1;
      Override(ApplyPieces(m, n, off, ps[..k]), ps[k].lba, ps[k].Limit(), ObjPtr(n, off + Total(ps[..k])))
  }

  /** The piece `j` of an object starts where the pieces before it end. */
  lemma {:induction false} PayloadAt(ps: seq<Write>, j: int, i: int)
    requires 0 <= j < |ps| && 0 <= i < |ps[j].data|
    ensures Total(ps[..j]) + i < Total(ps) && Payload(ps)[Total(ps[..j]) + i] == ps[j].data[i]
  {
    var k := |ps| - 1;
    if j < k {
      assert ps[..k][..j] == ps[..j];
      PayloadAt(ps[..k], j, i);
    }
  }

  ghost predicate ValidPtr(log: seq<Rec>, p: Ptr) {
    p.ObjPtr? && 0 <= p.obj < |log| && log[p.obj].DataRec? && log[p.obj].obj.Has(p.offset)
  }

  ghost function Fetch(log: seq<Rec>, p: Ptr): Sector
    requires ValidPtr(log, p)
  {
    log[p.obj].obj.At(p.offset)
  }

  ghost predicate Holds(log: seq<Rec>, p: Ptr, v: Sector) {
    ValidPtr(log, p) && Fetch(log, p) == v
  }

  /** Following the map into the objects of the log gives the disk. */
  ghost predicate Agree(log: seq<Rec>, m: map<int, Ptr>, d: Disk) {
    && m.Keys == d.Keys
    && (forall a :: a in m ==> ValidPtr(log, m[a]) && Fetch(log, m[a]) == d[a])
  }

  lemma {:induction false} AgreeMore(log: seq<Rec>, r: seq<Rec>, m: map<int, Ptr>, d: Disk)
    requires Agree(log, m, d)
    ensures Agree(log + r, m, d)
  {
  }

  lemma {:induction false} AgreeFewer(log: seq<Rec>, k: int, m: map<int, Ptr>, d: Disk)
    requires Agree(log, m, d) && 0 <= k <= |log|
    requires forall a :: a in m ==> m[a].ObjPtr? && m[a].obj < k
    ensures Agree(log[..k], m, d)
  {
  }

  /** Entering an object's pieces in the map does to the disk what writing the pieces does. */
  lemma {:induction false} AgreePieces(log: seq<Rec>, n: int, m: map<int, Ptr>, d: Disk, j: int)
    requires Agree(log, m, d) && 0 <= n < |log| && log[n].DataRec? && 0 <= j <= |log[n].obj.pieces|
    ensures var o := log[n].obj;
            Agree(log, ApplyPieces(m, n, o.hdr, o.pieces[..j]), ApplyWrites(d, o.pieces[..j]))
  {
    hide Agree, Override, Patch, Total, Payload;
    var o := log[n].obj;
    var ps := o.pieces[..j];
    if j == 0 {
      assert ps == [];
    } else {
      var k := j - 1;
      assert ps[..|ps| - 1] == o.pieces[..k] && ps[k] == o.pieces[k];
      AgreePieces(log, n, m, d, k);
      AgreePiece(log, n, ApplyPieces(m, n, o.hdr, o.pieces[..k]), ApplyWrites(d, o.pieces[..k]), k);
    }
  }

  lemma {:induction false} AgreePiece(log: seq<Rec>, n: int, m: map<int, Ptr>, d: Disk, j: int)
    requires Agree(log, m, d) && 0 <= n < |log| && log[n].DataRec? && 0 <= j < |log[n].obj.pieces|
    ensures var o := log[n].obj;
            var p := o.pieces[j];
            Agree(log, Override(m, p.lba, p.Limit(), ObjPtr(n, o.hdr + Total(o.pieces[..j]))), d + Patch(p))
  {
    hide Total, Payload, ValidPtr, Fetch;
    var o := log[n].obj;
    var p := o.pieces[j];
    var m', d' := Override(m, p.lba, p.Limit(), ObjPtr(n, o.hdr + Total(o.pieces[..j]))), d + Patch(p);
    assert forall a :: a in m' <==> a in m || p.Covers(a);
    assert forall a :: a in d' <==> a in d || p.Covers(a);
    assert m'.Keys == d'.Keys;
    forall a | a in m' ensures Holds(log, m'[a], d'[a]) {
      if p.Covers(a) {
        PieceHolds(log, n, j, a);
        assert m'[a] == ObjPtr(n, o.hdr + Total(o.pieces[..j]) + (a - p.lba)) && d'[a] == p.data[a - p.lba];
      }
    }
  }

  /** A sector of a piece is where the map puts it. */
  lemma {:induction false} PieceHolds(log: seq<Rec>, n: int, j: int, a: int)
    requires 0 <= n < |log| && log[n].DataRec? && 0 <= j < |log[n].obj.pieces| && log[n].obj.pieces[j].Covers(a)
    ensures var o := log[n].obj; var p := o.pieces[j];
            Holds(log, ObjPtr(n, o.hdr + Total(o.pieces[..j]) + (a - p.lba)), p.data[a - p.lba])
  {
    hide Total, Payload;
    PayloadAt(log[n].obj.pieces, j, a - log[n].obj.pieces[j].lba);
  }

  lemma {:induction false} PatchSame(d: Disk, w: Write)
    requires forall a :: w.Covers(a) ==> a in d && d[a] == w.data[a - w.lba]
    ensures d + Patch(w) == d
  {
    assert forall a :: a in Patch(w) <==> w.Covers(a);
    assert (d + Patch(w)).Keys == d.Keys;
  }

  /** Rewriting sectors with what they already hold changes nothing. */
  lemma {:induction false} SameContents(d: Disk, ps: seq<Write>)
    requires forall j, a :: 0 <= j < |ps| && ps[j].Covers(a) ==>
               a in d && d[a] == ps[j].data[a - ps[j].lba]
    ensures ApplyWrites(d, ps) == d
  {
    hide Patch;
    if ps != [] {
      var k := |ps| - 1;
      assert forall j :: 0 <= j < k ==> ps[..k][j] == ps[j];
      SameContents(d, ps[..k]);
      PatchSame(d, ps[k]);
    }
  }

  // ---- the log ----

  /** The map after the records numbered below `k`. */
  ghost function MapAt(log: seq<Rec>, k: int): map<int, Ptr>
    requires 0 <= k <= |log|
  {
    if k == 0 then map[]
    else match log[k - 1]
      case DataRec(o) => ApplyPieces(MapAt(log, k - 1), k - 1, o.hdr, o.pieces)
      case CkptRec(_, _) => MapAt(log, k - 1)
  }

  /** The client writes in the records numbered below `k`. */
  ghost function LogWrites(log: seq<Rec>, k: int): seq<Write>
    requires 0 <= k <= |log|
  {
    if k == 0 then []
    else LogWrites(log, k - 1) + RecWrites(log[k - 1])
  }

  function RecWrites(r: Rec): seq<Write> {
    if r.DataRec? && !r.obj.isGc then r.obj.pieces else []
  }

  lemma {:induction false} LogSame(log: seq<Rec>, log': seq<Rec>, k: int)
    requires 0 <= k <= |log| && k <= |log'| && log[..k] == log'[..k]
    ensures MapAt(log, k) == MapAt(log', k) && LogWrites(log, k) == LogWrites(log', k)
  {
    if k > 0 {
      assert log[k - 1] == log[..k][k - 1] == log'[..k][k - 1] == log'[k - 1];
      assert log[..k - 1] == log[..k][..k - 1] == log'[..k][..k - 1] == log'[..k - 1];
      LogSame(log, log', k - 1);
    }
  }

  lemma {:induction false} LogWritesPrefix(log: seq<Rec>, j: int, k: int)
    requires 0 <= j <= k <= |log|
    ensures LogWrites(log, j) <= LogWrites(log, k)
  {
    if j < k {
      LogWritesPrefix(log, j, k - 1);
    }
  }

  // ---- references and live counts ----

  ghost function Refs(m: map<int, Ptr>, n: int): set<int> {
    set a | a in m && m[a].ObjPtr? && m[a].obj == n
  }

  /** The number of sectors mapped to object `n`. */
  ghost function Count(m: map<int, Ptr>, n: int): nat {
    |Refs(m, n)|
  }

  ghost predicate Unreferenced(m: map<int, Ptr>, n: int) {
    forall a :: a in m && m[a].ObjPtr? ==> m[a].obj != n
  }

  lemma {:induction false} CountZero(m: map<int, Ptr>, n: int)
    ensures Count(m, n) == 0 <==> Unreferenced(m, n)
  {
    if Count(m, n) == 0 {
      assert Refs(m, n) == {};
      assert forall a :: a in m && m[a].ObjPtr? && m[a].obj == n ==> a in Refs(m, n);
    }
    if Unreferenced(m, n) {
      forall a | a in Refs(m, n) ensures false {
      }
      assert Refs(m, n) == {};
    }
  }

  /** Entering the pieces of one object only ever removes references to the others. */
  lemma {:induction false} PiecesKeepOthers(m: map<int, Ptr>, n: int, off: int, ps: seq<Write>, a: int)
    ensures var m' := ApplyPieces(m, n, off, ps);
            a in m' ==> (m'[a].ObjPtr? && m'[a].obj == n) || (a in m && m'[a] == m[a])
    ensures a in m ==> a in ApplyPieces(m, n, off, ps)
  {
    if ps != [] {
      PiecesKeepOthers(m, n, off, ps[..|ps| - 1], a);
    }
  }

  predicate Touches(ps: seq<Write>, a: int) {
    exists j :: 0 <= j < |ps| && ps[j].Covers(a)
  }

  /** Sectors outside every piece keep their mapping; sectors inside some piece go to the object. */
  lemma {:induction false} PiecesInside(m: map<int, Ptr>, n: int, off: int, ps: seq<Write>, a: int)
    ensures Touches(ps, a) ==>
              var m' := ApplyPieces(m, n, off, ps); a in m' && m'[a].ObjPtr? && m'[a].obj == n
    ensures !Touches(ps, a) ==>
              var m' := ApplyPieces(m, n, off, ps); (a in m' <==> a in m) && (a in m ==> m'[a] == m[a])
  {
    if ps != [] {
      var k := |ps| - 1;
      PiecesInside(m, n, off, ps[..k], a);
      TouchesLast(ps, a);
    }
  }

  lemma {:induction false} TouchesLast(ps: seq<Write>, a: int)
    requires ps != []
    ensures Touches(ps, a) <==> Touches(ps[..|ps| - 1], a) || ps[|ps| - 1].Covers(a)
  {
    assert forall j :: 0 <= j < |ps| - 1 ==> ps[..|ps| - 1][j] == ps[j];
  }

  /** A record only ever drops mappings into lower-numbered objects: what it keeps, it keeps as it was. */
  lemma {:induction false} OldRefsShrink(log: seq<Rec>, j: int, k: int, a: int)
    requires 0 <= j <= k <= |log|
    ensures var m := MapAt(log, k);
            a in m && m[a].ObjPtr? && m[a].obj < j ==> a in MapAt(log, j) && MapAt(log, j)[a] == m[a]
    ensures a in MapAt(log, j) ==> a in MapAt(log, k)
  {
    if j < k {
      OldRefsShrink(log, j, k - 1, a);
      if log[k - 1].DataRec? {
        var o := log[k - 1].obj;
        PiecesKeepOthers(MapAt(log, k - 1), k - 1, o.hdr, o.pieces, a);
      }
    }
  }
}
