/** What recovery reads from the bytes of an object is what the object says. */
module Encoding {
  import opened Common
  import opened Extents
  import opened Volume
  import opened Machine
  import opened Accounting
  import opened Codec
  import opened Objects
  import opened Checkpoints

  // ---- room for headers ----

  /** The bytes in front of the data of a batch of up to `bytes` bytes. */
  function BatchRoom(bytes: nat): nat {
    1024 + bytes / 2048 * 8
  }

  /** The sectors in front of the data of a collected object. */
  function GcRoom(bytes: nat): nat {
    (72 + bytes / 2048 * 8 + 511) / 512
  }

  /** The header of a batch of `n` writes fits in front of its data exactly when it fits in whole pages of that room. */
  lemma {:induction false} BatchHeaderFits(n: nat, bytes: nat)
    ensures 512 * HdrSectors(n) <= BatchRoom(bytes) <==> 72 + 8 * n <= (1024 + bytes / 2048 * 8) / 4096 * 4096
  {
    var pages, room := (72 + 8 * n + 4095) / 4096, BatchRoom(bytes) / 4096;
    assert 512 * HdrSectors(n) == 4096 * pages;
    assert 4096 * pages <= BatchRoom(bytes) <==> pages <= room;
    assert pages <= room <==> 72 + 8 * n <= 4096 * room;
  }

  lemma {:induction false} GcHeaderFits(n: nat, bytes: nat)
    ensures HdrSectors(n) <= GcRoom(bytes) <==> 72 + 8 * n <= (72 + bytes / 2048 * 8 + 511) / 512 / 8 * 4096
  {
    GcHeaderPages(n, bytes);
  }

  lemma {:induction false} GcHeaderPages(n: nat, bytes: nat)
    ensures HdrSectors(n) <= GcRoom(bytes) <==> 72 + 8 * n <= GcRoom(bytes) / 8 * 4096
  {
    var pages, room := (72 + 8 * n + 4095) / 4096, GcRoom(bytes) / 8;
    assert HdrSectors(n) == 8 * pages;
    assert 8 * pages <= GcRoom(bytes) <==> pages <= room;
    assert pages <= room <==> 72 + 8 * n <= 4096 * room;
  }

  /** Whole pages are always enough: writes of 4 KB and more, in batches of 2 MB and more. */
  lemma {:induction false} PagesAlwaysFit(ws: seq<Write>, bytes: nat)
    requires 0x20_0000 <= bytes && 512 * Total(ws) <= bytes && forall j :: 0 <= j < |ws| ==> 8 <= |ws[j].data|
    ensures 512 * HdrSectors(|ws|) <= BatchRoom(bytes)
  {
    PagesCount(ws);
    BatchHeaderFits(|ws|, bytes);
    assert 4096 * |ws| <= bytes;
    assert 8 * |ws| <= bytes / 512;
    assert bytes / 2048 * 8 >= bytes / 256 - 8;
  }

  lemma {:induction false} PagesCount(ws: seq<Write>)
    requires forall j :: 0 <= j < |ws| ==> 8 <= |ws[j].data|
    ensures 8 * |ws| <= Total(ws)
  {
    if ws != [] {
      PagesCount(ws[..|ws| - 1]);
    }
  }

  /** Whole pages in a collected object: the size bound limits their number, and the header fits if that many do. */
  lemma {:induction false} GcPagesFit(cfg: Config, ps: seq<Write>, bytes: nat)
    requires cfg.pc < 100 && cfg.max == bytes / 512 && Bounded(cfg, Total(ps)) && forall j :: 0 <= j < |ps| ==> 8 <= |ps[j].data|
    requires 72 + 100 * cfg.max / (100 - cfg.pc) <= GcRoom(bytes) / 8 * 4096
    ensures HdrSectors(|ps|) <= GcRoom(bytes)
  {
    PagesCount(ps);
    GcHeaderPages(|ps|, bytes);
    QuotientBound(Total(ps), 100 * cfg.max, 100 - cfg.pc);
    hide GcRoom, HdrSectors;
  }

  lemma {:induction false} QuotientBound(x: nat, y: nat, q: nat)
    requires 0 < q && x * q <= y
    ensures x <= y / q
  {
    if x > y / q {
      assert y == y / q * q + y % q;
      assert (y / q + 1) * q <= x * q by { Times(y / q + 1, x, q); }
    }
  }

  /** So with objects of 8 MB and a threshold below one half it always fits; at 60 percent the size bound alone allows more. */
  lemma {:induction false} GcPagesFitBelowHalf(cfg: Config, ps: seq<Write>)
    requires cfg.pc <= 49 && cfg.max == 16384 && Bounded(cfg, Total(ps)) && forall j :: 0 <= j < |ps| ==> 8 <= |ps[j].data|
    ensures HdrSectors(|ps|) <= GcRoom(0x80_0000)
  {
    Times(51, 100 - cfg.pc, Total(ps));
    assert Total(ps) * 51 <= 1638400;
    PagesCount(ps);
    GcHeaderPages(|ps|, 0x80_0000);
  }

  /** Single sectors do not fit: a full 8 MB batch of them needs four times the room. */
  lemma {:induction false} SectorsDoNotFit()
    ensures 512 * HdrSectors(16384) > BatchRoom(0x80_0000) && 512 * 16384 == 0x80_0000
  {
    BatchHeaderFits(16384, 0x80_0000);
  }

  // ---- data objects ----

  function MapsOf(ps: seq<Write>): (r: seq<DataMap>)
    ensures |r| == |ps| && forall i :: 0 <= i < |ps| ==> r[i] == DataMap(ps[i].lba, |ps[i].data|)
  {
    seq(|ps|, i requires 0 <= i < |ps| => DataMap(ps[i].lba, |ps[i].data|))
  }

  ghost function HdrOf(o: DataObj, n: Word, uuid: seq<Word>): DataHdr
    requires o.hdr < TWO32 && Total(o.pieces) < TWO32
  {
    DataHdr(uuid, n, o.hdr, Total(o.pieces), o.isGc, MapsOf(o.pieces))
  }

  /** Pieces at the same places, of the same lengths. */
  ghost predicate SameShape(ps: seq<Write>, qs: seq<Write>) {
    |ps| == |qs| && forall i :: 0 <= i < |ps| ==> ps[i].lba == qs[i].lba && |ps[i].data| == |qs[i].data|
  }

  lemma {:induction false} MapsShape(ps: seq<Write>, qs: seq<Write>)
    requires MapsOf(ps) == MapsOf(qs)
    ensures SameShape(ps, qs)
  {
    assert |ps| == |MapsOf(ps)| == |qs|;
    forall i | 0 <= i < |ps| ensures ps[i].lba == qs[i].lba && |ps[i].data| == |qs[i].data| {
      assert MapsOf(ps)[i] == MapsOf(qs)[i];
    }
  }

  /** Only the places and lengths of the pieces matter to the map. */
  lemma {:induction false} HeaderSuffices(m: map<int, Ptr>, n: int, off: int, ps: seq<Write>, qs: seq<Write>)
    requires SameShape(ps, qs)
    ensures ApplyPieces(m, n, off, ps) == ApplyPieces(m, n, off, qs) && Total(ps) == Total(qs)
  {
    hide ApplyPieces, Total, Override;
    if ps == [] {
      assert qs == ps;
    } else {
      var k := |ps| - 1;
      assert SameShape(ps[..k], qs[..k]) && ps[k].lba == qs[k].lba && |ps[k].data| == |qs[k].data|;
      PiecesLast(m, n, off, ps);
      PiecesLast(m, n, off, qs);
      HeaderSuffices(m, n, off, ps[..k], qs[..k]);
    }
  }

  lemma {:induction false} PiecesLast(m: map<int, Ptr>, n: int, off: int, ps: seq<Write>)
    requires ps != []
    ensures var k := |ps| - 1;
            && ApplyPieces(m, n, off, ps) == Override(ApplyPieces(m, n, off, ps[..k]), ps[k].lba, ps[k].Limit(), ObjPtr(n, off + Total(ps[..k])))
            && Total(ps) == Total(ps[..k]) + |ps[k].data|
  {
    hide Override;
  }

  /** Replaying an object from its bytes, whatever data it carries, does to the map and table what the object did. */
  lemma {:induction false} ReplayFromBytes(cfg: Config, m: map<int, Ptr>, o: DataObj, n: Word, uuid: seq<Word>, crc: Word, body: seq<Word>, qs: seq<Write>)
    requires ObjectOk(cfg, o) && |uuid| == 4 && 512 * o.hdr < TWO32 && Total(o.pieces) < TWO32
    requires forall i :: 0 <= i < |o.pieces| ==> MapFits(MapsOf(o.pieces)[i])
    ensures var h := HdrOf(o, n, uuid); DataHdrFits(h) && DecodeData(Some(DataWords(h, crc) + body)) == Read(h)
    ensures MapsOf(qs) == HdrOf(o, n, uuid).extents ==>
              ApplyPieces(m, n, o.hdr, qs) == ApplyPieces(m, n, o.hdr, o.pieces) && Total(qs) == HdrOf(o, n, uuid).data
  {
    hide DecodeData, DataWords, ApplyPieces, Total;
    var h := HdrOf(o, n, uuid);
    assert 72 + 8 * |o.pieces| <= 512 * HdrSectors(|o.pieces|);
    DataRoundTrip(h, crc, body);
    if MapsOf(qs) == h.extents {
      MapsShape(qs, o.pieces);
      HeaderSuffices(m, n, o.hdr, qs, o.pieces);
    }
  }

  // ---- checkpoints ----

  function EntryOfExtent(e: Extent): MapEntry
    requires e.ptr.ObjPtr?
  {
    MapEntry(e.base, e.len, e.ptr.obj, e.ptr.offset)
  }

  function ExtentOfEntry(e: MapEntry): Extent {
    Extent(e.lba, e.len, ObjPtr(e.obj, e.offset))
  }

  ghost predicate EntriesFor(es: seq<Extent>, k: Ckpt) {
    |k.entries| == |es| && forall i :: 0 <= i < |es| ==> es[i].ptr.ObjPtr? && k.entries[i] == EntryOfExtent(es[i])
  }

  function InfoOfRow(r: TableRow): Info {
    Info(r.hdr, r.data, r.live)
  }

  /** The rows list the object table, in any order. */
  ghost predicate RowsFor(info: map<int, Info>, rows: seq<TableRow>) {
    && (forall i :: 0 <= i < |rows| ==> rows[i].num in info && info[rows[i].num] == InfoOfRow(rows[i]))
    && (forall n :: n in info ==> Listed(rows, n))
  }

  ghost predicate Listed(rows: seq<TableRow>, n: int) {
    exists i :: 0 <= i < |rows| && rows[i].num == n
  }

  /** The table that is built from the rows, one after the other. */
  function TableOf(rows: seq<TableRow>): map<int, Info> {
    if rows == [] then map[] else TableOf(rows[..|rows| - 1])[rows[|rows| - 1].num := InfoOfRow(rows[|rows| - 1])]
  }

  lemma {:induction false} TableOfRows(info: map<int, Info>, rows: seq<TableRow>, n: int)
    requires forall i :: 0 <= i < |rows| ==> rows[i].num in info && info[rows[i].num] == InfoOfRow(rows[i])
    ensures n in TableOf(rows) <==> Listed(rows, n)
    ensures n in TableOf(rows) ==> n in info && TableOf(rows)[n] == info[n]
  {
    if rows != [] {
      var k := |rows| - 1;
      var front := rows[..k];
      assert forall i :: 0 <= i < k ==> front[i] == rows[i];
      TableOfRows(info, front, n);
      assert Listed(rows, n) <==> Listed(front, n) || rows[k].num == n;
    }
  }

  /** Loading a checkpoint from its bytes gives the very extents the map had, and the object table. */
  lemma {:induction false} CheckpointFromBytes(es: seq<Extent>, info: map<int, Info>, k: Ckpt, body: seq<Word>)
    requires CkptFits(k) && EntriesFor(es, k) && RowsFor(info, k.table)
    ensures var r := DecodeCkpt(Some(CkptWords(k) + body));
            && r == Read(k) && |r.value.entries| == |es| && TableOf(r.value.table) == info
            && forall i :: 0 <= i < |es| ==> ExtentOfEntry(r.value.entries[i]) == es[i]
  {
    hide DecodeCkpt, CkptWords, TableOf, Listed;
    CkptRoundTrip(k, body);
    var table := TableOf(k.table);
    forall n ensures (n in table <==> n in info) && (n in table ==> table[n] == info[n]) {
      TableOfRows(info, k.table, n);
      assert n in info ==> Listed(k.table, n);
    }
    assert table == info;
  }

  // ---- extent lengths ----

  /** No extent of the object map is longer than the object it points into, so 24 bits hold it if they hold the largest object. */
  lemma {:induction false} ExtentLength(cfg: Config, s: State, c: seq<Extent>, i: int)
    requires Accounted(cfg, s) && Sorted(c) && Model(c) == s.objmap && 0 <= i < |c| && cfg.pc < 100
    ensures c[i].ptr.ObjPtr? && 0 <= c[i].ptr.obj < |s.log| && s.log[c[i].ptr.obj].DataRec?
    ensures c[i].len <= Total(s.log[c[i].ptr.obj].obj.pieces) && c[i].len * (100 - cfg.pc) <= 100 * cfg.max
    ensures 100 * cfg.max < 0x80_0000 * (100 - cfg.pc) ==> c[i].len < 0x80_0000
  {
    hide Model, StoreOk, QueueOk, GcOk, Total;
    ModelAt(c, i, c[i].base);
    var n := c[i].ptr.obj;
    assert RecOk(cfg, s.log, n);
    var o := s.log[n].obj;
    ExtentWithin(c, i, n, o.hdr, Total(o.pieces));
    Times(c[i].len, Total(o.pieces), 100 - cfg.pc);
    if 100 * cfg.max < 0x80_0000 * (100 - cfg.pc) {
      Smaller24(c[i].len, 100 - cfg.pc);
    }
  }

  lemma {:induction false} Smaller24(x: int, q: int)
    requires 0 < q && x * q < 0x80_0000 * q
    ensures x < 0x80_0000
  {
    var d := x - 0x80_0000;
    assert d * q < 0;
  }
}
