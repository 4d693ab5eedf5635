/** How objects are laid out: little-endian 32-bit words, with a header that lists what is in them. */
module Codec {

  const TWO32 := 0x1_0000_0000
  const MAGIC := 0x4456534c
  const SUPERBLOCK := 1
  const LOGDATA := 2
  const CHECKPOINT := 3

  type Byte = x: int | 0 <= x < 256
  type Word = x: int | 0 <= x < 0x1_0000_0000

  /** The outcome of reading an object: nothing usable there, or a failure that ends the program. */
  datatype Outcome<T> = Absent | Failed | Read(value: T)

  // ---- bytes and words ----

  function WordBytes(w: Word): (r: seq<Byte>)
    ensures |r| == 4
  {
    [w % 256, w / 256 % 256, w / 256 / 256 % 256, w / 256 / 256 / 256]
  }

  function BytesWord(b: seq<Byte>): Word
    requires |b| == 4
  {
    var x: int, y: int, z: int := b[1], b[2], b[3];
    b[0] + 256 * (x + 256 * (y + 256 * z))
  }

  lemma {:induction false} WordRoundTrip(w: Word)
    ensures BytesWord(WordBytes(w)) == w
  {
  }

  function ToBytes(ws: seq<Word>): (r: seq<Byte>)
    ensures |r| == 4 * |ws|
  {
    if ws == [] then [] else ToBytes(ws[..|ws| - 1]) + WordBytes(ws[|ws| - 1])
  }

  /** Word `i` of a buffer of bytes. */
  function WordAt(b: seq<Byte>, i: nat): Word
    requires 4 * i + 4 <= |b|
  {
    BytesWord(b[4 * i..4 * i + 4])
  }

  /** A buffer gives back every word that was put into it. */
  lemma {:induction false} BytesRoundTrip(ws: seq<Word>, i: nat)
    requires i < |ws|
    ensures WordAt(ToBytes(ws), i) == ws[i]
  {
    var k := |ws| - 1;
    if i < k {
      BytesRoundTrip(ws[..k], i);
      assert ToBytes(ws)[4 * i..4 * i + 4] == ToBytes(ws[..k])[4 * i..4 * i + 4];
    } else {
      WordRoundTrip(ws[k]);
      assert ToBytes(ws)[4 * k..4 * k + 4] == WordBytes(ws[k]);
    }
  }

  /** Least significant byte first. */
  lemma {:induction false} BytesLayout(ws: seq<Word>, i: nat)
    requires i < |ws|
    ensures var b := ToBytes(ws);
            && b[4 * i] == ws[i] % 0x100 && b[4 * i + 1] == ws[i] / 0x100 % 0x100
            && b[4 * i + 2] == ws[i] / 0x1_0000 % 0x100 && b[4 * i + 3] == ws[i] / 0x100_0000
  {
    var k := |ws| - 1;
    if i < k {
      BytesLayout(ws[..k], i);
    } else {
      assert ws[k] / 256 / 256 == ws[k] / 0x1_0000 && ws[k] / 256 / 256 / 256 == ws[k] / 0x100_0000;
    }
  }

  // ---- packed fields ----

  /** An extent in a data header: 36 bits of address and 28 of length, in sectors. */
  datatype DataMap = DataMap(lba: int, len: int)

  function PackMap(m: DataMap): (Word, Word) {
    var lba, len := m.lba % 0x10_0000_0000, m.len % 0x1000_0000;
    (lba % TWO32, lba / TWO32 + 16 * len)
  }

  function UnpackMap(lo: Word, hi: Word): DataMap {
    DataMap(lo + hi % 16 * TWO32, hi / 16)
  }

  /** Exactly the extents in range survive. */
  lemma {:induction false} MapRoundTrip(m: DataMap)
    ensures UnpackMap(PackMap(m).0, PackMap(m).1) == m <==> 0 <= m.lba < 0x10_0000_0000 && 0 <= m.len < 0x1000_0000
  {
    var lba, len := m.lba % 0x10_0000_0000, m.len % 0x1000_0000;
    var hi := PackMap(m).1;
    assert hi == lba / TWO32 + 16 * len && 0 <= lba / TWO32 < 16;
    assert hi % 16 == lba / TWO32 && hi / 16 == len;
    assert UnpackMap(PackMap(m).0, hi) == DataMap(lba, len);
  }

  /** The two words together are one number: the address in its low 36 bits, the length in the 28 above. */
  lemma {:induction false} MapLayout(m: DataMap)
    ensures PackMap(m).0 + 0x1_0000_0000 * PackMap(m).1 == m.lba % 0x10_0000_0000 + 0x10_0000_0000 * (m.len % 0x1000_0000)
  {
    var lba := m.lba % 0x10_0000_0000;
    assert lba == lba / TWO32 * TWO32 + lba % TWO32;
  }

  lemma {:induction false} MapFields(lo: Word, hi: Word)
    ensures var m := UnpackMap(lo, hi);
            MapFits(m) && m.lba + 0x10_0000_0000 * m.len == lo + 0x1_0000_0000 * hi
  {
    assert hi == hi / 16 * 16 + hi % 16;
  }

  /** An extent in a checkpoint: the same fields, but signed, and where it points. */
  datatype MapEntry = MapEntry(lba: int, len: int, obj: int, offset: int)

  function Signed(v: int, size: int): int {
    if 2 * v < size then v else v - size
  }

  function PackEntry(e: MapEntry): seq<Word> {
    var (lo, hi) := PackMap(DataMap(e.lba, e.len));
    [lo, hi, e.obj % TWO32, e.offset % TWO32]
  }

  function UnpackEntry(w: seq<Word>): MapEntry
    requires |w| == 4
  {
    var m := UnpackMap(w[0], w[1]);
    MapEntry(Signed(m.lba, 0x10_0000_0000), Signed(m.len, 0x1000_0000), Signed(w[2], TWO32), Signed(w[3], TWO32))
  }

  predicate SignedRange(v: int, half: int) {
    -half <= v < half
  }

  predicate EntryFits(e: MapEntry) {
    && SignedRange(e.lba, 0x8_0000_0000) && SignedRange(e.len, 0x800_0000)
    && SignedRange(e.obj, 0x8000_0000) && SignedRange(e.offset, 0x8000_0000)
  }

  lemma {:induction false} Signed36(v: int)
    ensures Signed(v % 0x10_0000_0000, 0x10_0000_0000) == v <==> SignedRange(v, 0x8_0000_0000)
  {
  }

  lemma {:induction false} Signed28(v: int)
    ensures Signed(v % 0x1000_0000, 0x1000_0000) == v <==> SignedRange(v, 0x800_0000)
  {
  }

  lemma {:induction false} Signed32(v: int)
    ensures Signed(v % TWO32, TWO32) == v <==> SignedRange(v, 0x8000_0000)
  {
  }

  /** A checkpoint keeps an entry exactly when all its fields are in signed range: half of what a data header keeps. */
  lemma {:induction false} EntryRoundTrip(e: MapEntry)
    ensures UnpackEntry(PackEntry(e)) == e <==> EntryFits(e)
  {
    var lba, len := e.lba % 0x10_0000_0000, e.len % 0x1000_0000;
    var p := PackMap(DataMap(e.lba, e.len));
    MapRoundTrip(DataMap(lba, len));
    assert PackMap(DataMap(lba, len)) == p;
    Signed36(e.lba);
    Signed28(e.len);
    Signed32(e.obj);
    Signed32(e.offset);
  }

  /** The fields of an entry are read back as signed numbers. */
  lemma {:induction false} EntryFields(w: seq<Word>)
    requires |w| == 4
    ensures var e := UnpackEntry(w);
            && EntryFits(e) && e.obj % 0x1_0000_0000 == w[2] && e.offset % 0x1_0000_0000 == w[3]
            && e.lba % 0x10_0000_0000 + 0x10_0000_0000 * (e.len % 0x1000_0000) == w[0] as int + 0x1_0000_0000 * w[1] as int
  {
    MapFields(w[0], w[1]);
    var m := UnpackMap(w[0], w[1]);
    hide UnpackMap;
    SignedBack(m.lba, 0x10_0000_0000);
    SignedBack(m.len, 0x1000_0000);
    SignedBack(w[2], 0x1_0000_0000);
    SignedBack(w[3], 0x1_0000_0000);
  }

  lemma {:induction false} SignedBack(v: int, size: int)
    requires 0 <= v < size && size % 2 == 0
    ensures SignedRange(Signed(v, size), size / 2) && Signed(v, size) % size == v
  {
    if 2 * v >= size {
      assert v - size == -1 * size + v;
      Wrapped(v, size);
    } else {
      Wrapped(v, size);
    }
  }

  lemma {:induction false} Wrapped(v: int, size: int)
    requires 0 <= v < size
    ensures v % size == v && (v - size) % size == v
  {
    var q, r := (v - size) / size, (v - size) % size;
    assert v - size == q * size + r;
    assert q >= 0 ==> q * size >= 0;
    assert q <= -2 ==> q * size <= -2 * size;
    var x := v / size;
    assert v == x * size + v % size;
    assert x >= 1 ==> x * size >= size;
    assert x <= -1 ==> x * size <= -size;
  }

  /** A row of the object table in a checkpoint. */
  datatype TableRow = TableRow(num: Word, hdr: Word, data: Word, live: Word)

  function RowWords(r: TableRow): seq<Word> {
    [r.num, r.hdr, r.data, r.live]
  }

  // ---- lists of fixed-size records ----

  function MapWords(ms: seq<DataMap>): (r: seq<Word>)
    ensures |r| == 2 * |ms|
  {
    if ms == [] then [] else var (lo, hi) := PackMap(ms[|ms| - 1]); MapWords(ms[..|ms| - 1]) + [lo, hi]
  }

  function EntryWords(es: seq<MapEntry>): (r: seq<Word>)
    ensures |r| == 4 * |es|
  {
    if es == [] then [] else EntryWords(es[..|es| - 1]) + PackEntry(es[|es| - 1])
  }

  function TableWords(rs: seq<TableRow>): (r: seq<Word>)
    ensures |r| == 4 * |rs|
  {
    if rs == [] then [] else TableWords(rs[..|rs| - 1]) + RowWords(rs[|rs| - 1])
  }

  /** Where the extents of a data header lie. */
  lemma {:induction false} MapsLayout(ms: seq<DataMap>, i: nat)
    requires i < |ms|
    ensures var w := MapWords(ms);
            w[2 * i] as int + 0x1_0000_0000 * w[2 * i + 1] as int == ms[i].lba % 0x10_0000_0000 + 0x10_0000_0000 * (ms[i].len % 0x1000_0000)
  {
    hide PackMap;
    var k := |ms| - 1;
    if i < k {
      MapsLayout(ms[..k], i);
    } else {
      MapLayout(ms[k]);
    }
  }

  /** Where the extents of a checkpoint lie, and in which words they say what they point to. */
  lemma {:induction false} EntriesLayout(es: seq<MapEntry>, i: nat)
    requires i < |es|
    ensures var w := EntryWords(es);
            && w[4 * i] as int + 0x1_0000_0000 * w[4 * i + 1] as int == es[i].lba % 0x10_0000_0000 + 0x10_0000_0000 * (es[i].len % 0x1000_0000)
            && w[4 * i + 2] == es[i].obj % 0x1_0000_0000 && w[4 * i + 3] == es[i].offset % 0x1_0000_0000
  {
    hide PackMap;
    var k := |es| - 1;
    if i < k {
      EntriesLayout(es[..k], i);
    } else {
      MapLayout(DataMap(es[k].lba, es[k].len));
    }
  }

  /** Where the rows of the object table lie: number, header, data and live sectors. */
  lemma {:induction false} TableLayout(rs: seq<TableRow>, i: nat)
    requires i < |rs|
    ensures var w := TableWords(rs);
            w[4 * i] == rs[i].num && w[4 * i + 1] == rs[i].hdr && w[4 * i + 2] == rs[i].data && w[4 * i + 3] == rs[i].live
  {
    var k := |rs| - 1;
    if i < k {
      TableLayout(rs[..k], i);
    }
  }

  /** The `n` extents at word `off` of a buffer. */
  function MapsAt(buf: seq<Word>, off: nat, n: nat): (r: seq<DataMap>)
    requires off + 2 * n <= |buf|
    ensures |r| == n
  {
    if n == 0 then [] else MapsAt(buf, off, n - 1) + [UnpackMap(buf[off + 2 * n - 2], buf[off + 2 * n - 1])]
  }

  function EntriesAt(buf: seq<Word>, off: nat, n: nat): (r: seq<MapEntry>)
    requires off + 4 * n <= |buf|
    ensures |r| == n
  {
    if n == 0 then [] else EntriesAt(buf, off, n - 1) + [UnpackEntry(buf[off + 4 * n - 4..off + 4 * n])]
  }

  function TableAt(buf: seq<Word>, off: nat, n: nat): (r: seq<TableRow>)
    requires off + 4 * n <= |buf|
    ensures |r| == n
  {
    if n == 0 then []
    else TableAt(buf, off, n - 1) + [TableRow(buf[off + 4 * n - 4], buf[off + 4 * n - 3], buf[off + 4 * n - 2], buf[off + 4 * n - 1])]
  }

  lemma {:induction false} MapsHold(buf: seq<Word>, off: nat, n: nat, i: nat)
    requires i < n && off + 2 * n <= |buf|
    ensures var m := MapsAt(buf, off, n)[i];
            MapFits(m) && m.lba + 0x10_0000_0000 * m.len == buf[off + 2 * i] as int + 0x1_0000_0000 * buf[off + 2 * i + 1] as int
  {
    hide UnpackMap;
    if i < n - 1 {
      MapsHold(buf, off, n - 1, i);
    } else {
      MapFields(buf[off + 2 * i], buf[off + 2 * i + 1]);
    }
  }

  lemma {:induction false} EntriesHold(buf: seq<Word>, off: nat, n: nat, i: nat)
    requires i < n && off + 4 * n <= |buf|
    ensures var e := EntriesAt(buf, off, n)[i];
            && EntryFits(e) && e.obj % 0x1_0000_0000 == buf[off + 4 * i + 2] && e.offset % 0x1_0000_0000 == buf[off + 4 * i + 3]
            && e.lba % 0x10_0000_0000 + 0x10_0000_0000 * (e.len % 0x1000_0000) == buf[off + 4 * i] as int + 0x1_0000_0000 * buf[off + 4 * i + 1] as int
  {
    hide UnpackEntry, EntryFits;
    if i < n - 1 {
      EntriesHold(buf, off, n - 1, i);
    } else {
      EntryFields(buf[off + 4 * i..off + 4 * i + 4]);
    }
  }

  lemma {:induction false} TableHolds(buf: seq<Word>, off: nat, n: nat, i: nat)
    requires i < n && off + 4 * n <= |buf|
    ensures var r := TableAt(buf, off, n)[i];
            && r.num == buf[off + 4 * i] && r.hdr == buf[off + 4 * i + 1] && r.data == buf[off + 4 * i + 2] && r.live == buf[off + 4 * i + 3]
  {
    if i < n - 1 {
      TableHolds(buf, off, n - 1, i);
    }
  }

  /** `part` lies in the buffer at word `off`. */
  ghost predicate Lies(buf: seq<Word>, off: nat, part: seq<Word>) {
    off + |part| <= |buf| && buf[off..off + |part|] == part
  }

  lemma {:induction false} LiesWord(buf: seq<Word>, off: nat, part: seq<Word>, i: nat)
    requires Lies(buf, off, part) && i < |part|
    ensures buf[off + i] == part[i]
  {
    assert buf[off..off + |part|][i] == buf[off + i];
  }

  lemma {:induction false} LiesPart(buf: seq<Word>, off: nat, x: seq<Word>, y: seq<Word>)
    requires Lies(buf, off, x + y)
    ensures Lies(buf, off, x) && Lies(buf, off + |x|, y)
  {
    var whole := buf[off..off + |x + y|];
    assert buf[off..off + |x|] == whole[..|x|];
    assert buf[off + |x|..off + |x| + |y|] == whole[|x|..];
  }

  predicate MapFits(m: DataMap) {
    0 <= m.lba < 0x10_0000_0000 && 0 <= m.len < 0x1000_0000
  }

  lemma {:induction false} MapsRoundTrip(buf: seq<Word>, off: nat, ms: seq<DataMap>)
    requires Lies(buf, off, MapWords(ms)) && forall i :: 0 <= i < |ms| ==> MapFits(ms[i])
    ensures MapsAt(buf, off, |ms|) == ms
  {
    if ms != [] {
      hide PackMap, UnpackMap;
      var k := |ms| - 1;
      var (lo, hi) := PackMap(ms[k]);
      LiesPart(buf, off, MapWords(ms[..k]), [lo, hi]);
      MapsRoundTrip(buf, off, ms[..k]);
      LiesWord(buf, off + 2 * k, [lo, hi], 0);
      LiesWord(buf, off + 2 * k, [lo, hi], 1);
      MapRoundTrip(ms[k]);
    }
  }

  lemma {:induction false} EntriesRoundTrip(buf: seq<Word>, off: nat, es: seq<MapEntry>)
    requires Lies(buf, off, EntryWords(es)) && forall i :: 0 <= i < |es| ==> EntryFits(es[i])
    ensures EntriesAt(buf, off, |es|) == es
  {
    if es != [] {
      hide PackEntry, UnpackEntry, EntryFits;
      var k := |es| - 1;
      LiesPart(buf, off, EntryWords(es[..k]), PackEntry(es[k]));
      EntriesRoundTrip(buf, off, es[..k]);
      EntryRoundTrip(es[k]);
    }
  }

  lemma {:induction false} TableRoundTrip(buf: seq<Word>, off: nat, rs: seq<TableRow>)
    requires Lies(buf, off, TableWords(rs))
    ensures TableAt(buf, off, |rs|) == rs
  {
    if rs != [] {
      var k := |rs| - 1;
      var row := RowWords(rs[k]);
      LiesPart(buf, off, TableWords(rs[..k]), row);
      TableRoundTrip(buf, off, rs[..k]);
      LiesWord(buf, off + 4 * k, row, 0);
      LiesWord(buf, off + 4 * k, row, 1);
      LiesWord(buf, off + 4 * k, row, 2);
      LiesWord(buf, off + 4 * k, row, 3);
    }
  }

  // ---- headers ----

  function Zeros(n: nat): (r: seq<Word>)
    ensures |r| == n
  {
    if n == 0 then [] else Zeros(n - 1) + [0]
  }

  /** The header every object starts with: 44 bytes. */
  function CommonWords(uuid: seq<Word>, kind: Word, num: Word, hdr: Word, data: Word, crc: Word): (r: seq<Word>)
    requires |uuid| == 4
    ensures |r| == 11 && r[0] == MAGIC && r[1] == 1 && r[6] == kind && r[7] == num && r[8] == hdr && r[9] == data && r[10] == crc
    ensures r[2..6] == uuid
  {
    [MAGIC, 1] + uuid + [kind, num, hdr, data, crc]
  }

  /** What a data object says of itself. */
  datatype DataHdr = DataHdr(uuid: seq<Word>, num: Word, hdr: Word, data: Word, isGc: bool, extents: seq<DataMap>)

  ghost predicate DataHdrFits(h: DataHdr) {
    && |h.uuid| == 4 && 72 + 8 * |h.extents| <= 512 * h.hdr < TWO32
    && forall i :: 0 <= i < |h.extents| ==> MapFits(h.extents[i])
  }

  /** A data header: 28 bytes after the common one, then the extents. */
  ghost function DataWords(h: DataHdr, crc: Word): (r: seq<Word>)
    requires DataHdrFits(h)
    ensures |r| == 128 * h.hdr
  {
    CommonWords(h.uuid, LOGDATA, h.num, h.hdr, h.data, crc)
    + [0, 0, 0, 0, 72, 8 * |h.extents|, if h.isGc then 1 else 0]
    + MapWords(h.extents) + Zeros(128 * h.hdr - 18 - 2 * |h.extents|)
  }
}
