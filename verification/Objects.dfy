/** Writing and reading the headers of data objects, checkpoints and the superblock. */
module Objects {
  import opened Common
  import opened Codec

  // ---- writing ----

  method Put(buf: array<Word>, off: nat, ws: seq<Word>)
    requires off + |ws| <= buf.Length
    modifies buf
    ensures buf[..] == old(buf[..off]) + ws + old(buf[off + |ws|..])
  {
    for i := 0 to |ws|
      invariant buf[..] == old(buf[..off]) + ws[..i] + old(buf[off + i..])
    {
      buf[off + i] := ws[i];
      assert ws[..i + 1] == ws[..i] + [ws[i]];
    }
    assert ws[..|ws|] == ws;
  }

  method ZeroFrom(buf: array<Word>, off: nat)
    requires off <= buf.Length
    modifies buf
    ensures buf[..] == old(buf[..off]) + Zeros(buf.Length - off)
  {
    for k := off to buf.Length
      invariant buf[..k] == old(buf[..off]) + Zeros(k - off)
    {
      buf[k] := 0;
      assert buf[..k + 1] == buf[..k] + [0];
    }
    assert buf[..] == buf[..buf.Length];
  }

  /** The fixed part of a data header. */
  function DataHead(h: DataHdr, crc: Word): (r: seq<Word>)
    requires |h.uuid| == 4 && 8 * |h.extents| < TWO32
    ensures |r| == 18
  {
    CommonWords(h.uuid, LOGDATA, h.num, h.hdr, h.data, crc) + [0, 0, 0, 0, 72, 8 * |h.extents|, if h.isGc then 1 else 0]
  }

  lemma {:induction false} HeadChecksum(h: DataHdr, crc: Word)
    requires |h.uuid| == 4 && 8 * |h.extents| < TWO32
    ensures DataHead(h, 0)[10 := crc] == DataHead(h, crc)
  {
  }

  lemma {:induction false} MapsMore(ms: seq<DataMap>, i: nat)
    requires i < |ms|
    ensures MapWords(ms[..i + 1]) == MapWords(ms[..i]) + [PackMap(ms[i]).0, PackMap(ms[i]).1]
  {
    assert ms[..i + 1][..i] == ms[..i];
  }

  /** The extents of a data header, one after the other. */
  method PutMaps(buf: array<Word>, off: nat, ms: seq<DataMap>)
    requires off + 2 * |ms| <= buf.Length
    modifies buf
    ensures buf[..off + 2 * |ms|] == old(buf[..off]) + MapWords(ms)
  {
    hide PackMap;
    var k := off;
    assert ms[..0] == [];
    for i := 0 to |ms|
      invariant k == off + 2 * i && buf[..k] == old(buf[..off]) + MapWords(ms[..i])
    {
      var (lo, hi) := PackMap(ms[i]);
      ghost var was := buf[..k];
      Put(buf, k, [lo, hi]);
      assert buf[..k + 2] == was + [lo, hi];
      MapsMore(ms, i);
      k := k + 2;
    }
    assert ms[..|ms|] == ms;
  }

  /** Everything but the checksum. */
  method PutHdr(buf: array<Word>, h: DataHdr)
    requires DataHdrFits(h) && buf.Length == 128 * h.hdr
    modifies buf
    ensures buf[..] == DataHead(h, 0) + (MapWords(h.extents) + Zeros(buf.Length - (18 + 2 * |h.extents|)))
  {
    hide MapWords, DataHead, Zeros;
    Put(buf, 0, DataHead(h, 0));
    assert buf[..18] == DataHead(h, 0);
    PutMaps(buf, 18, h.extents);
    var k := 18 + 2 * |h.extents|;
    assert buf[..k] == DataHead(h, 0) + MapWords(h.extents);
    ZeroFrom(buf, k);
  }

  /** The header of a data object, with a checksum over the rest of it. */
  method MakeObjHdr(buf: array<Word>, h: DataHdr, crc32: seq<Word> -> Word) returns (ghost crc: Word)
    requires DataHdrFits(h) && buf.Length == 128 * h.hdr
    modifies buf
    ensures buf[..] == DataWords(h, crc) && crc == crc32(DataWords(h, 0))
  {
    hide MapWords, DataHead, Zeros;
    ghost var k := 18 + 2 * |h.extents|;
    PutHdr(buf, h);
    DataWordsParts(h, 0);
    crc := crc32(buf[..]);
    buf[10] := crc32(buf[..]);
    HeadChecksum(h, crc);
    assert buf[..] == DataHead(h, 0)[10 := crc] + (MapWords(h.extents) + Zeros(buf.Length - k));
    DataWordsParts(h, crc);
  }

  lemma {:induction false} DataWordsParts(h: DataHdr, crc: Word)
    requires DataHdrFits(h)
    ensures DataWords(h, crc) == DataHead(h, crc) + (MapWords(h.extents) + Zeros(128 * h.hdr - 18 - 2 * |h.extents|))
  {
  }

  // ---- reading ----

  /** The header of an object: its first 4 KB, or all of the header when that is longer. */
  function FetchHeader(obj: Option<seq<Word>>): (r: Outcome<seq<Word>>)
    ensures r.Read? ==> |r.value| >= 1024
  {
    if obj.None? then Absent
    else if |obj.value| < 128 then Failed
    else
      var o := obj.value;
      var buf := if |o| < 1024 then o + Zeros(1024 - |o|) else o[..1024];
      if buf[0] != MAGIC || buf[1] != 1 then Absent
      else if buf[8] <= 8 then Read(buf)
      else
        var len := buf[8] * 512 % TWO32 / 4;
        if |o| < len then Absent else Read(if len < 1024 then buf else o[..len])
  }

  /** The words a list of `bytes` bytes at byte `off` takes; none if it does not lie in the buffer. */
  predicate ListIn(buf: seq<Word>, off: Word, bytes: Word) {
    off % 4 == 0 && off / 4 + DivUp4(bytes) <= |buf|
  }

  function DivUp4(n: nat): nat {
    (n + 3) / 4
  }

  /** A data header; an object of another type is none. */
  function DecodeData(obj: Option<seq<Word>>): Outcome<DataHdr> {
    match FetchHeader(obj)
    case Absent => Absent
    case Failed => Failed
    case Read(buf) =>
      if buf[6] != LOGDATA then Absent
      else if !ListIn(buf, buf[15], buf[16]) then Failed
      else Read(DataHdr(buf[2..6], buf[7], buf[8], buf[9], buf[17] != 0, MapsAt(buf, buf[15] / 4, buf[16] / 8)))
  }

  method ReadMaps(buf: seq<Word>, off: nat, n: nat) returns (r: seq<DataMap>)
    requires off + 2 * n <= |buf|
    ensures r == MapsAt(buf, off, n)
  {
    r := [];
    for i := 0 to n
      invariant r == MapsAt(buf, off, i)
    {
      r := r + [UnpackMap(buf[off + 2 * i], buf[off + 2 * i + 1])];
    }
  }

  /** What an object of at least a sector has to look like for a header of this kind to be found in it: magic, version and
      type are right, and a header of more than 8 sectors is all there. */
  ghost predicate HeaderIn(o: seq<Word>, kind: Word)
    requires 128 <= |o|
  {
    && o[0] == 0x4456534c && o[1] == 1 && o[6] == kind
    && (8 < o[8] ==> o[8] as int * 512 % 0x1_0000_0000 / 4 <= |o|)
  }

  /** The words that are looked at: 4 KB, or the header if that is longer; past the end of the object they are zero. */
  ghost function HeaderWords(o: seq<Word>): nat
    requires 128 <= |o|
  {
    var len := o[8] as int * 512 % 0x1_0000_0000 / 4;
    if 8 < o[8] && 1024 < len then len else 1024
  }

  ghost function WordIn(o: seq<Word>, i: nat): Word {
    if i < |o| then o[i] else 0
  }

  /** Words `i` and `i + 1` of the header say where a list is, in bytes: it starts on a word and ends in what is looked at. */
  ghost predicate ListAt(o: seq<Word>, i: nat)
    requires 128 <= |o| && i < 127
  {
    o[i] % 4 == 0 && o[i] as int / 4 + (o[i + 1] as int + 3) / 4 <= HeaderWords(o)
  }

  /** Where a data header says what. */
  ghost predicate DataFields(o: seq<Word>, h: DataHdr)
    requires 128 <= |o|
  {
    && h.uuid == o[2..6] && h.num == o[7] && h.hdr == o[8] && h.data == o[9] && (h.isGc <==> o[17] != 0)
    && |h.extents| == o[16] / 8
    && forall i :: 0 <= i < |h.extents| ==>
         && MapFits(h.extents[i])
         && h.extents[i].lba + 0x10_0000_0000 * h.extents[i].len ==
              WordIn(o, o[15] / 4 + 2 * i) as int + 0x1_0000_0000 * WordIn(o, o[15] / 4 + 2 * i + 1) as int
  }

  /** What is fetched of an object, word by word. */
  lemma {:induction false} Fetched(obj: Option<seq<Word>>)
    ensures obj.None? ==> FetchHeader(obj) == Absent
    ensures obj.Some? && |obj.value| < 128 ==> FetchHeader(obj) == Failed
    ensures obj.Some? && 128 <= |obj.value| ==>
              var o, r := obj.value, FetchHeader(obj);
              && !r.Failed? && (r.Read? <==> HeaderIn(o, o[6]))
              && (r.Read? ==> |r.value| == HeaderWords(o) && r.value[2..6] == o[2..6] && forall i :: 0 <= i < |r.value| ==> r.value[i] == WordIn(o, i))
  {
    if obj.Some? && 128 <= |obj.value| {
      var o, r := obj.value, FetchHeader(obj);
      if r.Read? {
        ZerosAt(if |o| < 1024 then 1024 - |o| else 0);
        hide Zeros;
        assert forall i :: 0 <= i < |r.value| ==> r.value[i] == WordIn(o, i);
        assert r.value[2..6] == o[2..6];
      }
    }
  }

  lemma {:induction false} ZerosAt(n: nat)
    ensures forall i :: 0 <= i < n ==> Zeros(n)[i] == 0
  {
    if n > 0 {
      ZerosAt(n - 1);
    }
  }

  /** What is read, for every object there can be. */
  lemma {:induction false} DataExact(obj: Option<seq<Word>>)
    ensures var r := DecodeData(obj);
            match obj
            case None => r == Absent
            case Some(o) =>
              if |o| < 128 then r == Failed
              else if !HeaderIn(o, 2) then r == Absent
              else if !ListAt(o, 15) then r == Failed
              else r.Read? && DataFields(o, r.value)
  {
    Fetched(obj);
    hide FetchHeader, MapsAt, HeaderWords;
    if obj.Some? && 128 <= |obj.value| && HeaderIn(obj.value, 2) && ListAt(obj.value, 15) {
      var o, buf := obj.value, FetchHeader(obj).value;
      assert buf[15] == o[15] && buf[16] == o[16];
      forall i | 0 <= i < o[16] / 8
        ensures var m := MapsAt(buf, o[15] / 4, o[16] / 8)[i];
                && MapFits(m)
                && m.lba + 0x10_0000_0000 * m.len ==
                     WordIn(o, o[15] / 4 + 2 * i) as int + 0x1_0000_0000 * WordIn(o, o[15] / 4 + 2 * i + 1) as int
      {
        MapsHold(buf, o[15] / 4, o[16] / 8, i);
      }
    }
  }

  method ReadDataHdr(obj: Option<seq<Word>>) returns (r: Outcome<DataHdr>)
    ensures r == DecodeData(obj)
    ensures match obj
            case None => r == Absent
            case Some(o) =>
              if |o| < 128 then r == Failed
              else if !HeaderIn(o, 2) then r == Absent
              else if !ListAt(o, 15) then r == Failed
              else r.Read? && DataFields(o, r.value)
  {
    hide UnpackMap, HeaderIn, ListAt, DataFields;
    DataExact(obj);
    var f := FetchHeader(obj);
    match f
    case Absent => return Absent;
    case Failed => return Failed;
    case Read(buf) =>
      if buf[6] != LOGDATA {
        return Absent;
      }
      if !ListIn(buf, buf[15], buf[16]) {
        return Failed;
      }
      var extents := ReadMaps(buf, buf[15] / 4, buf[16] / 8);
      return Read(DataHdr(buf[2..6], buf[7], buf[8], buf[9], buf[17] != 0, extents));
  }

  /** What is fetched of an object that starts with a header of `hdr` sectors. */
  lemma {:induction false} FetchedHeader(words: seq<Word>, body: seq<Word>, hdr: nat)
    requires 0 < hdr && 512 * hdr < TWO32 && |words| == 128 * hdr && words[0] == MAGIC && words[1] == 1 && words[8] == hdr
    ensures var r := FetchHeader(Some(words + body)); r.Read? && Lies(r.value, 0, words)
  {
    hide Zeros;
    var o := words + body;
    assert o[0] == words[0] && o[1] == words[1] && o[8] == words[8];
    if hdr <= 8 {
      var buf := if |o| < 1024 then o + Zeros(1024 - |o|) else o[..1024];
      assert buf[..|words|] == words;
    } else {
      assert hdr * 512 % TWO32 / 4 == 128 * hdr;
      assert o[..128 * hdr] == words;
    }
  }

  /** Reading back a data header gives exactly what was written, whatever follows it. */
  lemma {:induction false} DataRoundTrip(h: DataHdr, crc: Word, body: seq<Word>)
    requires DataHdrFits(h)
    ensures DecodeData(Some(DataWords(h, crc) + body)) == Read(h)
  {
    hide Zeros, MapWords, MapsAt;
    var words := DataWords(h, crc);
    DataWordsParts(h, crc);
    assert 0 < h.hdr;
    HeadWords(h, crc);
    assert forall i :: 0 <= i < 18 ==> words[i] == DataHead(h, crc)[i];
    FetchedHeader(words, body, h.hdr);
    var buf := FetchHeader(Some(words + body)).value;
    hide FetchHeader, DataWords;
    LiesPart(buf, 0, DataHead(h, crc), MapWords(h.extents) + Zeros(128 * h.hdr - 18 - 2 * |h.extents|));
    LiesPart(buf, 18, MapWords(h.extents), Zeros(128 * h.hdr - 18 - 2 * |h.extents|));
    assert buf[..18] == DataHead(h, crc);
    assert forall i :: 0 <= i < 18 ==> buf[i] == buf[..18][i];
    assert buf[2..6] == buf[..18][2..6];
    MapsRoundTrip(buf, 18, h.extents);
  }

  /** The words of a data header, one by one. */
  lemma {:induction false} DataLayout(h: DataHdr, crc: Word)
    requires DataHdrFits(h)
    ensures var w := DataWords(h, crc);
            && w[0] == 0x4456534c && w[1] == 1 && w[2..6] == h.uuid && w[6] == 2 && w[7] == h.num && w[8] == h.hdr && w[9] == h.data
            && w[10] == crc && w[15] == 72 && w[16] == 8 * |h.extents| && w[17] == (if h.isGc then 1 else 0)
            && forall i :: 0 <= i < |h.extents| ==>
                 w[18 + 2 * i] as int + 0x1_0000_0000 * w[19 + 2 * i] as int == h.extents[i].lba + 0x10_0000_0000 * h.extents[i].len
  {
    hide Zeros, MapWords;
    DataWordsParts(h, crc);
    var w, d, m := DataWords(h, crc), DataHead(h, crc), MapWords(h.extents);
    assert w[2..6] == d[2..6] == h.uuid;
    forall i | 0 <= i < |h.extents|
      ensures w[18 + 2 * i] as int + 0x1_0000_0000 * w[19 + 2 * i] as int == h.extents[i].lba + 0x10_0000_0000 * h.extents[i].len
    {
      MapsLayout(h.extents, i);
      assert w[18 + 2 * i] == m[2 * i] && w[19 + 2 * i] == m[2 * i + 1];
    }
  }

  lemma {:induction false} HeadWords(h: DataHdr, crc: Word)
    requires |h.uuid| == 4 && 8 * |h.extents| < TWO32
    ensures var d := DataHead(h, crc);
            && d[0] == MAGIC && d[1] == 1 && d[2..6] == h.uuid && d[6] == LOGDATA && d[7] == h.num && d[8] == h.hdr && d[9] == h.data
            && d[15] == 72 && d[16] == 8 * |h.extents| && d[17] == if h.isGc then 1 else 0
  {
  }
}
