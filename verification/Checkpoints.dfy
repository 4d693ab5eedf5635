/** Writing and reading checkpoints and the superblock. */
module Checkpoints {
  import opened Common
  import opened Codec
  import opened Objects

  /** What a checkpoint says: the object table and the map. */
  datatype Ckpt = Ckpt(uuid: seq<Word>, num: Word, table: seq<TableRow>, entries: seq<MapEntry>)

  function CkptBytes(k: Ckpt): nat {
    84 + 16 * |k.table| + 16 * |k.entries|
  }

  function CkptSectors(k: Ckpt): nat {
    (CkptBytes(k) + 511) / 512
  }

  ghost predicate CkptFits(k: Ckpt) {
    |k.uuid| == 4 && 512 * CkptSectors(k) < TWO32 && forall i :: 0 <= i < |k.entries| ==> EntryFits(k.entries[i])
  }

  /** The fixed part: the common header, then 40 bytes that say where the lists are. */
  function CkptHead(k: Ckpt): (r: seq<Word>)
    requires |k.uuid| == 4 && 512 * CkptSectors(k) < TWO32
    ensures |r| == 21
  {
    CommonWords(k.uuid, CHECKPOINT, k.num, CkptSectors(k), 0, 0)
    + [0, 0, 0, 0, 84, 16 * |k.table|, 0, 0, 84 + 16 * |k.table|, 16 * |k.entries|]
  }

  ghost function CkptWords(k: Ckpt): (r: seq<Word>)
    requires |k.uuid| == 4 && 512 * CkptSectors(k) < TWO32
    ensures |r| == 128 * CkptSectors(k)
  {
    CkptHead(k) + (TableWords(k.table) + (EntryWords(k.entries) + Zeros(128 * CkptSectors(k) - 21 - 4 * |k.table| - 4 * |k.entries|)))
  }

  lemma {:induction false} TableMore(rs: seq<TableRow>, i: nat)
    requires i < |rs|
    ensures TableWords(rs[..i + 1]) == TableWords(rs[..i]) + RowWords(rs[i])
  {
    assert rs[..i + 1][..i] == rs[..i];
  }

  lemma {:induction false} EntriesMore(es: seq<MapEntry>, i: nat)
    requires i < |es|
    ensures EntryWords(es[..i + 1]) == EntryWords(es[..i]) + PackEntry(es[i])
  {
    assert es[..i + 1][..i] == es[..i];
  }

  method PutTable(buf: array<Word>, off: nat, rs: seq<TableRow>)
    requires off + 4 * |rs| <= buf.Length
    modifies buf
    ensures buf[..off + 4 * |rs|] == old(buf[..off]) + TableWords(rs)
  {
    var k := off;
    assert rs[..0] == [];
    for i := 0 to |rs|
      invariant k == off + 4 * i && buf[..k] == old(buf[..off]) + TableWords(rs[..i])
    {
      ghost var was := buf[..k];
      Put(buf, k, RowWords(rs[i]));
      assert buf[..k + 4] == was + RowWords(rs[i]);
      TableMore(rs, i);
      k := k + 4;
    }
    assert rs[..|rs|] == rs;
  }

  method PutEntries(buf: array<Word>, off: nat, es: seq<MapEntry>)
    requires off + 4 * |es| <= buf.Length
    modifies buf
    ensures buf[..off + 4 * |es|] == old(buf[..off]) + EntryWords(es)
  {
    var k := off;
    assert es[..0] == [];
    for i := 0 to |es|
      invariant k == off + 4 * i && buf[..k] == old(buf[..off]) + EntryWords(es[..i])
    {
      ghost var was := buf[..k];
      var e := PackEntry(es[i]);
      Put(buf, k, e);
      assert buf[..k + 4] == was + e;
      EntriesMore(es, i);
      k := k + 4;
    }
    assert es[..|es|] == es;
  }

  method PutHeadTable(buf: array<Word>, k: Ckpt)
    requires |k.uuid| == 4 && 512 * CkptSectors(k) < TWO32 && 21 + 4 * |k.table| <= buf.Length
    modifies buf
    ensures buf[..21 + 4 * |k.table|] == CkptHead(k) + TableWords(k.table)
  {
    hide TableWords, CkptHead, CkptSectors, CkptBytes;
    Put(buf, 0, CkptHead(k));
    assert buf[..21] == CkptHead(k);
    PutTable(buf, 21, k.table);
  }

  /** The checkpoint as it is written to the backend. */
  method SerialiseCheckpoint(k: Ckpt) returns (buf: array<Word>)
    requires |k.uuid| == 4 && 512 * CkptSectors(k) < TWO32
    ensures fresh(buf) && buf[..] == CkptWords(k)
  {
    hide TableWords, EntryWords, CkptHead, Zeros;
    assert 21 + 4 * |k.table| + 4 * |k.entries| <= 128 * CkptSectors(k);
    hide CkptSectors, CkptBytes;
    buf := new Word[128 * CkptSectors(k)](_ => 0);
    PutHeadTable(buf, k);
    ghost var two := CkptHead(k) + TableWords(k.table);
    PutEntries(buf, 21 + 4 * |k.table|, k.entries);
    var end := 21 + 4 * |k.table| + 4 * |k.entries|;
    assert buf[..end] == two + EntryWords(k.entries);
    ZeroFrom(buf, end);
    Regroup(CkptHead(k), TableWords(k.table), EntryWords(k.entries), Zeros(buf.Length - end));
  }

  lemma {:induction false} Regroup(a: seq<Word>, b: seq<Word>, c: seq<Word>, d: seq<Word>)
    ensures a + b + c + d == a + (b + (c + d))
  {
  }

  /** A checkpoint; an object of another type is none. */
  function DecodeCkpt(obj: Option<seq<Word>>): Outcome<Ckpt> {
    match FetchHeader(obj)
    case Absent => Absent
    case Failed => Failed
    case Read(buf) =>
      if buf[6] != CHECKPOINT then Absent
      else if !ListIn(buf, buf[15], buf[16]) || !ListIn(buf, buf[19], buf[20]) then Failed
      else Read(Ckpt(buf[2..6], buf[7], TableAt(buf, buf[15] / 4, buf[16] / 16), EntriesAt(buf, buf[19] / 4, buf[20] / 16)))
  }

  /** Where a checkpoint says what. */
  ghost predicate CkptFields(o: seq<Word>, k: Ckpt)
    requires 128 <= |o|
  {
    && k.uuid == o[2..6] && k.num == o[7] && |k.table| == o[16] / 16 && |k.entries| == o[20] / 16
    && (forall i :: 0 <= i < |k.table| ==> RowAt(o, o[15] / 4 + 4 * i, k.table[i]))
    && (forall i :: 0 <= i < |k.entries| ==> EntryAt(o, o[19] / 4 + 4 * i, k.entries[i]))
  }

  ghost predicate RowAt(o: seq<Word>, at: nat, r: TableRow) {
    r.num == WordIn(o, at) && r.hdr == WordIn(o, at + 1) && r.data == WordIn(o, at + 2) && r.live == WordIn(o, at + 3)
  }

  ghost predicate EntryAt(o: seq<Word>, at: nat, e: MapEntry) {
    && EntryFits(e) && e.obj % 0x1_0000_0000 == WordIn(o, at + 2) && e.offset % 0x1_0000_0000 == WordIn(o, at + 3)
    && e.lba % 0x10_0000_0000 + 0x10_0000_0000 * (e.len % 0x1000_0000) == WordIn(o, at) as int + 0x1_0000_0000 * WordIn(o, at + 1) as int
  }

  /** What is read, for every object there can be. */
  lemma {:induction false} CkptExact(obj: Option<seq<Word>>)
    ensures var r := DecodeCkpt(obj);
            match obj
            case None => r == Absent
            case Some(o) =>
              if |o| < 128 then r == Failed
              else if !HeaderIn(o, 3) then r == Absent
              else if !ListAt(o, 15) || !ListAt(o, 19) then r == Failed
              else r.Read? && CkptFields(o, r.value)
  {
    Fetched(obj);
    hide FetchHeader, TableAt, EntriesAt, HeaderWords, EntryFits;
    if obj.Some? && 128 <= |obj.value| && HeaderIn(obj.value, 3) && ListAt(obj.value, 15) && ListAt(obj.value, 19) {
      var o, buf := obj.value, FetchHeader(obj).value;
      assert buf[15] == o[15] && buf[16] == o[16] && buf[19] == o[19] && buf[20] == o[20];
      forall i | 0 <= i < o[16] / 16 ensures RowAt(o, o[15] / 4 + 4 * i, TableAt(buf, o[15] / 4, o[16] / 16)[i]) {
        TableHolds(buf, o[15] / 4, o[16] / 16, i);
      }
      forall i | 0 <= i < o[20] / 16 ensures EntryAt(o, o[19] / 4 + 4 * i, EntriesAt(buf, o[19] / 4, o[20] / 16)[i]) {
        EntriesHold(buf, o[19] / 4, o[20] / 16, i);
      }
    }
  }

  method ReadCheckpoint(obj: Option<seq<Word>>) returns (r: Outcome<Ckpt>)
    ensures r == DecodeCkpt(obj)
    ensures match obj
            case None => r == Absent
            case Some(o) =>
              if |o| < 128 then r == Failed
              else if !HeaderIn(o, 3) then r == Absent
              else if !ListAt(o, 15) || !ListAt(o, 19) then r == Failed
              else r.Read? && CkptFields(o, r.value)
  {
    hide UnpackEntry, HeaderIn, ListAt, CkptFields;
    CkptExact(obj);
    var f := FetchHeader(obj);
    match f
    case Absent => return Absent;
    case Failed => return Failed;
    case Read(buf) =>
      if buf[6] != CHECKPOINT {
        return Absent;
      }
      if !ListIn(buf, buf[15], buf[16]) || !ListIn(buf, buf[19], buf[20]) {
        return Failed;
      }
      var table, entries := [], [];
      for i := 0 to buf[16] / 16
        invariant table == TableAt(buf, buf[15] / 4, i)
      {
        var o := buf[15] / 4 + 4 * i;
        table := table + [TableRow(buf[o], buf[o + 1], buf[o + 2], buf[o + 3])];
      }
      for i := 0 to buf[20] / 16
        invariant entries == EntriesAt(buf, buf[19] / 4, i)
      {
        var o := buf[19] / 4 + 4 * i;
        entries := entries + [UnpackEntry(buf[o..o + 4])];
      }
      return Read(Ckpt(buf[2..6], buf[7], table, entries));
  }

  lemma {:induction false} CkptHeadWords(k: Ckpt)
    requires |k.uuid| == 4 && 512 * CkptSectors(k) < TWO32
    ensures var d := CkptHead(k);
            && d[0] == MAGIC && d[1] == 1 && d[2..6] == k.uuid && d[6] == CHECKPOINT && d[7] == k.num && d[8] == CkptSectors(k)
            && d[15] == 84 && d[16] == 16 * |k.table| && d[19] == 84 + 16 * |k.table| && d[20] == 16 * |k.entries|
  {
  }

  /** The words of a checkpoint, one by one. */
  lemma {:induction false} CkptLayout(k: Ckpt)
    requires |k.uuid| == 4 && 512 * CkptSectors(k) < TWO32
    ensures var w, n := CkptWords(k), |k.table|;
            && w[0] == 0x4456534c && w[1] == 1 && w[2..6] == k.uuid && w[6] == 3 && w[7] == k.num
            && 128 * w[8] == |w| && |w| - 128 < 21 + 4 * n + 4 * |k.entries| <= |w| && w[15] == 84 && w[16] == 16 * n && w[19] == 84 + 16 * n && w[20] == 16 * |k.entries|
            && (forall i :: 0 <= i < n ==>
                  w[21 + 4 * i] == k.table[i].num && w[22 + 4 * i] == k.table[i].hdr &&
                  w[23 + 4 * i] == k.table[i].data && w[24 + 4 * i] == k.table[i].live)
            && (forall i :: 0 <= i < |k.entries| ==> EntryLies(w, 21 + 4 * n + 4 * i, k.entries[i]))
  {
    hide Zeros, TableWords, EntryWords, CkptHead;
    var w, n := CkptWords(k), |k.table|;
    CkptHeadWords(k);
    var d, t, e := CkptHead(k), TableWords(k.table), EntryWords(k.entries);
    assert forall i :: 0 <= i < 21 ==> w[i] == d[i];
    assert w[2..6] == d[2..6];
    forall i | 0 <= i < n
      ensures w[21 + 4 * i] == k.table[i].num && w[22 + 4 * i] == k.table[i].hdr &&
              w[23 + 4 * i] == k.table[i].data && w[24 + 4 * i] == k.table[i].live
    {
      TableLayout(k.table, i);
    }
    forall i | 0 <= i < |k.entries| ensures EntryLies(w, 21 + 4 * n + 4 * i, k.entries[i]) {
      EntriesLayout(k.entries, i);
      var at := 21 + 4 * n + 4 * i;
      assert w[at] == e[4 * i] && w[at + 1] == e[4 * i + 1] && w[at + 2] == e[4 * i + 2] && w[at + 3] == e[4 * i + 3];
    }
  }

  ghost predicate EntryLies(w: seq<Word>, at: nat, e: MapEntry) {
    && at + 4 <= |w| && w[at + 2] == e.obj % 0x1_0000_0000 && w[at + 3] == e.offset % 0x1_0000_0000
    && w[at] as int + 0x1_0000_0000 * w[at + 1] as int == e.lba % 0x10_0000_0000 + 0x10_0000_0000 * (e.len % 0x1000_0000)
  }

  /** What is fetched of a checkpoint: the head, then the table, then the map. */
  lemma {:induction false} CkptFetched(k: Ckpt, body: seq<Word>)
    requires |k.uuid| == 4 && 512 * CkptSectors(k) < TWO32
    ensures var r := FetchHeader(Some(CkptWords(k) + body));
            && r.Read? && Lies(r.value, 0, CkptHead(k)) && Lies(r.value, 21, TableWords(k.table))
            && Lies(r.value, 21 + 4 * |k.table|, EntryWords(k.entries))
  {
    hide Zeros, TableWords, EntryWords, CkptHead, FetchHeader;
    var words := CkptWords(k);
    CkptHeadWords(k);
    assert forall i :: 0 <= i < 21 ==> words[i] == CkptHead(k)[i];
    FetchedHeader(words, body, CkptSectors(k));
    var buf := FetchHeader(Some(words + body)).value;
    var pad := Zeros(128 * CkptSectors(k) - 21 - 4 * |k.table| - 4 * |k.entries|);
    LiesPart(buf, 0, CkptHead(k), TableWords(k.table) + (EntryWords(k.entries) + pad));
    LiesPart(buf, 21, TableWords(k.table), EntryWords(k.entries) + pad);
    LiesPart(buf, 21 + 4 * |k.table|, EntryWords(k.entries), pad);
  }

  lemma {:induction false} LiesWords(buf: seq<Word>, part: seq<Word>)
    requires Lies(buf, 0, part)
    ensures forall i :: 0 <= i < |part| ==> buf[i] == part[i]
    ensures |part| >= 6 ==> buf[2..6] == part[2..6]
  {
    assert forall i :: 0 <= i < |part| ==> buf[0..|part|][i] == buf[i];
  }

  /** Reading back a checkpoint gives exactly the table and the map that were written. */
  lemma {:induction false} CkptRoundTrip(k: Ckpt, body: seq<Word>)
    requires CkptFits(k)
    ensures DecodeCkpt(Some(CkptWords(k) + body)) == Read(k)
  {
    hide TableWords, EntryWords, CkptHead, CkptWords, FetchHeader, TableAt, EntriesAt;
    CkptFetched(k, body);
    var buf := FetchHeader(Some(CkptWords(k) + body)).value;
    CkptHeadWords(k);
    LiesWords(buf, CkptHead(k));
    TableRoundTrip(buf, 21, k.table);
    EntriesRoundTrip(buf, 21 + 4 * |k.table|, k.entries);
  }

  /** A checkpoint is not a data object, so it ends a roll-forward. */
  lemma {:induction false} CkptIsNoData(k: Ckpt, body: seq<Word>)
    requires |k.uuid| == 4 && 512 * CkptSectors(k) < TWO32
    ensures DecodeData(Some(CkptWords(k) + body)) == Absent
  {
    hide TableWords, EntryWords, CkptHead, CkptWords, FetchHeader;
    CkptFetched(k, body);
    CkptHeadWords(k);
    LiesWords(FetchHeader(Some(CkptWords(k) + body)).value, CkptHead(k));
  }

  // ---- the superblock ----

  datatype Super = Super(uuid: seq<Word>, sectorsLo: Word, sectorsHi: Word, ckpts: seq<Word>)

  function SuperSectors(s: Super): nat {
    (76 + 4 * |s.ckpts| + 511) / 512
  }

  function SuperHead(s: Super): (r: seq<Word>)
    requires |s.uuid| == 4 && 512 * SuperSectors(s) < TWO32
    ensures |r| == 19
  {
    CommonWords(s.uuid, SUPERBLOCK, 0, SuperSectors(s), 0, 0) + [s.sectorsLo, s.sectorsHi, 76, 4 * |s.ckpts|, 76, 0, 0, 0]
  }

  /** The superblock of a volume that is no clone. */
  ghost function SuperWords(s: Super): (r: seq<Word>)
    requires |s.uuid| == 4 && 512 * SuperSectors(s) < TWO32
    ensures |r| == 128 * SuperSectors(s)
  {
    SuperHead(s) + (s.ckpts + Zeros(128 * SuperSectors(s) - 19 - |s.ckpts|))
  }

  method SerialiseSuperblock(s: Super) returns (buf: array<Word>)
    requires |s.uuid| == 4 && 512 * SuperSectors(s) < TWO32
    ensures fresh(buf) && buf[..] == SuperWords(s)
  {
    hide SuperHead, Zeros;
    buf := new Word[128 * SuperSectors(s)](_ => 0);
    Put(buf, 0, SuperHead(s));
    assert buf[..19] == SuperHead(s);
    Put(buf, 19, s.ckpts);
    assert buf[..19 + |s.ckpts|] == SuperHead(s) + s.ckpts;
    ZeroFrom(buf, 19 + |s.ckpts|);
  }

  function DecodeSuper(obj: Option<seq<Word>>): Outcome<Super> {
    if obj.None? then Absent
    else
      var b := obj.value;
      if |b| < 19 then Failed
      else if b[0] != MAGIC || b[1] != 1 || b[6] != SUPERBLOCK then Absent
      else if !ListIn(b, b[13], b[14]) then Failed
      else Read(Super(b[2..6], b[11], b[12], b[b[13] / 4..b[13] / 4 + b[14] / 4]))
  }

  /** What is read, for every object there can be. */
  lemma {:induction false} SuperExact(obj: Option<seq<Word>>)
    ensures var r := DecodeSuper(obj);
            match obj
            case None => r == Absent
            case Some(b) =>
              if |b| < 19 then r == Failed
              else if b[0] != 0x4456534c || b[1] != 1 || b[6] != 1 then r == Absent
              else if b[13] % 4 != 0 || |b| < b[13] as int / 4 + (b[14] as int + 3) / 4 then r == Failed
              else r.Read? && r.value.uuid == b[2..6] && r.value.sectorsLo == b[11] && r.value.sectorsHi == b[12] &&
                   |r.value.ckpts| == b[14] / 4 && forall i :: 0 <= i < |r.value.ckpts| ==> r.value.ckpts[i] == b[b[13] / 4 + i]
  {
  }

  /** The words of a superblock, one by one. */
  lemma {:induction false} SuperLayout(s: Super)
    requires |s.uuid| == 4 && 512 * SuperSectors(s) < TWO32
    ensures var w := SuperWords(s);
            && w[0] == 0x4456534c && w[1] == 1 && w[2..6] == s.uuid && w[6] == 1
            && 128 * w[8] == |w| && |w| - 128 < 19 + |s.ckpts| <= |w| && w[11] == s.sectorsLo && w[12] == s.sectorsHi
            && w[13] == 76 && w[14] == 4 * |s.ckpts| && forall i :: 0 <= i < |s.ckpts| ==> w[19 + i] == s.ckpts[i]
  {
    hide Zeros;
    var w := SuperWords(s);
    assert w[..19] == SuperHead(s);
    assert forall i :: 0 <= i < 19 ==> w[i] == w[..19][i];
    assert w[2..6] == w[..19][2..6];
  }

  /** The checkpoints named by the superblock come back in order. */
  lemma {:induction false} SuperRoundTrip(s: Super)
    requires |s.uuid| == 4 && 512 * SuperSectors(s) < TWO32
    ensures DecodeSuper(Some(SuperWords(s))) == Read(s)
  {
    hide Zeros;
    var b := SuperWords(s);
    var pad := Zeros(128 * SuperSectors(s) - 19 - |s.ckpts|);
    assert b[..19] == SuperHead(s);
    assert forall i :: 0 <= i < 19 ==> b[i] == b[..19][i];
    assert b[2..6] == b[..19][2..6] == s.uuid;
    assert b[19..19 + |s.ckpts|] == s.ckpts;
  }
}
