/** Where a read finds the newest data: in a buffer still in memory, or else in an object of the backend. */
module ReadCoherence {
  import opened Extents
  import opened Volume
  import opened Machine

  // ---- the buffer map, told from the log ----

  /** Entering writes that lie one after the other in a buffer. */
  ghost function Enter(m: map<int, Ptr>, addr: int, ws: seq<Write>): map<int, Ptr> {
    if ws == [] then m else
      var k := |ws| - 1;
      Override(Enter(m, addr, ws[..k]), ws[k].lba, ws[k].Limit(), BufPtr(addr + 512 * Total(ws[..k])))
  }

  /** A finished batch takes its sectors out of memory. */
  ghost function Leave(m: map<int, Ptr>, ws: seq<Write>): map<int, Ptr> {
    map a | a in m && !Touches(ws, a) :: m[a]
  }

  /** One record of the log: a batch on its way is in memory, a finished one is not, others do not count. */
  ghost function BufRec(m: map<int, Ptr>, log: seq<Rec>, inflight: map<int, Put>, n: int): map<int, Ptr>
    requires 0 <= n < |log|
  {
    if !log[n].DataRec? || log[n].obj.isGc then m
    else if n in inflight && inflight[n].BatchPut? then Enter(m, inflight[n].addr, log[n].obj.pieces)
    else Leave(m, log[n].obj.pieces)
  }

  ghost function BufLog(log: seq<Rec>, inflight: map<int, Put>, k: int): map<int, Ptr>
    requires 0 <= k <= |log|
  {
    if k == 0 then map[] else BufRec(BufLog(log, inflight, k - 1), log, inflight, k - 1)
  }

  ghost function BufQueue(m: map<int, Ptr>, q: seq<Req>): map<int, Ptr> {
    if q == [] then m else
      var k := |q| - 1;
      var m' := BufQueue(m, q[..k]);
      if q[k].PutReq? then Enter(m', q[k].batch.addr, q[k].batch.writes) else m'
  }

  /** The buffer map holds the newest write of every sector whose batch has not finished, and nothing else. */
  ghost function Buffered(s: State): map<int, Ptr> {
    Enter(BufQueue(BufLog(s.log, s.inflight, |s.log|), s.queue), s.current.addr, s.current.writes)
  }

  // ---- buffers do not touch ----

  ghost predicate PutsApart(cfg: Config, inflight: map<int, Put>) {
    forall n, k :: n in inflight && k in inflight && n != k && inflight[n].BatchPut? && inflight[k].BatchPut? ==>
      Apart(cfg, inflight[n].addr, inflight[k].addr)
  }

  ghost predicate BuffersApart(cfg: Config, s: State) {
    && (forall i, j :: 0 <= i < j < |s.queue| && s.queue[i].PutReq? && s.queue[j].PutReq? ==>
          Apart(cfg, s.queue[i].batch.addr, s.queue[j].batch.addr))
    && (forall n, i :: n in s.inflight && s.inflight[n].BatchPut? && 0 <= i < |s.queue| && s.queue[i].PutReq? ==>
          Apart(cfg, s.inflight[n].addr, s.queue[i].batch.addr))
    && PutsApart(cfg, s.inflight)
    && (forall i :: 0 <= i < |s.queue| && s.queue[i].PutReq? ==> Apart(cfg, s.queue[i].batch.addr, s.current.addr))
    && (forall n :: n in s.inflight && s.inflight[n].BatchPut? ==> Apart(cfg, s.inflight[n].addr, s.current.addr))
  }

  // ---- entering and leaving ----

  lemma {:induction false} EnterAt(m: map<int, Ptr>, addr: int, ws: seq<Write>, a: int)
    ensures !Touches(ws, a) ==> (a in Enter(m, addr, ws) <==> a in m) && (a in m ==> Enter(m, addr, ws)[a] == m[a])
    ensures Touches(ws, a) ==> a in Enter(m, addr, ws) && exists i ::
              0 <= i < Total(ws) && Enter(m, addr, ws)[a] == BufPtr(addr + 512 * i)
  {
    if ws != [] {
      var k := |ws| - 1;
      EnterAt(m, addr, ws[..k], a);
      assert forall j :: 0 <= j < k ==> ws[..k][j] == ws[j];
      assert Touches(ws, a) <==> Touches(ws[..k], a) || ws[k].Covers(a);
      if ws[k].Covers(a) {
        var i := Total(ws[..k]) + (a - ws[k].lba);
        assert 0 <= i < Total(ws) && Enter(m, addr, ws)[a] == BufPtr(addr + 512 * i);
      }
    }
  }

  /** The pointers of a batch lie in its own buffer, and in no other. */
  lemma {:induction false} EnterInBuffer(cfg: Config, m: map<int, Ptr>, addr: int, ws: seq<Write>, a: int)
    requires Total(ws) <= cfg.max && Touches(ws, a)
    ensures a in Enter(m, addr, ws) && InBuffer(cfg, addr, Enter(m, addr, ws)[a])
    ensures forall b :: Apart(cfg, addr, b) ==> !InBuffer(cfg, b, Enter(m, addr, ws)[a])
  {
    EnterAt(m, addr, ws, a);
    var i :| 0 <= i < Total(ws) && Enter(m, addr, ws)[a] == BufPtr(addr + 512 * i);
  }

  /** Completing a batch right after it was entered leaves what `Leave` leaves. */
  lemma {:induction false} DropOwn(cfg: Config, m: map<int, Ptr>, addr: int, ws: seq<Write>)
    requires Total(ws) <= cfg.max
    ensures Drop(cfg, Enter(m, addr, ws), addr, ws) == Leave(m, ws)
  {
    var l, r := Drop(cfg, Enter(m, addr, ws), addr, ws), Leave(m, ws);
    forall a ensures (a in l <==> a in r) && (a in l ==> l[a] == r[a]) {
      EnterAt(m, addr, ws, a);
      if Touches(ws, a) {
        EnterInBuffer(cfg, m, addr, ws, a);
      }
    }
    assert l.Keys == r.Keys;
    assert l == r;
  }

  /** Completing one batch and entering another commute when their buffers do not touch. */
  lemma {:induction false} DropPastEnter(cfg: Config, m: map<int, Ptr>, addr: int, ws: seq<Write>, b: int, vs: seq<Write>)
    requires Total(vs) <= cfg.max && Apart(cfg, b, addr)
    ensures Drop(cfg, Enter(m, b, vs), addr, ws) == Enter(Drop(cfg, m, addr, ws), b, vs)
  {
    var l, r := Drop(cfg, Enter(m, b, vs), addr, ws), Enter(Drop(cfg, m, addr, ws), b, vs);
    forall a ensures (a in l <==> a in r) && (a in l ==> l[a] == r[a]) {
      EnterAt(m, b, vs, a);
      EnterAt(Drop(cfg, m, addr, ws), b, vs, a);
      if Touches(vs, a) {
        EnterInBuffer(cfg, m, b, vs, a);
        EnterSame(m, Drop(cfg, m, addr, ws), b, vs, a);
      }
    }
    assert l.Keys == r.Keys;
    assert l == r;
  }

  lemma {:induction false} EnterSame(m: map<int, Ptr>, m': map<int, Ptr>, addr: int, ws: seq<Write>, a: int)
    requires Touches(ws, a)
    ensures a in Enter(m, addr, ws) && a in Enter(m', addr, ws) && Enter(m, addr, ws)[a] == Enter(m', addr, ws)[a]
  {
    var k := |ws| - 1;
    if !ws[k].Covers(a) {
      var j :| 0 <= j < |ws| && ws[j].Covers(a);
      assert ws[..k][j].Covers(a);
      EnterSame(m, m', addr, ws[..k], a);
    }
  }

  lemma {:induction false} DropPastLeave(cfg: Config, m: map<int, Ptr>, addr: int, ws: seq<Write>, vs: seq<Write>)
    ensures Drop(cfg, Leave(m, vs), addr, ws) == Leave(Drop(cfg, m, addr, ws), vs)
  {
    var l, r := Drop(cfg, Leave(m, vs), addr, ws), Leave(Drop(cfg, m, addr, ws), vs);
    assert l.Keys == r.Keys;
    assert forall a :: a in l ==> l[a] == r[a];
    assert l == r;
  }

  lemma {:induction false} BufLogSame(log: seq<Rec>, log': seq<Rec>, p: map<int, Put>, p': map<int, Put>, k: int)
    requires 0 <= k <= |log| && k <= |log'|
    requires forall n :: 0 <= n < k ==> log[n] == log'[n] && (n in p <==> n in p') && (n in p ==> p[n] == p'[n])
    ensures BufLog(log, p, k) == BufLog(log', p', k)
  {
    hide Enter, Leave;
    if k > 0 {
      BufLogSame(log, log', p, p', k - 1);
    }
  }

  lemma {:induction false} BufQueueHead(m: map<int, Ptr>, q: seq<Req>)
    requires q != []
    ensures BufQueue(m, q) == BufQueue(if q[0].PutReq? then Enter(m, q[0].batch.addr, q[0].batch.writes) else m, q[1..])
  {
    hide Enter;
    if |q| > 1 {
      var k := |q| - 1;
      BufQueueHead(m, q[..k]);
      assert q[1..][..k - 1] == q[..k][1..];
    } else {
      assert q[..0] == [];
    }
  }

  lemma {:induction false} BufQueueSnoc(m: map<int, Ptr>, q: seq<Req>, r: Req)
    ensures BufQueue(m, q + [r]) == (if r.PutReq? then Enter(BufQueue(m, q), r.batch.addr, r.batch.writes) else BufQueue(m, q))
  {
    assert (q + [r])[..|q|] == q;
  }

  /** Client batches on their way fit their buffers. */
  ghost predicate SmallPuts(cfg: Config, log: seq<Rec>, inflight: map<int, Put>) {
    forall n :: n in inflight && inflight[n].BatchPut? ==>
      0 <= n < |log| && log[n].DataRec? && !log[n].obj.isGc && Total(log[n].obj.pieces) <= cfg.max
  }

  /** A completion, at whatever place in the log, removes exactly what the batch still owns. */
  lemma {:induction false} DropLog(cfg: Config, log: seq<Rec>, p: map<int, Put>, n: int, k: int)
    requires SmallPuts(cfg, log, p) && PutsApart(cfg, p) && n in p && p[n].BatchPut? && n < k <= |log|
    ensures BufLog(log, p - {n}, k) == Drop(cfg, BufLog(log, p, k), p[n].addr, log[n].obj.pieces)
    decreases k
  {
    hide Enter, Leave, Drop, Apart;
    var addr, ws := p[n].addr, log[n].obj.pieces;
    if k == n + 1 {
      BufLogSame(log, log, p, p - {n}, n);
      DropOwn(cfg, BufLog(log, p, n), addr, ws);
    } else {
      DropLog(cfg, log, p, n, k - 1);
      var m, r := BufLog(log, p, k - 1), k - 1;
      if log[r].DataRec? && !log[r].obj.isGc {
        if r in p && p[r].BatchPut? {
          assert r in p - {n} && (p - {n})[r] == p[r];
          DropPastEnter(cfg, m, addr, ws, p[r].addr, log[r].obj.pieces);
        } else {
          DropPastLeave(cfg, m, addr, ws, log[r].obj.pieces);
        }
      }
    }
  }

  lemma {:induction false} DropQueue(cfg: Config, m: map<int, Ptr>, q: seq<Req>, addr: int, ws: seq<Write>)
    requires forall i :: 0 <= i < |q| && q[i].PutReq? ==> Total(q[i].batch.writes) <= cfg.max && Apart(cfg, q[i].batch.addr, addr)
    ensures Drop(cfg, BufQueue(m, q), addr, ws) == BufQueue(Drop(cfg, m, addr, ws), q)
  {
    hide Enter, Drop, Apart;
    if q != [] {
      var k := |q| - 1;
      DropQueue(cfg, m, q[..k], addr, ws);
      if q[k].PutReq? {
        DropPastEnter(cfg, BufQueue(m, q[..k]), addr, ws, q[k].batch.addr, q[k].batch.writes);
      }
    }
  }

  lemma {:induction false} BufLogEmpty(log: seq<Rec>, k: int)
    requires 0 <= k <= |log|
    ensures BufLog(log, map[], k) == map[]
  {
    if k > 0 {
      BufLogEmpty(log, k - 1);
      if log[k - 1].DataRec? {
        assert Leave(map[], log[k - 1].obj.pieces) == map[];
      }
    }
  }
}
