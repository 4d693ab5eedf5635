/** What a read returns, from the assembly of its parts to the newest writes. */
module ReadResult {
  import opened Extents
  import opened Volume
  import opened Machine
  import opened PrefixConsistency
  import opened ReadSteps
  import opened ReadTheorem
  import opened ReadPath

  /** Memory holds what the batches in use have written to their buffers. */
  ghost predicate MemoryOf(s: State, mem: int -> Sector) {
    forall p, v :: InMemory(s, p, v) ==> p.BufPtr? && mem(p.addr) == v
  }

  /** `got` is the output once the block reads are over; sector `i` is the one its object holds, if a block read fills it. */
  ghost predicate Delivered(s: State, out: seq<Sector>, reqs: seq<BlockRead>, got: seq<Sector>, i: int) {
    && 0 <= i < |got| == |out|
    && (NoFill(reqs, i) ==> got[i] == out[i])
    && (forall j :: 0 <= j < |reqs| && reqs[j].Fills(i) ==>
          forall v :: Readable(s.backend, reqs[j].Source(i), v) ==> got[i] == v)
  }

  lemma {:induction false} ServedAt(bm: map<int, Ptr>, om: map<int, Ptr>, mem: int -> Sector, start: int, out: seq<Sector>, was: seq<Sector>,
                                    reqs: seq<BlockRead>, i: int)
    requires Progress(bm, om, mem, start, |out|, out, was, reqs) && 0 <= i < |out|
    ensures |out| == |was| && Served(bm, om, mem, start, i, out, was, reqs)
  {
  }

  /** A sector of a read is the newest write to it, or zero if there was none. */
  lemma {:induction false} ReadReturnsNewest(cfg: Config, s: State, mem: int -> Sector, start: int, out: seq<Sector>, was: seq<Sector>,
                          reqs: seq<BlockRead>, got: seq<Sector>, i: int)
    requires Coherent(cfg, s) && MemoryOf(s, mem) && Delivered(s, out, reqs, got, i)
    requires Progress(s.bufmap, s.objmap, mem, start, |out|, out, was, reqs)
    requires !OnlyInGcBuffer(s, start + i)
    ensures got[i] == ReadSector(DiskAfter(s.history), start + i)
  {
    hide Coherent, DiskAfter, InMemory, OnlyInGcBuffer, Progress, Readable;
    CoherentReads(cfg, s, start + i);
    ServedAt(s.bufmap, s.objmap, mem, start, out, was, reqs, i);
    var a, d := start + i, DiskAfter(s.history);
    if a in s.bufmap {
      assert InMemory(s, s.bufmap[a], d[a]);
    } else if a in s.objmap {
      var j :| 0 <= j < |reqs| && reqs[j].Fills(i) && reqs[j].Source(i) == s.objmap[a];
      assert Readable(s.backend, reqs[j].Source(i), d[a]);
    }
  }
}
