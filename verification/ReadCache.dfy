/** The shared read cache: chunks of immutable objects, fetched, filled, pinned and evicted. */
module ReadCache {
  import opened Common

  /** An object, and the place of an aligned chunk in it. */
  datatype Key = Key(name: string, num: int, offset: int)

  /** The key of an entry that has never been used. */
  const NO_KEY := Key("", 0, 0)

  /** The contents of a chunk, sector by sector. */
  type Bytes = seq<int>

  /** Sectors in a chunk. */
  const CHUNK := 128

  /** Which contents are those of the object. */
  type Good = (Key, Bytes) -> bool

  datatype Status = Empty | Fetching | Filling | Resident

  /** `sound` is no field of the cache: it tells whether the object was there when the chunk was fetched. */
  datatype Entry = Entry(status: Status, accessed: bool, refcount: int, buffer: Option<Bytes>, pending: seq<int>, key: Key, sound: bool)

  const FRESH := Entry(Empty, false, 0, None, [], NO_KEY, false)

  /** What a read has been given so far, and whether it came from a chunk whose object was there. */
  datatype Outcome = Waiting | Got(value: Bytes, sound: bool)

  /** The bytes of a chunk a read wants. */
  datatype Want = Want(key: Key, adjust: nat, len: nat) {
    ghost predicate Fits() {
      adjust + len <= CHUNK
    }

    ghost function Of(chunk: Bytes): Bytes
      requires adjust + len <= |chunk|
    {
      chunk[adjust..adjust + len]
    }
  }

  /** Requests in progress. A pending read waits for its run and for the fetch, in either order. */
  datatype Request =
    | Hit(chunk: int, want: Want)
    | Miss(chunk: int, want: Want, fetched: bool)
    | Pending(chunk: int, want: Want, running: bool, done: bool)
    | Insert(chunk: int)
  {
    /** The request keeps its chunk from being evicted. */
    predicate Pins() {
      Pending? ==> !done
    }
  }

  /** The requests that pin chunk `i`. */
  ghost function Users(reqs: map<int, Request>, i: int): set<int> {
    set r | r in reqs && reqs[r].chunk == i && reqs[r].Pins()
  }

  // ---- what holds of an entry ----

  ghost predicate EntryOk(good: Good, e: Entry, content: Bytes, reqs: map<int, Request>, i: int) {
    var us := Users(reqs, i);
    && e.refcount == |us|
    && match e.status
       case Empty => us == {} && e.buffer == None && e.pending == [] && e.key == NO_KEY
       case Fetching => e.buffer.Some? && FetchOk(e, reqs, us)
       case Filling => e.buffer.Some? && Sound(good, e, e.buffer.value) && e.pending == [] && FillOk(reqs, us)
       case Resident => e.buffer == None && e.pending == [] && Sound(good, e, content) && forall r :: r in us ==> reqs[r].Hit?
  }

  /** A chunk fetched while its object was there is the object's. */
  ghost predicate Sound(good: Good, e: Entry, data: Bytes) {
    |data| == CHUNK && (e.sound ==> good(e.key, data))
  }

  /** What a read was given, if from a sound chunk, is what it wanted of the object. */
  ghost predicate Served(good: Good, w: Want, got: Outcome) {
    w.Fits() && got.Got? && |got.value| == w.len &&
    (got.sound ==> exists b :: |b| == CHUNK && good(w.key, b) && got.value == w.Of(b))
  }

  /** One fetch is under way, and every other request on the chunk waits for it. */
  ghost predicate FetchOk(e: Entry, reqs: map<int, Request>, us: set<int>)
    requires forall r :: r in us ==> r in reqs
  {
    && (forall r :: r in e.pending ==> r in us && reqs[r].Pending?)
    && (forall i, j :: 0 <= i < j < |e.pending| ==> e.pending[i] != e.pending[j])
    && exists m :: m in us && reqs[m].Miss? && !reqs[m].fetched && us == (set r | r in e.pending) + {m}
  }

  /** One write to the store is under way, and nothing else. */
  ghost predicate FillOk(reqs: map<int, Request>, us: set<int>)
    requires forall r :: r in us ==> r in reqs
  {
    exists m :: us == {m} && (reqs[m].Insert? || (reqs[m].Miss? && reqs[m].fetched))
  }

  /** Entries and map are inverse to each other on the occupied entries. */
  ghost predicate Inverse(entries: seq<Entry>, cmap: map<Key, int>) {
    && (forall i :: 0 <= i < |entries| && entries[i].status != Empty ==> entries[i].key in cmap && cmap[entries[i].key] == i)
    && (forall k :: k in cmap ==> 0 <= cmap[k] < |entries| && entries[cmap[k]].status != Empty && entries[cmap[k]].key == k)
  }

  /** Every request wants the key of its chunk, and is told exactly once, with bytes of that chunk. */
  ghost predicate RequestOk(good: Good, entries: seq<Entry>, r: Request, notes: nat, got: Outcome) {
    && 0 <= r.chunk < |entries|
    && match r
       case Hit(i, w) => entries[i].status == Resident && w.key == entries[i].key && w.Fits() && notes == 0
       case Miss(i, w, fetched) =>
         && entries[i].status == (if fetched then Filling else Fetching) && w.key == entries[i].key && w.Fits()
         && notes == (if fetched then 1 else 0) && (fetched ==> Served(good, w, got))
       case Pending(i, w, running, done) =>
         && w.Fits() && notes == 0 && !(running && done)
         && (if done then Served(good, w, got) else entries[i].status == Fetching && w.key == entries[i].key)
       case Insert(i) => entries[i].status == Filling
  }

  /** A request that is over was told once, with the bytes it wanted. */
  ghost predicate Over(good: Good, w: Want, notes: nat, got: Outcome) {
    notes == 1 && Served(good, w, got)
  }

  // ---- counting users ----

  lemma {:induction false} UsersAdd(reqs: map<int, Request>, n: int, r: Request)
    requires n !in reqs && r.Pins()
    ensures Users(reqs[n := r], r.chunk) == Users(reqs, r.chunk) + {n} && n !in Users(reqs, r.chunk)
    ensures |Users(reqs[n := r], r.chunk)| == |Users(reqs, r.chunk)| + 1
  {
  }

  lemma {:induction false} UsersRemove(reqs: map<int, Request>, n: int)
    requires n in reqs && reqs[n].Pins()
    ensures var i := reqs[n].chunk; Users(reqs - {n}, i) == Users(reqs, i) - {n} && n in Users(reqs, i)
    ensures var i := reqs[n].chunk; |Users(reqs - {n}, i)| == |Users(reqs, i)| - 1
  {
  }

  /** Requests on other chunks do not count. */
  ghost predicate SameElsewhere(reqs: map<int, Request>, reqs': map<int, Request>, i: int) {
    && (forall r :: r in reqs && reqs[r].chunk != i ==> r in reqs' && reqs'[r] == reqs[r])
    && (forall r :: r in reqs' && reqs'[r].chunk != i ==> r in reqs && reqs'[r] == reqs[r])
  }

  lemma {:induction false} OtherEntry(good: Good, e: Entry, content: Bytes, reqs: map<int, Request>, reqs': map<int, Request>, i: int, j: int)
    requires EntryOk(good, e, content, reqs, j) && SameElsewhere(reqs, reqs', i) && i != j
    ensures EntryOk(good, e, content, reqs', j)
  {
    var us := Users(reqs, j);
    assert forall r :: r in Users(reqs', j) <==> r in us;
    assert Users(reqs', j) == us;
    assert forall r :: r in us ==> reqs'[r] == reqs[r];
    if e.status == Fetching {
      var m :| m in us && reqs[m].Miss? && !reqs[m].fetched && us == (set r | r in e.pending) + {m};
      assert reqs'[m].Miss?;
    } else if e.status == Filling {
      var m :| us == {m} && (reqs[m].Insert? || (reqs[m].Miss? && reqs[m].fetched));
      assert m in us;
    }
  }

  /** Only the accessed bit differs. */
  ghost predicate Similar(e: Entry, e': Entry) {
    e' == e.(accessed := e'.accessed)
  }

  ghost predicate EntriesOk(good: Good, entries: seq<Entry>, store: seq<Bytes>, reqs: map<int, Request>) {
    |entries| == |store| && forall i :: 0 <= i < |entries| ==> EntryOk(good, entries[i], store[i], reqs, i)
  }

  /** A step that touches chunk `i` only. */
  ghost predicate OnlyChunk(entries: seq<Entry>, entries': seq<Entry>, store: seq<Bytes>, store': seq<Bytes>,
                            reqs: map<int, Request>, reqs': map<int, Request>, i: int) {
    && |entries'| == |entries| == |store| == |store'| && SameElsewhere(reqs, reqs', i)
    && (forall j :: 0 <= j < |entries| && j != i ==> Similar(entries[j], entries'[j]) && store'[j] == store[j])
  }

  lemma {:induction false} EntriesStep(good: Good, entries: seq<Entry>, entries': seq<Entry>, store: seq<Bytes>, store': seq<Bytes>,
                    reqs: map<int, Request>, reqs': map<int, Request>, i: int)
    requires EntriesOk(good, entries, store, reqs) && OnlyChunk(entries, entries', store, store', reqs, reqs', i)
    requires 0 <= i < |entries| && EntryOk(good, entries'[i], store'[i], reqs', i)
    ensures EntriesOk(good, entries', store', reqs')
  {
    forall j | 0 <= j < |entries| ensures EntryOk(good, entries'[j], store'[j], reqs', j) {
      if j != i {
        OtherEntry(good, entries[j], store[j], reqs, reqs', i, j);
        SimilarOk(good, entries[j], entries'[j], store[j], reqs', j);
      }
    }
  }

  lemma {:induction false} SimilarOk(good: Good, e: Entry, e': Entry, content: Bytes, reqs: map<int, Request>, i: int)
    requires EntryOk(good, e, content, reqs, i) && Similar(e, e')
    ensures EntryOk(good, e', content, reqs, i)
  {
  }

  /** Status and key are what the requests on a chunk rely on. */
  ghost predicate SameKind(e: Entry, e': Entry) {
    e'.status == e.status && e'.key == e.key
  }

  /** Everything the cache knows: the entries, the map, the store, and the requests with what they were told. */
  datatype Cache = Cache(entries: seq<Entry>, cmap: map<Key, int>, store: seq<Bytes>, reqs: map<int, Request>, next: int,
                         wants: map<int, Want>, notes: map<int, nat>, got: map<int, Outcome>)

  ghost predicate Ok(good: Good, c: Cache) {
    && EntriesOk(good, c.entries, c.store, c.reqs)
    && Inverse(c.entries, c.cmap) && NO_KEY !in c.cmap && 0 <= c.next
    && forall q :: RequestAt(good, c, q)
  }

  /** Request `q`, if there has been one, is in progress as it should be, or over. */
  ghost predicate RequestAt(good: Good, c: Cache, q: int) {
    q in c.reqs || q in c.wants ==>
      && 0 <= q < c.next && q in c.notes && q in c.got
      && if q in c.reqs then RequestOk(good, c.entries, c.reqs[q], c.notes[q], c.got[q]) && Wanted(c, q)
         else Over(good, c.wants[q], c.notes[q], c.got[q])
  }

  ghost predicate Wanted(c: Cache, q: int)
    requires q in c.reqs
  {
    if c.reqs[q].Insert? then q !in c.wants else q in c.wants && c.wants[q] == c.reqs[q].want
  }

  /** Nothing has changed for request `q`. */
  ghost predicate SameAt(c: Cache, c': Cache, q: int) {
    && (q in c.reqs <==> q in c'.reqs) && (q in c.reqs ==> c'.reqs[q] == c.reqs[q])
    && (q in c.wants <==> q in c'.wants) && (q in c.wants ==> c'.wants[q] == c.wants[q])
    && (q in c.notes ==> q in c'.notes && c'.notes[q] == c.notes[q])
    && (q in c.got ==> q in c'.got && c'.got[q] == c.got[q])
  }

  lemma {:induction false} OtherAt(good: Good, c: Cache, c': Cache, q: int)
    requires RequestAt(good, c, q) && SameAt(c, c', q) && c.next <= c'.next && |c'.entries| == |c.entries|
    requires q in c.reqs && 0 <= c.reqs[q].chunk < |c.entries| ==> SameKind(c.entries[c.reqs[q].chunk], c'.entries[c.reqs[q].chunk]) || (c.reqs[q].Pending? && c.reqs[q].done)
    ensures RequestAt(good, c', q)
  {
  }

  // ---- steps ----

  /** A new read, with its request. */
  function AddRead(c: Cache, r: Request, w: Want): Cache {
    c.(reqs := c.reqs[c.next := r], next := c.next + 1, wants := c.wants[c.next := w],
       notes := c.notes[c.next := 0], got := c.got[c.next := Waiting])
  }

  /** The chunk is in the store: it is pinned and read from there. */
  function DoHit(c: Cache, i: int, w: Want): Cache
    requires 0 <= i < |c.entries|
  {
    var e := c.entries[i];
    AddRead(c, Hit(i, w), w).(entries := c.entries[i := e.(refcount := e.refcount + 1, accessed := true)])
  }

  /** The chunk is being fetched: the read waits for it. */
  function DoJoin(c: Cache, i: int, w: Want): Cache
    requires 0 <= i < |c.entries|
  {
    var e := c.entries[i];
    AddRead(c, Pending(i, w, false, false), w)
      .(entries := c.entries[i := e.(refcount := e.refcount + 1, accessed := true, pending := e.pending + [c.next])])
  }

  /** The chunk at `i` is given up for another key. */
  function Claimed(c: Cache, i: int, k: Key): map<Key, int>
    requires 0 <= i < |c.entries|
  {
    (c.cmap - {c.entries[i].key})[k := i]
  }

  /** Nobody has the chunk: one is evicted, and the fetch started. */
  function DoMiss(c: Cache, i: int, w: Want): Cache
    requires 0 <= i < |c.entries|
  {
    var e := c.entries[i];
    AddRead(c, Miss(i, w, false), w)
      .(entries := c.entries[i := e.(status := Fetching, refcount := e.refcount + 1, buffer := Some([]), key := w.key)],
        cmap := Claimed(c, i, w.key))
  }

  function Filled(e: Entry, k: Key, data: Bytes): Entry {
    e.(status := Filling, refcount := e.refcount + 1, accessed := false, buffer := Some(data), key := k, sound := true)
  }

  /** A new object goes into the cache: a chunk is evicted, and the write to the store started. */
  function DoInsert(c: Cache, i: int, k: Key, data: Bytes): Cache
    requires 0 <= i < |c.entries|
  {
    var e := c.entries[i];
    c.(entries := c.entries[i := Filled(e, k, data)],
       cmap := Claimed(c, i, k), reqs := c.reqs[c.next := Insert(i)], next := c.next + 1,
       notes := c.notes[c.next := 0], got := c.got[c.next := Waiting])
  }

  lemma {:induction false} UsersBelow(good: Good, c: Cache)
    requires Ok(good, c)
    ensures c.next !in c.reqs && c.next !in c.wants
  {
    assert RequestAt(good, c, c.next);
  }

  /** Adding a request on chunk `i` leaves the others as they were. */
  lemma {:induction false} AddedRequests(good: Good, c: Cache, c': Cache, r: Request, i: int)
    requires Ok(good, c) && r.chunk == i && 0 <= i < |c.entries| && |c'.entries| == |c.entries|
    requires c'.reqs == c.reqs[c.next := r] && c'.next == c.next + 1
    requires c'.notes == c.notes[c.next := 0] && c'.got == c.got[c.next := Waiting]
    requires if r.Insert? then c'.wants == c.wants else c'.wants == c.wants[c.next := r.want]
    requires forall j :: 0 <= j < |c.entries| && j != i ==> c'.entries[j] == c.entries[j]
    requires SameKind(c.entries[i], c'.entries[i]) || forall q :: q in c.reqs && c.reqs[q].chunk == i ==> c.reqs[q].Pending? && c.reqs[q].done
    requires RequestOk(good, c'.entries, r, 0, Waiting) && 0 <= c.next
    ensures forall q :: RequestAt(good, c', q)
  {
    UsersBelow(good, c);
    hide EntriesOk, Inverse, RequestOk, Over;
    forall q ensures RequestAt(good, c', q) {
      if q != c.next {
        assert RequestAt(good, c, q);
        AddedOld(good, c, c', r, q);
      } else {
        AddedNew(good, c', r, q);
      }
    }
  }

  lemma {:induction false} AddedNew(good: Good, c: Cache, r: Request, q: int)
    requires 0 <= q < c.next && q in c.reqs && c.reqs[q] == r && q in c.notes && c.notes[q] == 0 && q in c.got && c.got[q] == Waiting
    requires RequestOk(good, c.entries, r, 0, Waiting) && Wanted(c, q)
    ensures RequestAt(good, c, q)
  {
    hide RequestOk;
  }

  lemma {:induction false} AddedOld(good: Good, c: Cache, c': Cache, r: Request, q: int)
    requires RequestAt(good, c, q) && q != c.next && |c'.entries| == |c.entries|
    requires c'.reqs == c.reqs[c.next := r] && c'.next == c.next + 1
    requires c'.notes == c.notes[c.next := 0] && c'.got == c.got[c.next := Waiting]
    requires (q in c'.wants <==> q in c.wants) && (q in c.wants ==> c'.wants[q] == c.wants[q])
    requires q in c.reqs && 0 <= c.reqs[q].chunk < |c.entries| ==> SameKind(c.entries[c.reqs[q].chunk], c'.entries[c.reqs[q].chunk]) || (c.reqs[q].Pending? && c.reqs[q].done)
    ensures RequestAt(good, c', q)
  {
    hide RequestAt, SameKind;
    assert SameAt(c, c', q);
    hide SameAt;
    OtherAt(good, c, c', q);
  }

  lemma {:induction false} InverseSame(entries: seq<Entry>, entries': seq<Entry>, cmap: map<Key, int>)
    requires Inverse(entries, cmap) && |entries'| == |entries| && forall i :: 0 <= i < |entries| ==> SameKind(entries[i], entries'[i])
    ensures Inverse(entries', cmap)
  {
  }

  lemma {:induction false} SimilarRefl(entries: seq<Entry>)
    ensures forall i :: 0 <= i < |entries| ==> Similar(entries[i], entries[i])
  {
  }

  lemma {:induction false} AddedElsewhere(reqs: map<int, Request>, n: int, r: Request)
    requires n !in reqs
    ensures SameElsewhere(reqs, reqs[n := r], r.chunk)
  {
  }

  /** A new request on chunk `i`, with the entry and the map as they should be. */
  lemma {:induction false} AddOk(good: Good, c: Cache, c': Cache, r: Request, i: int)
    requires Ok(good, c) && r.chunk == i && 0 <= i < |c.entries| && |c'.entries| == |c.entries| && c'.store == c.store
    requires c'.reqs == c.reqs[c.next := r] && c'.next == c.next + 1
    requires c'.notes == c.notes[c.next := 0] && c'.got == c.got[c.next := Waiting]
    requires if r.Insert? then c'.wants == c.wants else c'.wants == c.wants[c.next := r.want]
    requires forall j :: 0 <= j < |c.entries| && j != i ==> c'.entries[j] == c.entries[j]
    requires SameKind(c.entries[i], c'.entries[i]) || forall q :: q in c.reqs && c.reqs[q].chunk == i ==> c.reqs[q].Pending? && c.reqs[q].done
    requires RequestOk(good, c'.entries, r, 0, Waiting)
    requires |c.store| == |c.entries| && EntryOk(good, c'.entries[i], c'.store[i], c'.reqs, i)
    requires Inverse(c'.entries, c'.cmap) && NO_KEY !in c'.cmap
    ensures Ok(good, c')
  {
    hide EntryOk, RequestAt, Inverse, RequestOk, SameElsewhere, SameKind, EntriesOk;
    UsersBelow(good, c);
    AddedElsewhere(c.reqs, c.next, r);
    assert OnlyChunk(c.entries, c'.entries, c.store, c'.store, c.reqs, c'.reqs, i);
    hide OnlyChunk;
    EntriesStep(good, c.entries, c'.entries, c.store, c'.store, c.reqs, c'.reqs, i);
    AddedRequests(good, c, c', r, i);
  }

  lemma {:induction false} EntryAt(good: Good, c: Cache, i: int)
    requires Ok(good, c) && 0 <= i < |c.entries|
    ensures |c.store| == |c.entries| && EntryOk(good, c.entries[i], c.store[i], c.reqs, i)
  {
  }

  lemma {:induction false} MappedAt(entries: seq<Entry>, cmap: map<Key, int>, k: Key)
    requires Inverse(entries, cmap) && k in cmap
    ensures 0 <= cmap[k] < |entries| && entries[cmap[k]].key == k && entries[cmap[k]].status != Empty
  {
  }

  lemma {:induction false} HitEntry(good: Good, e: Entry, content: Bytes, reqs: map<int, Request>, i: int, n: int, w: Want)
    requires EntryOk(good, e, content, reqs, i) && e.status == Resident && n !in reqs
    ensures EntryOk(good, e.(refcount := e.refcount + 1, accessed := true), content, reqs[n := Hit(i, w)], i)
  {
    UsersAdd(reqs, n, Hit(i, w));
  }

  lemma {:induction false} JoinEntry(good: Good, e: Entry, content: Bytes, reqs: map<int, Request>, i: int, n: int, w: Want)
    requires EntryOk(good, e, content, reqs, i) && e.status == Fetching && n !in reqs
    ensures EntryOk(good, e.(refcount := e.refcount + 1, accessed := true, pending := e.pending + [n]), content,
                    reqs[n := Pending(i, w, false, false)], i)
  {
    hide Users, FetchOk;
    var r := Pending(i, w, false, false);
    UsersAdd(reqs, n, r);
    InReqs(reqs, i);
    InReqs(reqs[n := r], i);
    FetchJoin(e.pending, e, reqs, Users(reqs, i), n, r);
  }

  lemma {:induction false} InReqs(reqs: map<int, Request>, i: int)
    ensures forall q :: q in Users(reqs, i) ==> q in reqs
  {
  }

  lemma {:induction false} FetchJoin(p: seq<int>, e: Entry, reqs: map<int, Request>, us: set<int>, n: int, r: Request)
    requires (forall q :: q in us ==> q in reqs) && n !in reqs && FetchOk(e, reqs, us) && r.Pending? && p == e.pending
    ensures FetchOk(e.(refcount := e.refcount + 1, accessed := true, pending := p + [n]), reqs[n := r], us + {n})
  {
    var m :| m in us && reqs[m].Miss? && !reqs[m].fetched && us == (set q | q in p) + {m};
    var p', reqs' := p + [n], reqs[n := r];
    assert (set q | q in p') == (set q | q in p) + {n};
    assert us + {n} == (set q | q in p') + {m} && reqs'[m] == reqs[m];
    assert forall q :: q in us ==> reqs'[q] == reqs[q];
  }

  lemma {:induction false} HitOk(good: Good, c: Cache, i: int, w: Want)
    requires Ok(good, c) && w.Fits() && w.key in c.cmap && c.cmap[w.key] == i
    requires 0 <= i < |c.entries| && c.entries[i].status == Resident
    ensures Ok(good, DoHit(c, i, w))
  {
    hide EntryOk, EntriesOk, RequestAt;
    var c', r := DoHit(c, i, w), Hit(i, w);
    MappedAt(c.entries, c.cmap, w.key);
    InverseSame(c.entries, c'.entries, c.cmap);
    UsersBelow(good, c);
    EntryAt(good, c, i);
    hide Ok, EntryOk, Inverse;
    HitEntry(good, c.entries[i], c.store[i], c.reqs, i, c.next, w);
    AddOk(good, c, c', r, i);
  }

  lemma {:induction false} JoinOk(good: Good, c: Cache, i: int, w: Want)
    requires Ok(good, c) && w.Fits() && w.key in c.cmap && c.cmap[w.key] == i
    requires 0 <= i < |c.entries| && c.entries[i].status == Fetching
    ensures Ok(good, DoJoin(c, i, w))
  {
    hide EntryOk, EntriesOk, RequestAt;
    var c', r := DoJoin(c, i, w), Pending(i, w, false, false);
    MappedAt(c.entries, c.cmap, w.key);
    InverseSame(c.entries, c'.entries, c.cmap);
    UsersBelow(good, c);
    EntryAt(good, c, i);
    hide Ok, EntryOk, Inverse;
    JoinEntry(good, c.entries[i], c.store[i], c.reqs, i, c.next, w);
    AddOk(good, c, c', r, i);
  }

  // ---- eviction ----

  /** The entry at `i` takes the key `k`; the map forgets the key it had. */
  lemma {:induction false} ClaimInverse(entries: seq<Entry>, cmap: map<Key, int>, i: int, e': Entry)
    requires Inverse(entries, cmap) && NO_KEY !in cmap && 0 <= i < |entries| && e'.status != Empty && e'.key != NO_KEY
    requires entries[i].status == Empty ==> entries[i].key == NO_KEY
    requires e'.key !in cmap
    ensures Inverse(entries[i := e'], (cmap - {entries[i].key})[e'.key := i])
  {
    var es, cm := entries[i := e'], (cmap - {entries[i].key})[e'.key := i];
    forall k | k in cm ensures 0 <= cm[k] < |es| && es[cm[k]].status != Empty && es[cm[k]].key == k {
      if k != e'.key {
        assert k in cmap && cm[k] == cmap[k];
      }
    }
    forall j | 0 <= j < |es| && es[j].status != Empty ensures es[j].key in cm && cm[es[j].key] == j {
      if j != i {
        assert es[j] == entries[j] && entries[j].key in cmap;
      }
    }
  }

  /** Nobody uses the entry: it holds nothing that is still wanted. */
  lemma {:induction false} UnusedEntry(good: Good, e: Entry, content: Bytes, reqs: map<int, Request>, i: int)
    requires EntryOk(good, e, content, reqs, i) && Evictable(e)
    ensures e.refcount == 0 && e.buffer == None && e.pending == [] && Users(reqs, i) == {}
    ensures e.status == Empty || e.status == Resident
    ensures e.status == Empty ==> e.key == NO_KEY
  {
    assert |Users(reqs, i)| == 0 ==> Users(reqs, i) == {};
    assert forall m: int :: m in {m};
  }

  lemma {:induction false} FirstUser(good: Good, e: Entry, content: Bytes, reqs: map<int, Request>, i: int, n: int, r: Request)
    requires EntryOk(good, e, content, reqs, i) && Evictable(e) && n !in reqs && r.chunk == i && r.Pins()
    ensures Users(reqs[n := r], i) == {n} && e.refcount == 0 && e.pending == []
    ensures forall q :: q in reqs && reqs[q].chunk == i ==> reqs[q].Pending? && reqs[q].done
  {
    UnusedEntry(good, e, content, reqs, i);
    UsersAdd(reqs, n, r);
    forall q | q in reqs && reqs[q].chunk == i ensures reqs[q].Pending? && reqs[q].done {
      assert q !in Users(reqs, i);
    }
  }

  lemma {:induction false} FetchEntry(good: Good, e: Entry, content: Bytes, reqs: map<int, Request>, i: int, n: int)
    requires Users(reqs, i) == {n} && e.refcount == 1 && e.pending == [] && e.status == Fetching && e.buffer.Some?
    requires n in reqs && reqs[n].Miss? && !reqs[n].fetched
    ensures EntryOk(good, e, content, reqs, i)
  {
    hide Users;
    assert (set q | q in e.pending) == {};
    assert {n} == (set q | q in e.pending) + {n};
  }

  lemma {:induction false} FillEntry(good: Good, e: Entry, content: Bytes, reqs: map<int, Request>, i: int, n: int)
    requires Users(reqs, i) == {n} && e.refcount == 1 && e.pending == [] && e.status == Filling && e.buffer.Some? && Sound(good, e, e.buffer.value)
    requires n in reqs && (reqs[n].Insert? || (reqs[n].Miss? && reqs[n].fetched))
    ensures EntryOk(good, e, content, reqs, i)
  {
    hide Users;
    assert FillOk(reqs, {n});
  }

  lemma {:induction false} MissOk(good: Good, c: Cache, i: int, w: Want)
    requires Ok(good, c) && w.Fits() && w.key !in c.cmap && w.key != NO_KEY && 0 <= i < |c.entries| && Evictable(c.entries[i])
    ensures Ok(good, DoMiss(c, i, w))
  {
    hide EntryOk, EntriesOk, RequestAt, Inverse, Users;
    var c', r := DoMiss(c, i, w), Miss(i, w, false);
    EntryAt(good, c, i);
    UsersBelow(good, c);
    UnusedEntry(good, c.entries[i], c.store[i], c.reqs, i);
    ClaimInverse(c.entries, c.cmap, i, c'.entries[i]);
    FirstUser(good, c.entries[i], c.store[i], c.reqs, i, c.next, r);
    FetchEntry(good, c'.entries[i], c'.store[i], c'.reqs, i, c.next);
    AddOk(good, c, c', r, i);
  }

  lemma {:induction false} InsertOk(good: Good, c: Cache, i: int, k: Key, data: Bytes)
    requires Ok(good, c) && |data| == CHUNK && good(k, data) && k !in c.cmap && k != NO_KEY && 0 <= i < |c.entries| && Evictable(c.entries[i])
    ensures Ok(good, DoInsert(c, i, k, data))
  {
    hide EntryOk, EntriesOk, RequestAt, Inverse, Users;
    var c', r := DoInsert(c, i, k, data), Insert(i);
    EntryAt(good, c, i);
    UsersBelow(good, c);
    UnusedEntry(good, c.entries[i], c.store[i], c.reqs, i);
    ClaimInverse(c.entries, c.cmap, i, c'.entries[i]);
    FirstUser(good, c.entries[i], c.store[i], c.reqs, i, c.next, r);
    FillEntry(good, c'.entries[i], c'.store[i], c'.reqs, i, c.next);
    AddOk(good, c, c', r, i);
  }

  // ---- completions ----

  /** A request is over: its parent is told, and it goes. */
  function Told(c: Cache, q: int): Cache {
    c.(reqs := c.reqs - {q}, notes := c.notes[q := (if q in c.notes then c.notes[q] else 0) + 1])
  }

  /** A pending read is run: if the fetch has come back already, it is over. */
  function DoRun(c: Cache, q: int): Cache
    requires q in c.reqs && c.reqs[q].Pending?
  {
    if c.reqs[q].done then Told(c, q) else c.(reqs := c.reqs[q := c.reqs[q].(running := true)])
  }

  /** The read from the store is done. */
  function DoHitDone(c: Cache, q: int): Cache
    requires q in c.reqs && c.reqs[q].Hit? && 0 <= c.reqs[q].chunk < |c.entries| == |c.store|
    requires var w := c.reqs[q].want; w.adjust + w.len <= |c.store[c.reqs[q].chunk]|
  {
    var i, w := c.reqs[q].chunk, c.reqs[q].want;
    var e := c.entries[i];
    Told(c, q).(entries := c.entries[i := e.(refcount := e.refcount - 1)], got := c.got[q := Got(c.store[i][w.adjust..w.adjust + w.len], e.sound)])
  }

  /** The write to the store is done. */
  function DoStored(c: Cache, q: int): Cache
    requires q in c.reqs && 0 <= c.reqs[q].chunk < |c.entries| == |c.store| && c.entries[c.reqs[q].chunk].buffer.Some?
  {
    var i := c.reqs[q].chunk;
    var e := c.entries[i];
    c.(reqs := c.reqs - {q}, store := c.store[i := e.buffer.value],
       entries := c.entries[i := e.(status := Resident, buffer := None, refcount := e.refcount - 1)])
  }

  /** `q` is one of the reads `woken`, waiting for the chunk. */
  predicate Waits(c: Cache, woken: seq<int>, q: int) {
    q in woken && q in c.reqs && c.reqs[q].Pending?
  }

  /** The chunk has come back, and the reads `woken` have their bytes; those already run are over. */
  function Wake(c: Cache, i: int, woken: seq<int>, data: Bytes, sound: bool): Cache
    requires 0 <= i < |c.entries|
  {
    var e := c.entries[i];
    c.(entries := c.entries[i := e.(status := Filling, buffer := Some(data), pending := [], refcount := e.refcount - |woken|, sound := sound)],
       reqs := map q | q in c.reqs && !(Waits(c, woken, q) && c.reqs[q].running) ::
                 if Waits(c, woken, q) then c.reqs[q].(done := true) else c.reqs[q],
       notes := map q | q in c.notes :: if Waits(c, woken, q) && c.reqs[q].running then c.notes[q] + 1 else c.notes[q],
       got := map q | q in c.got :: if Waits(c, woken, q) then Got(Cut(data, c.reqs[q].want), sound) else c.got[q])
  }

  function Cut(data: Bytes, w: Want): Bytes {
    if w.adjust + w.len <= |data| then data[w.adjust..w.adjust + w.len] else []
  }

  /** The fetch is done: waiting reads are woken, the parent told, and the write to the store started. */
  function DoFetched(c: Cache, q: int, data: Bytes, sound: bool): Cache
    requires q in c.reqs && c.reqs[q].Miss? && 0 <= c.reqs[q].chunk < |c.entries|
  {
    var i, r := c.reqs[q].chunk, c.reqs[q];
    var d := Wake(c, i, c.entries[i].pending, data, sound);
    d.(reqs := d.reqs[q := r.(fetched := true)], notes := d.notes[q := (if q in d.notes then d.notes[q] else 0) + 1],
       got := d.got[q := Got(Cut(data, r.want), sound)])
  }

  /** A step on chunk `i`, given what it does to the entry, the map and the requests. */
  lemma {:induction false} StepOk(good: Good, c: Cache, c': Cache, i: int)
    requires Ok(good, c) && 0 <= i < |c.entries| && OnlyChunk(c.entries, c'.entries, c.store, c'.store, c.reqs, c'.reqs, i)
    requires EntryOk(good, c'.entries[i], c'.store[i], c'.reqs, i) && c'.next == c.next
    requires c'.cmap == c.cmap && c'.entries[i].key == c.entries[i].key && c'.entries[i].status != Empty && c.entries[i].status != Empty
    requires forall q :: RequestAt(good, c', q)
    ensures Ok(good, c')
  {
    hide EntryOk, RequestAt, EntriesOk;
    assert Inverse(c'.entries, c'.cmap);
    hide Inverse;
    EntriesStep(good, c.entries, c'.entries, c.store, c'.store, c.reqs, c'.reqs, i);
  }

  lemma {:induction false} RequestIs(good: Good, c: Cache, q: int)
    requires Ok(good, c) && q in c.reqs
    ensures 0 <= q < c.next && q in c.notes && q in c.got
    ensures RequestOk(good, c.entries, c.reqs[q], c.notes[q], c.got[q]) && Wanted(c, q)
  {
    hide EntriesOk, Inverse, RequestOk;
    assert RequestAt(good, c, q);
  }

  lemma {:induction false} ChangedElsewhere(c: Cache, c': Cache, q: int, i: int)
    requires q in c.reqs && c.reqs[q].chunk == i && (c'.reqs == c.reqs - {q} || (exists r: Request :: r.chunk == i && c'.reqs == c.reqs[q := r]))
    ensures SameElsewhere(c.reqs, c'.reqs, i)
  {
  }

  /** Requests other than `q` are as before when the chunk of `q` keeps its key and status. */
  lemma {:induction false} OthersAt(good: Good, c: Cache, c': Cache, q: int)
    requires Ok(good, c) && c'.next == c.next && |c'.entries| == |c.entries| && forall p :: p != q ==> SameAt(c, c', p)
    requires forall j :: 0 <= j < |c.entries| ==> SameKind(c.entries[j], c'.entries[j])
    requires RequestAt(good, c', q)
    ensures forall p :: RequestAt(good, c', p)
  {
    hide EntriesOk, Inverse, RequestOk, Over, SameAt;
    forall p ensures RequestAt(good, c', p) {
      if p != q {
        assert RequestAt(good, c, p) && SameAt(c, c', p);
        OtherAt(good, c, c', p);
      }
    }
  }

  lemma {:induction false} RunEntry(good: Good, c: Cache, q: int)
    requires Ok(good, c) && q in c.reqs && c.reqs[q].Pending? && !c.reqs[q].running
    ensures var i := c.reqs[q].chunk;
            0 <= i < |c.entries| == |c.store| && EntryOk(good, c.entries[i], c.store[i], DoRun(c, q).reqs, i)
  {
    RequestIs(good, c, q);
    var i := c.reqs[q].chunk;
    assert 0 <= i < |c.entries|;
    hide RequestOk;
    EntryAt(good, c, i);
    hide Ok, EntryOk, Users;
    RunUsers(c, q);
    SameUsers(good, c.entries[i], c.store[i], c.reqs, DoRun(c, q).reqs, i);
  }

  lemma {:induction false} RunUsers(c: Cache, q: int)
    requires q in c.reqs && c.reqs[q].Pending?
    ensures var reqs', i := DoRun(c, q).reqs, c.reqs[q].chunk;
            && Users(reqs', i) == Users(c.reqs, i)
            && forall p :: p in Users(c.reqs, i) ==> p in reqs' && (reqs'[p] == c.reqs[p] || (c.reqs[p].Pending? && reqs'[p].Pending?))
  {
    var reqs', i := DoRun(c, q).reqs, c.reqs[q].chunk;
    assert forall p :: p in Users(reqs', i) <==> p in Users(c.reqs, i);
  }

  /** An entry depends on who uses it, and on how. */
  lemma {:induction false} SameUsers(good: Good, e: Entry, content: Bytes, reqs: map<int, Request>, reqs': map<int, Request>, i: int)
    requires EntryOk(good, e, content, reqs, i) && Users(reqs', i) == Users(reqs, i)
    requires forall p :: p in Users(reqs, i) ==> reqs'[p] == reqs[p] || (reqs[p].Pending? && reqs'[p].Pending?)
    ensures EntryOk(good, e, content, reqs', i)
  {
    InReqs(reqs, i);
    InReqs(reqs', i);
    var us := Users(reqs, i);
    hide Users;
    if e.status == Fetching {
      var m :| m in us && reqs[m].Miss? && !reqs[m].fetched && us == (set r | r in e.pending) + {m};
      assert reqs'[m] == reqs[m];
      assert FetchOk(e, reqs', us);
    } else if e.status == Filling {
      var m :| us == {m} && (reqs[m].Insert? || (reqs[m].Miss? && reqs[m].fetched));
      assert m in us && reqs'[m] == reqs[m];
      assert FillOk(reqs', us);
    }
  }

  /** Run and fetch may come in either order: the read is over, and told, with the second of them. */
  lemma {:induction false} RunOk(good: Good, c: Cache, q: int)
    requires Ok(good, c) && q in c.reqs && c.reqs[q].Pending? && !c.reqs[q].running
    ensures Ok(good, DoRun(c, q))
  {
    hide EntryOk, EntriesOk, Inverse, Users;
    var c', i := DoRun(c, q), c.reqs[q].chunk;
    RequestIs(good, c, q);
    RunEntry(good, c, q);
    OthersAt(good, c, c', q);
    hide Ok, RequestAt;
    assert SameElsewhere(c.reqs, c'.reqs, i);
    RunKeeps(good, c, c', i);
  }

  /** A step that changes nothing but requests on chunk `i`. */
  lemma {:induction false} RunKeeps(good: Good, c: Cache, c': Cache, i: int)
    requires Ok(good, c) && c'.entries == c.entries && c'.store == c.store && c'.cmap == c.cmap && c'.next == c.next
    requires SameElsewhere(c.reqs, c'.reqs, i) && 0 <= i < |c.entries| == |c.store|
    requires EntryOk(good, c.entries[i], c.store[i], c'.reqs, i) && forall p :: RequestAt(good, c', p)
    ensures Ok(good, c')
  {
    hide EntryOk, RequestAt, Inverse, SameElsewhere, EntriesOk;
    SimilarRefl(c.entries);
    EntriesStep(good, c.entries, c'.entries, c.store, c'.store, c.reqs, c'.reqs, i);
  }

  /** Without its user, a resident entry is as good as before. */
  lemma {:induction false} HitDoneEntry(good: Good, e: Entry, content: Bytes, reqs: map<int, Request>, i: int, q: int)
    requires EntryOk(good, e, content, reqs, i) && e.status == Resident && q in reqs && reqs[q].chunk == i && reqs[q].Hit?
    ensures EntryOk(good, e.(refcount := e.refcount - 1), content, reqs - {q}, i)
  {
    UsersRemove(reqs, q);
  }

  /** A hit delivers the bytes of the chunk from the store. */
  lemma {:induction false} HitDoneOk(good: Good, c: Cache, q: int)
    requires Ok(good, c) && q in c.reqs && c.reqs[q].Hit?
    ensures var i, w := c.reqs[q].chunk, c.reqs[q].want;
            0 <= i < |c.entries| == |c.store| && w.adjust + w.len <= |c.store[i]| && Ok(good, DoHitDone(c, q))
  {
    hide EntriesOk, Inverse, Users, RequestAt;
    RequestIs(good, c, q);
    var i, w := c.reqs[q].chunk, c.reqs[q].want;
    EntryAt(good, c, i);
    assert Sound(good, c.entries[i], c.store[i]);
    HitServed(good, c.entries[i], c.store[i], w);
    hide EntryOk;
    HitDoneEntry(good, c.entries[i], c.store[i], c.reqs, i, q);
    var c' := DoHitDone(c, q);
    ChangedElsewhere(c, c', q, i);
    DoneAt(good, c, c', q);
    OthersAt(good, c, c', q);
    hide SameElsewhere, RequestOk;
    StepOk(good, c, c', i);
  }

  lemma {:induction false} HitServed(good: Good, e: Entry, data: Bytes, w: Want)
    requires Sound(good, e, data) && w.Fits() && w.key == e.key
    ensures |data| == CHUNK && Served(good, w, Got(data[w.adjust..w.adjust + w.len], e.sound))
  {
    assert w.Of(data) == data[w.adjust..w.adjust + w.len];
  }

  lemma {:induction false} CutServed(good: Good, k: Key, data: Bytes, sound: bool, w: Want)
    requires |data| == CHUNK && (sound ==> good(k, data)) && w.Fits() && w.key == k
    ensures Served(good, w, Got(Cut(data, w), sound))
  {
    assert w.Of(data) == Cut(data, w);
  }

  /** A request that goes, told once and with its bytes, is over. */
  lemma {:induction false} DoneAt(good: Good, c: Cache, c': Cache, q: int)
    requires Ok(good, c) && q in c.reqs && q !in c'.reqs && c'.wants == c.wants && c'.next == c.next
    requires !c.reqs[q].Insert? ==> q in c'.notes && q in c'.got && Over(good, c.reqs[q].want, c'.notes[q], c'.got[q])
    ensures RequestAt(good, c', q)
  {
    RequestIs(good, c, q);
  }

  lemma {:induction false} StoredEntry(good: Good, e: Entry, content: Bytes, reqs: map<int, Request>, i: int, q: int)
    requires EntryOk(good, e, content, reqs, i) && e.status == Filling && q in reqs && reqs[q].chunk == i && reqs[q].Pins()
    ensures e.buffer.Some? && Users(reqs, i) == {q}
    ensures EntryOk(good, e.(status := Resident, buffer := None, refcount := e.refcount - 1), e.buffer.value, reqs - {q}, i)
  {
    UsersRemove(reqs, q);
    var m :| Users(reqs, i) == {m};
    assert q in {m};
  }

  lemma {:induction false} StoredOk(good: Good, c: Cache, q: int)
    requires Ok(good, c) && q in c.reqs && (c.reqs[q].Insert? || (c.reqs[q].Miss? && c.reqs[q].fetched))
    ensures var i := c.reqs[q].chunk;
            0 <= i < |c.entries| == |c.store| && c.entries[i].buffer.Some? && Ok(good, DoStored(c, q))
  {
    hide EntriesOk, Inverse, RequestAt, EntryOk;
    RequestIs(good, c, q);
    var i := c.reqs[q].chunk;
    EntryAt(good, c, i);
    StoredEntry(good, c.entries[i], c.store[i], c.reqs, i, q);
    var c' := DoStored(c, q);
    ChangedElsewhere(c, c', q, i);
    DoneAt(good, c, c', q);
    forall p ensures RequestAt(good, c', p) {
      if p != q {
        assert RequestAt(good, c, p) && SameAt(c, c', p);
        LonelyFill(good, c, i, q, p);
        OtherAt(good, c, c', p);
      }
    }
    hide SameElsewhere, RequestOk, Users;
    StepOk(good, c, c', i);
  }

  /** While a chunk is being filled, the only other requests on it are woken reads. */
  lemma {:induction false} LonelyFill(good: Good, c: Cache, i: int, q: int, p: int)
    requires Users(c.reqs, i) == {q} && p != q
    ensures p in c.reqs && c.reqs[p].chunk == i ==> c.reqs[p].Pending? && c.reqs[p].done
  {
    assert p !in Users(c.reqs, i);
  }

  lemma {:induction false} SetSize(xs: seq<int>)
    requires forall i, j :: 0 <= i < j < |xs| ==> xs[i] != xs[j]
    ensures |set x | x in xs| == |xs|
  {
    if xs != [] {
      var k := |xs| - 1;
      SetSize(xs[..k]);
      var front := xs[..k];
      assert (set x | x in xs) == (set x | x in front) + {xs[k]};
    }
  }

  /** A fetch under way: its request, and the reads waiting for it. */
  lemma {:induction false} FetchUsers(good: Good, e: Entry, content: Bytes, reqs: map<int, Request>, i: int, q: int)
    requires EntryOk(good, e, content, reqs, i) && e.status == Fetching && q in reqs && reqs[q].chunk == i && reqs[q].Miss?
    ensures Users(reqs, i) == (set r | r in e.pending) + {q} && q !in e.pending && e.refcount == |e.pending| + 1
    ensures forall r :: r in e.pending ==> r in reqs && reqs[r].chunk == i && reqs[r].Pending? && !reqs[r].done
  {
    var us := Users(reqs, i);
    assert q in us;
    assert forall r :: r in e.pending ==> r in us && reqs[r].Pending?;
    var m :| m in us && reqs[m].Miss? && us == (set r | r in e.pending) + {m};
    assert q == m;
    SetSize(e.pending);
  }

  lemma {:induction false} WokenUsers(c: Cache, i: int, q: int, data: Bytes, sound: bool)
    requires 0 <= i < |c.entries| && q in c.reqs && c.reqs[q].chunk == i && c.reqs[q].Miss?
    requires Users(c.reqs, i) == (set r | r in c.entries[i].pending) + {q}
    requires forall r :: r in c.entries[i].pending ==> r in c.reqs && c.reqs[r].chunk == i && c.reqs[r].Pending?
    ensures Users(DoFetched(c, q, data, sound).reqs, i) == {q} && SameElsewhere(c.reqs, DoFetched(c, q, data, sound).reqs, i)
  {
    var reqs' := DoFetched(c, q, data, sound).reqs;
    forall r | r != q ensures r !in Users(reqs', i) {
      assert r in Users(c.reqs, i) <==> r in c.entries[i].pending;
      assert r in c.entries[i].pending <==> Waits(c, c.entries[i].pending, r);
    }
    assert q in Users(reqs', i);
    assert Users(reqs', i) == {q};
  }

  /** A woken read has the bytes it wanted; if it has been run already it is over. */
  lemma {:induction false} WokenAt(good: Good, c: Cache, q: int, p: int, data: Bytes, sound: bool)
    requires Ok(good, c) && q in c.reqs && c.reqs[q].Miss? && 0 <= c.reqs[q].chunk < |c.entries|
    requires p != q && Waits(c, c.entries[c.reqs[q].chunk].pending, p) && !c.reqs[p].done
    requires c.reqs[p].chunk == c.reqs[q].chunk && |data| == CHUNK && (sound ==> good(c.entries[c.reqs[q].chunk].key, data))
    ensures RequestAt(good, DoFetched(c, q, data, sound), p)
  {
    hide EntriesOk, Inverse;
    RequestIs(good, c, p);
    CutServed(good, c.entries[c.reqs[q].chunk].key, data, sound, c.reqs[p].want);
    hide Ok, Served, Cut;
  }

  lemma {:induction false} MissAt(good: Good, c: Cache, q: int, data: Bytes, sound: bool)
    requires Ok(good, c) && q in c.reqs && c.reqs[q].Miss? && !c.reqs[q].fetched && 0 <= c.reqs[q].chunk < |c.entries|
    requires q !in c.entries[c.reqs[q].chunk].pending && |data| == CHUNK && (sound ==> good(c.entries[c.reqs[q].chunk].key, data))
    ensures RequestAt(good, DoFetched(c, q, data, sound), q)
  {
    hide EntriesOk, Inverse;
    RequestIs(good, c, q);
    CutServed(good, c.entries[c.reqs[q].chunk].key, data, sound, c.reqs[q].want);
    hide Ok, Served, Cut;
  }

  /** When the fetch comes back every waiting read gets its bytes, and each is told once. */
  lemma {:induction false} FetchedOk(good: Good, c: Cache, q: int, data: Bytes, sound: bool)
    requires Ok(good, c) && q in c.reqs && c.reqs[q].Miss? && !c.reqs[q].fetched && |data| == CHUNK
    requires 0 <= c.reqs[q].chunk < |c.entries| && (sound ==> good(c.entries[c.reqs[q].chunk].key, data))
    ensures var i := c.reqs[q].chunk;
            0 <= i < |c.entries| && Ok(good, DoFetched(c, q, data, sound))
  {
    hide EntriesOk, Inverse, EntryOk, Users, Over;
    RequestIs(good, c, q);
    var i := c.reqs[q].chunk;
    EntryAt(good, c, i);
    var e := c.entries[i];
    FetchUsers(good, e, c.store[i], c.reqs, i, q);
    var c' := DoFetched(c, q, data, sound);
    WokenUsers(c, i, q, data, sound);
    FillEntry(good, c'.entries[i], c'.store[i], c'.reqs, i, q);
    MissAt(good, c, q, data, sound);
    hide RequestOk, SameElsewhere;
    forall p ensures RequestAt(good, c', p) {
      if p in e.pending {
        WokenAt(good, c, q, p, data, sound);
      } else if p != q {
        FetchedOther(good, c, q, p, data, sound);
      }
    }
    assert OnlyChunk(c.entries, c'.entries, c.store, c'.store, c.reqs, c'.reqs, i);
    hide RequestAt, DoFetched;
    StepOk(good, c, c', i);
  }

  lemma {:induction false} FetchedOther(good: Good, c: Cache, q: int, p: int, data: Bytes, sound: bool)
    requires Ok(good, c) && q in c.reqs && c.reqs[q].Miss? && 0 <= c.reqs[q].chunk < |c.entries|
    requires var i := c.reqs[q].chunk; p != q && p !in c.entries[i].pending && Users(c.reqs, i) == (set r | r in c.entries[i].pending) + {q}
    ensures RequestAt(good, DoFetched(c, q, data, sound), p)
  {
    hide EntriesOk, Inverse, RequestOk, Over;
    var i := c.reqs[q].chunk;
    var c' := DoFetched(c, q, data, sound);
    assert RequestAt(good, c, p) && SameAt(c, c', p);
    assert p !in Users(c.reqs, i);
    OtherAt(good, c, c', p);
  }

  // ---- the clock ----

  predicate Evictable(e: Entry) {
    e.status == Empty || e.refcount == 0
  }

  /** Where the hand is after `steps` steps from `c`. */
  function Hand(c: int, steps: int, size: int): int {
    var s := c + steps;
    if s < size then s else if s < 2 * size then s - size else s - 2 * size
  }

  /** Steps until the hand first reaches `w`. */
  function Reach(c: int, w: int, size: int): int {
    if c <= w then w - c else w - c + size
  }

  /** Entries as the hand leaves them: accessed bits may be cleared, on entries nobody uses. */
  ghost predicate Swept(entries: seq<Entry>, entries': seq<Entry>) {
    |entries'| == |entries| && forall i :: 0 <= i < |entries| ==>
      Similar(entries[i], entries'[i]) && (entries'[i] == entries[i] || (entries[i].refcount == 0 && !entries'[i].accessed))
  }

  lemma {:induction false} HandNext(c: int, steps: nat, size: int)
    requires 0 <= c < size && steps + 1 < 2 * size
    ensures 0 <= Hand(c, steps, size) < size && (Hand(c, steps, size) + 1) % size == Hand(c, steps + 1, size)
  {
  }

  /** The hand goes round: each chunk is reached in the first round and again a round later, and in between not. */
  lemma {:induction false} HandReaches(c: int, w: int, size: int)
    requires 0 <= c < size && 0 <= w < size
    ensures var t := Reach(c, w, size); 0 <= t < size && Hand(c, t, size) == w && Hand(c, t + size, size) == w
    ensures forall s :: 0 <= s <= Reach(c, w, size) + size && Hand(c, s, size) == w ==> s == Reach(c, w, size) || s == Reach(c, w, size) + size
  {
  }

  lemma {:induction false} HandIs(c: int, s: int, size: int)
    requires 0 <= c < size && 0 <= s < 2 * size
    ensures Hand(c, s, size) == (c + s) % size
  {
    Modulo(c + s, size);
  }

  lemma {:induction false} Modulo(x: int, size: int)
    requires 0 < size && 0 <= x < 3 * size
    ensures x % size == if x < size then x else if x < 2 * size then x - size else x - 2 * size
  {
    var q := x / size;
    assert x == q * size + x % size;
    assert q < 0 ==> q * size <= -size;
    assert 2 < q ==> 3 * size <= q * size;
  }

  /** Steps until the hand first reaches `w`. */
  lemma {:induction false} ReachIs(c: int, w: int, size: int)
    requires 0 <= c < size && 0 <= w < size
    ensures Reach(c, w, size) == (w + size - c) % size
  {
    Modulo(w + size - c, size);
  }

  /** The chunks as they are when the hand has gone `steps` steps: exactly those it passed that are occupied and unused
      have their bit cleared. */
  ghost predicate Passed(entries: seq<Entry>, now: seq<Entry>, c: int, steps: int) {
    |now| == |entries| && forall i :: 0 <= i < |entries| ==>
      now[i] == if Reach(c, i, |entries|) < steps && entries[i].refcount == 0 then entries[i].(accessed := false) else entries[i]
  }

  /** How many chunks the hand, starting at `c`, comes to before `i`. */
  function Before(c: int, i: int, size: int): int
    requires 0 < size
  {
    (i + size - c) % size
  }

  /** Clearing bits as it goes, the hand stops at the first chunk that is empty, or unused and not accessed; if there is
      none, then in its second round at the first that is unused. Exactly the unused chunks it passed have lost their bit. */
  ghost predicate SecondChance(entries: seq<Entry>, now: seq<Entry>, c: int, found: int, steps: int) {
    var size := |entries|;
    && |now| == size && 0 <= found < size && found == (c + steps) % size
    && (if steps < size then entries[found].status == Empty || (entries[found].refcount == 0 && !entries[found].accessed)
        else entries[found].refcount == 0)
    && (forall i :: 0 <= i < size && Before(c, i, size) < steps ==>
          entries[i].status != Empty && (entries[i].refcount == 0 ==> entries[i].accessed))
    && (forall i :: 0 <= i < size && Before(c, i, size) + size < steps ==> entries[i].refcount != 0)
    && (forall i :: 0 <= i < size ==>
          now[i] == if Before(c, i, size) < steps && entries[i].refcount == 0 then entries[i].(accessed := false) else entries[i])
  }

  lemma {:induction false} SecondChanceNow(entries: seq<Entry>, now: seq<Entry>, c: int, steps: nat)
    requires 0 <= c < |entries| && steps < 2 * |entries| && Passed(entries, now, c, steps) && NoneYet(entries, c, steps)
    requires Free(now[Hand(c, steps, |entries|)])
    ensures SecondChance(entries, now, c, Hand(c, steps, |entries|), steps)
  {
    var size := |entries|;
    var h := Hand(c, steps, size);
    HandIs(c, steps, size);
    HandReaches(c, h, size);
    forall i | 0 <= i < size ensures Reach(c, i, size) == Before(c, i, size) {
      ReachIs(c, i, size);
    }
    assert Reach(c, h, size) == if steps < size then steps else steps - size;
  }

  /** So a chunk in use is never taken, and one read since the hand last came by only if no other can be. */
  lemma {:induction false} ReadSurvives(entries: seq<Entry>, now: seq<Entry>, c: int, found: int, steps: nat, i: int)
    requires SecondChance(entries, now, c, found, steps) && steps < 2 * |entries| && 0 <= i < |entries| && entries[i].status != Empty
    ensures entries[i].refcount != 0 ==> found != i && now[i] == entries[i]
    ensures entries[i].accessed && (exists j :: 0 <= j < |entries| && entries[j].refcount == 0 && !entries[j].accessed) ==> found != i
  {
    assert forall j :: 0 <= j < |entries| ==> Before(c, j, |entries|) < |entries|;
  }

  /** Why the hand has gone on so far: in the first round nothing was free, and in the second nothing unused. */
  ghost predicate NoneYet(entries: seq<Entry>, c: int, steps: int) {
    && (forall i :: 0 <= i < |entries| && Reach(c, i, |entries|) < steps ==> !Free(entries[i]))
    && (forall i :: 0 <= i < |entries| && Reach(c, i, |entries|) + |entries| < steps ==> !Evictable(entries[i]))
  }

  lemma {:induction false} PassedNext(entries: seq<Entry>, now: seq<Entry>, c: int, steps: nat)
    requires 0 <= c < |entries| && steps < 2 * |entries| && Passed(entries, now, c, steps) && NoneYet(entries, c, steps)
    requires !Free(now[Hand(c, steps, |entries|)])
    ensures var h := Hand(c, steps, |entries|);
            && Passed(entries, if now[h].refcount == 0 then now[h := now[h].(accessed := false)] else now, c, steps + 1)
            && NoneYet(entries, c, steps + 1)
  {
    var size := |entries|;
    var h := Hand(c, steps, size);
    var next := if now[h].refcount == 0 then now[h := now[h].(accessed := false)] else now;
    forall i | 0 <= i < size
      ensures next[i] == if Reach(c, i, size) < steps + 1 && entries[i].refcount == 0 then entries[i].(accessed := false) else entries[i]
      ensures Reach(c, i, size) < steps + 1 ==> !Free(entries[i])
      ensures Reach(c, i, size) + size < steps + 1 ==> !Evictable(entries[i])
    {
      HandReaches(c, i, size);
    }
  }

  lemma {:induction false} PassedSwept(entries: seq<Entry>, now: seq<Entry>, c: int, steps: int)
    requires Passed(entries, now, c, steps)
    ensures Swept(entries, now)
  {
  }

  lemma {:induction false} PassedNone(entries: seq<Entry>, c: int)
    requires 0 <= c < |entries|
    ensures Passed(entries, entries, c, 0) && NoneYet(entries, c, 0) && Hand(c, 0, |entries|) == c
  {
  }

  /** When the hand comes to an unused chunk for the second time, it stops. */
  lemma {:induction false} HandStops(entries: seq<Entry>, now: seq<Entry>, c: int, w: int, steps: nat)
    requires 0 <= c < |entries| && 0 <= w < |entries| && Evictable(entries[w]) && Passed(entries, now, c, steps)
    requires steps <= Reach(c, w, |entries|) + |entries| && 0 <= Hand(c, steps, |entries|) < |entries| && !Free(now[Hand(c, steps, |entries|)])
    ensures steps < Reach(c, w, |entries|) + |entries| < 2 * |entries|
  {
    HandReaches(c, w, |entries|);
  }

  predicate Free(e: Entry) {
    e.status == Empty || (e.refcount == 0 && !e.accessed)
  }

  // ---- runs ----

  datatype Event =
    | ReadHit(i: int, w: Want)
    | ReadFilling(i: int)
    | ReadJoin(i: int, w: Want)
    | ReadMiss(swept: seq<Entry>, i: int, w: Want)
    | InsertObject(swept: seq<Entry>, i: int, k: Key, data: Bytes)
    | Run(q: int)
    | HitDone(q: int)
    | Fetched(q: int, data: Bytes, sound: bool)
    | Written(q: int)

  /** What may happen. A key that is inserted must not be in the cache. A fetch is sound if it found the object; if not,
      its data can be anything. */
  ghost predicate Enabled(good: Good, c: Cache, ev: Event) {
    match ev
    case ReadHit(i, w) => w.Fits() && w.key in c.cmap && c.cmap[w.key] == i && 0 <= i < |c.entries| && c.entries[i].status == Resident
    case ReadFilling(i) => 0 <= i < |c.entries|
    case ReadJoin(i, w) => w.Fits() && w.key in c.cmap && c.cmap[w.key] == i && 0 <= i < |c.entries| && c.entries[i].status == Fetching
    case ReadMiss(swept, i, w) =>
      w.Fits() && w.key !in c.cmap && w.key != NO_KEY && Swept(c.entries, swept) && 0 <= i < |swept| && Free(swept[i])
    case InsertObject(swept, i, k, data) =>
      |data| == CHUNK && good(k, data) && k !in c.cmap && k != NO_KEY && Swept(c.entries, swept) && 0 <= i < |swept| && Free(swept[i])
    case Run(q) => q in c.reqs && c.reqs[q].Pending? && !c.reqs[q].running
    case HitDone(q) =>
      && q in c.reqs && c.reqs[q].Hit? && 0 <= c.reqs[q].chunk < |c.entries| == |c.store|
      && var w := c.reqs[q].want; w.adjust + w.len <= |c.store[c.reqs[q].chunk]|
    case Fetched(q, data, sound) =>
      && q in c.reqs && c.reqs[q].Miss? && !c.reqs[q].fetched && 0 <= c.reqs[q].chunk < |c.entries|
      && |data| == CHUNK && (sound ==> good(c.entries[c.reqs[q].chunk].key, data))
    case Written(q) =>
      && q in c.reqs && (c.reqs[q].Insert? || (c.reqs[q].Miss? && c.reqs[q].fetched))
      && 0 <= c.reqs[q].chunk < |c.entries| == |c.store| && c.entries[c.reqs[q].chunk].buffer.Some?
  }

  ghost function Apply(good: Good, c: Cache, ev: Event): Cache
    requires Enabled(good, c, ev)
  {
    match ev
    case ReadHit(i, w) => DoHit(c, i, w)
    case ReadFilling(i) => c.(entries := c.entries[i := c.entries[i].(accessed := true)])
    case ReadJoin(i, w) => DoJoin(c, i, w)
    case ReadMiss(swept, i, w) => DoMiss(c.(entries := swept), i, w)
    case InsertObject(swept, i, k, data) => DoInsert(c.(entries := swept), i, k, data)
    case Run(q) => DoRun(c, q)
    case HitDone(q) => DoHitDone(c, q)
    case Fetched(q, data, sound) => DoFetched(c, q, data, sound)
    case Written(q) => DoStored(c, q)
  }

  /** Accessed bits do not matter to anybody but the hand. */
  lemma {:induction false} SweptOk(good: Good, c: Cache, entries: seq<Entry>)
    requires Ok(good, c) && |entries| == |c.entries| && forall i :: 0 <= i < |entries| ==> Similar(c.entries[i], entries[i])
    ensures Ok(good, c.(entries := entries))
  {
    hide EntryOk, RequestOk, Over;
    var c' := c.(entries := entries);
    forall i | 0 <= i < |entries| ensures EntryOk(good, entries[i], c.store[i], c.reqs, i) {
      SimilarOk(good, c.entries[i], entries[i], c.store[i], c.reqs, i);
    }
    assert forall i :: 0 <= i < |entries| ==> SameKind(c.entries[i], entries[i]);
    InverseSame(c.entries, entries, c.cmap);
    forall q ensures RequestAt(good, c', q) {
      assert RequestAt(good, c, q) && SameAt(c, c', q);
      OtherAt(good, c, c', q);
    }
  }

  /** Whatever happens, the cache stays in order. */
  lemma {:induction false} EventOk(good: Good, c: Cache, ev: Event)
    requires Ok(good, c) && Enabled(good, c, ev)
    ensures Ok(good, Apply(good, c, ev))
  {
    hide Ok;
    match ev
    case ReadHit(i, w) => HitOk(good, c, i, w);
    case ReadFilling(i) => SweptOk(good, c, c.entries[i := c.entries[i].(accessed := true)]);
    case ReadJoin(i, w) => JoinOk(good, c, i, w);
    case ReadMiss(swept, i, w) => SweptOk(good, c, swept); MissOk(good, c.(entries := swept), i, w);
    case InsertObject(swept, i, k, data) => SweptOk(good, c, swept); InsertOk(good, c.(entries := swept), i, k, data);
    case Run(q) => RunOk(good, c, q);
    case HitDone(q) => HitDoneOk(good, c, q);
    case Fetched(q, data, sound) => FetchedOk(good, c, q, data, sound);
    case Written(q) => StoredOk(good, c, q);
  }

  ghost predicate CacheRun(good: Good, c: Cache, evs: seq<Event>, d: Cache)
    decreases |evs|
  {
    if evs == [] then c == d else Enabled(good, c, evs[0]) && CacheRun(good, Apply(good, c, evs[0]), evs[1..], d)
  }

  function Start(size: nat, store: seq<Bytes>): Cache {
    Cache(seq(size, _ => FRESH), map[], store, map[], 0, map[], map[], map[])
  }

  lemma {:induction false} StartOk(good: Good, size: nat, store: seq<Bytes>)
    requires |store| == size
    ensures Ok(good, Start(size, store))
  {
    var c := Start(size, store);
    forall i ensures Users(c.reqs, i) == {} {
    }
  }

  lemma {:induction false} CacheRunOk(good: Good, c: Cache, evs: seq<Event>, d: Cache)
    requires Ok(good, c) && CacheRun(good, c, evs, d)
    ensures Ok(good, d)
    decreases |evs|
  {
    hide Ok, Enabled;
    if evs != [] {
      EventOk(good, c, evs[0]);
      CacheRunOk(good, Apply(good, c, evs[0]), evs[1..], d);
    }
  }

  /** In every state a run reaches: counts are exact, unused chunks hold nothing back, and the map is the inverse of the entries. */
  lemma {:induction false} CacheAgrees(good: Good, size: nat, store: seq<Bytes>, evs: seq<Event>, d: Cache, i: int)
    requires |store| == size && CacheRun(good, Start(size, store), evs, d) && 0 <= i < |d.entries|
    ensures var e := d.entries[i];
            && e.refcount == |Users(d.reqs, i)|
            && (e.refcount == 0 ==> e.buffer == None && e.pending == [])
            && (e.status == Resident ==> i < |d.store| && Sound(good, e, d.store[i]))
            && (e.status != Empty ==> e.key in d.cmap && d.cmap[e.key] == i)
    ensures forall k :: k in d.cmap ==> 0 <= d.cmap[k] < |d.entries| && d.entries[d.cmap[k]].key == k
  {
    StartOk(good, size, store);
    CacheRunOk(good, Start(size, store), evs, d);
    EntryAt(good, d, i);
    if d.entries[i].refcount == 0 {
      UnusedEntry(good, d.entries[i], d.store[i], d.reqs, i);
    }
  }

  /** In every state a run reaches: a read is told at most once, with bytes of its chunk, and not before it has been run
      and the chunk is there; it is over when it has been told, so no notification is lost. */
  lemma {:induction false} ToldOnce(good: Good, size: nat, store: seq<Bytes>, evs: seq<Event>, d: Cache, q: int)
    requires |store| == size && CacheRun(good, Start(size, store), evs, d) && q in d.wants
    ensures q in d.notes && q in d.got && d.notes[q] <= 1
    ensures d.notes[q] == 1 ==> Served(good, d.wants[q], d.got[q])
    ensures q !in d.reqs ==> d.notes[q] == 1
    ensures q in d.reqs && d.reqs[q].Pending? ==> d.notes[q] == 0 && !(d.reqs[q].running && d.reqs[q].done)
  {
    StartOk(good, size, store);
    CacheRunOk(good, Start(size, store), evs, d);
    hide CacheRun, EntriesOk, Inverse, Served;
    assert RequestAt(good, d, q);
  }

  /** A chunk in the store stays there, with what it holds, until the hand takes it, and that it does only when nobody uses
      the chunk. So no key is fetched again while it is there. */
  lemma {:induction false} StaysCached(good: Good, c: Cache, ev: Event, k: Key)
    requires Ok(good, c) && Enabled(good, c, ev) && k in c.cmap && 0 <= c.cmap[k] < |c.entries| && c.entries[c.cmap[k]].status == Resident
    ensures var i, d := c.cmap[k], Apply(good, c, ev);
            || ((ev.ReadMiss? || ev.InsertObject?) && ev.i == i && c.entries[i].refcount == 0)
            || (CachedAt(d, k, i) && i < |c.store| && i < |d.store| && d.store[i] == c.store[i])
    ensures ev.ReadMiss? ==> ev.w.key != k
  {
    hide Ok, Enabled, Apply, CachedAt;
    if ev.ReadMiss? || ev.InsertObject? {
      TakenOrNot(good, c, ev, k);
    } else {
      OthersStay(good, c, ev, k);
    }
  }

  lemma {:induction false} CachedFacts(good: Good, c: Cache, k: Key)
    requires Ok(good, c) && k in c.cmap
    ensures 0 <= c.cmap[k] < |c.entries| == |c.store| && c.entries[c.cmap[k]].key == k
  {
    hide RequestAt, EntryOk;
    MappedAt(c.entries, c.cmap, k);
    EntryAt(good, c, c.cmap[k]);
  }

  lemma {:induction false} TakenOrNot(good: Good, c: Cache, ev: Event, k: Key)
    requires Ok(good, c) && Enabled(good, c, ev) && (ev.ReadMiss? || ev.InsertObject?)
    requires k in c.cmap && 0 <= c.cmap[k] < |c.entries| && c.entries[c.cmap[k]].status == Resident
    ensures var i, d := c.cmap[k], Apply(good, c, ev);
            (ev.i == i && c.entries[i].refcount == 0) || (CachedAt(d, k, i) && i < |c.store| && d.store == c.store)
    ensures ev.ReadMiss? ==> ev.w.key != k
  {
    hide Ok, Swept, Claimed, Free;
    CachedFacts(good, c, k);
    match ev
    case ReadMiss(swept, j, w) => EvictOther(good, c, swept, j, k, w.key);
    case InsertObject(swept, j, key, _) => EvictOther(good, c, swept, j, k, key);
  }

  lemma {:induction false} OthersStay(good: Good, c: Cache, ev: Event, k: Key)
    requires Ok(good, c) && Enabled(good, c, ev) && !ev.ReadMiss? && !ev.InsertObject?
    requires k in c.cmap && 0 <= c.cmap[k] < |c.entries| && c.entries[c.cmap[k]].status == Resident
    ensures var i, d := c.cmap[k], Apply(good, c, ev); CachedAt(d, k, i) && i < |c.store| && i < |d.store| && d.store[i] == c.store[i]
  {
    hide Ok, Waits, Cut;
    CachedFacts(good, c, k);
    match ev
    case Fetched(q, _, _) => BusyChunk(good, c, q);
    case Written(q) => BusyChunk(good, c, q);
    case _ =>
  }

  lemma {:induction false} OtherKey(good: Good, c: Cache, j: int, k: Key)
    requires Ok(good, c) && k in c.cmap && 0 <= j < |c.entries| && j != c.cmap[k]
    ensures c.entries[j].key != k
  {
    hide RequestAt, Users;
    EntryAt(good, c, j);
  }

  lemma {:induction false} EvictOther(good: Good, c: Cache, swept: seq<Entry>, j: int, k: Key, key: Key)
    requires Ok(good, c) && k in c.cmap && 0 <= c.cmap[k] < |c.entries| && c.entries[c.cmap[k]].status == Resident && c.entries[c.cmap[k]].key == k
    requires Swept(c.entries, swept) && 0 <= j < |swept| && Free(swept[j]) && key !in c.cmap
    ensures |swept| == |c.entries|
    ensures if j == c.cmap[k] then c.entries[j].refcount == 0
            else var cm := Claimed(c.(entries := swept), j, key); k in cm && cm[k] == c.cmap[k] && swept[c.cmap[k]].status == Resident && swept[c.cmap[k]].key == k
  {
    hide Ok;
    if j != c.cmap[k] {
      OtherKey(good, c, j, k);
    }
  }

  /** The key's chunk is in the store. */
  ghost predicate CachedAt(c: Cache, k: Key, i: int) {
    k in c.cmap && c.cmap[k] == i && 0 <= i < |c.entries| && c.entries[i].status == Resident && c.entries[i].key == k
  }

  lemma {:induction false} BusyChunk(good: Good, c: Cache, q: int)
    requires Ok(good, c) && q in c.reqs && (c.reqs[q].Insert? || c.reqs[q].Miss?)
    ensures 0 <= c.reqs[q].chunk < |c.entries| && (c.entries[c.reqs[q].chunk].status == Fetching || c.entries[c.reqs[q].chunk].status == Filling)
  {
    hide EntriesOk, Inverse, Served;
    assert RequestAt(good, c, q);
  }

  /** When the write to the store is done, the key's chunk is there with the bytes that were written. */
  lemma {:induction false} BecomesCached(good: Good, c: Cache, q: int)
    requires Ok(good, c) && Enabled(good, c, Written(q))
    ensures var i, d := c.reqs[q].chunk, Apply(good, c, Written(q));
            CachedAt(d, c.entries[i].key, i) && i < |d.store| && d.store[i] == c.entries[i].buffer.value && q !in d.reqs
  {
    hide EntryOk, RequestAt, Users;
    BusyChunk(good, c, q);
  }

  /** Who is told: a read from the store when that is done, the fetch and all that wait for it and have been run when it is
      back, and the others when they are run. */
  lemma {:induction false} Answers(good: Good, c: Cache, ev: Event)
    requires Ok(good, c) && Enabled(good, c, ev)
    ensures var d := Apply(good, c, ev);
            && (ev.HitDone? ==> ev.q !in d.reqs && ev.q in d.notes && d.notes[ev.q] == 1)
            && (ev.Run? ==> if c.reqs[ev.q].done then ev.q !in d.reqs && ev.q in d.notes && d.notes[ev.q] == 1 else ev.q in d.reqs && d.reqs[ev.q].Pending? && d.reqs[ev.q].running)
            && (ev.Fetched? ==> ev.q in d.notes && d.notes[ev.q] == 1 && forall p :: WaitsFor(c, p, c.reqs[ev.q].chunk) ==>
                  if c.reqs[p].running then p !in d.reqs && p in d.notes && d.notes[p] == 1 else p in d.reqs && d.reqs[p].Pending? && d.reqs[p].done)
  {
    hide EntryOk, EntriesOk, Inverse, Served, Users, Cut;
    match ev
    case HitDone(q) => assert RequestAt(good, c, q);
    case Run(q) => assert RequestAt(good, c, q);
    case Fetched(q, data, sound) =>
      assert RequestAt(good, c, q);
      forall p | WaitsFor(c, p, c.reqs[q].chunk) ensures p in c.entries[c.reqs[q].chunk].pending && p in c.notes && c.notes[p] == 0 {
        assert RequestAt(good, c, p);
        InPending(good, c, p);
      }
    case _ =>
  }

  ghost predicate WaitsFor(c: Cache, p: int, i: int) {
    p in c.reqs && c.reqs[p].Pending? && c.reqs[p].chunk == i && !c.reqs[p].done
  }

  lemma {:induction false} InPending(good: Good, c: Cache, p: int)
    requires Ok(good, c) && p in c.reqs && c.reqs[p].Pending? && !c.reqs[p].done
    ensures 0 <= c.reqs[p].chunk < |c.entries| && p in c.entries[c.reqs[p].chunk].pending
  {
    hide Inverse, Served;
    assert RequestAt(good, c, p);
    var i := c.reqs[p].chunk;
    EntryAt(good, c, i);
    assert p in Users(c.reqs, i);
  }

  /** What the map becomes when a key is entered the way the source does it: a key that is there already stays where it is. */
  function Entered(cmap: map<Key, int>, k: Key, i: int): map<Key, int> {
    if k in cmap then cmap else cmap[k := i]
  }

  /** Inserting a key keeps map and entries inverse to each other exactly when no other chunk has it. */
  lemma {:induction false} InsertExact(entries: seq<Entry>, cmap: map<Key, int>, i: int, e': Entry)
    requires Inverse(entries, cmap) && NO_KEY !in cmap && 0 <= i < |entries| && e'.status != Empty && e'.key != NO_KEY
    requires entries[i].status == Empty ==> entries[i].key == NO_KEY
    ensures Inverse(entries[i := e'], Entered(cmap - {entries[i].key}, e'.key, i)) <==> (e'.key !in cmap || e'.key == entries[i].key)
  {
    var cm := cmap - {entries[i].key};
    if e'.key !in cmap {
      ClaimInverse(entries, cmap, i, e');
    } else if e'.key == entries[i].key {
      ClaimSame(entries, cmap, i, e');
    } else {
      assert e'.key in cm && cm[e'.key] != i;
      assert entries[i := e'][i] == e';
    }
  }

  /** The map after an insertion, the hand having passed over the entries. */
  lemma {:induction false} InsertMap(good: Good, c: Cache, entries: seq<Entry>, i: int, k: Key, data: Bytes)
    requires Ok(good, c) && Swept(c.entries, entries) && 0 <= i < |entries| && k != NO_KEY
    ensures Inverse(entries[i := Filled(entries[i], k, data)], Entered(c.cmap - {entries[i].key}, k, i)) <==> (k !in c.cmap || c.cmap[k] == i)
  {
    var e := Filled(entries[i], k, data);
    assert forall j :: 0 <= j < |entries| ==> SameKind(c.entries[j], entries[j]);
    InverseSame(c.entries, entries, c.cmap);
    EntryAt(good, c, i);
    InsertExact(entries, c.cmap, i, e);
    hide EntriesOk, RequestAt;
  }

  /** With a key that is new, that is the event of the model. */
  lemma {:induction false} InsertedIs(good: Good, c: Cache, ev: Event, d: Cache)
    requires Ok(good, c) && ev.InsertObject? && Enabled(good, c, ev)
    requires d == c.(entries := ev.swept[ev.i := Filled(ev.swept[ev.i], ev.k, ev.data)], cmap := Entered(c.cmap - {ev.swept[ev.i].key}, ev.k, ev.i),
      reqs := c.reqs[c.next := Insert(ev.i)], next := c.next + 1, notes := c.notes[c.next := 0], got := c.got[c.next := Waiting])
    ensures d == Apply(good, c, ev) && Ok(good, d)
  {
    hide Ok;
    EventOk(good, c, ev);
  }

  /** A key inserted a second time, into a cache a run reaches, leaves a chunk the map does not lead to. */
  lemma {:induction false} InsertedTwice(good: Good, store: seq<Bytes>, k: Key, data: Bytes) returns (c: Cache)
    requires |store| == 2 && |data| == CHUNK && good(k, data) && k != NO_KEY
    ensures CacheRun(good, Start(2, store), [InsertObject(Start(2, store).entries, 0, k, data)], c)
    ensures |c.entries| == 2 && Free(c.entries[1]) && k in c.cmap
    ensures var e := c.entries[1].(status := Filling, key := k); !Inverse(c.entries[1 := e], Entered(c.cmap - {c.entries[1].key}, k, 1))
  {
    var s := Start(2, store);
    var ev := InsertObject(s.entries, 0, k, data);
    assert Enabled(good, s, ev) && [ev][1..] == [];
    c := Apply(good, s, ev);
    StartOk(good, 2, store);
    EventOk(good, s, ev);
    InsertExact(c.entries, c.cmap, 1, c.entries[1].(status := Filling, key := k));
  }

  lemma {:induction false} ClaimSame(entries: seq<Entry>, cmap: map<Key, int>, i: int, e': Entry)
    requires Inverse(entries, cmap) && 0 <= i < |entries| && e'.status != Empty && entries[i].status != Empty && e'.key == entries[i].key
    ensures Inverse(entries[i := e'], (cmap - {entries[i].key})[e'.key := i])
  {
    var es, cm := entries[i := e'], (cmap - {entries[i].key})[e'.key := i];
    forall k | k in cm ensures 0 <= cm[k] < |es| && es[cm[k]].status != Empty && es[cm[k]].key == k {
      assert k in cmap && cm[k] == cmap[k];
    }
    forall j | 0 <= j < |es| && es[j].status != Empty ensures es[j].key in cm && cm[es[j].key] == j {
      assert entries[j].status != Empty && es[j].key == entries[j].key;
    }
  }

  function Woken(c: Cache, p: int, data: Bytes, sound: bool): Cache
    requires p in c.reqs && c.reqs[p].Pending? && 0 <= c.reqs[p].chunk < |c.entries| && p in c.notes
  {
    var i, r := c.reqs[p].chunk, c.reqs[p];
    c.(entries := c.entries[i := c.entries[i].(refcount := c.entries[i].refcount - 1)], got := c.got[p := Got(Cut(data, r.want), sound)],
       notes := if r.running then c.notes[p := c.notes[p] + 1] else c.notes,
       reqs := if r.running then c.reqs - {p} else c.reqs[p := r.(done := true)])
  }

  /** The reads waiting for a fetch are different from each other and from the fetch. */
  lemma {:induction false} WaitingFacts(good: Good, c: Cache, q: int)
    requires Ok(good, c) && q in c.reqs && c.reqs[q].Miss? && !c.reqs[q].fetched && 0 <= c.reqs[q].chunk < |c.entries|
    ensures var i := c.reqs[q].chunk; var list := c.entries[i].pending;
            && q !in list && q in c.notes && (forall j, k :: 0 <= j < k < |list| ==> list[j] != list[k])
            && forall p :: p in list ==> p in c.reqs && c.reqs[p].Pending? && c.reqs[p].chunk == i && p in c.notes && p in c.got
  {
    RequestIs(good, c, q);
    var i := c.reqs[q].chunk;
    EntryAt(good, c, i);
    FetchUsers(good, c.entries[i], c.store[i], c.reqs, i, q);
    forall p | p in c.entries[i].pending ensures p in c.notes && p in c.got {
      RequestIs(good, c, p);
    }
    hide Users;
  }

  lemma {:induction false} WakeNone(c: Cache, i: int, data: Bytes, sound: bool)
    requires 0 <= i < |c.entries|
    ensures Wake(c, i, [], data, sound) == c.(entries := c.entries[i := c.entries[i].(status := Filling, buffer := Some(data), pending := [], sound := sound)])
  {
    var d := Wake(c, i, [], data, sound);
    assert d.reqs == c.reqs && d.notes == c.notes && d.got == c.got;
  }

  lemma {:induction false} WakeOther(c: Cache, i: int, woken: seq<int>, q: int, data: Bytes, sound: bool)
    requires 0 <= i < |c.entries| && q !in woken && q in c.reqs && q in c.notes
    ensures var d := Wake(c, i, woken, data, sound); |d.entries| == |c.entries| && q in d.reqs && d.reqs[q] == c.reqs[q] && q in d.notes && d.notes[q] == c.notes[q]
  {
  }

  lemma {:induction false} WakeMore(c: Cache, i: int, woken: seq<int>, p: int, data: Bytes, sound: bool)
    requires 0 <= i < |c.entries| && p !in woken && p in c.reqs && c.reqs[p].Pending? && c.reqs[p].chunk == i && p in c.notes && p in c.got
    ensures var d := Wake(c, i, woken, data, sound);
            && p in d.reqs && d.reqs[p] == c.reqs[p] && |d.entries| == |c.entries| && p in d.notes && p in d.got
            && Wake(c, i, woken + [p], data, sound) == Woken(d, p, data, sound)
  {
    var d, f := Wake(c, i, woken, data, sound), Wake(c, i, woken + [p], data, sound);
    assert forall q :: Waits(c, woken + [p], q) <==> Waits(c, woken, q) || q == p;
    hide Waits, Cut;
    var g := Woken(d, p, data, sound);
    WakeReqs(c, i, woken, p, data, sound);
    WakeNotes(c, i, woken, p, data, sound);
    assert f.got.Keys == g.got.Keys;
    assert f.got == g.got;
    assert f.entries == g.entries;
  }

  lemma {:induction false} WakeReqs(c: Cache, i: int, woken: seq<int>, p: int, data: Bytes, sound: bool)
    requires 0 <= i < |c.entries| && p !in woken && p in c.reqs && c.reqs[p].Pending? && c.reqs[p].chunk == i && p in c.notes && p in c.got
    requires forall q :: Waits(c, woken + [p], q) <==> Waits(c, woken, q) || q == p
    ensures var d := Wake(c, i, woken, data, sound);
            p in d.reqs && d.reqs[p] == c.reqs[p] && |d.entries| == |c.entries| && p in d.notes &&
            Wake(c, i, woken + [p], data, sound).reqs == Woken(d, p, data, sound).reqs
  {
    var d, f := Wake(c, i, woken, data, sound), Wake(c, i, woken + [p], data, sound);
    assert !Waits(c, woken, p);
    hide Waits, Cut;
    var g := Woken(d, p, data, sound);
    assert f.reqs.Keys == g.reqs.Keys;
    assert forall q :: q in f.reqs ==> f.reqs[q] == g.reqs[q];
    assert f.reqs == g.reqs;
  }

  lemma {:induction false} WakeNotes(c: Cache, i: int, woken: seq<int>, p: int, data: Bytes, sound: bool)
    requires 0 <= i < |c.entries| && p !in woken && p in c.reqs && c.reqs[p].Pending? && c.reqs[p].chunk == i && p in c.notes && p in c.got
    requires forall q :: Waits(c, woken + [p], q) <==> Waits(c, woken, q) || q == p
    ensures var d := Wake(c, i, woken, data, sound);
            p in d.reqs && d.reqs[p] == c.reqs[p] && |d.entries| == |c.entries| && p in d.notes &&
            Wake(c, i, woken + [p], data, sound).notes == Woken(d, p, data, sound).notes
  {
    var d, f := Wake(c, i, woken, data, sound), Wake(c, i, woken + [p], data, sound);
    assert !Waits(c, woken, p);
    hide Waits, Cut;
    var g := Woken(d, p, data, sound);
    assert f.notes.Keys == g.notes.Keys;
    assert forall q :: q in f.notes ==> f.notes[q] == g.notes[q];
    assert f.notes == g.notes;
  }

  lemma {:induction false} SweptAt(entries: seq<Entry>, entries': seq<Entry>, i: int)
    requires Swept(entries, entries') && 0 <= i < |entries'|
    ensures |entries'| == |entries| && Similar(entries[i], entries'[i])
  {
  }

  lemma {:induction false} MappedKey(good: Good, c: Cache, k: Key)
    requires Ok(good, c) && k in c.cmap
    ensures 0 <= c.cmap[k] < |c.entries| && c.entries[c.cmap[k]].key == k && c.entries[c.cmap[k]].status != Empty
  {
  }

  lemma {:induction false} FillingData(good: Good, c: Cache, i: int)
    requires Ok(good, c) && 0 <= i < |c.entries| && c.entries[i].status == Filling
    ensures c.entries[i].buffer.Some? && Sound(good, c.entries[i], c.entries[i].buffer.value)
  {
    EntryAt(good, c, i);
  }
}
