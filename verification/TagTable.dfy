/**
 The session as the kernel keeps it: a tag table that grows a chunk at a time with cached
 counters, and a fid array compacted by swap-with-last.  Every method is proved against the
 flat session of SessionSpec.
 */
module TagTable {
  import opened Options
  import opened SessionSpec
  import SI = SessionInv
  import opened Sets

  datatype Slot = Free | Held(e: Entry)

  datatype Chunk = Chunk(e: seq<Slot>, nActive: nat, nSync: nat)

  /** The session's cached counters. */
  datatype Counts = Counts(active: nat, flush: nat, async: nat, reserved: nat)

  predicate SyncOwned(e: Entry) { e.owner.Some? && !e.async }

  // ---------------------------------------------------------------------------
  // Tag arithmetic: tag value == table index.
  // ---------------------------------------------------------------------------

  lemma MulMono(a: nat, b: nat, c: nat)
    requires a <= b
    ensures a * c <= b * c
  {
  }

  lemma DivUnique(t: nat, c: nat, k: nat, i: nat)
    requires c >= 1 && i < c && t == k * c + i
    ensures ChunkOf(c, t) == k && IndexIn(c, t) == i
  {
    var q := t / c;
    if q < k { MulMono(q + 1, k, c); } else if k < q { MulMono(k + 1, q, c); }
  }

  lemma DivBound(t: nat, c: nat, n: nat)
    requires c >= 1
    ensures t < n * c <==> ChunkOf(c, t) < n
  {
    if t < n * c {
      if n <= t / c { MulMono(n, t / c, c); }
    } else {
      if t / c < n { MulMono(t / c + 1, n, c); }
    }
  }

  /** Where the table keeps tag `t`. */
  function ChunkOf(c: nat, t: Tag): (k: nat)
    requires c >= 1
  {
    t / c
  }

  function IndexIn(c: nat, t: Tag): (i: nat)
    requires c >= 1
    ensures i < c
  {
    t % c
  }

  /** The chunks reach every tag under the limit. */
  ghost predicate Covers(c: nat, maxChunks: nat, limit: nat) {
    c >= 1 && forall t: Tag :: t < limit ==> ChunkOf(c, t) < maxChunks
  }

  lemma CoversAll(c: nat, maxChunks: nat, limit: nat)
    requires c >= 1 && limit <= maxChunks * c
    ensures Covers(c, maxChunks, limit)
  {
    forall t: Tag | t < limit ensures ChunkOf(c, t) < maxChunks { DivBound(t, c, maxChunks); }
  }

  lemma SamePlace(c: nat, t: Tag, v: Tag)
    requires c >= 1 && ChunkOf(c, t) == ChunkOf(c, v) && IndexIn(c, t) == IndexIn(c, v)
    ensures t == v
  {
  }

  // ---------------------------------------------------------------------------
  // The table's meaning.
  // ---------------------------------------------------------------------------

  ghost predicate Shaped(c: nat, chunks: seq<Chunk>) {
    c >= 1 && forall k | 0 <= k < |chunks| :: |chunks[k].e| == c
  }

  ghost function At(c: nat, chunks: seq<Chunk>, t: Tag): Slot
    requires Shaped(c, chunks)
  {
    if ChunkOf(c, t) < |chunks| then chunks[ChunkOf(c, t)].e[IndexIn(c, t)] else Free
  }

  /** The slot that tag `t` occupies. */
  ghost function SlotOf(tags: map<Tag, Entry>, t: Tag): Slot { if t in tags then Held(tags[t]) else Free }

  /** The chunks hold exactly the tags in flight. */
  ghost predicate Represents(c: nat, chunks: seq<Chunk>, tags: map<Tag, Entry>) {
    Shaped(c, chunks) && forall t: Tag {:trigger At(c, chunks, t)} :: At(c, chunks, t) == SlotOf(tags, t)
  }

  ghost function WithSlot(tags: map<Tag, Entry>, t: Tag, x: Slot): map<Tag, Entry> {
    if x.Held? then tags[t := x.e] else tags - {t}
  }

  /** The tags in flight whose entry satisfies `p`. */
  ghost function Where(tags: map<Tag, Entry>, p: (Tag, Entry) -> bool): set<Tag> {
    set t | t in tags && p(t, tags[t])
  }

  ghost function OfChunk(c: nat, k: nat): (Tag, Entry) -> bool
    requires c >= 1
  {
    (t: Tag, e: Entry) => ChunkOf(c, t) == k
  }

  ghost function SyncOf(c: nat, k: nat): (Tag, Entry) -> bool
    requires c >= 1
  {
    (t: Tag, e: Entry) => ChunkOf(c, t) == k && SyncOwned(e)
  }

  ghost function Every(): (Tag, Entry) -> bool { (t: Tag, e: Entry) => true }
  ghost function IsFlush(): (Tag, Entry) -> bool { (t: Tag, e: Entry) => e.kind.Flush? }
  ghost function IsSync(): (Tag, Entry) -> bool { (t: Tag, e: Entry) => SyncOwned(e) }
  ghost function IsAsync(): (Tag, Entry) -> bool { (t: Tag, e: Entry) => e.async }
  ghost function Holds(): (Tag, Entry) -> bool { (t: Tag, e: Entry) => e.holdsSlot }

  /** Each chunk's cached counters agree with a recount. */
  ghost predicate ChunkCounted(c: nat, tags: map<Tag, Entry>, ch: Chunk, k: nat)
    requires c >= 1
  {
    ch.nActive == |Where(tags, OfChunk(c, k))| && ch.nSync == |Where(tags, SyncOf(c, k))|
  }

  ghost predicate ChunksCounted(c: nat, tags: map<Tag, Entry>, chunks: seq<Chunk>)
    requires c >= 1
  {
    forall k {:trigger ChunkCounted(c, tags, chunks[k], k)} | 0 <= k < |chunks| :: ChunkCounted(c, tags, chunks[k], k)
  }

  /** The session's cached counters agree with a recount. */
  ghost predicate TableCounted(tags: map<Tag, Entry>, n: Counts) {
    && n.active == |Where(tags, Every())| && n.flush == |Where(tags, IsFlush())|
    && n.async == |Where(tags, IsAsync())| && n.reserved == |Where(tags, Holds())|
  }

  function Bit(b: bool): nat { if b then 1 else 0 }

  ghost predicate Has(p: (Tag, Entry) -> bool, t: Tag, x: Slot) { x.Held? && p(t, x.e) }

  /** One slot's change moves a count by whether the slot had the property before and after. */
  lemma CountMoves(tags: map<Tag, Entry>, t: Tag, x: Slot, p: (Tag, Entry) -> bool)
    ensures Has(p, t, SlotOf(tags, t)) ==> |Where(tags, p)| > 0
    ensures |Where(WithSlot(tags, t, x), p)| == Toggle(|Where(tags, p)|, Has(p, t, SlotOf(tags, t)), Has(p, t, x))
  {
    var w := WithSlot(tags, t, x);
    var m, u := Where(tags, p), Where(w, p);
    forall v | v != t
      ensures v in u <==> v in m
    {
      assert v in w <==> v in tags;
      assert v in w ==> w[v] == tags[v];
    }
    SizeMoves(m, u, t);
  }

  // --- how one slot's change moves the meaning -------------------------------

  lemma PutRepresents(c: nat, chunks: seq<Chunk>, tags: map<Tag, Entry>, t: Tag, ch: Chunk, x: Slot)
    requires Represents(c, chunks, tags) && ChunkOf(c, t) < |chunks|
    requires ch.e == chunks[ChunkOf(c, t)].e[IndexIn(c, t) := x]
    ensures Represents(c, chunks[ChunkOf(c, t) := ch], WithSlot(tags, t, x))
  {
    var u := chunks[ChunkOf(c, t) := ch];
    forall v: Tag
      ensures At(c, u, v) == SlotOf(WithSlot(tags, t, x), v)
    {
      assert At(c, chunks, v) == SlotOf(tags, v);
      if ChunkOf(c, v) == ChunkOf(c, t) && IndexIn(c, v) == IndexIn(c, t) { SamePlace(c, t, v); }
    }
  }

  lemma GrowRepresents(c: nat, chunks: seq<Chunk>, tags: map<Tag, Entry>)
    requires Represents(c, chunks, tags)
    ensures Represents(c, chunks + [Chunk(seq(c, _ => Free), 0, 0)], tags)
  {
    var u := chunks + [Chunk(seq(c, _ => Free), 0, 0)];
    forall t: Tag ensures At(c, u, t) == SlotOf(tags, t) { assert At(c, chunks, t) == SlotOf(tags, t); }
  }

  lemma ChunkCountsMove(c: nat, chunks: seq<Chunk>, tags: map<Tag, Entry>, t: Tag, ch: Chunk, x: Slot)
    requires c >= 1 && ChunksCounted(c, tags, chunks) && ChunkOf(c, t) < |chunks|
    requires var o := SlotOf(tags, t); var was := chunks[ChunkOf(c, t)];
      && ch.nActive == Toggle(was.nActive, o.Held?, x.Held?)
      && ch.nSync == Toggle(was.nSync, o.Held? && SyncOwned(o.e), x.Held? && SyncOwned(x.e))
    ensures ChunksCounted(c, WithSlot(tags, t, x), chunks[ChunkOf(c, t) := ch])
  {
    var u := chunks[ChunkOf(c, t) := ch];
    forall k | 0 <= k < |u|
      ensures ChunkCounted(c, WithSlot(tags, t, x), u[k], k)
    {
      assert ChunkCounted(c, tags, chunks[k], k);
      CountMoves(tags, t, x, OfChunk(c, k));
      CountMoves(tags, t, x, SyncOf(c, k));
    }
  }

  lemma ChunkCountsPositive(c: nat, chunks: seq<Chunk>, tags: map<Tag, Entry>, t: Tag)
    requires c >= 1 && ChunksCounted(c, tags, chunks) && ChunkOf(c, t) < |chunks| && t in tags
    ensures chunks[ChunkOf(c, t)].nActive > 0
    ensures SyncOwned(tags[t]) ==> chunks[ChunkOf(c, t)].nSync > 0
  {
    assert ChunkCounted(c, tags, chunks[ChunkOf(c, t)], ChunkOf(c, t));
    assert t in Where(tags, OfChunk(c, ChunkOf(c, t)));
    assert SyncOwned(tags[t]) ==> t in Where(tags, SyncOf(c, ChunkOf(c, t)));
  }

  lemma ChunkCountsGrow(c: nat, chunks: seq<Chunk>, tags: map<Tag, Entry>)
    requires Represents(c, chunks, tags) && ChunksCounted(c, tags, chunks)
    ensures ChunksCounted(c, tags, chunks + [Chunk(seq(c, _ => Free), 0, 0)])
  {
    var n := |chunks|;
    forall t: Tag | t in tags ensures ChunkOf(c, t) < n { assert At(c, chunks, t) == SlotOf(tags, t); }
    assert Where(tags, OfChunk(c, n)) == {} && Where(tags, SyncOf(c, n)) == {};
    var u := chunks + [Chunk(seq(c, _ => Free), 0, 0)];
    forall k | 0 <= k < |u|
      ensures ChunkCounted(c, tags, u[k], k)
    {
      if k < n { assert ChunkCounted(c, tags, chunks[k], k); }
    }
  }

  lemma TableCountsMove(tags: map<Tag, Entry>, t: Tag, x: Slot, n: Counts, m: Counts)
    requires TableCounted(tags, n)
    requires var o := SlotOf(tags, t);
      && m.active == Toggle(n.active, o.Held?, x.Held?)
      && m.flush == Toggle(n.flush, Has(IsFlush(), t, o), Has(IsFlush(), t, x))
      && m.async == Toggle(n.async, Has(IsAsync(), t, o), Has(IsAsync(), t, x))
      && m.reserved == Toggle(n.reserved, Has(Holds(), t, o), Has(Holds(), t, x))
    ensures TableCounted(WithSlot(tags, t, x), m)
  {
    CountMoves(tags, t, x, Every());
    CountMoves(tags, t, x, IsFlush());
    CountMoves(tags, t, x, IsAsync());
    CountMoves(tags, t, x, Holds());
  }

  /** The chunks hold the tags in flight and every cached counter agrees with a recount. */
  ghost predicate Counted(c: nat, chunks: seq<Chunk>, n: Counts, tags: map<Tag, Entry>) {
    Represents(c, chunks, tags) && ChunksCounted(c, tags, chunks) && TableCounted(tags, n)
  }

  /** Tag `t`'s slot became `x`, its chunk `ch` and the counters `m`, each counter moved by what
      the slot was and is. */
  ghost predicate Moved(c: nat, chunks: seq<Chunk>, n: Counts, t: Tag, x: Slot, ch: Chunk, m: Counts)
    requires Shaped(c, chunks)
  {
    var o := At(c, chunks, t);
    && ChunkOf(c, t) < |chunks| && ch.e == chunks[ChunkOf(c, t)].e[IndexIn(c, t) := x]
    && ch.nActive == Toggle(chunks[ChunkOf(c, t)].nActive, o.Held?, x.Held?)
    && ch.nSync == Toggle(chunks[ChunkOf(c, t)].nSync, o.Held? && SyncOwned(o.e), x.Held? && SyncOwned(x.e))
    && m.active == Toggle(n.active, o.Held?, x.Held?)
    && m.flush == Toggle(n.flush, Has(IsFlush(), t, o), Has(IsFlush(), t, x))
    && m.async == Toggle(n.async, Has(IsAsync(), t, o), Has(IsAsync(), t, x))
    && m.reserved == Toggle(n.reserved, Has(Holds(), t, o), Has(Holds(), t, x))
  }

  lemma MovedCounts(c: nat, chunks: seq<Chunk>, n: Counts, tags: map<Tag, Entry>, t: Tag, x: Slot, ch: Chunk, m: Counts)
    requires Counted(c, chunks, n, tags) && Moved(c, chunks, n, t, x, ch, m)
    ensures Counted(c, chunks[ChunkOf(c, t) := ch], m, WithSlot(tags, t, x))
  {
    assert At(c, chunks, t) == SlotOf(tags, t);
    PutRepresents(c, chunks, tags, t, ch, x);
    ChunkCountsMove(c, chunks, tags, t, ch, x);
    TableCountsMove(tags, t, x, n, m);
  }

  /** The counters that an outstanding tag keeps above zero. */
  lemma Positive(c: nat, chunks: seq<Chunk>, n: Counts, tags: map<Tag, Entry>, t: Tag)
    requires Counted(c, chunks, n, tags) && t in tags
    ensures ChunkOf(c, t) < |chunks| && |chunks[ChunkOf(c, t)].e| == c
    ensures chunks[ChunkOf(c, t)].e[IndexIn(c, t)] == Held(tags[t])
    ensures chunks[ChunkOf(c, t)].nActive > 0 && n.active > 0
    ensures SyncOwned(tags[t]) ==> chunks[ChunkOf(c, t)].nSync > 0
    ensures (tags[t].kind.Flush? ==> n.flush > 0) && (tags[t].async ==> n.async > 0)
    ensures tags[t].holdsSlot ==> n.reserved > 0
  {
    assert At(c, chunks, t) == SlotOf(tags, t);
    ChunkCountsPositive(c, chunks, tags, t);
    CountMoves(tags, t, Free, Every());
    CountMoves(tags, t, Free, IsFlush());
    CountMoves(tags, t, Free, IsAsync());
    CountMoves(tags, t, Free, Holds());
  }

  function SyncsAt(c: nat, chunks: seq<Chunk>, t: Tag): nat
    requires c >= 1
  {
    if ChunkOf(c, t) < |chunks| then chunks[ChunkOf(c, t)].nSync else 0
  }

  predicate SameCounts(was: Entry, e: Entry) {
    e.kind == was.kind && e.async == was.async && e.holdsSlot == was.holdsSlot && e.owner == was.owner
  }

  /** The counters follow an outstanding entry being rewritten in place. */
  ghost predicate Follows(c: nat, chunks: seq<Chunk>, n: Counts, was: Entry, t: Tag, e: Entry, nSync: nat, m: Counts) {
    && c >= 1 && e.kind == was.kind && m.active == n.active && m.flush == n.flush
    && m.async + Bit(was.async) == n.async + Bit(e.async)
    && m.reserved + Bit(was.holdsSlot) == n.reserved + Bit(e.holdsSlot)
    && nSync + Bit(SyncOwned(was)) == SyncsAt(c, chunks, t) + Bit(SyncOwned(e))
  }

  lemma RewriteCounts(c: nat, chunks: seq<Chunk>, n: Counts, tags: map<Tag, Entry>, t: Tag, e: Entry, nSync: nat,
                      m: Counts)
    requires Counted(c, chunks, n, tags) && t in tags && Follows(c, chunks, n, tags[t], t, e, nSync, m)
    ensures ChunkOf(c, t) < |chunks| && IndexIn(c, t) < |chunks[ChunkOf(c, t)].e|
    ensures var ch := chunks[ChunkOf(c, t)];
      Counted(c, chunks[ChunkOf(c, t) := ch.(e := ch.e[IndexIn(c, t) := Held(e)], nSync := nSync)], m, tags[t := e])
  {
    Positive(c, chunks, n, tags, t);
    assert At(c, chunks, t) == SlotOf(tags, t);
    var ch := chunks[ChunkOf(c, t)];
    MovedCounts(c, chunks, n, tags, t, Held(e), ch.(e := ch.e[IndexIn(c, t) := Held(e)], nSync := nSync), m);
  }

  lemma ClearCounts(c: nat, chunks: seq<Chunk>, n: Counts, tags: map<Tag, Entry>, t: Tag, ch: Chunk, m: Counts)
    requires Counted(c, chunks, n, tags) && t in tags && ChunkOf(c, t) < |chunks|
    requires IndexIn(c, t) < |chunks[ChunkOf(c, t)].e|
    requires var was := chunks[ChunkOf(c, t)]; var e := tags[t];
      && ch.e == was.e[IndexIn(c, t) := Free] && ch.nActive + 1 == was.nActive
      && ch.nSync + Bit(SyncOwned(e)) == was.nSync
      && m.active + 1 == n.active && m.flush + Bit(e.kind.Flush?) == n.flush
      && m.async + Bit(e.async) == n.async && m.reserved + Bit(e.holdsSlot) == n.reserved
    ensures Counted(c, chunks[ChunkOf(c, t) := ch], m, tags - {t})
  {
    assert At(c, chunks, t) == SlotOf(tags, t);
    MovedCounts(c, chunks, n, tags, t, Free, ch, m);
  }

  // --- what a chunk's counter says about its tags -----------------------------

  function TagOf(c: nat, k: nat, i: nat): Tag { k * c + i }

  lemma TagOfPlace(c: nat, k: nat, i: nat)
    requires c >= 1 && i < c
    ensures ChunkOf(c, TagOf(c, k, i)) == k && IndexIn(c, TagOf(c, k, i)) == i
  {
    DivUnique(TagOf(c, k, i), c, k, i);
  }

  /** Tags are ordered by chunk, then by index. */
  lemma TagOrder(c: nat, k: nat, i: nat, t: Tag)
    requires c >= 1 && i <= c
    ensures t < TagOf(c, k, i) <==> ChunkOf(c, t) < k || (ChunkOf(c, t) == k && IndexIn(c, t) < i)
  {
    var q := ChunkOf(c, t);
    assert t == q * c + IndexIn(c, t);
    if q < k { MulMono(q + 1, k, c); } else if k < q { MulMono(k + 1, q, c); }
  }

  /** The first `i` tags of chunk `k`. */
  ghost function Run(c: nat, k: nat, i: nat): set<Tag> {
    if i == 0 then {} else Run(c, k, i - 1) + {TagOf(c, k, i - 1)}
  }

  lemma {:induction false} RunMembers(c: nat, k: nat, i: nat, t: Tag)
    requires c >= 1 && i <= c
    ensures t in Run(c, k, i) <==> ChunkOf(c, t) == k && IndexIn(c, t) < i
    decreases i
  {
    if i > 0 {
      RunMembers(c, k, i - 1, t);
      TagOfPlace(c, k, i - 1);
      if ChunkOf(c, t) == k && IndexIn(c, t) == i - 1 { SamePlace(c, t, TagOf(c, k, i - 1)); }
    }
  }

  lemma {:induction false} RunSize(c: nat, k: nat, i: nat)
    requires c >= 1 && i <= c
    ensures |Run(c, k, i)| == i
    decreases i
  {
    if i > 0 {
      RunSize(c, k, i - 1);
      RunMembers(c, k, i - 1, TagOf(c, k, i - 1));
      TagOfPlace(c, k, i - 1);
    }
  }

  /** A chunk whose counter reads full has no free tag. */
  lemma FullChunk(c: nat, chunks: seq<Chunk>, tags: map<Tag, Entry>, k: nat)
    requires c >= 1 && ChunksCounted(c, tags, chunks) && k < |chunks| && chunks[k].nActive == c
    ensures forall t: Tag :: ChunkOf(c, t) == k ==> t in tags
  {
    assert ChunkCounted(c, tags, chunks[k], k);
    var held := Where(tags, OfChunk(c, k));
    RunSize(c, k, c);
    forall t: Tag | t in held ensures t in Run(c, k, c) { RunMembers(c, k, c, t); }
    SubsetSize(held, Run(c, k, c));
    forall t: Tag | ChunkOf(c, t) == k ensures t in tags { RunMembers(c, k, c, t); assert t in held; }
  }

  ghost predicate TakenBelow(c: nat, tags: map<Tag, Entry>, k: nat, i: nat) {
    forall t: Tag :: t < TagOf(c, k, i) ==> t in tags
  }

  lemma FullChunkTaken(c: nat, chunks: seq<Chunk>, tags: map<Tag, Entry>, k: nat)
    requires c >= 1 && ChunksCounted(c, tags, chunks) && k < |chunks| && chunks[k].nActive == c
    requires TakenBelow(c, tags, k, 0)
    ensures TakenBelow(c, tags, k + 1, 0)
  {
    FullChunk(c, chunks, tags, k);
    forall t: Tag | t < TagOf(c, k + 1, 0) ensures t in tags { TagOrder(c, k + 1, 0, t); TagOrder(c, k, 0, t); }
  }

  lemma TakenNext(c: nat, chunks: seq<Chunk>, tags: map<Tag, Entry>, k: nat, i: nat)
    requires Represents(c, chunks, tags) && k < |chunks| && i < c && TakenBelow(c, tags, k, i)
    ensures var t := TagOf(c, k, i);
      && ChunkOf(c, t) == k && IndexIn(c, t) == i && (chunks[k].e[i].Free? <==> t !in tags)
      && (t in tags ==> TakenBelow(c, tags, k, i + 1))
      && (t in tags && i + 1 == c ==> TakenBelow(c, tags, k + 1, 0))
  {
    var t := TagOf(c, k, i);
    TagOfPlace(c, k, i);
    assert At(c, chunks, t) == SlotOf(tags, t);
    assert i + 1 == c ==> TagOf(c, k + 1, 0) == t + 1;
  }

  /** A chunk whose counter reads zero has no such tag. */
  lemma IdleChunk(c: nat, chunks: seq<Chunk>, tags: map<Tag, Entry>, k: nat)
    requires c >= 1 && ChunksCounted(c, tags, chunks) && k < |chunks|
    ensures chunks[k].nActive == 0 ==> forall t: Tag :: ChunkOf(c, t) == k ==> t !in tags
    ensures chunks[k].nSync == 0 ==> forall t: Tag :: ChunkOf(c, t) == k && t in tags ==> !SyncOwned(tags[t])
  {
    assert ChunkCounted(c, tags, chunks[k], k);
    forall t: Tag | ChunkOf(c, t) == k && t in tags
      ensures t in Where(tags, OfChunk(c, k)) && (SyncOwned(tags[t]) ==> t in Where(tags, SyncOf(c, k)))
    {
    }
  }

  // --- walking the table in tag order ------------------------------------------

  /** No tag of `from..to` has the property. */
  ghost predicate NoneIn(tags: map<Tag, Entry>, p: (Tag, Entry) -> bool, from: nat, to: nat) {
    forall t: Tag :: from <= t < to ==> !Has(p, t, SlotOf(tags, t))
  }

  /** `r` is the lowest tag from `from` on that has the property. */
  ghost predicate IsNext(tags: map<Tag, Entry>, p: (Tag, Entry) -> bool, from: nat, r: Option<Tag>) {
    match r
    case Some(t) => from <= t && Has(p, t, SlotOf(tags, t)) && NoneIn(tags, p, from, t)
    case None => forall t: Tag :: from <= t ==> !Has(p, t, SlotOf(tags, t))
  }

  ghost function From(t: Tag): (Tag, Entry) -> bool { (v: Tag, e: Entry) => t <= v }

  ghost function Names(fid: Fid): (Tag, Entry) -> bool {
    (t: Tag, e: Entry) => Live(e) && (e.fid == fid || e.newFid == fid)
  }

  lemma FromShrinks(tags: map<Tag, Entry>, t: Tag, v: Tag)
    requires t <= v && v in tags
    ensures |Where(tags, From(v + 1))| < |Where(tags, From(t))|
  {
    var a, b := Where(tags, From(v + 1)), Where(tags, From(t));
    assert v in b && a <= b - {v};
    assert |a| + |b - {v} - a| == |b - {v}| by { assert a + (b - {v} - a) == b - {v}; }
  }

  /** A fid is busy exactly when some tag in flight names it. */
  lemma NextIsBusy(s: Session, fid: Fid, r: Option<Tag>)
    requires IsNext(s.tags, Names(fid), 0, r)
    ensures Busy(s, fid) <==> r.Some?
  {
    if r.Some? {
      assert Has(Names(fid), r.value, SlotOf(s.tags, r.value));
    } else {
      forall t | t in s.tags
        ensures !(Live(s.tags[t]) && (s.tags[t].fid == fid || s.tags[t].newFid == fid))
      {
        assert !Has(Names(fid), t, SlotOf(s.tags, t));
      }
    }
  }

  lemma NamesNone(tags: map<Tag, Entry>, fid: Fid, from: nat)
    requires NoneIn(tags, Names(fid), 0, from) && IsNext(tags, Every(), from, None)
    ensures IsNext(tags, Names(fid), 0, None)
  {
    forall t: Tag
      ensures !Has(Names(fid), t, SlotOf(tags, t))
    {
      assert t < from || !Has(Every(), t, SlotOf(tags, t));
    }
  }

  /** Passing a tag that does not name the fid, or stopping at one that does. */
  lemma NamesNext(tags: map<Tag, Entry>, fid: Fid, from: nat, t: Tag)
    requires NoneIn(tags, Names(fid), 0, from) && IsNext(tags, Every(), from, Some(t))
    ensures t in tags
    ensures if Live(tags[t]) && (tags[t].fid == fid || tags[t].newFid == fid)
            then IsNext(tags, Names(fid), 0, Some(t)) else NoneIn(tags, Names(fid), 0, t + 1)
  {
    forall v: Tag | v < t
      ensures !Has(Names(fid), v, SlotOf(tags, v))
    {
      assert v < from || !Has(Every(), v, SlotOf(tags, v));
    }
  }

  ghost predicate Before(c: nat, t: Tag, k: nat, i: nat)
    requires c >= 1
  {
    ChunkOf(c, t) < k || (ChunkOf(c, t) == k && IndexIn(c, t) < i)
  }

  /** A walk from `from` that has reached slot `i` of chunk `k` and passed no match. */
  ghost predicate Swept(c: nat, tags: map<Tag, Entry>, p: (Tag, Entry) -> bool, from: Tag, k: nat, i: nat)
    requires c >= 1
  {
    && (ChunkOf(c, from) < k || (ChunkOf(c, from) == k && IndexIn(c, from) <= i))
    && forall t: Tag :: from <= t && Before(c, t, k, i) ==> !Has(p, t, SlotOf(tags, t))
  }

  lemma SweepStarts(c: nat, tags: map<Tag, Entry>, p: (Tag, Entry) -> bool, from: Tag)
    requires c >= 1
    ensures Swept(c, tags, p, from, ChunkOf(c, from), IndexIn(c, from))
  {
    var k, i := ChunkOf(c, from), IndexIn(c, from);
    forall t: Tag | from <= t
      ensures !Before(c, t, k, i)
    {
      TagOrder(c, k, i, t);
      assert from == TagOf(c, k, i);
    }
  }

  /** Slot `i` of chunk `k` ends the walk, or the walk passes it. */
  lemma SweepSlot(c: nat, chunks: seq<Chunk>, tags: map<Tag, Entry>, p: (Tag, Entry) -> bool, from: Tag, k: nat, i: nat)
    requires Represents(c, chunks, tags) && k < |chunks| && i < c && Swept(c, tags, p, from, k, i)
    ensures var t := TagOf(c, k, i);
      if Has(p, t, chunks[k].e[i]) then IsNext(tags, p, from, Some(t)) else Swept(c, tags, p, from, k, i + 1)
  {
    var u := TagOf(c, k, i);
    TagOfPlace(c, k, i);
    assert At(c, chunks, u) == SlotOf(tags, u);
    TagOrder(c, k, i, from);
    forall t: Tag
      ensures t < u <==> Before(c, t, k, i)
      ensures Before(c, t, k, i + 1) ==> Before(c, t, k, i) || t == u
    {
      TagOrder(c, k, i, t);
      if ChunkOf(c, t) == k && IndexIn(c, t) == i { SamePlace(c, t, u); }
    }
    assert from <= u by {
      if !Before(c, from, k, i) { SamePlace(c, from, u); }
    }
  }

  /** Past the last chunk there is no tag. */
  lemma PastEnd(c: nat, chunks: seq<Chunk>, tags: map<Tag, Entry>, p: (Tag, Entry) -> bool, from: nat, k: nat, i: nat)
    requires Represents(c, chunks, tags) && k >= |chunks| && Swept(c, tags, p, from, k, i)
    ensures IsNext(tags, p, from, None)
  {
    forall t: Tag | from <= t
      ensures !Has(p, t, SlotOf(tags, t))
    {
      assert At(c, chunks, t) == SlotOf(tags, t);
    }
  }

  /** The op share as the counters see it, and as the flat session sees it. */
  lemma OpsCounted(tags: map<Tag, Entry>, n: Counts)
    requires TableCounted(tags, n)
    ensures n.active - n.flush == |Ops(tags)| && n.reserved == |Holders(tags)|
  {
    assert Where(tags, Every()) == tags.Keys == Flushes(tags) + Ops(tags);
    assert Where(tags, IsFlush()) == Flushes(tags) && Flushes(tags) !! Ops(tags);
    assert Where(tags, Holds()) == Holders(tags);
  }

  // ---------------------------------------------------------------------------
  // The bound fids.
  // ---------------------------------------------------------------------------

  ghost function Elements(q: seq<Fid>): set<Fid> { set x | x in q }

  ghost predicate Distinct(q: seq<Fid>) { forall i, j | 0 <= i < j < |q| :: q[i] != q[j] }

  lemma {:induction false} DistinctSize(q: seq<Fid>)
    requires Distinct(q)
    ensures |Elements(q)| == |q|
  {
    if q != [] {
      var n := |q| - 1;
      DistinctSize(q[..n]);
      assert q == q[..n] + [q[n]];
      assert Elements(q) == Elements(q[..n]) + {q[n]};
    }
  }

  /** Swap-with-last removal drops exactly the removed fid. */
  lemma SwapWithLast(q: seq<Fid>, i: nat, u: seq<Fid>)
    requires Distinct(q) && i < |q| && u == q[i := q[|q| - 1]][..|q| - 1]
    ensures Distinct(u) && Elements(u) == Elements(q) - {q[i]}
  {
    forall f
      ensures f in u <==> f in q && f != q[i]
    {
      if f in q && f != q[i] {
        var j :| 0 <= j < |q| && q[j] == f;
        assert f == u[if j == |q| - 1 then i else j];
      }
    }
  }

  ghost function FlushEntry(s: Session, victim: Tag): Entry {
    Fresh(Kind.Flush, s.rootFid, s.rootFid, s.nextOpId + 1).(flushOldtag := victim)
  }

  lemma WalkStaged(s: Session, m: Session, u: Session, t: Tag, kind: Kind, src: Fid, dst: Fid, nwname: nat)
    requires m == Place(s, t, Fresh(kind, src, dst, s.nextOpId + 1).(holdsSlot := dst != NOFID))
    requires u == Put(m, t, m.tags[t].(walkNwname := nwname))
    ensures u == SendWalk(s, t, kind, src, dst, nwname)
  {
    Replaced(s, t, m.tags[t], m.tags[t].(walkNwname := nwname));
  }

  lemma FlushStaged(s: Session, m: Session, u: Session, t: Tag, victim: Tag)
    requires m == Place(s, t, FlushEntry(s, victim)) && victim in s.tags && victim in m.tags
    requires u == Put(m, victim, m.tags[victim].(awaitingFlush := true, flushTag := t))
    ensures u == SendFlush(s, t, victim)
  {
  }

  /** An entry placed and rewritten is the rewritten one placed. */
  lemma Replaced(s: Session, t: Tag, e: Entry, f: Entry)
    ensures Put(Place(s, t, e), t, f) == Place(s, t, f)
  {
    assert s.tags[t := e][t := f] == s.tags[t := f];
  }

  class Table {
    const c: nat
    const maxChunks: nat
    const cap: Limits
    const rootFid: Fid
    const boundFids: array<Fid>
    var nBound: nat
    var chunks: seq<Chunk>
    var n: Counts
    ghost var tags: map<Tag, Entry>
    var nextOpId: nat

    ghost predicate Valid()
      reads this, boundFids
    {
      && ValidFids()
      && 1 <= |chunks| <= maxChunks && Covers(c, maxChunks, cap.tagLimit) && Counted(c, chunks, n, tags)
    }

    ghost predicate ValidFids()
      reads this, boundFids
    {
      boundFids.Length == cap.maxFids && nBound <= cap.maxFids && Distinct(boundFids[..nBound])
    }

    /** The flat session this table represents. */
    ghost function Abs(): Session
      requires Valid()
      reads this, boundFids
    {
      Session(cap, rootFid, Elements(boundFids[..nBound]), tags, nextOpId)
    }

    constructor (c: nat, maxChunks: nat, cap: Limits, rootFid: Fid)
      requires c >= 1 && maxChunks >= 1 && cap.tagLimit <= maxChunks * c
      ensures Valid() && fresh(boundFids)
      ensures Abs() == Session(cap, rootFid, {}, map[], 0)
    {
      this.c, this.maxChunks, this.cap, this.rootFid := c, maxChunks, cap, rootFid;
      boundFids := new Fid[cap.maxFids];
      nBound := 0;
      chunks := [] + [Chunk(seq(c, _ => Free), 0, 0)];
      n, nextOpId, tags := Counts(0, 0, 0, 0), 0, map[];
      new;
      CoversAll(c, maxChunks, cap.tagLimit);
      GrowRepresents(c, [], map[]);
      ChunkCountsGrow(c, [], map[]);
    }

    // --- fids ------------------------------------------------------------------

    method FidBound(fid: Fid) returns (b: bool)
      requires Valid()
      ensures b <==> fid in Abs().bound
    {
      for i := 0 to nBound
        invariant fid !in boundFids[..i]
      {
        if boundFids[i] == fid { return true; }
      }
      return false;
    }

    method FidBind(fid: Fid) returns (ok: bool)
      requires Valid()
      modifies `nBound, boundFids
      ensures Valid()
      ensures ok <==> fid !in old(Abs()).bound && |old(Abs()).bound| < cap.maxFids
      ensures Abs() == if ok then old(Abs()).(bound := old(Abs()).bound + {fid}) else old(Abs())
    {
      DistinctSize(boundFids[..nBound]);
      var dup := FidBound(fid);
      if dup || nBound >= cap.maxFids { return false; }
      ghost var q := boundFids[..nBound];
      boundFids[nBound] := fid;
      nBound := nBound + 1;
      assert boundFids[..nBound] == q + [fid];
      return true;
    }

    method FidUnbind(fid: Fid) returns (ok: bool)
      requires Valid()
      modifies `nBound, boundFids
      ensures Valid()
      ensures ok <==> fid in old(Abs()).bound
      ensures Abs() == old(Abs()).(bound := old(Abs()).bound - {fid})
    {
      for i := 0 to nBound
        invariant fid !in boundFids[..i] && unchanged(this, boundFids)
      {
        if boundFids[i] == fid {
          ghost var q := boundFids[..nBound];
          boundFids[i] := boundFids[nBound - 1];
          boundFids[nBound - 1] := 0;
          nBound := nBound - 1;
          SwapWithLast(q, i, boundFids[..nBound]);
          return true;
        }
      }
      return false;
    }

    // --- entries ----------------------------------------------------------------

    /** The entry of tag `t`, if the table holds one. */
    method Lookup(t: Tag) returns (x: Slot)
      requires Valid()
      ensures x == SlotOf(tags, t)
    {
      assert At(c, chunks, t) == SlotOf(tags, t);
      if ChunkOf(c, t) >= |chunks| { return Free; }
      return chunks[ChunkOf(c, t)].e[IndexIn(c, t)];
    }

    /** Mark the free tag `t` outstanding with the op's shape. */
    method MarkOutstanding(t: Tag, kind: Kind, fid: Fid, newFid: Fid)
      requires Valid() && ChunkOf(c, t) < |chunks| && t !in tags
      modifies `chunks, `n, `nextOpId, `tags
      ensures Valid() && |chunks| == old(|chunks|)
      ensures Abs() == Place(old(Abs()), t, Fresh(kind, fid, newFid, old(nextOpId) + 1))
    {
      assert At(c, chunks, t) == SlotOf(tags, t);
      var k, i := ChunkOf(c, t), IndexIn(c, t);
      var e := Fresh(kind, fid, newFid, nextOpId + 1);
      var ch := chunks[k].(e := chunks[k].e[i := Held(e)], nActive := chunks[k].nActive + 1);
      var m := n.(active := n.active + 1, flush := n.flush + Bit(kind.Flush?));
      MovedCounts(c, chunks, n, tags, t, Held(e), ch, m);
      nextOpId := nextOpId + 1;
      chunks, n, tags := chunks[k := ch], m, tags[t := e];
    }

    /** Clear the outstanding tag `t`, releasing the slot it holds. */
    method ClearOutstanding(t: Tag)
      requires Valid() && t in tags
      modifies `chunks, `n, `tags
      ensures Valid() && |chunks| == old(|chunks|)
      ensures Abs() == Clear(old(Abs()), t)
    {
      Positive(c, chunks, n, tags, t);
      var k, i := ChunkOf(c, t), IndexIn(c, t);
      var e := chunks[k].e[i].e;
      var m := Counts(n.active - 1, n.flush - Bit(e.kind.Flush?),
          n.async - Bit(e.async), n.reserved - Bit(e.holdsSlot));
      var ch := Chunk(chunks[k].e[i := Free], chunks[k].nActive - 1, chunks[k].nSync - Bit(SyncOwned(e)));
      ClearCounts(c, chunks, n, tags, t, ch, m);
      chunks, n, tags := chunks[k := ch], m, tags - {t};
    }
  
    /** Rewrite the outstanding entry of `t`; its chunk's sync count becomes `nSync`, the counters `m`. */
    method Store(t: Tag, e: Entry, nSync: nat, m: Counts)
      requires Valid() && t in tags && Follows(c, chunks, n, tags[t], t, e, nSync, m)
      modifies `chunks, `n, `tags
      ensures Valid() && |chunks| == old(|chunks|)
      ensures Abs() == Put(old(Abs()), t, e)
    {
      RewriteCounts(c, chunks, n, tags, t, e, nSync, m);
      var k := ChunkOf(c, t);
      chunks := chunks[k := chunks[k].(e := chunks[k].e[IndexIn(c, t) := Held(e)], nSync := nSync)];
      n, tags := m, tags[t := e];
    }

    /** Rewrite fields of the outstanding entry of `t` that no counter watches. */
    method Amend(t: Tag, e: Entry)
      requires Valid() && t in tags && SameCounts(tags[t], e)
      modifies `chunks, `n, `tags
      ensures Valid() && |chunks| == old(|chunks|)
      ensures Abs() == Put(old(Abs()), t, e)
    {
      Store(t, e, SyncsAt(c, chunks, t), n);
    }

    method SlotReserve(t: Tag)
      requires Valid() && t in tags && !tags[t].holdsSlot
      modifies `chunks, `n, `tags
      ensures Valid() && |chunks| == old(|chunks|)
      ensures Abs() == Put(old(Abs()), t, old(tags)[t].(holdsSlot := true))
    {
      var x := Lookup(t);
      Store(t, x.e.(holdsSlot := true), SyncsAt(c, chunks, t), n.(reserved := n.reserved + 1));
    }

    method SlotRelease(t: Tag)
      requires Valid() && t in tags
      modifies `chunks, `n, `tags
      ensures Valid() && |chunks| == old(|chunks|)
      ensures Abs() == Unslot(old(Abs()), t)
    {
      var x := Lookup(t);
      if !x.e.holdsSlot {
        assert tags[t].(holdsSlot := false) == tags[t] && tags[t := tags[t]] == tags;
        return;
      }
      Positive(c, chunks, n, tags, t);
      Store(t, x.e.(holdsSlot := false), SyncsAt(c, chunks, t), n.(reserved := n.reserved - 1));
    }

    /** Bind `fid` into the slot op `t` holds. */
    method BindSlot(t: Tag, fid: Fid) returns (ok: bool)
      requires Valid() && t in tags
      modifies `chunks, `n, `tags, `nBound, boundFids
      ensures Valid() && |chunks| == old(|chunks|)
      ensures (Abs(), ok) == SlotBind(old(Abs()), t, fid)
    {
      SlotRelease(t);
      ok := FidBind(fid);
    }

    method ChangeOwner(t: Tag, owner: Option<nat>) returns (ok: bool)
      requires Valid()
      modifies `chunks, `n, `tags
      ensures Valid()
      ensures ok <==> t in old(tags)
      ensures Abs() == SetOwner(old(Abs()), t, owner)
    {
      var x := Lookup(t);
      if x.Free? { return false; }
      Positive(c, chunks, n, tags, t);
      var e := x.e.(owner := owner);
      Store(t, e, SyncsAt(c, chunks, t) - Bit(SyncOwned(x.e)) + Bit(SyncOwned(e)), n);
      return true;
    }

    method BecomeAsync(t: Tag)
      requires Valid()
      modifies `chunks, `n, `tags
      ensures Valid()
      ensures Abs() == MarkAsync(old(Abs()), t)
    {
      var x := Lookup(t);
      if x.Free? || x.e.kind.Flush? { return; }
      if x.e.async {
        assert tags[t].(async := true) == tags[t] && tags[t := tags[t]] == tags;
        return;
      }
      Positive(c, chunks, n, tags, t);
      Store(t, x.e.(async := true), SyncsAt(c, chunks, t) - Bit(SyncOwned(x.e)), n.(async := n.async + 1));
    }

    // --- allocation ---------------------------------------------------------------

    /** Add a chunk and return its first tag, unless the limit or the allocator refuses. */
    method Grow(memory: bool) returns (r: Option<Tag>)
      requires Valid()
      modifies `chunks
      ensures Valid() && Abs() == old(Abs())
      ensures r.Some? ==> r.value == TagOf(c, old(|chunks|), 0) < cap.tagLimit && |chunks| == old(|chunks|) + 1
      ensures r.None? ==> chunks == old(chunks) && (memory ==> TagOf(c, |chunks|, 0) >= cap.tagLimit)
    {
      var k := |chunks|;
      if k >= maxChunks || TagOf(c, k, 0) >= cap.tagLimit {
        if TagOf(c, k, 0) < cap.tagLimit { TagOfPlace(c, k, 0); }
        return None;
      }
      if !memory { return None; }
      GrowRepresents(c, chunks, tags);
      ChunkCountsGrow(c, chunks, tags);
      chunks := chunks + [Chunk(seq(c, _ => Free), 0, 0)];
      return Some(TagOf(c, k, 0));
    }

    /** Walk the chunks in order for the lowest free tag, skipping those that read full. */
    method FindFree() returns (r: Option<Tag>, atLimit: bool)
      requires Valid()
      ensures r.Some? ==> Lowest(Abs(), r.value) && ChunkOf(c, r.value) < |chunks|
      ensures r.None? && atLimit ==> forall t: Tag :: t < cap.tagLimit ==> t in tags
      ensures r.None? && !atLimit ==> TakenBelow(c, tags, |chunks|, 0)
    {
      var k := 0;
      while k < |chunks|
        invariant k <= |chunks| && TakenBelow(c, tags, k, 0)
      {
        if chunks[k].nActive == c {
          FullChunkTaken(c, chunks, tags, k);
        } else {
          for i := 0 to c
            invariant TakenBelow(c, tags, k, i) && (i == c ==> TakenBelow(c, tags, k + 1, 0))
          {
            var t := TagOf(c, k, i);
            TakenNext(c, chunks, tags, k, i);
            if t >= cap.tagLimit { return None, true; }
            if chunks[k].e[i].Free? { return Some(t), false; }
          }
        }
        k := k + 1;
      }
      return None, false;
    }

    /** The lowest free tag under the limit, growing the table when every entry is held. */
    method AllocTag(flush: bool, memory: bool) returns (r: Option<Tag>)
      requires Valid()
      modifies `chunks
      ensures Valid() && Abs() == old(Abs())
      ensures r.Some? ==> (flush || OpShareHasRoom(Abs())) && Lowest(Abs(), r.value) && ChunkOf(c, r.value) < |chunks|
      ensures r.None? && memory && (flush || OpShareHasRoom(Abs())) ==> forall t: Tag :: t < cap.tagLimit ==> t in tags
    {
      OpsCounted(tags, n);
      if !flush && n.active - n.flush >= cap.opsMax { return None; }
      var atLimit;
      r, atLimit := FindFree();
      if r.Some? || atLimit { return; }
      ghost var k := |chunks|;
      r := Grow(memory);
      if r.Some? {
        TagOfPlace(c, k, 0);
        assert At(c, old(chunks), r.value) == SlotOf(tags, r.value);
      }
    }
  
    // --- walking ------------------------------------------------------------------

    /** The outstanding tag at or after `from`; skips idle chunks. */
    method NextActive(from: Tag) returns (r: Option<Tag>)
      requires Valid()
      ensures IsNext(tags, Every(), from, r)
    {
      var k: nat, i: nat := ChunkOf(c, from), IndexIn(c, from);
      SweepStarts(c, tags, Every(), from);
      while k < |chunks|
        invariant i < c && Swept(c, tags, Every(), from, k, i)
      {
        if chunks[k].nActive == 0 {
          IdleChunk(c, chunks, tags, k);
        } else {
          while i < c
            invariant i <= c && Swept(c, tags, Every(), from, k, i)
          {
            SweepSlot(c, chunks, tags, Every(), from, k, i);
            if chunks[k].e[i].Held? { return Some(TagOf(c, k, i)); }
            i := i + 1;
          }
        }
        k, i := k + 1, 0;
      }
      PastEnd(c, chunks, tags, Every(), from, k, i);
      return None;
    }

    /** The next tag that a synchronous waiter owns: what the reader hand-off looks for. */
    method NextSyncOwned(from: Tag) returns (r: Option<Tag>)
      requires Valid()
      ensures IsNext(tags, IsSync(), from, r)
    {
      var k: nat, i: nat := ChunkOf(c, from), IndexIn(c, from);
      SweepStarts(c, tags, IsSync(), from);
      while k < |chunks|
        invariant i < c && Swept(c, tags, IsSync(), from, k, i)
      {
        if chunks[k].nSync == 0 {
          IdleChunk(c, chunks, tags, k);
        } else {
          while i < c
            invariant i <= c && Swept(c, tags, IsSync(), from, k, i)
          {
            SweepSlot(c, chunks, tags, IsSync(), from, k, i);
            var x := chunks[k].e[i];
            if x.Held? && SyncOwned(x.e) { return Some(TagOf(c, k, i)); }
            i := i + 1;
          }
        }
        k, i := k + 1, 0;
      }
      PastEnd(c, chunks, tags, IsSync(), from, k, i);
      return None;
    }

    /** The lowest tag whose live op names `fid`. */
    method FindNamed(fid: Fid) returns (r: Option<Tag>)
      requires Valid()
      ensures IsNext(tags, Names(fid), 0, r)
    {
      var t: nat := 0;
      r := NextActive(0);
      while r.Some?
        invariant NoneIn(tags, Names(fid), 0, t) && IsNext(tags, Every(), t, r)
        decreases |Where(tags, From(t))|
      {
        NamesNext(tags, fid, t, r.value);
        var x := Lookup(r.value);
        if Live(x.e) && (x.e.fid == fid || x.e.newFid == fid) { return; }
        FromShrinks(tags, t, r.value);
        t := r.value + 1;
        r := NextActive(t);
      }
      NamesNone(tags, fid, t);
    }

    /** Whether a live op in flight names `fid`. */
    method AnyOutstandingOnFid(fid: Fid) returns (busy: bool)
      requires Valid()
      ensures busy <==> Busy(Abs(), fid)
    {
      var r := FindNamed(fid);
      NextIsBusy(Abs(), fid, r);
      return r.Some?;
    }

    // --- sends: `built` says that the encoder accepted the message ------------------

    ghost predicate NoTag(memory: bool)
      requires Valid()
      reads this, boundFids
    {
      memory ==> forall t: Tag :: t < cap.tagLimit ==> t in tags
    }

    method Slack() returns (b: bool)
      requires Valid()
      ensures b <==> SlotAvailable(Abs())
    {
      DistinctSize(boundFids[..nBound]);
      OpsCounted(tags, n);
      return nBound + n.reserved < cap.maxFids;
    }

    /** The gates of a walk, all but the tag. */
    method MayWalk(src: Fid, dst: Fid) returns (ok: bool)
      requires Valid()
      ensures ok && OpShareHasRoom(Abs()) ==> CanWalk(Abs(), src, dst)
      ensures !ok ==> !CanWalk(Abs(), src, dst)
    {
      var a := FidBound(src);
      if !a { return false; }
      var b := FidBound(dst);
      if b || dst == NOFID || dst == rootFid { return false; }
      var busy := AnyOutstandingOnFid(dst);
      if busy { return false; }
      ok := Slack();
    }

    /** Mark `t` outstanding with an op that holds a fid slot or none. */
    method PlaceOp(t: Tag, kind: Kind, fid: Fid, newFid: Fid, holds: bool)
      requires Valid() && ChunkOf(c, t) < |chunks| && t !in tags
      modifies `chunks, `n, `nextOpId, `tags
      ensures Valid()
      ensures Abs() == Place(old(Abs()), t, Fresh(kind, fid, newFid, old(nextOpId) + 1).(holdsSlot := holds))
    {
      MarkOutstanding(t, kind, fid, newFid);
      ghost var was, e := Abs(), Fresh(kind, fid, newFid, old(nextOpId) + 1);
      assert was.tags[t] == e;
      Replaced(old(Abs()), t, e, e.(holdsSlot := holds));
      if holds {
        SlotReserve(t);
      } else {
        assert Put(was, t, e) == was;
      }
    }

    method SetNames(t: Tag, nwname: nat)
      requires Valid() && t in tags
      modifies `chunks, `n, `tags
      ensures Valid()
      ensures Abs() == Put(old(Abs()), t, old(Abs()).tags[t].(walkNwname := nwname))
    {
      var x := Lookup(t);
      Amend(t, x.e.(walkNwname := nwname));
    }

    method StageWalk(t: Tag, kind: Kind, src: Fid, dst: Fid, nwname: nat)
      requires Valid() && ChunkOf(c, t) < |chunks| && t !in tags
      modifies `chunks, `n, `nextOpId, `tags
      ensures Valid()
      ensures Abs() == SendWalk(old(Abs()), t, kind, src, dst, nwname)
    {
      ghost var was := Abs();
      PlaceOp(t, kind, src, dst, dst != NOFID);
      ghost var mid := Abs();
      SetNames(t, nwname);
      WalkStaged(was, mid, Abs(), t, kind, src, dst, nwname);
    }

    method Walk(src: Fid, dst: Fid, nwname: nat, maxWalk: nat, memory: bool, built: bool) returns (r: Option<Tag>)
      requires Valid()
      modifies `chunks, `n, `nextOpId, `tags
      ensures Valid()
      ensures r.Some? ==> CanWalk(old(Abs()), src, dst) && Lowest(old(Abs()), r.value)
      ensures r.Some? ==> Abs() == SendWalk(old(Abs()), r.value, Kind.Walk, src, dst, nwname)
      ensures r.None? ==> Abs() == old(Abs())
      ensures r.Some? ==> built && nwname <= maxWalk
      ensures r.None? && built && nwname <= maxWalk && CanWalk(Abs(), src, dst) ==> NoTag(memory)
    {
      var ok := MayWalk(src, dst);
      if !ok || nwname > maxWalk { return None; }
      r := AllocTag(false, memory);
      if r.None? || !built { return None; }
      StageWalk(r.value, Kind.Walk, src, dst, nwname);
    }

    /** Twalkgetattr: a walk's gates apply only when it names a destination. */
    method WalkGetattr(src: Fid, dst: Fid, nwname: nat, maxWalk: nat, memory: bool, built: bool)
      returns (r: Option<Tag>)
      requires Valid()
      modifies `chunks, `n, `nextOpId, `tags
      ensures Valid()
      ensures r.Some? ==> CanWalkGetattr(old(Abs()), src, dst) && Lowest(old(Abs()), r.value)
      ensures r.Some? ==> Abs() == SendWalk(old(Abs()), r.value, Kind.WalkGetattr, src, dst, nwname)
      ensures r.None? ==> Abs() == old(Abs())
      ensures r.Some? ==> built && nwname <= maxWalk
      ensures r.None? && built && nwname <= maxWalk && CanWalkGetattr(Abs(), src, dst) ==> NoTag(memory)
    {
      var ok := FidBound(src);
      if !ok || nwname > maxWalk { return None; }
      if dst != NOFID {
        ok := MayWalk(src, dst);
        if !ok { return None; }
      }
      r := AllocTag(false, memory);
      if r.None? || !built { return None; }
      StageWalk(r.value, Kind.WalkGetattr, src, dst, nwname);
    }

    /** An op that binds nothing; one that changes what the fid names must have the fid to itself. */
    method PlainOp(code: nat, fid: Fid, exclusive: bool, memory: bool, built: bool) returns (r: Option<Tag>)
      requires Valid()
      modifies `chunks, `n, `nextOpId, `tags
      ensures Valid()
      ensures r.Some? ==> CanPlain(old(Abs()), fid, exclusive) && Lowest(old(Abs()), r.value)
      ensures r.Some? ==> Abs() == SendPlain(old(Abs()), r.value, code, fid)
      ensures r.None? ==> Abs() == old(Abs())
      ensures r.Some? ==> built
      ensures r.None? && built && CanPlain(Abs(), fid, exclusive) ==> NoTag(memory)
    {
      var a := FidBound(fid);
      if !a { return None; }
      if exclusive {
        var busy := AnyOutstandingOnFid(fid);
        if busy { return None; }
      }
      r := AllocTag(false, memory);
      if r.None? || !built { return None; }
      MarkOutstanding(r.value, Kind.Plain(code), fid, fid);
    }

    method StageClunk(t: Tag, fid: Fid)
      requires Valid() && ChunkOf(c, t) < |chunks| && t !in tags
      modifies `chunks, `n, `nextOpId, `tags, `nBound, boundFids
      ensures Valid()
      ensures Abs() == SendClunk(old(Abs()), t, fid)
    {
      var ok := FidUnbind(fid);
      PlaceOp(t, Kind.Clunk, fid, fid, true);
    }

    method Clunk(fid: Fid, memory: bool, built: bool) returns (r: Option<Tag>)
      requires Valid()
      modifies `chunks, `n, `nextOpId, `tags, `nBound, boundFids
      ensures Valid()
      ensures r.Some? ==> CanClunk(old(Abs()), fid) && Lowest(old(Abs()), r.value)
      ensures r.Some? ==> Abs() == SendClunk(old(Abs()), r.value, fid)
      ensures r.None? ==> Abs() == old(Abs())
      ensures r.Some? ==> built
      ensures r.None? && built && CanClunk(Abs(), fid) ==> NoTag(memory)
    {
      var a := FidBound(fid);
      if !a || fid == rootFid { return None; }
      var busy := AnyOutstandingOnFid(fid);
      if busy { return None; }
      r := AllocTag(false, memory);
      if r.None? || !built { return None; }
      StageClunk(r.value, fid);
    }

    method MarkFlush(t: Tag, victim: Tag)
      requires Valid() && ChunkOf(c, t) < |chunks| && t !in tags
      modifies `chunks, `n, `nextOpId, `tags
      ensures Valid()
      ensures Abs() == Place(old(Abs()), t, FlushEntry(old(Abs()), victim))
    {
      MarkOutstanding(t, Kind.Flush, rootFid, rootFid);
      var x := Lookup(t);
      Replaced(old(Abs()), t, x.e, x.e.(flushOldtag := victim));
      Amend(t, x.e.(flushOldtag := victim));
    }

    method MarkVictim(t: Tag, victim: Tag)
      requires Valid() && victim in tags
      modifies `chunks, `n, `tags
      ensures Valid()
      ensures Abs() == Put(old(Abs()), victim, old(Abs()).tags[victim].(awaitingFlush := true, flushTag := t))
    {
      var v := Lookup(victim);
      Amend(victim, v.e.(awaitingFlush := true, flushTag := t));
    }

    method StageFlush(t: Tag, victim: Tag)
      requires Valid() && ChunkOf(c, t) < |chunks| && t !in tags && victim in tags
      modifies `chunks, `n, `nextOpId, `tags
      ensures Valid()
      ensures Abs() == SendFlush(old(Abs()), t, victim)
    {
      ghost var was := Abs();
      MarkFlush(t, victim);
      ghost var mid := Abs();
      MarkVictim(t, victim);
      FlushStaged(was, mid, Abs(), t, victim);
    }

    method Flush(victim: Tag, memory: bool, built: bool) returns (r: Option<Tag>)
      requires Valid()
      modifies `chunks, `n, `nextOpId, `tags
      ensures Valid()
      ensures r.Some? ==> CanFlush(old(Abs()), victim) && Lowest(old(Abs()), r.value)
      ensures r.Some? ==> Abs() == SendFlush(old(Abs()), r.value, victim)
      ensures r.None? ==> Abs() == old(Abs())
      ensures r.Some? ==> built
      ensures r.None? && built && CanFlush(Abs(), victim) ==> NoTag(memory)
      ensures memory && built && SI.Inv(old(Abs())) && CanFlush(old(Abs()), victim) ==> r.Some?
    {
      if SI.Inv(Abs()) && CanFlush(Abs(), victim) { SI.FlushFindsTag(Abs(), victim); }
      var v := Lookup(victim);
      if v.Free? || v.e.kind.Flush? || v.e.awaitingFlush { return None; }
      r := AllocTag(true, memory);
      if r.None? || !built { return None; }
      StageFlush(r.value, victim);
    }

    // --- take-backs -----------------------------------------------------------------

    method Retract(t: Tag) returns (ok: bool)
      requires Valid()
      modifies `chunks, `n, `tags, `nBound, boundFids
      ensures Valid()
      ensures (Abs(), ok) == RetractUnsent(old(Abs()), t)
    {
      var x := Lookup(t);
      if x.Free? || x.e.awaitingFlush || x.e.abandoned { return false; }
      ok := true;
      if x.e.kind.Clunk? { ok := BindSlot(t, x.e.fid); }
      ClearOutstanding(t);
    }

    method Unstage(victim: Tag) returns (ok: bool)
      requires Valid()
      modifies `chunks, `n, `tags
      ensures Valid()
      ensures (Abs(), ok) == FlushUnstage(old(Abs()), victim)
    {
      var v := Lookup(victim);
      if v.Free? || !v.e.awaitingFlush { return false; }
      var f := Lookup(v.e.flushTag);
      if f.Free? || !f.e.kind.Flush? || f.e.flushOldtag != victim { return false; }
      ClearOutstanding(v.e.flushTag);
      if victim != v.e.flushTag {
        Amend(victim, v.e.(awaitingFlush := false, ownerWaits := false, flushTag := 0));
      }
      return true;
    }
  
    /** Take back a Tflush whose owner is gone: the victim is left to its late reply. */
    method Rollback(victim: Tag)
      requires Valid()
      modifies `chunks, `n, `tags
      ensures Valid()
      ensures Abs() == FlushRollback(old(Abs()), victim)
    {
      var ok := Unstage(victim);
      if !ok { return; }
      var v := Lookup(victim);
      if v.Held? { Amend(victim, v.e.(abandoned := true)); }
    }

    /** Reclaim the tag of a frame that never left. */
    method Abort(t: Tag)
      requires Valid()
      modifies `chunks, `n, `tags
      ensures Valid()
      ensures Abs() == AbortUnsent(old(Abs()), t)
    {
      var x := Lookup(t);
      if x.Free? || x.e.awaitingFlush || x.e.abandoned { return; }
      ClearOutstanding(t);
    }

    method Abandon(t: Tag)
      requires Valid()
      modifies `chunks, `n, `tags
      ensures Valid()
      ensures Abs() == MarkAbandoned(old(Abs()), t)
    {
      var x := Lookup(t);
      if x.Free? || x.e.awaitingFlush { return; }
      Amend(t, x.e.(abandoned := true));
    }

    method OwnerWaits(victim: Tag, waits: bool)
      requires Valid()
      modifies `chunks, `n, `tags
      ensures Valid()
      ensures Abs() == FlushOwnerWaits(old(Abs()), victim, waits)
    {
      var x := Lookup(victim);
      if x.Free? || !x.e.awaitingFlush { return; }
      Amend(victim, x.e.(ownerWaits := waits));
    }

    // --- replies ---------------------------------------------------------------------

    method HonourLate(t: Tag, r: Reply) returns (boundFid: Fid)
      requires Valid() && t in tags
      modifies `chunks, `n, `tags, `nBound, boundFids
      ensures Valid()
      ensures Applied(Abs(), true, false, boundFid) == HonourLateWalk(old(Abs()), t, r)
    {
      boundFid := NOFID;
      var x := Lookup(t);
      if !x.e.holdsSlot || !FullWalk(x.e, r) { return; }
      var ok := BindSlot(t, x.e.newFid);
      if ok { boundFid := x.e.newFid; }
    }

    method ApplyReply(t: Tag, r: Reply) returns (ok: bool, isError: bool, boundFid: Fid)
      requires Valid() && t in tags
      modifies `chunks, `n, `tags, `nBound, boundFids
      ensures Valid()
      ensures Applied(Abs(), ok, isError, boundFid) == Apply(old(Abs()), t, r)
    {
      boundFid := NOFID;
      var x := Lookup(t);
      if !Fits(x.e, r) { return false, false, NOFID; }
      ok, isError := true, r.rtype.RError?;
      if isError { return; }
      if FullWalk(x.e, r) && (x.e.kind.Walk? || x.e.newFid != NOFID) {
        var b := BindSlot(t, x.e.newFid);
        isError := !b;
        if b { boundFid := x.e.newFid; }
      } else if x.e.kind.Flush? {
        var v := Lookup(x.e.flushOldtag);
        if v.Held? && v.e.awaitingFlush { ClearOutstanding(x.e.flushOldtag); }
      }
    }

    /** Demultiplex a reply onto the op its tag names.  No flush names its own tag (a fact of
        SessionInv.FlushLinks), so the tag is still held when it is cleared. */
    method DispatchReply(r: Reply) returns (ok: bool, isError: bool, boundFid: Fid)
      requires Valid()
      requires r.tag in tags && tags[r.tag].kind.Flush? ==> tags[r.tag].flushOldtag != r.tag
      modifies `chunks, `n, `tags, `nBound, boundFids
      ensures Valid()
      ensures Applied(Abs(), ok, isError, boundFid) == Dispatch(old(Abs()), r)
    {
      var x := Lookup(r.tag);
      if x.Free? { return false, false, NOFID; }
      if x.e.awaitingFlush {
        boundFid := HonourLate(r.tag, r);
        return true, false, boundFid;
      }
      ok, isError, boundFid := ApplyReply(r.tag, r);
      if ok { ClearOutstanding(r.tag); }
    }

    method DispatchFlushedReply(r: Reply) returns (ok: bool, isError: bool, boundFid: Fid)
      requires Valid()
      modifies `chunks, `n, `tags, `nBound, boundFids
      ensures Valid()
      ensures Applied(Abs(), ok, isError, boundFid) == DispatchFlushed(old(Abs()), r)
    {
      var x := Lookup(r.tag);
      if x.Free? || !x.e.awaitingFlush { return false, false, NOFID; }
      ok, isError, boundFid := ApplyReply(r.tag, r);
      var y := Lookup(r.tag);
      if y.Held? { Amend(r.tag, y.e.(ownerWaits := false)); }
    }
  }
}
