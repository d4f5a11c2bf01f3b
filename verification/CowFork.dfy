/**
 Forking an address space.  `b0` and `s0` are the Burrows and slots at the fork's start; `origin`
 names the source of every clone the fork has minted so far.
 */
module CowFork {
  import opened Options
  import opened CowMemory
  import opened Sets

  // ---------------------------------------------------------------------------
  // What a half-built fork looks like.
  // ---------------------------------------------------------------------------

  /** A state no fork is working on: no cursor is parked and every Burrow is held or mapped. */
  ghost predicate Settled(b0: Burrows, s0: Slots) {
    && SlotsOwned(b0, s0)
    && forall b | b in b0 :: b0[b].cursor.None? && b0[b].handles + b0[b].mappings > 0
  }

  ghost predicate Injective(m: Clones) { forall c, d | c in m && d in m && m[c] == m[d] :: c == d }

  ghost predicate Known(vs: seq<Vma>, burrows: Burrows) {
    forall i | 0 <= i < |vs| :: vs[i].burrow.Some? ==> vs[i].burrow.value in burrows
  }

  ghost predicate SourceOk(b0: Burrows, vs: seq<Vma>, origin: Clones, b: BurrowId, x: Burrow)
    requires b in b0
  {
    && x == b0[b].(mappings := b0[b].mappings + Count(vs, b), cursor := x.cursor)
    && (x.cursor.Some? ==> x.cursor.value in origin && origin[x.cursor.value] == b)
  }

  ghost predicate CloneOk(b0: Burrows, vs: seq<Vma>, source: BurrowId, c: BurrowId, x: Burrow) {
    && source in b0 && b0[source].kind.Lazy? && b0[source].pageCount > 0
    && x == Burrow(Lazy, b0[source].pageCount, 0, Count(vs, c), None)
  }

  /** The Burrows: the sources as found but for the child's mappings and a cursor, and the
      clones, which nothing but the child's mappings holds. */
  ghost predicate BurrowsOk(b0: Burrows, burrows: Burrows, vs: seq<Vma>, origin: Clones) {
    && burrows.Keys == b0.Keys + origin.Keys && b0.Keys !! origin.Keys && Known(vs, burrows)
    && (forall b {:trigger SourceOk(b0, vs, origin, b, burrows[b])} | b in b0 ::
        SourceOk(b0, vs, origin, b, burrows[b]))
    && (forall c {:trigger CloneOk(b0, vs, origin[c], c, burrows[c])} | c in origin ::
        CloneOk(b0, vs, origin[c], c, burrows[c]))
    && Injective(origin)
  }

  ghost predicate SlotOk(s0: Slots, slots: Slots, origin: Clones, k: SlotId) {
    && (k in slots <==> k in s0 || (k.0 in origin && (origin[k.0], k.1) in s0))
    && (k in s0 ==> k in slots && slots[k] == s0[k])
    && (k in slots && k !in s0 ==> slots[k] == s0[(origin[k.0], k.1)])
  }

  /** The slots: those found, and each clone's mirror of its source. */
  ghost predicate SlotsOk(s0: Slots, slots: Slots, origin: Clones) {
    forall k: SlotId {:trigger SlotOk(s0, slots, origin, k)} :: SlotOk(s0, slots, origin, k)
  }

  ghost predicate Building(b0: Burrows, s0: Slots, burrows: Burrows, slots: Slots, vs: seq<Vma>, origin: Clones) {
    BurrowsOk(b0, burrows, vs, origin) && SlotsOk(s0, slots, origin)
  }

  /** Every clone is parked on its source's cursor. */
  ghost predicate Parked(burrows: Burrows, origin: Clones) {
    forall c | c in origin :: origin[c] in burrows && burrows[origin[c]].cursor == Some(c)
  }

  ghost predicate AllMapped(vs: seq<Vma>, origin: Clones) { forall c | c in origin :: Count(vs, c) > 0 }

  // ---------------------------------------------------------------------------
  // What each step does to it.
  // ---------------------------------------------------------------------------

  lemma UnknownUncounted(vs: seq<Vma>, burrows: Burrows, d: BurrowId)
    requires Known(vs, burrows) && d !in burrows
    ensures Count(vs, d) == 0
  {
    CountNamed(vs, d);
  }

  /** A child mapping of a Burrow that is already there. */
  lemma MapBuilds(b0: Burrows, burrows: Burrows, vs: seq<Vma>, origin: Clones, v: Vma)
    requires BurrowsOk(b0, burrows, vs, origin) && (v.burrow.Some? ==> v.burrow.value in burrows)
    ensures BurrowsOk(b0, if v.burrow.None? then burrows else
      var b := v.burrow.value; burrows[b := burrows[b].(mappings := burrows[b].mappings + 1)], vs + [v], origin)
  {
    var u := if v.burrow.None? then burrows else
      var b := v.burrow.value; burrows[b := burrows[b].(mappings := burrows[b].mappings + 1)];
    forall b | b in b0
      ensures SourceOk(b0, vs + [v], origin, b, u[b])
    {
      CountAppend(vs, v, b);
      assert SourceOk(b0, vs, origin, b, burrows[b]);
    }
    forall c | c in origin
      ensures CloneOk(b0, vs + [v], origin[c], c, u[c])
    {
      CountAppend(vs, v, c);
      assert CloneOk(b0, vs, origin[c], c, burrows[c]);
    }
    assert u.Keys == burrows.Keys;
  }

  lemma MapKeepsMapped(vs: seq<Vma>, origin: Clones, v: Vma)
    requires AllMapped(vs, origin)
    ensures AllMapped(vs + [v], origin)
  {
    forall c | c in origin ensures Count(vs + [v], c) > 0 { CountAppend(vs, v, c); }
  }

  /** A first mapping of a lazy source: its clone `d` is minted, parked and mapped once. */
  lemma MintBuilds(b0: Burrows, burrows: Burrows, vs: seq<Vma>, origin: Clones, b: BurrowId, d: BurrowId, v: Vma)
    requires BurrowsOk(b0, burrows, vs, origin) && Parked(burrows, origin)
    requires b in b0 && b0[b].kind.Lazy? && b0[b].pageCount > 0 && burrows[b].cursor.None?
    requires d !in burrows && v.burrow == Some(d)
    ensures BurrowsOk(b0, burrows[b := burrows[b].(cursor := Some(d))][d := Burrow(Lazy, b0[b].pageCount, 0, 1, None)],
        vs + [v], origin[d := b])
  {
    var u := burrows[b := burrows[b].(cursor := Some(d))][d := Burrow(Lazy, b0[b].pageCount, 0, 1, None)];
    var o := origin[d := b];
    UnknownUncounted(vs, burrows, d);
    forall x | x in b0
      ensures SourceOk(b0, vs + [v], o, x, u[x])
    {
      CountAppend(vs, v, x);
      assert SourceOk(b0, vs, origin, x, burrows[x]);
    }
    forall c | c in o
      ensures CloneOk(b0, vs + [v], o[c], c, u[c])
    {
      CountAppend(vs, v, c);
      if c != d { assert CloneOk(b0, vs, origin[c], c, burrows[c]); }
    }
    assert u.Keys == b0.Keys + o.Keys;
  }

  lemma MintSlots(b0: Burrows, s0: Slots, slots: Slots, u: Slots, origin: Clones, b: BurrowId, d: BurrowId)
    requires SlotsOwned(b0, s0) && SlotsOk(s0, slots, origin) && Mirror(slots, u, b, d)
    requires b !in origin && d !in origin && d !in b0
    ensures SlotsOk(s0, u, origin[d := b])
  {
    var o := origin[d := b];
    forall k: SlotId
      ensures SlotOk(s0, u, o, k)
    {
      assert MirrorAt(slots, u, b, d, k);
      assert SlotOk(s0, slots, origin, k) && SlotOk(s0, slots, origin, (b, k.1));
    }
  }

  // ---------------------------------------------------------------------------
  // Building the child.
  // ---------------------------------------------------------------------------

  /** A fork in progress, between two mappings. */
  ghost predicate Forking(b0: Burrows, s0: Slots, burrows: Burrows, slots: Slots, vs: seq<Vma>, origin: Clones) {
    Settled(b0, s0) && Building(b0, s0, burrows, slots, vs, origin) && Parked(burrows, origin) && AllMapped(vs, origin)
  }

  function Mapped(burrows: Burrows, v: Vma): Burrows {
    if v.burrow.None? || v.burrow.value !in burrows then burrows
    else burrows[v.burrow.value := burrows[v.burrow.value].(mappings := burrows[v.burrow.value].mappings + 1)]
  }

  lemma MapForks(b0: Burrows, s0: Slots, burrows: Burrows, slots: Slots, vs: seq<Vma>, origin: Clones, v: Vma)
    requires Forking(b0, s0, burrows, slots, vs, origin) && (v.burrow.Some? ==> v.burrow.value in burrows)
    ensures Forking(b0, s0, Mapped(burrows, v), slots, vs + [v], origin)
  {
    MapBuilds(b0, burrows, vs, origin, v);
    MapKeepsMapped(vs, origin, v);
  }

  function Minted(burrows: Burrows, b: BurrowId, d: BurrowId): Burrows
    requires b in burrows
  {
    burrows[b := burrows[b].(cursor := Some(d))][d := Burrow(Lazy, burrows[b].pageCount, 0, 1, None)]
  }

  lemma MintForks(b0: Burrows, s0: Slots, burrows: Burrows, slots: Slots, u: Slots, vs: seq<Vma>, origin: Clones,
                  b: BurrowId, d: BurrowId, v: Vma)
    requires Forking(b0, s0, burrows, slots, vs, origin) && b in b0 && b0[b].kind.Lazy? && burrows[b].cursor.None?
    requires d !in burrows && v.burrow == Some(d) && Mirror(slots, u, b, d) && b0[b].pageCount > 0
    ensures Forking(b0, s0, Minted(burrows, b, d), u, vs + [v], origin[d := b])
  {
    assert SourceOk(b0, vs, origin, b, burrows[b]);
    MintBuilds(b0, burrows, vs, origin, b, d, v);
    MintSlots(b0, s0, slots, u, origin, b, d);
    MintMapped(burrows, vs, origin, b, d, v);
    MintParked(b0, burrows, vs, origin, b, d);
  }

  lemma MintMapped(burrows: Burrows, vs: seq<Vma>, origin: Clones, b: BurrowId, d: BurrowId, v: Vma)
    requires AllMapped(vs, origin) && v.burrow == Some(d)
    ensures AllMapped(vs + [v], origin[d := b])
  {
    forall c | c in origin[d := b] ensures Count(vs + [v], c) > 0 { CountAppend(vs, v, c); }
  }

  lemma MintParked(b0: Burrows, burrows: Burrows, vs: seq<Vma>, origin: Clones, b: BurrowId, d: BurrowId)
    requires BurrowsOk(b0, burrows, vs, origin) && Parked(burrows, origin) && b in b0 && burrows[b].cursor.None?
    requires d !in burrows
    ensures Parked(Minted(burrows, b, d), origin[d := b])
  {
    forall c | c in origin
      ensures origin[c] in burrows && origin[c] != b
    {
      assert CloneOk(b0, vs, origin[c], c, burrows[c]);
    }
  }

  /** The mapping the child gets for `v`, over Burrow `b`. */
  function Child(v: Vma, b: BurrowId, lazy: bool): Vma { v.(burrow := Some(b), cow := lazy, sharedIn := false) }

  function Guard(v: Vma): Vma { Vma(v.start, v.end, 0, false, None, 0, false, false) }

  /** Which mappings a fork can reproduce. */
  predicate Forkable(b0: Burrows, v: Vma) {
    match v.burrow
    case None => true
    case Some(b) =>
      && b in b0 && !v.sharedIn
      && ((b0[b].kind.Lazy? && b0[b].pageCount > 0) || ((b0[b].kind.File? || b0[b].kind.Anon?) && !v.ceilingWrites))
  }

  /** `nv` is the child's counterpart of `v`: a guard, a shared read-only mapping, or a
      copy-on-write mapping of the source's one clone. */
  ghost predicate IsChild(b0: Burrows, origin: Clones, v: Vma, nv: Vma) {
    && Forkable(b0, v)
    && match v.burrow
       case None => nv == Guard(v)
       case Some(b) =>
         && nv.burrow.Some? && nv == Child(v, nv.burrow.value, b0[b].kind.Lazy?)
         && if b0[b].kind.Lazy? then nv.burrow.value in origin && origin[nv.burrow.value] == b else nv.burrow.value == b
  }

  /** Map a Burrow that is already there into the child. */
  method MapExisting(k: Kernel, dst: AddrSpace, nv: Vma) returns (ok: bool)
    requires k.Valid() && nv.burrow.Some? && nv.burrow.value in k.burrows
    requires k.burrows[nv.burrow.value].handles + k.burrows[nv.burrow.value].mappings > 0
    modifies k`burrows, dst`vmas
    ensures k.Valid()
    ensures k.burrows == if ok then Mapped(old(k.burrows), nv) else old(k.burrows)
    ensures dst.vmas == if ok then old(dst.vmas) + [nv] else old(dst.vmas)
    ensures k.plenty ==> ok
  {
    var noVma: bool, refused: bool := *, *;
    if noVma && !k.plenty { return false; }
    k.AcquireMapping(nv.burrow.value);
    if refused && !k.plenty {
      var dead := k.ReleaseMapping(nv.burrow.value);
      assert k.burrows == old(k.burrows);
      return false;
    }
    dst.vmas := dst.vmas + [nv];
    return true;
  }

  method Park(k: Kernel, b: BurrowId, c: Option<BurrowId>)
    requires k.Valid() && b in k.burrows
    modifies k`burrows
    ensures k.Valid() && k.burrows == old(k.burrows)[b := old(k.burrows)[b].(cursor := c)]
  {
    k.burrows := k.burrows[b := k.burrows[b].(cursor := c)];
  }

  /** Take back a clone that no mapping names: the source's cursor, and the clone with its shares. */
  method Unmint(k: Kernel, b: BurrowId, d: BurrowId, ghost burrows: Burrows, ghost slots: Slots)
    requires k.Valid() && JustMinted(burrows, slots, k.burrows, k.slots, b, d)
    modifies k
    ensures k.Valid() && k.burrows == burrows && k.slots == slots
  {
    Park(k, b, None);
    ghost var mirrored := k.slots;
    var freed := k.UnrefHandle(d);
    assert k.burrows == burrows;
    forall x: SlotId
      ensures x in k.slots <==> x in slots
      ensures x in slots ==> k.slots[x] == slots[x]
    {
      assert MirrorAt(slots, mirrored, b, d, x);
    }
    assert k.slots == slots;
  }

  /** A clone of `b` just minted and parked: nothing but its construction handle holds it. */
  ghost predicate JustMinted(burrows: Burrows, slots: Slots, w: Burrows, u: Slots, b: BurrowId, d: BurrowId) {
    && b in burrows && burrows[b].cursor.None? && d !in burrows && (forall i: nat :: (d, i) !in slots)
    && w == burrows[b := burrows[b].(cursor := Some(d))][d := Burrow(Lazy, burrows[b].pageCount, 1, 0, None)]
    && Mirror(slots, u, b, d)
  }

  /** Map the clone once and drop its construction handle, or take it back. */
  method MapMinted(k: Kernel, dst: AddrSpace, v: Vma, b: BurrowId, d: BurrowId, ghost burrows: Burrows,
                   ghost slots: Slots)
    returns (ok: bool)
    requires k.Valid() && JustMinted(burrows, slots, k.burrows, k.slots, b, d)
    modifies k, dst`vmas
    ensures k.Valid()
    ensures !ok ==> k.burrows == burrows && k.slots == slots && dst.vmas == old(dst.vmas)
    ensures ok ==> k.burrows == Minted(burrows, b, d) && k.slots == old(k.slots)
    ensures ok ==> dst.vmas == old(dst.vmas) + [Child(v, d, true)]
    ensures k.plenty ==> ok
  {
    var noVma: bool, refused: bool := *, *;
    if noVma && !k.plenty {
      Unmint(k, b, d, burrows, slots);
      return false;
    }
    k.AcquireMapping(d);
    if refused && !k.plenty {
      var dead := k.ReleaseMapping(d);
      Unmint(k, b, d, burrows, slots);
      return false;
    }
    dst.vmas := dst.vmas + [Child(v, d, true)];
    var freed := k.UnrefHandle(d);
    assert k.slots == old(k.slots);
    return true;
  }

  /** Mint the clone of lazy Burrow `b`, park it on the source's cursor and map it once. */
  method MintAndMap(k: Kernel, dst: AddrSpace, v: Vma, b: BurrowId) returns (r: Option<BurrowId>)
    requires k.Valid() && b in k.burrows && k.burrows[b].kind.Lazy? && k.burrows[b].cursor.None?
    modifies k, dst`vmas
    ensures k.Valid()
    ensures r.None? ==> k.burrows == old(k.burrows) && k.slots == old(k.slots) && dst.vmas == old(dst.vmas)
    ensures r.Some? ==> r.value !in old(k.burrows) && Mirror(old(k.slots), k.slots, b, r.value)
    ensures r.Some? ==> k.burrows == Minted(old(k.burrows), b, r.value)
    ensures r.Some? ==> dst.vmas == old(dst.vmas) + [Child(v, r.value, true)] && old(k.burrows)[b].pageCount > 0
    ensures k.plenty && old(k.burrows)[b].pageCount > 0 ==> r.Some?
  {
    r := k.CloneCow(b);
    if r.None? { return; }
    Park(k, b, r);
    assert k.burrows == old(k.burrows)[b := old(k.burrows)[b].(cursor := r)]
                        [r.value := Burrow(Lazy, old(k.burrows)[b].pageCount, 1, 0, None)];
    var ok := MapMinted(k, dst, v, b, r.value, old(k.burrows), old(k.slots));
    if !ok { return None; }
  }

  ghost predicate Extends(origin: Clones, o: Clones, v: Vma) {
    && (forall c | c in origin :: c in o && o[c] == origin[c])
    && (forall c | c in o :: c in origin || v.burrow == Some(o[c]))
  }

  /** The child gained the counterpart of `v`. */
  ghost predicate Gained(b0: Burrows, o: Clones, before: seq<Vma>, after: seq<Vma>, v: Vma) {
    |after| == |before| + 1 && after[..|before|] == before && IsChild(b0, o, v, after[|before|])
  }

  /** What a fork in progress knows of one source Burrow. */
  lemma SourceView(b0: Burrows, s0: Slots, burrows: Burrows, slots: Slots, vs: seq<Vma>, origin: Clones, b: BurrowId)
    requires Forking(b0, s0, burrows, slots, vs, origin) && b in b0
    ensures b in burrows && burrows[b].kind == b0[b].kind && burrows[b].handles + burrows[b].mappings > 0
    ensures burrows[b].pageCount == b0[b].pageCount && (burrows[b].cursor.Some? ==> b0[b].pageCount > 0)
    ensures burrows[b].cursor.Some? ==>
        var c := burrows[b].cursor.value; c in origin && origin[c] == b && c in burrows && burrows[c].mappings > 0
  {
    assert SourceOk(b0, vs, origin, b, burrows[b]);
    if burrows[b].cursor.Some? {
      var c := burrows[b].cursor.value;
      assert CloneOk(b0, vs, origin[c], c, burrows[c]);
    }
  }

  // ---------------------------------------------------------------------------
  // What the child pays.
  // ---------------------------------------------------------------------------

  /** The slots that the clones have for the slots `ks` of their sources. */
  ghost function Moved(origin: Clones, ks: set<SlotId>): set<SlotId> {
    set c, k | c in origin && k in ks && k.0 == origin[c] :: (c, k.1)
  }

  /** One more slot is moved to one more place. */
  lemma MovedNext(origin: Clones, rest: set<SlotId>, k: SlotId, c: BurrowId)
    requires Injective(origin) && c in origin && origin[c] == k.0 && k !in rest
    ensures Moved(origin, rest + {k}) == Moved(origin, rest) + {(c, k.1)} && (c, k.1) !in Moved(origin, rest)
  {
  }

  /** Every slot of `ks` lies in a Burrow that was cloned. */
  ghost predicate AllCloned(origin: Clones, ks: set<SlotId>) { forall k | k in ks :: k.0 in origin.Values }

  lemma MovedStep(origin: Clones, rest: set<SlotId>, k: SlotId)
    requires Injective(origin) && k.0 in origin.Values && k !in rest
    ensures |Moved(origin, rest + {k})| == |Moved(origin, rest)| + 1
  {
    var c :| c in origin && origin[c] == k.0;
    MovedNext(origin, rest, k, c);
  }

  lemma {:induction false} MovedSize(origin: Clones, ks: set<SlotId>)
    requires Injective(origin) && AllCloned(origin, ks)
    ensures |Moved(origin, ks)| == |ks|
  {
    if ks == {} {
      assert Moved(origin, ks) == {};
    } else {
      var k :| k in ks;
      var rest := ks - {k};
      MovedSize(origin, rest);
      MovedStep(origin, rest, k);
      assert ks == rest + {k};
    }
  }

  /** The slots of the clones, which the child pays for. */
  ghost function Paid(slots: Slots, origin: Clones): set<SlotId> {
    set x | x in slots && x.0 in origin
  }

  lemma PaidGrows(burrows: Burrows, slots: Slots, u: Slots, origin: Clones, b: BurrowId, d: BurrowId)
    requires Mirror(slots, u, b, d) && d !in origin && d in burrows && SlotsOwned(burrows, u)
    ensures |Paid(u, origin[d := b])| == |Paid(slots, origin)| + |Resident(u, d, 0, burrows[d].pageCount)|
  {
    var kept, more := Paid(slots, origin), Resident(u, d, 0, burrows[d].pageCount);
    forall x: SlotId
      ensures x in Paid(u, origin[d := b]) <==> x in kept || x in more
    {
      assert MirrorAt(slots, u, b, d, x);
    }
    assert Paid(u, origin[d := b]) == kept + more && kept !! more;
  }

  /** The slots of the Burrows that were cloned. */
  ghost function Sourced(s0: Slots, origin: Clones): set<SlotId> { set k | k in s0 && k.0 in origin.Values }

  ghost function SlotsOf(s0: Slots, b: BurrowId): set<SlotId> { set k | k in s0 && k.0 == b }

  /** What the child pays for is what the cloned Burrows hold. */
  lemma PaidIsSourced(b0: Burrows, s0: Slots, burrows: Burrows, slots: Slots, vs: seq<Vma>, origin: Clones)
    requires Building(b0, s0, burrows, slots, vs, origin) && SlotsOwned(b0, s0)
    ensures |Paid(slots, origin)| == |Sourced(s0, origin)|
  {
    var ks := Sourced(s0, origin);
    forall k: SlotId
      ensures k in Paid(slots, origin) <==> k in Moved(origin, ks)
    {
      assert SlotOk(s0, slots, origin, k);
      if k.0 in origin { assert origin[k.0] in origin.Values; }
    }
    assert Paid(slots, origin) == Moved(origin, ks);
    MovedSize(origin, ks);
  }

  /** A clone has as many slots as its source had when the fork began. */
  lemma CloneSize(b0: Burrows, s0: Slots, slots: Slots, u: Slots, w: Burrows, origin: Clones, b: BurrowId, d: BurrowId)
    requires SlotsOk(s0, slots, origin) && Mirror(slots, u, b, d) && SlotsOwned(w, u) && d in w
    requires b in b0 && b !in origin && (forall i: nat :: (d, i) !in slots)
    ensures |Resident(u, d, 0, w[d].pageCount)| == |SlotsOf(s0, b)|
  {
    var o: Clones := map[d := b];
    var ks := SlotsOf(s0, b);
    forall k: SlotId
      ensures k in Resident(u, d, 0, w[d].pageCount) <==> k in Moved(o, ks)
    {
      assert MirrorAt(slots, u, b, d, k) && SlotOk(s0, slots, origin, (b, k.1));
      assert d in o && o[d] == b;
    }
    assert Resident(u, d, 0, w[d].pageCount) == Moved(o, ks);
    assert b in o.Values by { assert o[d] == b; }
    MovedSize(o, ks);
  }

  /** The counter can express `n` pages, and the budget allows them. */
  predicate Fits(n: nat, budget: nat, exempt: bool) { n < 0x1_0000_0000 && (n <= budget || exempt) }

  /** The clone that mapping `v` still needs, if it needs one, can be paid for on top of `pages`. */
  ghost predicate Payable(b0: Burrows, s0: Slots, origin: Clones, v: Vma, pages: nat, budget: nat, exempt: bool) {
    v.burrow.Some? && v.burrow.value in b0 && b0[v.burrow.value].kind.Lazy? && v.burrow.value !in origin.Values ==>
      Fits(pages + |SlotsOf(s0, v.burrow.value)|, budget, exempt)
  }

  /** What the child paid follows the clones. */
  ghost predicate Pays(before: nat, after: nat, s: Slots, o: Clones, u: Slots, w: Clones) {
    before == |Paid(s, o)| ==> after == |Paid(u, w)|
  }

  /** Charge the child for the pages of clone `d`. */
  method PayFor(k: Kernel, dst: AddrSpace, exempt: bool, d: BurrowId) returns (ok: bool)
    requires k.Valid() && d in k.burrows
    modifies dst`pages
    ensures ok ==> dst.pages == old(dst.pages) + |Resident(k.slots, d, 0, k.burrows[d].pageCount)|
    ensures Fits(old(dst.pages) + |Resident(k.slots, d, 0, k.burrows[d].pageCount)|, dst.budget, exempt) ==> ok
    ensures Fits(old(dst.pages), dst.budget, exempt) ==> Fits(dst.pages, dst.budget, exempt)
    ensures !exempt && old(dst.pages) <= dst.budget ==> dst.pages <= dst.budget
  {
    var footprint := CountSlots(k, d);
    ok := true;
    if footprint > 0 { ok := dst.Charge(footprint, exempt); }
  }

  /** The first piece of a lazy source mints its clone, and the child pays for its pages. */
  method CloneFirstPiece(k: Kernel, dst: AddrSpace, exempt: bool, v: Vma, b: BurrowId, ghost b0: Burrows,
                         ghost s0: Slots, ghost origin: Clones)
    returns (ok: bool, ghost o: Clones)
    requires k.Valid() && Forking(b0, s0, k.burrows, k.slots, dst.vmas, origin)
    requires v.burrow == Some(b) && b in b0 && b0[b].kind.Lazy? && !v.sharedIn
    requires b in k.burrows && k.burrows[b].kind.Lazy? && k.burrows[b].cursor.None?
    requires k.burrows[b].pageCount == b0[b].pageCount
    modifies k, dst
    ensures k.Valid() && Forking(b0, s0, k.burrows, k.slots, dst.vmas, o) && Extends(origin, o, v)
    ensures ok ==> Gained(b0, o, old(dst.vmas), dst.vmas, v)
    ensures ok ==> Pays(old(dst.pages), dst.pages, old(k.slots), origin, k.slots, o)
    ensures k.plenty && Forkable(b0, v) && Payable(b0, s0, origin, v, old(dst.pages), dst.budget, exempt) ==> ok
    ensures Fits(old(dst.pages), dst.budget, exempt) ==> Fits(dst.pages, dst.budget, exempt)
    ensures !exempt && old(dst.pages) <= dst.budget ==> dst.pages <= dst.budget
  {
    o := origin;
    var r := MintAndMap(k, dst, v, b);
    if r.None? { return false, o; }
    FirstPiece(b0, s0, old(k.burrows), old(k.slots), k.burrows, k.slots, old(dst.vmas), origin, b, r.value, v);
    UnclonedSource(b0, s0, old(k.burrows), old(k.slots), old(dst.vmas), origin, b);
    o := origin[r.value := b];
    ok := PayFor(k, dst, exempt, r.value);
  }

  lemma FirstPiece(b0: Burrows, s0: Slots, burrows: Burrows, slots: Slots,
                   w: Burrows, u: Slots, vs: seq<Vma>, origin: Clones, b: BurrowId, d: BurrowId, v: Vma)
    requires Forking(b0, s0, burrows, slots, vs, origin) && b in b0 && b0[b].kind.Lazy? && burrows[b].cursor.None?
    requires d !in burrows && Mirror(slots, u, b, d) && w == Minted(burrows, b, d) && SlotsOwned(w, u)
    requires v.burrow == Some(b) && !v.sharedIn && b0[b].pageCount > 0
    ensures |Resident(u, d, 0, w[d].pageCount)| == |SlotsOf(s0, b)|
    ensures var o, nv := origin[d := b], Child(v, d, true);
      && Forking(b0, s0, w, u, vs + [nv], o) && Extends(origin, o, v) && Gained(b0, o, vs, vs + [nv], v)
      && |Paid(u, o)| == |Paid(slots, origin)| + |Resident(u, d, 0, w[d].pageCount)|
  {
    MintForks(b0, s0, burrows, slots, u, vs, origin, b, d, Child(v, d, true));
    PaidGrows(w, slots, u, origin, b, d);
    assert SourceOk(b0, vs, origin, b, burrows[b]);
    UnownedSlots(b0, s0, burrows, slots, vs, origin, d);
    CloneSize(b0, s0, slots, u, w, origin, b, d);
  }

  lemma UnownedSlots(b0: Burrows, s0: Slots, burrows: Burrows, slots: Slots, vs: seq<Vma>, origin: Clones, d: BurrowId)
    requires Building(b0, s0, burrows, slots, vs, origin) && SlotsOwned(b0, s0) && d !in burrows
    ensures forall i: nat :: (d, i) !in slots
  {
    forall i: nat ensures (d, i) !in slots { assert SlotOk(s0, slots, origin, (d, i)); }
  }

  /** A source with no cursor parked has not been cloned. */
  lemma UnclonedSource(b0: Burrows, s0: Slots, burrows: Burrows, slots: Slots, vs: seq<Vma>, origin: Clones,
                       b: BurrowId)
    requires Forking(b0, s0, burrows, slots, vs, origin) && b in burrows
    ensures burrows[b].cursor.None? ==> b !in origin.Values
  {
  }

  /** A lazy mapping: the first piece of a source mints its clone, later pieces map that one. */
  method CloneLazyVma(k: Kernel, dst: AddrSpace, exempt: bool, v: Vma, b: BurrowId, ghost b0: Burrows,
                      ghost s0: Slots, ghost origin: Clones)
    returns (ok: bool, ghost o: Clones)
    requires k.Valid() && Forking(b0, s0, k.burrows, k.slots, dst.vmas, origin)
    requires v.burrow == Some(b) && b in b0 && b0[b].kind.Lazy? && !v.sharedIn
    modifies k, dst
    ensures k.Valid() && Forking(b0, s0, k.burrows, k.slots, dst.vmas, o) && Extends(origin, o, v)
    ensures ok ==> Gained(b0, o, old(dst.vmas), dst.vmas, v)
    ensures ok ==> Pays(old(dst.pages), dst.pages, old(k.slots), origin, k.slots, o)
    ensures k.plenty && Forkable(b0, v) && Payable(b0, s0, origin, v, old(dst.pages), dst.budget, exempt) ==> ok
    ensures Fits(old(dst.pages), dst.budget, exempt) ==> Fits(dst.pages, dst.budget, exempt)
    ensures !exempt && old(dst.pages) <= dst.budget ==> dst.pages <= dst.budget
  {
    SourceView(b0, s0, k.burrows, k.slots, dst.vmas, origin, b);
    if k.burrows[b].cursor.Some? {
      o := origin;
      var c := k.burrows[b].cursor.value;
      MapForks(b0, s0, k.burrows, k.slots, dst.vmas, origin, Child(v, c, true));
      ok := MapExisting(k, dst, Child(v, c, true));
    } else {
      ok, o := CloneFirstPiece(k, dst, exempt, v, b, b0, s0, origin);
    }
  }

  /** Build the child's counterpart of one parent mapping, or fail leaving a child to discard. */
  method CloneOneVma(k: Kernel, dst: AddrSpace, exempt: bool, v: Vma, ghost b0: Burrows, ghost s0: Slots,
                     ghost origin: Clones)
    returns (ok: bool, ghost o: Clones)
    requires k.Valid() && Forking(b0, s0, k.burrows, k.slots, dst.vmas, origin)
    requires (v.burrow.Some? ==> v.burrow.value in b0)
    modifies k, dst
    ensures k.Valid() && Forking(b0, s0, k.burrows, k.slots, dst.vmas, o) && Extends(origin, o, v)
    ensures ok ==> Gained(b0, o, old(dst.vmas), dst.vmas, v)
    ensures ok ==> Pays(old(dst.pages), dst.pages, old(k.slots), origin, k.slots, o)
    ensures k.plenty && Forkable(b0, v) && Payable(b0, s0, origin, v, old(dst.pages), dst.budget, exempt) ==> ok
    ensures Fits(old(dst.pages), dst.budget, exempt) ==> Fits(dst.pages, dst.budget, exempt)
    ensures !exempt && old(dst.pages) <= dst.budget ==> dst.pages <= dst.budget
  {
    o := origin;
    if v.burrow.None? {
      var refused: bool := *;
      if refused && !k.plenty { return false, o; }
      MapForks(b0, s0, k.burrows, k.slots, dst.vmas, origin, Guard(v));
      dst.vmas := dst.vmas + [Guard(v)];
      return true, o;
    }
    ok, o := CloneMapped(k, dst, exempt, v, b0, s0, origin);
  }

  /** A mapping over a Burrow. */
  method CloneMapped(k: Kernel, dst: AddrSpace, exempt: bool, v: Vma, ghost b0: Burrows, ghost s0: Slots,
                     ghost origin: Clones)
    returns (ok: bool, ghost o: Clones)
    requires k.Valid() && Forking(b0, s0, k.burrows, k.slots, dst.vmas, origin) && v.burrow.Some?
    requires v.burrow.value in b0
    modifies k, dst
    ensures k.Valid() && Forking(b0, s0, k.burrows, k.slots, dst.vmas, o) && Extends(origin, o, v)
    ensures ok ==> Gained(b0, o, old(dst.vmas), dst.vmas, v)
    ensures ok ==> Pays(old(dst.pages), dst.pages, old(k.slots), origin, k.slots, o)
    ensures k.plenty && Forkable(b0, v) && Payable(b0, s0, origin, v, old(dst.pages), dst.budget, exempt) ==> ok
    ensures Fits(old(dst.pages), dst.budget, exempt) ==> Fits(dst.pages, dst.budget, exempt)
    ensures !exempt && old(dst.pages) <= dst.budget ==> dst.pages <= dst.budget
  {
    o := origin;
    if v.sharedIn { return false, o; }
    var b := v.burrow.value;
    SourceView(b0, s0, k.burrows, k.slots, dst.vmas, origin, b);
    match k.burrows[b].kind {
      case Lazy =>
        ok, o := CloneLazyVma(k, dst, exempt, v, b, b0, s0, origin);
      case File | Anon =>
        if v.ceilingWrites { return false, o; }
        MapForks(b0, s0, k.burrows, k.slots, dst.vmas, origin, Child(v, b, false));
        ok := MapExisting(k, dst, Child(v, b, false));
      case _ =>
        ok := false;
    }
  }

  /** The resident slots of a Burrow, which a fork charges to the child. */
  method CountSlots(k: Kernel, b: BurrowId) returns (n: nat)
    requires k.Valid() && b in k.burrows
    ensures n == |Resident(k.slots, b, 0, k.burrows[b].pageCount)|
  {
    n := 0;
    assert Resident(k.slots, b, 0, 0) == {};
    for i := 0 to k.burrows[b].pageCount
      invariant n == |Resident(k.slots, b, 0, i)|
    {
      ResidentNext(k.slots, b, 0, i);
      if (b, i) in k.slots { n := n + 1; }
    }
  }

  // ---------------------------------------------------------------------------
  // Discarding a child.
  // ---------------------------------------------------------------------------

  ghost predicate NoCursor(b0: Burrows, burrows: Burrows) {
    forall b | b in b0 :: b in burrows && burrows[b].cursor.None?
  }

  lemma DropBuilds(b0: Burrows, burrows: Burrows, vs: seq<Vma>, origin: Clones)
    requires BurrowsOk(b0, burrows, vs, origin) && vs != []
    ensures vs[0].burrow.None? ==> BurrowsOk(b0, burrows, vs[1..], origin)
    ensures vs[0].burrow.Some? ==>
      var b := vs[0].burrow.value;
      && b in burrows && burrows[b].mappings > 0
      && BurrowsOk(b0, burrows[b := burrows[b].(mappings := burrows[b].mappings - 1)], vs[1..], origin)
  {
    var u := burrows;
    if vs[0].burrow.Some? {
      var b := vs[0].burrow.value;
      assert Count(vs, b) > 0;
      if b in b0 {
        assert SourceOk(b0, vs, origin, b, burrows[b]);
      } else {
        assert CloneOk(b0, vs, origin[b], b, burrows[b]);
      }
      u := burrows[b := burrows[b].(mappings := burrows[b].mappings - 1)];
    }
    forall b | b in b0
      ensures SourceOk(b0, vs[1..], origin, b, u[b])
    {
      assert SourceOk(b0, vs, origin, b, burrows[b]);
    }
    forall c | c in origin
      ensures CloneOk(b0, vs[1..], origin[c], c, u[c])
    {
      assert CloneOk(b0, vs, origin[c], c, burrows[c]);
    }
    assert u.Keys == burrows.Keys;
  }

  /** The clones that lost their last mapping, each once. */
  ghost predicate DeadOk(vs: seq<Vma>, origin: Clones, dead: seq<BurrowId>) {
    && (forall c | c in origin :: Count(vs, c) == 0 <==> c in dead)
    && (forall i | 0 <= i < |dead| :: dead[i] in origin)
    && (forall i, j | 0 <= i < j < |dead| :: dead[i] != dead[j])
  }

  lemma DropDead(b0: Burrows, s0: Slots, burrows: Burrows, vs: seq<Vma>, origin: Clones, dead: seq<BurrowId>)
    requires Settled(b0, s0) && BurrowsOk(b0, burrows, vs, origin) && vs != [] && DeadOk(vs, origin, dead)
    ensures vs[0].burrow.None? ==> DeadOk(vs[1..], origin, dead)
    ensures vs[0].burrow.Some? ==>
      var b := vs[0].burrow.value;
      && b in burrows
      && if burrows[b].handles == 0 && burrows[b].mappings == 1 then DeadOk(vs[1..], origin, dead + [b])
         else DeadOk(vs[1..], origin, dead)
  {
    if vs[0].burrow.Some? {
      var b := vs[0].burrow.value;
      assert Count(vs, b) > 0;
      if b in b0 {
        assert SourceOk(b0, vs, origin, b, burrows[b]);
      } else {
        assert CloneOk(b0, vs, origin[b], b, burrows[b]);
      }
      var e := dead + [b];
      assert forall c :: c in e <==> c in dead || c == b;
    }
  }

  /** A child being discarded, its cursors retired. */
  ghost predicate Draining(b0: Burrows, burrows: Burrows, vs: seq<Vma>, origin: Clones, dead: seq<BurrowId>) {
    BurrowsOk(b0, burrows, vs, origin) && DeadOk(vs, origin, dead) && NoCursor(b0, burrows)
  }

  lemma DrainNext(b0: Burrows, s0: Slots, burrows: Burrows, vs: seq<Vma>, origin: Clones, dead: seq<BurrowId>)
    requires Settled(b0, s0) && Draining(b0, burrows, vs, origin, dead) && vs != []
    ensures vs[0].burrow.None? ==> Draining(b0, burrows, vs[1..], origin, dead)
    ensures vs[0].burrow.Some? ==>
      var b := vs[0].burrow.value;
      && b in burrows && burrows[b].mappings > 0
      && Draining(b0, burrows[b := burrows[b].(mappings := burrows[b].mappings - 1)], vs[1..], origin,
                  if burrows[b].handles == 0 && burrows[b].mappings == 1 then dead + [b] else dead)
  {
    DropBuilds(b0, burrows, vs, origin);
    DropDead(b0, s0, burrows, vs, origin, dead);
  }

  lemma DrainStart(b0: Burrows, burrows: Burrows, vs: seq<Vma>, origin: Clones)
    requires BurrowsOk(b0, burrows, vs, origin) && AllMapped(vs, origin) && NoCursor(b0, burrows)
    ensures Draining(b0, burrows, vs, origin, [])
  {
  }

  /** Pop the first mapping; a Burrow it was the last to hold joins the chain. */
  method PopMapping(k: Kernel, dst: AddrSpace, dead: seq<BurrowId>, ghost b0: Burrows, ghost s0: Slots,
                    ghost origin: Clones)
    returns (chain: seq<BurrowId>)
    requires k.Valid() && Settled(b0, s0) && Draining(b0, k.burrows, dst.vmas, origin, dead) && dst.vmas != []
    modifies k`burrows, dst`vmas
    ensures k.Valid() && dst.vmas == old(dst.vmas)[1..] && Draining(b0, k.burrows, dst.vmas, origin, chain)
  {
    DrainNext(b0, s0, k.burrows, dst.vmas, origin, dead);
    var v := dst.vmas[0];
    dst.vmas := dst.vmas[1..];
    if v.burrow.None? { return dead; }
    var owes := k.ReleaseMapping(v.burrow.value);
    chain := if owes then dead + [v.burrow.value] else dead;
  }

  /** Pop every mapping of the child, collecting the Burrows that owe a free. */
  method Drain(k: Kernel, dst: AddrSpace, ghost b0: Burrows, ghost s0: Slots, ghost origin: Clones)
    returns (dead: seq<BurrowId>)
    requires k.Valid() && Settled(b0, s0) && BurrowsOk(b0, k.burrows, dst.vmas, origin) && AllMapped(dst.vmas, origin)
    requires NoCursor(b0, k.burrows)
    modifies k`burrows, dst`vmas
    ensures k.Valid() && dst.vmas == [] && BurrowsOk(b0, k.burrows, [], origin) && DeadOk([], origin, dead)
    ensures NoCursor(b0, k.burrows)
  {
    dead := [];
    DrainStart(b0, k.burrows, dst.vmas, origin);
    while dst.vmas != []
      invariant k.Valid() && Draining(b0, k.burrows, dst.vmas, origin, dead)
      decreases |dst.vmas|
    {
      dead := PopMapping(k, dst, dead, b0, s0, origin);
    }
  }

  lemma FreeBuilds(b0: Burrows, s0: Slots, burrows: Burrows, slots: Slots, u: Slots, origin: Clones, c: BurrowId)
    requires SlotsOwned(b0, s0) && Building(b0, s0, burrows, slots, [], origin) && c in origin
    requires forall k: SlotId :: (k in u <==> k in slots && k.0 != c) && (k in u ==> u[k] == slots[k])
    ensures c in burrows && burrows[c].handles == 0 && burrows[c].mappings == 0
    ensures NoCursor(b0, burrows) ==>
        NoCursor(b0, burrows - {c}) && Building(b0, s0, burrows - {c}, u, [], origin - {c})
  {
    assert CloneOk(b0, [], origin[c], c, burrows[c]);
    var o, w := origin - {c}, burrows - {c};
    if NoCursor(b0, burrows) {
      forall b | b in b0 ensures SourceOk(b0, [], o, b, w[b]) { assert SourceOk(b0, [], origin, b, burrows[b]); }
      forall d | d in o ensures CloneOk(b0, [], o[d], d, w[d]) { assert CloneOk(b0, [], origin[d], d, burrows[d]); }
      assert w.Keys == b0.Keys + o.Keys;
      forall k: SlotId ensures SlotOk(s0, u, o, k) { assert SlotOk(s0, slots, origin, k); }
    }
  }

  lemma NothingLeft(b0: Burrows, s0: Slots, burrows: Burrows, slots: Slots)
    requires Settled(b0, s0) && Building(b0, s0, burrows, slots, [], map[])
    ensures burrows == b0 && slots == s0
  {
    forall b | b in b0 ensures burrows[b] == b0[b] { assert SourceOk(b0, [], map[], b, burrows[b]); }
    forall k: SlotId
      ensures k in slots <==> k in s0
      ensures k in s0 ==> slots[k] == s0[k]
    {
      assert SlotOk(s0, slots, map[], k);
    }
  }

  method FreeOne(k: Kernel, c: BurrowId, ghost b0: Burrows, ghost s0: Slots, ghost origin: Clones)
    requires k.Valid() && SlotsOwned(b0, s0) && Building(b0, s0, k.burrows, k.slots, [], origin)
    requires NoCursor(b0, k.burrows) && c in origin
    modifies k
    ensures k.Valid() && Building(b0, s0, k.burrows, k.slots, [], origin - {c}) && NoCursor(b0, k.burrows)
  {
    ghost var slots := k.slots;
    ghost var u := map x | x in slots && x.0 != c :: slots[x];
    FreeBuilds(b0, s0, k.burrows, slots, u, origin, c);
    k.FreeInternal(c);
    assert k.slots == u;
  }

  /** The clones still to be freed are those from `i` on. */
  ghost predicate Pending(o: Clones, dead: seq<BurrowId>, i: nat) {
    && (forall c | c in o :: exists j :: i <= j < |dead| && dead[j] == c)
    && (forall j | i <= j < |dead| :: dead[j] in o)
  }

  lemma PendingNext(o: Clones, origin: Clones, dead: seq<BurrowId>, i: nat)
    requires DeadOk([], origin, dead) && Pending(o, dead, i) && i < |dead|
    ensures Pending(o - {dead[i]}, dead, i + 1)
  {
  }

  /** Free the Burrows the drain collected. */
  method FreeDeferred(k: Kernel, dead: seq<BurrowId>, ghost b0: Burrows, ghost s0: Slots, ghost origin: Clones)
    requires k.Valid() && Settled(b0, s0) && Building(b0, s0, k.burrows, k.slots, [], origin)
    requires DeadOk([], origin, dead)
    requires NoCursor(b0, k.burrows)
    modifies k
    ensures k.Valid() && k.burrows == b0 && k.slots == s0
  {
    ghost var o := origin;
    var i := 0;
    while i < |dead|
      invariant i <= |dead| && k.Valid() && Building(b0, s0, k.burrows, k.slots, [], o) && NoCursor(b0, k.burrows)
      invariant Pending(o, dead, i)
    {
      FreeOne(k, dead[i], b0, s0, o);
      PendingNext(o, origin, dead, i);
      o := o - {dead[i]};
      i := i + 1;
    }
    assert o == map[];
    NothingLeft(b0, s0, k.burrows, k.slots);
  }

  // ---------------------------------------------------------------------------
  // The fork.
  // ---------------------------------------------------------------------------

  predicate IsCow(burrows: Burrows, v: Vma) {
    v.burrow.Some? && v.burrow.value in burrows && burrows[v.burrow.value].kind.Lazy?
  }

  /** Address `a` lies in a copy-on-write range among the first `n` mappings. */
  ghost predicate InCow(burrows: Burrows, vs: seq<Vma>, n: nat, a: nat) {
    exists i :: 0 <= i < n && i < |vs| && IsCow(burrows, vs[i]) && vs[i].start <= a < vs[i].end
  }

  /** What is left installed is what was, outside the copy-on-write ranges. */
  ghost predicate Uninstalled(burrows: Burrows, vs: seq<Vma>, n: nat, was: set<nat>, installed: set<nat>) {
    forall a: nat {:trigger InCow(burrows, vs, n, a)} :: a in installed <==> a in was && !InCow(burrows, vs, n, a)
  }

  lemma InCowNext(burrows: Burrows, vs: seq<Vma>, n: nat, a: nat)
    requires n < |vs|
    ensures InCow(burrows, vs, n + 1, a) <==>
        InCow(burrows, vs, n, a) || (IsCow(burrows, vs[n]) && vs[n].start <= a < vs[n].end)
  {
  }

  /** Phase 1: drop the parent's translations of every copy-on-write range. */
  method DropTranslations(k: Kernel, src: AddrSpace)
    modifies src`installed
    ensures Uninstalled(k.burrows, src.vmas, |src.vmas|, old(src.installed), src.installed)
  {
    for i := 0 to |src.vmas|
      invariant Uninstalled(k.burrows, src.vmas, i, old(src.installed), src.installed)
    {
      ghost var was := src.installed;
      if IsCow(k.burrows, src.vmas[i]) { src.Uninstall(src.vmas[i].start, src.vmas[i].end); }
      forall a: nat
        ensures a in src.installed <==> a in old(src.installed) && !InCow(k.burrows, src.vmas, i + 1, a)
      {
        InCowNext(k.burrows, src.vmas, i, a);
        assert a in was <==> a in old(src.installed) && !InCow(k.burrows, src.vmas, i, a);
      }
    }
  }

  /** The child has the counterpart of each of the first `n` parent mappings. */
  ghost predicate Children(b0: Burrows, origin: Clones, parent: seq<Vma>, child: seq<Vma>, n: nat) {
    n <= |parent| && |child| == n && forall i | 0 <= i < n :: IsChild(b0, origin, parent[i], child[i])
  }

  /** Every clone stands for a Burrow that the parent maps. */
  ghost predicate ClonesNamed(origin: Clones, parent: seq<Vma>, n: nat) {
    forall c | c in origin :: exists i :: 0 <= i < n && i < |parent| && parent[i].burrow == Some(origin[c])
  }

  lemma ChildrenGrow(b0: Burrows, origin: Clones, o: Clones, parent: seq<Vma>, before: seq<Vma>, after: seq<Vma>,
                     n: nat)
    requires Children(b0, origin, parent, before, n) && n < |parent| && Extends(origin, o, parent[n])
    requires Gained(b0, o, before, after, parent[n])
    ensures Children(b0, o, parent, after, n + 1)
  {
    forall i | 0 <= i < n + 1
      ensures IsChild(b0, o, parent[i], after[i])
    {
      if i < n {
        assert after[i] == before[i];
        assert IsChild(b0, origin, parent[i], before[i]);
      }
    }
  }

  /** The lazy Burrows that mappings `vs` name. */
  ghost function Sources(b0: Burrows, vs: seq<Vma>): set<BurrowId> {
    set i | 0 <= i < |vs| && IsCow(b0, vs[i]) :: vs[i].burrow.value
  }

  /** The pages behind every lazy Burrow the parent maps. */
  ghost function Load(b0: Burrows, s0: Slots, vs: seq<Vma>): set<SlotId> {
    set k | k in s0 && k.0 in Sources(b0, vs)
  }

  /** Every mapping can be reproduced, and the child can pay for all of it. */
  ghost predicate MayFork(b0: Burrows, s0: Slots, vs: seq<Vma>, budget: nat, exempt: bool) {
    (forall i | 0 <= i < |vs| :: Forkable(b0, vs[i])) && Fits(|Load(b0, s0, vs)|, budget, exempt)
  }

  /** Every clone is of a lazy Burrow. */
  ghost predicate LazyOrigins(b0: Burrows, origin: Clones) {
    forall c | c in origin :: origin[c] in b0 && b0[origin[c]].kind.Lazy?
  }

  lemma LazySources(b0: Burrows, burrows: Burrows, vs: seq<Vma>, origin: Clones)
    requires BurrowsOk(b0, burrows, vs, origin)
    ensures LazyOrigins(b0, origin)
  {
    forall c | c in origin
      ensures origin[c] in b0 && b0[origin[c]].kind.Lazy?
    {
      assert CloneOk(b0, vs, origin[c], c, burrows[c]);
    }
  }

  /** What is left to pay fits whenever the whole does. */
  lemma NextIsPayable(b0: Burrows, s0: Slots, vs: seq<Vma>, n: nat, origin: Clones, budget: nat, exempt: bool)
    requires MayFork(b0, s0, vs, budget, exempt) && n < |vs| && ClonesNamed(origin, vs, n)
    requires LazyOrigins(b0, origin)
    ensures Payable(b0, s0, origin, vs[n], |Sourced(s0, origin)|, budget, exempt)
  {
    if IsCow(b0, vs[n]) && vs[n].burrow.value !in origin.Values {
      var had, more := Sourced(s0, origin), SlotsOf(s0, vs[n].burrow.value);
      forall k | k in had + more
        ensures k in Load(b0, s0, vs)
      {
        if k in had {
          var c :| c in origin && origin[c] == k.0;
          var i :| 0 <= i < n && i < |vs| && vs[i].burrow == Some(origin[c]);
          assert IsCow(b0, vs[i]);
        }
      }
      assert had !! more && |had + more| == |had| + |more|;
      SubsetSize(had + more, Load(b0, s0, vs));
    }
  }

  /** The child so far: the counterparts of the first `n` parent mappings, paid for. */
  ghost predicate BuiltUpTo(b0: Burrows, slots: Slots, parent: seq<Vma>, child: seq<Vma>, pages: nat, origin: Clones,
                            n: nat) {
    Children(b0, origin, parent, child, n) && pages == |Paid(slots, origin)|
  }

  /** The counterpart of parent mapping `n`. */
  method BuildNext(k: Kernel, dst: AddrSpace, exempt: bool, parent: seq<Vma>, n: nat, ghost b0: Burrows,
                   ghost s0: Slots, ghost origin: Clones)
    returns (ok: bool, ghost o: Clones)
    requires k.Valid() && Forking(b0, s0, k.burrows, k.slots, dst.vmas, origin) && Known(parent, b0) && n < |parent|
    requires BuiltUpTo(b0, k.slots, parent, dst.vmas, dst.pages, origin, n)
    requires ClonesNamed(origin, parent, n) && Fits(dst.pages, dst.budget, exempt)
    modifies k, dst
    ensures k.Valid() && Forking(b0, s0, k.burrows, k.slots, dst.vmas, o) && ClonesNamed(o, parent, n + 1)
    ensures ok ==> BuiltUpTo(b0, k.slots, parent, dst.vmas, dst.pages, o, n + 1)
    ensures Fits(dst.pages, dst.budget, exempt)
    ensures k.plenty && MayFork(b0, s0, parent, dst.budget, exempt) ==> ok
  {
    ghost var was := dst.vmas;
    if MayFork(b0, s0, parent, dst.budget, exempt) {
      PaidIsSourced(b0, s0, k.burrows, k.slots, dst.vmas, origin);
      LazySources(b0, k.burrows, dst.vmas, origin);
      NextIsPayable(b0, s0, parent, n, origin, dst.budget, exempt);
    }
    ok, o := CloneOneVma(k, dst, exempt, parent[n], b0, s0, origin);
    if ok { ChildrenGrow(b0, origin, o, parent, was, dst.vmas, n); }
    NamedGrow(origin, o, parent, n);
  }

  /** Phase 2: build the child; the only phase that can fail.  It shares no page of a range
      whose parent translation is still installed. */
  method BuildChild(k: Kernel, src: AddrSpace, dst: AddrSpace, exempt: bool) returns (ok: bool, ghost origin: Clones)
    requires k.Valid() && Settled(k.burrows, k.slots) && Known(src.vmas, k.burrows) && dst != src && dst.vmas == []
    requires dst.pages == 0
    requires forall a | a in src.installed :: !InCow(k.burrows, src.vmas, |src.vmas|, a)
    modifies k, dst
    ensures k.Valid() && Forking(old(k.burrows), old(k.slots), k.burrows, k.slots, dst.vmas, origin)
    ensures ClonesNamed(origin, src.vmas, |src.vmas|)
    ensures ok ==>
        Children(old(k.burrows), origin, src.vmas, dst.vmas, |src.vmas|) && dst.pages == |Paid(k.slots, origin)|
    ensures !exempt ==> dst.pages <= dst.budget
    ensures Fits(dst.pages, dst.budget, exempt)
    ensures k.plenty && MayFork(old(k.burrows), old(k.slots), src.vmas, dst.budget, exempt) ==> ok
  {
    ghost var b0, s0 := k.burrows, k.slots;
    origin, ok := map[], true;
    StartForks(b0, s0);
    assert Paid(k.slots, origin) == {};
    var i := 0;
    while i < |src.vmas| && ok
      invariant i <= |src.vmas| && k.Valid() && Forking(b0, s0, k.burrows, k.slots, dst.vmas, origin)
      invariant src.vmas == old(src.vmas) && ClonesNamed(origin, src.vmas, i)
      invariant ok ==> BuiltUpTo(b0, k.slots, src.vmas, dst.vmas, dst.pages, origin, i)
      invariant Fits(dst.pages, dst.budget, exempt)
      invariant k.plenty && MayFork(b0, s0, src.vmas, dst.budget, exempt) ==> ok
    {
      ok, origin := BuildNext(k, dst, exempt, src.vmas, i, b0, s0, origin);
      i := i + 1;
    }
  }

  lemma NamedGrow(origin: Clones, o: Clones, parent: seq<Vma>, n: nat)
    requires ClonesNamed(origin, parent, n) && n < |parent| && Extends(origin, o, parent[n])
    ensures ClonesNamed(o, parent, n + 1)
  {
    forall c | c in o
      ensures exists i :: 0 <= i < n + 1 && i < |parent| && parent[i].burrow == Some(o[c])
    {
      if c in origin {
        var i :| 0 <= i < n && i < |parent| && parent[i].burrow == Some(origin[c]);
      } else {
        assert parent[n].burrow == Some(o[c]);
      }
    }
  }

  lemma StartForks(b0: Burrows, s0: Slots)
    requires Settled(b0, s0)
    ensures Forking(b0, s0, b0, s0, [], map[])
  {
    forall b | b in b0 ensures SourceOk(b0, [], map[], b, b0[b]) {}
    forall k: SlotId ensures SlotOk(s0, s0, map[], k) {}
  }

  lemma UnparkBuilds(b0: Burrows, burrows: Burrows, vs: seq<Vma>, origin: Clones, b: BurrowId)
    requires BurrowsOk(b0, burrows, vs, origin) && b in b0
    ensures b in burrows && BurrowsOk(b0, burrows[b := burrows[b].(cursor := None)], vs, origin)
  {
    var u := burrows[b := burrows[b].(cursor := None)];
    forall x | x in b0 ensures SourceOk(b0, vs, origin, x, u[x]) { assert SourceOk(b0, vs, origin, x, burrows[x]); }
    forall c | c in origin
      ensures CloneOk(b0, vs, origin[c], c, u[c])
    {
      assert CloneOk(b0, vs, origin[c], c, burrows[c]);
    }
    assert u.Keys == burrows.Keys;
  }

  /** A parked cursor belongs to a Burrow the parent maps from mapping `n` on. */
  ghost predicate CursorsFrom(b0: Burrows, burrows: Burrows, parent: seq<Vma>, n: nat) {
    forall b | b in b0 ::
      b in burrows && (burrows[b].cursor.Some? ==> exists i :: n <= i < |parent| && parent[i].burrow == Some(b))
  }

  lemma CursorsStart(b0: Burrows, burrows: Burrows, vs: seq<Vma>, origin: Clones, parent: seq<Vma>)
    requires BurrowsOk(b0, burrows, vs, origin) && ClonesNamed(origin, parent, |parent|)
    ensures CursorsFrom(b0, burrows, parent, 0)
  {
    forall b | b in b0
      ensures b in burrows && (burrows[b].cursor.Some? ==> exists i :: 0 <= i < |parent| && parent[i].burrow == Some(b))
    {
      assert SourceOk(b0, vs, origin, b, burrows[b]);
    }
  }

  /** The cursors of the first `n` parent mappings are retired. */
  ghost predicate Retiring(b0: Burrows, burrows: Burrows, vs: seq<Vma>, origin: Clones, parent: seq<Vma>, n: nat) {
    BurrowsOk(b0, burrows, vs, origin) && CursorsFrom(b0, burrows, parent, n) && SameKinds(b0, burrows)
  }

  /** Retire the cursor a parent mapping may have parked. */
  method RetireCursor(k: Kernel, v: Vma, ghost b0: Burrows, ghost vs: seq<Vma>, ghost origin: Clones,
                      ghost parent: seq<Vma>, ghost n: nat)
    requires k.Valid() && Retiring(b0, k.burrows, vs, origin, parent, n) && Known(parent, b0)
    requires n < |parent| && parent[n] == v
    modifies k`burrows
    ensures k.Valid() && Retiring(b0, k.burrows, vs, origin, parent, n + 1)
  {
    if IsCow(k.burrows, v) {
      UnparkBuilds(b0, k.burrows, vs, origin, v.burrow.value);
      Park(k, v.burrow.value, None);
    }
  }

  /** Retire every cursor, whatever the outcome. */
  method ClearCursors(k: Kernel, src: AddrSpace, ghost b0: Burrows, ghost vs: seq<Vma>, ghost origin: Clones)
    requires k.Valid() && BurrowsOk(b0, k.burrows, vs, origin) && ClonesNamed(origin, src.vmas, |src.vmas|)
    requires Known(src.vmas, b0) && SameKinds(b0, k.burrows)
    modifies k`burrows
    ensures k.Valid() && BurrowsOk(b0, k.burrows, vs, origin) && NoCursor(b0, k.burrows)
  {
    CursorsStart(b0, k.burrows, vs, origin, src.vmas);
    for i := 0 to |src.vmas|
      invariant k.Valid() && Retiring(b0, k.burrows, vs, origin, src.vmas, i)
    {
      RetireCursor(k, src.vmas[i], b0, vs, origin, src.vmas, i);
    }
  }

  /** Only a lazy Burrow's cursor is ever parked. */
  ghost predicate SameKinds(b0: Burrows, burrows: Burrows) {
    forall b | b in b0 ::
      b in burrows && burrows[b].kind == b0[b].kind && (burrows[b].cursor.Some? ==> burrows[b].kind.Lazy?)
  }

  lemma KindsSame(b0: Burrows, burrows: Burrows, vs: seq<Vma>, origin: Clones)
    requires BurrowsOk(b0, burrows, vs, origin)
    ensures SameKinds(b0, burrows)
  {
    forall b | b in b0
      ensures b in burrows && burrows[b].kind == b0[b].kind && (burrows[b].cursor.Some? ==> burrows[b].kind.Lazy?)
    {
      assert SourceOk(b0, vs, origin, b, burrows[b]);
      if burrows[b].cursor.Some? {
        var c := burrows[b].cursor.value;
        assert CloneOk(b0, vs, origin[c], c, burrows[c]);
      }
    }
  }

  /** The parent's mappings once its lazy ones are marked copy-on-write. */
  function Flagged(burrows: Burrows, vs: seq<Vma>): seq<Vma> {
    seq(|vs|, i requires 0 <= i < |vs| => if IsCow(burrows, vs[i]) then vs[i].(cow := true) else vs[i])
  }

  /** Phase 3: mark the parent. */
  method FlagParent(k: Kernel, src: AddrSpace)
    modifies src`vmas
    ensures src.vmas == Flagged(k.burrows, old(src.vmas))
  {
    for i := 0 to |src.vmas|
      invariant |src.vmas| == |old(src.vmas)|
      invariant forall j | 0 <= j < |src.vmas| ::
        src.vmas[j] == if j < i then Flagged(k.burrows, old(src.vmas))[j] else old(src.vmas)[j]
    {
      if IsCow(k.burrows, src.vmas[i]) { src.vmas := src.vmas[i := src.vmas[i].(cow := true)]; }
    }
  }

  lemma FlaggedSame(b0: Burrows, burrows: Burrows, vs: seq<Vma>)
    requires SameKinds(b0, burrows) && Known(vs, b0)
    ensures Flagged(burrows, vs) == Flagged(b0, vs)
  {
  }

  lemma ForkedIsSettled(b0: Burrows, s0: Slots, burrows: Burrows, slots: Slots, vs: seq<Vma>, origin: Clones)
    requires Settled(b0, s0) && Building(b0, s0, burrows, slots, vs, origin) && AllMapped(vs, origin)
    requires NoCursor(b0, burrows) && SlotsOwned(burrows, slots)
    ensures Settled(burrows, slots)
  {
    forall b | b in burrows
      ensures burrows[b].cursor.None? && burrows[b].handles + burrows[b].mappings > 0
    {
      if b in b0 {
        assert SourceOk(b0, vs, origin, b, burrows[b]);
      } else {
        assert CloneOk(b0, vs, origin[b], b, burrows[b]);
      }
    }
  }

  // ---------------------------------------------------------------------------
  // What each address shows.
  // ---------------------------------------------------------------------------

  /** Address `a` of mapping `v` reads page `p`. */
  ghost predicate Shows(v: Vma, slots: Slots, a: nat, p: Page) {
    && Holds(v, a) && v.burrow.Some? && (v.burrow.value, SlotAt(v, a)) in slots
    && slots[(v.burrow.value, SlotAt(v, a))] == p
  }

  /** The byte of the Burrow behind `v` that address `a` names. */
  function ByteAt(v: Vma, a: nat): nat
    requires v.start <= a
  {
    v.offset + (a - v.start)
  }

  /** `u` shows over `slots` what `v` showed over `s0`: the same addresses, with the same rights, each naming
      the same byte behind it, and the same page wherever there is one. */
  ghost predicate SameView(v: Vma, s0: Slots, u: Vma, slots: Slots) {
    && u.start == v.start && u.end == v.end && (u.burrow.Some? <==> v.burrow.Some?)
    && (u.prot == v.prot || (v.burrow.None? && u.prot == 0)) && (v.burrow.Some? ==> u.ceilingWrites == v.ceilingWrites)
    && (forall a | v.start <= a < v.end && v.burrow.Some? :: ByteAt(u, a) == ByteAt(v, a))
    && (forall a, p {:trigger Shows(u, slots, a, p)} :: Shows(u, slots, a, p) <==> Shows(v, s0, a, p))
  }

  ghost predicate SameViews(vs: seq<Vma>, s0: Slots, us: seq<Vma>, slots: Slots) {
    |us| == |vs| && forall i | 0 <= i < |vs| :: SameView(vs[i], s0, us[i], slots)
  }

  /** Neither side can write what the other reads: a piece is copy-on-write on both sides, the child's over a
      Burrow of its own, or neither side may ever write it. */
  ghost predicate Isolated(b0: Burrows, u: Vma, nv: Vma) {
    u.burrow.Some? && nv.burrow.Some? ==>
      || (u.cow && nv.cow && u.burrow.value in b0 && nv.burrow.value !in b0)
      || (!u.ceilingWrites && !nv.ceilingWrites && u.burrow == nv.burrow)
  }

  ghost predicate AllIsolated(b0: Burrows, us: seq<Vma>, nvs: seq<Vma>) {
    |us| == |nvs| && forall i | 0 <= i < |us| :: Isolated(b0, us[i], nvs[i])
  }

  /** The child's counterpart of a mapping shows what the mapping showed when the fork began. */
  lemma ChildShowsSame(b0: Burrows, s0: Slots, slots: Slots, origin: Clones, v: Vma, nv: Vma)
    requires IsChild(b0, origin, v, nv) && SlotsOk(s0, slots, origin)
    requires SlotsOwned(b0, s0) && b0.Keys !! origin.Keys
    ensures SameView(v, s0, nv, slots)
  {
    forall a, p
      ensures Shows(nv, slots, a, p) <==> Shows(v, s0, a, p)
    {
      if Holds(v, a) && v.burrow.Some? {
        assert SlotOk(s0, slots, origin, (nv.burrow.value, SlotAt(v, a)));
      }
    }
  }

  /** And so do the parent's own mappings, once marked. */
  lemma ParentShowsSame(b0: Burrows, s0: Slots, slots: Slots, origin: Clones, v: Vma, u: Vma)
    requires SlotsOk(s0, slots, origin) && b0.Keys !! origin.Keys && (v.burrow.Some? ==> v.burrow.value in b0)
    requires u == v || u == v.(cow := true)
    ensures SameView(v, s0, u, slots)
  {
    forall a, p
      ensures Shows(u, slots, a, p) <==> Shows(v, s0, a, p)
    {
      if Holds(v, a) && v.burrow.Some? { assert SlotOk(s0, slots, origin, (v.burrow.value, SlotAt(v, a))); }
    }
  }

  /** A fork that succeeds leaves parent and child both showing what the parent showed before it, and neither
      able to write what the other reads. */
  lemma ForkShowsSame(b0: Burrows, s0: Slots, burrows: Burrows, slots: Slots, parent: seq<Vma>, child: seq<Vma>,
                      origin: Clones)
    requires Building(b0, s0, burrows, slots, child, origin) && SlotsOwned(b0, s0) && Known(parent, b0)
    requires Children(b0, origin, parent, child, |parent|)
    ensures SameViews(parent, s0, child, slots) && SameViews(parent, s0, Flagged(b0, parent), slots)
    ensures AllIsolated(b0, Flagged(b0, parent), child)
  {
    var flagged := Flagged(b0, parent);
    forall i | 0 <= i < |parent|
      ensures SameView(parent[i], s0, child[i], slots)
      ensures SameView(parent[i], s0, flagged[i], slots)
      ensures Isolated(b0, flagged[i], child[i])
    {
      ChildShowsSame(b0, s0, slots, origin, parent[i], child[i]);
      ParentShowsSame(b0, s0, slots, origin, parent[i], flagged[i]);
    }
  }

  // ---------------------------------------------------------------------------
  // The whole fork.
  // ---------------------------------------------------------------------------

  /** Fork: on success the child mirrors the parent through one clone per lazy source Burrow;
      on failure everything is as it was found. */
  method AddrspaceClone(k: Kernel, src: AddrSpace, exempt: bool) returns (dst: AddrSpace?, ghost origin: Clones)
    requires k.Valid() && Settled(k.burrows, k.slots) && Known(src.vmas, k.burrows)
    modifies k, src
    ensures k.Valid() && Settled(k.burrows, k.slots)
    ensures src.pages == old(src.pages)
    ensures Uninstalled(old(k.burrows), old(src.vmas), |old(src.vmas)|, old(src.installed), src.installed)
    ensures dst != null ==> dst.pages == |Paid(k.slots, origin)| && dst.budget == src.budget
    ensures dst != null && !exempt ==> dst.pages <= dst.budget
    ensures dst == null ==> src.vmas == old(src.vmas) && k.burrows == old(k.burrows) && k.slots == old(k.slots)
    ensures dst == null ==> k.buddy == old(k.buddy)
    ensures dst == null ==> forall p | p in k.all && p !in k.buddy :: k.share[p] == old(k.share)[p]
    ensures dst != null ==> fresh(dst) && src.vmas == Flagged(old(k.burrows), old(src.vmas))
    ensures dst != null ==> Children(old(k.burrows), origin, old(src.vmas), dst.vmas, |src.vmas|)
    ensures dst != null ==> ClonesNamed(origin, old(src.vmas), |src.vmas|)
    ensures dst != null ==> Building(old(k.burrows), old(k.slots), k.burrows, k.slots, dst.vmas, origin)
    ensures dst != null ==> SameViews(old(src.vmas), old(k.slots), dst.vmas, k.slots)
    ensures dst != null ==> SameViews(old(src.vmas), old(k.slots), src.vmas, k.slots)
    ensures dst != null ==> AllIsolated(old(k.burrows), src.vmas, dst.vmas)
    ensures dst != null ==> MayFork(old(k.burrows), old(k.slots), old(src.vmas), src.budget, exempt)
    ensures k.plenty && MayFork(old(k.burrows), old(k.slots), old(src.vmas), src.budget, exempt) ==> dst != null
  {
    ghost var b0, s0 := k.burrows, k.slots;
    var child := new AddrSpace(src.budget);
    DropTranslations(k, src);
    var ok;
    ok, origin := BuildChild(k, src, child, exempt);
    KindsSame(b0, k.burrows, child.vmas, origin);
    ClearCursors(k, src, b0, child.vmas, origin);
    if ok {
      FlagParent(k, src);
      KindsSame(b0, k.burrows, child.vmas, origin);
      FlaggedSame(b0, k.burrows, old(src.vmas));
      ForkedIsSettled(b0, s0, k.burrows, k.slots, child.vmas, origin);
      ForkShowsSame(b0, s0, k.burrows, k.slots, old(src.vmas), child.vmas, origin);
      ForkedMayFork(b0, s0, k.burrows, k.slots, old(src.vmas), child.vmas, origin, child.pages, src.budget, exempt);
      return child, origin;
    }
    var dead := Drain(k, child, b0, s0, origin);
    FreeDeferred(k, dead, b0, s0, origin);
    SlotsDecide(k.all, old(k.buddy), old(k.share), k.buddy, k.share, k.slots);
    return null, origin;
  }

  // ---------------------------------------------------------------------------
  // What a fork costs in shares.
  // ---------------------------------------------------------------------------

  /** The slots naming `p` in Burrows that the fork cloned. */
  ghost function Cloned(s0: Slots, origin: Clones, p: Page): set<SlotId> {
    set k | k in s0 && s0[k] == p && k.0 in origin.Values
  }

  lemma ForkedRefs(b0: Burrows, s0: Slots, slots: Slots, origin: Clones, p: Page)
    requires SlotsOwned(b0, s0) && SlotsOk(s0, slots, origin) && b0.Keys !! origin.Keys
    ensures Refs(slots, p) == Refs(s0, p) + Moved(origin, Cloned(s0, origin, p))
    ensures Refs(s0, p) !! Moved(origin, Cloned(s0, origin, p))
  {
    forall k: SlotId
      ensures k in Refs(slots, p) <==> k in Refs(s0, p) || k in Moved(origin, Cloned(s0, origin, p))
    {
      assert SlotOk(s0, slots, origin, k);
      if k.0 in origin { assert (origin[k.0], k.1).0 in origin.Values; }
    }
  }

  /** A fork takes exactly one share of a page for each slot naming it in each distinct lazy
      Burrow it cloned, however many mappings that Burrow has. */
  lemma ForkShares(all: set<Page>, buddy0: set<Page>, share0: map<Page, nat>, b0: Burrows, s0: Slots,
                   buddy: set<Page>, share: map<Page, nat>, burrows: Burrows, slots: Slots,
                   vs: seq<Vma>, origin: Clones, p: Page)
    requires ShareInv(all, buddy0, share0, s0) && ShareInv(all, buddy, share, slots) && SlotsOwned(b0, s0)
    requires Building(b0, s0, burrows, slots, vs, origin) && p in all && p !in buddy0
    ensures p !in buddy && share[p] == share0[p] + |Cloned(s0, origin, p)|
  {
    assert PageInv(buddy0, share0, s0, p) && PageInv(buddy, share, slots, p);
    ForkedRefs(b0, s0, slots, origin, p);
    MovedSize(origin, Cloned(s0, origin, p));
  }

  ghost function CowBurrows(vs: seq<Vma>): set<BurrowId> {
    set i | 0 <= i < |vs| && vs[i].burrow.Some? && vs[i].cow :: vs[i].burrow.value
  }

  ghost function Origins(origin: Clones): set<BurrowId> { set c | c in origin :: origin[c] }

  /** A piece and its counterpart. */
  lemma Piece(b0: Burrows, origin: Clones, v: Vma, nv: Vma)
    requires IsChild(b0, origin, v, nv)
    ensures IsCow(b0, v) <==> nv.burrow.Some? && nv.cow
    ensures IsCow(b0, v) ==> nv.burrow.value in origin && origin[nv.burrow.value] == v.burrow.value
  {
  }

  lemma SourcesAreOrigins(b0: Burrows, parent: seq<Vma>, child: seq<Vma>, origin: Clones)
    requires Children(b0, origin, parent, child, |parent|)
    ensures Sources(b0, parent) <= Origins(origin)
  {
    forall b | b in Sources(b0, parent)
      ensures b in Origins(origin)
    {
      var i :| 0 <= i < |parent| && IsCow(b0, parent[i]) && parent[i].burrow.value == b;
      Piece(b0, origin, parent[i], child[i]);
    }
  }

  lemma OriginsAreSources(b0: Burrows, parent: seq<Vma>, origin: Clones)
    requires LazyOrigins(b0, origin) && ClonesNamed(origin, parent, |parent|)
    ensures Origins(origin) <= Sources(b0, parent)
  {
    forall c | c in origin
      ensures origin[c] in Sources(b0, parent)
    {
      var i :| 0 <= i < |parent| && parent[i].burrow == Some(origin[c]);
      assert IsCow(b0, parent[i]);
    }
  }

  lemma ClonesAreMapped(b0: Burrows, parent: seq<Vma>, child: seq<Vma>, origin: Clones)
    requires LazyOrigins(b0, origin) && Injective(origin)
    requires Children(b0, origin, parent, child, |parent|) && ClonesNamed(origin, parent, |parent|)
    ensures origin.Keys == CowBurrows(child)
  {
    forall c | c in CowBurrows(child)
      ensures c in origin
    {
      var i :| 0 <= i < |child| && child[i].burrow.Some? && child[i].cow && child[i].burrow.value == c;
      Piece(b0, origin, parent[i], child[i]);
    }
    forall c | c in origin
      ensures c in CowBurrows(child)
    {
      var i :| 0 <= i < |parent| && parent[i].burrow == Some(origin[c]);
      assert IsCow(b0, parent[i]);
      Piece(b0, origin, parent[i], child[i]);
      assert child[i].burrow.value == c;
    }
  }

  /** One clone for each distinct lazy Burrow of the parent, however many pieces it is mapped in: the
      child's copy-on-write Burrows are exactly the clones, the clones' origins are exactly the
      parent's lazy Burrows, and no two clones have one origin. */
  lemma CloneForEachSource(b0: Burrows, burrows: Burrows, parent: seq<Vma>, child: seq<Vma>, origin: Clones)
    requires BurrowsOk(b0, burrows, child, origin) && Children(b0, origin, parent, child, |parent|)
    requires ClonesNamed(origin, parent, |parent|)
    ensures Injective(origin) && Origins(origin) == Sources(b0, parent) && origin.Keys == CowBurrows(child)
    ensures origin.Keys !! b0.Keys
  {
    LazySources(b0, burrows, child, origin);
    SourcesAreOrigins(b0, parent, child, origin);
    OriginsAreSources(b0, parent, origin);
    ClonesAreMapped(b0, parent, child, origin);
  }

  lemma SourcedIsLoad(b0: Burrows, s0: Slots, parent: seq<Vma>, origin: Clones)
    requires Origins(origin) == Sources(b0, parent)
    ensures Sourced(s0, origin) == Load(b0, s0, parent)
  {
    forall b ensures b in origin.Values <==> b in Origins(origin) {}
  }

  /** A fork that succeeded could be paid for: the child was charged for exactly what the parent's lazy Burrows
      held. */
  lemma ForkedMayFork(b0: Burrows, s0: Slots, burrows: Burrows, slots: Slots, parent: seq<Vma>, child: seq<Vma>,
                      origin: Clones, pages: nat, budget: nat, exempt: bool)
    requires Building(b0, s0, burrows, slots, child, origin) && SlotsOwned(b0, s0)
    requires Children(b0, origin, parent, child, |parent|) && ClonesNamed(origin, parent, |parent|)
    requires pages == |Paid(slots, origin)| && Fits(pages, budget, exempt)
    ensures MayFork(b0, s0, parent, budget, exempt)
  {
    CloneForEachSource(b0, burrows, parent, child, origin);
    PaidIsSourced(b0, s0, burrows, slots, child, origin);
    SourcedIsLoad(b0, s0, parent, origin);
  }
}
