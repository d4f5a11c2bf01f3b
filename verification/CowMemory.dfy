/**
 Copy-on-write address spaces: pages with share counts, lazy Burrows whose slots name pages,
 and the fork that clones an address space.  Slots are kept as one map from (Burrow, index) to
 page, so that a page's holders are the slots naming it.
 */
module CowMemory {
  import opened Options
  import BL = BurrowLife
  import PC = PageCounter

  type Page = nat
  type BurrowId = nat
  type SlotId = (BurrowId, nat)

  datatype BurrowKind = Lazy | Code | File | Anon | Device

  datatype Burrow = Burrow(kind: BurrowKind, pageCount: nat, handles: nat, mappings: nat, cursor: Option<BurrowId>)

  /** `ceilingWrites` is whether the mapping's protection ceiling admits writing. */
  datatype Vma = Vma(start: nat, end: nat, prot: nat, ceilingWrites: bool,
      burrow: Option<BurrowId>, offset: nat, cow: bool, sharedIn: bool)

  type Burrows = map<BurrowId, Burrow>
  type Slots = map<SlotId, Page>

  /** The clones of a fork, each with the Burrow it was cloned from. */
  type Clones = map<BurrowId, BurrowId>

  // ---------------------------------------------------------------------------
  // Share counts.
  // ---------------------------------------------------------------------------

  /** The holders of a page: the slots that name it. */
  ghost function Refs(slots: Slots, p: Page): set<SlotId> { set k | k in slots && slots[k] == p }

  /** A page is in the buddy exactly when no slot names it; otherwise its share count is the
      number of slots naming it.  The count of a free page is whatever its last owner left. */
  ghost predicate PageInv(buddy: set<Page>, share: map<Page, nat>, slots: Slots, p: Page) {
    && (p in buddy <==> Refs(slots, p) == {})
    && (p !in buddy ==> p in share && share[p] == |Refs(slots, p)|)
  }

  ghost predicate ShareInv(all: set<Page>, buddy: set<Page>, share: map<Page, nat>, slots: Slots) {
    && (forall k | k in slots :: slots[k] in all)
    && buddy <= all && all <= share.Keys
    && forall p {:trigger PageInv(buddy, share, slots, p)} | p in all :: PageInv(buddy, share, slots, p)
  }

  lemma RefsPut(slots: Slots, k: SlotId, p: Page, q: Page)
    requires k !in slots
    ensures Refs(slots[k := p], q) == if q == p then Refs(slots, q) + {k} else Refs(slots, q)
    ensures k !in Refs(slots, q)
  {
  }

  lemma RefsTake(slots: Slots, k: SlotId, q: Page)
    requires k in slots
    ensures Refs(slots - {k}, q) == if q == slots[k] then Refs(slots, q) - {k} else Refs(slots, q)
    ensures k in Refs(slots, slots[k])
  {
  }

  /** Establishing a page from the buddy in an empty slot. */
  lemma InstallKeeps(all: set<Page>, buddy: set<Page>, share: map<Page, nat>, slots: Slots, k: SlotId, p: Page)
    requires ShareInv(all, buddy, share, slots) && p in buddy && k !in slots
    ensures ShareInv(all, buddy - {p}, share[p := 1], slots[k := p])
  {
    forall q | q in all
      ensures PageInv(buddy - {p}, share[p := 1], slots[k := p], q)
    {
      assert PageInv(buddy, share, slots, q);
      RefsPut(slots, k, p, q);
    }
  }

  /** A second slot naming a page that is already held. */
  lemma GetKeeps(all: set<Page>, buddy: set<Page>, share: map<Page, nat>, slots: Slots, k: SlotId, from: SlotId)
    requires ShareInv(all, buddy, share, slots) && k !in slots && from in slots
    ensures var p := slots[from];
      p in share && share[p] > 0 && ShareInv(all, buddy, share[p := share[p] + 1], slots[k := p])
  {
    var p := slots[from];
    assert PageInv(buddy, share, slots, p);
    assert from in Refs(slots, p);
    forall q | q in all
      ensures PageInv(buddy, share[p := share[p] + 1], slots[k := p], q)
    {
      assert PageInv(buddy, share, slots, q);
      RefsPut(slots, k, p, q);
    }
  }

  /** Emptying a slot: the page goes back to the buddy exactly when the put was the last. */
  lemma PutKeeps(all: set<Page>, buddy: set<Page>, share: map<Page, nat>, slots: Slots, k: SlotId)
    requires ShareInv(all, buddy, share, slots) && k in slots
    ensures var p := slots[k];
      && p in share && share[p] > 0 && p !in buddy
      && ShareInv(all, if share[p] == 1 then buddy + {p} else buddy, share[p := share[p] - 1], slots - {k})
  {
    var p := slots[k];
    assert PageInv(buddy, share, slots, p);
    RefsTake(slots, k, p);
    var left := Refs(slots, p) - {k};
    assert |left| == share[p] - 1 && (left == {} <==> |left| == 0);
    var b := if share[p] == 1 then buddy + {p} else buddy;
    forall q | q in all
      ensures PageInv(b, share[p := share[p] - 1], slots - {k}, q)
    {
      assert PageInv(buddy, share, slots, q);
      RefsTake(slots, k, q);
    }
  }

  /** What the slots name decides which pages are free and every held page's count. */
  lemma SlotsDecide(all: set<Page>, b0: set<Page>, s0: map<Page, nat>, b1: set<Page>, s1: map<Page, nat>, slots: Slots)
    requires ShareInv(all, b0, s0, slots) && ShareInv(all, b1, s1, slots)
    ensures b0 == b1 && forall p | p in all && p !in b0 :: s0[p] == s1[p]
  {
    forall p | p in all
      ensures p in b0 <==> p in b1
      ensures p !in b0 ==> s0[p] == s1[p]
    {
      assert PageInv(b0, s0, slots, p) && PageInv(b1, s1, slots, p);
    }
  }

  // ---------------------------------------------------------------------------
  // Mappings.
  // ---------------------------------------------------------------------------

  const PAGE: nat := 4096

  predicate Holds(v: Vma, a: nat) { v.start <= a < v.end }

  /** The index in its Burrow of the page at address `a`. */
  function SlotAt(v: Vma, a: nat): nat
    requires v.start <= a
  {
    (v.offset + (a - v.start)) / PAGE
  }

  /** How many of the mappings name Burrow `b`. */
  ghost function Count(vs: seq<Vma>, b: BurrowId): nat {
    if vs == [] then 0 else (if vs[0].burrow == Some(b) then 1 else 0) + Count(vs[1..], b)
  }

  lemma {:induction false} CountAppend(vs: seq<Vma>, v: Vma, b: BurrowId)
    ensures Count(vs + [v], b) == Count(vs, b) + if v.burrow == Some(b) then 1 else 0
  {
    if vs == [] {
      assert vs + [v] == [v];
    } else {
      CountAppend(vs[1..], v, b);
      assert (vs + [v])[1..] == vs[1..] + [v];
    }
  }

  lemma {:induction false} CountNamed(vs: seq<Vma>, b: BurrowId)
    ensures Count(vs, b) > 0 <==> exists i :: 0 <= i < |vs| && vs[i].burrow == Some(b)
  {
    if vs != [] {
      CountNamed(vs[1..], b);
      if i :| 0 <= i < |vs| && vs[i].burrow == Some(b) {
        if i > 0 { assert vs[1..][i - 1].burrow == Some(b); }
      }
      if i :| 0 <= i < |vs[1..]| && vs[1..][i].burrow == Some(b) { assert vs[i + 1].burrow == Some(b); }
    }
  }

  class AddrSpace {
    var vmas: seq<Vma>
    var pages: nat
    /** The addresses with an installed translation. */
    var installed: set<nat>
    const budget: nat

    constructor (budget: nat)
      ensures vmas == [] && pages == 0 && installed == {} && this.budget == budget
    {
      this.budget := budget;
      vmas, pages, installed := [], 0, {};
    }

    method Uninstall(lo: nat, hi: nat)
      modifies `installed
      ensures installed == set a | a in old(installed) && !(lo <= a < hi)
    {
      installed := set a | a in installed && !(lo <= a < hi);
    }

    /** A charge, and below an uncharge, as one step: what PageCounter proves their loops amount to. */
    method Charge(n: nat, exempt: bool) returns (ok: bool)
      modifies `pages
      ensures ok <==> PC.Admits(old(pages), budget, PC.Charge(n, exempt))
      ensures pages == if ok then PC.Apply(old(pages), PC.Charge(n, exempt)) else old(pages)
    {
      if n > 0xFFFF_FFFF - pages || (!exempt && pages + n > budget) { return false; }
      pages := pages + n;
      return true;
    }

    method Uncharge(n: nat)
      modifies `pages
      ensures pages == PC.Apply(old(pages), PC.Uncharge(n))
    {
      pages := if pages >= n then pages - n else 0;
    }
  }

  // ---------------------------------------------------------------------------
  // The kernel's pages, slots and Burrows.
  // ---------------------------------------------------------------------------

  ghost predicate SlotsOwned(burrows: Burrows, slots: Slots) {
    forall k | k in slots ::
        k.0 in burrows && k.1 < burrows[k.0].pageCount && (burrows[k.0].kind.Lazy? || burrows[k.0].kind.Code?)
  }

  /** Slot `k` of `after` is the slot of `b` copied to `d`, or was there already. */
  ghost predicate MirrorUpTo(before: Slots, after: Slots, b: BurrowId, d: BurrowId, n: nat) {
    forall k: SlotId ::
      && (k in after <==> k in before || (k.0 == d && k.1 < n && (b, k.1) in before))
      && (k in before ==> k in after && after[k] == before[k])
      && (k in after && k !in before ==> after[k] == before[(b, k.1)])
  }

  /** `after` is `before` with every slot of `b` copied to `d`. */
  ghost predicate Mirror(before: Slots, after: Slots, b: BurrowId, d: BurrowId) {
    forall k: SlotId {:trigger MirrorAt(before, after, b, d, k)} :: MirrorAt(before, after, b, d, k)
  }

  ghost predicate MirrorAt(before: Slots, after: Slots, b: BurrowId, d: BurrowId, k: SlotId) {
    && (k in after <==> k in before || (k.0 == d && (b, k.1) in before))
    && (k in before ==> k in after && after[k] == before[k])
    && (k in after && k !in before ==> after[k] == before[(b, k.1)])
  }

  ghost predicate TakenUpTo(before: Slots, after: Slots, b: BurrowId, lo: nat, hi: nat) {
    forall k: SlotId ::
      && (k in after <==> k in before && !(k.0 == b && lo <= k.1 < hi))
      && (k in after ==> after[k] == before[k])
  }

  /** `after` is `before` with exactly the slots `lo..hi` of `b` filled. */
  ghost predicate Filled(before: Slots, after: Slots, b: BurrowId, lo: nat, hi: nat) {
    TakenUpTo(after, before, b, lo, hi) && forall i | lo <= i < hi :: (b, i) in after
  }

  lemma FilledNext(before: Slots, after: Slots, b: BurrowId, lo: nat, hi: nat, p: Page)
    requires Filled(before, after, b, lo, hi) && lo <= hi && (b, hi) !in after
    ensures Filled(before, after[(b, hi) := p], b, lo, hi + 1)
  {
  }

  lemma FilledUndo(before: Slots, after: Slots, b: BurrowId, lo: nat, hi: nat)
    requires Filled(before, after, b, lo, hi) && lo < hi
    ensures (b, lo) in after && Filled(before, after - {(b, lo)}, b, lo + 1, hi)
  {
  }

  lemma MirrorNext(before: Slots, after: Slots, b: BurrowId, d: BurrowId, n: nat)
    requires MirrorUpTo(before, after, b, d, n) && b != d && (d, n) !in before
    ensures if (b, n) in after then (d, n) !in after && MirrorUpTo(before, after[(d, n) := after[(b, n)]], b, d, n + 1)
            else MirrorUpTo(before, after, b, d, n + 1)
  {
  }

  lemma TakenNext(before: Slots, after: Slots, b: BurrowId, lo: nat, hi: nat)
    requires TakenUpTo(before, after, b, lo, hi) && lo <= hi
    ensures TakenUpTo(before, after - {(b, hi)}, b, lo, hi + 1)
    ensures (b, hi) !in after ==> TakenUpTo(before, after, b, lo, hi + 1)
    ensures (b, hi) in after <==> (b, hi) in before
  {
  }

  /** The resident slots of `b` in a range. */
  ghost function Resident(slots: Slots, b: BurrowId, lo: nat, hi: nat): set<SlotId> {
    set k | k in slots && k.0 == b && lo <= k.1 < hi
  }

  lemma ResidentNext(slots: Slots, b: BurrowId, lo: nat, hi: nat)
    requires lo <= hi
    ensures |Resident(slots, b, lo, hi + 1)| == |Resident(slots, b, lo, hi)| + if (b, hi) in slots then 1 else 0
  {
    assert Resident(slots, b, lo, hi + 1) == Resident(slots, b, lo, hi) + (if (b, hi) in slots then {(b, hi)} else {});
  }

  function Later(a: nat, b: nat): nat { if a > b then a else b }

  function Earlier(a: nat, b: nat): nat { if a < b then a else b }

  /** A Burrow's two counts, as a moment of its life. */
  function LifeOf(x: Burrow): BL.Life { BL.Created().(handles := x.handles, mappings := x.mappings) }

  class Kernel {
    const all: set<Page>
    /** No allocation of the kernel's own is refused. */
    const plenty: bool
    var buddy: set<Page>
    var share: map<Page, nat>
    var slots: Slots
    var burrows: Burrows
    var nextId: BurrowId

    ghost predicate Valid()
      reads this
    {
      && ShareInv(all, buddy, share, slots) && SlotsOwned(burrows, slots)
      && forall b | b in burrows :: b < nextId
    }

    /** Every page free, no Burrow. */
    constructor (all: set<Page>, plenty: bool)
      ensures Valid() && this.all == all && buddy == all && slots == map[] && burrows == map[]
    {
      this.all, this.plenty, buddy, share := all, plenty, all, map p | p in all :: 0;
      slots, burrows, nextId := map[], map[], 0;
    }

    // --- the count on a page ----------------------------------------------------

    method SetSole(p: Page)
      modifies `share
      ensures share == old(share)[p := 1]
    {
      share := share[p := 1];
    }

    method GetShare(p: Page)
      requires p in share && share[p] > 0
      modifies `share
      ensures share == old(share)[p := old(share)[p] + 1]
    {
      share := share[p := share[p] + 1];
    }

    method PutShare(p: Page) returns (last: bool)
      requires p in share && share[p] > 0
      modifies `share
      ensures share == old(share)[p := old(share)[p] - 1]
      ensures last <==> old(share)[p] == 1
    {
      share := share[p := share[p] - 1];
      return share[p] == 0;
    }

    /** Empty slot `k`, returning its page to the buddy when this was the last holder. */
    method TakeSlot(k: SlotId)
      requires Valid() && k in slots
      modifies `share, `slots, `buddy
      ensures Valid() && slots == old(slots) - {k}
    {
      PutKeeps(all, buddy, share, slots, k);
      var p := slots[k];
      slots := slots - {k};
      var last := PutShare(p);
      if last { buddy := buddy + {p}; }
    }

    /** Name in slot `k` the page that slot `from` names, taking a share. */
    method ShareSlot(k: SlotId, from: SlotId)
      requires Valid() && k !in slots && from in slots
      requires k.0 in burrows && burrows[k.0].kind.Lazy? && k.1 < burrows[k.0].pageCount
      modifies `share, `slots
      ensures Valid() && slots == old(slots)[k := old(slots)[from]]
    {
      GetKeeps(all, buddy, share, slots, k, from);
      GetShare(slots[from]);
      slots := slots[k := slots[from]];
    }

    // --- populate -----------------------------------------------------------------

    /** Allocate a page into the empty slot `k`, unless the allocator or the pagemap refuses. */
    method FillSlot(k: SlotId) returns (ok: bool)
      requires Valid() && k.0 in burrows && burrows[k.0].kind.Lazy? && k.1 < burrows[k.0].pageCount
      modifies `share, `slots, `buddy
      ensures Valid()
      ensures if ok then k !in old(slots) && k in slots && slots == old(slots)[k := slots[k]] else slots == old(slots)
      ensures |buddy| == if ok then |old(buddy)| - 1 else |old(buddy)|
      ensures plenty && old(buddy) != {} && k !in old(slots) ==> ok
    {
      var oom: bool, refused: bool := *, *;
      if buddy == {} || (oom && !plenty) { return false; }
      var p :| p in buddy;
      if k in slots || (refused && !plenty) {
        SoleIsStale(p);
        SetSole(p);
        return false;
      }
      InstallKeeps(all, buddy, share, slots, k, p);
      buddy := buddy - {p};
      SetSole(p);
      slots := slots[k := p];
      return true;
    }

    /** The count of a page that goes straight back to the buddy does not matter. */
    lemma SoleIsStale(p: Page)
      requires Valid() && p in buddy
      ensures ShareInv(all, buddy, share[p := 1], slots)
    {
      forall q | q in all ensures PageInv(buddy, share[p := 1], slots, q) { assert PageInv(buddy, share, slots, q); }
    }

    /** Fill slots from `first` on until `n` are filled or one refuses. */
    method FillRun(b: BurrowId, first: nat, n: nat) returns (done: nat)
      requires Valid() && b in burrows && burrows[b].kind.Lazy? && first + n <= burrows[b].pageCount
      modifies `share, `slots, `buddy
      ensures Valid() && done <= n && Filled(old(slots), slots, b, first, first + done)
      ensures |buddy| == |old(buddy)| - done
      ensures plenty && |old(buddy)| >= n && Resident(old(slots), b, first, first + n) == {} ==> done == n
    {
      done := 0;
      while done < n
        invariant done <= n && Valid() && Filled(old(slots), slots, b, first, first + done)
        invariant |buddy| == |old(buddy)| - done
      {
        ghost var was := slots;
        var filled := FillSlot((b, first + done));
        if !filled {
          assert (b, first + done) in old(slots) ==> (b, first + done) in Resident(old(slots), b, first, first + n);
          break;
        }
        FilledNext(old(slots), was, b, first, first + done, slots[(b, first + done)]);
        done := done + 1;
      }
    }

    /** Empty the run of slots that FillRun filled. */
    method UndoRun(b: BurrowId, first: nat, done: nat, ghost before: Slots)
      requires Valid() && Filled(before, slots, b, first, first + done)
      modifies `share, `slots, `buddy
      ensures Valid() && slots == before
    {
      for i := 0 to done
        invariant Valid() && Filled(before, slots, b, first + i, first + done)
      {
        FilledUndo(before, slots, b, first + i, first + done);
        TakeSlot((b, first + i));
      }
    }

    /** The run lies in a lazy Burrow and is empty, there are pages for it, and the space can pay. */
    ghost predicate MayPopulate(space: AddrSpace, exempt: bool, b: BurrowId, first: nat, n: nat)
      requires b in burrows
      reads this, space
    {
      && burrows[b].kind.Lazy?
      && (n > 0 ==>
          && first + n <= burrows[b].pageCount && n <= |buddy| && Resident(slots, b, first, first + n) == {}
          && space.pages + n < 0x1_0000_0000 && (exempt || space.pages + n <= space.budget))
    }

    /** Pre-populate `n` slots of a lazy Burrow from `first`, all or nothing. */
    method LazyPopulate(space: AddrSpace, exempt: bool, b: BurrowId, first: nat, n: nat) returns (ok: bool)
      requires Valid() && b in burrows
      modifies `share, `slots, `buddy, space`pages
      ensures Valid()
      ensures ok ==> Filled(old(slots), slots, b, first, first + n)
      ensures ok ==> space.pages == old(space.pages) + n
      ensures !ok ==> slots == old(slots) && buddy == old(buddy) && space.pages == old(space.pages)
      ensures !ok ==> forall p | p in all && p !in buddy :: share[p] == old(share)[p]
      ensures ok ==> old(MayPopulate(space, exempt, b, first, n))
      ensures plenty && old(MayPopulate(space, exempt, b, first, n)) ==> ok
    {
      if !burrows[b].kind.Lazy? { return false; }
      if n == 0 { return true; }
      if first >= burrows[b].pageCount || n > burrows[b].pageCount - first { return false; }
      var charged := space.Charge(n, exempt);
      if !charged { return false; }
      var done := FillRun(b, first, n);
      if done == n { return true; }
      UndoRun(b, first, done, old(slots));
      SlotsDecide(all, old(buddy), old(share), buddy, share, slots);
      space.Uncharge(n);
      return false;
    }
  
    // --- release --------------------------------------------------------------------

    /** Empty slots `lo..hi` of `b`; returns how many were resident. */
    method TakeRange(b: BurrowId, lo: nat, hi: nat) returns (freed: nat)
      requires Valid() && lo <= hi
      modifies `share, `slots, `buddy
      ensures Valid() && TakenUpTo(old(slots), slots, b, lo, hi)
      ensures freed == |Resident(old(slots), b, lo, hi)|
    {
      freed := 0;
      assert Resident(slots, b, lo, lo) == {};
      for i := lo to hi
        invariant Valid() && TakenUpTo(old(slots), slots, b, lo, i) && freed == |Resident(old(slots), b, lo, i)|
      {
        TakenNext(old(slots), slots, b, lo, i);
        ResidentNext(old(slots), b, lo, i);
        if (b, i) in slots {
          TakeSlot((b, i));
          freed := freed + 1;
        }
      }
    }

    /** Release the lazy slots behind a range of one mapping and refund them. */
    method ReleaseLazyRange(space: AddrSpace, v: Vma, lo: nat, hi: nat, pageSize: nat) returns (freed: nat)
      requires Valid() && pageSize >= 1 && lo <= hi && (v.burrow.Some? ==> v.burrow.value in burrows)
      modifies `share, `slots, `buddy, space`pages
      ensures Valid()
      ensures if v.burrow.None? || v.sharedIn || !burrows[v.burrow.value].kind.Lazy? || lo < v.start || hi > v.end
              then freed == 0 && slots == old(slots) && space.pages == old(space.pages)
              else var s := (v.offset + (lo - v.start)) / pageSize; var e := s + (hi - lo) / pageSize;
                && TakenUpTo(old(slots), slots, v.burrow.value, s, e)
                && freed == |Resident(old(slots), v.burrow.value, s, e)|
                && space.pages == if old(space.pages) >= freed then old(space.pages) - freed else 0
    {
      if v.burrow.None? || v.sharedIn || !burrows[v.burrow.value].kind.Lazy? || lo < v.start || hi > v.end { return 0; }
      var s := (v.offset + (lo - v.start)) / pageSize;
      freed := TakeRange(v.burrow.value, s, s + (hi - lo) / pageSize);
      space.Uncharge(freed);
    }

    // --- Burrow lifetime ----------------------------------------------------------------

    /** Destroy a Burrow nothing holds or maps, putting every page its slots name. */
    method FreeInternal(b: BurrowId)
      requires Valid() && b in burrows && burrows[b].handles == 0 && burrows[b].mappings == 0
      modifies `share, `slots, `buddy, `burrows
      ensures Valid() && burrows == old(burrows) - {b}
      ensures forall k: SlotId :: (k in slots <==> k in old(slots) && k.0 != b) && (k in slots ==>
          slots[k] == old(slots)[k])
    {
      var n := TakeRange(b, 0, burrows[b].pageCount);
      burrows := burrows - {b};
    }

    method UnrefHandle(b: BurrowId) returns (freed: bool)
      requires Valid() && b in burrows && burrows[b].handles > 0
      modifies `share, `slots, `buddy, `burrows
      ensures Valid()
      ensures freed <==> old(burrows)[b].handles == 1 && old(burrows)[b].mappings == 0
      ensures freed <==> BL.Do(LifeOf(old(burrows)[b]), BL.Unref(None)).frees == 1
      ensures burrows == if freed then old(burrows) - {b}
                         else old(burrows)[b := old(burrows)[b].(handles := old(burrows)[b].handles - 1)]
      ensures forall k: SlotId :: (k in slots <==> k in old(slots) && !(freed && k.0 == b)) && (k in slots ==>
          slots[k] == old(slots)[k])
    {
      burrows := burrows[b := burrows[b].(handles := burrows[b].handles - 1)];
      freed := burrows[b].handles == 0 && burrows[b].mappings == 0;
      if freed {
        FreeInternal(b);
        assert burrows == old(burrows) - {b};
      }
    }

    /** Drop a mapping; a Burrow left with neither count still owes its free. */
    method ReleaseMapping(b: BurrowId) returns (dead: bool)
      requires Valid() && b in burrows && burrows[b].mappings > 0
      modifies `burrows
      ensures Valid()
      ensures dead <==> old(burrows)[b].handles == 0 && old(burrows)[b].mappings == 1
      ensures dead <==> BL.Do(LifeOf(old(burrows)[b]), BL.Release(None)).frees == 1
      ensures burrows == old(burrows)[b := old(burrows)[b].(mappings := old(burrows)[b].mappings - 1)]
    {
      burrows := burrows[b := burrows[b].(mappings := burrows[b].mappings - 1)];
      dead := burrows[b].handles == 0 && burrows[b].mappings == 0;
    }

    method AcquireMapping(b: BurrowId)
      requires Valid() && b in burrows && burrows[b].handles + burrows[b].mappings > 0
      modifies `burrows
      ensures Valid()
      ensures burrows == old(burrows)[b := old(burrows)[b].(mappings := old(burrows)[b].mappings + 1)]
    {
      burrows := burrows[b := burrows[b].(mappings := burrows[b].mappings + 1)];
    }

    // --- clone ----------------------------------------------------------------------

    method MirrorSlots(b: BurrowId, d: BurrowId, n: nat)
      requires Valid() && b != d && b in burrows && burrows[b].pageCount == n
      requires d in burrows && burrows[d].kind.Lazy? && burrows[d].pageCount == n && forall i: nat :: (d, i) !in slots
      modifies `share, `slots
      ensures Valid() && Mirror(old(slots), slots, b, d)
    {
      for i := 0 to n
        invariant Valid() && MirrorUpTo(old(slots), slots, b, d, i)
      {
        MirrorNext(old(slots), slots, b, d, i);
        if (b, i) in slots { ShareSlot((d, i), (b, i)); }
      }
    }

    /** Clone a lazy Burrow: the clone's slots name the source's pages, one share each. */
    method CloneCow(b: BurrowId) returns (r: Option<BurrowId>)
      requires Valid() && b in burrows && burrows[b].kind.Lazy?
      modifies `share, `slots, `burrows, `nextId
      ensures Valid()
      ensures r.None? ==> slots == old(slots) && burrows == old(burrows)
      ensures r.Some? ==> r.value !in old(burrows) && Mirror(old(slots), slots, b, r.value)
      ensures r.Some? ==> burrows == old(burrows)[r.value := Burrow(Lazy, old(burrows)[b].pageCount, 1, 0, None)]
      ensures r.Some? ==> burrows[b].pageCount > 0
      ensures plenty && burrows[b].pageCount > 0 ==> r.Some?
    {
      var oom: bool := *;
      if burrows[b].pageCount == 0 || (oom && !plenty) { return None; }
      var d := nextId;
      var n := burrows[b].pageCount;
      burrows, nextId := burrows[d := Burrow(Lazy, n, 1, 0, None)], d + 1;
      MirrorSlots(b, d, n);
      return Some(d);
    }
  }
}
