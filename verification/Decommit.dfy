/**
 Decommit: giving back the pages behind a range of addresses.  The range may span several mappings;
 every refusal is decided before anything changes, and translations go before pages do.
 */
module Decommit {
  import opened Options
  import opened CowMemory
  import PC = PageCounter

  const USER_TOP: nat := 0x8000_0000_0000

  datatype Answer = Done | Inval | NoMem

  // ---------------------------------------------------------------------------
  // Mappings and the slots their addresses name.
  // ---------------------------------------------------------------------------

  ghost predicate Aligned(v: Vma) {
    v.start < v.end && v.start % PAGE == 0 && v.end % PAGE == 0 && v.offset % PAGE == 0
  }

  /** The mappings of an address space: page-aligned, in order and apart. */
  ghost predicate Listed(vs: seq<Vma>) {
    && (forall i | 0 <= i < |vs| :: Aligned(vs[i]))
    && (forall i, j | 0 <= i < j < |vs| :: vs[i].end <= vs[j].start)
  }

  predicate Overlaps(v: Vma, lo: nat, hi: nat) { v.start < hi && lo < v.end }

  /** The only kind of mapping that releases page by page. */
  predicate Plain(burrows: Burrows, v: Vma) {
    v.burrow.Some? && v.burrow.value in burrows && !v.sharedIn && burrows[v.burrow.value].kind.Lazy?
  }

  ghost predicate Mapped(vs: seq<Vma>, a: nat) { exists i :: 0 <= i < |vs| && Holds(vs[i], a) }

  ghost predicate Hole(vs: seq<Vma>, lo: nat, hi: nat, a: nat) { lo <= a < hi && !Mapped(vs, a) }

  /** Every mapping that overlaps the range below `a` is plain. */
  ghost predicate PlainBelow(burrows: Burrows, vs: seq<Vma>, lo: nat, hi: nat, a: nat) {
    forall i | 0 <= i < |vs| && Overlaps(vs[i], lo, hi) && vs[i].start < a :: Plain(burrows, vs[i])
  }

  /** Some address of the range names slot `k` through `v`. */
  ghost predicate Behind(v: Vma, lo: nat, hi: nat, k: SlotId) {
    v.burrow == Some(k.0) && exists a {:trigger Holds(v, a)} :: lo <= a < hi && Holds(v, a) && SlotAt(v, a) == k.1
  }

  /** Some address of the range names slot `k` through one of the first `n` mappings. */
  ghost predicate Named(vs: seq<Vma>, lo: nat, hi: nat, n: nat, k: SlotId) {
    exists i {:trigger Behind(vs[i], lo, hi, k)} :: 0 <= i < n && i < |vs| && Behind(vs[i], lo, hi, k)
  }

  // ---------------------------------------------------------------------------
  // A range of one mapping is a run of slots.
  // ---------------------------------------------------------------------------

  lemma PageOf(x: nat, d: nat, m: nat)
    requires x % 4096 == 0 && m % 4096 == 0 && d < m
    ensures x / 4096 <= (x + d) / 4096 < x / 4096 + m / 4096
  {
  }

  lemma PageAt(x: nat, q: nat)
    requires x % 4096 == 0
    ensures (x + 4096 * q) / 4096 == x / 4096 + q
  {
  }

  lemma OnPage(v: Vma, lo: nat)
    requires Aligned(v) && lo % PAGE == 0 && v.start <= lo
    ensures (v.offset + (lo - v.start)) % 4096 == 0
  {
  }

  /** The address in the part whose slot is `n`. */
  lemma AddressOf(v: Vma, lo: nat, hi: nat, n: nat) returns (a: nat)
    requires Aligned(v) && lo % PAGE == 0 && hi % PAGE == 0 && v.start <= lo <= hi <= v.end
    requires SlotAt(v, lo) <= n < SlotAt(v, lo) + (hi - lo) / PAGE
    ensures lo <= a < hi && SlotAt(v, a) == n
  {
    var q := n - SlotAt(v, lo);
    a := lo + 4096 * q;
    OnPage(v, lo);
    PageAt(v.offset + (lo - v.start), q);
  }

  /** The part of an aligned range inside an aligned mapping is a run of its Burrow's slots: exactly those
      that addresses of the part name. */
  lemma RangeIsRun(v: Vma, lo: nat, hi: nat, n: nat)
    requires Aligned(v) && lo % PAGE == 0 && hi % PAGE == 0 && v.start <= lo <= hi <= v.end
    ensures (exists a {:trigger Holds(v, a)} :: lo <= a < hi && Holds(v, a) && SlotAt(v, a) == n)
      <==> SlotAt(v, lo) <= n < SlotAt(v, lo) + (hi - lo) / PAGE
  {
    if SlotAt(v, lo) <= n < SlotAt(v, lo) + (hi - lo) / PAGE {
      var a := AddressOf(v, lo, hi, n);
      assert Holds(v, a);
    }
    forall a: nat | lo <= a < hi
      ensures SlotAt(v, lo) <= SlotAt(v, a) < SlotAt(v, lo) + (hi - lo) / PAGE
    {
      OnPage(v, lo);
      PageOf(v.offset + (lo - v.start), a - lo, hi - lo);
    }
  }

  // ---------------------------------------------------------------------------
  // Admission.
  // ---------------------------------------------------------------------------

  /** Every address of the range is mapped, and by plain mappings only. */
  ghost predicate Releasable(burrows: Burrows, vs: seq<Vma>, lo: nat, hi: nat) {
    (forall a: nat | lo <= a < hi :: Mapped(vs, a)) && PlainBelow(burrows, vs, lo, hi, hi)
  }

  /** A hole comes before any mapping that is not plain. */
  ghost predicate HoleFirst(burrows: Burrows, vs: seq<Vma>, lo: nat, hi: nat) {
    exists a: nat {:trigger Mapped(vs, a)} :: Hole(vs, lo, hi, a) && PlainBelow(burrows, vs, lo, hi, a)
  }

  /** The lowest mapping that ends past `lo`. */
  method FirstPast(vs: seq<Vma>, lo: nat) returns (i: nat)
    ensures i <= |vs| && (forall j | 0 <= j < i :: vs[j].end <= lo) && (i < |vs| ==> vs[i].end > lo)
  {
    i := 0;
    while i < |vs| && vs[i].end <= lo
      invariant i <= |vs| && forall j | 0 <= j < i :: vs[j].end <= lo
    {
      i := i + 1;
    }
  }

  /** How far the walk has come: up to `cur` all is mapped and plain, and mapping `i` is the next. */
  ghost predicate Walked(burrows: Burrows, vs: seq<Vma>, lo: nat, hi: nat, i: nat, cur: nat) {
    && i <= |vs| && lo <= cur
    && (forall a: nat | lo <= a < cur && a < hi :: Mapped(vs, a))
    && (forall j | 0 <= j < i :: vs[j].end <= cur && (Overlaps(vs[j], lo, hi) ==> Plain(burrows, vs[j])))
    && (i < |vs| ==> vs[i].end > cur)
  }

  lemma WalkedNext(burrows: Burrows, vs: seq<Vma>, lo: nat, hi: nat, i: nat, cur: nat)
    requires Listed(vs) && Walked(burrows, vs, lo, hi, i, cur) && i < |vs|
    requires vs[i].start < hi && vs[i].start <= cur && Plain(burrows, vs[i])
    ensures Walked(burrows, vs, lo, hi, i + 1, vs[i].end)
  {
    forall a: nat | lo <= a < vs[i].end && a < hi
      ensures Mapped(vs, a)
    {
      if a >= cur { assert Holds(vs[i], a); }
    }
    if i + 1 < |vs| { assert Aligned(vs[i + 1]); }
  }

  /** The walk found a gap: a hole, with only plain mappings below it. */
  lemma WalkedGap(burrows: Burrows, vs: seq<Vma>, lo: nat, hi: nat, i: nat, cur: nat)
    requires Listed(vs) && Walked(burrows, vs, lo, hi, i, cur) && cur < hi && (i < |vs| ==> vs[i].start > cur)
    ensures HoleFirst(burrows, vs, lo, hi) && !Releasable(burrows, vs, lo, hi)
  {
    assert !Mapped(vs, cur);
    assert Hole(vs, lo, hi, cur) && PlainBelow(burrows, vs, lo, hi, cur);
  }

  /** The walk found a mapping that is not plain before any hole. */
  lemma WalkedBad(burrows: Burrows, vs: seq<Vma>, lo: nat, hi: nat, i: nat, cur: nat)
    requires Listed(vs) && Walked(burrows, vs, lo, hi, i, cur) && i < |vs|
    requires vs[i].start < hi && vs[i].start <= cur && !Plain(burrows, vs[i])
    ensures !HoleFirst(burrows, vs, lo, hi) && !Releasable(burrows, vs, lo, hi)
  {
    assert Overlaps(vs[i], lo, hi);
    forall a: nat | Hole(vs, lo, hi, a)
      ensures !PlainBelow(burrows, vs, lo, hi, a)
    {
      assert !Holds(vs[i], a);
    }
  }

  /** The walk reached the end of the range. */
  lemma WalkedAll(burrows: Burrows, vs: seq<Vma>, lo: nat, hi: nat, i: nat, cur: nat)
    requires Listed(vs) && Walked(burrows, vs, lo, hi, i, cur) && cur >= hi && (i < |vs| ==> vs[i].start >= hi)
    ensures Releasable(burrows, vs, lo, hi) && !HoleFirst(burrows, vs, lo, hi)
  {
    forall j | i <= j < |vs| ensures vs[j].start >= hi { assert Aligned(vs[i]); }
    assert forall a: nat :: !Hole(vs, lo, hi, a);
  }

  /** Whether the range may be released; a hole and a mapping of the wrong kind are told apart, the lower
      one deciding. */
  method Admit(burrows: Burrows, vs: seq<Vma>, lo: nat, hi: nat) returns (r: Answer)
    requires Listed(vs) && lo < hi
    ensures r.Done? <==> Releasable(burrows, vs, lo, hi)
    ensures r.NoMem? <==> HoleFirst(burrows, vs, lo, hi)
  {
    var cur: nat := lo;
    var i := FirstPast(vs, lo);
    while i < |vs| && vs[i].start < hi
      invariant Walked(burrows, vs, lo, hi, i, cur)
    {
      if vs[i].start > cur {
        WalkedGap(burrows, vs, lo, hi, i, cur);
        return NoMem;
      }
      if !Plain(burrows, vs[i]) {
        WalkedBad(burrows, vs, lo, hi, i, cur);
        return Inval;
      }
      WalkedNext(burrows, vs, lo, hi, i, cur);
      cur := vs[i].end;
      i := i + 1;
    }
    if cur < hi {
      WalkedGap(burrows, vs, lo, hi, i, cur);
      return NoMem;
    }
    WalkedAll(burrows, vs, lo, hi, i, cur);
    return Done;
  }

  // ---------------------------------------------------------------------------
  // Release.
  // ---------------------------------------------------------------------------

  /** The resident slots that the range names through the first `n` mappings. */
  ghost function Gone(slots: Slots, vs: seq<Vma>, lo: nat, hi: nat, n: nat): set<SlotId> {
    set k | k in slots && Named(vs, lo, hi, n, k)
  }

  /** `after` is `before` without them. */
  ghost predicate Released(before: Slots, after: Slots, vs: seq<Vma>, lo: nat, hi: nat, n: nat) {
    forall k: SlotId {:trigger ReleasedAt(before, after, vs, lo, hi, n, k)} ::
      ReleasedAt(before, after, vs, lo, hi, n, k)
  }

  ghost predicate ReleasedAt(before: Slots, after: Slots, vs: seq<Vma>, lo: nat, hi: nat, n: nat, k: SlotId) {
    && (k in after <==> k in before && !Named(vs, lo, hi, n, k))
    && (k in after ==> after[k] == before[k])
  }

  /** `after` is `before` without the slots that the range names through `v`. */
  ghost predicate Emptied(before: Slots, after: Slots, v: Vma, lo: nat, hi: nat) {
    forall k: SlotId {:trigger EmptiedAt(before, after, v, lo, hi, k)} :: EmptiedAt(before, after, v, lo, hi, k)
  }

  ghost predicate EmptiedAt(before: Slots, after: Slots, v: Vma, lo: nat, hi: nat, k: SlotId) {
    && (k in after <==> k in before && !Behind(v, lo, hi, k))
    && (k in after ==> after[k] == before[k])
  }

  ghost function Through(slots: Slots, v: Vma, lo: nat, hi: nat): set<SlotId> {
    set k | k in slots && Behind(v, lo, hi, k)
  }

  lemma NamedNext(vs: seq<Vma>, lo: nat, hi: nat, n: nat, k: SlotId)
    requires n < |vs|
    ensures Named(vs, lo, hi, n + 1, k) <==> Named(vs, lo, hi, n, k) || Behind(vs[n], lo, hi, k)
  {
  }

  lemma ReleasedNext(before: Slots, mid: Slots, after: Slots, vs: seq<Vma>, lo: nat, hi: nat, n: nat)
    requires Released(before, mid, vs, lo, hi, n) && n < |vs| && Emptied(mid, after, vs[n], lo, hi)
    ensures Released(before, after, vs, lo, hi, n + 1)
    ensures |Gone(before, vs, lo, hi, n + 1)| == |Gone(before, vs, lo, hi, n)| + |Through(mid, vs[n], lo, hi)|
  {
    var m := n + 1;
    forall k: SlotId
      ensures ReleasedAt(before, after, vs, lo, hi, m, k)
    {
      NamedNext(vs, lo, hi, n, k);
      assert ReleasedAt(before, mid, vs, lo, hi, n, k) && EmptiedAt(mid, after, vs[n], lo, hi, k);
    }
    GoneNext(before, mid, vs, lo, hi, n);
  }

  lemma GoneNext(before: Slots, mid: Slots, vs: seq<Vma>, lo: nat, hi: nat, n: nat)
    requires Released(before, mid, vs, lo, hi, n) && n < |vs|
    ensures |Gone(before, vs, lo, hi, n + 1)| == |Gone(before, vs, lo, hi, n)| + |Through(mid, vs[n], lo, hi)|
  {
    var was, more := Gone(before, vs, lo, hi, n), Through(mid, vs[n], lo, hi);
    forall k: SlotId
      ensures k in Gone(before, vs, lo, hi, n + 1) <==> k in was || k in more
      ensures !(k in was && k in more)
    {
      NamedNext(vs, lo, hi, n, k);
      assert ReleasedAt(before, mid, vs, lo, hi, n, k);
    }
    assert Gone(before, vs, lo, hi, n + 1) == was + more && was !! more;
  }

  /** Mappings outside the range name nothing of it. */
  lemma SkippedNames(slots: Slots, vs: seq<Vma>, lo: nat, hi: nat, n: nat)
    requires n <= |vs| && forall j | 0 <= j < n :: vs[j].end <= lo
    ensures Released(slots, slots, vs, lo, hi, n) && Gone(slots, vs, lo, hi, n) == {}
  {
  }

  lemma RestNames(before: Slots, after: Slots, vs: seq<Vma>, lo: nat, hi: nat, n: nat)
    requires Listed(vs) && Released(before, after, vs, lo, hi, n) && n <= |vs| && (n < |vs| ==> vs[n].start >= hi)
    ensures Released(before, after, vs, lo, hi, |vs|) && Gone(before, vs, lo, hi, |vs|) == Gone(before, vs, lo, hi, n)
  {
    forall j | n <= j < |vs| ensures vs[j].start >= hi { assert Aligned(vs[n]); }
    forall k: SlotId
      ensures Named(vs, lo, hi, |vs|, k) <==> Named(vs, lo, hi, n, k)
      ensures ReleasedAt(before, after, vs, lo, hi, |vs|, k)
    {
      assert ReleasedAt(before, after, vs, lo, hi, n, k);
    }
  }

  lemma PartIsRun(v: Vma, lo: nat, hi: nat, n: nat)
    requires Aligned(v) && lo % PAGE == 0 && hi % PAGE == 0 && lo < hi && Overlaps(v, lo, hi)
    ensures var l, h := Later(v.start, lo), Earlier(v.end, hi);
      (exists a {:trigger Holds(v, a)} :: lo <= a < hi && Holds(v, a) && SlotAt(v, a) == n)
        <==> SlotAt(v, l) <= n < SlotAt(v, l) + (h - l) / PAGE
  {
    var l, h := Later(v.start, lo), Earlier(v.end, hi);
    RangeIsRun(v, l, h, n);
    assert forall a: nat :: (lo <= a < hi && Holds(v, a)) <==> (l <= a < h && Holds(v, a));
  }

  /** The run of slots that ReleaseLazyRange takes is what the range names through the mapping. */
  lemma RunIsBehind(before: Slots, after: Slots, v: Vma, lo: nat, hi: nat, s: nat, e: nat)
    requires Aligned(v) && lo % PAGE == 0 && hi % PAGE == 0 && lo < hi && Overlaps(v, lo, hi) && v.burrow.Some?
    requires var l, h := Later(v.start, lo), Earlier(v.end, hi); s == SlotAt(v, l) && e == s + (h - l) / PAGE
    requires TakenUpTo(before, after, v.burrow.value, s, e)
    ensures Emptied(before, after, v, lo, hi) && Through(before, v, lo, hi) == Resident(before, v.burrow.value, s, e)
  {
    forall k: SlotId
      ensures Behind(v, lo, hi, k) <==> v.burrow == Some(k.0) && s <= k.1 < e
    {
      PartIsRun(v, lo, hi, k.1);
    }
  }

  /** Release what the range names through one mapping, and refund it. */
  method ReleasePart(k: Kernel, space: AddrSpace, v: Vma, lo: nat, hi: nat)
    requires k.Valid() && Aligned(v) && lo % PAGE == 0 && hi % PAGE == 0 && lo < hi
    requires Overlaps(v, lo, hi) && Plain(k.burrows, v)
    modifies k`share, k`slots, k`buddy, space`pages
    ensures k.Valid() && Emptied(old(k.slots), k.slots, v, lo, hi)
    ensures space.pages == PC.Apply(old(space.pages), PC.Uncharge(|Through(old(k.slots), v, lo, hi)|))
  {
    var l, h := Later(v.start, lo), Earlier(v.end, hi);
    var freed := k.ReleaseLazyRange(space, v, l, h, PAGE);
    RunIsBehind(old(k.slots), k.slots, v, lo, hi, SlotAt(v, l), SlotAt(v, l) + (h - l) / PAGE);
  }

  /** Release every mapping's part of a range whose translations are gone. */
  method ReleaseAll(k: Kernel, space: AddrSpace, lo: nat, hi: nat)
    requires k.Valid() && Listed(space.vmas) && lo % PAGE == 0 && hi % PAGE == 0 && lo < hi
    requires PlainBelow(k.burrows, space.vmas, lo, hi, hi) && forall a | a in space.installed :: !(lo <= a < hi)
    modifies k`share, k`slots, k`buddy, space`pages
    ensures k.Valid() && Released(old(k.slots), k.slots, space.vmas, lo, hi, |space.vmas|)
    ensures
      var gone := Gone(old(k.slots), space.vmas, lo, hi, |space.vmas|);
      space.pages == PC.Apply(old(space.pages), PC.Uncharge(|gone|))
  {
    var i := FirstPast(space.vmas, lo);
    SkippedNames(k.slots, space.vmas, lo, hi, i);
    while i < |space.vmas| && space.vmas[i].start < hi
      invariant i <= |space.vmas| && k.Valid() && (i < |space.vmas| ==> space.vmas[i].end > lo)
      invariant Released(old(k.slots), k.slots, space.vmas, lo, hi, i)
      invariant space.pages == PC.Apply(old(space.pages), PC.Uncharge(|Gone(old(k.slots), space.vmas, lo, hi, i)|))
    {
      ghost var mid := k.slots;
      ReleasePart(k, space, space.vmas[i], lo, hi);
      ReleasedNext(old(k.slots), mid, k.slots, space.vmas, lo, hi, i);
      i := i + 1;
    }
    RestNames(old(k.slots), k.slots, space.vmas, lo, hi, i);
  }

  ghost predicate Clear(v: Vma, lo: nat, hi: nat, installed: set<nat>) {
    forall a | a in installed :: !(lo <= a < hi && Holds(v, a))
  }

  /** Nothing outside the range went. */
  ghost predicate Between(was: set<nat>, installed: set<nat>, lo: nat, hi: nat) {
    installed <= was && forall a | a in was && !(lo <= a < hi) :: a in installed
  }

  lemma UninstalledAll(vs: seq<Vma>, lo: nat, hi: nat, i: nat, was: set<nat>, installed: set<nat>)
    requires Listed(vs) && (forall a: nat | lo <= a < hi :: Mapped(vs, a)) && Between(was, installed, lo, hi)
    requires i <= |vs| && (forall j | 0 <= j < i :: Clear(vs[j], lo, hi, installed)) && (i < |vs| ==> vs[i].start >= hi)
    ensures installed == set a | a in was && !(lo <= a < hi)
  {
    forall j | i <= j < |vs| ensures vs[j].start >= hi { assert Aligned(vs[i]); }
    forall a | a in installed ensures !(lo <= a < hi) { assert lo <= a < hi ==> Mapped(vs, a); }
  }

  /** Drop the translations of every mapping's part of the range. */
  method UninstallRange(space: AddrSpace, lo: nat, hi: nat)
    requires Listed(space.vmas) && forall a: nat | lo <= a < hi :: Mapped(space.vmas, a)
    modifies space`installed
    ensures space.installed == set a | a in old(space.installed) && !(lo <= a < hi)
  {
    var i := FirstPast(space.vmas, lo);
    while i < |space.vmas| && space.vmas[i].start < hi
      invariant i <= |space.vmas| && (forall j | 0 <= j < i :: Clear(space.vmas[j], lo, hi, space.installed))
      invariant Between(old(space.installed), space.installed, lo, hi)
    {
      var v := space.vmas[i];
      space.Uninstall(Later(v.start, lo), Earlier(v.end, hi));
      i := i + 1;
    }
    UninstalledAll(space.vmas, lo, hi, i, old(space.installed), space.installed);
  }

  // ---------------------------------------------------------------------------
  // The call.
  // ---------------------------------------------------------------------------

  predicate BadRange(start: nat, length: nat) {
    length == 0 || start % PAGE != 0 || length % PAGE != 0 || start + length > USER_TOP
  }

  /** Give back the pages behind `start .. start + length`. */
  method DecommitRange(k: Kernel, space: AddrSpace, start: nat, length: nat) returns (r: Answer)
    requires k.Valid() && Listed(space.vmas)
    modifies k`share, k`slots, k`buddy, space`pages, space`installed
    ensures k.Valid()
    ensures r.Done? <==> !BadRange(start, length) && Releasable(k.burrows, space.vmas, start, start + length)
    ensures r.NoMem? <==> !BadRange(start, length) && HoleFirst(k.burrows, space.vmas, start, start + length)
    ensures !r.Done? ==> k.slots == old(k.slots) && k.share == old(k.share) && k.buddy == old(k.buddy)
    ensures !r.Done? ==> space.pages == old(space.pages) && space.installed == old(space.installed)
    ensures r.Done? ==> Released(old(k.slots), k.slots, space.vmas, start, start + length, |space.vmas|)
    ensures r.Done? ==> space.installed == set a | a in old(space.installed) && !(start <= a < start + length)
    ensures r.Done? ==>
      var gone := Gone(old(k.slots), space.vmas, start, start + length, |space.vmas|);
      space.pages == PC.Apply(old(space.pages), PC.Uncharge(|gone|))
  {
    if BadRange(start, length) { return Inval; }
    var end := start + length;
    r := Admit(k.burrows, space.vmas, start, end);
    if !r.Done? { return; }
    UninstallRange(space, start, end);
    ReleaseAll(k, space, start, end);
  }
}
