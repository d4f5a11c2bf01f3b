/**
 The life of one Burrow: handle and mapping references taken and dropped in any interleaving,
 and the charge record an address space leaves on it.
 */
module BurrowLife {
  import opened Options

  type SpaceId = nat

  datatype Charge = Charge(payer: SpaceId, pages: nat)

  datatype Life = Life(
    handles: nat,
    mappings: nat,
    charge: Option<Charge>,
    sharedOut: bool,
    frees: nat,
    recorded: map<SpaceId, nat>,
    refunded: map<SpaceId, nat>)

  datatype Event =
    | Ref
    | Acquire
    | Unref(payer: Option<SpaceId>)
    | Release(payer: Option<SpaceId>)
    | Record(space: SpaceId, pages: nat)
    | ShareOut

  function At(m: map<SpaceId, nat>, a: SpaceId): nat { if a in m then m[a] else 0 }

  function Bump(m: map<SpaceId, nat>, a: SpaceId, n: nat): map<SpaceId, nat> { m[a := At(m, a) + n] }

  /** Created with its construction handle. */
  function Created(): Life { Life(1, 0, None, false, 0, map[], map[]) }

  /** A reference is taken only from a Burrow that is held, and a drop only by a holder. */
  predicate Enabled(x: Life, e: Event) {
    match e
    case Ref | Acquire | Record(_, _) | ShareOut => x.handles + x.mappings > 0
    case Unref(_) => x.handles > 0
    case Release(_) => x.mappings > 0
  }

  /** Claim the record for `payer`, if it is the space that paid. */
  function Claim(x: Life, payer: Option<SpaceId>): Life {
    if x.charge.Some? && x.charge.value.pages != 0 && payer == Some(x.charge.value.payer) then
      x.(charge := None, refunded := Bump(x.refunded, x.charge.value.payer, x.charge.value.pages))
    else x
  }

  function Free(x: Life): Life { if x.handles == 0 && x.mappings == 0 then x.(frees := x.frees + 1) else x }

  function Do(x: Life, e: Event): Life
    requires Enabled(x, e)
  {
    match e
    case Ref => x.(handles := x.handles + 1)
    case Acquire => x.(mappings := x.mappings + 1)
    case Unref(payer) =>
      var y := x.(handles := x.handles - 1);
      Free(if y.handles == 0 && y.mappings == 0 then Claim(y, payer) else y)
    case Release(payer) =>
      var y := x.(mappings := x.mappings - 1);
      Free(if (y.handles == 0 && y.mappings == 0) || y.sharedOut then Claim(y, payer) else y)
    case Record(a, pages) =>
      if pages == 0 then x else x.(charge := Some(Charge(a, pages)), recorded := Bump(x.recorded, a, pages))
    case ShareOut => x.(sharedOut := true)
  }

  ghost predicate IsRun(run: seq<Life>, events: seq<Event>) {
    && |run| == |events| + 1 && run[0] == Created()
    && forall i | 0 <= i < |events| :: Enabled(run[i], events[i]) && run[i + 1] == Do(run[i], events[i])
  }

  /** Freed once both counts are zero and never before; what was refunded to a space, with what
      its standing record is worth, never exceeds what it paid. */
  ghost predicate Inv(x: Life) {
    && x.frees == (if x.handles == 0 && x.mappings == 0 then 1 else 0)
    && forall a: SpaceId :: Standing(x, a) + At(x.refunded, a) <= At(x.recorded, a)
  }

  function Standing(x: Life, a: SpaceId): nat {
    if x.charge.Some? && x.charge.value.payer == a then x.charge.value.pages else 0
  }

  lemma StepKeeps(x: Life, e: Event)
    requires Inv(x) && Enabled(x, e)
    ensures Inv(Do(x, e))
  {
    var y := Do(x, e);
    forall a: SpaceId
      ensures Standing(y, a) + At(y.refunded, a) <= At(y.recorded, a)
    {
      assert Standing(x, a) + At(x.refunded, a) <= At(x.recorded, a);
    }
  }

  lemma {:induction false} RunInv(run: seq<Life>, events: seq<Event>, n: nat)
    requires IsRun(run, events) && n < |run|
    ensures Inv(run[n])
  {
    if n > 0 {
      RunInv(run, events, n - 1);
      StepKeeps(run[n - 1], events[n - 1]);
    }
  }

  /** Over every interleaving: the backing is freed exactly once, by the drop that brings both
      counts to zero, after which nothing more can happen to the Burrow. */
  lemma FreedOnce(run: seq<Life>, events: seq<Event>, n: nat)
    requires IsRun(run, events) && n < |events|
    ensures run[n].frees == 0
    ensures run[n + 1].frees == 1 <==> run[n + 1].handles == 0 && run[n + 1].mappings == 0
    ensures run[n + 1].frees == 1 ==> (events[n].Unref? || events[n].Release?) && n + 1 == |events|
  {
    RunInv(run, events, n);
    RunInv(run, events, n + 1);
    if n + 1 < |events| { assert Enabled(run[n + 1], events[n + 1]); }
  }

  /** A refund goes to the space whose record it is, consumes the record, and no space ever gets
      back more than it paid. */
  lemma RefundsAreOwed(run: seq<Life>, events: seq<Event>, n: nat, a: SpaceId)
    requires IsRun(run, events) && n < |events|
    ensures At(run[n + 1].refunded, a) <= At(run[n + 1].recorded, a)
    ensures At(run[n + 1].refunded, a) != At(run[n].refunded, a) ==>
      && run[n].charge.Some? && run[n].charge.value.payer == a && run[n + 1].charge.None?
      && At(run[n + 1].refunded, a) == At(run[n].refunded, a) + run[n].charge.value.pages
  {
    RunInv(run, events, n + 1);
    assert Standing(run[n + 1], a) + At(run[n + 1].refunded, a) <= At(run[n + 1].recorded, a);
  }

  // ---------------------------------------------------------------------------
  // And refunds are made.
  // ---------------------------------------------------------------------------

  predicate IsDrop(e: Event) { e.Unref? || e.Release? }

  /** Drop `e` ends the occupancy of the Burrow, or is a mapping drop of one that was shared out. */
  predicate Settles(x: Life, e: Event) {
    || (e.Unref? && x.handles == 1 && x.mappings == 0)
    || (e.Release? && ((x.handles == 0 && x.mappings == 1) || x.sharedOut))
  }

  /** A drop gives back to each space exactly what stands recorded for it if the drop settles and that
      space makes it, and nothing otherwise; what is given back stands no longer. */
  lemma DropSettles(x: Life, e: Event, a: SpaceId)
    requires Enabled(x, e) && IsDrop(e)
    ensures var due := if Settles(x, e) && e.payer == Some(a) then Standing(x, a) else 0; var y := Do(x, e);
      && At(y.refunded, a) == At(x.refunded, a) + due && Standing(y, a) == Standing(x, a) - due
      && y.recorded == x.recorded
  {
  }

  /** Each record is made while none stands. */
  ghost predicate OneAtATime(run: seq<Life>, events: seq<Event>)
    requires |run| == |events| + 1
  {
    forall i | 0 <= i < |events| && events[i].Record? && events[i].pages != 0 :: run[i].charge.None?
  }

  lemma StepAccounts(x: Life, e: Event, a: SpaceId)
    requires Enabled(x, e) && (e.Record? && e.pages != 0 ==> x.charge.None?)
    requires At(x.refunded, a) + Standing(x, a) == At(x.recorded, a)
    ensures At(Do(x, e).refunded, a) + Standing(Do(x, e), a) == At(Do(x, e).recorded, a)
  {
    if IsDrop(e) { DropSettles(x, e, a); }
  }

  /** Then what a space paid is what it got back and what still stands for it. */
  lemma {:induction false} NothingLeaks(run: seq<Life>, events: seq<Event>, n: nat, a: SpaceId)
    requires IsRun(run, events) && n < |run| && OneAtATime(run, events)
    ensures At(run[n].refunded, a) + Standing(run[n], a) == At(run[n].recorded, a)
  {
    if n > 0 {
      NothingLeaks(run, events, n - 1, a);
      StepAccounts(run[n - 1], events[n - 1], a);
    }
  }

  /** So when the drop that frees the backing is made by whoever's record stands, every space has got back
      all it paid. */
  lemma FreedIsRefunded(run: seq<Life>, events: seq<Event>, a: SpaceId)
    requires IsRun(run, events) && OneAtATime(run, events) && run[|events|].frees == 1
    requires var x, e := run[|events| - 1], events[|events| - 1];
      x.charge.Some? && IsDrop(e) ==> e.payer == Some(x.charge.value.payer)
    ensures At(run[|events|].refunded, a) == At(run[|events|].recorded, a)
  {
    var n := |events| - 1;
    RunInv(run, events, n);
    RunInv(run, events, n + 1);
    NothingLeaks(run, events, n + 1, a);
    DropSettles(run[n], events[n], a);
  }

  // ---------------------------------------------------------------------------
  // The counts, by what was done.
  // ---------------------------------------------------------------------------

  /** Handles taken less handles dropped, from the one of the construction on; and so for mappings. */
  function Handles(events: seq<Event>): int {
    if events == [] then 1
    else
      var last := events[|events| - 1];
      Handles(events[..|events| - 1]) + if last.Ref? then 1 else if last.Unref? then -1 else 0
  }

  function Mappings(events: seq<Event>): int {
    if events == [] then 0
    else
      var last := events[|events| - 1];
      Mappings(events[..|events| - 1]) + if last.Acquire? then 1 else if last.Release? then -1 else 0
  }

  /** What space `a` recorded. */
  function Paid(events: seq<Event>, a: SpaceId): nat {
    if events == [] then 0
    else
      var last := events[|events| - 1];
      Paid(events[..|events| - 1], a) + if last.Record? && last.space == a then last.pages else 0
  }

  predicate WasShared(events: seq<Event>) { exists i :: 0 <= i < |events| && events[i].ShareOut? }

  /** The counts are those of the events, the record of payments too, and a Burrow is shared out from the first
      sharing on. */
  lemma {:induction false} CountsAreEvents(run: seq<Life>, events: seq<Event>, n: nat, a: SpaceId)
    requires IsRun(run, events) && n < |run|
    ensures run[n].handles == Handles(events[..n]) && run[n].mappings == Mappings(events[..n])
    ensures At(run[n].recorded, a) == Paid(events[..n], a) && (run[n].sharedOut <==> WasShared(events[..n]))
  {
    if n > 0 {
      CountsAreEvents(run, events, n - 1, a);
      var before, e := events[..n - 1], events[n - 1];
      assert events[..n] == before + [e] && events[..n][..n - 1] == before;
      SharedNext(before, e);
      StepCounts(run[n - 1], e, a);
    }
  }

  lemma SharedNext(events: seq<Event>, e: Event)
    ensures WasShared(events + [e]) <==> WasShared(events) || e.ShareOut?
  {
    if i :| 0 <= i < |events| && events[i].ShareOut? { assert (events + [e])[i].ShareOut?; }
    if e.ShareOut? { assert (events + [e])[|events|].ShareOut?; }
  }

  lemma StepCounts(x: Life, e: Event, a: SpaceId)
    requires Enabled(x, e)
    ensures var y := Do(x, e);
      && y.handles == x.handles + (if e.Ref? then 1 else if e.Unref? then -1 else 0)
      && y.mappings == x.mappings + (if e.Acquire? then 1 else if e.Release? then -1 else 0)
      && At(y.recorded, a) == At(x.recorded, a) + (if e.Record? && e.space == a then e.pages else 0)
      && (y.sharedOut <==> x.sharedOut || e.ShareOut?)
  {
  }

  /** A payment stands for the space that made it, in place of any that stood, until a drop settles it. */
  lemma RecordStands(x: Life, e: Event, a: SpaceId)
    requires Enabled(x, e)
    ensures e.Record? && e.pages > 0 ==> Standing(Do(x, e), a) == if a == e.space then e.pages else 0
    ensures !IsDrop(e) && !(e.Record? && e.pages > 0) ==> Standing(Do(x, e), a) == Standing(x, a)
  {
  }
}
