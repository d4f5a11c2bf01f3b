/**
 Remote poll arms: a readiness read held by a 9P server on behalf of the pollers hooked on a
 file's poll-state.  Pollers arm and widen, a kernel thread reaps and collects, and a close
 cancels, all racing over one registry under one lock.  Each action is one hold of that lock, or
 one step a thread takes outside it.
 */
module PollArms {
  import opened Options
  import opened Sets

  type StateId = nat
  type ArmId = nat
  type PollerId = nat
  type Events = set<nat>

  /** Where an arm is: in the registry, taken by the reaper and then walked, or unlinked by the
      collector, by the poller that widened it or by a close; `Unsent` never went out. */
  datatype Place = Linked | Reaping | Walked | Collected | WidenedAway(poller: PollerId) | Grabbed | Unsent

  /** `terminal` once the read was answered, `flushed` once it was abandoned at the client. */
  datatype Arm = Arm(state: StateId, mask: Events, terminal: bool, place: Place, flushed: bool)

  /** A poller's hook: what it asked for, whether it was told it is armed, whether it was woken. */
  datatype Hook = Hook(events: Events, armed: bool, woken: bool)

  /** `held` is the open file's own reference; `newest` is the arm the next poller may reuse. */
  datatype PollState = PollState(
    newest: Option<ArmId>, hooks: map<PollerId, Hook>, held: bool, closing: bool, refs: nat)

  datatype Registry = Registry(
    arms: map<ArmId, Arm>, states: map<StateId, PollState>, gone: set<StateId>, nextArm: ArmId)

  datatype Action =
    | Open(ps: StateId)
    | Register(ps: StateId, poller: PollerId, events: Events)
    | Reuse(ps: StateId, poller: PollerId)
    | Fresh(ps: StateId, poller: PollerId, answered: bool)
    | Shortage(ps: StateId, poller: PollerId)
    | Unregister(ps: StateId, poller: PollerId)
    | Complete(a: ArmId)
    | Reap(a: ArmId)
    | Collect(a: ArmId)
    | Walk(a: ArmId)
    | Flush(a: ArmId)
    | Free(a: ArmId)
    | Close(ps: StateId)
    | DropState(ps: StateId)

  // ---------------------------------------------------------------------------
  // Steps.
  // ---------------------------------------------------------------------------

  predicate Tearing(pl: Place) { pl.Walked? || pl.Collected? || pl.WidenedAway? || pl.Grabbed? || pl.Unsent? }

  /** Whoever took the arm out outside the collector's lock hold has its flush still to send. */
  predicate OwesFlush(m: Arm) { (m.place.WidenedAway? || m.place.Grabbed?) && !m.flushed }

  /** The newest arm, if it has not been answered. */
  function Live(r: Registry, ps: StateId): Option<ArmId>
    requires ps in r.states
  {
    var n := r.states[ps].newest;
    if n.Some? && n.value in r.arms && !r.arms[n.value].terminal then n else None
  }

  predicate HookedIn(r: Registry, ps: StateId, poller: PollerId) {
    ps in r.states && !r.states[ps].closing && poller in r.states[ps].hooks && !r.states[ps].hooks[poller].armed
  }

  predicate Enabled(r: Registry, act: Action) {
    match act
    case Open(ps) => ps !in r.states && ps !in r.gone
    case Register(ps, w, _) => ps in r.states && r.states[ps].held && !r.states[ps].closing && w !in r.states[ps].hooks
    case Reuse(ps, w) =>
      HookedIn(r, ps, w) && Live(r, ps).Some? && r.states[ps].hooks[w].events <= r.arms[Live(r, ps).value].mask
    case Fresh(ps, w, _) =>
      HookedIn(r, ps, w) && (Live(r, ps).Some? ==> !(r.states[ps].hooks[w].events <= r.arms[Live(r, ps).value].mask))
    case Shortage(ps, w) =>
      HookedIn(r, ps, w) && (Live(r, ps).Some? ==> !(r.states[ps].hooks[w].events <= r.arms[Live(r, ps).value].mask))
    case Unregister(ps, w) =>  // a poller leaves only after flushing what it widened away
      && ps in r.states && w in r.states[ps].hooks
      && forall a | a in r.arms && r.arms[a].state == ps && r.arms[a].place == WidenedAway(w) :: r.arms[a].flushed
    case Complete(a) => a in r.arms && !r.arms[a].place.Unsent? && !r.arms[a].flushed
    case Reap(a) => a in r.arms && r.arms[a].place.Linked? && r.arms[a].terminal && r.arms[a].state in r.states
    case Collect(a) =>
      && a in r.arms && r.arms[a].place.Linked? && !r.arms[a].terminal
      && r.arms[a].state in r.states && r.states[r.arms[a].state].hooks == map[]
    case Walk(a) => a in r.arms && r.arms[a].place.Reaping? && r.arms[a].state in r.states
    case Flush(a) => a in r.arms && OwesFlush(r.arms[a])
    case Free(a) =>
      && a in r.arms && Tearing(r.arms[a].place) && !OwesFlush(r.arms[a])
      && r.arms[a].state in r.states && r.states[r.arms[a].state].refs > 0
    case Close(ps) => ps in r.states && r.states[ps].held && !r.states[ps].closing && r.states[ps].hooks == map[]
    case DropState(ps) =>  // a close frees what it grabbed first
      && ps in r.states && r.states[ps].closing && r.states[ps].held && r.states[ps].refs > 0
      && forall a | a in r.arms && r.arms[a].state == ps :: !r.arms[a].place.Grabbed?
  }

  function SetState(r: Registry, ps: StateId, s: PollState): Registry { r.(states := r.states[ps := s]) }

  function Tell(s: PollState, w: PollerId): PollState
    requires w in s.hooks
  {
    s.(hooks := s.hooks[w := s.hooks[w].(armed := true)])
  }

  /** Unlink `a` from the registry into `place`; the poll-state forgets it if it was the newest. */
  function Unlink(r: Registry, a: ArmId, place: Place, flushed: bool): Registry
    requires a in r.arms && r.arms[a].state in r.states
  {
    var ps := r.arms[a].state;
    var s := r.states[ps];
    SetState(r, ps, if s.newest == Some(a) then s.(newest := None) else s)
      .(arms := r.arms[a := r.arms[a].(place := place, flushed := flushed)])
  }

  /** A new arm for what is asked and what the live arm covered; the live arm goes only now. */
  function DoFresh(r: Registry, ps: StateId, w: PollerId, answered: bool): Registry
    requires HookedIn(r, ps, w)
  {
    var s, live, a := r.states[ps], Live(r, ps), r.nextArm;
    var mask := s.hooks[w].events + if live.Some? then r.arms[live.value].mask else {};
    var arms := if live.Some? then r.arms[live.value := r.arms[live.value].(place := WidenedAway(w))] else r.arms;
    SetState(r, ps, Tell(s, w).(newest := Some(a), refs := s.refs + 1))
      .(arms := arms[a := Arm(ps, mask, answered, Linked, false)], nextArm := a + 1)
  }

  /** The submit failed: the candidate holds its references until it is freed. */
  function DoShortage(r: Registry, ps: StateId, w: PollerId): Registry
    requires HookedIn(r, ps, w)
  {
    var s := r.states[ps];
    SetState(r, ps, s.(refs := s.refs + 1))
      .(arms := r.arms[r.nextArm := Arm(ps, s.hooks[w].events, false, Unsent, false)], nextArm := r.nextArm + 1)
  }

  function Woken(hooks: map<PollerId, Hook>): map<PollerId, Hook> { map w | w in hooks :: hooks[w].(woken := true) }

  /** Drop one reference; the last one frees the poll-state. */
  function Deref(r: Registry, ps: StateId, s: PollState): Registry
    requires s.refs > 0
  {
    if s.refs == 1 then r.(states := r.states - {ps}, gone := r.gone + {ps})
    else SetState(r, ps, s.(refs := s.refs - 1))
  }

  function DoClose(r: Registry, ps: StateId): Registry
    requires ps in r.states
  {
    var s := r.states[ps];
    var q := SetState(r, ps, s.(newest := None, closing := true));
    if s.newest.Some? && s.newest.value in r.arms && r.arms[s.newest.value].place.Linked?
    then q.(arms := r.arms[s.newest.value := r.arms[s.newest.value].(place := Grabbed)]) else q
  }

  function Do(r: Registry, act: Action): Registry
    requires Enabled(r, act)
  {
    match act
    case Open(ps) => SetState(r, ps, PollState(None, map[], true, false, 1))
    case Register(ps, w, ev) => SetState(r, ps, r.states[ps].(hooks := r.states[ps].hooks[w := Hook(ev, false, false)]))
    case Reuse(ps, w) => SetState(r, ps, Tell(r.states[ps], w))
    case Fresh(ps, w, answered) => DoFresh(r, ps, w, answered)
    case Shortage(ps, w) => DoShortage(r, ps, w)
    case Unregister(ps, w) => SetState(r, ps, r.states[ps].(hooks := r.states[ps].hooks - {w}))
    case Complete(a) => r.(arms := r.arms[a := r.arms[a].(terminal := true)])
    case Reap(a) => Unlink(r, a, Reaping, r.arms[a].flushed)
    case Collect(a) => Unlink(r, a, Collected, true)
    case Walk(a) =>
      var ps := r.arms[a].state;
      SetState(r, ps, r.states[ps].(hooks := Woken(r.states[ps].hooks)))
        .(arms := r.arms[a := r.arms[a].(place := Walked)])
    case Flush(a) => r.(arms := r.arms[a := r.arms[a].(flushed := true)])
    case Free(a) =>
      var ps := r.arms[a].state;
      Deref(r.(arms := r.arms - {a}), ps, r.states[ps])
    case Close(ps) => DoClose(r, ps)
    case DropState(ps) => Deref(r, ps, r.states[ps].(held := false))
  }

  function Init(): Registry { Registry(map[], map[], {}, 0) }

  ghost predicate Follows(run: seq<Registry>, acts: seq<Action>, i: nat)
    requires i < |acts| && |run| == |acts| + 1
  {
    Enabled(run[i], acts[i]) && run[i + 1] == Do(run[i], acts[i])
  }

  ghost predicate IsRun(run: seq<Registry>, acts: seq<Action>) {
    && |run| == |acts| + 1 && run[0] == Init()
    && forall i {:trigger Follows(run, acts, i)} | 0 <= i < |acts| :: Follows(run, acts, i)
  }

  // ---------------------------------------------------------------------------
  // The invariant.
  // ---------------------------------------------------------------------------

  /** The arm will wake a poller of `ps` that wants `events`. */
  ghost predicate Covers(arms: map<ArmId, Arm>, a: ArmId, ps: StateId, events: Events) {
    && a in arms && arms[a].state == ps && (arms[a].place.Linked? || arms[a].place.Reaping?)
    && (arms[a].terminal || events <= arms[a].mask)
  }

  ghost predicate Covered(arms: map<ArmId, Arm>, ps: StateId, events: Events) {
    exists a :: Covers(arms, a, ps, events)
  }

  /** The arms that hold a reference to a poll-state. */
  ghost function Holders(arms: map<ArmId, Arm>, ps: StateId): set<ArmId> { set a | a in arms && arms[a].state == ps }

  ghost predicate StateOk(arms: map<ArmId, Arm>, ps: StateId, s: PollState) {
    && (s.newest.Some? ==>
        s.newest.value in arms && arms[s.newest.value].state == ps && arms[s.newest.value].place.Linked?)
    && s.refs == |Holders(arms, ps)| + (if s.held then 1 else 0) && s.refs > 0
    && (!s.held ==> s.closing) && (s.closing ==> s.hooks == map[] && s.newest.None?)
    && (forall w | w in s.hooks && s.hooks[w].armed && !s.hooks[w].woken :: Covered(arms, ps, s.hooks[w].events))
  }

  ghost predicate ArmOk(r: Registry, a: ArmId)
    requires a in r.arms
  {
    && a < r.nextArm && r.arms[a].state in r.states
    && (r.arms[a].place.Reaping? || r.arms[a].place.Walked? ==> r.arms[a].terminal)
    && (r.arms[a].place.Collected? ==> r.arms[a].flushed)
    && (r.arms[a].place.WidenedAway? && !r.arms[a].flushed ==>
        r.arms[a].place.poller in r.states[r.arms[a].state].hooks)
    && (r.arms[a].place.Linked? && !r.arms[a].terminal ==> r.states[r.arms[a].state].newest == Some(a))
  }

  ghost predicate Inv(r: Registry) {
    && (forall ps {:trigger StateOk(r.arms, ps, r.states[ps])} | ps in r.states :: StateOk(r.arms, ps, r.states[ps]))
    && (forall a {:trigger ArmOk(r, a)} | a in r.arms :: ArmOk(r, a))
    && r.gone !! r.states.Keys
  }

  // ---------------------------------------------------------------------------
  // Frames: one arm changes.
  // ---------------------------------------------------------------------------

  /** Apart from arm `a`, the two registries hold the same arms. */
  ghost predicate SameBut(arms: map<ArmId, Arm>, u: map<ArmId, Arm>, a: ArmId) {
    forall x | x != a :: (x in arms <==> x in u) && (x in arms ==> arms[x] == u[x])
  }

  lemma CoverFrame(arms: map<ArmId, Arm>, u: map<ArmId, Arm>, a: ArmId, ps: StateId, ev: Events)
    requires SameBut(arms, u, a) && Covered(arms, ps, ev)
    requires Covers(arms, a, ps, ev) ==> Covers(u, a, ps, ev)
    ensures Covered(u, ps, ev)
  {
    var x :| Covers(arms, x, ps, ev);
    assert Covers(u, x, ps, ev);
  }

  lemma HoldersMove(arms: map<ArmId, Arm>, u: map<ArmId, Arm>, a: ArmId, ps: StateId)
    requires SameBut(arms, u, a)
    ensures |Holders(u, ps)| ==
        Toggle(|Holders(arms, ps)|, a in arms && arms[a].state == ps, a in u && u[a].state == ps)
  {
    forall x | x != a ensures x in Holders(u, ps) <==> x in Holders(arms, ps) {}
    SizeMoves(Holders(arms, ps), Holders(u, ps), a);
  }

  /** Nothing about `ps` changes when an arm of another poll-state does. */
  lemma StateFrame(arms: map<ArmId, Arm>, u: map<ArmId, Arm>, a: ArmId, ps: StateId, s: PollState)
    requires StateOk(arms, ps, s) && SameBut(arms, u, a)
    requires a in arms ==> arms[a].state != ps
    requires a in u ==> u[a].state != ps
    ensures StateOk(u, ps, s)
  {
    HoldersMove(arms, u, a, ps);
    forall w | w in s.hooks && s.hooks[w].armed && !s.hooks[w].woken
      ensures Covered(u, ps, s.hooks[w].events)
    {
      CoverFrame(arms, u, a, ps, s.hooks[w].events);
    }
  }

  /** The step touches one arm and one poll-state. */
  lemma OneArm(r: Registry, q: Registry, a: ArmId, ps: StateId)
    requires Inv(r) && SameBut(r.arms, q.arms, a) && r.nextArm <= q.nextArm
    requires a in r.arms ==> r.arms[a].state == ps
    requires a in q.arms ==> q.arms[a].state == ps
    requires forall x | x != ps :: (x in r.states <==> x in q.states) && (x in r.states ==> r.states[x] == q.states[x])
    requires ps in q.states ==> StateOk(q.arms, ps, q.states[ps])
    requires forall x {:trigger ArmOk(q, x)} | x in q.arms && q.arms[x].state == ps :: ArmOk(q, x)
    requires q.gone !! q.states.Keys
    ensures Inv(q)
  {
    forall x | x in q.states
      ensures StateOk(q.arms, x, q.states[x])
    {
      if x != ps {
        assert StateOk(r.arms, x, r.states[x]);
        StateFrame(r.arms, q.arms, a, x, r.states[x]);
      }
    }
    forall x | x in q.arms
      ensures ArmOk(q, x)
    {
      if q.arms[x].state != ps { assert ArmOk(r, x); }
    }
  }

  // ---------------------------------------------------------------------------
  // Each step keeps the invariant.
  // ---------------------------------------------------------------------------

  lemma OpenKeeps(r: Registry, ps: StateId)
    requires Inv(r) && Enabled(r, Open(ps))
    ensures Inv(Do(r, Open(ps)))
  {
    var q := Do(r, Open(ps));
    forall x | x in r.arms ensures r.arms[x].state != ps && x < r.nextArm { assert ArmOk(r, x); }
    assert Holders(q.arms, ps) == {};
    OneArm(r, q, r.nextArm, ps);
  }

  lemma HooksKeep(r: Registry, act: Action)
    requires Inv(r) && Enabled(r, act) && (act.Register? || act.Unregister? || act.Reuse?)
    ensures Inv(Do(r, act))
  {
    var q, ps := Do(r, act), act.ps;
    assert StateOk(r.arms, ps, r.states[ps]);
    if act.Reuse? { assert Covers(r.arms, Live(r, ps).value, ps, r.states[ps].hooks[act.poller].events); }
    forall x | x in q.arms && q.arms[x].state == ps ensures ArmOk(q, x) { assert ArmOk(r, x); }
    forall x | x in r.arms ensures x < r.nextArm { assert ArmOk(r, x); }
    OneArm(r, q, r.nextArm, ps);
  }

  lemma CompleteKeeps(r: Registry, a: ArmId)
    requires Inv(r) && Enabled(r, Complete(a))
    ensures Inv(Do(r, Complete(a)))
  {
    var q, ps := Do(r, Complete(a)), r.arms[a].state;
    assert ArmOk(r, a);
    var s := r.states[ps];
    assert StateOk(r.arms, ps, s);
    HoldersMove(r.arms, q.arms, a, ps);
    forall w | w in s.hooks && s.hooks[w].armed && !s.hooks[w].woken
      ensures Covered(q.arms, ps, s.hooks[w].events)
    {
      CoverFrame(r.arms, q.arms, a, ps, s.hooks[w].events);
    }
    forall x | x in q.arms && q.arms[x].state == ps ensures ArmOk(q, x) { assert ArmOk(r, x); }
    OneArm(r, q, a, ps);
  }

  lemma FlushKeeps(r: Registry, a: ArmId)
    requires Inv(r) && Enabled(r, Flush(a))
    ensures Inv(Do(r, Flush(a)))
  {
    var q, ps := Do(r, Flush(a)), r.arms[a].state;
    assert ArmOk(r, a);
    var s := r.states[ps];
    assert StateOk(r.arms, ps, s);
    HoldersMove(r.arms, q.arms, a, ps);
    forall w | w in s.hooks && s.hooks[w].armed && !s.hooks[w].woken
      ensures Covered(q.arms, ps, s.hooks[w].events)
    {
      CoverFrame(r.arms, q.arms, a, ps, s.hooks[w].events);
    }
    forall x | x in q.arms && q.arms[x].state == ps ensures ArmOk(q, x) { assert ArmOk(r, x); }
    OneArm(r, q, a, ps);
  }

  lemma ReapKeeps(r: Registry, a: ArmId)
    requires Inv(r) && Enabled(r, Reap(a))
    ensures Inv(Do(r, Reap(a)))
  {
    var q, ps := Do(r, Reap(a)), r.arms[a].state;
    var s := r.states[ps];
    assert StateOk(r.arms, ps, s);
    HoldersMove(r.arms, q.arms, a, ps);
    forall w | w in s.hooks && s.hooks[w].armed && !s.hooks[w].woken
      ensures Covered(q.arms, ps, s.hooks[w].events)
    {
      CoverFrame(r.arms, q.arms, a, ps, s.hooks[w].events);
    }
    forall x | x in q.arms && q.arms[x].state == ps ensures ArmOk(q, x) { assert ArmOk(r, x); }
    OneArm(r, q, a, ps);
  }

  lemma CollectKeeps(r: Registry, a: ArmId)
    requires Inv(r) && Enabled(r, Collect(a))
    ensures Inv(Do(r, Collect(a)))
  {
    var q, ps := Do(r, Collect(a)), r.arms[a].state;
    assert StateOk(r.arms, ps, r.states[ps]);
    HoldersMove(r.arms, q.arms, a, ps);
    forall x | x in q.arms && q.arms[x].state == ps ensures ArmOk(q, x) { assert ArmOk(r, x); }
    OneArm(r, q, a, ps);
  }

  lemma WalkKeeps(r: Registry, a: ArmId)
    requires Inv(r) && Enabled(r, Walk(a))
    ensures Inv(Do(r, Walk(a)))
  {
    var q, ps := Do(r, Walk(a)), r.arms[a].state;
    assert StateOk(r.arms, ps, r.states[ps]);
    HoldersMove(r.arms, q.arms, a, ps);
    forall x | x in q.arms && q.arms[x].state == ps ensures ArmOk(q, x) { assert ArmOk(r, x); }
    OneArm(r, q, a, ps);
  }

  lemma FreeKeeps(r: Registry, a: ArmId)
    requires Inv(r) && Enabled(r, Free(a))
    ensures Inv(Do(r, Free(a)))
  {
    var q, ps := Do(r, Free(a)), r.arms[a].state;
    var s := r.states[ps];
    assert StateOk(r.arms, ps, s);
    HoldersMove(r.arms, q.arms, a, ps);
    forall w | w in s.hooks && s.hooks[w].armed && !s.hooks[w].woken
      ensures Covered(q.arms, ps, s.hooks[w].events)
    {
      CoverFrame(r.arms, q.arms, a, ps, s.hooks[w].events);
    }
    if s.refs == 1 { assert Holders(q.arms, ps) == {}; }
    forall x | x in q.arms && q.arms[x].state == ps
      ensures ArmOk(q, x)
    {
      assert x in Holders(q.arms, ps);
      assert ArmOk(r, x);
    }
    OneArm(r, q, a, ps);
  }

  lemma CloseKeeps(r: Registry, ps: StateId)
    requires Inv(r) && Enabled(r, Close(ps))
    ensures Inv(Do(r, Close(ps)))
  {
    var q := Do(r, Close(ps));
    var s := r.states[ps];
    assert StateOk(r.arms, ps, s);
    var a := if s.newest.Some? then s.newest.value else r.nextArm;
    forall x | x in r.arms ensures x < r.nextArm { assert ArmOk(r, x); }
    HoldersMove(r.arms, q.arms, a, ps);
    forall x | x in q.arms && q.arms[x].state == ps ensures ArmOk(q, x) { assert ArmOk(r, x); }
    OneArm(r, q, a, ps);
  }

  lemma DropKeeps(r: Registry, ps: StateId)
    requires Inv(r) && Enabled(r, DropState(ps))
    ensures Inv(Do(r, DropState(ps)))
  {
    var q := Do(r, DropState(ps));
    assert StateOk(r.arms, ps, r.states[ps]);
    forall x | x in r.arms ensures x < r.nextArm { assert ArmOk(r, x); }
    forall x | x in q.arms && q.arms[x].state == ps
      ensures ArmOk(q, x)
    {
      assert x in Holders(r.arms, ps);
      assert ArmOk(r, x);
    }
    OneArm(r, q, r.nextArm, ps);
  }

  lemma ShortageKeeps(r: Registry, ps: StateId, w: PollerId)
    requires Inv(r) && Enabled(r, Shortage(ps, w))
    ensures Inv(DoShortage(r, ps, w))
  {
    var q, a := DoShortage(r, ps, w), r.nextArm;
    var s := r.states[ps];
    assert StateOk(r.arms, ps, s);
    forall x | x in r.arms ensures x < a { assert ArmOk(r, x); }
    HoldersMove(r.arms, q.arms, a, ps);
    forall v | v in s.hooks && s.hooks[v].armed && !s.hooks[v].woken
      ensures Covered(q.arms, ps, s.hooks[v].events)
    {
      CoverFrame(r.arms, q.arms, a, ps, s.hooks[v].events);
    }
    forall x | x in q.arms && q.arms[x].state == ps ensures ArmOk(q, x) { if x != a { assert ArmOk(r, x); } }
    OneArm(r, q, a, ps);
  }

  /** Every poller that was covered stays covered by the arm that replaces the live one, and so is
      the poller that asked. */
  lemma FreshCovers(r: Registry, ps: StateId, w: PollerId, answered: bool, v: PollerId)
    requires Inv(r) && Enabled(r, Fresh(ps, w, answered)) && v in r.states[ps].hooks
    requires v == w || (r.states[ps].hooks[v].armed && !r.states[ps].hooks[v].woken)
    ensures Covered(DoFresh(r, ps, w, answered).arms, ps, r.states[ps].hooks[v].events)
  {
    var q, a, ev := DoFresh(r, ps, w, answered), r.nextArm, r.states[ps].hooks[v].events;
    assert StateOk(r.arms, ps, r.states[ps]);
    if v == w {
      assert Covers(q.arms, a, ps, ev);
    } else {
      var x: ArmId :| Covers(r.arms, x, ps, ev);
      assert ArmOk(r, x);
      if Live(r, ps) == Some(x) { assert Covers(q.arms, a, ps, ev); } else { assert Covers(q.arms, x, ps, ev); }
    }
  }

  lemma FreshState(r: Registry, ps: StateId, w: PollerId, answered: bool)
    requires Inv(r) && Enabled(r, Fresh(ps, w, answered))
    ensures var q := DoFresh(r, ps, w, answered); StateOk(q.arms, ps, q.states[ps])
  {
    var q, a, live := DoFresh(r, ps, w, answered), r.nextArm, Live(r, ps);
    var s := q.states[ps];
    assert StateOk(r.arms, ps, r.states[ps]);
    forall x | x in r.arms ensures x < a { assert ArmOk(r, x); }
    var mid := q.arms - {a};
    HoldersMove(mid, q.arms, a, ps);
    HoldersMove(r.arms, mid, if live.Some? then live.value else a, ps);
    forall v | v in s.hooks && s.hooks[v].armed && !s.hooks[v].woken
      ensures Covered(q.arms, ps, s.hooks[v].events)
    {
      FreshCovers(r, ps, w, answered, v);
    }
  }

  lemma FreshOthers(r: Registry, ps: StateId, w: PollerId, answered: bool, x: StateId)
    requires Inv(r) && Enabled(r, Fresh(ps, w, answered)) && x in r.states && x != ps
    ensures StateOk(DoFresh(r, ps, w, answered).arms, x, r.states[x])
  {
    var q, a, live := DoFresh(r, ps, w, answered), r.nextArm, Live(r, ps);
    assert StateOk(r.arms, ps, r.states[ps]) && StateOk(r.arms, x, r.states[x]);
    assert a in r.arms ==> ArmOk(r, a);
    var mid := q.arms - {a};
    StateFrame(r.arms, mid, if live.Some? then live.value else a, x, r.states[x]);
    StateFrame(mid, q.arms, a, x, r.states[x]);
  }

  lemma FreshArm(r: Registry, ps: StateId, w: PollerId, answered: bool, x: ArmId)
    requires Inv(r) && Enabled(r, Fresh(ps, w, answered)) && x in DoFresh(r, ps, w, answered).arms
    ensures ArmOk(DoFresh(r, ps, w, answered), x)
  {
    assert StateOk(r.arms, ps, r.states[ps]);
    if x != r.nextArm { assert ArmOk(r, x); }
  }

  lemma FreshKeeps(r: Registry, ps: StateId, w: PollerId, answered: bool)
    requires Inv(r) && Enabled(r, Fresh(ps, w, answered))
    ensures Inv(DoFresh(r, ps, w, answered))
  {
    var q := DoFresh(r, ps, w, answered);
    FreshState(r, ps, w, answered);
    forall x | x in q.states
      ensures StateOk(q.arms, x, q.states[x])
    {
      if x != ps { FreshOthers(r, ps, w, answered, x); }
    }
    forall x | x in q.arms ensures ArmOk(q, x) { FreshArm(r, ps, w, answered, x); }
  }

  // ---------------------------------------------------------------------------
  // Every step, every run.
  // ---------------------------------------------------------------------------

  lemma StepKeeps(r: Registry, act: Action)
    requires Inv(r) && Enabled(r, act)
    ensures Inv(Do(r, act))
  {
    match act
    case Open(ps) => OpenKeeps(r, ps);
    case Register(_, _, _) => HooksKeep(r, act);
    case Reuse(_, _) => HooksKeep(r, act);
    case Fresh(ps, w, answered) => FreshKeeps(r, ps, w, answered);
    case Shortage(ps, w) => ShortageKeeps(r, ps, w);
    case Unregister(_, _) => HooksKeep(r, act);
    case Complete(a) => CompleteKeeps(r, a);
    case Reap(a) => ReapKeeps(r, a);
    case Collect(a) => CollectKeeps(r, a);
    case Walk(a) => WalkKeeps(r, a);
    case Flush(a) => FlushKeeps(r, a);
    case Free(a) => FreeKeeps(r, a);
    case Close(ps) => CloseKeeps(r, ps);
    case DropState(ps) => DropKeeps(r, ps);
  }

  lemma {:induction false} RunInv(run: seq<Registry>, acts: seq<Action>, n: nat)
    requires IsRun(run, acts) && n < |run|
    ensures Inv(run[n])
  {
    if n > 0 {
      RunInv(run, acts, n - 1);
      assert Follows(run, acts, n - 1);
      StepKeeps(run[n - 1], acts[n - 1]);
    }
  }

  /** A poller that was told it is armed and has not been woken is covered: an arm of its poll-state
      that is in the registry or being reaped has been answered, or asks for all its events. */
  lemma ArmedIsCovered(run: seq<Registry>, acts: seq<Action>, n: nat, ps: StateId, w: PollerId)
    requires IsRun(run, acts) && n < |run| && ps in run[n].states && w in run[n].states[ps].hooks
    requires run[n].states[ps].hooks[w].armed && !run[n].states[ps].hooks[w].woken
    ensures Covered(run[n].arms, ps, run[n].states[ps].hooks[w].events)
  {
    RunInv(run, acts, n);
    assert StateOk(run[n].arms, ps, run[n].states[ps]);
  }

  // ---------------------------------------------------------------------------
  // Hooks and masks, by what was done.
  // ---------------------------------------------------------------------------

  /** The action tells poller `w` that it is armed. */
  predicate Tells(act: Action, ps: StateId, w: PollerId) {
    (act.Reuse? || act.Fresh?) && act.ps == ps && act.poller == w
  }

  /** The action walks the hooks of `ps` for an arm of it that was answered. */
  predicate Wakes(r: Registry, act: Action, ps: StateId) {
    act.Walk? && act.a in r.arms && r.arms[act.a].state == ps && r.arms[act.a].terminal
  }

  lemma HookStep(r: Registry, q: Registry, act: Action, ps: StateId, w: PollerId)
    requires Inv(r) && Enabled(r, act) && q == Do(r, act) && ps in q.states && w in q.states[ps].hooks
    ensures var h := q.states[ps].hooks[w];
      || (act == Register(ps, w, h.events) && !h.armed && !h.woken)
      || (&& ps in r.states && w in r.states[ps].hooks && act != Unregister(ps, w) && !IsRegister(act, ps, w)
          && var g := r.states[ps].hooks[w];
          && h.events == g.events && (h.armed <==> g.armed || Tells(act, ps, w))
          && (h.woken <==> g.woken || Wakes(r, act, ps)))
  {
    if act.Walk? { assert ArmOk(r, act.a); }
  }

  predicate IsRegister(act: Action, ps: StateId, w: PollerId) { act.Register? && act.ps == ps && act.poller == w }

  ghost predicate ToldSince(acts: seq<Action>, k: nat, n: nat, ps: StateId, w: PollerId)
    requires n <= |acts|
  {
    exists j :: k < j < n && Tells(acts[j], ps, w)
  }

  ghost predicate WokenSince(run: seq<Registry>, acts: seq<Action>, k: nat, n: nat, ps: StateId)
    requires n <= |acts| && |run| == |acts| + 1
  {
    exists j :: k < j < n && Wakes(run[j], acts[j], ps)
  }

  /** A hook stands for one registration, which asked for its events and has not been taken back; the poller
      was told it is armed exactly when it reused or submitted an arm since, and was woken exactly when an
      answered arm of the poll-state was walked since. */
  lemma {:induction false} HookSince(run: seq<Registry>, acts: seq<Action>, n: nat, ps: StateId, w: PollerId)
    returns (k: nat)
    requires IsRun(run, acts) && n < |run| && ps in run[n].states && w in run[n].states[ps].hooks
    ensures k < n && acts[k] == Register(ps, w, run[n].states[ps].hooks[w].events)
    ensures forall j | k < j < n :: acts[j] != Unregister(ps, w) && !IsRegister(acts[j], ps, w)
    ensures run[n].states[ps].hooks[w].armed <==> ToldSince(acts, k, n, ps, w)
    ensures run[n].states[ps].hooks[w].woken <==> WokenSince(run, acts, k, n, ps)
  {
    var m := n - 1;
    assert Follows(run, acts, m);
    RunInv(run, acts, m);
    HookStep(run[m], run[n], acts[m], ps, w);
    if acts[m] == Register(ps, w, run[n].states[ps].hooks[w].events) && !run[n].states[ps].hooks[w].armed &&
       !run[n].states[ps].hooks[w].woken {
      k := m;
    } else {
      k := HookSince(run, acts, m, ps, w);
      assert ToldSince(acts, k, n, ps, w) <==> ToldSince(acts, k, m, ps, w) || Tells(acts[m], ps, w);
      assert WokenSince(run, acts, k, n, ps) <==> WokenSince(run, acts, k, m, ps) || Wakes(run[m], acts[m], ps);
    }
  }

  /** Some poller of `ps` asked for event `v`. */
  ghost predicate Asked(acts: seq<Action>, n: nat, ps: StateId, v: nat)
    requires n <= |acts|
  {
    exists k :: 0 <= k < n && acts[k].Register? && acts[k].ps == ps && v in acts[k].events
  }

  lemma MaskStep(r: Registry, q: Registry, act: Action, a: ArmId, v: nat)
    requires Enabled(r, act) && q == Do(r, act) && a in q.arms && v in q.arms[a].mask
    ensures (a in r.arms && r.arms[a].state == q.arms[a].state && v in r.arms[a].mask)
      || ((act.Fresh? || act.Shortage?) && act.ps == q.arms[a].state && act.ps in r.states
          && act.poller in r.states[act.ps].hooks && v in r.states[act.ps].hooks[act.poller].events)
      || (act.Fresh? && act.ps == q.arms[a].state && act.ps in r.states && Live(r, act.ps).Some?
          && v in r.arms[Live(r, act.ps).value].mask)
  {
  }

  /** An arm reads for no event that nobody asked for. */
  lemma {:induction false} MasksAreAsked(run: seq<Registry>, acts: seq<Action>, n: nat, a: ArmId, v: nat)
    requires IsRun(run, acts) && n < |run| && a in run[n].arms && v in run[n].arms[a].mask
    ensures Asked(acts, n, run[n].arms[a].state, v)
  {
    var m := n - 1;
    assert Follows(run, acts, m);
    RunInv(run, acts, m);
    var r, act := run[m], acts[m];
    MaskStep(r, run[n], act, a, v);
    if a in r.arms && r.arms[a].state == run[n].arms[a].state && v in r.arms[a].mask {
      MasksAreAsked(run, acts, m, a, v);
    } else if v in r.states[act.ps].hooks[act.poller].events {
      var k := HookSince(run, acts, m, act.ps, act.poller);
      assert acts[k].Register? && v in acts[k].events;
    } else {
      assert StateOk(r.arms, act.ps, r.states[act.ps]);
      MasksAreAsked(run, acts, m, Live(r, act.ps).value, v);
    }
  }

  /** The step answers the read of arm `a`, on submission or later. */
  predicate AnswersArm(r: Registry, act: Action, a: ArmId) {
    act == Complete(a) || (act.Fresh? && act.answered && r.nextArm == a)
  }

  /** The arm's read was answered, or given up at the client, in one of the steps. */
  ghost predicate AnsweredIn(run: seq<Registry>, acts: seq<Action>, n: nat, a: ArmId)
    requires n <= |acts| && |run| == |acts| + 1
  {
    exists j :: 0 <= j < n && AnswersArm(run[j], acts[j], a)
  }

  ghost predicate FlushedIn(acts: seq<Action>, n: nat, a: ArmId)
    requires n <= |acts|
  {
    exists j :: 0 <= j < n && (acts[j] == Flush(a) || acts[j] == Collect(a))
  }

  lemma ArmStep(r: Registry, q: Registry, act: Action, a: ArmId)
    requires Inv(r) && Enabled(r, act) && q == Do(r, act) && a in q.arms
    ensures var now := AnswersArm(r, act, a);
      && (a in r.arms ==> (q.arms[a].terminal <==> r.arms[a].terminal || now))
      && (a !in r.arms ==> a == r.nextArm && (q.arms[a].terminal <==> now) && !q.arms[a].flushed)
      && (a in r.arms ==> (q.arms[a].flushed <==> r.arms[a].flushed || act == Flush(a) || act == Collect(a)))
  {
    if a in r.arms { assert ArmOk(r, a); }
  }

  lemma ArmsBelow(run: seq<Registry>, acts: seq<Action>, n: nat, a: ArmId)
    requires IsRun(run, acts) && n < |run| && run[n].nextArm <= a
    ensures !AnsweredIn(run, acts, n, a) && !FlushedIn(acts, n, a)
    decreases n
  {
    if n > 0 {
      var m := n - 1;
      assert Follows(run, acts, m);
      RunInv(run, acts, m);
      ArmsBelow(run, acts, m, a);
      assert a in run[m].arms ==> ArmOk(run[m], a);
    }
  }

  /** An arm is marked answered exactly when its read was answered, and flushed exactly when it was given up at
      the client. */
  lemma {:induction false} MarksAreTrue(run: seq<Registry>, acts: seq<Action>, n: nat, a: ArmId)
    requires IsRun(run, acts) && n < |run| && a in run[n].arms
    ensures run[n].arms[a].terminal <==> AnsweredIn(run, acts, n, a)
    ensures run[n].arms[a].flushed <==> FlushedIn(acts, n, a)
  {
    var m := n - 1;
    assert Follows(run, acts, m);
    RunInv(run, acts, m);
    ArmStep(run[m], run[n], acts[m], a);
    if a in run[m].arms { MarksAreTrue(run, acts, m, a); } else { ArmsBelow(run, acts, m, a); }
    MarksNext(run, acts, m, a);
  }

  lemma MarksNext(run: seq<Registry>, acts: seq<Action>, m: nat, a: ArmId)
    requires m < |acts| && |run| == |acts| + 1
    ensures AnsweredIn(run, acts, m + 1, a) <==> AnsweredIn(run, acts, m, a) || AnswersArm(run[m], acts[m], a)
    ensures FlushedIn(acts, m + 1, a) <==> FlushedIn(acts, m, a) || acts[m] == Flush(a) || acts[m] == Collect(a)
  {
  }

  /** Every hook that `ps` had in `r` is woken in `q`. */
  ghost predicate AllWoken(r: Registry, q: Registry, ps: StateId)
    requires ps in r.states
  {
    && ps in q.states && q.states[ps].hooks.Keys == r.states[ps].hooks.Keys
    && forall w | w in q.states[ps].hooks :: q.states[ps].hooks[w].woken
  }

  /** An answered arm in the registry wakes everyone: it can be reaped, then walked, which wakes every hook of
      its poll-state, and then freed. */
  lemma AnswerWakes(r: Registry, a: ArmId)
    requires Inv(r) && a in r.arms && r.arms[a].place.Linked? && r.arms[a].terminal
    ensures Enabled(r, Reap(a))
    ensures var p := Do(r, Reap(a));
      && Enabled(p, Walk(a))
      && var q := Do(p, Walk(a));
      && Enabled(q, Free(a)) && r.arms[a].state in r.states && AllWoken(r, q, r.arms[a].state)
  {
    assert ArmOk(r, a) && StateOk(r.arms, r.arms[a].state, r.states[r.arms[a].state]);
  }

  // ---------------------------------------------------------------------------
  // References and closes.
  // ---------------------------------------------------------------------------

  /** A poll-state's references are its open file's and one for each arm not yet freed, so no arm
      outlives the poll-state it wakes; and the newest arm is always in the registry. */
  lemma RefsAreHeld(run: seq<Registry>, acts: seq<Action>, n: nat)
    requires IsRun(run, acts) && n < |run|
    ensures forall ps | ps in run[n].states ::
        run[n].states[ps].refs == |Holders(run[n].arms, ps)| + (if run[n].states[ps].held then 1 else 0)
    ensures forall a | a in run[n].arms :: run[n].arms[a].state in run[n].states && run[n].arms[a].state !in run[n].gone
    ensures forall ps | ps in run[n].states && run[n].states[ps].newest.Some? ::
      run[n].states[ps].newest.value in run[n].arms && run[n].arms[run[n].states[ps].newest.value].place.Linked?
  {
    RunInv(run, acts, n);
    var r := run[n];
    forall ps | ps in r.states
      ensures r.states[ps].refs == |Holders(r.arms, ps)| + (if r.states[ps].held then 1 else 0)
      ensures r.states[ps].newest.Some? ==>
          r.states[ps].newest.value in r.arms && r.arms[r.states[ps].newest.value].place.Linked?
    {
      assert StateOk(r.arms, ps, r.states[ps]);
    }
    forall a | a in r.arms ensures r.arms[a].state in r.states && r.arms[a].state !in r.gone { assert ArmOk(r, a); }
  }

  /** The arm's read can no longer be outstanding on the file: it was answered, flushed, or never sent. */
  predicate OffTheFid(m: Arm) { m.terminal || m.flushed || m.place.Unsent? }

  /** Once a close has begun, only the arm it grabbed can still be out on the file. */
  lemma ClosingArms(r: Registry, a: ArmId)
    requires Inv(r) && a in r.arms && r.arms[a].state in r.states && r.states[r.arms[a].state].closing
    requires !r.arms[a].place.Grabbed?
    ensures OffTheFid(r.arms[a])
  {
    assert ArmOk(r, a) && StateOk(r.arms, r.arms[a].state, r.states[r.arms[a].state]);
  }

  /** When a close drops the poll-state, and the Tclunk follows, no read of the file is unanswered and
      unflushed, so none refuses the Tclunk; and from then on none ever is. */
  lemma CloseLeavesNoRead(run: seq<Registry>, acts: seq<Action>, n: nat, m: nat, ps: StateId, a: ArmId)
    requires IsRun(run, acts) && n < |acts| && acts[n] == DropState(ps) && n <= m < |run|
    requires a in run[m].arms && run[m].arms[a].state == ps
    ensures OffTheFid(run[m].arms[a])
  {
    RunInv(run, acts, m);
    assert ArmOk(run[m], a);
    StaysClosed(run, acts, n, m, ps);
    ClosingArms(run[m], a);
  }

  /** Closing, with nothing grabbed left. */
  ghost predicate Closed(r: Registry, ps: StateId) {
    && (ps in r.states ==> r.states[ps].closing) && (ps in r.states || ps in r.gone)
    && forall a | a in r.arms && r.arms[a].state == ps :: !r.arms[a].place.Grabbed?
  }

  lemma {:induction false} StaysClosed(run: seq<Registry>, acts: seq<Action>, n: nat, m: nat, ps: StateId)
    requires IsRun(run, acts) && n < |acts| && acts[n] == DropState(ps) && n <= m < |run|
    ensures Closed(run[m], ps)
  {
    assert Follows(run, acts, n);
    if m > n {
      StaysClosed(run, acts, n, m - 1, ps);
      assert Follows(run, acts, m - 1);
      RunInv(run, acts, m - 1);
      ClosedStep(run[m - 1], acts[m - 1], ps);
    }
  }

  lemma ClosedStep(r: Registry, act: Action, ps: StateId)
    requires Inv(r) && Enabled(r, act) && Closed(r, ps)
    ensures Closed(Do(r, act), ps)
  {
    ClosedState(r, act, ps);
    var q := Do(r, act);
    forall a | a in q.arms && q.arms[a].state == ps
      ensures !q.arms[a].place.Grabbed?
    {
      if act.Close? { assert StateOk(r.arms, act.ps, r.states[act.ps]); } else { NotGrabbed(r, act, a); }
    }
  }

  lemma ClosedState(r: Registry, act: Action, ps: StateId)
    requires Enabled(r, act) && Closed(r, ps)
    ensures var q := Do(r, act); (ps in q.states ==> q.states[ps].closing) && (ps in q.states || ps in q.gone)
  {
  }

  /** Only a close grabs. */
  lemma NotGrabbed(r: Registry, act: Action, a: ArmId)
    requires Enabled(r, act) && !act.Close? && a in Do(r, act).arms
    ensures Do(r, act).arms[a].place.Grabbed? ==>
        a in r.arms && r.arms[a] == Do(r, act).arms[a].(flushed := r.arms[a].flushed, terminal := r.arms[a].terminal)
  {
  }

  /** Who takes an arm out of the registry: the reap, the collection, a widening or a close. */
  predicate Unlinks(r: Registry, act: Action, a: ArmId) {
    || act == Reap(a) || act == Collect(a)
    || (act.Fresh? && act.ps in r.states && Live(r, act.ps) == Some(a))
    || (act.Close? && act.ps in r.states && r.states[act.ps].newest == Some(a))
  }

  lemma LeavesByOwner(r: Registry, act: Action, a: ArmId)
    requires Inv(r) && Enabled(r, act) && a in r.arms
    ensures r.arms[a].place.Linked? && !(a in Do(r, act).arms && Do(r, act).arms[a].place.Linked?) ==>
        Unlinks(r, act, a)
    ensures !r.arms[a].place.Linked? ==>
        !(a in Do(r, act).arms && Do(r, act).arms[a].place.Linked?) && !Unlinks(r, act, a)
  {
    assert ArmOk(r, a);
    if act.Fresh? || act.Close? { assert StateOk(r.arms, act.ps, r.states[act.ps]); }
  }

  /** A step adds at most the next arm. */
  lemma ArmsGrow(r: Registry, act: Action, a: ArmId)
    requires Enabled(r, act) && a !in r.arms && a != r.nextArm
    ensures a !in Do(r, act).arms
  {
    if act.Fresh? {
      assert a !in DoFresh(r, act.ps, act.poller, act.answered).arms;
    } else if act.Close? {
      assert a !in DoClose(r, act.ps).arms;
    }
  }

  lemma NeverRelinked(r: Registry, act: Action, a: ArmId)
    requires Inv(r) && Enabled(r, act) && a !in r.arms && a < r.nextArm
    ensures a !in Do(r, act).arms && !Unlinks(r, act, a)
  {
    ArmsGrow(r, act, a);
    if act.Close? { assert StateOk(r.arms, act.ps, r.states[act.ps]); }
  }

  /** Once out of the registry, an arm stays out. */
  lemma {:induction false} StaysUnlinked(run: seq<Registry>, acts: seq<Action>, n: nat, m: nat, a: ArmId)
    requires IsRun(run, acts) && n <= m < |run| && a < run[n].nextArm
    requires !(a in run[n].arms && run[n].arms[a].place.Linked?)
    ensures a < run[m].nextArm && !(a in run[m].arms && run[m].arms[a].place.Linked?)
    ensures m < |acts| ==> !Unlinks(run[m], acts[m], a)
  {
    RunInv(run, acts, m);
    if m > n {
      StaysUnlinked(run, acts, n, m - 1, a);
      assert Follows(run, acts, m - 1);
      RunInv(run, acts, m - 1);
      if a in run[m - 1].arms {
        LeavesByOwner(run[m - 1], acts[m - 1], a);
      } else {
        NeverRelinked(run[m - 1], acts[m - 1], a);
      }
      NextGrows(run[m - 1], acts[m - 1]);
    }
    if m < |acts| {
      assert Follows(run, acts, m);
      if a in run[m].arms { LeavesByOwner(run[m], acts[m], a); } else { NeverRelinked(run[m], acts[m], a); }
    }
  }

  lemma NextGrows(r: Registry, act: Action)
    requires Enabled(r, act)
    ensures r.nextArm <= Do(r, act).nextArm
  {
  }

  /** Each arm is torn down by exactly one owner: at most one step of a run takes it out. */
  lemma OneOwner(run: seq<Registry>, acts: seq<Action>, n: nat, m: nat, a: ArmId)
    requires IsRun(run, acts) && n < m < |acts| && Unlinks(run[n], acts[n], a)
    ensures !Unlinks(run[m], acts[m], a)
  {
    RunInv(run, acts, n);
    assert Follows(run, acts, n);
    UnlinkedAfter(run[n], acts[n], a);
    StaysUnlinked(run, acts, n + 1, m, a);
  }

  lemma UnlinkedAfter(r: Registry, act: Action, a: ArmId)
    requires Inv(r) && Enabled(r, act) && Unlinks(r, act, a)
    ensures a < Do(r, act).nextArm && !(a in Do(r, act).arms && Do(r, act).arms[a].place.Linked?)
  {
    if act.Fresh? || act.Close? { assert StateOk(r.arms, act.ps, r.states[act.ps]); }
    assert a in r.arms && ArmOk(r, a);
  }
}
