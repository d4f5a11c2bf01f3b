/**
 The elected reader of a shared 9P client.  Threads wait for their replies, one of them reads for
 all; senders that meet back-pressure pump or park; a pump of ready frames comes and goes; stops,
 deaths and caught notes take threads away at any point.  Each action is one hold of the client's
 lock.
 */
module ReaderRole {
  import opened Options

  type OpId = nat
  type Tag = nat
  type HookId = nat

  /** Where an op's thread is.  `SendParked` remembers the progress generation it parked on;
      `Stopped` is the park of a stopped thread, role-free, in its wait or in its send. */
  datatype Pc = AtTop | Asleep | Reading | Sending | SendParked(gen: nat) | SendPumping | Stopped(inSend: bool)

  /** `tag` is the op's once its frame has left; `answered` is a reply or an Rflush; `beReader` is a
      designation as the next reader. */
  datatype Rpc = Rpc(tag: Tag, pc: Pc, answered: bool, beReader: bool)

  /** Whoever holds the role: an op's thread, or a pump that has no op. */
  datatype Holder = Nobody | Op(op: OpId) | Pump

  /** `hooks` maps each waiter for the role to whether it has been woken. */
  datatype Client = Client(holder: Holder, dead: bool, gen: nat, rpcs: map<OpId, Rpc>, hooks: map<HookId, bool>)

  datatype Action =
    | Enter(t: OpId)
    | Sent(t: OpId, tag: Tag)
    | GiveUp(t: OpId)
    | PumpOrPark(t: OpId)
    | EndPark(t: OpId)
    | EndPump(t: OpId, answers: set<OpId>, broke: bool)
    | Stop(t: OpId)
    | Resume(t: OpId)
    | RunTop(t: OpId)
    | Die(t: OpId)
    | Wake(t: OpId)
    | NoteUnwind(t: OpId)
    | Demux(t: OpId, answers: set<OpId>)
    | Depart(t: OpId, next: Pc, broke: bool)
    | TakePump
    | EndReady(answers: set<OpId>, broke: bool)
    | AddHook(h: HookId)
    | DropHook(h: HookId)
    | HandOff
    | Break

  // ---------------------------------------------------------------------------
  // Steps.
  // ---------------------------------------------------------------------------

  /** Whom a departing reader may designate: a sync op with no answer, not the departing one, not
      designated yet, not still sending and not parked for a stop. */
  predicate Eligible(c: Client, departing: Option<OpId>, u: OpId) {
    && u in c.rpcs && departing != Some(u) && !c.rpcs[u].answered && !c.rpcs[u].beReader
    && (c.rpcs[u].pc.AtTop? || c.rpcs[u].pc.Asleep? || c.rpcs[u].pc.Reading?)
  }

  /** No eligible op has a lower tag. */
  ghost predicate Lowest(c: Client, departing: Option<OpId>, u: OpId) {
    Eligible(c, departing, u) && forall v: OpId :: Eligible(c, departing, v) ==> c.rpcs[u].tag <= c.rpcs[v].tag
  }

  ghost function Chosen(c: Client, departing: Option<OpId>): (m: Option<OpId>)
    ensures m.Some? ==> Lowest(c, departing, m.value)
    ensures m.None? ==> forall u: OpId :: !Lowest(c, departing, u)
  {
    if u: OpId :| Lowest(c, departing, u) then Some(u) else None
  }

  function WakeHooks(c: Client): Client { c.(hooks := map h | h in c.hooks :: true) }

  /** Designate an eligible op of the lowest tag; with none, wake every role waiter. */
  ghost function Handoff(c: Client, departing: Option<OpId>): Client {
    var m := Chosen(c, departing);
    if c.dead then c
    else if m.Some? then c.(rpcs := c.rpcs[m.value := c.rpcs[m.value].(beReader := true)])
    else if c.holder.Nobody? then WakeHooks(c)
    else c
  }

  function At(c: Client, t: OpId, pc: Pc): Client
    requires t in c.rpcs
  {
    c.(rpcs := c.rpcs[t := c.rpcs[t].(pc := pc)])
  }

  /** The demux answers some ops of a frame's reader. */
  function Answer(c: Client, answers: set<OpId>): Client {
    c.(rpcs := map t | t in c.rpcs :: if t in answers then c.rpcs[t].(answered := true) else c.rpcs[t])
  }

  /** A reader made progress: every parked sender's generation is behind now. */
  function Progress(c: Client): Client { c.(gen := c.gen + 1) }

  function MarkDead(c: Client): Client { WakeHooks(c).(dead := true) }

  /** Give up the role: signal the senders, then hand off. */
  ghost function Release(c: Client, departing: Option<OpId>): Client {
    Handoff(Progress(c.(holder := Nobody)), departing)
  }

  function Undesignate(c: Client, t: OpId): Client
    requires t in c.rpcs
  {
    c.(rpcs := c.rpcs[t := c.rpcs[t].(beReader := false)])
  }

  /** A thread that leaves its wait passes on a designation it has not used. */
  ghost function Bounce(c: Client, t: OpId): Client
    requires t in c.rpcs
  {
    if c.rpcs[t].beReader then Handoff(Undesignate(c, t), Some(t)) else c
  }

  function Leave(c: Client, t: OpId): Client { c.(rpcs := c.rpcs - {t}) }

  /** The top of the wait: return when answered or dead, read when the role is free, else sleep. */
  function DoRunTop(c: Client, t: OpId): Client
    requires t in c.rpcs
  {
    if c.rpcs[t].answered || c.dead then Leave(c, t)
    else if c.holder.Nobody? then c.(holder := Op(t), rpcs := c.rpcs[t := c.rpcs[t].(pc := Reading, beReader := false)])
    else c.(rpcs := c.rpcs[t := c.rpcs[t].(pc := Asleep, beReader := false)])
  }

  /** One unit of progress for a back-pressured sender. */
  function DoPumpOrPark(c: Client, t: OpId): Client
    requires t in c.rpcs
  {
    if c.holder.Nobody? then c.(holder := Op(t), rpcs := c.rpcs[t := c.rpcs[t].(pc := SendPumping, beReader := false)])
    else At(c, t, SendParked(c.gen))
  }

  predicate Enabled(c: Client, act: Action) {
    match act
    case Enter(t) => t !in c.rpcs
    case Sent(t, _) => t in c.rpcs && c.rpcs[t].pc.Sending?
    case GiveUp(t) => t in c.rpcs && c.rpcs[t].pc.Sending?
    case PumpOrPark(t) => t in c.rpcs && c.rpcs[t].pc.Sending? && !c.dead
    case EndPark(t) => t in c.rpcs && c.rpcs[t].pc.SendParked?
    case EndPump(t, _, _) => t in c.rpcs && c.rpcs[t].pc.SendPumping?
    case Stop(t) => t in c.rpcs && (c.rpcs[t].pc.Sending? || (c.rpcs[t].pc.AtTop? && !c.rpcs[t].answered && !c.dead))
    case Resume(t) => t in c.rpcs && c.rpcs[t].pc.Stopped?
    case RunTop(t) => t in c.rpcs && c.rpcs[t].pc.AtTop?
    case Die(t) => t in c.rpcs && c.rpcs[t].pc.AtTop? && !c.rpcs[t].answered && !c.dead
    case Wake(t) => t in c.rpcs && c.rpcs[t].pc.Asleep?
    case NoteUnwind(t) => t in c.rpcs && c.rpcs[t].pc.Asleep? && !c.rpcs[t].answered && !c.dead
    case Demux(t, _) => t in c.rpcs && c.rpcs[t].pc.Reading?
    case Depart(t, next, _) =>
      t in c.rpcs && c.rpcs[t].pc.Reading? &&
          (next.AtTop? || next == Stopped(false) || (next.Sending? && !c.rpcs[t].answered))
    case TakePump => c.holder.Nobody? && !c.dead
    case EndReady(_, _) => c.holder.Pump?
    case AddHook(h) => h !in c.hooks && !c.dead && !c.holder.Nobody?
    case DropHook(h) => h in c.hooks
    case HandOff => true
    case Break => true
  }

  ghost function Do(c: Client, act: Action): Client
    requires Enabled(c, act)
  {
    match act
    case Enter(t) => c.(rpcs := c.rpcs[t := Rpc(0, Sending, false, false)])
    case Sent(t, tag) => c.(rpcs := c.rpcs[t := c.rpcs[t].(tag := tag, pc := AtTop)])
    case GiveUp(t) => Leave(c, t)
    case PumpOrPark(t) => DoPumpOrPark(c, t)
    case EndPark(t) => At(c, t, Sending)
    case EndPump(t, answers, broke) =>
      var d := At(Answer(c, answers), t, Sending);
      Release(if broke then MarkDead(d) else d, Some(t))
    case Stop(t) => if c.rpcs[t].pc.AtTop? then At(Bounce(c, t), t, Stopped(false)) else At(c, t, Stopped(true))
    case Resume(t) => At(c, t, if c.rpcs[t].pc.inSend then Sending else AtTop)
    case RunTop(t) => DoRunTop(c, t)
    case Die(t) => Leave(Bounce(c, t), t)
    case Wake(t) => At(c, t, AtTop)
    case NoteUnwind(t) => Bounce(At(c, t, Sending), t)
    case Demux(t, answers) => Progress(Answer(c, answers))
    case Depart(t, next, broke) =>
      var d := At(c, t, next);
      Release(if broke then MarkDead(d) else d, Some(t))
    case TakePump => c.(holder := Pump)
    case EndReady(answers, broke) =>
      var d := Answer(c, answers);
      Release(if broke then MarkDead(d) else d, None)
    case AddHook(h) => c.(hooks := c.hooks[h := false])
    case DropHook(h) => c.(hooks := c.hooks - {h})
    case HandOff => Handoff(c, None)
    case Break => MarkDead(c)
  }

  function Init(): Client { Client(Nobody, false, 0, map[], map[]) }

  ghost predicate Follows(run: seq<Client>, acts: seq<Action>, i: nat)
    requires i < |acts| && |run| == |acts| + 1
  {
    Enabled(run[i], acts[i]) && run[i + 1] == Do(run[i], acts[i])
  }

  ghost predicate IsRun(run: seq<Client>, acts: seq<Action>) {
    && |run| == |acts| + 1 && run[0] == Init()
    && forall i {:trigger Follows(run, acts, i)} | 0 <= i < |acts| :: Follows(run, acts, i)
  }

  // ---------------------------------------------------------------------------
  // The invariant.
  // ---------------------------------------------------------------------------

  /** The op's thread is going to look at the role: it is awake at its wait's top, or its sleep's
      condition holds. */
  ghost predicate Designated(c: Client, u: OpId) {
    u in c.rpcs && c.rpcs[u].beReader && !c.rpcs[u].answered && (c.rpcs[u].pc.AtTop? || c.rpcs[u].pc.Asleep?)
  }

  ghost predicate SomeoneComes(c: Client) { exists u :: Designated(c, u) }

  /** An op that sleeps with no answer and no designation. */
  ghost predicate Sleeps(c: Client, t: OpId) {
    t in c.rpcs && c.rpcs[t].pc.Asleep? && !c.rpcs[t].answered && !c.rpcs[t].beReader
  }

  ghost predicate RoleKept(c: Client) {
    && (forall t | Sleeps(c, t) :: SomeoneComes(c))
    && (forall h | h in c.hooks && !c.hooks[h] :: SomeoneComes(c))
    && (forall t | t in c.rpcs && c.rpcs[t].pc.SendParked? :: c.rpcs[t].pc.gen != c.gen)
  }

  ghost predicate HoldsRole(c: Client, t: OpId) { t in c.rpcs && (c.rpcs[t].pc.Reading? || c.rpcs[t].pc.SendPumping?) }

  /** Exactly the holder reads, and no sender parked on a generation yet to come. */
  ghost predicate Steady(c: Client) {
    && (forall t :: HoldsRole(c, t) <==> c.holder == Op(t))
    && (forall t | t in c.rpcs && c.rpcs[t].pc.SendParked? :: c.rpcs[t].pc.gen <= c.gen)
  }

  ghost predicate Inv(c: Client) { Steady(c) && (!c.dead && c.holder.Nobody? ==> RoleKept(c)) }

  // ---------------------------------------------------------------------------
  // The hand-off.
  // ---------------------------------------------------------------------------

  lemma {:induction false} LeastEligible(c: Client, departing: Option<OpId>, u: OpId) returns (m: OpId)
    requires Eligible(c, departing, u)
    ensures Lowest(c, departing, m)
    decreases c.rpcs[u].tag
  {
    if v: OpId :| Eligible(c, departing, v) && c.rpcs[v].tag < c.rpcs[u].tag {
      m := LeastEligible(c, departing, v);
    } else {
      m := u;
    }
  }

  function Choose(c: Client, m: OpId): Client
    requires m in c.rpcs
  {
    c.(rpcs := c.rpcs[m := c.rpcs[m].(beReader := true)])
  }

  /** A hand-off designates an eligible op if there is one, and changes nothing else; with none it
      wakes the role waiters of a free role. */
  lemma HandoffForm(c: Client, departing: Option<OpId>) returns (m: Option<OpId>)
    requires !c.dead
    ensures m.Some? ==> Lowest(c, departing, m.value) && Handoff(c, departing) == Choose(c, m.value)
    ensures m.None? ==> forall u: OpId :: !Eligible(c, departing, u)
    ensures m.None? ==> Handoff(c, departing) == if c.holder.Nobody? then WakeHooks(c) else c
  {
    m := Chosen(c, departing);
    if u: OpId :| Eligible(c, departing, u) { var least := LeastEligible(c, departing, u); }
  }

  ghost predicate Behind(c: Client) { forall t | t in c.rpcs && c.rpcs[t].pc.SendParked? :: c.rpcs[t].pc.gen < c.gen }

  /** `d` differs from `c` at most in designations and woken hooks. */
  ghost predicate Touched(c: Client, d: Client) {
    && d.holder == c.holder && d.dead == c.dead && d.gen == c.gen && d.rpcs.Keys == c.rpcs.Keys
    && forall t | t in c.rpcs ::
      && d.rpcs[t].tag == c.rpcs[t].tag && d.rpcs[t].pc == c.rpcs[t].pc && d.rpcs[t].answered == c.rpcs[t].answered
      && (c.rpcs[t].beReader ==> d.rpcs[t].beReader)
  }

  lemma TouchedSteady(c: Client, d: Client)
    requires Steady(c) && Touched(c, d)
    ensures Steady(d) && (Behind(c) ==> Behind(d))
  {
    forall t ensures HoldsRole(d, t) <==> HoldsRole(c, t) {}
  }

  lemma ChooseTouches(c: Client, m: OpId)
    requires m in c.rpcs
    ensures Touched(c, Choose(c, m))
  {
  }

  lemma HandoffTouches(c: Client, departing: Option<OpId>)
    ensures Touched(c, Handoff(c, departing))
  {
    if !c.dead {
      var m := HandoffForm(c, departing);
      if m.Some? { ChooseTouches(c, m.value); }
    }
  }

  lemma ChooseKeepsRole(c: Client, d: Client, departing: Option<OpId>, m: OpId)
    requires Steady(c) && c.holder.Nobody? && Eligible(c, departing, m) && d == Choose(c, m)
    ensures Designated(d, m) && SomeoneComes(d)
  {
    assert !HoldsRole(c, m);
    assert Designated(d, m);
  }

  /** After a hand-off on a free role nobody who sleeps for it is left without someone coming. */
  lemma HandoffKeepsRole(c: Client, departing: Option<OpId>)
    requires Steady(c) && !c.dead && c.holder.Nobody? && Behind(c)
    requires departing.Some? && departing.value in c.rpcs ==> !Sleeps(c, departing.value)
    ensures RoleKept(Handoff(c, departing))
  {
    var m := HandoffForm(c, departing);
    HandoffTouches(c, departing);
    TouchedSteady(c, Handoff(c, departing));
    if m.Some? {
      ChooseKeepsRole(c, Handoff(c, departing), departing, m.value);
    } else {
      forall t ensures !Sleeps(c, t) { assert Sleeps(c, t) ==> Eligible(c, departing, t); }
      WokenKeepsRole(c);
    }
  }

  lemma WokenKeepsRole(c: Client)
    requires Behind(c) && forall t :: !Sleeps(c, t)
    ensures RoleKept(WakeHooks(c))
  {
    forall t ensures !Sleeps(WakeHooks(c), t) { assert !Sleeps(c, t); }
  }

  /** A hand-off keeps someone coming. */
  lemma HandoffMonotone(c: Client, departing: Option<OpId>)
    requires Steady(c) && RoleKept(c) && c.holder.Nobody? && !c.dead
    ensures RoleKept(Handoff(c, departing))
  {
    var m := HandoffForm(c, departing);
    HandoffTouches(c, departing);
    if m.Some? {
      ChooseKeepsRole(c, Handoff(c, departing), departing, m.value);
    } else {
      WokenMonotone(c);
    }
  }

  lemma WokenMonotone(c: Client)
    requires RoleKept(c)
    ensures RoleKept(WakeHooks(c))
  {
    var d := WakeHooks(c);
    forall t | Sleeps(d, t)
      ensures SomeoneComes(d)
    {
      assert Sleeps(c, t);
      var u :| Designated(c, u);
      assert Designated(d, u);
    }
  }

  // ---------------------------------------------------------------------------
  // Each step keeps the invariant.
  // ---------------------------------------------------------------------------

  /** A step that puts nobody to sleep and takes no designation away. */
  ghost predicate Benign(c: Client, d: Client) {
    && d.holder == c.holder && d.dead == c.dead && d.gen == c.gen
    && (forall u | Designated(c, u) :: Designated(d, u))
    && (forall t | Sleeps(d, t) :: Sleeps(c, t))
    && (forall h | h in d.hooks && !d.hooks[h] :: h in c.hooks && !c.hooks[h])
    && (forall t :: HoldsRole(d, t) <==> HoldsRole(c, t))
    && (forall t | t in d.rpcs && d.rpcs[t].pc.SendParked? :: t in c.rpcs && c.rpcs[t].pc == d.rpcs[t].pc)
  }

  lemma BenignKeeps(c: Client, d: Client)
    requires Inv(c) && Benign(c, d)
    ensures Inv(d)
  {
    if SomeoneComes(c) {
      var u :| Designated(c, u);
      assert Designated(d, u);
    }
  }

  lemma OneRpc(c: Client, d: Client, t: OpId)
    requires Inv(c) && d == c.(rpcs := d.rpcs)
    requires forall x | x != t :: (x in c.rpcs <==> x in d.rpcs) && (x in c.rpcs ==> c.rpcs[x] == d.rpcs[x])
    requires Designated(c, t) ==> Designated(d, t)
    requires Sleeps(d, t) ==> Sleeps(c, t)
    requires HoldsRole(d, t) <==> HoldsRole(c, t)
    requires t in d.rpcs && d.rpcs[t].pc.SendParked? ==> t in c.rpcs && c.rpcs[t].pc == d.rpcs[t].pc
    ensures Inv(d)
  {
    forall u | Designated(c, u) ensures Designated(d, u) { if u == t {} }
    forall u | Sleeps(d, u) ensures Sleeps(c, u) { if u == t {} }
    forall u ensures HoldsRole(d, u) <==> HoldsRole(c, u) { if u == t {} }
    BenignKeeps(c, d);
  }

  lemma LocalKeeps(c: Client, act: Action)
    requires Inv(c) && Enabled(c, act)
    requires act.Enter? || act.Sent? || act.GiveUp? || act.EndPark? ||
        act.Resume? || act.Wake? || (act.Stop? && c.rpcs[act.t].pc.Sending?)
    ensures Inv(Do(c, act))
  {
    OneRpc(c, Do(c, act), act.t);
  }

  lemma HookKeeps(c: Client, act: Action)
    requires Inv(c) && Enabled(c, act) && (act.AddHook? || act.DropHook? || act.HandOff? || act.Break? || act.TakePump?)
    ensures Inv(Do(c, act))
  {
    var d := Do(c, act);
    if act.HandOff? {
      HandoffTouches(c, None);
      TouchedSteady(c, d);
      if c.holder.Nobody? && !c.dead { HandoffMonotone(c, None); }
    } else {
      forall u ensures HoldsRole(d, u) <==> HoldsRole(c, u) {}
      if act.DropHook? {
        forall u | Designated(c, u) ensures Designated(d, u) {}
        BenignKeeps(c, d);
      }
    }
  }

  /** A thread that is not the holder moves to a place where it does not read, park or sleep. */
  lemma AtSteady(c: Client, t: OpId, pc: Pc)
    requires Steady(c) && t in c.rpcs && !HoldsRole(c, t) && (pc.AtTop? || pc.Sending? || pc.Stopped?)
    ensures Steady(At(c, t, pc))
  {
    var d := At(c, t, pc);
    forall x ensures HoldsRole(d, x) <==> HoldsRole(c, x) {}
  }

  lemma TopKeeps(c: Client, t: OpId)
    requires Inv(c) && Enabled(c, RunTop(t))
    ensures Inv(DoRunTop(c, t))
  {
    var d := DoRunTop(c, t);
    if c.rpcs[t].answered || c.dead {
      if !c.dead { OneRpc(c, d, t); } else { forall x ensures HoldsRole(d, x) <==> HoldsRole(c, x) {} }
    } else {
      forall x | x != t ensures HoldsRole(d, x) <==> HoldsRole(c, x) {}
    }
  }

  lemma PumpKeeps(c: Client, t: OpId)
    requires Inv(c) && Enabled(c, PumpOrPark(t))
    ensures Inv(DoPumpOrPark(c, t))
  {
    var d := DoPumpOrPark(c, t);
    forall x | x != t ensures HoldsRole(d, x) <==> HoldsRole(c, x) {}
  }

  /** Giving up the role, from any state whose threads are otherwise in place. */
  lemma ReleaseKeeps(c: Client, departing: Option<OpId>)
    requires forall t :: !HoldsRole(c, t)
    requires forall t | t in c.rpcs && c.rpcs[t].pc.SendParked? :: c.rpcs[t].pc.gen <= c.gen
    requires departing.Some? && departing.value in c.rpcs ==> !Sleeps(c, departing.value)
    ensures Inv(Release(c, departing))
  {
    var d := Progress(c.(holder := Nobody));
    forall t ensures !HoldsRole(d, t) { assert !HoldsRole(c, t); }
    assert departing.Some? && departing.value in d.rpcs ==> !Sleeps(d, departing.value);
    HandoffTouches(d, departing);
    TouchedSteady(d, Handoff(d, departing));
    if !d.dead { HandoffKeepsRole(d, departing); }
  }

  lemma AnswerForm(c: Client, answers: set<OpId>, t: OpId)
    ensures var d := Answer(c, answers);
      && (t in c.rpcs <==> t in d.rpcs)
      && (t in c.rpcs ==> d.rpcs[t].pc == c.rpcs[t].pc && d.rpcs[t].beReader == c.rpcs[t].beReader)
      && (t in c.rpcs && c.rpcs[t].answered ==> d.rpcs[t].answered)
  {
  }

  lemma AnswerSteady(c: Client, answers: set<OpId>)
    requires Steady(c)
    ensures Steady(Answer(c, answers))
  {
    var d := Answer(c, answers);
    forall t ensures HoldsRole(d, t) <==> HoldsRole(c, t) { AnswerForm(c, answers, t); }
  }

  /** The holder has stopped reading: nobody reads. */
  lemma HolderLeaves(c: Client, t: OpId, pc: Pc)
    requires Steady(c) && t in c.rpcs && c.holder == Op(t) && (pc.AtTop? || pc.Sending? || pc.Stopped?)
    ensures forall x :: !HoldsRole(At(c, t, pc), x)
    ensures forall x | x in c.rpcs && At(c, t, pc).rpcs[x].pc.SendParked? :: At(c, t, pc).rpcs[x].pc.gen <= c.gen
  {
    forall x ensures !HoldsRole(At(c, t, pc), x) { assert x != t ==> !HoldsRole(c, x); }
  }

  lemma DeathKeepsPlaces(c: Client, d: Client)
    requires d == MarkDead(c)
    ensures d.rpcs == c.rpcs && d.gen == c.gen && forall t :: HoldsRole(d, t) <==> HoldsRole(c, t)
  {
  }

  lemma LeaveRoleKeeps(c: Client, act: Action)
    requires Inv(c) && Enabled(c, act) && (act.EndPump? || act.Depart?)
    ensures Inv(Do(c, act))
  {
    var t := act.t;
    assert HoldsRole(c, t);
    var base := if act.EndPump? then Answer(c, act.answers) else c;
    var pc := if act.EndPump? then Sending else act.next;
    AnswerSteady(c, if act.EndPump? then act.answers else {});
    AnswerForm(c, if act.EndPump? then act.answers else {}, t);
    HolderLeaves(base, t, pc);
    var d := At(base, t, pc);
    DeathKeepsPlaces(d, MarkDead(d));
    ReleaseKeeps(if act.broke then MarkDead(d) else d, Some(t));
  }

  lemma EndReadyKeeps(c: Client, answers: set<OpId>, broke: bool)
    requires Inv(c) && Enabled(c, EndReady(answers, broke))
    ensures Inv(Do(c, EndReady(answers, broke)))
  {
    AnswerSteady(c, answers);
    var d := Answer(c, answers);
    forall t ensures !HoldsRole(d, t) { assert HoldsRole(d, t) <==> d.holder == Op(t); }
    DeathKeepsPlaces(d, MarkDead(d));
    ReleaseKeeps(if broke then MarkDead(d) else d, None);
  }

  lemma DemuxKeeps(c: Client, t: OpId, answers: set<OpId>)
    requires Inv(c) && Enabled(c, Demux(t, answers))
    ensures Inv(Do(c, Demux(t, answers)))
  {
    AnswerSteady(c, answers);
    assert HoldsRole(c, t);
    var a := Answer(c, answers);
    forall x ensures HoldsRole(Progress(a), x) <==> HoldsRole(a, x) {}
  }

  /** Passing a designation on keeps the role from being lost. */
  lemma BounceKeeps(c: Client, t: OpId)
    requires Steady(c) && (!c.dead && c.holder.Nobody? ==> Behind(c))
    requires t in c.rpcs && c.rpcs[t].beReader && (c.rpcs[t].pc.AtTop? || c.rpcs[t].pc.Sending?)
    ensures Inv(Bounce(c, t)) && t in Bounce(c, t).rpcs
    ensures Bounce(c, t).rpcs[t] == c.rpcs[t].(beReader := false)
  {
    var e := Undesignate(c, t);
    UndesignateSteady(c, t);
    HandoffTouches(e, Some(t));
    TouchedSteady(e, Handoff(e, Some(t)));
    HandoffSpares(e, t);
    if !e.dead && e.holder.Nobody? { HandoffKeepsRole(e, Some(t)); }
  }

  lemma UndesignateSteady(c: Client, t: OpId)
    requires Steady(c) && t in c.rpcs
    ensures Steady(Undesignate(c, t)) && (Behind(c) ==> Behind(Undesignate(c, t)))
  {
    var e := Undesignate(c, t);
    forall x ensures HoldsRole(e, x) <==> HoldsRole(c, x) {}
  }

  /** A hand-off leaves the departing op as it was. */
  lemma HandoffSpares(c: Client, t: OpId)
    requires t in c.rpcs
    ensures t in Handoff(c, Some(t)).rpcs && Handoff(c, Some(t)).rpcs[t] == c.rpcs[t]
  {
    if !c.dead { var m := HandoffForm(c, Some(t)); }
  }

  lemma KeptIsBehind(c: Client)
    requires Inv(c)
    ensures !c.dead && c.holder.Nobody? ==> Behind(c)
  {
  }

  lemma UnwindKeeps(c: Client, act: Action)
    requires Inv(c) && Enabled(c, act) && (act.Die? || act.NoteUnwind? || (act.Stop? && c.rpcs[act.t].pc.AtTop?))
    ensures Inv(Do(c, act))
  {
    var t := act.t;
    var b := if act.NoteUnwind? then At(c, t, Sending) else c;
    if c.rpcs[t].beReader {
      KeptIsBehind(c);
      assert !HoldsRole(c, t);
      AtSteady(c, t, Sending);
      BounceKeeps(b, t);
      if !act.NoteUnwind? { OneRpc(Bounce(b, t), Do(c, act), t); }
    } else {
      OneRpc(c, Do(c, act), t);
    }
  }

  // ---------------------------------------------------------------------------
  // Every step, every run.
  // ---------------------------------------------------------------------------

  lemma StepKeeps(c: Client, act: Action)
    requires Inv(c) && Enabled(c, act)
    ensures Inv(Do(c, act))
  {
    match act
    case PumpOrPark(t) => PumpKeeps(c, t);
    case EndPump(_, _, _) => LeaveRoleKeeps(c, act);
    case Depart(_, _, _) => LeaveRoleKeeps(c, act);
    case Stop(t) => if c.rpcs[t].pc.AtTop? { UnwindKeeps(c, act); } else { LocalKeeps(c, act); }
    case RunTop(t) => TopKeeps(c, t);
    case Die(_) => UnwindKeeps(c, act);
    case NoteUnwind(_) => UnwindKeeps(c, act);
    case Demux(t, answers) => DemuxKeeps(c, t, answers);
    case EndReady(answers, broke) => EndReadyKeeps(c, answers, broke);
    case TakePump => HookKeeps(c, act);
    case AddHook(_) => HookKeeps(c, act);
    case DropHook(_) => HookKeeps(c, act);
    case HandOff => HookKeeps(c, act);
    case Break => HookKeeps(c, act);
    case _ => LocalKeeps(c, act);
  }

  lemma {:induction false} RunInv(run: seq<Client>, acts: seq<Action>, n: nat)
    requires IsRun(run, acts) && n < |run|
    ensures Inv(run[n])
  {
    if n > 0 {
      RunInv(run, acts, n - 1);
      assert Follows(run, acts, n - 1);
      StepKeeps(run[n - 1], acts[n - 1]);
    }
  }

  /** On a live session whose role is free, an op asleep with no answer is never alone: it or another
      unanswered op is designated, and is awake or about to wake. */
  lemma RoleNeverLost(run: seq<Client>, acts: seq<Action>, n: nat, t: OpId)
    requires IsRun(run, acts) && n < |run| && !run[n].dead && run[n].holder.Nobody?
    requires t in run[n].rpcs && run[n].rpcs[t].pc.Asleep? && !run[n].rpcs[t].answered
    ensures SomeoneComes(run[n])
  {
    RunInv(run, acts, n);
    assert Sleeps(run[n], t) || Designated(run[n], t);
  }

  /** Nor is a waiter for the role left hooked and unwoken on a free role with nobody coming. */
  lemma HooksNeverLost(run: seq<Client>, acts: seq<Action>, n: nat, h: HookId)
    requires IsRun(run, acts) && n < |run| && !run[n].dead && run[n].holder.Nobody?
    requires h in run[n].hooks && !run[n].hooks[h]
    ensures SomeoneComes(run[n])
  {
    RunInv(run, acts, n);
  }

  /** No sender is parked on the current progress generation while the role is free. */
  lemma SendersNeverStuck(run: seq<Client>, acts: seq<Action>, n: nat, t: OpId)
    requires IsRun(run, acts) && n < |run| && !run[n].dead && run[n].holder.Nobody?
    requires t in run[n].rpcs && run[n].rpcs[t].pc.SendParked?
    ensures run[n].rpcs[t].pc.gen < run[n].gen
  {
    RunInv(run, acts, n);
  }

  /** One thread reads at a time, and only while it holds the role. */
  lemma OneReader(run: seq<Client>, acts: seq<Action>, n: nat, t: OpId, u: OpId)
    requires IsRun(run, acts) && n < |run| && HoldsRole(run[n], t)
    ensures run[n].holder == Op(t) && (HoldsRole(run[n], u) ==> u == t)
  {
    RunInv(run, acts, n);
    assert HoldsRole(run[n], u) <==> run[n].holder == Op(u);
  }

  // ---------------------------------------------------------------------------
  // What happens to one thread.
  // ---------------------------------------------------------------------------

  /** The ops that a step answers. */
  function AnsweredBy(act: Action): set<OpId> {
    match act
    case Demux(_, answers) => answers
    case EndPump(_, answers, _) => answers
    case EndReady(answers, _) => answers
    case _ => {}
  }

  lemma ReleaseSpares(c: Client, departing: Option<OpId>)
    ensures Release(c, departing).rpcs.Keys == c.rpcs.Keys && Release(c, departing).gen == c.gen + 1
    ensures forall t | t in c.rpcs ::
        Release(c, departing).rpcs[t].answered == c.rpcs[t].answered && Release(c, departing).rpcs[t].pc == c.rpcs[t].pc
  {
    HandoffTouches(Progress(c.(holder := Nobody)), departing);
  }

  lemma BounceSpares(c: Client, t: OpId)
    requires t in c.rpcs
    ensures Bounce(c, t).rpcs.Keys == c.rpcs.Keys
    ensures forall x | x in c.rpcs :: Bounce(c, t).rpcs[x].answered == c.rpcs[x].answered
  {
    if c.rpcs[t].beReader { HandoffTouches(Undesignate(c, t), Some(t)); }
  }

  lemma ReleasingStep(c: Client, act: Action, t: OpId)
    requires Enabled(c, act) && (act.EndPump? || act.Depart? || act.EndReady?) && t in c.rpcs
    ensures t in Do(c, act).rpcs && (Do(c, act).rpcs[t].answered <==> c.rpcs[t].answered || t in AnsweredBy(act))
  {
    match act
    case EndPump(x, answers, broke) =>
      var d := At(Answer(c, answers), x, Sending);
      ReleaseSpares(if broke then MarkDead(d) else d, Some(x));
    case Depart(x, next, broke) =>
      var d := At(c, x, next);
      ReleaseSpares(if broke then MarkDead(d) else d, Some(x));
    case EndReady(answers, broke) =>
      var d := Answer(c, answers);
      ReleaseSpares(if broke then MarkDead(d) else d, None);
  }

  lemma BouncingStep(c: Client, act: Action, t: OpId)
    requires Enabled(c, act) && (act.Stop? || act.Die? || act.NoteUnwind? || act.HandOff?) && t in c.rpcs
    ensures t in Do(c, act).rpcs <==> act != Die(t)
    ensures t in Do(c, act).rpcs ==> Do(c, act).rpcs[t].answered == c.rpcs[t].answered
  {
    if act.HandOff? {
      HandoffTouches(c, None);
    } else if act.NoteUnwind? {
      BounceSpares(At(c, act.t, Sending), act.t);
    } else {
      BounceSpares(c, act.t);
    }
  }

  /** A thread leaves exactly when it gives its send up, dies, or comes to the top of its wait answered or on
      a dead session; until then it is answered exactly by the demux of a frame for it. */
  lemma LeavesForCause(c: Client, act: Action, t: OpId)
    requires Enabled(c, act) && t in c.rpcs
    ensures t !in Do(c, act).rpcs <==>
        act == GiveUp(t) || act == Die(t) || (act == RunTop(t) && (c.rpcs[t].answered || c.dead))
    ensures t in Do(c, act).rpcs ==>
        (Do(c, act).rpcs[t].answered <==> c.rpcs[t].answered || t in AnsweredBy(act))
  {
    if act.EndPump? || act.Depart? || act.EndReady? {
      ReleasingStep(c, act, t);
    } else if act.Stop? || act.Die? || act.NoteUnwind? || act.HandOff? {
      BouncingStep(c, act, t);
    } else {
      PlainStep(c, act, t);
    }
  }

  lemma PlainStep(c: Client, act: Action, t: OpId)
    requires Enabled(c, act) && t in c.rpcs && !act.EndPump? && !act.Depart? && !act.EndReady?
    requires !act.Stop? && !act.Die? && !act.NoteUnwind? && !act.HandOff?
    ensures t !in Do(c, act).rpcs <==> act == GiveUp(t) || (act == RunTop(t) && (c.rpcs[t].answered || c.dead))
    ensures t in Do(c, act).rpcs ==>
        (Do(c, act).rpcs[t].answered <==> c.rpcs[t].answered || t in AnsweredBy(act))
  {
  }

  /** The next thing a thread does if nothing disturbs it. */
  function NextOf(c: Client, t: OpId): Action
    requires t in c.rpcs
  {
    match c.rpcs[t].pc
    case AtTop => RunTop(t)
    case Asleep => Wake(t)
    case Reading => Depart(t, AtTop, false)
    case Sending => Sent(t, c.rpcs[t].tag)
    case SendParked(_) => EndPark(t)
    case SendPumping => EndPump(t, {}, false)
    case Stopped(_) => Resume(t)
  }

  /** No thread is ever without a step of its own, and an answered one at the top of its wait leaves by it. */
  lemma ThreadsMove(c: Client, t: OpId)
    requires t in c.rpcs
    ensures Enabled(c, NextOf(c, t))
    ensures c.rpcs[t].pc.AtTop? && c.rpcs[t].answered ==> t !in Do(c, NextOf(c, t)).rpcs
  {
  }

  /** Whenever a frame is read or the role given up, every parked sender finds its generation passed. */
  lemma ProgressReachesSenders(run: seq<Client>, acts: seq<Action>, n: nat, t: OpId)
    requires IsRun(run, acts) && n < |acts|
    requires acts[n].Demux? || acts[n].EndPump? || acts[n].Depart? || acts[n].EndReady?
    requires t in run[n + 1].rpcs && run[n + 1].rpcs[t].pc.SendParked?
    ensures run[n + 1].rpcs[t].pc.gen < run[n + 1].gen
  {
    RunInv(run, acts, n);
    assert Follows(run, acts, n);
    ProgressStep(run[n], run[n + 1], acts[n], t);
  }

  lemma ProgressStep(c: Client, d: Client, act: Action, t: OpId)
    requires Steady(c) && Enabled(c, act) && d == Do(c, act)
    requires act.Demux? || act.EndPump? || act.Depart? || act.EndReady?
    requires t in d.rpcs && d.rpcs[t].pc.SendParked?
    ensures d.rpcs[t].pc.gen < d.gen
  {
    match act
    case Demux(_, _) =>
    case EndPump(x, answers, broke) =>
      var e := At(Answer(c, answers), x, Sending);
      ReleaseSpares(if broke then MarkDead(e) else e, Some(x));
    case Depart(x, next, broke) =>
      var e := At(c, x, next);
      ReleaseSpares(if broke then MarkDead(e) else e, Some(x));
    case EndReady(answers, broke) =>
      var e := Answer(c, answers);
      ReleaseSpares(if broke then MarkDead(e) else e, None);
  }

  /** Every waiter for the role has been woken. */
  ghost predicate HooksWoken(c: Client) { forall h | h in c.hooks :: c.hooks[h] }

  lemma HandoffWakes(c: Client, departing: Option<OpId>)
    requires HooksWoken(c)
    ensures HooksWoken(Handoff(c, departing))
  {
  }

  lemma DeathStep(c: Client, act: Action)
    requires Enabled(c, act) && (c.dead ==> HooksWoken(c)) && Do(c, act).dead
    ensures HooksWoken(Do(c, act))
  {
    match act
    case EndPump(x, answers, broke) =>
      var e := At(Answer(c, answers), x, Sending);
      HandoffWakes(Progress((if broke then MarkDead(e) else e).(holder := Nobody)), Some(x));
    case Depart(x, next, broke) =>
      var e := At(c, x, next);
      HandoffWakes(Progress((if broke then MarkDead(e) else e).(holder := Nobody)), Some(x));
    case EndReady(answers, broke) =>
      var e := Answer(c, answers);
      HandoffWakes(Progress((if broke then MarkDead(e) else e).(holder := Nobody)), None);
    case _ =>
  }

  /** A session that dies leaves no waiter for the role asleep. */
  lemma {:induction false} DeathWakesHooks(run: seq<Client>, acts: seq<Action>, n: nat)
    requires IsRun(run, acts) && n < |run| && run[n].dead
    ensures HooksWoken(run[n])
  {
    if n > 0 {
      assert Follows(run, acts, n - 1);
      if run[n - 1].dead { DeathWakesHooks(run, acts, n - 1); }
      DeathStep(run[n - 1], acts[n - 1]);
    }
  }
}
