/**
 The client's two machines as one: the ops, tags and messages of ClientRun, and the threads of
 ReaderRole that wait for them and read for each other.  `rpcOf` says which rpc a thread registered,
 `threadOf` which thread registered an rpc; a thread that has not built its op yet has none.
 */
module ClientLive {
  import opened Options
  import SS = SessionSpec
  import SI = SessionInv
  import C = ClientRun
  import CI = ClientInv
  import D = ClientDemux
  import T = ClientTheorems
  import O = ClientOwed
  import R = ReaderRole

  datatype Joint = Joint(sys: C.Sys, role: R.Client, rpcOf: map<R.OpId, nat>, threadOf: map<nat, R.OpId>)

  /** How a send that a thread made for its op ended: the op's own frame or its Tflush is on the wire,
      the Tflush was taken back, or there was nothing to send any more. */
  datatype Sending = Own | FlushPushed(f: SS.Tag) | FlushRetracted | Nothing

  /** How a thread gives its op up: never sent, left behind by a dying thread, or lost with the session. */
  datatype Ending = NeverSent | Dies(how: C.Flushing) | Lost

  datatype Action =
    | SysOnly(a: C.Action)
    | RoleOnly(x: R.Action)
    | Build(t: R.OpId, b: C.Build, tag: SS.Tag)
    | SendDone(t: R.OpId, sent: Sending)
    | End(t: R.OpId, how: Ending)
    | Frame(x: R.Action)
    | Death(x: R.Action)

  // ---------------------------------------------------------------------------
  // Steps.
  // ---------------------------------------------------------------------------

  /** A registered rpc with a thread behind it. */
  predicate Sync(s: C.Sys, r: nat) { r in s.rpcs && !s.rpcs[r].async }

  predicate InSend(pc: R.Pc) { pc.Sending? || pc.SendParked? || pc.SendPumping? || (pc.Stopped? && pc.inSend) }

  /** The rpcs with a thread that a step ends. */
  ghost function Ended(s: C.Sys, u: C.Sys): set<nat> { set r | r in s.rpcs && Sync(s, r) && !Sync(u, r) }

  /** The threads whose rpcs end on the way to `u`. */
  ghost function Answers(j: Joint, u: C.Sys): set<R.OpId> { set t | t in j.rpcOf && j.rpcOf[t] in Ended(j.sys, u) }

  /** Nobody's thread is behind tag `t`. */
  predicate Threadless(s: C.Sys, t: SS.Tag) {
    && t in s.sess.tags && !s.sess.tags[t].kind.Flush?
    && (s.sess.tags[t].owner.Some? ==> !Sync(s, s.sess.tags[t].owner.value))
  }

  /** A step of the client, the server or the wire that moves no thread. */
  predicate MovesNobody(j: Joint, a: C.Action) {
    match a
    case BuildOp(_, _, async) => async
    case BuildOwnerless(_, _) => true
    case Refuse => true
    case Push(t) => Threadless(j.sys, t)
    case TakeBack(t) => Threadless(j.sys, t)
    case StageFlush(r, _) => r in j.threadOf && j.threadOf[r] in j.role.rpcs && j.role.rpcs[j.threadOf[r]].pc.Sending?
    case Leave(r, _) => r in j.sys.rpcs && j.sys.rpcs[r].async
    case ServerTake => true
    case ServerAnswer(_, _, _) => true
    case RetractFlush(_) => false
    case Demux => false
    case MarkDead => false
    case DeadReturn(_) => false
  }

  /** A step of the threads that touches no op. */
  predicate TouchesNoOp(j: Joint, x: R.Action) {
    match x
    case Enter(_) => true
    case GiveUp(t) => t !in j.rpcOf
    case RunTop(t) => t in j.role.rpcs && (j.role.rpcs[t].answered || !j.role.dead)
    case EndPump(_, answers, broke) => answers == {} && !broke
    case EndReady(answers, broke) => answers == {} && !broke
    case Depart(_, _, broke) => !broke
    case Sent(_, _) => false
    case Die(_) => false
    case Demux(_, _) => false
    case Break => false
    case _ => true
  }

  /** The reader, a pumping sender or a pump demuxes the frame at the head. */
  predicate ReadsFrame(x: R.Action, answers: set<R.OpId>) {
    match x
    case Demux(_, a) => a == answers
    case EndPump(_, a, broke) => a == answers && !broke
    case EndReady(a, broke) => a == answers && !broke
    case _ => false
  }

  /** The stream broke under whoever reads, or the session was declared dead. */
  predicate Breaks(x: R.Action) {
    match x
    case Break => true
    case Depart(_, _, broke) => broke
    case EndPump(_, answers, broke) => answers == {} && broke
    case EndReady(answers, broke) => answers == {} && broke
    case _ => false
  }

  function TagOf(j: Joint, t: R.OpId): SS.Tag
    requires t in j.role.rpcs && t in j.rpcOf
  {
    if j.rpcOf[t] in j.sys.rpcs then j.sys.rpcs[j.rpcOf[t]].tag else j.role.rpcs[t].tag
  }

  function SysSent(j: Joint, t: R.OpId, sent: Sending): Option<C.Action>
    requires t in j.role.rpcs && t in j.rpcOf
  {
    match sent
    case Own => Some(C.Push(TagOf(j, t)))
    case FlushPushed(f) => Some(C.Push(f))
    case FlushRetracted => Some(C.RetractFlush(j.rpcOf[t]))
    case Nothing => None
  }

  predicate MaySend(j: Joint, t: R.OpId, sent: Sending)
    requires t in j.role.rpcs && t in j.rpcOf
  {
    var r := j.rpcOf[t];
    match sent
    case Own => Sync(j.sys, r)
    case FlushPushed(f) => Sync(j.sys, r) && C.VictimRpc(j.sys, f) == Some(r)
    case FlushRetracted => Sync(j.sys, r)
    case Nothing => Sync(j.sys, r) ==> TagOf(j, t) !in j.sys.unsent
  }

  function SysEnd(j: Joint, t: R.OpId, how: Ending): C.Action
    requires t in j.role.rpcs && t in j.rpcOf
  {
    match how
    case NeverSent => C.TakeBack(TagOf(j, t))
    case Dies(h) => C.Leave(j.rpcOf[t], h)
    case Lost => C.DeadReturn(j.rpcOf[t])
  }

  function RoleEnd(t: R.OpId, how: Ending): R.Action {
    match how
    case NeverSent => R.GiveUp(t)
    case Dies(_) => R.Die(t)
    case Lost => R.RunTop(t)
  }

  ghost predicate CanBuild(j: Joint, t: R.OpId, b: C.Build, tag: SS.Tag) {
    && t in j.role.rpcs && t !in j.rpcOf && j.role.rpcs[t].pc.Sending?
    && C.Enabled(j.sys, C.BuildOp(b, tag, false))
  }

  ghost predicate CanSend(j: Joint, t: R.OpId, sent: Sending) {
    && t in j.role.rpcs && t in j.rpcOf && R.Enabled(j.role, R.Sent(t, TagOf(j, t))) && MaySend(j, t, sent)
    && (SysSent(j, t, sent).Some? ==> C.Enabled(j.sys, SysSent(j, t, sent).value))
  }

  ghost predicate CanEnd(j: Joint, t: R.OpId, how: Ending) {
    && t in j.role.rpcs && t in j.rpcOf && Sync(j.sys, j.rpcOf[t]) && !j.role.rpcs[t].answered
    && R.Enabled(j.role, RoleEnd(t, how)) && C.Enabled(j.sys, SysEnd(j, t, how))
  }

  ghost predicate Enabled(j: Joint, act: Action) {
    match act
    case SysOnly(a) => C.Enabled(j.sys, a) && MovesNobody(j, a)
    case RoleOnly(x) => R.Enabled(j.role, x) && TouchesNoOp(j, x)
    case Build(t, b, tag) => CanBuild(j, t, b, tag)
    case SendDone(t, sent) => CanSend(j, t, sent)
    case End(t, how) => CanEnd(j, t, how)
    case Frame(x) =>
      |j.sys.s2c| > 0 && R.Enabled(j.role, x) && ReadsFrame(x, Answers(j, C.Do(j.sys, C.Demux)))
    case Death(x) => R.Enabled(j.role, x) && Breaks(x)
  }

  /** The threads' registrations that are left. */
  function Left(rpcOf: map<R.OpId, nat>, c: R.Client): map<R.OpId, nat> {
    map t | t in rpcOf && t in c.rpcs :: rpcOf[t]
  }

  ghost function Both(j: Joint, u: C.Sys, d: R.Client): Joint { Joint(u, d, Left(j.rpcOf, d), j.threadOf) }

  ghost function SysAfter(j: Joint, t: R.OpId, sent: Sending): C.Sys
    requires CanSend(j, t, sent)
  {
    var a := SysSent(j, t, sent);
    if a.Some? then C.Do(j.sys, a.value) else j.sys
  }

  ghost function Do(j: Joint, act: Action): Joint
    requires Enabled(j, act)
  {
    match act
    case SysOnly(a) => j.(sys := C.Do(j.sys, a))
    case RoleOnly(x) => Both(j, j.sys, R.Do(j.role, x))
    case Build(t, b, tag) =>
      var u := C.Do(j.sys, C.BuildOp(b, tag, false));
      Joint(u, j.role, j.rpcOf[t := j.sys.nextRpc], j.threadOf[j.sys.nextRpc := t])
    case SendDone(t, sent) => Both(j, SysAfter(j, t, sent), R.Do(j.role, R.Sent(t, TagOf(j, t))))
    case End(t, how) => Both(j, C.Do(j.sys, SysEnd(j, t, how)), R.Do(j.role, RoleEnd(t, how)))
    case Frame(x) => Both(j, C.Do(j.sys, C.Demux), R.Do(j.role, x))
    case Death(x) => Both(j, C.Do(j.sys, C.MarkDead), R.Do(j.role, x))
  }

  ghost predicate Next(j: Joint, k: Joint, act: Action) { Enabled(j, act) && k == Do(j, act) }

  ghost predicate Follows(run: seq<Joint>, acts: seq<Action>, i: nat)
    requires i < |acts| && |run| == |acts| + 1
  {
    Next(run[i], run[i + 1], acts[i])
  }

  ghost predicate Init(j: Joint) { C.Init(j.sys) && j.role == R.Init() && j.rpcOf == map[] && j.threadOf == map[] }

  ghost predicate IsRun(run: seq<Joint>, acts: seq<Action>) {
    && |run| == |acts| + 1 && Init(run[0])
    && forall i {:trigger Follows(run, acts, i)} | 0 <= i < |acts| :: Follows(run, acts, i)
  }

  // ---------------------------------------------------------------------------
  // How the two halves agree.
  // ---------------------------------------------------------------------------

  /** A thread that has built its op and has no answer is registered for it; once it waits, the op's
      frame is on the wire. */
  ghost predicate ThreadOk(j: Joint, t: R.OpId)
    requires t in j.role.rpcs
  {
    var p := j.role.rpcs[t];
    if t !in j.rpcOf then InSend(p.pc) && !p.answered
    else
      !p.answered ==>
        var r := j.rpcOf[t];
        && Sync(j.sys, r) && r in j.threadOf && j.threadOf[r] == t
        && (!InSend(p.pc) ==> p.tag == j.sys.rpcs[r].tag && p.tag !in j.sys.unsent)
  }

  /** A registered rpc has its thread, which has no answer yet. */
  ghost predicate RpcOk(j: Joint, r: nat) {
    && r in j.threadOf && j.threadOf[r] in j.role.rpcs && !j.role.rpcs[j.threadOf[r]].answered
    && j.threadOf[r] in j.rpcOf && j.rpcOf[j.threadOf[r]] == r
  }

  ghost predicate Link(j: Joint) {
    && j.role.dead == j.sys.dead && j.rpcOf.Keys <= j.role.rpcs.Keys
    && (forall t {:trigger ThreadOk(j, t)} | t in j.role.rpcs :: ThreadOk(j, t))
    && (forall r {:trigger RpcOk(j, r)} | Sync(j.sys, r) :: RpcOk(j, r))
  }

  ghost predicate Inv(j: Joint) { CI.SysInv(j.sys) && O.OwedInv(j.sys) && R.Inv(j.role) && Link(j) }

  /** From `s` to `u` exactly the rpcs of `gone` lost their place among those with a thread; the others
      keep their tag, and none that was on the wire is unsent. */
  ghost predicate SysEnds(s: C.Sys, u: C.Sys, gone: set<nat>) {
    forall r {:trigger Sync(u, r)} | r in s.rpcs || r in u.rpcs :: SysEndsAt(s, u, gone, r)
  }

  ghost predicate SysEndsAt(s: C.Sys, u: C.Sys, gone: set<nat>, r: nat) {
    && (Sync(u, r) <==> Sync(s, r) && r !in gone)
    && (Sync(u, r) ==> u.rpcs[r].tag == s.rpcs[r].tag && (u.rpcs[r].tag in u.unsent ==> u.rpcs[r].tag in s.unsent))
  }

  /** From `c` to `d` exactly the threads of `gone` left and those of `answers` were answered; none
      left its send. */
  ghost predicate RoleEnds(c: R.Client, d: R.Client, gone: set<R.OpId>, answers: set<R.OpId>) {
    && d.rpcs.Keys == c.rpcs.Keys - gone
    && forall t {:trigger RoleEndsAt(c, d, answers, t)} | t in d.rpcs :: RoleEndsAt(c, d, answers, t)
  }

  ghost predicate RoleEndsAt(c: R.Client, d: R.Client, answers: set<R.OpId>, t: R.OpId)
    requires t in d.rpcs
  {
    && t in c.rpcs && d.rpcs[t].tag == c.rpcs[t].tag && (d.rpcs[t].answered <==> c.rpcs[t].answered || t in answers)
    && (InSend(c.rpcs[t].pc) ==> InSend(d.rpcs[t].pc))
  }

  /** What ends on one side ends on the other. */
  ghost predicate SameEnds(j: Joint, ended: set<nat>, gone: set<R.OpId>, answers: set<R.OpId>) {
    && (forall r | r in ended && r in j.threadOf && RpcOk(j, r) :: j.threadOf[r] in gone || j.threadOf[r] in answers)
    && (forall t | t in gone && t in j.role.rpcs && t in j.rpcOf && !j.role.rpcs[t].answered :: j.rpcOf[t] in ended)
    && (forall t | t in answers && t in j.role.rpcs :: t in j.rpcOf && (j.role.rpcs[t].answered || j.rpcOf[t] in ended))
  }

  lemma LinkFrame(j: Joint, u: C.Sys, d: R.Client, ended: set<nat>, gone: set<R.OpId>, answers: set<R.OpId>)
    requires Link(j) && SysEnds(j.sys, u, ended) && RoleEnds(j.role, d, gone, answers)
    requires SameEnds(j, ended, gone, answers) && d.dead == u.dead
    ensures Link(Both(j, u, d))
  {
    var k := Both(j, u, d);
    forall t | t in k.role.rpcs
      ensures ThreadOk(k, t)
    {
      assert RoleEndsAt(j.role, d, answers, t) && ThreadOk(j, t);
      if t in j.rpcOf { assert Sync(u, j.rpcOf[t]) || !Sync(u, j.rpcOf[t]); }
    }
    forall r | Sync(k.sys, r)
      ensures RpcOk(k, r)
    {
      assert SysEndsAt(j.sys, u, ended, r);
      assert RpcOk(j, r);
      assert RoleEndsAt(j.role, d, answers, j.threadOf[r]);
    }
  }

  // ---------------------------------------------------------------------------
  // What each step ends among the rpcs.
  // ---------------------------------------------------------------------------

  lemma DemuxEnds(s: C.Sys, u: C.Sys)
    requires CI.SysInv(s) && |s.s2c| > 0 && u == C.Do(s, C.Demux)
    ensures SysEnds(s, u, Ended(s, u)) && u.dead == s.dead
  {
    D.HeadViewed(s);
    D.DemuxOutcome(s);
    DemuxShrinks(s, u);
    forall r | r in s.rpcs || r in u.rpcs
      ensures SysEndsAt(s, u, Ended(s, u), r)
    {
      if r in u.rpcs { O.StillWaits(s, u, r); }
    }
  }

  lemma DemuxShrinks(s: C.Sys, u: C.Sys)
    requires D.HeadView(s) && u == D.Outcome(s)
    ensures u.unsent <= s.unsent && u.dead == s.dead
  {
  }

  lemma DeathEnds(s: C.Sys)
    ensures SysEnds(s, C.DoMarkDead(s), {}) && C.DoMarkDead(s).dead
  {
    var u := C.DoMarkDead(s);
    forall r | r in s.rpcs || r in u.rpcs ensures SysEndsAt(s, u, {}, r) {}
  }

  lemma TakeBackEnds(s: C.Sys, r: nat)
    requires Sync(s, r) && CI.Registered(s, r) && C.Enabled(s, C.TakeBack(s.rpcs[r].tag))
    ensures var u := C.DoTakeBack(s, s.rpcs[r].tag); SysEnds(s, u, {r}) && u.dead == s.dead
  {
    var u := C.DoTakeBack(s, s.rpcs[r].tag);
    forall x | x in s.rpcs || x in u.rpcs ensures SysEndsAt(s, u, {r}, x) {}
  }

  lemma LeaveEnds(s: C.Sys, r: nat, how: C.Flushing)
    requires C.Enabled(s, C.Leave(r, how))
    ensures var u := C.DoLeave(s, r, how); SysEnds(s, u, {r}) && u.dead == s.dead
  {
    var u := C.DoLeave(s, r, how);
    assert u.rpcs == s.rpcs - {r} && u.unsent == s.unsent;
    forall x | x in s.rpcs || x in u.rpcs ensures SysEndsAt(s, u, {r}, x) {}
  }

  lemma LostEnds(s: C.Sys, r: nat)
    requires C.Enabled(s, C.DeadReturn(r))
    ensures var u := C.Do(s, C.DeadReturn(r)); SysEnds(s, u, {r}) && u.dead == s.dead
  {
    var u := C.Do(s, C.DeadReturn(r));
    forall x | x in s.rpcs || x in u.rpcs ensures SysEndsAt(s, u, {r}, x) {}
  }

  /** A push moves no thread's rpc, and its own tag is then on the wire. */
  lemma PushEnds(s: C.Sys, t: SS.Tag)
    requires C.Enabled(s, C.Push(t))
    ensures SysEnds(s, C.DoPush(s, t), {}) && C.DoPush(s, t).dead == s.dead && C.DoPush(s, t).unsent == s.unsent - {t}
  {
    var u := C.DoPush(s, t);
    forall x | x in s.rpcs || x in u.rpcs ensures SysEndsAt(s, u, {}, x) {}
  }

  lemma RetractEnds(s: C.Sys, r: nat)
    requires C.Enabled(s, C.RetractFlush(r))
    ensures SysEnds(s, C.DoRetractFlush(s, r), {}) && C.DoRetractFlush(s, r).dead == s.dead
    ensures C.DoRetractFlush(s, r).unsent <= s.unsent
  {
    var u := C.DoRetractFlush(s, r);
    forall x | x in s.rpcs || x in u.rpcs ensures SysEndsAt(s, u, {}, x) {}
  }

  lemma AsyncBuilt(s: C.Sys, b: C.Build, t: SS.Tag, r: nat)
    requires C.Enabled(s, C.BuildOp(b, t, true)) && CI.FateInv(s) && (r in s.rpcs ==> CI.Registered(s, r))
    ensures SysEndsAt(s, C.DoBuild(s, b, t, true), {}, r)
  {
  }

  lemma AsyncTakenBack(s: C.Sys, t: SS.Tag, r: nat)
    requires C.Enabled(s, C.TakeBack(t)) && Threadless(s, t)
    ensures SysEndsAt(s, C.DoTakeBack(s, t), {}, r)
  {
  }

  lemma NobodyMovedAt(j: Joint, a: C.Action, r: nat)
    requires C.Enabled(j.sys, a) && MovesNobody(j, a) && CI.FateInv(j.sys)
    requires r in j.sys.rpcs ==> CI.Registered(j.sys, r)
    ensures SysEndsAt(j.sys, C.Do(j.sys, a), {}, r)
  {
    match a
    case BuildOp(b, t, _) => AsyncBuilt(j.sys, b, t, r);
    case Push(t) => PushEnds(j.sys, t);
    case TakeBack(t) => AsyncTakenBack(j.sys, t, r);
    case Leave(x, how) => LeaveEnds(j.sys, x, how);
    case _ =>
  }

  lemma NobodyMoved(j: Joint, a: C.Action)
    requires CI.SysInv(j.sys) && C.Enabled(j.sys, a) && MovesNobody(j, a)
    ensures SysEnds(j.sys, C.Do(j.sys, a), {}) && C.Do(j.sys, a).dead == j.sys.dead
  {
    var u := C.Do(j.sys, a);
    forall r | r in j.sys.rpcs || r in u.rpcs ensures SysEndsAt(j.sys, u, {}, r) { NobodyMovedAt(j, a, r); }
  }

  lemma OneEnds(j: Joint, t: R.OpId, how: Ending)
    requires CI.AllRegistered(j.sys) && CanEnd(j, t, how)
    ensures var u := C.Do(j.sys, SysEnd(j, t, how)); SysEnds(j.sys, u, {j.rpcOf[t]}) && u.dead == j.sys.dead
  {
    var r := j.rpcOf[t];
    assert CI.Registered(j.sys, r);
    match how
    case NeverSent => TakeBackEnds(j.sys, r);
    case Dies(h) => LeaveEnds(j.sys, r, h);
    case Lost => LostEnds(j.sys, r);
  }

  // ---------------------------------------------------------------------------
  // What each step does to the threads.
  // ---------------------------------------------------------------------------

  lemma HandoffEnds(c: R.Client, departing: Option<R.OpId>)
    ensures RoleEnds(c, R.Handoff(c, departing), {}, {}) && R.Handoff(c, departing).dead == c.dead
  {
    R.HandoffTouches(c, departing);
    var d := R.Handoff(c, departing);
    forall t | t in d.rpcs ensures RoleEndsAt(c, d, {}, t) {}
  }

  lemma Chain(c: R.Client, m: R.Client, d: R.Client, gone: set<R.OpId>, answers: set<R.OpId>)
    requires RoleEnds(c, m, gone, answers) && RoleEnds(m, d, {}, {})
    ensures RoleEnds(c, d, gone, answers)
  {
    forall t | t in d.rpcs
      ensures RoleEndsAt(c, d, answers, t)
    {
      assert RoleEndsAt(m, d, {}, t) && RoleEndsAt(c, m, answers, t);
    }
  }

  /** Giving up the role moves no thread. */
  lemma ReleaseEnds(c: R.Client, m: R.Client, departing: Option<R.OpId>, answers: set<R.OpId>)
    requires RoleEnds(c, m, {}, answers)
    ensures RoleEnds(c, R.Release(m, departing), {}, answers) && R.Release(m, departing).dead == m.dead
  {
    var p := R.Progress(m.(holder := R.Nobody));
    assert RoleEnds(c, p, {}, answers) by {
      forall t | t in p.rpcs ensures RoleEndsAt(c, p, answers, t) { assert RoleEndsAt(c, m, answers, t); }
    }
    HandoffEnds(p, departing);
    Chain(c, p, R.Handoff(p, departing), {}, answers);
  }

  lemma AtEnds(c: R.Client, t: R.OpId, pc: R.Pc)
    requires t in c.rpcs && (InSend(c.rpcs[t].pc) ==> InSend(pc))
    ensures RoleEnds(c, R.At(c, t, pc), {}, {})
  {
    var d := R.At(c, t, pc);
    forall x | x in d.rpcs ensures RoleEndsAt(c, d, {}, x) {}
  }

  lemma AnswerEnds(c: R.Client, answers: set<R.OpId>)
    ensures RoleEnds(c, R.Answer(c, answers), {}, answers)
  {
    var d := R.Answer(c, answers);
    forall x | x in d.rpcs ensures RoleEndsAt(c, d, answers, x) {}
  }

  lemma BounceEnds(c: R.Client, t: R.OpId)
    requires t in c.rpcs
    ensures RoleEnds(c, R.Bounce(c, t), {}, {}) && R.Bounce(c, t).dead == c.dead
  {
    var e := R.Undesignate(c, t);
    forall x | x in c.rpcs ensures RoleEndsAt(c, c, {}, x) && RoleEndsAt(c, e, {}, x) {}
    HandoffEnds(e, Some(t));
    Chain(c, e, R.Handoff(e, Some(t)), {}, {});
  }

  /** A thread leaves. */
  lemma LeftEnds(c: R.Client, m: R.Client, t: R.OpId)
    requires RoleEnds(c, m, {}, {})
    ensures RoleEnds(c, R.Leave(m, t), {t}, {})
  {
    var d := R.Leave(m, t);
    forall x | x in d.rpcs ensures RoleEndsAt(c, d, {}, x) { assert RoleEndsAt(c, m, {}, x); }
  }

  lemma NoneEnds(c: R.Client)
    ensures RoleEnds(c, c, {}, {})
  {
    forall x | x in c.rpcs ensures RoleEndsAt(c, c, {}, x) {}
  }

  /** The holder's thread stops reading, having answered some ops. */
  lemma StopsReading(c: R.Client, t: R.OpId, pc: R.Pc, answers: set<R.OpId>, broke: bool)
    requires t in c.rpcs && (InSend(c.rpcs[t].pc) ==> InSend(pc))
    ensures var m := R.At(R.Answer(c, answers), t, pc); var n := if broke then R.MarkDead(m) else m;
      RoleEnds(c, R.Release(n, Some(t)), {}, answers) && R.Release(n, Some(t)).dead == (broke || c.dead)
  {
    var a := R.Answer(c, answers);
    AnswerEnds(c, answers);
    AtEnds(a, t, pc);
    var m := R.At(a, t, pc);
    Chain(c, a, m, {}, answers);
    var n := if broke then R.MarkDead(m) else m;
    assert RoleEnds(c, n, {}, answers) by {
      forall x | x in n.rpcs ensures RoleEndsAt(c, n, answers, x) { assert RoleEndsAt(c, m, answers, x); }
    }
    ReleaseEnds(c, n, Some(t), answers);
  }

  lemma AnswersNone(c: R.Client)
    ensures R.Answer(c, {}) == c
  {
  }

  /** A pump gives the role back, having answered some ops. */
  lemma PumpEnds(c: R.Client, answers: set<R.OpId>, broke: bool)
    ensures var m := R.Answer(c, answers); var n := if broke then R.MarkDead(m) else m;
      RoleEnds(c, R.Release(n, None), {}, answers) && R.Release(n, None).dead == (broke || c.dead)
  {
    var m := R.Answer(c, answers);
    AnswerEnds(c, answers);
    var n := if broke then R.MarkDead(m) else m;
    assert RoleEnds(c, n, {}, answers) by {
      forall x | x in n.rpcs ensures RoleEndsAt(c, n, answers, x) { assert RoleEndsAt(c, m, answers, x); }
    }
    ReleaseEnds(c, n, None, answers);
  }

  /** The thread that a step of the threads alone lets go. */
  ghost function GoneBy(c: R.Client, x: R.Action): set<R.OpId> {
    if x.GiveUp? then {x.t}
    else if x.RunTop? && x.t in c.rpcs && (c.rpcs[x.t].answered || c.dead) then {x.t}
    else {}
  }

  lemma ThreadsAlone(j: Joint, x: R.Action)
    requires R.Enabled(j.role, x) && TouchesNoOp(j, x) && !x.Enter?
    ensures RoleEnds(j.role, R.Do(j.role, x), GoneBy(j.role, x), {}) && R.Do(j.role, x).dead == j.role.dead
  {
    var c := j.role;
    NoneEnds(c);
    AnswersNone(c);
    match x
    case GiveUp(t) => LeftEnds(c, c, t);
    case PumpOrPark(t) => PumpOrParkEnds(c, t);
    case EndPark(t) => AtEnds(c, t, R.Sending);
    case EndPump(t, _, _) => StopsReading(c, t, R.Sending, {}, false);
    case Stop(t) => StopEnds(c, t);
    case Resume(t) => AtEnds(c, t, if c.rpcs[t].pc.inSend then R.Sending else R.AtTop);
    case RunTop(t) => TopEnds(c, t);
    case Wake(t) => AtEnds(c, t, R.AtTop);
    case NoteUnwind(t) =>
      AtEnds(c, t, R.Sending);
      BounceEnds(R.At(c, t, R.Sending), t);
      Chain(c, R.At(c, t, R.Sending), R.Do(c, x), {}, {});
    case Depart(t, next, _) => StopsReading(c, t, next, {}, false);
    case EndReady(_, _) => PumpEnds(c, {}, false);
    case HandOff => HandoffEnds(c, None);
    case TakePump => SameThreads(c, R.Do(c, x));
    case AddHook(_) => SameThreads(c, R.Do(c, x));
    case DropHook(_) => SameThreads(c, R.Do(c, x));
  }

  lemma SameThreads(c: R.Client, d: R.Client)
    requires d.rpcs == c.rpcs
    ensures RoleEnds(c, d, {}, {})
  {
    forall x | x in d.rpcs ensures RoleEndsAt(c, d, {}, x) {}
  }

  lemma PumpOrParkEnds(c: R.Client, t: R.OpId)
    requires t in c.rpcs
    ensures RoleEnds(c, R.DoPumpOrPark(c, t), {}, {})
  {
    var d := R.DoPumpOrPark(c, t);
    forall x | x in d.rpcs ensures RoleEndsAt(c, d, {}, x) {}
  }

  lemma StopEnds(c: R.Client, t: R.OpId)
    requires R.Enabled(c, R.Stop(t))
    ensures RoleEnds(c, R.Do(c, R.Stop(t)), {}, {}) && R.Do(c, R.Stop(t)).dead == c.dead
  {
    if c.rpcs[t].pc.AtTop? {
      BounceEnds(c, t);
      var m := R.Bounce(c, t);
      assert t in m.rpcs && !InSend(m.rpcs[t].pc) by { BouncePc(c, t); }
      AtEnds(m, t, R.Stopped(false));
      Chain(c, m, R.At(m, t, R.Stopped(false)), {}, {});
    } else {
      AtEnds(c, t, R.Stopped(true));
    }
  }

  lemma BouncePc(c: R.Client, t: R.OpId)
    requires t in c.rpcs
    ensures t in R.Bounce(c, t).rpcs && R.Bounce(c, t).rpcs[t].pc == c.rpcs[t].pc
  {
    R.HandoffTouches(R.Undesignate(c, t), Some(t));
  }

  lemma TopEnds(c: R.Client, t: R.OpId)
    requires t in c.rpcs && c.rpcs[t].pc.AtTop?
    ensures var gone := if c.rpcs[t].answered || c.dead then {t} else {};
      RoleEnds(c, R.DoRunTop(c, t), gone, {}) && R.DoRunTop(c, t).dead == c.dead
  {
    var d := R.DoRunTop(c, t);
    forall x | x in d.rpcs ensures RoleEndsAt(c, d, {}, x) {}
  }

  // ---------------------------------------------------------------------------
  // Each step keeps the two halves together.
  // ---------------------------------------------------------------------------

  lemma SysOnlyLinks(j: Joint, u: C.Sys, a: C.Action)
    requires CI.SysInv(j.sys) && Link(j) && C.Enabled(j.sys, a) && MovesNobody(j, a) && u == C.Do(j.sys, a)
    ensures Link(j.(sys := u))
  {
    NobodyMoved(j, a);
    NoneEnds(j.role);
    LinkFrame(j, u, j.role, {}, {}, {});
    AllLeft(j, u);
  }

  lemma AllLeft(j: Joint, u: C.Sys)
    requires j.rpcOf.Keys <= j.role.rpcs.Keys
    ensures Both(j, u, j.role) == j.(sys := u)
  {
  }

  lemma EnterLinks(j: Joint, t: R.OpId, d: R.Client)
    requires Link(j) && t !in j.role.rpcs && d == j.role.(rpcs := j.role.rpcs[t := R.Rpc(0, R.Sending, false, false)])
    ensures Link(Both(j, j.sys, d))
  {
    var k := Both(j, j.sys, d);
    forall x | x in k.role.rpcs
      ensures ThreadOk(k, x)
    {
      assert x != t ==> ThreadOk(j, x);
    }
    forall r | Sync(k.sys, r) ensures RpcOk(k, r) { assert RpcOk(j, r); }
  }

  lemma SameSys(s: C.Sys)
    ensures SysEnds(s, s, {})
  {
    forall r | r in s.rpcs ensures SysEndsAt(s, s, {}, r) {}
  }

  lemma RoleOnlyLinks(j: Joint, d: R.Client, x: R.Action)
    requires Link(j) && R.Enabled(j.role, x) && TouchesNoOp(j, x) && d == R.Do(j.role, x)
    ensures Link(Both(j, j.sys, d))
  {
    if x.Enter? {
      EnterLinks(j, x.t, d);
    } else {
      ThreadsAlone(j, x);
      SameSys(j.sys);
      LinkFrame(j, j.sys, d, {}, GoneBy(j.role, x), {});
    }
  }

  lemma BuildLinks(j: Joint, u: C.Sys, t: R.OpId, b: C.Build, tag: SS.Tag)
    requires CI.SysInv(j.sys) && Link(j) && CanBuild(j, t, b, tag) && u == C.Do(j.sys, C.BuildOp(b, tag, false))
    ensures Link(Joint(u, j.role, j.rpcOf[t := j.sys.nextRpc], j.threadOf[j.sys.nextRpc := t]))
  {
    BuiltLinks(j, u, t, tag, u.rpcs[j.sys.nextRpc]);
  }

  lemma BuiltLinks(j: Joint, u: C.Sys, t: R.OpId, tag: SS.Tag, p: C.Rpc)
    requires Link(j) && CI.AllRegistered(j.sys) && CI.FateInv(j.sys)
    requires t in j.role.rpcs && t !in j.rpcOf && j.role.rpcs[t].pc.Sending? && tag !in j.sys.sess.tags
    requires u.rpcs == j.sys.rpcs[j.sys.nextRpc := p] && !p.async
    requires u.unsent == j.sys.unsent + {tag} && u.dead == j.sys.dead
    ensures Link(Joint(u, j.role, j.rpcOf[t := j.sys.nextRpc], j.threadOf[j.sys.nextRpc := t]))
  {
    var n := j.sys.nextRpc;
    var k := Joint(u, j.role, j.rpcOf[t := n], j.threadOf[n := t]);
    assert n !in j.sys.rpcs && ThreadOk(j, t);
    forall x | x in k.role.rpcs
      ensures ThreadOk(k, x)
    {
      assert ThreadOk(j, x);
      if x in j.rpcOf && j.rpcOf[x] in j.sys.rpcs { assert CI.Registered(j.sys, j.rpcOf[x]); }
    }
    forall r | Sync(k.sys, r)
      ensures RpcOk(k, r)
    {
      if r != n { assert Sync(j.sys, r) && RpcOk(j, r); }
    }
  }

  /** A send leaves its op on the wire. */
  lemma SendLeaves(j: Joint, u: C.Sys, t: R.OpId, sent: Sending)
    requires CI.SysInv(j.sys) && CanSend(j, t, sent) && u == SysAfter(j, t, sent)
    ensures SysEnds(j.sys, u, {}) && u.dead == j.sys.dead
    ensures Sync(j.sys, j.rpcOf[t]) ==> j.sys.rpcs[j.rpcOf[t]].tag !in u.unsent
  {
    match sent
    case Own => PushEnds(j.sys, TagOf(j, t));
    case FlushPushed(f) =>
      PushEnds(j.sys, f);
      VictimOnWire(j.sys, f, j.rpcOf[t]);
    case FlushRetracted => RetractEnds(j.sys, j.rpcOf[t]);
    case Nothing => SameSys(j.sys);
  }

  lemma VictimOnWire(s: C.Sys, f: SS.Tag, r: nat)
    requires SI.FlushLinks(s.sess) && CI.AllRegistered(s) && CI.EntriesOk(s)
    requires C.VictimRpc(s, f) == Some(r) && r in s.rpcs && f in s.unsent
    ensures s.rpcs[r].tag !in s.unsent
  {
    var v := s.sess.tags[f].flushOldtag;
    assert CI.EntryOk(s, v) && s.rpcs[r].tag == v;
  }

  lemma SentLinks(j: Joint, u: C.Sys, d: R.Client, t: R.OpId, tag: SS.Tag)
    requires Link(j) && SysEnds(j.sys, u, {}) && u.dead == j.sys.dead
    requires t in j.role.rpcs && t in j.rpcOf
    requires d == j.role.(rpcs := j.role.rpcs[t := j.role.rpcs[t].(tag := tag, pc := R.AtTop)])
    requires Sync(j.sys, j.rpcOf[t]) ==> tag == j.sys.rpcs[j.rpcOf[t]].tag && tag !in u.unsent
    ensures Link(Both(j, u, d))
  {
    var k := Both(j, u, d);
    forall x | x in k.role.rpcs
      ensures ThreadOk(k, x)
    {
      assert ThreadOk(j, x);
      assert x in j.rpcOf ==> (Sync(u, j.rpcOf[x]) || !Sync(u, j.rpcOf[x]));
    }
    forall r | Sync(k.sys, r)
      ensures RpcOk(k, r)
    {
      assert SysEndsAt(j.sys, u, {}, r);
      assert RpcOk(j, r);
    }
  }

  lemma SendDoneLinks(j: Joint, u: C.Sys, d: R.Client, t: R.OpId, sent: Sending)
    requires CI.SysInv(j.sys) && Link(j) && CanSend(j, t, sent) && u == SysAfter(j, t, sent)
    requires d == R.Do(j.role, R.Sent(t, TagOf(j, t)))
    ensures Link(Both(j, u, d))
  {
    SendLeaves(j, u, t, sent);
    SentLinks(j, u, d, t, TagOf(j, t));
  }

  lemma RoleEndEnds(c: R.Client, t: R.OpId, how: Ending)
    requires R.Enabled(c, RoleEnd(t, how)) && (how.Lost? ==> c.dead)
    ensures RoleEnds(c, R.Do(c, RoleEnd(t, how)), {t}, {}) && R.Do(c, RoleEnd(t, how)).dead == c.dead
  {
    match how
    case NeverSent =>
      NoneEnds(c);
      LeftEnds(c, c, t);
    case Dies(_) =>
      BounceEnds(c, t);
      LeftEnds(c, R.Bounce(c, t), t);
    case Lost => TopEnds(c, t);
  }

  lemma EndLinks(j: Joint, u: C.Sys, d: R.Client, t: R.OpId, how: Ending)
    requires CI.AllRegistered(j.sys) && Link(j) && CanEnd(j, t, how)
    requires u == C.Do(j.sys, SysEnd(j, t, how)) && d == R.Do(j.role, RoleEnd(t, how))
    ensures Link(Both(j, u, d))
  {
    OneEnds(j, t, how);
    RoleEndEnds(j.role, t, how);
    EndFrame(j, u, d, t);
  }

  lemma EndFrame(j: Joint, u: C.Sys, d: R.Client, t: R.OpId)
    requires Link(j) && t in j.role.rpcs && t in j.rpcOf && !j.role.rpcs[t].answered
    requires SysEnds(j.sys, u, {j.rpcOf[t]}) && RoleEnds(j.role, d, {t}, {}) && d.dead == u.dead
    ensures Link(Both(j, u, d))
  {
    assert ThreadOk(j, t);
    LinkFrame(j, u, d, {j.rpcOf[t]}, {t}, {});
  }

  lemma FrameEnds(c: R.Client, d: R.Client, x: R.Action, answers: set<R.OpId>)
    requires R.Enabled(c, x) && ReadsFrame(x, answers) && d == R.Do(c, x)
    ensures RoleEnds(c, d, {}, answers) && d.dead == c.dead
  {
    match x
    case Demux(_, _) =>
      AnswerEnds(c, answers);
      SameThreads(R.Answer(c, answers), d);
      Chain(c, R.Answer(c, answers), d, {}, answers);
    case EndPump(t, _, _) => StopsReading(c, t, R.Sending, answers, false);
    case EndReady(_, _) => PumpEnds(c, answers, false);
  }

  lemma FrameRead(j: Joint, u: C.Sys, d: R.Client, x: R.Action)
    requires Link(j) && SysEnds(j.sys, u, Ended(j.sys, u)) && u.dead == j.sys.dead
    requires R.Enabled(j.role, x) && ReadsFrame(x, Answers(j, u)) && d == R.Do(j.role, x)
    ensures Link(Both(j, u, d))
  {
    FrameEnds(j.role, d, x, Answers(j, u));
    LinkFrame(j, u, d, Ended(j.sys, u), {}, Answers(j, u));
  }

  lemma FrameLinks(j: Joint, u: C.Sys, d: R.Client, x: R.Action)
    requires CI.SysInv(j.sys) && Link(j) && |j.sys.s2c| > 0 && u == C.Do(j.sys, C.Demux)
    requires R.Enabled(j.role, x) && ReadsFrame(x, Answers(j, u)) && d == R.Do(j.role, x)
    ensures Link(Both(j, u, d))
  {
    DemuxEnds(j.sys, u);
    FrameRead(j, u, d, x);
  }

  lemma BreakEnds(c: R.Client, x: R.Action)
    requires R.Enabled(c, x) && Breaks(x)
    ensures RoleEnds(c, R.Do(c, x), {}, {}) && R.Do(c, x).dead
  {
    AnswersNone(c);
    match x
    case Break => SameThreads(c, R.Do(c, x));
    case Depart(t, next, _) => StopsReading(c, t, next, {}, true);
    case EndPump(t, _, _) => StopsReading(c, t, R.Sending, {}, true);
    case EndReady(_, _) => PumpEnds(c, {}, true);
  }

  lemma DeathLinks(j: Joint, u: C.Sys, d: R.Client, x: R.Action)
    requires Link(j) && R.Enabled(j.role, x) && Breaks(x)
    requires u == C.Do(j.sys, C.MarkDead) && d == R.Do(j.role, x)
    ensures Link(Both(j, u, d))
  {
    DeathEnds(j.sys);
    BreakEnds(j.role, x);
    LinkFrame(j, u, d, {}, {}, {});
  }

  lemma SmallStepLinks(j: Joint, k: Joint, act: Action)
    requires CI.SysInv(j.sys) && Link(j) && Next(j, k, act) && (act.SysOnly? || act.RoleOnly? || act.Build?)
    ensures Link(k)
  {
    match act
    case SysOnly(a) => SysOnlyLinks(j, k.sys, a);
    case RoleOnly(x) => RoleOnlyLinks(j, k.role, x);
    case Build(t, b, tag) => BuildLinks(j, k.sys, t, b, tag);
  }

  lemma LargeStepLinks(j: Joint, k: Joint, act: Action)
    requires CI.SysInv(j.sys) && Link(j) && Next(j, k, act) && (act.SendDone? || act.End? || act.Frame? || act.Death?)
    ensures Link(k)
  {
    match act
    case SendDone(t, sent) => SendDoneLinks(j, k.sys, k.role, t, sent);
    case End(t, how) => EndLinks(j, k.sys, k.role, t, how);
    case Frame(x) => FrameLinks(j, k.sys, k.role, x);
    case Death(x) => DeathLinks(j, k.sys, k.role, x);
  }

  lemma StepLinks(j: Joint, k: Joint, act: Action)
    requires CI.SysInv(j.sys) && Link(j) && Next(j, k, act)
    ensures Link(k)
  {
    if act.SysOnly? || act.RoleOnly? || act.Build? {
      SmallStepLinks(j, k, act);
    } else {
      LargeStepLinks(j, k, act);
    }
  }

  // ---------------------------------------------------------------------------
  // Every run.
  // ---------------------------------------------------------------------------

  /** The thread of the step, where one sends or ends, has an op. */
  ghost predicate Registers(j: Joint, act: Action) {
    act.SendDone? || act.End? ==> act.t in j.role.rpcs && act.t in j.rpcOf
  }

  /** The step of the ops' machine inside a joint step, if there is one. */
  ghost function SysPart(j: Joint, act: Action): Option<C.Action>
    requires Registers(j, act)
  {
    match act
    case SysOnly(a) => Some(a)
    case RoleOnly(_) => None
    case Build(_, b, tag) => Some(C.BuildOp(b, tag, false))
    case SendDone(t, sent) => SysSent(j, t, sent)
    case End(t, how) => Some(SysEnd(j, t, how))
    case Frame(_) => Some(C.Demux)
    case Death(_) => Some(C.MarkDead)
  }

  /** The step of the threads' machine inside a joint step, if there is one. */
  ghost function RolePart(j: Joint, act: Action): Option<R.Action>
    requires Registers(j, act)
  {
    match act
    case SysOnly(_) => None
    case RoleOnly(x) => Some(x)
    case Build(_, _, _) => None
    case SendDone(t, _) => Some(R.Sent(t, TagOf(j, t)))
    case End(t, how) => Some(RoleEnd(t, how))
    case Frame(x) => Some(x)
    case Death(x) => Some(x)
  }

  ghost predicate SysStep(s: C.Sys, u: C.Sys, a: Option<C.Action>) {
    if a.Some? then C.Enabled(s, a.value) && u == C.Do(s, a.value) else u == s
  }

  ghost predicate RoleStep(c: R.Client, d: R.Client, x: Option<R.Action>) {
    if x.Some? then R.Enabled(c, x.value) && d == R.Do(c, x.value) else d == c
  }

  lemma SysPartOf(j: Joint, k: Joint, act: Action)
    requires Next(j, k, act)
    ensures SysStep(j.sys, k.sys, SysPart(j, act))
  {
  }

  lemma RolePartOf(j: Joint, k: Joint, act: Action)
    requires Next(j, k, act)
    ensures RoleStep(j.role, k.role, RolePart(j, act))
  {
  }

  /** Each half of a joint step is a step of its own machine, or nothing. */
  lemma PartsOfStep(j: Joint, k: Joint, act: Action)
    requires Next(j, k, act)
    ensures SysStep(j.sys, k.sys, SysPart(j, act)) && RoleStep(j.role, k.role, RolePart(j, act))
  {
    SysPartOf(j, k, act);
    RolePartOf(j, k, act);
  }

  lemma SysStepKeeps(s: C.Sys, u: C.Sys, a: Option<C.Action>)
    requires CI.SysInv(s) && O.OwedInv(s) && SysStep(s, u, a)
    ensures CI.SysInv(u) && O.OwedInv(u)
  {
    if a.Some? {
      T.StepKeeps(s, a.value);
      O.StepOwes(s, a.value);
    }
  }

  lemma RoleStepKeeps(c: R.Client, d: R.Client, x: Option<R.Action>)
    requires R.Inv(c) && RoleStep(c, d, x)
    ensures R.Inv(d)
  {
    if x.Some? { R.StepKeeps(c, x.value); }
  }

  lemma StepKeeps(j: Joint, k: Joint, act: Action)
    requires Inv(j) && Next(j, k, act)
    ensures Inv(k)
  {
    StepLinks(j, k, act);
    PartsOfStep(j, k, act);
    SysStepKeeps(j.sys, k.sys, SysPart(j, act));
    RoleStepKeeps(j.role, k.role, RolePart(j, act));
  }

  lemma StartsLinked(j: Joint)
    requires Init(j)
    ensures Inv(j)
  {
    CI.InitInv(j.sys);
  }

  lemma {:induction false} RunInv(run: seq<Joint>, acts: seq<Action>, i: nat)
    requires IsRun(run, acts) && i < |run|
    ensures Inv(run[i])
  {
    if i == 0 {
      StartsLinked(run[0]);
    } else {
      RunInv(run, acts, i - 1);
      assert Follows(run, acts, i - 1);
      StepKeeps(run[i - 1], run[i], acts[i - 1]);
    }
  }

  /** The rpc of thread `t` is registered, and its request, its reply or the Rflush that cancels it is
      on its way. */
  ghost predicate IsOwed(j: Joint, t: R.OpId) {
    t in j.rpcOf && j.rpcOf[t] in j.sys.rpcs && O.Owed(j.sys, j.sys.rpcs[j.rpcOf[t]].tag)
  }

  /** Thread `t` has the role, or is designated and about to look for it. */
  ghost predicate WillRead(c: R.Client, t: R.OpId) { c.holder == R.Op(t) || R.Designated(c, t) }

  lemma WaiterIsOwed(j: Joint, t: R.OpId)
    requires O.OwedInv(j.sys) && Link(j) && t in j.role.rpcs && !j.role.rpcs[t].answered && !InSend(j.role.rpcs[t].pc)
    ensures IsOwed(j, t)
  {
    assert ThreadOk(j, t);
  }

  lemma SomeoneReads(c: R.Client, t: R.OpId)
    requires R.Inv(c) && !c.dead && t in c.rpcs && c.rpcs[t].pc.Asleep? && !c.rpcs[t].answered
    ensures c.holder.Pump? || exists x :: WillRead(c, x)
  {
    if c.holder.Op? {
      assert WillRead(c, c.holder.op);
    } else if c.holder.Nobody? {
      assert R.Sleeps(c, t) || R.Designated(c, t);
      var x :| R.Designated(c, x);
      assert WillRead(c, x);
    }
  }

  /**
   No waiter is forgotten.  Over every run, on a live session, a thread asleep with no answer is
   registered for an op that is owed its end, and someone reads or is about to: a pump, or a thread
   that has the role or is designated.
   */
  lemma WaitersAreServed(run: seq<Joint>, acts: seq<Action>, i: nat, t: R.OpId)
    requires IsRun(run, acts) && i < |run| && !run[i].sys.dead
    requires t in run[i].role.rpcs && run[i].role.rpcs[t].pc.Asleep? && !run[i].role.rpcs[t].answered
    ensures IsOwed(run[i], t) && (run[i].role.holder.Pump? || exists x :: WillRead(run[i].role, x))
  {
    RunInv(run, acts, i);
    WaiterIsOwed(run[i], t);
    SomeoneReads(run[i].role, t);
  }

  /** And whoever is designated still waits for an end of its own. */
  lemma ReadersWaitToo(run: seq<Joint>, acts: seq<Action>, i: nat, x: R.OpId)
    requires IsRun(run, acts) && i < |run| && R.Designated(run[i].role, x)
    ensures IsOwed(run[i], x)
  {
    RunInv(run, acts, i);
    WaiterIsOwed(run[i], x);
  }
}
