/**
 The pipelined 9P client as a state machine.  One action is one hold of the client lock, one
 step of the server, or one hop of a message.  The session part of every action is the flat
 session of SessionSpec; the wire is a FIFO each way; the server is any server that answers a
 request at most once and, having sent an Rflush, never answers the request it flushed.
 */
module ClientRun {
  import opened Options
  import opened SessionSpec

  /** A request on its way or being served.  `oldtag` is the tag a Tflush cancels; `op` is the
      session's op id, which the wire does not carry. */
  datatype Req = Req(tag: Tag, op: nat, kind: Kind, nwname: nat, oldtag: Tag)

  /** A reply on its way back, with the request the server meant it for. */
  datatype Rep = Rep(req: Req, rtype: ReplyType, nwqid: nat)

  /** A registered rpc: the tag and op it waits for.  `flushing`: its Tflush is on the wire. */
  datatype Rpc = Rpc(tag: Tag, op: nat, async: bool, noted: bool, flushing: bool)

  /** How an rpc ended: its reply was applied, its Rflush came first, its owner left, its frame
      never reached the wire, or the session died. */
  datatype Fate = Answered | Cancelled | Left | NeverSent | Died

  datatype Sys = Sys(
    sess: Session,
    used: set<Fid>,            // walk destinations handed out so far
    unsent: set<Tag>,          // built, but not on the wire
    c2s: seq<Req>,
    pend: set<Req>,
    s2c: seq<Rep>,
    rpcs: map<nat, Rpc>,       // the registered rpcs
    nextRpc: nat,
    asyncs: set<nat>,          // rpcs taken over by submit_async
    fate: map<nat, Fate>,
    fired: multiset<nat>,      // completion callbacks run, per async rpc
    dead: bool,
    stray: nat)                // frames no mechanism accounts for

  datatype Build =
    | BWalk(wkind: Kind, src: Fid, dst: Fid, nwname: nat)
    | BClunk(fid: Fid)
    | BPlain(code: nat, pfid: Fid, exclusive: bool)

  /** How an owner that leaves finds the Tflush it owes. */
  datatype Flushing = NoTag | Sent(f: Tag) | RolledBack(g: Tag)

  datatype Action =
    | BuildOp(b: Build, t: Tag, async: bool)
    | BuildOwnerless(fid: Fid, t: Tag)
    | Refuse
    | Push(t: Tag)
    | TakeBack(t: Tag)
    | StageFlush(r: nat, f: Tag)
    | RetractFlush(r: nat)
    | Leave(r: nat, how: Flushing)
    | ServerTake
    | ServerAnswer(q: Req, rtype: ReplyType, nwqid: nat)
    | Demux
    | MarkDead
    | DeadReturn(r: nat)

  // ---------------------------------------------------------------------------
  // Builds and sends.
  // ---------------------------------------------------------------------------

  predicate CanBuild(s: Session, b: Build) {
    match b
    case BWalk(k, src, dst, _) =>
      IsWalk(k) && if dst == NOFID then k.WalkGetattr? && CanQuery(s, src) else CanWalk(s, src, dst)
    case BClunk(fid) => CanClunk(s, fid)
    case BPlain(_, fid, x) => CanPlain(s, fid, x)
  }

  function Built(s: Session, t: Tag, b: Build): Session {
    match b
    case BWalk(k, src, dst, n) => SendWalk(s, t, k, src, dst, n)
    case BClunk(fid) => SendClunk(s, t, fid)
    case BPlain(code, fid, _) => SendPlain(s, t, code, fid)
  }

  /** Fids are handed out once, so a walk's destination was never named before. */
  predicate FreshDestination(s: Sys, b: Build) { b.BWalk? && b.dst != NOFID ==> b.dst !in s.used }

  function UsedBy(b: Build): set<Fid> { if b.BWalk? && b.dst != NOFID then {b.dst} else {} }

  /** Build a request and register its rpc; the frame is not on the wire yet. */
  function DoBuild(s: Sys, b: Build, t: Tag, async: bool): Sys {
    var m := Built(s.sess, t, b);
    var m := if async then MarkAsync(m, t) else m;
    s.(sess := SetOwner(m, t, Some(s.nextRpc)),
       used := s.used + UsedBy(b),
       unsent := s.unsent + {t},
       rpcs := s.rpcs[s.nextRpc := Rpc(t, s.sess.nextOpId + 1, async, false, false)],
       nextRpc := s.nextRpc + 1,
       asyncs := if async then s.asyncs + {s.nextRpc} else s.asyncs)
  }

  /** The fire-and-forget Tclunk: no rpc is registered, so its Rclunk arrives ownerless. */
  function DoBuildOwnerless(s: Sys, fid: Fid, t: Tag): Sys {
    s.(sess := SendClunk(s.sess, t, fid), unsent := s.unsent + {t})
  }

  /** An async submission that is refused completes at once, with nothing built. */
  function DoRefuse(s: Sys): Sys {
    s.(nextRpc := s.nextRpc + 1,
       asyncs := s.asyncs + {s.nextRpc},
       fate := s.fate[s.nextRpc := NeverSent],
       fired := s.fired + multiset{s.nextRpc})
  }

  function Request(s: Session, t: Tag): Req
    requires t in s.tags
  {
    var e := s.tags[t];
    Req(t, e.opId, e.kind, e.walkNwname, e.flushOldtag)
  }

  /** The rpc whose Tflush `t` is, if it is still registered. */
  function VictimRpc(s: Sys, t: Tag): Option<nat> {
    if t in s.sess.tags && s.sess.tags[t].kind.Flush? && s.sess.tags[t].flushOldtag in s.sess.tags
    then s.sess.tags[s.sess.tags[t].flushOldtag].owner
    else None
  }

  /** The whole frame goes onto the wire; a Tflush's owner is then flushing. */
  function DoPush(s: Sys, t: Tag): Sys
    requires t in s.sess.tags
  {
    var v := VictimRpc(s, t);
    s.(unsent := s.unsent - {t},
       c2s := s.c2s + [Request(s.sess, t)],
       rpcs := if v.Some? && v.value in s.rpcs then s.rpcs[v.value := s.rpcs[v.value].(flushing := true)] else s.rpcs)
  }

  /** End rpc `r`: drop it from the registered ones, and run an async completion unless it left. */
  function Finish(s: Sys, r: nat, how: Fate): Sys {
    s.(rpcs := s.rpcs - {r},
       fate := s.fate[r := how],
       fired := if r in s.asyncs && how != Left then s.fired + multiset{r} else s.fired)
  }

  /** A frame that never reached the wire: its tag is reclaimed, a Tclunk is taken back whole. */
  function DoTakeBack(s: Sys, t: Tag): Sys
    requires t in s.sess.tags
  {
    var e := s.sess.tags[t];
    var u := s.(sess := if e.kind.Clunk? && !s.dead then RetractUnsent(s.sess, t).0 else AbortUnsent(s.sess, t),
                unsent := s.unsent - {t});
    if e.owner.Some? then Finish(u, e.owner.value, NeverSent) else u
  }

  // ---------------------------------------------------------------------------
  // flush(5).
  // ---------------------------------------------------------------------------

  /** A caught note interrupted the wait of a living owner: build its Tflush. */
  function DoStageFlush(s: Sys, r: nat, f: Tag): Sys
    requires r in s.rpcs && s.rpcs[r].tag in s.sess.tags
  {
    var t := s.rpcs[r].tag;
    s.(sess := FlushOwnerWaits(SendFlush(s.sess, f, t), t, true),
       unsent := s.unsent + {f},
       rpcs := s.rpcs[r := s.rpcs[r].(noted := true)])
  }

  function DoRetractFlush(s: Sys, r: nat): Sys
    requires r in s.rpcs && s.rpcs[r].tag in s.sess.tags
  {
    var t := s.rpcs[r].tag;
    s.(sess := FlushRetract(s.sess, t), unsent := s.unsent - {s.sess.tags[t].flushTag})
  }

  function Unregister(s: Sys, r: nat): Sys
    requires r in s.rpcs
  {
    s.(sess := SetOwner(s.sess, s.rpcs[r].tag, None))
  }

  /** The owner of an op on the wire goes away: a dying thread, or an async abandon. */
  function DoLeave(s: Sys, r: nat, how: Flushing): Sys
    requires r in s.rpcs && s.rpcs[r].tag in s.sess.tags
  {
    var t := s.rpcs[r].tag;
    var u := Finish(Unregister(s, r), r, Left);
    if s.sess.tags[t].kind.Clunk? then u                // a Tclunk is never flushed
    else if s.rpcs[r].flushing then u.(sess := FlushOwnerWaits(u.sess, t, false))
    else match how
      case NoTag => u.(sess := MarkAbandoned(u.sess, t))
      case Sent(f) =>
        var w := SendFlush(u.sess, f, t);
        u.(sess := w, c2s := u.c2s + [Request(w, f)])
      case RolledBack(f) => u.(sess := FlushRollback(SendFlush(u.sess, f, t), t))
  }

  // ---------------------------------------------------------------------------
  // The server.
  // ---------------------------------------------------------------------------

  function DoServerTake(s: Sys): Sys
    requires |s.c2s| > 0
  {
    s.(c2s := s.c2s[1..], pend := s.pend + {s.c2s[0]})
  }

  /** An Rflush cancels the request it names, if that one is still unanswered. */
  function CancelledBy(s: Sys, q: Req, rtype: ReplyType): set<Req> {
    if q.kind.Flush? && rtype == RFor(Flush) then set x | x in s.pend && x.tag == q.oldtag else {}
  }

  function DoServerAnswer(s: Sys, q: Req, rtype: ReplyType, nwqid: nat): Sys {
    s.(pend := s.pend - {q} - CancelledBy(s, q, rtype), s2c := s.s2c + [Rep(q, rtype, nwqid)])
  }

  predicate Conforms(q: Req, rtype: ReplyType, nwqid: nat) {
    (rtype == RError || rtype == RFor(q.kind)) && (IsWalk(q.kind) ==> nwqid <= q.nwname)
  }

  // ---------------------------------------------------------------------------
  // The demultiplexer.
  // ---------------------------------------------------------------------------

  /** Latch the session dead: every registered async op completes, every sync waiter is woken. */
  function DoMarkDead(s: Sys): Sys {
    var gone := set r | r in s.rpcs && s.rpcs[r].async;
    s.(dead := true,
       sess := s.sess.(tags := map t | t in s.sess.tags ::
         var e := s.sess.tags[t];
         if e.owner.Some? && e.owner.value in gone then e.(owner := None) else e),
       rpcs := s.rpcs - gone,
       fate := s.fate + (map r | r in gone :: Died),
       fired := s.fired + multiset(gone))
  }

  function FailClosed(s: Sys, ok: bool): Sys { if ok then s else DoMarkDead(s) }

  /** Apply a registered rpc's reply: unregister it first, take back a Tflush only staged. */
  function DemuxOwned(s: Sys, r: nat, m: Reply): Sys
    requires r in s.rpcs && s.rpcs[r].tag in s.sess.tags
  {
    var rpc := s.rpcs[r];
    var u := Unregister(s, r);
    if rpc.flushing then
      var a := DispatchFlushed(u.sess, m);
      FailClosed(Finish(u.(sess := a.s), r, Answered), a.ok)
    else if rpc.noted && u.sess.tags[rpc.tag].awaitingFlush then
      var a := Dispatch(FlushRetract(u.sess, rpc.tag), m);
      FailClosed(Finish(u.(sess := a.s, unsent := u.unsent - {u.sess.tags[rpc.tag].flushTag}), r, Answered), a.ok)
    else
      var a := Dispatch(u.sess, m);
      FailClosed(Finish(u.(sess := a.s), r, Answered), a.ok)
  }

  /** An Rflush: it cancels the op of an owner that still waits, unless the server answered a
      flush it never received. */
  function DemuxFlushed(s: Sys, m: Reply): Sys {
    var v := VictimRpc(s, m.tag);
    if v.Some? && (v.value !in s.rpcs || s.rpcs[v.value].async || !s.rpcs[v.value].flushing) then DoMarkDead(s)
    else
      var a := Dispatch(s.sess, m);
      var u := s.(sess := a.s);
      if !a.ok then DoMarkDead(u) else if v.Some? then Finish(u, v.value, Cancelled) else u
  }

  function DemuxOwnerless(s: Sys, m: Reply): Sys {
    var a := Dispatch(s.sess, m);
    FailClosed(s.(sess := a.s), a.ok)
  }

  function DoDemux(s: Sys): Sys
    requires |s.s2c| > 0
  {
    var h := s.s2c[0];
    var t := h.req.tag;
    var m := Reply(t, h.rtype, h.nwqid, true);
    var u := s.(s2c := s.s2c[1..]);
    if t !in u.sess.tags then u.(stray := u.stray + 1)
    else
      var e := u.sess.tags[t];
      if e.owner.Some? && e.owner.value in u.rpcs && u.rpcs[e.owner.value].tag == t then DemuxOwned(u, e.owner.value, m)
      else if e.kind.Clunk? && (m.rtype == RFor(Clunk) || m.rtype == RError) then DemuxOwnerless(u, m)
      else if e.kind.Flush? && m.rtype == RFor(Flush) then DemuxFlushed(u, m)
      else if e.awaitingFlush || e.abandoned then DemuxOwnerless(u, m)
      else u.(stray := u.stray + 1, sess := Dispatch(u.sess, m).s)
  }

  // ---------------------------------------------------------------------------
  // The transition relation.
  // ---------------------------------------------------------------------------

  /** The op of rpc `r` is in flight: registered, its frame on the wire. */
  predicate OnWire(s: Sys, r: nat) {
    r in s.rpcs && s.rpcs[r].tag in s.sess.tags && s.rpcs[r].tag !in s.unsent
  }

  predicate Enabled(s: Sys, a: Action) {
    match a
    case BuildOp(b, t, _) => !s.dead && CanBuild(s.sess, b) && Lowest(s.sess, t) && FreshDestination(s, b)
    case BuildOwnerless(fid, t) => !s.dead && CanClunk(s.sess, fid) && Lowest(s.sess, t)
    case Refuse => true
    case Push(t) => !s.dead && t in s.unsent && t in s.sess.tags
    case TakeBack(t) => t in s.unsent && t in s.sess.tags && !s.sess.tags[t].kind.Flush?
    case StageFlush(r, f) =>
      && !s.dead && OnWire(s, r) && !s.rpcs[r].async && Lowest(s.sess, f)
      && !s.sess.tags[s.rpcs[r].tag].kind.Clunk? && CanFlush(s.sess, s.rpcs[r].tag)
    case RetractFlush(r) =>
      OnWire(s, r) && s.sess.tags[s.rpcs[r].tag].awaitingFlush && !s.rpcs[r].flushing
    case Leave(r, how) =>
      && !s.dead && OnWire(s, r)
      && (s.sess.tags[s.rpcs[r].tag].awaitingFlush ==> s.rpcs[r].flushing)
      && (how.Sent? ==> Lowest(s.sess, how.f)) && (how.RolledBack? ==> Lowest(s.sess, how.g))
    case ServerTake => |s.c2s| > 0
    case ServerAnswer(q, rtype, nwqid) => q in s.pend && Conforms(q, rtype, nwqid)
    case Demux => |s.s2c| > 0
    case MarkDead => true
    case DeadReturn(r) => s.dead && OnWire(s, r)
  }

  function Do(s: Sys, a: Action): Sys
    requires Enabled(s, a)
  {
    match a
    case BuildOp(b, t, async) => DoBuild(s, b, t, async)
    case BuildOwnerless(fid, t) => DoBuildOwnerless(s, fid, t)
    case Refuse => DoRefuse(s)
    case Push(t) => DoPush(s, t)
    case TakeBack(t) => DoTakeBack(s, t)
    case StageFlush(r, f) => DoStageFlush(s, r, f)
    case RetractFlush(r) => DoRetractFlush(s, r)
    case Leave(r, how) => DoLeave(s, r, how)
    case ServerTake => DoServerTake(s)
    case ServerAnswer(q, rtype, nwqid) => DoServerAnswer(s, q, rtype, nwqid)
    case Demux => DoDemux(s)
    case MarkDead => DoMarkDead(s)
    case DeadReturn(r) => Finish(Unregister(s, r), r, Died)
  }

  /** A client whose handshake is done: the root is bound and nothing is in flight. */
  ghost predicate Init(s: Sys) {
    && s.sess.tags == map[] && s.sess.bound == {s.sess.rootFid} && s.sess.rootFid != NOFID
    && s.sess.cap.maxFids >= 1 && 2 * s.sess.cap.opsMax <= s.sess.cap.tagLimit
    && s.used == {s.sess.rootFid} && s.unsent == {} && s.c2s == [] && s.pend == {} && s.s2c == []
    && s.rpcs == map[] && s.nextRpc == 0 && s.asyncs == {}
    && s.fate == map[] && s.fired == multiset{} && !s.dead && s.stray == 0
  }

  ghost predicate Follows(run: seq<Sys>, acts: seq<Action>, i: nat)
    requires i < |acts| && |run| == |acts| + 1
  {
    Enabled(run[i], acts[i]) && run[i + 1] == Do(run[i], acts[i])
  }

  /** `run` is a run of the client: it starts after the handshake and each state is a step on. */
  ghost predicate IsRun(run: seq<Sys>, acts: seq<Action>) {
    && |run| == |acts| + 1 && Init(run[0])
    && forall i {:trigger Follows(run, acts, i)} | 0 <= i < |acts| :: Follows(run, acts, i)
  }
}
