/**
 Which op an rpc stands for, and when a fid is busy: over every run an rpc's entry is the op it was
 built for, and a fid is busy exactly while someone may still act on it.
 */
module ClientFids {
  import opened Options
  import opened SessionSpec
  import opened ClientRun
  import opened ClientInv
  import L = ClientLocal
  import D = ClientDemux
  import T = ClientTheorems
  import O = ClientOwed

  /** The owner of an op being flushed waits exactly while it is registered. */
  ghost predicate WaitsOk(s: Sys, t: Tag)
    requires t in s.sess.tags
  {
    !s.dead ==> (s.sess.tags[t].ownerWaits <==> s.sess.tags[t].awaitingFlush && s.sess.tags[t].owner.Some?)
  }

  /** The two entries are of one op. */
  predicate SameOp(e: Entry, f: Entry) {
    f.opId == e.opId && f.kind == e.kind && f.fid == e.fid && f.newFid == e.newFid && f.walkNwname == e.walkNwname
  }

  /** What a step leaves at tag `t`: the same op or none, if there was one; and waits as they should be. */
  ghost predicate Evolves(s: Sys, u: Sys, t: Tag) {
    t in u.sess.tags ==> WaitsOk(u, t) && (t in s.sess.tags ==> SameOp(s.sess.tags[t], u.sess.tags[t]))
  }

  ghost predicate WaitsInv(s: Sys) { forall t | t in s.sess.tags :: WaitsOk(s, t) }

  // ---------------------------------------------------------------------------
  // Each step.
  // ---------------------------------------------------------------------------

  lemma DemuxEvolves(s: Sys, u: Sys, t: Tag)
    requires D.HeadView(s) && u == D.Outcome(s) && (t in s.sess.tags ==> WaitsOk(s, t))
    ensures Evolves(s, u, t)
  {
    match D.WayOf(s)
    case Honoured => KeptEvolves(s, u, t);
    case Late => KeptEvolves(s, u, t);
    case Cancels => FreedEvolves(s, u, t);
    case Staged => FreedEvolves(s, u, t);
    case Plainly => FreedEvolves(s, u, t);
  }

  lemma KeptEvolves(s: Sys, u: Sys, t: Tag)
    requires D.HeadView(s) && u == D.Outcome(s) && (D.WayOf(s).Honoured? || D.WayOf(s).Late?)
    requires t in s.sess.tags ==> WaitsOk(s, t)
    ensures Evolves(s, u, t)
  {
  }

  lemma FreedEvolves(s: Sys, u: Sys, t: Tag)
    requires D.HeadView(s) && u == D.Outcome(s) && !D.WayOf(s).Honoured? && !D.WayOf(s).Late?
    requires t in s.sess.tags ==> WaitsOk(s, t)
    ensures Evolves(s, u, t)
  {
  }

  lemma RetractEvolves(s: Sys, r: nat, t: Tag)
    requires Enabled(s, RetractFlush(r)) && Registered(s, r) && (t in s.sess.tags ==> WaitsOk(s, t))
    ensures Evolves(s, DoRetractFlush(s, r), t)
  {
    L.RetractForm(s.sess, s.rpcs[r].tag);
  }

  lemma StageEvolves(s: Sys, r: nat, f: Tag, t: Tag)
    requires Enabled(s, StageFlush(r, f)) && Registered(s, r) && (t in s.sess.tags ==> WaitsOk(s, t))
    ensures Evolves(s, DoStageFlush(s, r, f), t)
  {
    L.StageForm(s, r, f);
  }

  lemma LeaveEvolves(s: Sys, r: nat, how: Flushing, t: Tag)
    requires FidsUsed(s) && Enabled(s, Leave(r, how)) && Registered(s, r) && EntryOk(s, s.rpcs[r].tag)
    requires t in s.sess.tags ==> WaitsOk(s, t)
    ensures Evolves(s, DoLeave(s, r, how), t)
  {
    if !L.SendsFlush(s, r, how) { L.LeaveForm(s, r, how); }
  }

  lemma FlushEvolves(s: Sys, a: Action, t: Tag)
    requires Enabled(s, a) && (a.RetractFlush? || a.Leave? || a.StageFlush?)
    requires FidsUsed(s) && Registered(s, a.r) && EntryOk(s, s.rpcs[a.r].tag) && (t in s.sess.tags ==> WaitsOk(s, t))
    ensures Evolves(s, Do(s, a), t)
  {
    match a
    case RetractFlush(r) => RetractEvolves(s, r, t);
    case StageFlush(r, f) => StageEvolves(s, r, f, t);
    case Leave(r, how) => LeaveEvolves(s, r, how, t);
  }

  lemma BuildEvolves(s: Sys, a: Action, t: Tag)
    requires FateInv(s) && Enabled(s, a) && (a.BuildOp? || a.BuildOwnerless?)
    requires t in s.sess.tags ==> WaitsOk(s, t)
    ensures Evolves(s, Do(s, a), t)
  {
    if a.BuildOp? { L.BuildAdds(s, a.b, a.t, a.async); }
  }

  lemma TakeBackEvolves(s: Sys, x: Tag, t: Tag)
    requires Enabled(s, TakeBack(x)) && (t in s.sess.tags ==> WaitsOk(s, t))
    requires EntryOk(s, x)
    ensures Evolves(s, DoTakeBack(s, x), t)
  {
  }

  lemma OtherEvolves(s: Sys, a: Action, t: Tag)
    requires Enabled(s, a) && (t in s.sess.tags ==> WaitsOk(s, t))
    requires a.Refuse? || a.Push? || a.ServerTake? || a.ServerAnswer? || a.MarkDead? || a.DeadReturn?
    ensures Evolves(s, Do(s, a), t)
  {
  }

  lemma StepEvolves(s: Sys, u: Sys, a: Action, t: Tag)
    requires SysInv(s) && Enabled(s, a) && u == Do(s, a) && (t in s.sess.tags ==> WaitsOk(s, t))
    ensures Evolves(s, u, t)
  {
    if a.Demux? {
      D.HeadViewed(s);
      D.DemuxOutcome(s);
      DemuxEvolves(s, u, t);
    } else if a.RetractFlush? || a.Leave? || a.StageFlush? {
      assert Registered(s, a.r) && EntryOk(s, s.rpcs[a.r].tag);
      FlushEvolves(s, a, t);
    } else if a.BuildOp? || a.BuildOwnerless? {
      BuildEvolves(s, a, t);
    } else if a.TakeBack? {
      assert EntryOk(s, a.t);
      TakeBackEvolves(s, a.t, t);
    } else {
      OtherEvolves(s, a, t);
    }
  }

  lemma NextWaits(s: Sys, u: Sys, a: Action)
    requires SysInv(s) && WaitsInv(s) && Enabled(s, a) && u == Do(s, a)
    ensures WaitsInv(u)
  {
    forall t | t in u.sess.tags ensures WaitsOk(u, t) { StepEvolves(s, u, a, t); }
  }

  lemma {:induction false} RunWaits(run: seq<Sys>, acts: seq<Action>, i: nat)
    requires IsRun(run, acts) && i < |run|
    ensures WaitsInv(run[i])
  {
    if i > 0 {
      RunWaits(run, acts, i - 1);
      T.RunInv(run, acts, i - 1);
      assert Follows(run, acts, i - 1);
      NextWaits(run[i - 1], run[i], acts[i - 1]);
    }
  }

  // ---------------------------------------------------------------------------
  // When a fid is busy.
  // ---------------------------------------------------------------------------

  /** The entry's op names the fid, as the one it acts on or the one it will bind. */
  predicate Names(e: Entry, fid: Fid) { !e.kind.Flush? && (e.fid == fid || e.newFid == fid) }

  /** Somebody waits for an op that names `fid`, or a Tclunk that names it is in flight. */
  ghost predicate Wanted(s: Sys, fid: Fid) {
    || (exists r :: r in s.rpcs && s.rpcs[r].tag in s.sess.tags && Names(s.sess.tags[s.rpcs[r].tag], fid))
    || (exists t :: t in s.sess.tags && s.sess.tags[t].kind.Clunk? && Names(s.sess.tags[t], fid))
  }

  lemma LiveMeans(s: Sys, t: Tag)
    requires !s.dead && t in s.sess.tags && EntryOk(s, t) && WaitsOk(s, t) && !s.sess.tags[t].kind.Flush?
    ensures Live(s.sess.tags[t]) <==> s.sess.tags[t].owner.Some? || s.sess.tags[t].kind.Clunk?
  {
  }

  lemma BusyIsWanted(s: Sys, fid: Fid)
    requires AllRegistered(s) && EntriesOk(s) && WaitsInv(s) && !s.dead && Busy(s.sess, fid)
    ensures Wanted(s, fid)
  {
    var t :| t in s.sess.tags && Live(s.sess.tags[t]) && (s.sess.tags[t].fid == fid || s.sess.tags[t].newFid == fid);
    assert EntryOk(s, t) && Names(s.sess.tags[t], fid);
    LiveMeans(s, t);
    if s.sess.tags[t].owner.Some? { assert Registered(s, s.sess.tags[t].owner.value); }
  }

  lemma WantedIsBusy(s: Sys, fid: Fid)
    requires AllRegistered(s) && EntriesOk(s) && WaitsInv(s) && !s.dead && Wanted(s, fid)
    ensures Busy(s.sess, fid)
  {
    if r :| r in s.rpcs && s.rpcs[r].tag in s.sess.tags && Names(s.sess.tags[s.rpcs[r].tag], fid) {
      assert Registered(s, r) && EntryOk(s, s.rpcs[r].tag);
      LiveMeans(s, s.rpcs[r].tag);
    } else {
      var t :| t in s.sess.tags && s.sess.tags[t].kind.Clunk? && Names(s.sess.tags[t], fid);
      assert EntryOk(s, t);
      LiveMeans(s, t);
    }
  }

  /** On a live session a fid is busy exactly while a waiting thread's op, or a Tclunk, names it: it stops
      being busy when the last of them is answered, cancelled or left behind, and not before. */
  lemma BusyMeansWanted(run: seq<Sys>, acts: seq<Action>, i: nat, fid: Fid)
    requires IsRun(run, acts) && i < |run| && !run[i].dead
    ensures Busy(run[i].sess, fid) <==> Wanted(run[i], fid)
  {
    T.RunInv(run, acts, i);
    RunWaits(run, acts, i);
    if Busy(run[i].sess, fid) { BusyIsWanted(run[i], fid); }
    if Wanted(run[i], fid) { WantedIsBusy(run[i], fid); }
  }

  /** The fid an action needs to itself: a Tclunk's, a walk's destination, an exclusive op's. */
  function AloneOn(a: Action): set<Fid> {
    match a
    case BuildOp(BWalk(_, _, dst, _), _, _) => if dst == NOFID then {} else {dst}
    case BuildOp(BClunk(fid), _, _) => {fid}
    case BuildOp(BPlain(_, fid, exclusive), _, _) => if exclusive then {fid} else {}
    case BuildOwnerless(fid, _) => {fid}
    case _ => {}
  }

  /** The fid an action acts on. */
  function ActsOn(a: Action): set<Fid> {
    match a
    case BuildOp(BWalk(_, src, _, _), _, _) => {src}
    case BuildOp(BClunk(fid), _, _) => {fid}
    case BuildOp(BPlain(_, fid, _), _, _) => {fid}
    case BuildOwnerless(fid, _) => {fid}
    case _ => {}
  }

  /** An op acts only on a fid that the server has bound for the client, a Tclunk never on the root; a walk's
      destination has never been bound. */
  lemma OpsActOnBoundFids(run: seq<Sys>, acts: seq<Action>, i: nat, fid: Fid)
    requires IsRun(run, acts) && i < |acts|
    ensures fid in ActsOn(acts[i]) ==> fid in run[i].sess.bound
    ensures fid in AloneOn(acts[i]) - ActsOn(acts[i]) ==>
        fid !in run[i].sess.bound && fid !in run[i].used && fid in run[i + 1].used
    ensures (acts[i].BuildOp? && acts[i].b.BClunk?) || acts[i].BuildOwnerless? ==>
        run[i].sess.rootFid !in ActsOn(acts[i])
  {
    assert Follows(run, acts, i);
  }

  /** An op that needs its fid to itself is sent only when no waiting thread's op names the fid. */
  lemma ExclusiveIsAlone(run: seq<Sys>, acts: seq<Action>, i: nat, fid: Fid, r: nat)
    requires IsRun(run, acts) && i < |acts| && fid in AloneOn(acts[i]) && r in run[i].rpcs
    ensures run[i].rpcs[r].tag in run[i].sess.tags && !Names(run[i].sess.tags[run[i].rpcs[r].tag], fid)
  {
    T.RunInv(run, acts, i);
    assert Follows(run, acts, i);
    assert Registered(run[i], r);
    BusyMeansWanted(run, acts, i, fid);
  }

  /** The ops in flight, and those among them that hold a slot for a fid. */
  ghost function InFlight(s: Session): set<Tag> { set x | x in s.tags && !s.tags[x].kind.Flush? }

  ghost function ToBind(s: Session): set<Tag> { set x | x in s.tags && s.tags[x].holdsSlot }

  /** The op share and the tags have room for one more op, on tag `t`. */
  ghost predicate RoomFor(s: Session, t: Tag) {
    && |InFlight(s)| < s.cap.opsMax
    && t < s.cap.tagLimit && t !in s.tags && forall x: Tag :: x < t ==> x in s.tags
  }

  /** What an op asks of its fids, said of what is bound and what is wanted. */
  ghost predicate FidsAllow(s: Sys, b: Build) {
    match b
    case BWalk(kind, src, dst, _) =>
      && src in s.sess.bound && (kind.Walk? || kind.WalkGetattr?)
      && if dst == NOFID then kind.WalkGetattr?
         else && dst !in s.sess.bound && dst !in s.used && dst != s.sess.rootFid && !Wanted(s, dst)
              && |s.sess.bound| + |ToBind(s.sess)| < s.sess.cap.maxFids
    case BClunk(fid) => fid in s.sess.bound && fid != s.sess.rootFid && !Wanted(s, fid)
    case BPlain(_, fid, exclusive) => fid in s.sess.bound && (exclusive ==> !Wanted(s, fid))
  }

  /** The gates refuse no more than they must: on a live session an op is admitted exactly when there is room
      for it and its fids allow it. */
  lemma AdmittedWhen(run: seq<Sys>, acts: seq<Action>, i: nat, b: Build, t: Tag, async: bool)
    requires IsRun(run, acts) && i < |run| && !run[i].dead
    ensures Enabled(run[i], BuildOp(b, t, async)) <==> RoomFor(run[i].sess, t) && FidsAllow(run[i], b)
  {
    assert Ops(run[i].sess.tags) == InFlight(run[i].sess) && Holders(run[i].sess.tags) == ToBind(run[i].sess);
    match b
    case BWalk(_, _, dst, _) => BusyMeansWanted(run, acts, i, dst);
    case BClunk(fid) => BusyMeansWanted(run, acts, i, fid);
    case BPlain(_, fid, _) => BusyMeansWanted(run, acts, i, fid);
  }

  // ---------------------------------------------------------------------------
  // An rpc's op is the one it was built for.
  // ---------------------------------------------------------------------------

  /** `e` is the op that `b` asked for. */
  predicate IsOp(b: Build, e: Entry) {
    match b
    case BWalk(kind, src, dst, nwname) => e.kind == kind && e.fid == src && e.newFid == dst && e.walkNwname == nwname
    case BClunk(fid) => e.kind.Clunk? && e.fid == fid && e.newFid == fid
    case BPlain(code, fid, _) => e.kind == Plain(code) && e.fid == fid && e.newFid == fid
  }

  lemma EndRpc(s: Sys, a: Action, r: nat)
    requires Enabled(s, a) && (a.TakeBack? || a.Leave? || a.RetractFlush? || a.StageFlush?) && r in Do(s, a).rpcs
    ensures var u := Do(s, a); r in s.rpcs && s.rpcs[r].tag == u.rpcs[r].tag && s.rpcs[r].async == u.rpcs[r].async
  {
  }

  lemma OtherRpc(s: Sys, a: Action, r: nat)
    requires Enabled(s, a) && !a.Demux? && !a.TakeBack? && !a.Leave? && !a.RetractFlush? && !a.StageFlush?
    requires r in Do(s, a).rpcs
    ensures var u := Do(s, a);
      || (r in s.rpcs && s.rpcs[r].tag == u.rpcs[r].tag && s.rpcs[r].async == u.rpcs[r].async)
      || (a.BuildOp? && r == s.nextRpc && u.rpcs[r].tag == a.t && u.rpcs[r].async == a.async)
  {
  }

  /** A registered rpc was registered before with the same tag, or has just been built. */
  lemma RpcStep(s: Sys, u: Sys, a: Action, r: nat)
    requires SysInv(s) && Enabled(s, a) && u == Do(s, a) && r in u.rpcs
    ensures (r in s.rpcs && s.rpcs[r].tag == u.rpcs[r].tag && s.rpcs[r].async == u.rpcs[r].async)
      || (a.BuildOp? && r == s.nextRpc && u.rpcs[r].tag == a.t && u.rpcs[r].async == a.async)
  {
    if a.Demux? {
      D.HeadViewed(s);
      D.DemuxOutcome(s);
      O.StillWaits(s, u, r);
    } else if a.TakeBack? || a.Leave? || a.RetractFlush? || a.StageFlush? {
      EndRpc(s, a, r);
    } else {
      OtherRpc(s, a, r);
    }
  }

  lemma BuiltIsOp(s: Sys, b: Build, t: Tag, async: bool)
    requires FateInv(s) && Enabled(s, BuildOp(b, t, async))
    ensures var u := DoBuild(s, b, t, async); t in u.sess.tags && IsOp(b, u.sess.tags[t])
  {
    L.BuildAdds(s, b, t, async);
  }

  /** Over every run a registered rpc holds the tag it was built on, and the entry there, from which its
      request was made, is the op it was built for. */
  lemma {:induction false} OpIsAsBuilt(run: seq<Sys>, acts: seq<Action>, n: nat, r: nat) returns (k: nat)
    requires IsRun(run, acts) && n < |run| && r in run[n].rpcs
    ensures k < n && acts[k].BuildOp? && run[k].nextRpc == r
    ensures acts[k].t == run[n].rpcs[r].tag && acts[k].async == run[n].rpcs[r].async
    ensures acts[k].t in run[n].sess.tags && IsOp(acts[k].b, run[n].sess.tags[acts[k].t])
  {
    var m := n - 1;
    assert Follows(run, acts, m);
    T.RunInv(run, acts, m);
    T.RunInv(run, acts, n);
    RunWaits(run, acts, m);
    RpcStep(run[m], run[n], acts[m], r);
    assert Registered(run[n], r);
    if r in run[m].rpcs {
      k := OpIsAsBuilt(run, acts, m, r);
      StepEvolves(run[m], run[n], acts[m], run[n].rpcs[r].tag);
    } else {
      k := m;
      BuiltIsOp(run[m], acts[m].b, acts[m].t, acts[m].async);
    }
  }

  // ---------------------------------------------------------------------------
  // A fate has its cause.
  // ---------------------------------------------------------------------------

  /** What a step does to rpc `r`, registered before it, said of the action and of the reply it reads. */
  ghost predicate Causes(s: Sys, a: Action, r: nat, how: Fate)
    requires r in s.rpcs
  {
    match how
    case Answered => a.Demux? && |s.s2c| > 0 && s.s2c[0].req.op == s.rpcs[r].op
    case Cancelled => a.Demux? && |s.s2c| > 0 && IsRflush(s.s2c[0]) && s.s2c[0].req.oldtag == s.rpcs[r].tag
    case Left => a.Leave? && a.r == r
    case NeverSent => a.TakeBack? && a.t == s.rpcs[r].tag
    case Died => (a.MarkDead? && s.rpcs[r].async) || (a.DeadReturn? && a.r == r)
  }

  lemma DemuxCauses(s: Sys, u: Sys, r: nat, how: Fate)
    requires SysInv(s) && |s.s2c| > 0 && u == DoDemux(s) && r in s.rpcs
    ensures r in u.fate && u.fate[r] == how <==> Causes(s, Demux, r, how)
  {
    T.DemuxEnds(s, u, r);
    D.HeadViewed(s);
    D.DemuxOutcome(s);
    HeadCauses(s, u, r, how);
  }

  lemma HeadCauses(s: Sys, u: Sys, r: nat, how: Fate)
    requires D.HeadView(s) && FateInv(s) && u == D.Outcome(s) && r in s.rpcs && T.EndsRight(s, u, r)
    ensures r in u.fate && u.fate[r] == how <==> Causes(s, Demux, r, how)
  {
  }

  lemma OtherCauses(s: Sys, a: Action, r: nat, how: Fate)
    requires FateInv(s) && Enabled(s, a) && !a.Demux? && Registered(s, r)
    requires a.TakeBack? ==>
        var e := s.sess.tags[a.t]; e.owner.Some? ==> e.owner.value in s.rpcs && s.rpcs[e.owner.value].tag == a.t
    ensures r in Do(s, a).fate && Do(s, a).fate[r] == how <==> Causes(s, a, r, how)
  {
  }

  /** Over every run a registered rpc gets a fate exactly by what the fate says: answered by its own reply,
      cancelled by the Rflush that names its tag, left by its owner, never sent when its frame is taken
      back, dead with the session. */
  lemma FateHasCause(run: seq<Sys>, acts: seq<Action>, i: nat, r: nat, how: Fate)
    requires IsRun(run, acts) && i < |acts| && r in run[i].rpcs
    ensures r in run[i + 1].fate && run[i + 1].fate[r] == how <==> Causes(run[i], acts[i], r, how)
  {
    T.RunInv(run, acts, i);
    assert Follows(run, acts, i);
    var s, a := run[i], acts[i];
    assert Registered(s, r);
    if a.Demux? {
      DemuxCauses(s, run[i + 1], r, how);
    } else {
      assert a.TakeBack? && s.sess.tags[a.t].owner.Some? ==> Registered(s, s.sess.tags[a.t].owner.value);
      OtherCauses(s, a, r, how);
    }
  }

  // ---------------------------------------------------------------------------
  // Waiting is never in vain.
  // ---------------------------------------------------------------------------

  /** The wire or the server can take a step now. */
  ghost predicate CanServe(s: Sys) {
    || Enabled(s, ServerTake) || Enabled(s, Demux)
    || exists q :: Enabled(s, ServerAnswer(q, RError, 0))
  }

  /** While an op is on the wire somebody other than its owner can move: the wire, the server or a reader. */
  lemma SomethingServes(run: seq<Sys>, acts: seq<Action>, i: nat, r: nat)
    requires IsRun(run, acts) && i < |run| && r in run[i].rpcs && run[i].rpcs[r].tag !in run[i].unsent
    ensures CanServe(run[i])
  {
    O.WaitersAreOwed(run, acts, i);
    var s := run[i];
    assert O.Owed(s, s.rpcs[r].tag);
    if q :| q in s.pend && q.tag == s.rpcs[r].tag { assert Enabled(s, ServerAnswer(q, RError, 0)); }
  }
}
