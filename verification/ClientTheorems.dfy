/** What holds over every run of the 9P client against a server that conforms to flush(5). */
module ClientTheorems {
  import opened SessionSpec
  import SI = SessionInv
  import opened ClientRun
  import opened ClientInv
  import W = ClientWire
  import L = ClientLocal
  import D = ClientDemux

  /** The actions of an op's own thread before it waits. */
  lemma SendStepKeeps(s: Sys, a: Action)
    requires SysInv(s) && Enabled(s, a) && (a.BuildOp? || a.BuildOwnerless? || a.Refuse? || a.Push? || a.TakeBack?)
    ensures SysInv(Do(s, a))
  {
    match a
    case BuildOp(b, t, async) => L.BuildKeeps(s, b, t, async);
    case BuildOwnerless(fid, t) => L.BuildOwnerlessKeeps(s, fid, t);
    case Refuse => L.RefuseKeeps(s);
    case Push(t) => L.PushKeeps(s, t);
    case TakeBack(t) => L.TakeBackKeeps(s, t);
  }

  /** The actions that interrupt, abandon or kill. */
  lemma EndStepKeeps(s: Sys, a: Action)
    requires SysInv(s) && Enabled(s, a)
    requires a.StageFlush? || a.RetractFlush? || a.Leave? || a.MarkDead? || a.DeadReturn?
    ensures SysInv(Do(s, a))
  {
    match a
    case StageFlush(r, f) => L.StageKeeps(s, r, f);
    case RetractFlush(r) => L.RetractKeeps(s, r);
    case Leave(r, how) => L.LeaveKeeps(s, r, how);
    case MarkDead => L.MarkDeadKeeps(s);
    case DeadReturn(r) => L.DeadReturnKeeps(s, r);
  }

  lemma StepKeeps(s: Sys, a: Action)
    requires SysInv(s) && Enabled(s, a)
    ensures SysInv(Do(s, a))
  {
    if a.BuildOp? || a.BuildOwnerless? || a.Refuse? || a.Push? || a.TakeBack? {
      SendStepKeeps(s, a);
    } else if a.ServerTake? {
      ServerTakeKeeps(s);
    } else if a.ServerAnswer? {
      ServerAnswerKeeps(s, a.q, a.rtype, a.nwqid);
    } else if a.Demux? {
      D.DemuxKeeps(s);
    } else {
      EndStepKeeps(s, a);
    }
  }

  lemma ServerTakeKeeps(s: Sys)
    requires SysInv(s) && |s.c2s| > 0
    ensures SysInv(DoServerTake(s))
  {
    W.TakeKeepsWire(s);
    L.SameTablesKeep(s, DoServerTake(s));
  }

  lemma ServerAnswerKeeps(s: Sys, q: Req, rtype: ReplyType, nwqid: nat)
    requires SysInv(s) && q in s.pend && Conforms(q, rtype, nwqid)
    ensures SysInv(DoServerAnswer(s, q, rtype, nwqid))
  {
    W.AnswerKeepsWire(s, q, rtype, nwqid);
    L.SameTablesKeep(s, DoServerAnswer(s, q, rtype, nwqid));
  }

  lemma {:induction false} RunInv(run: seq<Sys>, acts: seq<Action>, i: nat)
    requires IsRun(run, acts) && i < |run|
    ensures SysInv(run[i])
  {
    if i == 0 {
      InitInv(run[0]);
    } else {
      RunInv(run, acts, i - 1);
      assert Follows(run, acts, i - 1);
      StepKeeps(run[i - 1], acts[i - 1]);
    }
  }

  /** What a demux step of a run does. */
  lemma AtDemux(run: seq<Sys>, acts: seq<Action>, i: nat)
    requires IsRun(run, acts) && i < |acts| && acts[i].Demux?
    ensures |run[i].s2c| > 0 && run[i + 1] == DoDemux(run[i])
  {
    assert Follows(run, acts, i);
  }

  // ---------------------------------------------------------------------------
  // Reply attribution.
  // ---------------------------------------------------------------------------

  /** Over every run a free tag has no request and no reply anywhere in flight, no two messages
      in flight carry one tag, and every message is the request of the op that holds its tag. */
  lemma FreeTagsAreQuiet(run: seq<Sys>, acts: seq<Action>, i: nat, t: Tag)
    requires IsRun(run, acts) && i < |run|
    ensures t !in run[i].sess.tags || t in run[i].unsent ==> Quiet(run[i], t)
    ensures OnePerTag(run[i]) && AllAttributed(run[i])
  {
    RunInv(run, acts, i);
    if t !in run[i].sess.tags || t in run[i].unsent { W.UnsentIsQuiet(run[i], t); }
  }

  /** Rpc `r` ends in this step. */
  ghost predicate Ends(s: Sys, u: Sys, r: nat, how: Fate) {
    r in s.rpcs && r !in u.rpcs && r in u.fate && u.fate[r] == how
  }

  /**
   Over every run, the frame a demux applies to an rpc answers that rpc's own op; an rpc is
   cancelled only by the Rflush of a Tflush that named its own tag while its op held it; and a
   reply never ends more than the one rpc, nor any rpc in another way.
   */
  lemma RepliesReachTheirOp(run: seq<Sys>, acts: seq<Action>, i: nat, r: nat)
    requires IsRun(run, acts) && i < |acts| && acts[i].Demux? && r in run[i].rpcs
    ensures |run[i].s2c| > 0 && EndsRight(run[i], run[i + 1], r)
    ensures run[i].s2c[0].req.op == run[i].rpcs[r].op ==> run[i].s2c[0].req.tag == run[i].rpcs[r].tag
  {
    RunInv(run, acts, i);
    AtDemux(run, acts, i);
    DemuxEnds(run[i], run[i + 1], r);
  }

  lemma DemuxEnds(s: Sys, u: Sys, r: nat)
    requires SysInv(s) && |s.s2c| > 0 && r in s.rpcs && u == DoDemux(s)
    ensures EndsRight(s, u, r) && (s.s2c[0].req.op == s.rpcs[r].op ==> s.s2c[0].req.tag == s.rpcs[r].tag)
  {
    D.HeadViewed(s);
    assert Registered(s, r);
    SameOpSameTag(s, r);
    D.DemuxOutcome(s);
    DemuxEndsView(s, u, r);
  }

  /** The head of the stream ends `r` exactly when it bears its tag, or is the Rflush for it. */
  ghost predicate EndsRight(s: Sys, u: Sys, r: nat)
    requires |s.s2c| > 0 && r in s.rpcs
  {
    var h := s.s2c[0]; var p := s.rpcs[r];
    && (Ends(s, u, r, Answered) <==> h.req.op == p.op)
    && (Ends(s, u, r, Cancelled) <==> IsRflush(h) && h.req.oldtag == p.tag)
    && (r !in u.rpcs ==> Ends(s, u, r, Answered) || Ends(s, u, r, Cancelled))
  }

  lemma SameOpSameTag(s: Sys, r: nat)
    requires D.HeadView(s) && SI.OpIdsDistinct(s.sess) && Registered(s, r)
    ensures s.s2c[0].req.op == s.rpcs[r].op <==> s.s2c[0].req.tag == s.rpcs[r].tag
  {
  }

  lemma DemuxEndsView(s: Sys, u: Sys, r: nat)
    requires D.HeadView(s) && Registered(s, r) && u == D.Outcome(s)
    requires s.s2c[0].req.op == s.rpcs[r].op <==> s.s2c[0].req.tag == s.rpcs[r].tag
    ensures EndsRight(s, u, r)
  {
    if D.WayOf(s).Cancels? { CancelEndsView(s, u, r); } else { AnswerEndsView(s, u, r); }
  }

  lemma AnswerEndsView(s: Sys, u: Sys, r: nat)
    requires D.HeadView(s) && Registered(s, r) && u == D.Outcome(s) && !D.WayOf(s).Cancels?
    requires s.s2c[0].req.op == s.rpcs[r].op <==> s.s2c[0].req.tag == s.rpcs[r].tag
    ensures EndsRight(s, u, r)
  {
  }

  lemma CancelEndsView(s: Sys, u: Sys, r: nat)
    requires D.HeadView(s) && Registered(s, r) && u == D.Outcome(s) && D.WayOf(s).Cancels?
    requires s.s2c[0].req.op == s.rpcs[r].op <==> s.s2c[0].req.tag == s.rpcs[r].tag
    ensures EndsRight(s, u, r)
  {
  }

  // ---------------------------------------------------------------------------
  // The client never fails closed on a conforming server.
  // ---------------------------------------------------------------------------

  /** Over every run a reply never kills the session, and on a live session the one frame no
      mechanism accounts for is a Tflush answered with an error. */
  lemma ConformingRepliesAreTaken(run: seq<Sys>, acts: seq<Action>, i: nat)
    requires IsRun(run, acts) && i < |acts| && acts[i].Demux? && !run[i].dead
    ensures |run[i].s2c| > 0
    ensures var s := run[i]; var u := run[i + 1]; var h := s.s2c[0];
      && !u.dead
      && (u.stray > s.stray <==> h.req.kind.Flush? && h.rtype == RError)
  {
    RunInv(run, acts, i);
    AtDemux(run, acts, i);
    D.HeadViewed(run[i]);
    D.DemuxOutcome(run[i]);
    TakenView(run[i], run[i + 1]);
  }

  lemma TakenView(s: Sys, u: Sys)
    requires D.HeadView(s) && !s.dead && u == D.Outcome(s)
    ensures var h := s.s2c[0];
      !u.dead && (u.stray > s.stray <==> h.req.kind.Flush? && h.rtype == RError)
  {
  }

  // ---------------------------------------------------------------------------
  // flush(5).
  // ---------------------------------------------------------------------------

  /** A fate is final: over every run an rpc that was answered is never cancelled later, and the
      other way round. */
  lemma {:induction false} FatesAreFinal(run: seq<Sys>, acts: seq<Action>, i: nat, j: nat, r: nat)
    requires IsRun(run, acts) && i <= j < |run| && r in run[i].fate
    ensures r in run[j].fate && run[j].fate[r] == run[i].fate[r] && r !in run[j].rpcs
    decreases j - i
  {
    RunInv(run, acts, i);
    if i < j {
      assert Follows(run, acts, i);
      StepKeepsFate(run[i], acts[i], r);
      FatesAreFinal(run, acts, i + 1, j, r);
    }
  }

  /** Only registered rpcs and the next new one can be given a fate. */
  lemma StepKeepsFate(s: Sys, a: Action, r: nat)
    requires SysInv(s) && Enabled(s, a) && r in s.fate
    ensures r in Do(s, a).fate && Do(s, a).fate[r] == s.fate[r]
  {
    if a.Demux? {
      D.HeadViewed(s);
      D.DemuxOutcome(s);
      DemuxKeepsFate(s, DoDemux(s), r);
    } else if a.TakeBack? {
      var e := s.sess.tags[a.t];
      assert e.owner.Some? ==> e.owner.value in s.rpcs;
    } else {
      OtherKeepsFate(s, a, r);
    }
  }

  lemma OtherKeepsFate(s: Sys, a: Action, r: nat)
    requires FateInv(s) && Enabled(s, a) && r in s.fate && !a.Demux? && !a.TakeBack?
    ensures r in Do(s, a).fate && Do(s, a).fate[r] == s.fate[r]
  {
  }

  lemma DemuxKeepsFate(s: Sys, u: Sys, r: nat)
    requires D.HeadView(s) && FateInv(s) && r in s.fate && u == D.Outcome(s)
    ensures r in u.fate && u.fate[r] == s.fate[r]
  {
  }

  /** The tag of an op whose Tflush is on the wire. */
  ghost predicate Reserved(s: Sys, t: Tag, f: Tag) {
    && t in s.sess.tags && s.sess.tags[t].awaitingFlush
    && f in s.sess.tags && s.sess.tags[f].kind.Flush? && s.sess.tags[f].flushOldtag == t && f !in s.unsent
  }

  /** The tag of op `id`, reserved for an Rflush that may or may not still come. */
  ghost predicate Held(s: Sys, t: Tag, id: nat) {
    && t in s.sess.tags
    && var e := s.sess.tags[t];
    && e.opId == id && e.awaitingFlush && !e.kind.Flush?
    && (e.owner.Some? ==> e.owner.value in s.rpcs && s.rpcs[e.owner.value].flushing && s.rpcs[e.owner.value].tag == t)
  }

  /** This step reads the Rflush that names `t`. */
  ghost predicate ReadsRflush(s: Sys, a: Action, t: Tag) {
    a.Demux? && |s.s2c| > 0 && IsRflush(s.s2c[0]) && s.s2c[0].req.oldtag == t
  }

  /**
   Once a Tflush is on the wire its victim's tag stays with the same op for as long as no Rflush
   that names it is read, whatever else happens: a late reply, an error in answer to the Tflush, the
   owner leaving, the session dying.
   */
  lemma FlushedTagIsReserved(run: seq<Sys>, acts: seq<Action>, i: nat, j: nat, t: Tag, f: Tag)
    requires IsRun(run, acts) && i <= j < |run| && Reserved(run[i], t, f)
    requires forall k | i <= k < j :: !ReadsRflush(run[k], acts[k], t)
    ensures t in run[j].sess.tags && run[j].sess.tags[t].awaitingFlush
    ensures run[j].sess.tags[t].opId == run[i].sess.tags[t].opId
  {
    RunInv(run, acts, i);
    ReservedIsHeld(run[i], t, f);
    HeldRun(run, acts, i, j, t, run[i].sess.tags[t].opId);
  }

  /** And the Rflush frees it, with the tag of the Tflush. */
  lemma RflushFreesTags(run: seq<Sys>, acts: seq<Action>, i: nat, t: Tag)
    requires IsRun(run, acts) && i < |acts| && ReadsRflush(run[i], acts[i], t)
    ensures t in run[i].sess.tags && run[i].sess.tags[t].awaitingFlush
    ensures run[i + 1].sess.tags == run[i].sess.tags - {t, run[i].s2c[0].req.tag}
  {
    RunInv(run, acts, i);
    AtDemux(run, acts, i);
    D.HeadViewed(run[i]);
    D.DemuxOutcome(run[i]);
    CancelsFree(run[i], run[i + 1]);
  }

  lemma CancelsFree(s: Sys, u: Sys)
    requires D.HeadView(s) && IsRflush(s.s2c[0]) && u == D.Outcome(s)
    ensures var t := s.s2c[0].req.oldtag;
      t in s.sess.tags && s.sess.tags[t].awaitingFlush && u.sess.tags == s.sess.tags - {t, s.s2c[0].req.tag}
  {
  }

  lemma {:induction false} HeldRun(run: seq<Sys>, acts: seq<Action>, i: nat, j: nat, t: Tag, id: nat)
    requires IsRun(run, acts) && i <= j < |run| && Held(run[i], t, id)
    requires forall k | i <= k < j :: !ReadsRflush(run[k], acts[k], t)
    ensures Held(run[j], t, id)
    decreases j - i
  {
    if i < j {
      RunInv(run, acts, i);
      assert Follows(run, acts, i);
      HeldNext(run[i], run[i + 1], acts[i], t, id);
      HeldRun(run, acts, i + 1, j, t, id);
    }
  }

  /** An owner that still waits knows its Tflush left. */
  lemma ReservedIsHeld(s: Sys, t: Tag, f: Tag)
    requires SI.FlushLinks(s.sess) && AllRegistered(s) && Reserved(s, t, f)
    ensures Held(s, t, s.sess.tags[t].opId)
  {
    var e := s.sess.tags[t];
    if e.owner.Some? { assert Registered(s, e.owner.value); }
  }

  lemma HeldNext(s: Sys, u: Sys, a: Action, t: Tag, id: nat)
    requires SysInv(s) && Enabled(s, a) && u == Do(s, a) && Held(s, t, id) && !ReadsRflush(s, a, t)
    ensures Held(u, t, id)
  {
    HeldStep(s, a, t, id);
  }

  lemma HeldStep(s: Sys, a: Action, t: Tag, id: nat)
    requires SysInv(s) && Enabled(s, a) && Held(s, t, id) && !ReadsRflush(s, a, t)
    ensures Held(Do(s, a), t, id)
  {
    if a.Demux? {
      D.HeadViewed(s);
      D.DemuxOutcome(s);
      HeldDemux(s, DoDemux(s), t, id);
    } else if a.RetractFlush? || a.Leave? || a.StageFlush? {
      assert Registered(s, a.r);
      HeldFlush(s, a, t, id);
    } else if a.BuildOp? || a.BuildOwnerless? {
      HeldBuild(s, a, t, id);
    } else if a.TakeBack? {
      var e := s.sess.tags[a.t];
      assert EntryOk(s, t) && (e.owner.Some? ==> Registered(s, e.owner.value) && s.rpcs[e.owner.value].tag == a.t);
      HeldTakeBack(s, a.t, t, id);
    } else {
      HeldOther(s, a, t, id);
    }
  }

  lemma HeldDemux(s: Sys, u: Sys, t: Tag, id: nat)
    requires D.HeadView(s) && u == D.Outcome(s) && Held(s, t, id) && !(IsRflush(s.s2c[0]) && s.s2c[0].req.oldtag == t)
    ensures Held(u, t, id)
  {
    match D.WayOf(s)
    case Honoured => HeldKept(s, u, t, id);
    case Late => HeldKept(s, u, t, id);
    case Cancels => HeldCancels(s, u, t, id);
    case Staged => HeldFreed(s, u, t, id);
    case Plainly => HeldFreed(s, u, t, id);
  }

  lemma HeldKept(s: Sys, u: Sys, t: Tag, id: nat)
    requires D.HeadView(s) && u == D.Outcome(s) && Held(s, t, id) && (D.WayOf(s).Honoured? || D.WayOf(s).Late?)
    ensures Held(u, t, id)
  {
  }

  lemma HeldCancels(s: Sys, u: Sys, t: Tag, id: nat)
    requires D.HeadView(s) && u == D.Outcome(s) && Held(s, t, id) && D.WayOf(s).Cancels? && s.s2c[0].req.oldtag != t
    ensures Held(u, t, id)
  {
  }

  lemma HeldFreed(s: Sys, u: Sys, t: Tag, id: nat)
    requires D.HeadView(s) && u == D.Outcome(s) && Held(s, t, id) && (D.WayOf(s).Staged? || D.WayOf(s).Plainly?)
    ensures Held(u, t, id)
  {
  }

  lemma HeldFlush(s: Sys, a: Action, t: Tag, id: nat)
    requires Enabled(s, a) && (a.RetractFlush? || a.Leave? || a.StageFlush?) && Registered(s, a.r) && Held(s, t, id)
    ensures Held(Do(s, a), t, id)
  {
    match a
    case RetractFlush(r) => L.RetractForm(s.sess, s.rpcs[r].tag);
    case StageFlush(r, g) => L.StageForm(s, r, g);
    case Leave(r, how) => HeldLeave(s, r, how, t, id);
  }

  lemma HeldLeave(s: Sys, r: nat, how: Flushing, t: Tag, id: nat)
    requires Enabled(s, Leave(r, how)) && Registered(s, r) && Held(s, t, id)
    ensures Held(DoLeave(s, r, how), t, id)
  {
    if how.RolledBack? && !s.sess.tags[s.rpcs[r].tag].kind.Clunk? && !s.rpcs[r].flushing {
      L.RollbackForm(Unregister(s, r).sess, how.g, s.rpcs[r].tag);
    }
  }

  lemma HeldBuild(s: Sys, a: Action, t: Tag, id: nat)
    requires FateInv(s) && Enabled(s, a) && Held(s, t, id) && (a.BuildOp? || a.BuildOwnerless?)
    ensures Held(Do(s, a), t, id)
  {
    if a.BuildOp? { L.BuildAdds(s, a.b, a.t, a.async); }
  }

  lemma HeldTakeBack(s: Sys, x: Tag, t: Tag, id: nat)
    requires Enabled(s, TakeBack(x)) && Held(s, t, id) && EntryOk(s, t)
    requires var e := s.sess.tags[x]; e.owner.Some? ==> e.owner.value in s.rpcs && s.rpcs[e.owner.value].tag == x
    ensures Held(DoTakeBack(s, x), t, id)
  {
  }

  lemma HeldOther(s: Sys, a: Action, t: Tag, id: nat)
    requires Enabled(s, a) && Held(s, t, id)
    requires a.Refuse? || a.Push? || a.ServerTake? || a.ServerAnswer? || a.MarkDead? || a.DeadReturn?
    ensures Held(Do(s, a), t, id)
  {
  }

  /** A reply read while the owner's Tflush is only staged completes the op as an ordinary one:
      the Tflush is taken back and both tags are free. */
  lemma StagedFlushIsTakenBack(run: seq<Sys>, acts: seq<Action>, i: nat, r: nat)
    requires IsRun(run, acts) && i < |acts| && acts[i].Demux? && r in run[i].rpcs
    requires var s := run[i]; var p := s.rpcs[r];
      && p.tag in s.sess.tags && s.sess.tags[p.tag].awaitingFlush && !p.flushing
      && |s.s2c| > 0 && s.s2c[0].req.tag == p.tag
    ensures var s := run[i]; var u := run[i + 1]; var t := s.rpcs[r].tag; var f := s.sess.tags[t].flushTag;
      && Ends(s, u, r, Answered) && f in s.unsent
      && u.sess.tags == s.sess.tags - {t, f} && u.unsent == s.unsent - {f} && u.c2s == s.c2s
  {
    RunInv(run, acts, i);
    AtDemux(run, acts, i);
    D.HeadViewed(run[i]);
    D.DemuxOutcome(run[i]);
    assert Registered(run[i], r);
    StagedTaken(run[i], run[i + 1], r);
  }

  lemma StagedTaken(s: Sys, u: Sys, r: nat)
    requires D.HeadView(s) && Registered(s, r) && u == D.Outcome(s)
    requires s.sess.tags[s.rpcs[r].tag].awaitingFlush && !s.rpcs[r].flushing && s.s2c[0].req.tag == s.rpcs[r].tag
    ensures var t := s.rpcs[r].tag; var f := s.sess.tags[t].flushTag;
      && Ends(s, u, r, Answered) && f in s.unsent
      && u.sess.tags == s.sess.tags - {t, f} && u.unsent == s.unsent - {f} && u.c2s == s.c2s
  {
    var t := s.rpcs[r].tag;
    assert s.unsent - {t, s.sess.tags[t].flushTag} == s.unsent - {s.sess.tags[t].flushTag};
  }

  // ---------------------------------------------------------------------------
  // Async completion.
  // ---------------------------------------------------------------------------

  /**
   Over every run, each op taken over by submit_async has run its callback exactly once if it
   has ended other than by an abandon, and not at all before that or after an abandon.
   */
  lemma CallbacksFireOnce(run: seq<Sys>, acts: seq<Action>, i: nat, r: nat)
    requires IsRun(run, acts) && i < |run| && r in run[i].asyncs
    ensures var s := run[i];
      && (r in s.rpcs <==> r !in s.fate)
      && s.fired[r] == (if r in s.rpcs || s.fate[r] == Left then 0 else 1)
  {
    RunInv(run, acts, i);
  }

  /** No callback runs after an abandon returned. */
  lemma NoCallbackAfterAbandon(run: seq<Sys>, acts: seq<Action>, i: nat, j: nat, r: nat)
    requires IsRun(run, acts) && i < j < |run| && acts[i].Leave? && acts[i].r == r
    ensures run[j].fired[r] == 0 && r !in run[j].rpcs
  {
    assert Follows(run, acts, i);
    assert r in run[i + 1].fate && run[i + 1].fate[r] == Left;
    FatesAreFinal(run, acts, i + 1, j, r);
    RunInv(run, acts, j);
  }

  // ---------------------------------------------------------------------------
  // Fids.
  // ---------------------------------------------------------------------------

  /** Over every run bound fids are distinct from the fids ops in flight may bind, and together
      they fit the table. */
  lemma FidsNeverOverrun(run: seq<Sys>, acts: seq<Action>, i: nat)
    requires IsRun(run, acts) && i < |run|
    ensures var s := run[i].sess;
      && |s.bound| + |Holders(s.tags)| <= s.cap.maxFids
      && SI.ClaimsFree(s) && SI.ClaimsDistinct(s)
  {
    RunInv(run, acts, i);
  }
}
