/**
 What every session call keeps: fid slots never overrun the table and never clash, op ids name
 one tag each, and every Tflush in flight names its own reserved victim.
 */
module SessionInv {
  import opened SessionSpec
  import opened Sets

  // ---------------------------------------------------------------------------
  // The invariant.
  // ---------------------------------------------------------------------------

  /** Bound fids and reserved slots together fit the table. */
  ghost predicate SlotsFit(s: Session) {
    s.rootFid in s.bound && NOFID !in s.bound && |s.bound| + |Holders(s.tags)| <= s.cap.maxFids
  }

  /** The fid a slot holder will bind is not bound now. */
  ghost predicate ClaimsFree(s: Session) {
    forall t | t in s.tags && s.tags[t].holdsSlot ::
      && Claim(s.tags[t]) !in s.bound
      && Claim(s.tags[t]) != NOFID
      && (s.tags[t].kind.Clunk? || IsWalk(s.tags[t].kind))
  }

  /** No two slot holders will bind the same fid. */
  ghost predicate ClaimsDistinct(s: Session) {
    forall t, u | t in s.tags && u in s.tags && s.tags[t].holdsSlot && s.tags[u].holdsSlot && t != u ::
      Claim(s.tags[t]) != Claim(s.tags[u])
  }

  ghost predicate OpIdsDistinct(s: Session) {
    && (forall t | t in s.tags :: t < s.cap.tagLimit && s.tags[t].opId <= s.nextOpId)
    && (forall t, u | t in s.tags && u in s.tags && s.tags[t].opId == s.tags[u].opId :: t == u)
  }

  ghost predicate OpsFit(s: Session) {
    |Ops(s.tags)| <= s.cap.opsMax && 2 * s.cap.opsMax <= s.cap.tagLimit
  }

  /** Flushes inject into the reserved ops they cancel. */
  ghost predicate FlushLinks(s: Session) {
    forall f | f in s.tags && s.tags[f].kind.Flush? ::
      && !s.tags[f].awaitingFlush && !s.tags[f].holdsSlot
      && s.tags[f].flushOldtag in s.tags
      && var v := s.tags[s.tags[f].flushOldtag];
         v.awaitingFlush && v.flushTag == f && !v.kind.Flush?
  }

  ghost predicate FidInv(s: Session) { SlotsFit(s) && ClaimsFree(s) && ClaimsDistinct(s) }
  ghost predicate TagInv(s: Session) { OpIdsDistinct(s) && OpsFit(s) }
  ghost predicate Inv(s: Session) { FidInv(s) && TagInv(s) && FlushLinks(s) }

  /** The client's discipline: a walk's destination is no fid an op in flight may still bind. */
  ghost predicate Unclaimed(s: Session, fid: Fid) {
    forall t | t in s.tags && s.tags[t].holdsSlot :: Claim(s.tags[t]) != fid
  }

  // ---------------------------------------------------------------------------
  // How the parts follow an entry that is changed in place, dropped or added.
  // ---------------------------------------------------------------------------

  /** `e` is `o` with other flags: same op, same fids, same slot. */
  predicate SameOp(o: Entry, e: Entry) {
    e.kind == o.kind && e.fid == o.fid && e.newFid == o.newFid && e.opId == o.opId && e.holdsSlot == o.holdsSlot
  }

  lemma PutKeepsFids(s: Session, t: Tag, e: Entry)
    requires FidInv(s) && t in s.tags && SameOp(s.tags[t], e)
    ensures FidInv(Put(s, t, e))
  {
    assert Holders(s.tags[t := e]) == Holders(s.tags);
  }

  lemma PutKeepsTags(s: Session, t: Tag, e: Entry)
    requires TagInv(s) && t in s.tags && e.kind == s.tags[t].kind && e.opId == s.tags[t].opId
    ensures TagInv(Put(s, t, e))
  {
    assert Ops(s.tags[t := e]) == Ops(s.tags);
  }

  lemma ClearKeepsFids(s: Session, t: Tag)
    requires FidInv(s)
    ensures FidInv(Clear(s, t))
  {
    assert Holders(s.tags - {t}) == Holders(s.tags) - {t};
  }

  lemma ClearKeepsTags(s: Session, t: Tag)
    requires TagInv(s)
    ensures TagInv(Clear(s, t))
  {
    assert Ops(s.tags - {t}) == Ops(s.tags) - {t};
  }

  /** A new entry without a slot leaves the fid part alone. */
  lemma AddKeepsFids(s: Session, t: Tag, e: Entry)
    requires FidInv(s) && t !in s.tags && !e.holdsSlot
    ensures FidInv(Put(s, t, e))
  {
    assert Holders(s.tags[t := e]) == Holders(s.tags);
  }

  /** A new entry with a slot needs room and a fid nobody else has or will bind. */
  lemma AddHolderKeepsFids(s: Session, t: Tag, e: Entry)
    requires FidInv(s) && t !in s.tags && e.holdsSlot && SlotAvailable(s)
    requires Claim(e) !in s.bound && Claim(e) != NOFID && (e.kind.Clunk? || IsWalk(e.kind))
    requires Unclaimed(s, Claim(e))
    ensures FidInv(Put(s, t, e))
  {
    assert Holders(s.tags[t := e]) == Holders(s.tags) + {t};
  }

  lemma AddKeepsTags(s: Session, t: Tag, e: Entry)
    requires TagInv(s) && Lowest(s, t) && e.opId == s.nextOpId + 1
    requires e.kind.Flush? || OpShareHasRoom(s)
    ensures TagInv(Place(s, t, e))
  {
    AddKeepsOpIds(s, t, e);
    AddKeepsOps(s, t, e);
  }

  lemma AddKeepsOpIds(s: Session, t: Tag, e: Entry)
    requires OpIdsDistinct(s) && t !in s.tags && t < s.cap.tagLimit && e.opId == s.nextOpId + 1
    ensures OpIdsDistinct(Place(s, t, e))
  {
  }

  lemma AddKeepsOps(s: Session, t: Tag, e: Entry)
    requires OpsFit(s) && t !in s.tags && (e.kind.Flush? || OpShareHasRoom(s))
    ensures OpsFit(Place(s, t, e))
  {
    assert Ops(s.tags[t := e]) == if e.kind.Flush? then Ops(s.tags) else Ops(s.tags) + {t};
  }

  lemma AddKeepsLinks(s: Session, t: Tag, e: Entry)
    requires FlushLinks(s) && t !in s.tags && !e.kind.Flush?
    ensures FlushLinks(Put(s, t, e))
  {
  }

  // ---------------------------------------------------------------------------
  // Sends keep the invariant.
  // ---------------------------------------------------------------------------

  lemma SendWalkKeeps(s: Session, t: Tag, kind: Kind, src: Fid, dst: Fid, nwname: nat)
    requires Inv(s) && Lowest(s, t) && IsWalk(kind)
    requires if dst == NOFID then kind.WalkGetattr? && CanQuery(s, src) else CanWalk(s, src, dst) && Unclaimed(s, dst)
    ensures Inv(SendWalk(s, t, kind, src, dst, nwname))
  {
    var e := SendWalk(s, t, kind, src, dst, nwname).tags[t];
    if dst == NOFID { AddKeepsFids(s, t, e); } else { AddHolderKeepsFids(s, t, e); }
    AddKeepsTags(s, t, e);
    AddKeepsLinks(s, t, e);
  }

  lemma SendClunkKeeps(s: Session, t: Tag, fid: Fid)
    requires Inv(s) && Lowest(s, t) && CanClunk(s, fid)
    ensures Inv(SendClunk(s, t, fid))
  {
    var u := s.(bound := s.bound - {fid});
    var e := SendClunk(s, t, fid).tags[t];
    UnbindKeepsFids(s, fid);
    AddHolderKeepsFids(u, t, e);
    AddKeepsTags(u, t, e);
    AddKeepsLinks(u, t, e);
  }

  lemma UnbindKeepsFids(s: Session, fid: Fid)
    requires FidInv(s) && fid in s.bound && fid != s.rootFid
    ensures var u := s.(bound := s.bound - {fid}); FidInv(u) && SlotAvailable(u) && Unclaimed(u, fid)
  {
  }

  lemma SendPlainKeeps(s: Session, t: Tag, code: nat, fid: Fid, exclusive: bool)
    requires Inv(s) && Lowest(s, t) && CanPlain(s, fid, exclusive)
    ensures Inv(SendPlain(s, t, code, fid))
  {
    var e := Fresh(Plain(code), fid, fid, s.nextOpId + 1);
    AddKeepsFids(s, t, e);
    AddKeepsTags(s, t, e);
    AddKeepsLinks(s, t, e);
  }

  lemma SendFlushKeeps(s: Session, t: Tag, victim: Tag)
    requires Inv(s) && Lowest(s, t) && CanFlush(s, victim)
    ensures Inv(SendFlush(s, t, victim))
  {
    SendFlushFids(s, t, victim);
    SendFlushTags(s, t, victim);
    SendFlushLinks(s, t, victim);
  }

  lemma SendFlushFids(s: Session, t: Tag, victim: Tag)
    requires FidInv(s) && t !in s.tags && victim in s.tags
    ensures FidInv(SendFlush(s, t, victim))
  {
    assert Holders(SendFlush(s, t, victim).tags) == Holders(s.tags);
  }

  lemma SendFlushTags(s: Session, t: Tag, victim: Tag)
    requires TagInv(s) && Lowest(s, t) && victim in s.tags && !s.tags[victim].kind.Flush?
    ensures TagInv(SendFlush(s, t, victim))
  {
    var f := Fresh(Flush, s.rootFid, s.rootFid, s.nextOpId + 1).(flushOldtag := victim);
    AddKeepsTags(s, t, f);
    FlushMarkKeepsTags(Place(s, t, f), SendFlush(s, t, victim), t, victim);
  }

  /** The victim records its Tflush. */
  lemma FlushMarkKeepsTags(n: Session, u: Session, t: Tag, victim: Tag)
    requires TagInv(n) && victim in n.tags && u == Put(n, victim, n.tags[victim].(awaitingFlush := true, flushTag := t))
    ensures TagInv(u)
  {
    PutKeepsTags(n, victim, n.tags[victim].(awaitingFlush := true, flushTag := t));
  }

  lemma SendFlushLinks(s: Session, t: Tag, victim: Tag)
    requires FlushLinks(s) && t !in s.tags && CanFlush(s, victim)
    ensures FlushLinks(SendFlush(s, t, victim))
  {
    var r := SendFlush(s, t, victim);
    forall f | f in r.tags && r.tags[f].kind.Flush?
      ensures !r.tags[f].awaitingFlush && !r.tags[f].holdsSlot && r.tags[f].flushOldtag in r.tags
      ensures var v := r.tags[r.tags[f].flushOldtag]; v.awaitingFlush && v.flushTag == f && !v.kind.Flush?
    {
      if f != t { assert r.tags[f] == s.tags[f]; }
    }
  }

  // ---------------------------------------------------------------------------
  // Take-backs and flag changes keep the invariant.
  // ---------------------------------------------------------------------------

  /** A holder's claim always finds its slot: it is bound exactly then, and nothing else moves. */
  lemma SlotBindWorks(s: Session, t: Tag)
    requires FidInv(s) && t in s.tags && s.tags[t].holdsSlot
    ensures var (b, ok) := SlotBind(s, t, Claim(s.tags[t]));
      ok && b == Unslot(s, t).(bound := s.bound + {Claim(s.tags[t])}) && FidInv(b)
  {
    assert Holders(Unslot(s, t).tags) == Holders(s.tags) - {t};
    assert t in Holders(s.tags);
  }

  /** Binding into a slot touches neither the tags in use nor the flush links. */
  lemma SlotBindKeepsRest(s: Session, t: Tag, fid: Fid)
    requires TagInv(s) && FlushLinks(s) && t in s.tags
    ensures var b := SlotBind(s, t, fid).0; TagInv(b) && FlushLinks(b)
  {
    PutKeepsTags(s, t, s.tags[t].(holdsSlot := false));
    UnslotKeepsLinks(s, t);
  }

  lemma UnslotKeepsLinks(s: Session, t: Tag)
    requires FlushLinks(s) && t in s.tags
    ensures FlushLinks(Unslot(s, t))
  {
  }

  lemma AbortUnsentKeeps(s: Session, t: Tag)
    requires Inv(s) && (t in s.tags ==> !s.tags[t].kind.Flush?)
    ensures Inv(AbortUnsent(s, t))
  {
    ClearKeepsFids(s, t);
    ClearKeepsTags(s, t);
  }

  /** A never-sent Tclunk is taken back whole: its fid is bound again, whatever peers did since. */
  lemma RetractUnsentRebinds(s: Session, t: Tag)
    requires Inv(s) && t in s.tags && s.tags[t].kind.Clunk? && s.tags[t].holdsSlot
    requires !s.tags[t].awaitingFlush && !s.tags[t].abandoned
    ensures var (r, ok) := RetractUnsent(s, t);
      && ok && Inv(r) && r.tags == s.tags - {t}
      && r.bound == s.bound + {s.tags[t].fid} && s.tags[t].fid !in s.bound
  {
    SlotBindWorks(s, t);
    SlotBindKeepsRest(s, t, s.tags[t].fid);
    var b := SlotBind(s, t, s.tags[t].fid).0;
    ClearKeepsFids(b, t);
    ClearKeepsTags(b, t);
    assert b.tags - {t} == s.tags - {t};
  }

  /** Taking back a staged Tflush frees its tag and leaves the victim an ordinary op in flight. */
  lemma FlushUnstageKeeps(s: Session, victim: Tag)
    requires Inv(s)
    ensures var (r, ok) := FlushUnstage(s, victim); Inv(r) && (!ok ==> r == s)
  {
    var (r, ok) := FlushUnstage(s, victim);
    if ok {
      var f := s.tags[victim].flushTag;
      var c := Clear(s, f);
      var e := c.tags[victim].(awaitingFlush := false, ownerWaits := false, flushTag := 0);
      ClearKeepsFids(s, f);
      ClearKeepsTags(s, f);
      PutKeepsFids(c, victim, e);
      PutKeepsTags(c, victim, e);
      UnstageLinks(s, victim);
    }
  }

  lemma UnstageLinks(s: Session, victim: Tag)
    requires FlushLinks(s)
    ensures var (r, ok) := FlushUnstage(s, victim);
      && FlushLinks(r)
      && (ok ==> && victim in s.tags && s.tags[victim].flushTag in s.tags
                 && r.tags.Keys == s.tags.Keys - {s.tags[victim].flushTag}
                 && victim in r.tags && !r.tags[victim].awaitingFlush
                 && (forall t | t in r.tags && t != victim :: r.tags[t] == s.tags[t]))
  {
  }

  lemma FlushRollbackKeeps(s: Session, victim: Tag)
    requires Inv(s)
    ensures Inv(FlushRollback(s, victim))
  {
    FlushUnstageKeeps(s, victim);
    UnstageLinks(s, victim);
    var (r, ok) := FlushUnstage(s, victim);
    if ok { FlagsKeep(r, victim, r.tags[victim].(abandoned := true)); }
  }

  /** Changing only flags that the flush links do not read keeps the invariant. */
  lemma FlagsKeep(s: Session, t: Tag, e: Entry)
    requires Inv(s) && t in s.tags && SameOp(s.tags[t], e)
    requires var o := s.tags[t];
      e.awaitingFlush == o.awaitingFlush && e.flushTag == o.flushTag && e.flushOldtag == o.flushOldtag
    ensures Inv(Put(s, t, e))
  {
    PutKeepsFids(s, t, e);
    PutKeepsTags(s, t, e);
    FlagsKeepLinks(s, t, e);
  }

  lemma FlagsKeepLinks(s: Session, t: Tag, e: Entry)
    requires FlushLinks(s) && t in s.tags && SameOp(s.tags[t], e)
    requires var o := s.tags[t];
      e.awaitingFlush == o.awaitingFlush && e.flushTag == o.flushTag && e.flushOldtag == o.flushOldtag
    ensures FlushLinks(Put(s, t, e))
  {
  }

  // ---------------------------------------------------------------------------
  // Replies keep the invariant, whatever the server sends.
  // ---------------------------------------------------------------------------

  /** A walk with a destination that no reply has been honoured for still holds its slot. */
  ghost predicate WalkArmed(e: Entry) {
    IsWalk(e.kind) ==> (e.newFid != NOFID ==> e.holdsSlot) && (e.kind.Walk? ==> e.newFid != NOFID)
  }

  lemma ApplyKeeps(s: Session, t: Tag, r: Reply)
    requires Inv(s) && t in s.tags && WalkArmed(s.tags[t]) && !s.tags[t].kind.Flush?
    ensures Inv(Apply(s, t, r).s) && t in Apply(s, t, r).s.tags
  {
    if FullWalk(s.tags[t], r) && s.tags[t].newFid != NOFID {
      SlotBindWorks(s, t);
      SlotBindKeepsRest(s, t, s.tags[t].newFid);
    }
  }

  /** An Rflush frees its own tag and its victim's; an Rlerror frees its own tag alone. */
  lemma FlushReplyFrees(s: Session, r: Reply)
    requires FlushLinks(s) && r.tag in s.tags && s.tags[r.tag].kind.Flush?
    ensures var a := Dispatch(s, r);
      && a.boundFid == NOFID && a.s.bound == s.bound
      && a.ok == Fits(s.tags[r.tag], r)
      && a.s.tags == if !a.ok then s.tags
                     else if r.rtype.RError? then s.tags - {r.tag}
                     else s.tags - {r.tag, s.tags[r.tag].flushOldtag}
  {
    var v := s.tags[r.tag].flushOldtag;
    assert Clear(Clear(s, v), r.tag).tags == s.tags - {r.tag, v};
  }

  lemma FlushReplyKeeps(s: Session, r: Reply)
    requires Inv(s) && r.tag in s.tags && s.tags[r.tag].kind.Flush?
    ensures Inv(Dispatch(s, r).s)
  {
    var f := r.tag;
    var v := s.tags[f].flushOldtag;
    ClearPairLinks(s, f);
    if Fits(s.tags[f], r) {
      if r.rtype.RError? {
        ClearKeepsFids(s, f);
        ClearKeepsTags(s, f);
      } else {
        ClearPairKeeps(s, v, f);
      }
    }
  }

  lemma ClearPairKeeps(s: Session, v: Tag, f: Tag)
    requires FidInv(s) && TagInv(s)
    ensures FidInv(Clear(Clear(s, v), f)) && TagInv(Clear(Clear(s, v), f))
  {
    ClearKeepsFids(s, v);
    ClearKeepsTags(s, v);
    ClearKeepsFids(Clear(s, v), f);
    ClearKeepsTags(Clear(s, v), f);
  }

  lemma ClearPairLinks(s: Session, f: Tag)
    requires FlushLinks(s) && f in s.tags && s.tags[f].kind.Flush?
    ensures FlushLinks(Clear(s, f)) && FlushLinks(Clear(Clear(s, s.tags[f].flushOldtag), f))
  {
  }

  lemma DispatchKeeps(s: Session, r: Reply)
    requires Inv(s)
    requires r.tag in s.tags && !s.tags[r.tag].awaitingFlush ==> WalkArmed(s.tags[r.tag])
    ensures Inv(Dispatch(s, r).s)
  {
    if r.tag in s.tags {
      var e := s.tags[r.tag];
      if e.awaitingFlush {
        LateKeeps(s, r);
      } else if e.kind.Flush? {
        FlushReplyKeeps(s, r);
      } else {
        ApplyKeeps(s, r.tag, r);
        var a := Apply(s, r.tag, r);
        if a.ok { DoneKeeps(s, r); }
      }
    }
  }

  lemma DoneKeeps(s: Session, r: Reply)
    requires Inv(s) && r.tag in s.tags && !s.tags[r.tag].awaitingFlush && !s.tags[r.tag].kind.Flush?
    requires Inv(Apply(s, r.tag, r).s)
    ensures Inv(Clear(Apply(s, r.tag, r).s, r.tag))
  {
    var a := Apply(s, r.tag, r).s;
    ClearKeepsFids(a, r.tag);
    ClearKeepsTags(a, r.tag);
    assert r.tag in a.tags ==> !a.tags[r.tag].awaitingFlush;
    ClearPlainLinks(a, r.tag);
  }

  lemma ClearPlainLinks(s: Session, t: Tag)
    requires FlushLinks(s) && (t in s.tags ==> !s.tags[t].awaitingFlush)
    ensures FlushLinks(Clear(s, t))
  {
  }

  lemma LateKeeps(s: Session, r: Reply)
    requires Inv(s) && r.tag in s.tags && s.tags[r.tag].awaitingFlush
    ensures Inv(Dispatch(s, r).s)
  {
    var e := s.tags[r.tag];
    if e.holdsSlot && FullWalk(e, r) {
      SlotBindWorks(s, r.tag);
      SlotBindKeepsRest(s, r.tag, e.newFid);
    }
  }

  lemma DispatchFlushedKeeps(s: Session, r: Reply)
    requires Inv(s)
    requires r.tag in s.tags ==> WalkArmed(s.tags[r.tag])
    ensures Inv(DispatchFlushed(s, r).s)
  {
    if r.tag in s.tags && s.tags[r.tag].awaitingFlush {
      ApplyKeeps(s, r.tag, r);
      var a := Apply(s, r.tag, r);
      FlagsKeep(a.s, r.tag, a.s.tags[r.tag].(ownerWaits := false));
    }
  }

  // ---------------------------------------------------------------------------
  // What a reply means to the op it answers.
  // ---------------------------------------------------------------------------

  /** A well-formed reply that a request of kind `kind` for `nwname` names may get. */
  predicate MayAnswer(kind: Kind, nwname: nat, r: Reply) {
    r.intact &&
    match r.rtype
    case RError => true
    case RFor(k) => k == kind && (k.Walk? || k.WalkGetattr? ==> r.nwqid <= nwname)
  }

  /** The fid a reply gives the client: the destination of a walk of which every name was walked. */
  function Gained(kind: Kind, newFid: Fid, nwname: nat, r: Reply): set<Fid> {
    if MayAnswer(kind, nwname, r) && r.rtype.RFor? && (kind.Walk? || kind.WalkGetattr?) && r.nwqid == nwname &&
       newFid != NOFID
    then {newFid} else {}
  }

  lemma ApplyMeans(s: Session, t: Tag, r: Reply)
    requires Inv(s) && t in s.tags && WalkArmed(s.tags[t])
    ensures var a := Apply(s, t, r); var e := s.tags[t];
      && (a.ok <==> MayAnswer(e.kind, e.walkNwname, r)) && (!a.ok ==> a.s == s && !a.isError)
      && (a.ok ==> (a.isError <==> r.rtype.RError?))
      && a.s.bound == s.bound + Gained(e.kind, e.newFid, e.walkNwname, r)
      && (a.boundFid != NOFID <==> Gained(e.kind, e.newFid, e.walkNwname, r) != {})
      && (a.boundFid != NOFID ==> a.boundFid == e.newFid)
  {
    if FullWalk(s.tags[t], r) && s.tags[t].newFid != NOFID { SlotBindWorks(s, t); }
  }

  /**
   What a reply does to an op in flight, whatever the server sends.  It is taken exactly when a request
   of that kind may get it, and reported as a failure exactly when it is an Rlerror; taken or not, the
   client gains exactly the fid of a walk answered in full.  A reply that is taken frees the tag, and one
   that is not changes nothing.
   */
  lemma ReplyMeans(s: Session, r: Reply)
    requires Inv(s) && r.tag in s.tags && !s.tags[r.tag].awaitingFlush && WalkArmed(s.tags[r.tag])
    ensures var a := Dispatch(s, r); var e := s.tags[r.tag];
      && (a.ok <==> MayAnswer(e.kind, e.walkNwname, r)) && (!a.ok ==> a.s == s && !a.isError)
      && (a.ok ==> (a.isError <==> r.rtype.RError?) && r.tag !in a.s.tags)
      && a.s.bound == s.bound + Gained(e.kind, e.newFid, e.walkNwname, r)
      && (a.ok && !e.kind.Flush? ==> a.s.tags == s.tags - {r.tag})
  {
    ApplyMeans(s, r.tag, r);
    var a := Apply(s, r.tag, r);
    if a.ok && !s.tags[r.tag].kind.Flush? { assert Clear(a.s, r.tag).tags == s.tags - {r.tag}; }
  }

  /** The same of a flushed op whose owner still waits, whose tag stays reserved; the owner waits no
      longer, even for a reply that is not taken. */
  lemma FlushedReplyMeans(s: Session, r: Reply)
    requires Inv(s) && r.tag in s.tags && s.tags[r.tag].awaitingFlush && WalkArmed(s.tags[r.tag])
    ensures var a := DispatchFlushed(s, r); var e := s.tags[r.tag];
      && (a.ok <==> MayAnswer(e.kind, e.walkNwname, r))
      && (a.isError <==> a.ok && r.rtype.RError?)
      && a.s.bound == s.bound + Gained(e.kind, e.newFid, e.walkNwname, r)
      && a.s.tags.Keys == s.tags.Keys && (forall t | t in s.tags && t != r.tag :: a.s.tags[t] == s.tags[t])
      && var f := a.s.tags[r.tag]; f.opId == e.opId && f.awaitingFlush && f.flushTag == e.flushTag && !f.ownerWaits
  {
    ApplyMeans(s, r.tag, r);
  }

  /** And of one whose owner is gone: nothing is reported, and only the fid of a walk answered in full is
      kept, once. */
  lemma LateReplyMeans(s: Session, r: Reply)
    requires Inv(s) && r.tag in s.tags && s.tags[r.tag].awaitingFlush
    ensures var a := Dispatch(s, r); var e := s.tags[r.tag];
      && a.ok && !a.isError
      && a.s.bound == s.bound + if e.holdsSlot then Gained(e.kind, e.newFid, e.walkNwname, r) else {}
  {
    var e := s.tags[r.tag];
    if e.holdsSlot { if FullWalk(e, r) { SlotBindWorks(s, r.tag); } }
  }

  // ---------------------------------------------------------------------------
  // Fid slots.
  // ---------------------------------------------------------------------------

  /** A full Rwalk always binds the new fid, into the slot its Twalk reserved. */
  lemma FullWalkBinds(s: Session, r: Reply)
    requires Inv(s) && r.tag in s.tags
    requires var e := s.tags[r.tag]; e.holdsSlot && FullWalk(e, r)
    ensures var e := s.tags[r.tag]; var a := Dispatch(s, r);
      && a.ok && !a.isError && a.boundFid == e.newFid
      && e.newFid !in s.bound && a.s.bound == s.bound + {e.newFid}
      && (r.tag in a.s.tags <==> e.awaitingFlush)
  {
    SlotBindWorks(s, r.tag);
  }

  /** The session after a run of replies to one tag, and the fids those replies bound. */
  ghost function Replies(s: Session, rs: seq<Reply>): (Session, seq<Fid>)
    decreases |rs|
  {
    if rs == [] then (s, [])
    else
      var a := Dispatch(s, rs[0]);
      var (e, binds) := Replies(a.s, rs[1..]);
      (e, (if a.boundFid != NOFID then [a.boundFid] else []) + binds)
  }

  /**
   A flushed op whose owner is gone absorbs every reply: over any late or duplicate replies its
   tag stays reserved and its new fid is bound at most once, and not at all once honoured.
   */
  lemma {:induction false} LateRepliesBindOnce(s: Session, t: Tag, rs: seq<Reply>)
    requires Inv(s) && t in s.tags && s.tags[t].awaitingFlush
    requires forall r | r in rs :: r.tag == t
    ensures var (e, binds) := Replies(s, rs);
      && t in e.tags && e.tags[t].awaitingFlush && e.tags[t].opId == s.tags[t].opId
      && (binds == [] || (s.tags[t].holdsSlot && binds == [s.tags[t].newFid]))
      && (s.tags[t].holdsSlot && binds == [] ==> e == s)
    decreases |rs|
  {
    if rs != [] {
      LateStep(s, rs[0]);
      LateRepliesBindOnce(Dispatch(s, rs[0]).s, t, rs[1..]);
    }
  }

  lemma LateStep(s: Session, r: Reply)
    requires Inv(s) && r.tag in s.tags && s.tags[r.tag].awaitingFlush
    ensures var a := Dispatch(s, r); var e := s.tags[r.tag];
      && Inv(a.s) && r.tag in a.s.tags
      && a.s.tags[r.tag].awaitingFlush && a.s.tags[r.tag].opId == e.opId && a.s.tags[r.tag].newFid == e.newFid
      && (a.boundFid == NOFID ==> a.s == s)
      && (a.boundFid != NOFID ==> e.holdsSlot && a.boundFid == e.newFid && !a.s.tags[r.tag].holdsSlot)
  {
    LateKeeps(s, r);
    if s.tags[r.tag].holdsSlot && FullWalk(s.tags[r.tag], r) { SlotBindWorks(s, r.tag); }
  }

  // ---------------------------------------------------------------------------
  // A Tflush always finds a tag.
  // ---------------------------------------------------------------------------

  lemma {:induction false} InjectiveImageSize(a: set<Tag>, b: set<Tag>, m: map<Tag, Tag>)
    requires a <= m.Keys
    requires forall x | x in a :: m[x] in b
    requires forall x, y | x in a && y in a && m[x] == m[y] :: x == y
    ensures |a| <= |b|
  {
    if a != {} {
      var x :| x in a;
      InjectiveImageSize(a - {x}, b - {m[x]}, m);
    }
  }

  /** The tags below `n`. */
  function Below(n: nat): (r: set<Tag>)
    ensures |r| == n && forall t: Tag :: t in r <==> t < n
  {
    if n == 0 then {} else Below(n - 1) + {n - 1}
  }

  lemma {:induction false} LowestExists(s: Session, lo: nat, t: Tag)
    requires forall u: Tag :: u < lo ==> u in s.tags
    requires lo <= t < s.cap.tagLimit && t !in s.tags
    ensures exists l: Tag :: Lowest(s, l)
    decreases t - lo
  {
    if lo in s.tags { LowestExists(s, lo + 1, t); } else { assert Lowest(s, lo); }
  }

  /**
   Flushes never outnumber the ops they cancel, so whenever an op may be flushed a tag below the
   limit is free: only memory can refuse a Tflush.
   */
  lemma FlushFindsTag(s: Session, victim: Tag)
    requires Inv(s) && CanFlush(s, victim)
    ensures |Flushes(s.tags)| < |Ops(s.tags)|
    ensures exists t :: Lowest(s, t)
  {
    FlushesBelowOps(s, victim);
    assert s.tags.Keys == Flushes(s.tags) + Ops(s.tags);
    if Below(s.cap.tagLimit) <= s.tags.Keys { SubsetSize(Below(s.cap.tagLimit), s.tags.Keys); }
    var t :| t in Below(s.cap.tagLimit) && t !in s.tags;
    LowestExists(s, 0, t);
  }

  lemma FlushesBelowOps(s: Session, victim: Tag)
    requires FlushLinks(s) && CanFlush(s, victim)
    ensures |Flushes(s.tags)| < |Ops(s.tags)|
  {
    var m := map f | f in Flushes(s.tags) :: s.tags[f].flushOldtag;
    assert victim in Ops(s.tags);
    InjectiveImageSize(Flushes(s.tags), Ops(s.tags) - {victim}, m);
  }
}
