/** Reading a reply keeps the invariant, and hands the reply to the op it answers. */
module ClientDemux {
  import opened Options
  import opened SessionSpec
  import SI = SessionInv
  import opened ClientRun
  import opened ClientInv
  import W = ClientWire
  import L = ClientLocal

  function Head(s: Sys): Reply
    requires |s.s2c| > 0
  {
    Reply(s.s2c[0].req.tag, s.s2c[0].rtype, s.s2c[0].nwqid, true)
  }

  // ---------------------------------------------------------------------------
  // What a fitting reply does to the session.
  // ---------------------------------------------------------------------------

  /** The slot `t` holds, if it holds one, can take its fid. */
  ghost predicate SlotReady(s: Session, t: Tag) {
    t in s.tags && (s.tags[t].holdsSlot ==> Claim(s.tags[t]) !in s.bound && |s.bound| < s.cap.maxFids)
  }

  lemma SlotIsReady(s: Session, t: Tag)
    requires SI.FidInv(s) && t in s.tags
    ensures SlotReady(s, t)
  {
    if s.tags[t].holdsSlot { assert t in Holders(s.tags); }
  }

  /** The fid the server bound for this reply. */
  ghost function BoundBy(e: Entry, m: Reply): set<Fid> {
    if FullWalk(e, m) && e.newFid != NOFID then {e.newFid} else {}
  }

  /** An ordinary reply frees its tag, and binds a full walk's fid. */
  lemma DispatchDone(s: Session, m: Reply)
    requires SlotReady(s, m.tag) && !s.tags[m.tag].awaitingFlush && !s.tags[m.tag].kind.Flush?
    requires Fits(s.tags[m.tag], m) && SI.WalkArmed(s.tags[m.tag])
    ensures var a := Dispatch(s, m);
      a.ok && a.s == s.(tags := s.tags - {m.tag}, bound := s.bound + BoundBy(s.tags[m.tag], m))
  {
    assert Unslot(s, m.tag).tags - {m.tag} == s.tags - {m.tag};
  }

  /** A late reply to an op being flushed keeps the tag; a full walk not yet honoured binds. */
  lemma DispatchLate(s: Session, m: Reply)
    requires SlotReady(s, m.tag) && s.tags[m.tag].awaitingFlush
    ensures var a := Dispatch(s, m); var e := s.tags[m.tag];
      && a.ok
      && a.s == s.(tags := s.tags[m.tag := e.(holdsSlot := e.holdsSlot && !FullWalk(e, m))],
                   bound := if e.holdsSlot && FullWalk(e, m) then s.bound + {e.newFid} else s.bound)
  {
    assert s.tags[m.tag := s.tags[m.tag]] == s.tags;
  }

  /** A reply that beats the Rflush of an owner who waits is honoured; the tag stays reserved. */
  lemma DispatchHonoured(s: Session, m: Reply)
    requires SlotReady(s, m.tag) && s.tags[m.tag].awaitingFlush && !s.tags[m.tag].kind.Flush?
    requires Fits(s.tags[m.tag], m) && SI.WalkArmed(s.tags[m.tag])
    ensures var a := DispatchFlushed(s, m); var e := s.tags[m.tag];
      && a.ok
      && a.s == s.(tags := s.tags[m.tag := e.(ownerWaits := false, holdsSlot := e.holdsSlot && BoundBy(e, m) == {})],
                   bound := s.bound + BoundBy(e, m))
  {
  }

  // ---------------------------------------------------------------------------
  // What the invariant says about the head of the stream.
  // ---------------------------------------------------------------------------

  /** The reply at the head answers the op that holds its tag, and fits it. */
  ghost predicate HeadFits(s: Sys) {
    && |s.s2c| > 0
    && var q := s.s2c[0].req;
    && q.tag in s.sess.tags && q.tag !in s.unsent && q == Request(s.sess, q.tag)
    && Fits(s.sess.tags[q.tag], Head(s))
  }

  /** What is known of the op that holds the head's tag, and of its owner. */
  ghost predicate HeadView(s: Sys) {
    && HeadFits(s)
    && var t := s.s2c[0].req.tag; var e := s.sess.tags[t];
    && EntryOk(s, t) && SlotReady(s.sess, t)
    && (e.owner.Some? ==> Registered(s, e.owner.value) && s.rpcs[e.owner.value].tag == t)
    && (e.kind.Flush? ==> VictimView(s, t))
  }

  /** The op a Tflush on the wire cancels, and the owner that may still wait for it. */
  ghost predicate VictimView(s: Sys, t: Tag)
    requires t in s.sess.tags
  {
    var v := s.sess.tags[t].flushOldtag;
    && !s.sess.tags[t].awaitingFlush && v in s.sess.tags && v != t && s.sess.tags[v].awaitingFlush
    && (s.sess.tags[v].owner.Some? ==> OwnerFlushing(s, s.sess.tags[v].owner.value, v))
  }

  ghost predicate OwnerFlushing(s: Sys, r: nat, v: Tag) {
    Registered(s, r) && s.rpcs[r].tag == v && s.rpcs[r].flushing && !s.rpcs[r].async
  }

  lemma HeadViewed(s: Sys)
    requires SysInv(s) && |s.s2c| > 0
    ensures HeadView(s)
  {
    assert Attributed(s, s.s2c[0].req);
    SlotIsReady(s.sess, s.s2c[0].req.tag);
    HeadOwner(s, s.s2c[0].req.tag);
    HeadVictim(s, s.s2c[0].req.tag);
  }

  lemma HeadOwner(s: Sys, t: Tag)
    requires AllRegistered(s) && EntriesOk(s) && t in s.sess.tags
    ensures EntryOk(s, t)
    ensures var e := s.sess.tags[t]; e.owner.Some? ==> Registered(s, e.owner.value) && s.rpcs[e.owner.value].tag == t
  {
  }

  /** A Tflush that was answered was on the wire, so an owner who still waits knows it flushed. */
  lemma HeadVictim(s: Sys, t: Tag)
    requires SI.FlushLinks(s.sess) && AllRegistered(s) && EntriesOk(s) && t in s.sess.tags && t !in s.unsent
    ensures s.sess.tags[t].kind.Flush? ==> VictimView(s, t)
  {
    var e := s.sess.tags[t];
    if e.kind.Flush? {
      var v := s.sess.tags[e.flushOldtag];
      if v.owner.Some? { assert Registered(s, v.owner.value); }
    }
  }

  // ---------------------------------------------------------------------------
  // The ways a reply is taken, and what each leaves.
  // ---------------------------------------------------------------------------

  datatype Way = Honoured | Staged | Late | Cancels | Plainly

  ghost function WayOf(s: Sys): Way
    requires HeadFits(s)
  {
    var e := s.sess.tags[s.s2c[0].req.tag];
    if e.awaitingFlush then
      if e.owner.None? then Late
      else if e.owner.value in s.rpcs && s.rpcs[e.owner.value].flushing then Honoured
      else Staged
    else if IsRflush(s.s2c[0]) then Cancels
    else Plainly
  }

  /** After the head is read: `gone` tags free, `more` fids bound, the owner of `t` ended. */
  ghost function Freed(s: Sys, gone: set<Tag>, more: set<Fid>, owner: Option<nat>, how: Fate, strays: nat): Sys
    requires |s.s2c| > 0
  {
    var u := W.Popped(s).(sess := s.sess.(tags := s.sess.tags - gone, bound := s.sess.bound + more),
                          unsent := s.unsent - gone, stray := s.stray + strays);
    if owner.Some? then Finish(u, owner.value, how) else u
  }

  /** After the head is read: the op keeps its tag as `e`, `more` fids bound, its owner ended. */
  ghost function Kept(s: Sys, t: Tag, e: Entry, more: set<Fid>, owner: Option<nat>): Sys
    requires |s.s2c| > 0
  {
    var u := W.Popped(s).(sess := s.sess.(tags := s.sess.tags[t := e], bound := s.sess.bound + more));
    if owner.Some? then Finish(u, owner.value, Answered) else u
  }

  ghost function PlainOutcome(s: Sys): Sys
    requires HeadFits(s)
  {
    var t := s.s2c[0].req.tag; var e := s.sess.tags[t];
    Freed(s, {t}, BoundBy(e, Head(s)), e.owner, Answered, if Stray(s) then 1 else 0)
  }

  /** A frame no mechanism accounts for: a refused Tflush, or a reply a dead session left behind. */
  ghost predicate Stray(s: Sys)
    requires HeadFits(s)
  {
    var e := s.sess.tags[s.s2c[0].req.tag];
    e.owner.None? && !e.kind.Clunk? && !e.awaitingFlush && !e.abandoned && !IsRflush(s.s2c[0])
  }

  lemma PlainlyForm(s: Sys)
    requires HeadView(s) && WayOf(s).Plainly?
    ensures DoDemux(s) == PlainOutcome(s)
  {
    var e := s.sess.tags[s.s2c[0].req.tag];
    assert s.unsent - {s.s2c[0].req.tag} == s.unsent;
    if e.owner.Some? {
      OwnedForm(s);
    } else if e.kind.Flush? {
      RefusedForm(s);
    } else {
      DispatchDone(s.sess, Head(s));
    }
  }

  lemma OwnedForm(s: Sys)
    requires HeadView(s) && WayOf(s).Plainly? && s.sess.tags[s.s2c[0].req.tag].owner.Some?
    requires s.unsent - {s.s2c[0].req.tag} == s.unsent
    ensures DoDemux(s) == PlainOutcome(s)
  {
    var t := s.s2c[0].req.tag;
    UnownedDone(s.sess, SetOwner(s.sess, t, None), Head(s));
  }

  /** Dispatch to an op whose owner was just unregistered. */
  lemma UnownedDone(s: Session, w: Session, m: Reply)
    requires SlotReady(s, m.tag) && !s.tags[m.tag].awaitingFlush && !s.tags[m.tag].kind.Flush?
    requires Fits(s.tags[m.tag], m) && SI.WalkArmed(s.tags[m.tag]) && w == SetOwner(s, m.tag, None)
    ensures var a := Dispatch(w, m);
      a.ok && a.s == s.(tags := s.tags - {m.tag}, bound := s.bound + BoundBy(s.tags[m.tag], m))
  {
    DispatchDone(w, m);
    assert w.tags - {m.tag} == s.tags - {m.tag};
  }

  lemma RefusedForm(s: Sys)
    requires HeadView(s) && WayOf(s).Plainly? && s.sess.tags[s.s2c[0].req.tag].kind.Flush?
    requires s.unsent - {s.s2c[0].req.tag} == s.unsent
    ensures DoDemux(s) == PlainOutcome(s)
  {
  }

  ghost function CancelsOutcome(s: Sys): Sys
    requires HeadView(s) && WayOf(s).Cancels?
  {
    var t := s.s2c[0].req.tag; var v := s.sess.tags[t].flushOldtag;
    Freed(s, {t, v}, {}, s.sess.tags[v].owner, Cancelled, 0).(unsent := s.unsent)
  }

  lemma CancelsForm(s: Sys)
    requires HeadView(s) && WayOf(s).Cancels?
    ensures DoDemux(s) == CancelsOutcome(s)
  {
    var t := s.s2c[0].req.tag;
    var v := s.sess.tags[t].flushOldtag;
    assert Clear(Clear(s.sess, v), t).tags == s.sess.tags - {t, v};
  }

  ghost function StagedOutcome(s: Sys): Sys
    requires HeadView(s) && WayOf(s).Staged?
  {
    var t := s.s2c[0].req.tag; var e := s.sess.tags[t];
    Freed(s, {t, e.flushTag}, BoundBy(e, Head(s)), e.owner, Answered, 0)
  }

  lemma StagedForm(s: Sys)
    requires HeadView(s) && WayOf(s).Staged?
    ensures DoDemux(s) == StagedOutcome(s)
  {
    var t := s.s2c[0].req.tag;
    var e := s.sess.tags[t];
    var r := e.owner.value;
    var w := Unregister(W.Popped(s), r).sess;
    L.RetractForm(w, t);
    var x := FlushRetract(w, t);
    DispatchDone(x, Head(s));
    assert x.tags - {t} == s.sess.tags - {t, e.flushTag};
    assert s.unsent - {t, e.flushTag} == s.unsent - {e.flushTag};
  }

  ghost function HonouredEntry(e: Entry, m: Reply): Entry {
    e.(owner := None, ownerWaits := false, holdsSlot := e.holdsSlot && BoundBy(e, m) == {})
  }

  lemma HonouredForm(s: Sys)
    requires HeadView(s) && WayOf(s).Honoured?
    ensures var t := s.s2c[0].req.tag; var e := s.sess.tags[t];
      DoDemux(s) == Kept(s, t, HonouredEntry(e, Head(s)), BoundBy(e, Head(s)), e.owner)
  {
    var t := s.s2c[0].req.tag;
    var r := s.sess.tags[t].owner.value;
    DispatchHonoured(Unregister(W.Popped(s), r).sess, Head(s));
  }

  lemma LateForm(s: Sys)
    requires HeadView(s) && WayOf(s).Late?
    ensures var t := s.s2c[0].req.tag; var e := s.sess.tags[t]; var m := Head(s);
      DoDemux(s) == Kept(s, t, e.(holdsSlot := e.holdsSlot && !FullWalk(e, m)),
                         if e.holdsSlot && FullWalk(e, m) then {e.newFid} else {}, None)
  {
    DispatchLate(s.sess, Head(s));
  }

  /** What reading the head leaves, whichever way it is taken. */
  ghost function Outcome(s: Sys): Sys
    requires HeadView(s)
  {
    var t := s.s2c[0].req.tag; var e := s.sess.tags[t]; var m := Head(s);
    match WayOf(s)
    case Honoured => Kept(s, t, HonouredEntry(e, m), BoundBy(e, m), e.owner)
    case Staged => StagedOutcome(s)
    case Late =>
      Kept(s, t, e.(holdsSlot := e.holdsSlot && !FullWalk(e, m)),
           if e.holdsSlot && FullWalk(e, m) then {e.newFid} else {}, None)
    case Cancels => CancelsOutcome(s)
    case Plainly => PlainOutcome(s)
  }

  lemma DemuxOutcome(s: Sys)
    requires HeadView(s)
    ensures DoDemux(s) == Outcome(s)
  {
    match WayOf(s)
    case Honoured => HonouredForm(s);
    case Staged => StagedForm(s);
    case Late => LateForm(s);
    case Cancels => CancelsForm(s);
    case Plainly => PlainlyForm(s);
  }

  // ---------------------------------------------------------------------------
  // Each way keeps the session.
  // ---------------------------------------------------------------------------

  lemma PlainSess(s: Sys)
    requires SI.Inv(s.sess) && HeadView(s) && WayOf(s).Plainly?
    ensures SI.Inv(PlainOutcome(s).sess)
  {
    if s.sess.tags[s.s2c[0].req.tag].kind.Flush? {
      SI.FlushReplyKeeps(s.sess, Head(s));
      SI.FlushReplyFrees(s.sess, Head(s));
    } else {
      DoneSess(s.sess, Head(s));
    }
  }

  lemma DoneSess(s: Session, m: Reply)
    requires SI.Inv(s) && SlotReady(s, m.tag) && !s.tags[m.tag].awaitingFlush && !s.tags[m.tag].kind.Flush?
    requires Fits(s.tags[m.tag], m) && SI.WalkArmed(s.tags[m.tag])
    ensures SI.Inv(s.(tags := s.tags - {m.tag}, bound := s.bound + BoundBy(s.tags[m.tag], m)))
  {
    SI.DispatchKeeps(s, m);
    DispatchDone(s, m);
  }

  lemma CancelsSess(s: Sys)
    requires SI.Inv(s.sess) && HeadView(s) && WayOf(s).Cancels?
    ensures SI.Inv(CancelsOutcome(s).sess)
  {
    var t := s.s2c[0].req.tag;
    PairSess(s.sess, CancelsOutcome(s).sess, t, s.sess.tags[t].flushOldtag);
  }

  /** A Tflush and its victim go together. */
  lemma PairSess(s: Session, u: Session, f: Tag, v: Tag)
    requires SI.Inv(s) && f in s.tags && s.tags[f].kind.Flush? && v == s.tags[f].flushOldtag
    requires u == s.(tags := s.tags - {f, v}, bound := s.bound + {})
    ensures SI.Inv(u)
  {
    SI.ClearPairLinks(s, f);
    SI.ClearPairKeeps(s, v, f);
    assert u.tags == Clear(Clear(s, v), f).tags && u.bound == s.bound;
  }

  lemma StagedSess(s: Sys)
    requires SI.Inv(s.sess) && HeadView(s) && WayOf(s).Staged?
    ensures var t := s.s2c[0].req.tag; var e := s.sess.tags[t];
      SI.Inv(s.sess.(tags := s.sess.tags - {t, e.flushTag}, bound := s.sess.bound + BoundBy(e, Head(s))))
  {
    var t := s.s2c[0].req.tag;
    var e := s.sess.tags[t];
    SI.FlushUnstageKeeps(s.sess, t);
    L.RetractForm(s.sess, t);
    RetractedSess(FlushRetract(s.sess, t), s.sess, Head(s));
  }

  lemma RetractedSess(x: Session, s: Session, m: Reply)
    requires SI.Inv(x) && SlotReady(s, m.tag) && Fits(s.tags[m.tag], m) && SI.WalkArmed(s.tags[m.tag])
    requires var t := m.tag; var e := s.tags[t];
      && !e.kind.Flush? && e.flushTag != t
      && x == s.(tags := (s.tags - {e.flushTag})[t := e.(awaitingFlush := false, ownerWaits := false, flushTag := 0)])
    ensures var t := m.tag; var e := s.tags[t];
      SI.Inv(s.(tags := s.tags - {t, e.flushTag}, bound := s.bound + BoundBy(e, m)))
  {
    DoneSess(x, m);
    assert x.tags - {m.tag} == s.tags - {m.tag, s.tags[m.tag].flushTag};
  }

  lemma HonouredSess(s: Session, m: Reply)
    requires SI.Inv(s) && SlotReady(s, m.tag) && s.tags[m.tag].awaitingFlush && !s.tags[m.tag].kind.Flush?
    requires Fits(s.tags[m.tag], m) && SI.WalkArmed(s.tags[m.tag])
    ensures var e := s.tags[m.tag];
      SI.Inv(s.(tags := s.tags[m.tag := HonouredEntry(e, m)], bound := s.bound + BoundBy(e, m)))
  {
    SI.DispatchFlushedKeeps(s, m);
    DispatchHonoured(s, m);
    var x := DispatchFlushed(s, m).s;
    UnownedSess(x, s, m);
  }

  lemma UnownedSess(x: Session, s: Session, m: Reply)
    requires SI.Inv(x) && m.tag in s.tags
    requires var e := s.tags[m.tag];
      x == s.(tags := s.tags[m.tag := e.(ownerWaits := false, holdsSlot := e.holdsSlot && BoundBy(e, m) == {})],
              bound := s.bound + BoundBy(e, m))
    ensures var e := s.tags[m.tag];
      SI.Inv(s.(tags := s.tags[m.tag := HonouredEntry(e, m)], bound := s.bound + BoundBy(e, m)))
  {
    var y := HonouredEntry(s.tags[m.tag], m);
    SI.FlagsKeep(x, m.tag, y);
    assert x.tags[m.tag := y] == s.tags[m.tag := y];
  }

  // ---------------------------------------------------------------------------
  // Each way keeps the wire and the tables.
  // ---------------------------------------------------------------------------

  /** Tags that may be freed when the head is read: nothing else in flight bears them. */
  ghost predicate Freeable(s: Sys, gone: set<Tag>)
    requires |s.s2c| > 0
  {
    forall t | t in gone :: t in s.unsent || t == s.s2c[0].req.tag || (IsRflush(s.s2c[0]) && t == s.s2c[0].req.oldtag)
  }

  lemma FreeKeepsWire(s: Sys, u: Sys, gone: set<Tag>)
    requires WireInv(s) && |s.s2c| > 0 && Freeable(s, gone)
    requires u.sess.tags == s.sess.tags - gone && u.unsent == s.unsent - gone && W.SameWire(W.Popped(s), u)
    ensures WireInv(u)
  {
    var p := W.Popped(s);
    W.PopKeepsWire(s);
    forall t | t in gone ensures Quiet(p, t) {
      if t in s.unsent { W.UnsentIsQuiet(p, t); }
    }
    W.WireFollows(p, u, gone);
  }

  /** `t` is freed with its owner; whatever else is freed has none. */
  ghost predicate OwnersEnd(s: Sys, gone: set<Tag>, owner: Option<nat>) {
    && (forall x | x in gone && x in s.sess.tags && s.sess.tags[x].owner.Some? :: s.sess.tags[x].owner == owner)
    && (owner.Some? ==> exists x :: x in gone && x in s.sess.tags && s.sess.tags[x].owner == owner)
    && (forall f | f in gone && f in s.unsent && f in s.sess.tags && s.sess.tags[f].kind.Flush? ::
        s.sess.tags[f].flushOldtag in gone)
  }

  lemma FreeKeepsTables(s: Sys, u: Sys, gone: set<Tag>, owner: Option<nat>)
    requires AllRegistered(s) && EntriesOk(s) && FidsUsed(s) && OwnersEnd(s, gone, owner)
    requires u.sess.tags == s.sess.tags - gone && u.unsent == s.unsent - gone
    requires u.rpcs == s.rpcs - (if owner.Some? then {owner.value} else {})
    requires u.dead == s.dead && u.used == s.used && u.sess.bound <= s.used
    ensures AllRegistered(u) && EntriesOk(u) && FidsUsed(u)
  {
    var ended := if owner.Some? then {owner.value} else {};
    forall r | r in s.rpcs ensures r in ended <==> s.rpcs[r].tag in gone { assert Registered(s, r); }
    L.DropKeepsRegs(s, u, gone, ended);
    L.DropKeepsEntries(s, u, gone, ended);
    L.DropKeepsFids(s, u, gone, ended);
  }

  lemma BoundIsUsed(s: Sys, t: Tag, m: Reply)
    requires FidsUsed(s) && t in s.sess.tags && (FullWalk(s.sess.tags[t], m) ==> SI.WalkArmed(s.sess.tags[t]))
    ensures s.sess.bound + BoundBy(s.sess.tags[t], m) <= s.used
  {
  }

  lemma PlainKeeps(s: Sys)
    requires SysInv(s) && HeadView(s) && WayOf(s).Plainly?
    ensures SysInv(PlainOutcome(s))
  {
    PlainSess(s);
    PlainWire(s);
    PlainTables(s);
    PlainFate(s);
  }

  lemma PlainWire(s: Sys)
    requires WireInv(s) && HeadView(s) && WayOf(s).Plainly?
    ensures WireInv(PlainOutcome(s))
  {
    FreeKeepsWire(s, PlainOutcome(s), {s.s2c[0].req.tag});
  }

  lemma PlainTables(s: Sys)
    requires AllRegistered(s) && EntriesOk(s) && FidsUsed(s) && HeadView(s) && WayOf(s).Plainly?
    ensures var u := PlainOutcome(s); AllRegistered(u) && EntriesOk(u) && FidsUsed(u)
  {
    var t := s.s2c[0].req.tag;
    BoundIsUsed(s, t, Head(s));
    FreeKeepsTables(s, PlainOutcome(s), {t}, s.sess.tags[t].owner);
  }

  lemma PlainFate(s: Sys)
    requires FateInv(s) && HeadView(s)
    ensures FateInv(PlainOutcome(s))
  {
    var e := s.sess.tags[s.s2c[0].req.tag];
    if e.owner.Some? { L.FinishFate(s, e.owner.value, Answered); }
  }

  lemma CancelsKeeps(s: Sys)
    requires SysInv(s) && HeadView(s) && WayOf(s).Cancels?
    ensures SysInv(CancelsOutcome(s))
  {
    CancelsSess(s);
    CancelsWire(s);
    CancelsTables(s);
    CancelsFate(s);
  }

  lemma CancelsWire(s: Sys)
    requires WireInv(s) && EntriesOk(s) && HeadView(s) && WayOf(s).Cancels?
    ensures WireInv(CancelsOutcome(s))
  {
    var t := s.s2c[0].req.tag;
    var v := s.sess.tags[t].flushOldtag;
    assert EntryOk(s, v);
    assert s.unsent - {t, v} == s.unsent;
    FreeKeepsWire(s, CancelsOutcome(s), {t, v});
  }

  lemma CancelsTables(s: Sys)
    requires AllRegistered(s) && EntriesOk(s) && FidsUsed(s) && HeadView(s) && WayOf(s).Cancels?
    ensures var u := CancelsOutcome(s); AllRegistered(u) && EntriesOk(u) && FidsUsed(u)
  {
    var t := s.s2c[0].req.tag;
    var v := s.sess.tags[t].flushOldtag;
    assert EntryOk(s, v);
    assert s.unsent - {t, v} == s.unsent;
    FreeKeepsTables(s, CancelsOutcome(s), {t, v}, s.sess.tags[v].owner);
  }

  lemma CancelsFate(s: Sys)
    requires FateInv(s) && HeadView(s) && WayOf(s).Cancels?
    ensures FateInv(CancelsOutcome(s))
  {
    var v := s.sess.tags[s.s2c[0].req.tag].flushOldtag;
    if s.sess.tags[v].owner.Some? { L.FinishFate(s, s.sess.tags[v].owner.value, Cancelled); }
  }

  lemma StagedKeeps(s: Sys)
    requires SysInv(s) && HeadView(s) && WayOf(s).Staged?
    ensures SysInv(StagedOutcome(s))
  {
    StagedSess(s);
    StagedWire(s);
    StagedTables(s);
    StagedFate(s);
  }

  lemma StagedWire(s: Sys)
    requires WireInv(s) && HeadView(s) && WayOf(s).Staged?
    ensures WireInv(StagedOutcome(s))
  {
    var t := s.s2c[0].req.tag;
    FreeKeepsWire(s, StagedOutcome(s), {t, s.sess.tags[t].flushTag});
  }

  lemma StagedTables(s: Sys)
    requires AllRegistered(s) && EntriesOk(s) && FidsUsed(s) && HeadView(s) && WayOf(s).Staged?
    ensures var u := StagedOutcome(s); AllRegistered(u) && EntriesOk(u) && FidsUsed(u)
  {
    var t := s.s2c[0].req.tag;
    var e := s.sess.tags[t];
    assert EntryOk(s, e.flushTag);
    BoundIsUsed(s, t, Head(s));
    FreeKeepsTables(s, StagedOutcome(s), {t, e.flushTag}, e.owner);
  }

  lemma StagedFate(s: Sys)
    requires FateInv(s) && HeadView(s) && WayOf(s).Staged?
    ensures FateInv(StagedOutcome(s))
  {
    L.FinishFate(s, s.sess.tags[s.s2c[0].req.tag].owner.value, Answered);
  }

  // --- replies that leave the tag reserved ----------------------------------

  lemma KeptKeeps(s: Sys, e: Entry, more: set<Fid>)
    requires WireInv(s) && AllRegistered(s) && EntriesOk(s) && FidsUsed(s) && HeadView(s)
    requires var t := s.s2c[0].req.tag; var u := Kept(s, t, e, more, s.sess.tags[t].owner);
      L.Departs(s, u, t, e) && EntryOk(u, t)
    ensures var t := s.s2c[0].req.tag; var u := Kept(s, t, e, more, s.sess.tags[t].owner);
      WireInv(u) && AllRegistered(u) && EntriesOk(u) && FidsUsed(u)
  {
    var t := s.s2c[0].req.tag;
    var u := Kept(s, t, e, more, s.sess.tags[t].owner);
    L.DepartKeepsTables(s, u, t, e);
    W.PopKeepsWire(s);
    L.DepartKeepsWire(W.Popped(s), u, t, e);
  }

  lemma HonouredKeeps(s: Sys)
    requires SysInv(s) && HeadView(s) && WayOf(s).Honoured?
    ensures SysInv(DoDemux(s))
  {
    var t := s.s2c[0].req.tag;
    HonouredForm(s);
    HonouredSess(s.sess, Head(s));
    HonouredTables(s);
    HonouredFate(s);
  }

  lemma HonouredTables(s: Sys)
    requires WireInv(s) && AllRegistered(s) && EntriesOk(s) && FidsUsed(s) && HeadView(s) && WayOf(s).Honoured?
    ensures var u := DoDemux(s); WireInv(u) && AllRegistered(u) && EntriesOk(u) && FidsUsed(u)
  {
    var t := s.s2c[0].req.tag;
    var e := s.sess.tags[t];
    HonouredForm(s);
    BoundIsUsed(s, t, Head(s));
    KeptKeeps(s, HonouredEntry(e, Head(s)), BoundBy(e, Head(s)));
  }

  lemma HonouredFate(s: Sys)
    requires FateInv(s) && HeadView(s) && WayOf(s).Honoured?
    ensures FateInv(DoDemux(s))
  {
    HonouredForm(s);
    L.FinishFate(s, s.sess.tags[s.s2c[0].req.tag].owner.value, Answered);
  }

  lemma LateKeeps(s: Sys)
    requires SysInv(s) && HeadView(s) && WayOf(s).Late?
    ensures SysInv(DoDemux(s))
  {
    LateForm(s);
    SI.LateKeeps(s.sess, Head(s));
    DispatchLate(s.sess, Head(s));
    LateTables(s);
    L.FateOnly(s, DoDemux(s));
  }

  lemma LateTables(s: Sys)
    requires WireInv(s) && AllRegistered(s) && EntriesOk(s) && FidsUsed(s) && HeadView(s) && WayOf(s).Late?
    ensures var u := DoDemux(s); WireInv(u) && AllRegistered(u) && EntriesOk(u) && FidsUsed(u)
  {
    var t := s.s2c[0].req.tag;
    var e := s.sess.tags[t];
    var m := Head(s);
    LateForm(s);
    KeptKeeps(s, e.(holdsSlot := e.holdsSlot && !FullWalk(e, m)),
              if e.holdsSlot && FullWalk(e, m) then {e.newFid} else {});
  }

  lemma DemuxKeeps(s: Sys)
    requires SysInv(s) && |s.s2c| > 0
    ensures SysInv(DoDemux(s))
  {
    HeadViewed(s);
    match WayOf(s)
    case Honoured => HonouredKeeps(s);
    case Staged =>
      StagedKeeps(s);
      StagedForm(s);
    case Late => LateKeeps(s);
    case Cancels =>
      CancelsKeeps(s);
      CancelsForm(s);
    case Plainly =>
      PlainKeeps(s);
      PlainlyForm(s);
  }
}
