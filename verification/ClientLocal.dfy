/** The client's own actions keep the invariant: builds, sends, take-backs, flushes, departures. */
module ClientLocal {
  import opened Options
  import opened SessionSpec
  import SI = SessionInv
  import opened ClientRun
  import opened ClientInv
  import W = ClientWire

  // ---------------------------------------------------------------------------
  // Builds.
  // ---------------------------------------------------------------------------

  ghost function BuiltEntry(s: Session, b: Build): Entry {
    match b
    case BWalk(k, src, dst, n) => Fresh(k, src, dst, s.nextOpId + 1).(walkNwname := n, holdsSlot := dst != NOFID)
    case BClunk(fid) => Fresh(Clunk, fid, fid, s.nextOpId + 1).(holdsSlot := true)
    case BPlain(code, fid, _) => Fresh(Plain(code), fid, fid, s.nextOpId + 1)
  }

  ghost function BuiltBound(s: Session, b: Build): set<Fid> { if b.BClunk? then s.bound - {b.fid} else s.bound }

  lemma BuiltForm(s: Session, t: Tag, b: Build)
    ensures Built(s, t, b) ==
        s.(bound := BuiltBound(s, b), tags := s.tags[t := BuiltEntry(s, b)], nextOpId := s.nextOpId + 1)
  {
  }

  lemma BuiltKeeps(s: Sys, b: Build, t: Tag)
    requires SI.Inv(s.sess) && FidsUsed(s) && CanBuild(s.sess, b) && Lowest(s.sess, t) && FreshDestination(s, b)
    ensures SI.Inv(Built(s.sess, t, b))
  {
    match b
    case BWalk(k, src, dst, n) => SI.SendWalkKeeps(s.sess, t, k, src, dst, n);
    case BClunk(fid) => SI.SendClunkKeeps(s.sess, t, fid);
    case BPlain(code, fid, x) => SI.SendPlainKeeps(s.sess, t, code, fid, x);
  }

  /** A new entry whose frame has not left, registered for a new rpc or for none. */
  ghost predicate Adds(s: Sys, u: Sys, t: Tag, e: Entry) {
    && t !in s.sess.tags && u.sess.tags == s.sess.tags[t := e] && u.unsent == s.unsent + {t}
    && u.dead == s.dead && W.SameWire(s, u)
  }

  lemma AddKeepsWire(s: Sys, u: Sys, t: Tag, e: Entry)
    requires WireInv(s) && Adds(s, u, t, e)
    ensures WireInv(u)
  {
    W.WireFollows(s, u, {});
  }

  lemma AddKeepsEntries(s: Sys, u: Sys, t: Tag, e: Entry)
    requires EntriesOk(s) && Adds(s, u, t, e) && EntryOk(u, t)
    ensures EntriesOk(u)
  {
    forall x | x in u.sess.tags ensures EntryOk(u, x) {
      if x != t { assert EntryOk(s, x); }
    }
  }

  lemma AddKeepsFids(s: Sys, u: Sys, t: Tag, e: Entry)
    requires FidsUsed(s) && Adds(s, u, t, e) && s.used <= u.used && u.sess.bound <= s.sess.bound
    requires e.holdsSlot ==> Claim(e) in u.used
    ensures FidsUsed(u)
  {
  }

  lemma AddKeepsRegs(s: Sys, u: Sys, t: Tag, e: Entry)
    requires AllRegistered(s) && Adds(s, u, t, e)
    requires if e.owner.Some? then e.owner.value !in s.rpcs && u.rpcs.Keys == s.rpcs.Keys + {e.owner.value} &&
        Registered(u, e.owner.value) && u.rpcs[e.owner.value].tag == t
             else u.rpcs.Keys == s.rpcs.Keys
    requires forall r | r in s.rpcs :: u.rpcs[r] == s.rpcs[r]
    ensures AllRegistered(u)
  {
    forall r | r in u.rpcs ensures Registered(u, r) {
      if r in s.rpcs { assert Registered(s, r); }
    }
  }

  lemma BuildKeeps(s: Sys, b: Build, t: Tag, async: bool)
    requires SysInv(s) && Enabled(s, BuildOp(b, t, async))
    ensures SysInv(DoBuild(s, b, t, async))
  {
    BuildSess(s, b, t, async);
    BuildTables(s, b, t, async);
    NewRpcFate(s, DoBuild(s, b, t, async), async);
  }

  ghost function OwnedEntry(s: Sys, b: Build, async: bool): Entry {
    BuiltEntry(s.sess, b).(async := async, owner := Some(s.nextRpc))
  }

  lemma BuildSess(s: Sys, b: Build, t: Tag, async: bool)
    requires SI.Inv(s.sess) && FidsUsed(s) && Enabled(s, BuildOp(b, t, async))
    ensures SI.Inv(DoBuild(s, b, t, async).sess)
  {
    BuiltForm(s.sess, t, b);
    BuiltKeeps(s, b, t);
    var m := Built(s.sess, t, b);
    if async { SI.FlagsKeep(m, t, m.tags[t].(async := true)); }
    var n := if async then MarkAsync(m, t) else m;
    SI.FlagsKeep(n, t, n.tags[t].(owner := Some(s.nextRpc)));
  }

  lemma BuildAdds(s: Sys, b: Build, t: Tag, async: bool)
    requires Enabled(s, BuildOp(b, t, async))
    ensures Adds(s, DoBuild(s, b, t, async), t, OwnedEntry(s, b, async))
  {
    BuiltForm(s.sess, t, b);
    var m := Built(s.sess, t, b);
    OwnedTags(s.sess.tags, m, t, BuiltEntry(s.sess, b), async, s.nextRpc);
  }

  lemma OwnedTags(tags: map<Tag, Entry>, m: Session, t: Tag, e: Entry, async: bool, r: nat)
    requires m.tags == tags[t := e] && !e.kind.Flush? && !e.async
    ensures SetOwner(if async then MarkAsync(m, t) else m, t, Some(r)).tags ==
        tags[t := e.(async := async, owner := Some(r))]
  {
  }

  lemma BuildTables(s: Sys, b: Build, t: Tag, async: bool)
    requires SysInv(s) && Enabled(s, BuildOp(b, t, async))
    ensures var u := DoBuild(s, b, t, async); WireInv(u) && AllRegistered(u) && EntriesOk(u) && FidsUsed(u)
  {
    var u := DoBuild(s, b, t, async);
    var e := OwnedEntry(s, b, async);
    BuildAdds(s, b, t, async);
    AddKeepsWire(s, u, t, e);
    AddKeepsEntries(s, u, t, e);
    BuildFids(s, b, t, async);
    BuildRegs(s, b, t, async);
  }

  lemma BuildFids(s: Sys, b: Build, t: Tag, async: bool)
    requires FidsUsed(s) && Enabled(s, BuildOp(b, t, async))
    ensures FidsUsed(DoBuild(s, b, t, async))
  {
    BuildAdds(s, b, t, async);
    BuiltForm(s.sess, t, b);
    AddKeepsFids(s, DoBuild(s, b, t, async), t, OwnedEntry(s, b, async));
  }

  lemma BuildRegs(s: Sys, b: Build, t: Tag, async: bool)
    requires AllRegistered(s) && FateInv(s) && Enabled(s, BuildOp(b, t, async))
    ensures AllRegistered(DoBuild(s, b, t, async))
  {
    BuildAdds(s, b, t, async);
    AddKeepsRegs(s, DoBuild(s, b, t, async), t, OwnedEntry(s, b, async));
  }

  lemma NewRpcFate(s: Sys, u: Sys, async: bool)
    requires FateInv(s) && u.nextRpc == s.nextRpc + 1 && u.fate == s.fate && u.fired == s.fired
    requires s.nextRpc in u.rpcs && u.rpcs == s.rpcs[s.nextRpc := u.rpcs[s.nextRpc]] && u.rpcs[s.nextRpc].async == async
    requires u.asyncs == if async then s.asyncs + {s.nextRpc} else s.asyncs
    ensures FateInv(u)
  {
  }

  lemma BuildOwnerlessKeeps(s: Sys, fid: Fid, t: Tag)
    requires SysInv(s) && Enabled(s, BuildOwnerless(fid, t))
    ensures SysInv(DoBuildOwnerless(s, fid, t))
  {
    var u := DoBuildOwnerless(s, fid, t);
    var e := BuiltEntry(s.sess, BClunk(fid));
    SI.SendClunkKeeps(s.sess, t, fid);
    AddKeepsWire(s, u, t, e);
    AddKeepsEntries(s, u, t, e);
    AddKeepsFids(s, u, t, e);
    AddKeepsRegs(s, u, t, e);
  }

  lemma RefuseKeeps(s: Sys)
    requires SysInv(s)
    ensures SysInv(DoRefuse(s))
  {
    var u := DoRefuse(s);
    W.WireFollows(s, u, {});
    SameTablesKeep(s, u);
    RefuseFate(s);
  }

  lemma RefuseFate(s: Sys)
    requires FateInv(s)
    ensures FateInv(DoRefuse(s))
  {
  }

  /** Nothing but the fates moved. */
  lemma SameTablesKeep(s: Sys, u: Sys)
    requires AllRegistered(s) && EntriesOk(s) && FidsUsed(s)
    requires u.sess == s.sess && u.unsent == s.unsent && u.rpcs == s.rpcs && u.used == s.used && u.dead == s.dead
    ensures AllRegistered(u) && EntriesOk(u) && FidsUsed(u)
  {
    forall r | r in u.rpcs ensures Registered(u, r) { assert Registered(s, r); }
    forall t | t in u.sess.tags ensures EntryOk(u, t) { assert EntryOk(s, t); }
  }

  // ---------------------------------------------------------------------------
  // Sends.
  // ---------------------------------------------------------------------------

  lemma PushKeeps(s: Sys, t: Tag)
    requires SysInv(s) && Enabled(s, Push(t))
    ensures SysInv(DoPush(s, t))
  {
    var u := DoPush(s, t);
    W.UnsentIsQuiet(s, t);
    PushNoVictim(s, t);
    W.SendKeepsWire(s, u, t);
    PushRegs(s, t);
    PushEntries(s, t);
    PushFate(s, t);
  }

  /** An op that is being flushed has left already, so no Tflush cancels a frame yet to leave. */
  lemma PushNoVictim(s: Sys, t: Tag)
    requires SI.Inv(s.sess) && EntriesOk(s) && t in s.unsent
    ensures forall f | f in s.sess.tags && s.sess.tags[f].kind.Flush? :: s.sess.tags[f].flushOldtag != t
  {
    assert EntryOk(s, t);
  }

  lemma PushRegs(s: Sys, t: Tag)
    requires SI.Inv(s.sess) && AllRegistered(s) && EntriesOk(s) && Enabled(s, Push(t))
    ensures AllRegistered(DoPush(s, t))
  {
    var u := DoPush(s, t);
    var v := VictimRpc(s, t);
    forall r | r in u.rpcs ensures Registered(u, r) {
      assert Registered(s, r);
    }
  }

  lemma PushEntries(s: Sys, t: Tag)
    requires AllRegistered(s) && EntriesOk(s) && Enabled(s, Push(t))
    requires !s.sess.tags[t].kind.Clunk? && !s.sess.tags[t].kind.Flush? ==> s.sess.tags[t].owner.Some?
    ensures EntriesOk(DoPush(s, t))
  {
    var u := DoPush(s, t);
    forall x | x in u.sess.tags ensures EntryOk(u, x) { assert EntryOk(s, x); }
  }

  lemma PushFate(s: Sys, t: Tag)
    requires FateInv(s) && t in s.sess.tags
    ensures FateInv(DoPush(s, t))
  {
  }

  // ---------------------------------------------------------------------------
  // Freeing tags.
  // ---------------------------------------------------------------------------

  /** The tags in `gone` are freed, and the rpcs registered on them end. */
  ghost predicate Drops(s: Sys, u: Sys, gone: set<Tag>, ended: set<nat>) {
    && u.sess.tags == s.sess.tags - gone && u.unsent == s.unsent - gone && u.rpcs == s.rpcs - ended
    && u.dead == s.dead
    && (forall r | r in s.rpcs :: r in ended <==> s.rpcs[r].tag in gone)
  }

  lemma DropKeepsRegs(s: Sys, u: Sys, gone: set<Tag>, ended: set<nat>)
    requires AllRegistered(s) && Drops(s, u, gone, ended)
    requires forall f | f in gone && f in s.sess.tags && f in s.unsent && s.sess.tags[f].kind.Flush? ::
        s.sess.tags[f].flushOldtag in gone
    ensures AllRegistered(u)
  {
    forall r | r in u.rpcs ensures Registered(u, r) { assert Registered(s, r); }
  }

  lemma DropKeepsEntries(s: Sys, u: Sys, gone: set<Tag>, ended: set<nat>)
    requires EntriesOk(s) && Drops(s, u, gone, ended)
    ensures EntriesOk(u)
  {
    forall t | t in u.sess.tags ensures EntryOk(u, t) { assert EntryOk(s, t); }
  }

  lemma DropKeepsFids(s: Sys, u: Sys, gone: set<Tag>, ended: set<nat>)
    requires FidsUsed(s) && Drops(s, u, gone, ended) && u.used == s.used && u.sess.bound <= u.used
    ensures FidsUsed(u)
  {
  }

  /** An rpc that ends: it leaves the registered ones with its fate, and an async op not
      abandoned completes then. */
  lemma FinishFate(s: Sys, r: nat, how: Fate)
    requires FateInv(s) && r in s.rpcs
    ensures FateInv(Finish(s, r, how))
  {
  }

  lemma FateOnly(s: Sys, u: Sys)
    requires FateInv(s) && u.rpcs.Keys == s.rpcs.Keys && u.nextRpc == s.nextRpc && u.asyncs == s.asyncs
    requires u.fate == s.fate && u.fired == s.fired && forall r | r in s.rpcs :: u.rpcs[r].async == s.rpcs[r].async
    ensures FateInv(u)
  {
  }

  lemma TakeBackKeeps(s: Sys, t: Tag)
    requires SysInv(s) && Enabled(s, TakeBack(t))
    ensures SysInv(DoTakeBack(s, t))
  {
    TakeBackSess(s, t);
    TakeBackWire(s, t);
    TakeBackTables(s, t);
    TakeBackFate(s, t);
  }

  ghost function OwnerSet(e: Entry): set<nat> { if e.owner.Some? then {e.owner.value} else {} }

  /** A take-back frees exactly the tag; a Tclunk's fid is bound again on a live session. */
  lemma TakeBackForm(s: Session, t: Tag, retract: bool)
    requires t in s.tags && !s.tags[t].awaitingFlush && !s.tags[t].abandoned
    ensures var r := if s.tags[t].kind.Clunk? && retract then RetractUnsent(s, t).0 else AbortUnsent(s, t);
      r.tags == s.tags - {t} && s.bound <= r.bound <= s.bound + {s.tags[t].fid}
  {
    assert Unslot(s, t).tags - {t} == s.tags - {t};
  }

  lemma TakeBackSess(s: Sys, t: Tag)
    requires SI.Inv(s.sess) && EntriesOk(s) && Enabled(s, TakeBack(t))
    ensures SI.Inv(DoTakeBack(s, t).sess)
  {
    assert EntryOk(s, t);
    if s.sess.tags[t].kind.Clunk? && !s.dead {
      SI.RetractUnsentRebinds(s.sess, t);
    } else {
      SI.AbortUnsentKeeps(s.sess, t);
    }
  }

  lemma TakeBackWire(s: Sys, t: Tag)
    requires WireInv(s) && EntriesOk(s) && Enabled(s, TakeBack(t))
    ensures WireInv(DoTakeBack(s, t))
  {
    assert EntryOk(s, t);
    TakeBackForm(s.sess, t, !s.dead);
    W.WireFollows(s, DoTakeBack(s, t), {});
  }

  lemma TakeBackDrops(s: Sys, t: Tag)
    requires AllRegistered(s) && EntriesOk(s) && Enabled(s, TakeBack(t))
    ensures Drops(s, DoTakeBack(s, t), {t}, OwnerSet(s.sess.tags[t]))
  {
    assert EntryOk(s, t);
    TakeBackForm(s.sess, t, !s.dead);
    forall r | r in s.rpcs ensures r in OwnerSet(s.sess.tags[t]) <==> s.rpcs[r].tag in {t} { assert Registered(s, r); }
  }

  lemma TakeBackTables(s: Sys, t: Tag)
    requires AllRegistered(s) && EntriesOk(s) && FidsUsed(s) && Enabled(s, TakeBack(t))
    ensures var u := DoTakeBack(s, t); AllRegistered(u) && EntriesOk(u) && FidsUsed(u)
  {
    var u := DoTakeBack(s, t);
    var ended := OwnerSet(s.sess.tags[t]);
    assert EntryOk(s, t);
    TakeBackDrops(s, t);
    TakeBackForm(s.sess, t, !s.dead);
    DropKeepsRegs(s, u, {t}, ended);
    DropKeepsEntries(s, u, {t}, ended);
    DropKeepsFids(s, u, {t}, ended);
  }

  lemma TakeBackFate(s: Sys, t: Tag)
    requires FateInv(s) && AllRegistered(s) && Enabled(s, TakeBack(t))
    ensures FateInv(DoTakeBack(s, t))
  {
    var e := s.sess.tags[t];
    if e.owner.Some? { FinishFate(s, e.owner.value, NeverSent); }
  }

  // ---------------------------------------------------------------------------
  // Owners that depart.
  // ---------------------------------------------------------------------------

  /** The op on tag `t` stays in flight as `e`, ownerless from now on; its rpc, if it had one,
      ends, and its slot may have been turned into a binding. */
  ghost predicate Departs(s: Sys, u: Sys, t: Tag, e: Entry) {
    && t in s.sess.tags && u.sess.tags == s.sess.tags[t := e] && e.owner.None?
    && u.rpcs == s.rpcs - OwnerSet(s.sess.tags[t])
    && u.unsent == s.unsent && u.used == s.used && u.dead == s.dead && u.sess.bound <= u.used
    && var o := s.sess.tags[t];
      e.kind == o.kind && e.fid == o.fid && e.newFid == o.newFid && (e.holdsSlot ==> o.holdsSlot) && e.opId == o.opId
      && e.walkNwname == o.walkNwname && e.flushOldtag == o.flushOldtag
  }

  lemma DepartKeepsTables(s: Sys, u: Sys, t: Tag, e: Entry)
    requires AllRegistered(s) && EntriesOk(s) && FidsUsed(s) && Departs(s, u, t, e) && EntryOk(u, t)
    ensures AllRegistered(u) && EntriesOk(u) && FidsUsed(u)
  {
    forall x | x in u.rpcs ensures Registered(u, x) {
      assert Registered(s, x);
    }
    forall x | x in u.sess.tags ensures EntryOk(u, x) {
      if x != t { assert EntryOk(s, x); }
    }
  }

  lemma DepartKeepsWire(s: Sys, u: Sys, t: Tag, e: Entry)
    requires WireInv(s) && Departs(s, u, t, e) && W.SameWire(s, u)
    ensures WireInv(u)
  {
    W.WireFollows(s, u, {});
  }

  /** The entry an owner that departs without a Tflush on the wire of its own leaves behind. */
  ghost function LeftEntry(s: Sys, r: nat, how: Flushing): Entry
    requires r in s.rpcs && s.rpcs[r].tag in s.sess.tags
  {
    var e := s.sess.tags[s.rpcs[r].tag].(owner := None);
    if e.kind.Clunk? then e
    else if s.rpcs[r].flushing then e.(ownerWaits := false)
    else if how.NoTag? then e.(abandoned := true)
    else e.(awaitingFlush := false, ownerWaits := false, flushTag := 0, abandoned := true)
  }

  predicate SendsFlush(s: Sys, r: nat, how: Flushing)
    requires r in s.rpcs && s.rpcs[r].tag in s.sess.tags
  {
    how.Sent? && !s.sess.tags[s.rpcs[r].tag].kind.Clunk? && !s.rpcs[r].flushing
  }

  lemma LeaveForm(s: Sys, r: nat, how: Flushing)
    requires Enabled(s, Leave(r, how)) && Registered(s, r) && !SendsFlush(s, r, how) && FidsUsed(s)
    ensures var u := DoLeave(s, r, how);
      Departs(s, u, s.rpcs[r].tag, LeftEntry(s, r, how)) && W.SameWire(s, u)
  {
    var t := s.rpcs[r].tag;
    if how.RolledBack? && !s.sess.tags[t].kind.Clunk? && !s.rpcs[r].flushing {
      RollbackForm(Unregister(s, r).sess, how.g, t);
    }
  }

  /** A Tflush staged and rolled back at once leaves only the mark that the owner is gone. */
  lemma RollbackForm(s: Session, f: Tag, t: Tag)
    requires t in s.tags && f !in s.tags
    ensures var r := FlushRollback(SendFlush(s, f, t), t);
      r.bound == s.bound
      && r.tags ==
          s.tags[t := s.tags[t].(awaitingFlush := false, ownerWaits := false, flushTag := 0, abandoned := true)]
  {
  }

  lemma LeaveSess(s: Sys, r: nat, how: Flushing)
    requires SI.Inv(s.sess) && Enabled(s, Leave(r, how)) && Registered(s, r)
    ensures SI.Inv(DoLeave(s, r, how).sess)
  {
    var t := s.rpcs[r].tag;
    var w := Unregister(s, r).sess;
    SI.FlagsKeep(s.sess, t, s.sess.tags[t].(owner := None));
    if s.sess.tags[t].kind.Clunk? {
    } else if s.rpcs[r].flushing {
      SI.FlagsKeep(w, t, w.tags[t].(ownerWaits := false));
    } else {
      match how
      case NoTag => SI.FlagsKeep(w, t, w.tags[t].(abandoned := true));
      case Sent(f) => SI.SendFlushKeeps(w, f, t);
      case RolledBack(f) =>
        SI.SendFlushKeeps(w, f, t);
        SI.FlushRollbackKeeps(SendFlush(w, f, t), t);
    }
  }

  lemma LeaveKeeps(s: Sys, r: nat, how: Flushing)
    requires SysInv(s) && Enabled(s, Leave(r, how))
    ensures SysInv(DoLeave(s, r, how))
  {
    assert Registered(s, r);
    LeaveSess(s, r, how);
    LeaveFate(s, r, how);
    if SendsFlush(s, r, how) {
      LeaveSending(s, r, how.f);
      LeaveSendingRegs(s, r, how.f);
      LeaveSendingWire(s, r, how.f);
    } else {
      LeaveQuietly(s, r, how);
    }
  }

  lemma LeaveFate(s: Sys, r: nat, how: Flushing)
    requires FateInv(s) && Enabled(s, Leave(r, how))
    ensures FateInv(DoLeave(s, r, how))
  {
    FinishFate(s, r, Left);
    FateOnly(Finish(s, r, Left), DoLeave(s, r, how));
  }

  lemma LeaveQuietly(s: Sys, r: nat, how: Flushing)
    requires WireInv(s) && AllRegistered(s) && EntriesOk(s) && FidsUsed(s) && Enabled(s, Leave(r, how))
    requires !SendsFlush(s, r, how)
    ensures var u := DoLeave(s, r, how); WireInv(u) && AllRegistered(u) && EntriesOk(u) && FidsUsed(u)
  {
    var e := LeftEntry(s, r, how);
    assert Registered(s, r) && EntryOk(s, s.rpcs[r].tag);
    LeaveForm(s, r, how);
    DepartKeepsTables(s, DoLeave(s, r, how), s.rpcs[r].tag, e);
    DepartKeepsWire(s, DoLeave(s, r, how), s.rpcs[r].tag, e);
  }

  // ---------------------------------------------------------------------------
  // Tflushes that are staged, sent at once, or taken back.
  // ---------------------------------------------------------------------------

  /** A Tflush for tag `t` appears at tag `f`; `t` becomes `e`. */
  ghost predicate StagesFlush(s: Sys, u: Sys, t: Tag, f: Tag, e: Entry) {
    && f !in s.sess.tags && t in s.sess.tags && CanFlush(s.sess, t)
    && u.sess.tags == s.sess.tags[f := FlushEntry(s.sess, t)][t := e]
    && u.used == s.used && u.dead == s.dead && u.sess.bound == s.sess.bound
    && var o := s.sess.tags[t];
      e == o.(awaitingFlush := true, flushTag := f, owner := e.owner, ownerWaits := e.ownerWaits)
  }

  ghost function FlushEntry(s: Session, t: Tag): Entry {
    Fresh(Flush, s.rootFid, s.rootFid, s.nextOpId + 1).(flushOldtag := t)
  }

  lemma FlushKeepsEntries(s: Sys, u: Sys, t: Tag, f: Tag, e: Entry)
    requires EntriesOk(s) && FidsUsed(s) && StagesFlush(s, u, t, f, e) && s.unsent <= u.unsent <= s.unsent + {f}
    requires t !in s.unsent && !s.sess.tags[t].kind.Clunk? && !s.sess.tags[t].abandoned
    ensures EntriesOk(u) && FidsUsed(u)
  {
    forall x | x in u.sess.tags ensures EntryOk(u, x) {
      if x != f { assert EntryOk(s, x); }
    }
  }

  lemma LeaveSendingForm(s: Sys, r: nat, f: Tag)
    requires Enabled(s, Leave(r, Sent(f))) && SendsFlush(s, r, Sent(f)) && CanFlush(s.sess, s.rpcs[r].tag)
    ensures var u := DoLeave(s, r, Sent(f)); var t := s.rpcs[r].tag;
      StagesFlush(s, u, t, f, s.sess.tags[t].(owner := None, awaitingFlush := true, flushTag := f)) &&
          u.unsent == s.unsent
  {
  }

  lemma LeaveSending(s: Sys, r: nat, f: Tag)
    requires EntriesOk(s) && FidsUsed(s) && Enabled(s, Leave(r, Sent(f))) && SendsFlush(s, r, Sent(f))
    requires Registered(s, r)
    ensures var u := DoLeave(s, r, Sent(f)); EntriesOk(u) && FidsUsed(u)
  {
    var t := s.rpcs[r].tag;
    assert EntryOk(s, t);
    LeaveSendingForm(s, r, f);
    FlushKeepsEntries(s, DoLeave(s, r, Sent(f)), t, f,
        s.sess.tags[t].(owner := None, awaitingFlush := true, flushTag := f));
  }

  lemma LeaveSendingWire(s: Sys, r: nat, f: Tag)
    requires WireInv(s) && SI.FlushLinks(s.sess) && EntriesOk(s)
    requires Enabled(s, Leave(r, Sent(f))) && SendsFlush(s, r, Sent(f)) && Registered(s, r)
    ensures WireInv(DoLeave(s, r, Sent(f)))
  {
    LeaveSendingForm(s, r, f);
    SentFlushWire(s, DoLeave(s, r, Sent(f)), s.rpcs[r].tag, f);
  }

  lemma SentFlushWire(s: Sys, u: Sys, t: Tag, f: Tag)
    requires WireInv(s) && SI.FlushLinks(s.sess) && EntriesOk(s) && t in s.sess.tags && f !in s.sess.tags
    requires StagesFlush(s, u, t, f, s.sess.tags[t].(owner := None, awaitingFlush := true, flushTag := f))
    requires u.unsent == s.unsent && u.c2s == s.c2s + [Request(u.sess, f)] && u.pend == s.pend && u.s2c == s.s2c
    ensures WireInv(u)
  {
    W.UnsentIsQuiet(s, f);
    NotVictim(s, f);
    W.SendKeepsWire(s, u, f);
  }

  /** A free tag is no Tflush's victim. */
  lemma NotVictim(s: Sys, t: Tag)
    requires SI.FlushLinks(s.sess) && t !in s.sess.tags
    ensures forall f | f in s.sess.tags && s.sess.tags[f].kind.Flush? :: s.sess.tags[f].flushOldtag != t
  {
  }

  lemma LeaveSendingRegs(s: Sys, r: nat, f: Tag)
    requires AllRegistered(s) && EntriesOk(s) && Enabled(s, Leave(r, Sent(f))) && SendsFlush(s, r, Sent(f))
    ensures AllRegistered(DoLeave(s, r, Sent(f)))
  {
    var u := DoLeave(s, r, Sent(f));
    assert Registered(s, r);
    forall x | x in u.rpcs ensures Registered(u, x) { assert Registered(s, x); }
  }

  lemma StageKeeps(s: Sys, r: nat, f: Tag)
    requires SysInv(s) && Enabled(s, StageFlush(r, f))
    ensures SysInv(DoStageFlush(s, r, f))
  {
    assert Registered(s, r);
    StageSess(s, r, f);
    StageEntries(s, r, f);
    StageWire(s, r, f);
    StageRegs(s, r, f);
    StageFate(s, r, f);
  }

  lemma StageFate(s: Sys, r: nat, f: Tag)
    requires FateInv(s) && Enabled(s, StageFlush(r, f))
    ensures FateInv(DoStageFlush(s, r, f))
  {
    FateOnly(s, DoStageFlush(s, r, f));
  }

  lemma StageForm(s: Sys, r: nat, f: Tag)
    requires Enabled(s, StageFlush(r, f))
    ensures var t := s.rpcs[r].tag;
      StagesFlush(s, DoStageFlush(s, r, f), t, f,
          s.sess.tags[t].(awaitingFlush := true, flushTag := f, ownerWaits := true))
  {
  }

  lemma StageSess(s: Sys, r: nat, f: Tag)
    requires SI.Inv(s.sess) && Enabled(s, StageFlush(r, f))
    ensures SI.Inv(DoStageFlush(s, r, f).sess)
  {
    var t := s.rpcs[r].tag;
    SI.SendFlushKeeps(s.sess, f, t);
    var w := SendFlush(s.sess, f, t);
    SI.FlagsKeep(w, t, w.tags[t].(ownerWaits := true));
  }

  lemma StageEntries(s: Sys, r: nat, f: Tag)
    requires EntriesOk(s) && FidsUsed(s) && Enabled(s, StageFlush(r, f)) && Registered(s, r)
    ensures EntriesOk(DoStageFlush(s, r, f)) && FidsUsed(DoStageFlush(s, r, f))
  {
    var t := s.rpcs[r].tag;
    assert EntryOk(s, t);
    StageForm(s, r, f);
    FlushKeepsEntries(s, DoStageFlush(s, r, f), t, f,
        s.sess.tags[t].(awaitingFlush := true, flushTag := f, ownerWaits := true));
  }

  lemma StageWire(s: Sys, r: nat, f: Tag)
    requires WireInv(s) && Enabled(s, StageFlush(r, f))
    ensures WireInv(DoStageFlush(s, r, f))
  {
    StageForm(s, r, f);
    W.WireFollows(s, DoStageFlush(s, r, f), {});
  }

  lemma StageRegs(s: Sys, r: nat, f: Tag)
    requires AllRegistered(s) && EntriesOk(s) && Enabled(s, StageFlush(r, f))
    ensures AllRegistered(DoStageFlush(s, r, f))
  {
    var u := DoStageFlush(s, r, f);
    forall x | x in u.rpcs ensures Registered(u, x) { assert Registered(s, x); }
  }

  /** Taking back a staged Tflush: its tag is free, its victim an ordinary op again. */
  lemma RetractForm(s: Session, t: Tag)
    requires t in s.tags && s.tags[t].awaitingFlush && !s.tags[t].kind.Flush?
    requires var f := s.tags[t].flushTag; f in s.tags && s.tags[f].kind.Flush? && s.tags[f].flushOldtag == t
    ensures var r := FlushRetract(s, t); var f := s.tags[t].flushTag;
      && f != t && r.bound == s.bound
      && r.tags == (s.tags - {f})[t := s.tags[t].(awaitingFlush := false, ownerWaits := false, flushTag := 0)]
  {
  }

  lemma RetractKeeps(s: Sys, r: nat)
    requires SysInv(s) && Enabled(s, RetractFlush(r))
    ensures SysInv(DoRetractFlush(s, r))
  {
    assert Registered(s, r);
    SI.FlushUnstageKeeps(s.sess, s.rpcs[r].tag);
    RetractEntries(s, r);
    RetractWire(s, r);
    RetractRegs(s, r);
    FateOnly(s, DoRetractFlush(s, r));
  }

  lemma RetractEntries(s: Sys, r: nat)
    requires EntriesOk(s) && FidsUsed(s) && Enabled(s, RetractFlush(r)) && Registered(s, r)
    ensures EntriesOk(DoRetractFlush(s, r)) && FidsUsed(DoRetractFlush(s, r))
  {
    var u := DoRetractFlush(s, r);
    RetractForm(s.sess, s.rpcs[r].tag);
    forall x | x in u.sess.tags ensures EntryOk(u, x) { assert EntryOk(s, x); }
  }

  lemma RetractWire(s: Sys, r: nat)
    requires WireInv(s) && Enabled(s, RetractFlush(r)) && Registered(s, r)
    ensures WireInv(DoRetractFlush(s, r))
  {
    RetractForm(s.sess, s.rpcs[r].tag);
    W.WireFollows(s, DoRetractFlush(s, r), {});
  }

  lemma RetractRegs(s: Sys, r: nat)
    requires AllRegistered(s) && Enabled(s, RetractFlush(r))
    ensures AllRegistered(DoRetractFlush(s, r))
  {
    var u := DoRetractFlush(s, r);
    assert Registered(s, r);
    RetractForm(s.sess, s.rpcs[r].tag);
    forall x | x in u.rpcs ensures Registered(u, x) {
      assert Registered(s, x);
      assert x != r ==> s.sess.tags[s.rpcs[x].tag].owner == Some(x);
    }
  }

  // ---------------------------------------------------------------------------
  // Session death.
  // ---------------------------------------------------------------------------

  lemma DeadReturnKeeps(s: Sys, r: nat)
    requires SysInv(s) && Enabled(s, DeadReturn(r))
    ensures SysInv(Finish(Unregister(s, r), r, Died))
  {
    assert Registered(s, r);
    SI.FlagsKeep(s.sess, s.rpcs[r].tag, s.sess.tags[s.rpcs[r].tag].(owner := None));
    DeadReturnTables(s, r);
    FinishFate(s, r, Died);
    FateOnly(Finish(s, r, Died), Finish(Unregister(s, r), r, Died));
  }

  lemma DeadReturnTables(s: Sys, r: nat)
    requires WireInv(s) && AllRegistered(s) && EntriesOk(s) && FidsUsed(s) && Enabled(s, DeadReturn(r))
    ensures var u := Finish(Unregister(s, r), r, Died); WireInv(u) && AllRegistered(u) && EntriesOk(u) && FidsUsed(u)
  {
    var u := Finish(Unregister(s, r), r, Died);
    var t := s.rpcs[r].tag;
    var e := s.sess.tags[t].(owner := None);
    assert Registered(s, r) && EntryOk(s, t);
    DepartKeepsTables(s, u, t, e);
    DepartKeepsWire(s, u, t, e);
  }

  lemma MarkDeadKeeps(s: Sys)
    requires SysInv(s)
    ensures SysInv(DoMarkDead(s))
  {
    var u := DoMarkDead(s);
    MarkDeadSess(s);
    W.WireFollows(s, u, {});
    MarkDeadTables(s);
    MarkDeadFate(s);
  }

  lemma MarkDeadSess(s: Sys)
    requires SI.Inv(s.sess)
    ensures SI.Inv(DoMarkDead(s).sess)
  {
    MarkDeadFids(s);
    MarkDeadTags(s);
    MarkDeadLinks(s);
  }

  lemma MarkDeadFids(s: Sys)
    requires SI.FidInv(s.sess)
    ensures SI.FidInv(DoMarkDead(s).sess)
  {
    assert Holders(DoMarkDead(s).sess.tags) == Holders(s.sess.tags);
  }

  lemma MarkDeadTags(s: Sys)
    requires SI.TagInv(s.sess)
    ensures SI.TagInv(DoMarkDead(s).sess)
  {
    assert Ops(DoMarkDead(s).sess.tags) == Ops(s.sess.tags);
  }

  lemma MarkDeadLinks(s: Sys)
    requires SI.FlushLinks(s.sess)
    ensures SI.FlushLinks(DoMarkDead(s).sess)
  {
  }

  lemma MarkDeadTables(s: Sys)
    requires AllRegistered(s) && EntriesOk(s) && FidsUsed(s)
    ensures var u := DoMarkDead(s); AllRegistered(u) && EntriesOk(u) && FidsUsed(u)
  {
    var u := DoMarkDead(s);
    forall x | x in u.rpcs ensures Registered(u, x) { assert Registered(s, x); }
    forall x | x in u.sess.tags ensures EntryOk(u, x) { assert EntryOk(s, x); }
  }

  lemma MarkDeadFate(s: Sys)
    requires FateInv(s)
    ensures FateInv(DoMarkDead(s))
  {
  }
}
