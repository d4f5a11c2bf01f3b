/**
 The flat specification of an open 9P2000.L session: a set of bound fids and a map from each
 tag in flight to its bookkeeping entry.  Every session call is a function on that value.
 The chunked table with cached counters that the kernel keeps is proved against it in
 TagTable; ClientRun composes it with the wire and a server.
 */
module SessionSpec {
  import opened Options

  type Tag = nat
  type Fid = nat

  const NOFID: Fid := 0xFFFF_FFFF

  /** The request kinds whose handling differs; `Plain` is every other T-message. */
  datatype Kind = Walk | WalkGetattr | Clunk | Flush | Plain(code: nat)

  /** An R-message is an Rlerror, or names the T-message it answers. */
  datatype ReplyType = RError | RFor(kind: Kind)

  /** A framed reply; `intact` says that the parser for its type accepts the body. */
  datatype Reply = Reply(tag: Tag, rtype: ReplyType, nwqid: nat, intact: bool)

  datatype Entry = Entry(
    kind: Kind,
    fid: Fid,
    newFid: Fid,
    opId: nat,
    awaitingFlush: bool,
    ownerWaits: bool,
    abandoned: bool,
    holdsSlot: bool,
    flushOldtag: Tag,
    flushTag: Tag,
    walkNwname: nat,
    async: bool,
    owner: Option<nat>)

  datatype Limits = Limits(maxFids: nat, opsMax: nat, tagLimit: nat)

  datatype Session = Session(
    cap: Limits,
    rootFid: Fid,
    bound: set<Fid>,
    tags: map<Tag, Entry>,
    nextOpId: nat)

  function Fresh(kind: Kind, fid: Fid, newFid: Fid, opId: nat): Entry {
    Entry(kind, fid, newFid, opId, false, false, false, false, 0, 0, 0, false, None)
  }

  predicate IsWalk(k: Kind) { k.Walk? || k.WalkGetattr? }

  function Holders(tags: map<Tag, Entry>): set<Tag> { set t | t in tags && tags[t].holdsSlot }
  function Flushes(tags: map<Tag, Entry>): set<Tag> { set t | t in tags && tags[t].kind.Flush? }
  function Ops(tags: map<Tag, Entry>): set<Tag> { set t | t in tags && !tags[t].kind.Flush? }

  /** The fid an entry will bind, or take back, into the slot it holds. */
  function Claim(e: Entry): Fid { if e.kind.Clunk? then e.fid else e.newFid }

  // ---------------------------------------------------------------------------
  // Queries.
  // ---------------------------------------------------------------------------

  /** An op that may still act on its fid: neither a flush, nor cancelled, nor abandoned. */
  predicate Live(e: Entry) {
    !e.kind.Flush? && (e.awaitingFlush ==> e.ownerWaits) && !e.abandoned
  }

  predicate Busy(s: Session, fid: Fid) {
    exists t :: t in s.tags && Live(s.tags[t]) && (s.tags[t].fid == fid || s.tags[t].newFid == fid)
  }

  predicate SlotAvailable(s: Session) { |s.bound| + |Holders(s.tags)| < s.cap.maxFids }

  predicate OpShareHasRoom(s: Session) { |Ops(s.tags)| < s.cap.opsMax }

  predicate Lowest(s: Session, t: Tag) {
    t !in s.tags && t < s.cap.tagLimit && forall u: Tag :: u < t ==> u in s.tags
  }

  // ---------------------------------------------------------------------------
  // Tag and slot primitives.
  // ---------------------------------------------------------------------------

  function Put(s: Session, t: Tag, e: Entry): Session { s.(tags := s.tags[t := e]) }

  /** Mark tag `t` outstanding with the op described by `e`, which takes the next op id. */
  function Place(s: Session, t: Tag, e: Entry): Session {
    Put(s, t, e).(nextOpId := s.nextOpId + 1)
  }

  function Clear(s: Session, t: Tag): Session { s.(tags := s.tags - {t}) }

  function Unslot(s: Session, t: Tag): Session
    requires t in s.tags
  {
    Put(s, t, s.tags[t].(holdsSlot := false))
  }

  /** Bind `fid` into the slot held by `t`; the flag says whether it was bound. */
  function SlotBind(s: Session, t: Tag, fid: Fid): (Session, bool)
    requires t in s.tags
  {
    var r := Unslot(s, t);
    if fid in r.bound || |r.bound| >= r.cap.maxFids then (r, false)
    else (r.(bound := r.bound + {fid}), true)
  }

  // ---------------------------------------------------------------------------
  // Sends.  `t` is the tag the allocator returned.
  // ---------------------------------------------------------------------------

  predicate CanWalk(s: Session, src: Fid, dst: Fid) {
    && src in s.bound && dst !in s.bound && dst != NOFID && dst != s.rootFid
    && !Busy(s, dst) && SlotAvailable(s) && OpShareHasRoom(s)
  }

  function SendWalk(s: Session, t: Tag, kind: Kind, src: Fid, dst: Fid, nwname: nat): Session {
    Place(s, t, Fresh(kind, src, dst, s.nextOpId + 1).(walkNwname := nwname, holdsSlot := dst != NOFID))
  }

  /** The walk query: Twalkgetattr naming no destination, so no slot and no fid gate. */
  predicate CanQuery(s: Session, src: Fid) { src in s.bound && OpShareHasRoom(s) }

  predicate CanWalkGetattr(s: Session, src: Fid,
                           dst: Fid) { if dst == NOFID then CanQuery(s, src) else CanWalk(s, src, dst) }

  predicate CanClunk(s: Session, fid: Fid) {
    fid in s.bound && fid != s.rootFid && !Busy(s, fid) && OpShareHasRoom(s)
  }

  function SendClunk(s: Session, t: Tag, fid: Fid): Session {
    Place(s.(bound := s.bound - {fid}), t, Fresh(Clunk, fid, fid, s.nextOpId + 1).(holdsSlot := true))
  }

  predicate CanPlain(s: Session, fid: Fid, exclusive: bool) {
    fid in s.bound && (exclusive ==> !Busy(s, fid)) && OpShareHasRoom(s)
  }

  function SendPlain(s: Session, t: Tag, code: nat, fid: Fid): Session {
    Place(s, t, Fresh(Plain(code), fid, fid, s.nextOpId + 1))
  }

  predicate CanFlush(s: Session, victim: Tag) {
    victim in s.tags && !s.tags[victim].kind.Flush? && !s.tags[victim].awaitingFlush
  }

  function SendFlush(s: Session, t: Tag, victim: Tag): Session
    requires victim in s.tags
  {
    var m := Place(s, t, Fresh(Flush, s.rootFid, s.rootFid, s.nextOpId + 1).(flushOldtag := victim));
    Put(m, victim, m.tags[victim].(awaitingFlush := true, flushTag := t))
  }

  // ---------------------------------------------------------------------------
  // Take-backs of what never reached the wire.
  // ---------------------------------------------------------------------------

  function AbortUnsent(s: Session, t: Tag): Session {
    if t !in s.tags || s.tags[t].awaitingFlush || s.tags[t].abandoned then s else Clear(s, t)
  }

  function RetractUnsent(s: Session, t: Tag): (Session, bool) {
    if t !in s.tags || s.tags[t].awaitingFlush || s.tags[t].abandoned then (s, false)
    else if s.tags[t].kind.Clunk? then
      var (r, ok) := SlotBind(s, t, s.tags[t].fid);
      (Clear(r, t), ok)
    else (Clear(s, t), true)
  }

  function FlushUnstage(s: Session, victim: Tag): (Session, bool) {
    if victim !in s.tags || !s.tags[victim].awaitingFlush then (s, false)
    else
      var f := s.tags[victim].flushTag;
      if f !in s.tags || !s.tags[f].kind.Flush? || s.tags[f].flushOldtag != victim then (s, false)
      else
        var c := Clear(s, f);
        if victim !in c.tags then (c, true)
        else (Put(c, victim, c.tags[victim].(awaitingFlush := false, ownerWaits := false, flushTag := 0)), true)
  }

  function FlushRollback(s: Session, victim: Tag): Session {
    var (r, ok) := FlushUnstage(s, victim);
    if ok && victim in r.tags then Put(r, victim, r.tags[victim].(abandoned := true)) else r
  }

  function FlushRetract(s: Session, victim: Tag): Session { FlushUnstage(s, victim).0 }

  function MarkAbandoned(s: Session, t: Tag): Session {
    if t !in s.tags || s.tags[t].awaitingFlush then s else Put(s, t, s.tags[t].(abandoned := true))
  }

  function FlushOwnerWaits(s: Session, victim: Tag, waits: bool): Session {
    if victim !in s.tags || !s.tags[victim].awaitingFlush then s
    else Put(s, victim, s.tags[victim].(ownerWaits := waits))
  }

  function SetOwner(s: Session, t: Tag, owner: Option<nat>): Session {
    if t !in s.tags then s else Put(s, t, s.tags[t].(owner := owner))
  }

  function MarkAsync(s: Session, t: Tag): Session {
    if t !in s.tags || s.tags[t].kind.Flush? then s else Put(s, t, s.tags[t].(async := true))
  }

  // ---------------------------------------------------------------------------
  // Replies.
  // ---------------------------------------------------------------------------

  /** What a dispatch leaves: the session, whether the reply fitted, and what it reported. */
  datatype Applied = Applied(s: Session, ok: bool, isError: bool, boundFid: Fid)

  /** A reply answers a walk in full: every name was walked, so the server bound the new fid. */
  predicate FullWalk(e: Entry, r: Reply) {
    IsWalk(e.kind) && r.rtype == RFor(e.kind) && r.intact && r.nwqid == e.walkNwname
  }

  /** The reply has a type the op admits and its body parses. */
  predicate Fits(e: Entry, r: Reply) {
    && r.intact
    && (r.rtype == RError || r.rtype == RFor(e.kind))
    && (IsWalk(e.kind) && r.rtype != RError ==> r.nwqid <= e.walkNwname)
  }

  /** Apply a reply to the op it answers; whether the tag is freed is the caller's. */
  function Apply(s: Session, t: Tag, r: Reply): Applied
    requires t in s.tags
  {
    var e := s.tags[t];
    if !Fits(e, r) then Applied(s, false, false, NOFID)
    else if r.rtype.RError? then Applied(s, true, true, NOFID)
    else if FullWalk(e, r) && (e.kind.Walk? || e.newFid != NOFID) then
      var (b, ok) := SlotBind(s, t, e.newFid);
      Applied(b, true, !ok, if ok then e.newFid else NOFID)
    else if e.kind.Flush? && e.flushOldtag in s.tags && s.tags[e.flushOldtag].awaitingFlush then
      Applied(Clear(s, e.flushOldtag), true, false, NOFID)
    else Applied(s, true, false, NOFID)
  }

  /** The late reply of an op that a Tflush is cancelling: only a full walk acts. */
  function HonourLateWalk(s: Session, t: Tag, r: Reply): Applied
    requires t in s.tags
  {
    var e := s.tags[t];
    if !e.holdsSlot || !FullWalk(e, r) then Applied(s, true, false, NOFID)
    else
      var (b, ok) := SlotBind(s, t, e.newFid);
      Applied(b, true, false, if ok then e.newFid else NOFID)
  }

  function Dispatch(s: Session, r: Reply): Applied {
    if r.tag !in s.tags then Applied(s, false, false, NOFID)
    else if s.tags[r.tag].awaitingFlush then HonourLateWalk(s, r.tag, r)
    else
      var a := Apply(s, r.tag, r);
      if a.ok then a.(s := Clear(a.s, r.tag)) else a
  }

  /** The reply of a flushed op whose owner still waits: honoured, its tag stays reserved. */
  function DispatchFlushed(s: Session, r: Reply): Applied {
    if r.tag !in s.tags || !s.tags[r.tag].awaitingFlush then Applied(s, false, false, NOFID)
    else
      var a := Apply(s, r.tag, r);
      if r.tag in a.s.tags then a.(s := Put(a.s, r.tag, a.s.tags[r.tag].(ownerWaits := false))) else a
  }
}
