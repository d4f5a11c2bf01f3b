/**
 The inductive invariant of the 9P client: which messages are in flight, which entries they
 answer, who is registered for them, and what each rpc's fate may be.
 */
module ClientInv {
  import opened Options
  import opened SessionSpec
  import SI = SessionInv
  import opened ClientRun

  // ---------------------------------------------------------------------------
  // Messages in flight.
  // ---------------------------------------------------------------------------

  /** `q` is the request of the op that holds its tag, and that op's frame has left. */
  ghost predicate Attributed(s: Sys, q: Req) {
    && q.tag in s.sess.tags && q.tag !in s.unsent
    && q == Request(s.sess, q.tag)
  }

  ghost predicate AllAttributed(s: Sys) {
    && (forall i | 0 <= i < |s.c2s| :: Attributed(s, s.c2s[i]))
    && (forall q | q in s.pend :: Attributed(s, q))
    && (forall j | 0 <= j < |s.s2c| ::
        Attributed(s, s.s2c[j].req) && Conforms(s.s2c[j].req, s.s2c[j].rtype, s.s2c[j].nwqid))
  }

  /** At most one message in flight carries a tag. */
  ghost predicate OnePerTag(s: Sys) {
    && (forall i, k | 0 <= i < k < |s.c2s| :: s.c2s[i].tag != s.c2s[k].tag)
    && (forall j, k | 0 <= j < k < |s.s2c| :: s.s2c[j].req.tag != s.s2c[k].req.tag)
    && (forall p, q | p in s.pend && q in s.pend && p != q :: p.tag != q.tag)
    && (forall i, q | 0 <= i < |s.c2s| && q in s.pend :: s.c2s[i].tag != q.tag)
    && (forall i, j | 0 <= i < |s.c2s| && 0 <= j < |s.s2c| :: s.c2s[i].tag != s.s2c[j].req.tag)
    && (forall j, q | 0 <= j < |s.s2c| && q in s.pend :: s.s2c[j].req.tag != q.tag)
  }

  /** Nothing behind a Tflush, or behind its Rflush, carries the tag it cancels. */
  ghost predicate FlushOrder(s: Sys) {
    && (forall i, k | 0 <= i < k < |s.c2s| && s.c2s[i].kind.Flush? :: s.c2s[k].tag != s.c2s[i].oldtag)
    && (forall q, k | q in s.pend && q.kind.Flush? && 0 <= k < |s.c2s| :: s.c2s[k].tag != q.oldtag)
    && (forall j, k | 0 <= j < |s.s2c| && IsRflush(s.s2c[j]) && 0 <= k < |s.c2s| :: s.c2s[k].tag != s.s2c[j].req.oldtag)
    && (forall j, q | 0 <= j < |s.s2c| && IsRflush(s.s2c[j]) && q in s.pend :: q.tag != s.s2c[j].req.oldtag)
    && (forall j, k | 0 <= j < k < |s.s2c| && IsRflush(s.s2c[j]) :: s.s2c[k].req.tag != s.s2c[j].req.oldtag)
  }

  predicate IsRflush(p: Rep) { p.req.kind.Flush? && p.rtype == RFor(Flush) }

  ghost predicate WireInv(s: Sys) { AllAttributed(s) && OnePerTag(s) && FlushOrder(s) }

  /** No message in flight carries `t`. */
  ghost predicate Quiet(s: Sys, t: Tag) {
    && (forall i | 0 <= i < |s.c2s| :: s.c2s[i].tag != t)
    && (forall q | q in s.pend :: q.tag != t)
    && (forall j | 0 <= j < |s.s2c| :: s.s2c[j].req.tag != t)
  }

  // ---------------------------------------------------------------------------
  // Registrations.
  // ---------------------------------------------------------------------------

  /** What an rpc and the entry it is registered on agree about. */
  ghost predicate Registered(s: Sys, r: nat) {
    && r in s.rpcs && s.rpcs[r].tag in s.sess.tags
    && var p := s.rpcs[r]; var e := s.sess.tags[p.tag];
    && e.owner == Some(r) && e.opId == p.op && e.async == p.async && !e.kind.Flush?
    && (p.flushing ==> e.awaitingFlush)
    && (e.awaitingFlush ==> p.noted && !p.async)
    && (e.awaitingFlush && !p.flushing ==>
          e.flushTag in s.unsent && e.flushTag in s.sess.tags
          && s.sess.tags[e.flushTag].kind.Flush? && s.sess.tags[e.flushTag].flushOldtag == p.tag)
  }

  ghost predicate AllRegistered(s: Sys) {
    && (forall r | r in s.rpcs :: Registered(s, r))
    && (forall t | t in s.sess.tags && s.sess.tags[t].owner.Some? ::
          s.sess.tags[t].owner.value in s.rpcs && s.rpcs[s.sess.tags[t].owner.value].tag == t)
  }

  /** What each entry may look like, given whether its frame has left. */
  ghost predicate EntryOk(s: Sys, t: Tag)
    requires t in s.sess.tags
  {
    var e := s.sess.tags[t];
    && (t in s.unsent ==> !e.awaitingFlush && !e.abandoned)
    && (e.kind.Clunk? ==> e.holdsSlot && !e.awaitingFlush && !e.abandoned)
    && (e.kind.Flush? ==> e.owner.None? && !e.abandoned)
    && (e.owner.Some? || !e.awaitingFlush ==> SI.WalkArmed(e))
    && (e.abandoned ==> e.owner.None?)
    && (!s.dead && e.owner.None? && !e.kind.Clunk? && !e.kind.Flush? ==> e.awaitingFlush || e.abandoned)
  }

  ghost predicate EntriesOk(s: Sys) {
    && s.unsent <= s.sess.tags.Keys
    && (forall t | t in s.sess.tags :: EntryOk(s, t))
  }

  /** Every fid the session has bound, or may yet bind, has been handed out. */
  ghost predicate FidsUsed(s: Sys) {
    s.sess.bound <= s.used && forall t | t in s.sess.tags && s.sess.tags[t].holdsSlot :: Claim(s.sess.tags[t]) in s.used
  }

  // ---------------------------------------------------------------------------
  // Fates.
  // ---------------------------------------------------------------------------

  /** Each rpc is registered or has a fate, never both; a callback ran once for each async op
      whose fate is final and that its submitter did not abandon. */
  ghost predicate FateInv(s: Sys) {
    && (forall r: nat :: r < s.nextRpc <==> r in s.rpcs || r in s.fate)
    && (forall r | r in s.rpcs :: r !in s.fate && (s.rpcs[r].async <==> r in s.asyncs))
    && (forall r | r in s.asyncs :: r < s.nextRpc)
    && (forall r: nat :: s.fired[r] == if r in s.asyncs && r in s.fate && s.fate[r] != Left then 1 else 0)
  }

  ghost predicate SysInv(s: Sys) {
    SI.Inv(s.sess) && WireInv(s) && AllRegistered(s) && EntriesOk(s) && FidsUsed(s) && FateInv(s)
  }

  lemma InitInv(s: Sys)
    requires Init(s)
    ensures SysInv(s)
  {
    assert Holders(s.sess.tags) == {} && Ops(s.sess.tags) == {};
  }
}
