/**
 The invariant of the closer pool and its preservation by every step.
 */
module CloserInv {
  import opened Options
  import opened CloserPool
  import opened Sets

  // ---------------------------------------------------------------------------
  // One session.
  // ---------------------------------------------------------------------------

  /** The session a closer is busy with or still owes an unref. */
  predicate Concerns(ph: Phase, sid: SessionId) {
    (ph.Serving? || ph.Sending? || ph.Dropping?) && ph.sid == sid
  }

  /** The closer has the session to itself. */
  predicate Serves(ph: Phase, sid: SessionId) { Concerns(ph, sid) && (ph.Dropping? ==> !ph.done) }

  /** The closer holds the reference of an entry it took. */
  predicate HoldsRef(ph: Phase, sid: SessionId) { Concerns(ph, sid) && !ph.Serving? }

  ghost function Holding(closers: map<CloserId, Closer>, sid: SessionId): set<CloserId> {
    set k | k in closers && HoldsRef(closers[k].phase, sid)
  }

  /** The entry in the hand of the closer that serves the session. */
  ghost function Hand(a: Attached, closers: map<CloserId, Closer>): seq<EntryId> {
    if a.server.Some? && a.server.value in closers && closers[a.server.value].phase.Sending?
    then [closers[a.server.value].phase.entry] else []
  }

  /** A session with queued entries waits on the run-queue or has one closer, never both; its
      entries are attempted in the order they were accepted, each once; and its references are the
      other holders' and one for every entry queued or in a closer's hands. */
  ghost predicate SessionOk(a: Attached, waits: bool, closers: map<CloserId, Closer>, sid: SessionId) {
    && a.queued == waits && !(a.queued && a.busy)
    && (a.queued ==> a.queue != []) && (a.queue != [] ==> a.queued || a.busy)
    && a.busy == a.server.Some?
    && (a.server.Some? ==> a.server.value in closers && Serves(closers[a.server.value].phase, sid))
    && (a.server.Some? && !closers[a.server.value].phase.Sending? ==> a.queue != [])
    && a.accepted == a.attempted + Hand(a, closers) + a.queue
    && a.refs == a.others + |a.queue| + |Holding(closers, sid)|
    && a.destroyed == (a.refs == 0)
  }

  ghost predicate SessionsOk(p: Pool) {
    forall sid {:trigger SessionOk(p.sessions[sid], sid in p.runq, p.closers, sid)} | sid in p.sessions ::
      SessionOk(p.sessions[sid], sid in p.runq, p.closers, sid)
  }

  // ---------------------------------------------------------------------------
  // One closer.
  // ---------------------------------------------------------------------------

  ghost predicate CloserOk(p: Pool, k: CloserId)
    requires k in p.closers
  {
    var ph := p.closers[k].phase;
    && k < p.nextCloser && k !in p.freed
    && (ph.Born? <==> p.newborn == Some(k))
    && (ph.Serving? || ph.Sending? || ph.Dropping? ==>
        ph.sid in p.sessions && (Serves(ph, ph.sid) ==> p.sessions[ph.sid].server == Some(k)))
    && (ph.Idle? ==> p.idle == Some(k))
    && (ph.Retiring? || ph.Exited? <==> k in p.retired || k in p.reaped)
    && (k in p.reaped ==> ph.Exited? && k !in p.retired)
  }

  ghost predicate ClosersOk(p: Pool) {
    forall k {:trigger CloserOk(p, k)} | k in p.closers :: CloserOk(p, k)
  }

  // ---------------------------------------------------------------------------
  // The pool.
  // ---------------------------------------------------------------------------

  ghost predicate Distinct(q: seq<SessionId>) { forall i, j | 0 <= i < j < |q| :: q[i] != q[j] }

  /** After the start a closer is idle or a spawn is under way, unless a spawn gave up; a session
      that waits while a closer is idle has kicked it; a spawn is one attempt or one newborn. */
  ghost predicate PoolOk(p: Pool) {
    && Distinct(p.runq) && (forall i | 0 <= i < |p.runq| :: p.runq[i] in p.sessions)
    && (p.idle.Some? ==>
        p.idle.value in p.closers && (p.closers[p.idle.value].phase.Idle? || p.closers[p.idle.value].phase.Top?))
    && (p.runq != [] && p.idle.Some? ==> p.closers[p.idle.value].kicked || p.closers[p.idle.value].phase.Top?)
    && (p.spawning <==> p.attempt.Some? || p.newborn.Some?) && !(p.attempt.Some? && p.newborn.Some?)
    && (p.newborn.Some? ==> p.newborn.value in p.closers)
    && (p.idle.Some? || p.spawning || p.gaveUp)
    && p.retired <= p.closers.Keys && p.reaped <= p.closers.Keys
    && (forall k | k in p.freed :: k < p.nextCloser)
  }

  /** The positions of accepted entries not yet attempted: those queued or in hand. */
  ghost function Open(sessions: map<SessionId, Attached>): set<(SessionId, nat)> {
    set sid, i: nat | sid in sessions && |sessions[sid].attempted| <= i < |sessions[sid].accepted| :: (sid, i)
  }

  ghost predicate Inv(p: Pool) { SessionsOk(p) && ClosersOk(p) && PoolOk(p) && p.pending == |Open(p.sessions)| }

  lemma InitInv()
    ensures Inv(Init())
  {
    assert Open(Init().sessions) == {};
  }

  // ---------------------------------------------------------------------------
  // Frames.
  // ---------------------------------------------------------------------------

  /** A closer that moves without touching a session leaves that session's view as it was. */
  lemma SessionFrame(a: Attached, w: bool, cs: map<CloserId, Closer>, ds: map<CloserId, Closer>, k: CloserId,
                     sid: SessionId)
    requires SessionOk(a, w, cs, sid) && cs - {k} == ds - {k}
    requires k in cs ==> !Concerns(cs[k].phase, sid)
    requires k in ds ==> !Concerns(ds[k].phase, sid)
    ensures SessionOk(a, w, ds, sid)
  {
    forall x | x != k
      ensures x in cs <==> x in ds
      ensures x in cs ==> cs[x] == ds[x]
    {
      assert x in cs <==> x in cs - {k};
      assert x in ds <==> x in ds - {k};
      assert x in cs ==> (cs - {k})[x] == cs[x];
      assert x in ds ==> (ds - {k})[x] == ds[x];
    }
    assert Holding(cs, sid) == Holding(ds, sid);
  }

  lemma HoldingMoves(cs: map<CloserId, Closer>, k: CloserId, c: Closer, sid: SessionId)
    requires k in cs
    ensures |Holding(cs[k := c], sid)| == Toggle(|Holding(cs, sid)|, HoldsRef(cs[k].phase, sid), HoldsRef(c.phase, sid))
  {
    var ds := cs[k := c];
    forall x | x != k ensures x in Holding(cs, sid) <==> x in Holding(ds, sid) {}
    SizeMoves(Holding(cs, sid), Holding(ds, sid), k);
  }

  lemma OpenSame(ss: map<SessionId, Attached>, sid: SessionId, b: Attached)
    requires sid !in ss ==> |b.attempted| == |b.accepted|
    requires sid in ss ==> |b.attempted| == |ss[sid].attempted| && |b.accepted| == |ss[sid].accepted|
    ensures Open(ss[sid := b]) == Open(ss)
  {
  }

  lemma OpenMore(ss: map<SessionId, Attached>, sid: SessionId, b: Attached)
    requires sid in ss && |b.attempted| == |ss[sid].attempted| <= |ss[sid].accepted|
    requires |b.accepted| == |ss[sid].accepted| + 1
    ensures |Open(ss[sid := b])| == |Open(ss)| + 1
  {
    var x := (sid, |ss[sid].accepted|);
    assert Open(ss[sid := b]) == Open(ss) + {x} && x !in Open(ss);
  }

  lemma OpenLess(ss: map<SessionId, Attached>, sid: SessionId, b: Attached)
    requires sid in ss && |b.attempted| == |ss[sid].attempted| + 1 <= |ss[sid].accepted| == |b.accepted|
    ensures |Open(ss)| > 0 && |Open(ss[sid := b])| == |Open(ss)| - 1
  {
    var x := (sid, |ss[sid].attempted|);
    assert Open(ss) == Open(ss[sid := b]) + {x} && x !in Open(ss[sid := b]);
  }

  // ---------------------------------------------------------------------------
  // References that no entry holds.
  // ---------------------------------------------------------------------------

  /** The step changes one session's own fields and nothing a closer or the queues can see. */
  lemma OneSession(p: Pool, q: Pool, sid: SessionId, b: Attached)
    requires Inv(p) && q == p.(sessions := p.sessions[sid := b])
    requires SessionOk(b, sid in p.runq, p.closers, sid) && |b.attempted| <= |b.accepted|
    requires if sid in p.sessions
      then b.server == p.sessions[sid].server && |b.attempted| == |p.sessions[sid].attempted| &&
          |b.accepted| == |p.sessions[sid].accepted|
      else b.server.None? && |b.attempted| == |b.accepted|
    ensures Inv(q)
  {
    forall x | x in q.sessions
      ensures SessionOk(q.sessions[x], x in q.runq, q.closers, x)
    {
      if x != sid { assert SessionOk(p.sessions[x], x in p.runq, p.closers, x); }
    }
    forall k | k in q.closers ensures CloserOk(q, k) { assert CloserOk(p, k); }
    OpenSame(p.sessions, sid, b);
  }

  lemma RefStepsKeep(p: Pool, act: Action)
    requires Inv(p) && Enabled(p, act) && (act.Attach? || act.Ref? || act.Unref?)
    ensures Inv(Do(p, act))
  {
    var sid := act.sid;
    if act.Attach? {
      forall k | k in p.closers ensures !Concerns(p.closers[k].phase, sid) { assert CloserOk(p, k); }
      assert Holding(p.closers, sid) == {};
    } else {
      assert SessionOk(p.sessions[sid], sid in p.runq, p.closers, sid);
    }
    OneSession(p, Do(p, act), sid, Do(p, act).sessions[sid]);
  }

  // ---------------------------------------------------------------------------
  // Hand-offs.
  // ---------------------------------------------------------------------------

  /** A kick changes no phase. */
  lemma KickFrame(p: Pool, sid: SessionId, a: Attached, w: bool)
    requires ClosersOk(p) && PoolOk(p) && SessionOk(a, w, p.closers, sid)
    ensures SessionOk(a, w, Kick(p).closers, sid)
  {
    if p.idle.Some? { SessionFrame(a, w, p.closers, Kick(p).closers, p.idle.value, sid); }
  }

  lemma EnqueuedSession(p: Pool, sid: SessionId)
    requires Inv(p) && sid in p.sessions && p.sessions[sid].refs > 0
    ensures var q := Enqueue(p, sid); SessionOk(q.sessions[sid], sid in q.runq, p.closers, sid)
  {
    var a, b := p.sessions[sid], Enqueue(p, sid).sessions[sid];
    assert SessionOk(a, sid in p.runq, p.closers, sid);
    assert a.attempted + Hand(a, p.closers) + a.queue + [p.nextEntry] ==
        a.attempted + Hand(a, p.closers) + (a.queue + [p.nextEntry]);
    assert Hand(b, p.closers) == Hand(a, p.closers);
  }

  lemma EnqueueSessions(p: Pool, sid: SessionId)
    requires Inv(p) && sid in p.sessions && p.sessions[sid].refs > 0
    ensures SessionsOk(Enqueue(p, sid))
  {
    var q := Enqueue(p, sid);
    EnqueuedSession(p, sid);
    forall x | x in q.sessions
      ensures SessionOk(q.sessions[x], x in q.runq, q.closers, x)
    {
      assert x != sid ==> SessionOk(p.sessions[x], x in p.runq, p.closers, x);
      assert x != sid ==> (x in q.runq <==> x in p.runq);
      KickFrame(p, x, q.sessions[x], x in q.runq);
    }
  }

  lemma EnqueueClosers(p: Pool, sid: SessionId)
    requires Inv(p) && sid in p.sessions
    ensures ClosersOk(Enqueue(p, sid))
  {
    EnqueueForm(p, sid);
    SameClosers(p, Enqueue(p, sid));
  }

  /** A hand-off moves no closer and gives no session a server. */
  ghost predicate SameServers(p: Pool, q: Pool) {
    && q.nextCloser == p.nextCloser && q.freed == p.freed && q.newborn == p.newborn && q.idle == p.idle
    && q.retired == p.retired && q.reaped == p.reaped && q.closers.Keys == p.closers.Keys
    && (forall k | k in p.closers :: q.closers[k].phase == p.closers[k].phase)
    && (forall s | s in p.sessions :: s in q.sessions && q.sessions[s].server == p.sessions[s].server)
  }

  lemma EnqueueForm(p: Pool, sid: SessionId)
    requires sid in p.sessions
    ensures SameServers(p, Enqueue(p, sid))
  {
  }

  lemma SameClosers(p: Pool, q: Pool)
    requires ClosersOk(p) && SameServers(p, q)
    ensures ClosersOk(q)
  {
    forall k | k in q.closers ensures CloserOk(q, k) { assert CloserOk(p, k); }
  }

  lemma EnqueuePool(p: Pool, sid: SessionId)
    requires Inv(p) && sid in p.sessions
    ensures PoolOk(Enqueue(p, sid))
  {
    var q := Enqueue(p, sid);
    assert SessionOk(p.sessions[sid], sid in p.runq, p.closers, sid);
    assert q.closers.Keys == p.closers.Keys;
  }

  lemma EnqueueKeeps(p: Pool, sid: SessionId)
    requires Inv(p) && sid in p.sessions && p.sessions[sid].refs > 0
    ensures Inv(Enqueue(p, sid))
  {
    EnqueueSessions(p, sid);
    EnqueueClosers(p, sid);
    EnqueuePool(p, sid);
    assert SessionOk(p.sessions[sid], sid in p.runq, p.closers, sid);
    OpenMore(p.sessions, sid, Enqueue(p, sid).sessions[sid]);
  }

  // ---------------------------------------------------------------------------
  // Spawns.
  // ---------------------------------------------------------------------------

  /** The step changes only how the spawn stands. */
  lemma SpawnFrame(p: Pool, q: Pool)
    requires Inv(p) && PoolOk(q)
    requires q == p.(spawning := q.spawning, attempt := q.attempt, gaveUp := q.gaveUp)
    ensures Inv(q)
  {
    forall x | x in q.sessions
      ensures SessionOk(q.sessions[x], x in q.runq, q.closers, x)
    {
      assert SessionOk(p.sessions[x], x in p.runq, p.closers, x);
    }
    forall k | k in q.closers ensures CloserOk(q, k) { assert CloserOk(p, k); }
  }

  lemma DeferKeeps(p: Pool, sid: SessionId)
    requires Inv(p) && sid in p.sessions && p.sessions[sid].refs > 0
    ensures Inv(DoDeferClose(p, sid))
  {
    EnqueueKeeps(p, sid);
    SpawnFrame(Enqueue(p, sid), DoDeferClose(p, sid));
  }

  lemma SpawnOkKeeps(p: Pool)
    requires Inv(p) && p.attempt.Some?
    ensures Inv(DoSpawnOk(p))
  {
    var q, k := DoSpawnOk(p), p.nextCloser;
    forall x | x in p.closers ensures x < k { assert CloserOk(p, x); }
    forall x | x in q.sessions
      ensures SessionOk(q.sessions[x], x in q.runq, q.closers, x)
    {
      assert SessionOk(p.sessions[x], x in p.runq, p.closers, x);
      assert p.closers - {k} == q.closers - {k};
      SessionFrame(p.sessions[x], x in p.runq, p.closers, q.closers, k, x);
    }
    forall x | x in q.closers ensures CloserOk(q, x) { if x != k { assert CloserOk(p, x); } }
  }

  lemma SpawnFailKeeps(p: Pool)
    requires Inv(p) && p.attempt.Some?
    ensures Inv(DoSpawnFail(p))
  {
    SpawnFrame(p, DoSpawnFail(p));
  }

  // ---------------------------------------------------------------------------
  // The loop top.
  // ---------------------------------------------------------------------------

  /** Closer `k` is at its loop top, so no session concerns it. */
  ghost predicate AtTop(p: Pool, k: CloserId) {
    Inv(p) && k in p.closers && (p.closers[k].phase.Born? || p.closers[k].phase.Top?)
  }

  lemma TopFrame(p: Pool, k: CloserId, c: Closer, sid: SessionId)
    requires AtTop(p, k) && sid in p.sessions && !Concerns(c.phase, sid)
    ensures SessionOk(p.sessions[sid], sid in p.runq, p.closers[k := c], sid)
  {
    assert SessionOk(p.sessions[sid], sid in p.runq, p.closers, sid);
    assert p.closers - {k} == p.closers[k := c] - {k};
    SessionFrame(p.sessions[sid], sid in p.runq, p.closers, p.closers[k := c], k, sid);
  }

  /** What CloserOk needs of the fields a loop top changes, for the other closers. */
  lemma TopOthers(p: Pool, q: Pool, k: CloserId, x: CloserId)
    requires AtTop(p, k) && x in p.closers && x != k && x in q.closers && q.closers[x].phase == p.closers[x].phase
    requires q.nextCloser == p.nextCloser && q.freed == p.freed
    requires q.newborn == (if p.newborn == Some(k) then None else p.newborn) || q.newborn == p.newborn
    requires p.idle == Some(x) ==> q.idle == Some(x)
    requires x in q.retired || x in q.reaped <==> x in p.retired || x in p.reaped
    requires x in q.reaped ==> x in p.reaped || x in Reapable(p)
    requires x in q.reaped ==> x !in q.retired
    requires forall s | s in p.sessions ::
        s in q.sessions && (p.sessions[s].server == Some(x) ==> q.sessions[s].server == Some(x))
    ensures CloserOk(q, x)
  {
    assert CloserOk(p, x) && CloserOk(p, k);
  }

  lemma EnteredReaps(p: Pool, k: CloserId, x: CloserId)
    requires AtTop(p, k) && x in p.closers
    ensures var q := EnterTop(p, k);
      && (x in q.retired || x in q.reaped <==> x in p.retired || x in p.reaped)
      && (x in q.reaped ==> x !in q.retired && (x in p.reaped || x in Reapable(p)))
      && k !in q.retired && k !in q.reaped
  {
    assert CloserOk(p, x) && CloserOk(p, k);
  }

  lemma ServedSession(a: Attached, cs: map<CloserId, Closer>, k: CloserId, sid: SessionId)
    requires SessionOk(a, true, cs, sid) && k in cs && !Concerns(cs[k].phase, sid)
    ensures SessionOk(a.(queued := false, busy := true, server := Some(k)), false,
                      cs[k := cs[k].(phase := Serving(sid))], sid)
  {
    HoldingMoves(cs, k, cs[k].(phase := Serving(sid)), sid);
  }

  lemma TakeSessionSessions(p: Pool, k: CloserId)
    requires AtTop(p, k) && p.runq != []
    ensures SessionsOk(DoRunTop(p, k))
  {
    var q, sid := DoRunTop(p, k), p.runq[0];
    assert forall x :: x != sid ==> (x in p.runq <==> x in p.runq[1..]);
    forall x | x in q.sessions
      ensures SessionOk(q.sessions[x], x in q.runq, q.closers, x)
    {
      if x != sid {
        TopFrame(p, k, p.closers[k].(phase := Serving(sid)), x);
      } else {
        assert SessionOk(p.sessions[sid], sid in p.runq, p.closers, sid);
        ServedSession(p.sessions[sid], p.closers, k, sid);
      }
    }
  }

  lemma TakeSessionClosers(p: Pool, k: CloserId)
    requires AtTop(p, k) && p.runq != []
    ensures ClosersOk(DoRunTop(p, k))
  {
    var q, sid := DoRunTop(p, k), p.runq[0];
    assert SessionOk(p.sessions[sid], sid in p.runq, p.closers, sid);
    forall x | x in q.closers
      ensures CloserOk(q, x)
    {
      EnteredReaps(p, k, x);
      if x != k { TopOthers(p, q, k, x); } else { assert CloserOk(p, k); }
    }
  }

  lemma TakeSessionPool(p: Pool, k: CloserId)
    requires AtTop(p, k) && p.runq != []
    ensures PoolOk(DoRunTop(p, k)) && |Open(DoRunTop(p, k).sessions)| == p.pending
  {
    var q, sid := DoRunTop(p, k), p.runq[0];
    assert CloserOk(p, k);
    OpenSame(p.sessions, sid, q.sessions[sid]);
  }

  ghost predicate Retires(p: Pool, k: CloserId) { AtTop(p, k) && p.runq == [] && EnterTop(p, k).idle.Some? }

  /** A closer that finds another idle retires and kicks it; sessions and their queue are untouched. */
  lemma RetireForm(p: Pool, k: CloserId)
    requires Retires(p, k)
    ensures var q := DoRunTop(p, k);
      && p.idle.Some? && p.idle.value != k && q.sessions == p.sessions && q.runq == p.runq && p.idle.value in q.closers
      && q.closers - {p.idle.value} == p.closers[k := p.closers[k].(phase := Retiring)] - {p.idle.value}
      && q.closers[p.idle.value].phase == p.closers[p.idle.value].phase
  {
    EnterForm(p, k);
    RetiredForm(EnterTop(p, k), k);
  }

  lemma EnterForm(p: Pool, k: CloserId)
    requires k in p.closers
    ensures var q := EnterTop(p, k);
      && q.sessions == p.sessions && q.runq == p.runq && q.closers == p.closers
      && q.idle == if p.idle == Some(k) then None else p.idle
  {
  }

  lemma RetiredForm(p: Pool, k: CloserId)
    requires k in p.closers && p.idle.Some? && p.idle.value in p.closers && p.idle.value != k
    ensures var q := Retire(p, k);
      && q.sessions == p.sessions && q.runq == p.runq && p.idle.value in q.closers
      && q.closers - {p.idle.value} == p.closers[k := p.closers[k].(phase := Retiring)] - {p.idle.value}
      && q.closers[p.idle.value].phase == p.closers[p.idle.value].phase
  {
  }

  lemma RetireSessions(p: Pool, k: CloserId)
    requires Retires(p, k)
    ensures SessionsOk(DoRunTop(p, k))
  {
    RetireForm(p, k);
    RetiredSessions(p, DoRunTop(p, k), k);
  }

  lemma RetiredSessions(p: Pool, q: Pool, k: CloserId)
    requires AtTop(p, k) && q.sessions == p.sessions && q.runq == p.runq && p.idle.Some? && p.idle.value in q.closers
    requires q.closers - {p.idle.value} == p.closers[k := p.closers[k].(phase := Retiring)] - {p.idle.value}
    requires p.idle.value != k && q.closers[p.idle.value].phase == p.closers[p.idle.value].phase
    ensures SessionsOk(q)
  {
    var mid := p.closers[k := p.closers[k].(phase := Retiring)];
    forall x | x in q.sessions
      ensures SessionOk(q.sessions[x], x in q.runq, q.closers, x)
    {
      TopFrame(p, k, p.closers[k].(phase := Retiring), x);
      SessionFrame(p.sessions[x], x in p.runq, mid, q.closers, p.idle.value, x);
    }
  }

  lemma RetireClosers(p: Pool, k: CloserId)
    requires Retires(p, k)
    ensures ClosersOk(DoRunTop(p, k))
  {
    var q := DoRunTop(p, k);
    assert CloserOk(p, k);
    forall x | x in q.closers
      ensures CloserOk(q, x)
    {
      EnteredReaps(p, k, x);
      if x != k { TopOthers(p, q, k, x); }
    }
  }

  lemma RetirePool(p: Pool, k: CloserId)
    requires Retires(p, k)
    ensures PoolOk(DoRunTop(p, k))
  {
    assert CloserOk(p, k);
    assert DoRunTop(p, k).closers.Keys == p.closers.Keys;
  }

  lemma RetireKeeps(p: Pool, k: CloserId)
    requires Retires(p, k)
    ensures Inv(DoRunTop(p, k))
  {
    RetireSessions(p, k);
    RetireClosers(p, k);
    RetirePool(p, k);
  }

  lemma GoIdleKeeps(p: Pool, k: CloserId)
    requires AtTop(p, k) && p.runq == [] && EnterTop(p, k).idle.None?
    ensures Inv(DoRunTop(p, k))
  {
    var q := DoRunTop(p, k);
    forall x | x in q.sessions
      ensures SessionOk(q.sessions[x], x in q.runq, q.closers, x)
    {
      TopFrame(p, k, Closer(Idle, false), x);
    }
    forall x | x in q.closers
      ensures CloserOk(q, x)
    {
      EnteredReaps(p, k, x);
      if x != k { TopOthers(p, q, k, x); } else { assert CloserOk(p, k); }
    }
    assert CloserOk(p, k);
  }

  lemma TopKeeps(p: Pool, k: CloserId)
    requires AtTop(p, k)
    ensures Inv(DoRunTop(p, k))
  {
    if p.runq != [] {
      TakeSessionSessions(p, k);
      TakeSessionClosers(p, k);
      TakeSessionPool(p, k);
    } else if EnterTop(p, k).idle.Some? {
      RetireKeeps(p, k);
    } else {
      GoIdleKeeps(p, k);
    }
  }

  // ---------------------------------------------------------------------------
  // Serving.
  // ---------------------------------------------------------------------------

  /** Closer `k` moves to phase `ph` over its own session, whose record becomes `b`. */
  ghost predicate OwnStep(p: Pool, q: Pool, k: CloserId, sid: SessionId, b: Attached, ph: Phase) {
    && Inv(p) && k in p.closers && Concerns(p.closers[k].phase, sid) && sid in p.sessions
    && q == At(p.(sessions := p.sessions[sid := b], pending := q.pending), k, ph)
    && SessionOk(b, sid in p.runq, q.closers, sid) && q.pending == |Open(q.sessions)|
    && (ph.Top? || (Concerns(ph, sid) && (Serves(ph, sid) ==> b.server == Some(k))))
    && (b.server == p.sessions[sid].server || (b.server.None? && p.sessions[sid].server == Some(k)))
  }

  lemma OwnSessions(p: Pool, q: Pool, k: CloserId, sid: SessionId, b: Attached, ph: Phase)
    requires OwnStep(p, q, k, sid, b, ph)
    ensures SessionsOk(q)
  {
    assert p.closers - {k} == q.closers - {k};
    forall x | x in q.sessions
      ensures SessionOk(q.sessions[x], x in q.runq, q.closers, x)
    {
      if x != sid {
        assert SessionOk(p.sessions[x], x in p.runq, p.closers, x);
        SessionFrame(p.sessions[x], x in p.runq, p.closers, q.closers, k, x);
      }
    }
  }

  lemma OwnClosers(p: Pool, q: Pool, k: CloserId, sid: SessionId, b: Attached, ph: Phase)
    requires OwnStep(p, q, k, sid, b, ph)
    ensures ClosersOk(q)
  {
    assert CloserOk(p, k);
    forall x | x in q.closers ensures CloserOk(q, x) { assert CloserOk(p, x); }
  }

  lemma OwnSession(p: Pool, q: Pool, k: CloserId, sid: SessionId, b: Attached, ph: Phase)
    requires OwnStep(p, q, k, sid, b, ph)
    ensures Inv(q)
  {
    assert CloserOk(p, k);
    OwnSessions(p, q, k, sid, b, ph);
    OwnClosers(p, q, k, sid, b, ph);
    assert q.closers.Keys == p.closers.Keys;
  }

  /** The closer's next entry: the oldest queued, which is there. */
  lemma TakenEntry(a: Attached, w: bool, cs: map<CloserId, Closer>, k: CloserId, sid: SessionId)
    requires SessionOk(a, w, cs, sid) && a.server == Some(k) && k in cs && cs[k].phase == Serving(sid)
    ensures a.queue != []
    ensures SessionOk(a.(queue := a.queue[1..]), w, cs[k := cs[k].(phase := Sending(sid, a.queue[0]))], sid)
  {
    HoldingMoves(cs, k, cs[k].(phase := Sending(sid, a.queue[0])), sid);
    assert a.attempted + a.queue == a.attempted + [a.queue[0]] + a.queue[1..];
  }

  lemma FinishedEntry(a: Attached, w: bool, cs: map<CloserId, Closer>, k: CloserId, sid: SessionId, e: EntryId)
    requires SessionOk(a, w, cs, sid) && a.server == Some(k) && k in cs && cs[k].phase == Sending(sid, e)
    ensures var done := a.queue == [];
      SessionOk(a.(attempted := a.attempted + [e], busy := !done, server := if done then None else a.server), w,
        cs[k := cs[k].(phase := Dropping(sid, done))], sid)
  {
    HoldingMoves(cs, k, cs[k].(phase := Dropping(sid, a.queue == [])), sid);
  }

  /** An unref after an entry: the reference is there to drop. */
  lemma DroppedEntry(a: Attached, w: bool, cs: map<CloserId, Closer>, k: CloserId, sid: SessionId, done: bool)
    requires SessionOk(a, w, cs, sid) && k in cs && cs[k].phase == Dropping(sid, done)
    requires (!done ==> a.server == Some(k)) && (done ==> a.server != Some(k))
    ensures a.refs > 0
    ensures SessionOk(Deref(a), w, cs[k := cs[k].(phase := if done then Top else Serving(sid))], sid)
  {
    HoldingMoves(cs, k, cs[k].(phase := if done then Top else Serving(sid)), sid);
    assert k in Holding(cs, sid);
  }

  lemma TakeKeeps(p: Pool, k: CloserId)
    requires Inv(p) && Enabled(p, TakeEntry(k))
    ensures Inv(DoTakeEntry(p, k))
  {
    var sid := p.closers[k].phase.sid;
    var a := p.sessions[sid];
    assert CloserOk(p, k) && SessionOk(a, sid in p.runq, p.closers, sid);
    TakenEntry(a, sid in p.runq, p.closers, k, sid);
    OpenSame(p.sessions, sid, a.(queue := a.queue[1..]));
    OwnSession(p, DoTakeEntry(p, k), k, sid, a.(queue := a.queue[1..]), Sending(sid, a.queue[0]));
  }

  lemma FinishKeeps(p: Pool, k: CloserId)
    requires Inv(p) && Enabled(p, FinishEntry(k))
    ensures Inv(DoFinishEntry(p, k))
  {
    var sid, q := p.closers[k].phase.sid, DoFinishEntry(p, k);
    var a := p.sessions[sid];
    assert CloserOk(p, k) && SessionOk(a, sid in p.runq, p.closers, sid);
    FinishedEntry(a, sid in p.runq, p.closers, k, sid, p.closers[k].phase.entry);
    OpenLess(p.sessions, sid, q.sessions[sid]);
    OwnSession(p, q, k, sid, q.sessions[sid], Dropping(sid, a.queue == []));
  }

  lemma DropKeeps(p: Pool, k: CloserId)
    requires Inv(p) && Enabled(p, DropEntry(k))
    ensures Inv(DoDropEntry(p, k))
  {
    var sid, done := p.closers[k].phase.sid, p.closers[k].phase.done;
    var a := p.sessions[sid];
    assert CloserOk(p, k) && SessionOk(a, sid in p.runq, p.closers, sid);
    DroppedEntry(a, sid in p.runq, p.closers, k, sid, done);
    OpenSame(p.sessions, sid, Deref(a));
    OwnSession(p, DoDropEntry(p, k), k, sid, Deref(a), if done then Top else Serving(sid));
  }

  // ---------------------------------------------------------------------------
  // Waking, leaving and being freed.
  // ---------------------------------------------------------------------------

  /** The step moves or removes one closer that no session concerns. */
  lemma OneCloser(p: Pool, q: Pool, k: CloserId)
    requires Inv(p) && k in p.closers && p.closers - {k} == q.closers - {k} && q.sessions == p.sessions
    requires q.runq == p.runq
    requires forall sid :: !Concerns(p.closers[k].phase, sid) && (k in q.closers ==> !Concerns(q.closers[k].phase, sid))
    ensures SessionsOk(q)
  {
    forall x | x in q.sessions
      ensures SessionOk(q.sessions[x], x in q.runq, q.closers, x)
    {
      assert SessionOk(p.sessions[x], x in p.runq, p.closers, x);
      SessionFrame(p.sessions[x], x in p.runq, p.closers, q.closers, k, x);
    }
  }

  lemma LeaveKeeps(p: Pool, act: Action)
    requires Inv(p) && Enabled(p, act) && (act.Wake? || act.Exit? || act.FreeReaped?)
    ensures Inv(Do(p, act))
  {
    var q, k := Do(p, act), act.k;
    assert CloserOk(p, k);
    assert p.closers - {k} == q.closers - {k};
    OneCloser(p, q, k);
    LeaveClosers(p, act);
    LeavePool(p, act);
  }

  lemma LeaveClosers(p: Pool, act: Action)
    requires ClosersOk(p) && Enabled(p, act) && (act.Wake? || act.Exit? || act.FreeReaped?)
    ensures ClosersOk(Do(p, act))
  {
    var q := Do(p, act);
    assert CloserOk(p, act.k);
    forall x | x in q.closers ensures CloserOk(q, x) { assert CloserOk(p, x); }
  }

  lemma LeavePool(p: Pool, act: Action)
    requires ClosersOk(p) && PoolOk(p) && Enabled(p, act) && (act.Wake? || act.Exit? || act.FreeReaped?)
    ensures PoolOk(Do(p, act))
  {
    var q, k := Do(p, act), act.k;
    assert CloserOk(p, k);
    assert q.closers.Keys == if act.FreeReaped? then p.closers.Keys - {k} else p.closers.Keys;
    assert p.idle.Some? ==> CloserOk(p, p.idle.value);
  }

  // ---------------------------------------------------------------------------
  // Every step, every run.
  // ---------------------------------------------------------------------------

  lemma StepKeeps(p: Pool, act: Action)
    requires Inv(p) && Enabled(p, act)
    ensures Inv(Do(p, act))
  {
    match act
    case Attach(_) => RefStepsKeep(p, act);
    case Ref(_) => RefStepsKeep(p, act);
    case Unref(_) => RefStepsKeep(p, act);
    case DeferClose(sid) =>
      assert SessionOk(p.sessions[sid], sid in p.runq, p.closers, sid);
      DeferKeeps(p, sid);
    case OrphanSink(sid) => EnqueueKeeps(p, sid);
    case SpawnOk => SpawnOkKeeps(p);
    case SpawnFail => SpawnFailKeeps(p);
    case RunTop(k) => TopKeeps(p, k);
    case Wake(_) => LeaveKeeps(p, act);
    case TakeEntry(k) => TakeKeeps(p, k);
    case FinishEntry(k) => FinishKeeps(p, k);
    case DropEntry(k) => DropKeeps(p, k);
    case Exit(_) => LeaveKeeps(p, act);
    case FreeReaped(_) => LeaveKeeps(p, act);
  }
}
