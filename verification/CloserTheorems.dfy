/**
 What every run of the closer pool keeps.
 */
module CloserTheorems {
  import opened Options
  import opened CloserPool
  import opened CloserInv

  lemma {:induction false} RunInv(run: seq<Pool>, acts: seq<Action>, n: nat)
    requires IsRun(run, acts) && n < |run|
    ensures Inv(run[n])
  {
    if n == 0 {
      InitInv();
    } else {
      RunInv(run, acts, n - 1);
      assert Follows(run, acts, n - 1);
      StepKeeps(run[n - 1], acts[n - 1]);
    }
  }

  /** A closer is idle or one is coming, unless a spawn gave up for want of memory; a sleeping
      closer is the one the idle slot names, and has been kicked if a session waits. */
  lemma ACloserIsThere(run: seq<Pool>, acts: seq<Action>, n: nat)
    requires IsRun(run, acts) && n < |run|
    ensures var p := run[n];
      && (p.idle.Some? || p.spawning || p.gaveUp)
      && (forall k | k in p.closers && p.closers[k].phase.Idle? ::
          p.idle == Some(k) && (p.runq != [] ==> p.closers[k].kicked))
  {
    RunInv(run, acts, n);
    var p := run[n];
    forall k | k in p.closers && p.closers[k].phase.Idle?
      ensures p.idle == Some(k) && (p.runq != [] ==> p.closers[k].kicked)
    {
      assert CloserOk(p, k);
    }
  }

  /** A session waits, and no closer is idle or coming. */
  predicate Stuck(p: Pool) { p.runq != [] && p.idle.None? && !p.spawning }

  /** A spawn that gives up: it failed for the last time, or with nothing left waiting for it. */
  predicate GivesUp(p: Pool, act: Action) {
    act.SpawnFail? && p.attempt.Some? && (p.attempt.value >= SPAWN_TRIES || p.runq == [] || p.idle.Some?)
  }

  lemma GivingUp(p: Pool, act: Action)
    requires Enabled(p, act) && !p.gaveUp && Do(p, act).gaveUp
    ensures GivesUp(p, act)
  {
  }

  lemma HandOffRespawns(p: Pool, sid: SessionId)
    requires Enabled(p, DeferClose(sid))
    ensures !Stuck(DoDeferClose(p, sid))
  {
  }

  lemma NewSpawnHopes(p: Pool, act: Action)
    requires Enabled(p, act) && !(p.gaveUp && p.spawning)
    ensures !(Do(p, act).gaveUp && Do(p, act).spawning)
  {
  }

  lemma {:induction false} GaveUpEndsSpawn(run: seq<Pool>, acts: seq<Action>, n: nat)
    requires IsRun(run, acts) && n < |run|
    ensures !(run[n].gaveUp && run[n].spawning)
  {
    if n > 0 {
      GaveUpEndsSpawn(run, acts, n - 1);
      assert Follows(run, acts, n - 1);
      NewSpawnHopes(run[n - 1], acts[n - 1]);
    }
  }

  /** Every hand-off in `i..n` found a closer idle, or its session in a closer's hands. */
  ghost predicate NoCallSince(run: seq<Pool>, acts: seq<Action>, i: nat, n: nat)
    requires |run| == |acts| + 1 && n < |run|
  {
    forall j | i < j < n && acts[j].DeferClose? :: run[j + 1].runq == [] || run[j + 1].idle.Some?
  }

  lemma {:induction false} GaveUpSince(run: seq<Pool>, acts: seq<Action>, n: nat) returns (i: nat)
    requires IsRun(run, acts) && n < |run| && run[n].gaveUp
    ensures i < n && GivesUp(run[i], acts[i]) && NoCallSince(run, acts, i, n)
  {
    assert Follows(run, acts, n - 1);
    if !run[n - 1].gaveUp {
      GivingUp(run[n - 1], acts[n - 1]);
      i := n - 1;
    } else {
      i := GaveUpSince(run, acts, n - 1);
      if acts[n - 1].DeferClose? {
        HandOffRespawns(run[n - 1], acts[n - 1].sid);
        GaveUpEndsSpawn(run, acts, n);
      }
    }
  }

  /** A session can be left waiting with no closer to come only after a spawn gave up, and only until
      the next hand-off that finds no closer idle. */
  lemma StuckSinceGivingUp(run: seq<Pool>, acts: seq<Action>, n: nat) returns (i: nat)
    requires IsRun(run, acts) && n < |run| && Stuck(run[n])
    ensures i < n && GivesUp(run[i], acts[i]) && NoCallSince(run, acts, i, n)
    ensures n < |acts| && acts[n].DeferClose? ==> run[n + 1].spawning
  {
    RunInv(run, acts, n);
    i := GaveUpSince(run, acts, n);
    if n < |acts| && acts[n].DeferClose? {
      assert Follows(run, acts, n);
      StuckHandOff(run[n], acts[n].sid);
    }
  }

  lemma StuckHandOff(p: Pool, sid: SessionId)
    requires Enabled(p, DeferClose(sid)) && Stuck(p)
    ensures DoDeferClose(p, sid).spawning
  {
  }

  /** A session with queued entries is exactly one of run-queued and busy; it is busy exactly when one
      closer serves it, and no other closer does. */
  lemma ServedByOne(run: seq<Pool>, acts: seq<Action>, n: nat, sid: SessionId)
    requires IsRun(run, acts) && n < |run| && sid in run[n].sessions
    ensures var a, cs := run[n].sessions[sid], run[n].closers;
      && (a.queue != [] ==> (a.queued || a.busy)) && !(a.queued && a.busy) && (a.queued <==> sid in run[n].runq)
      && (a.busy <==> exists k :: k in cs && Serves(cs[k].phase, sid))
      && (forall k, j | k in cs && j in cs && Serves(cs[k].phase, sid) && Serves(cs[j].phase, sid) :: k == j)
  {
    RunInv(run, acts, n);
    var p := run[n];
    assert SessionOk(p.sessions[sid], sid in p.runq, p.closers, sid);
    forall k | k in p.closers && Serves(p.closers[k].phase, sid)
      ensures p.sessions[sid].server == Some(k)
    {
      assert CloserOk(p, k);
    }
  }

  /** Entries are attempted in the order they were accepted, each once: what has been attempted, the
      entry in hand and the queue are together exactly what was accepted. */
  lemma AttemptedInOrder(run: seq<Pool>, acts: seq<Action>, n: nat, sid: SessionId)
    requires IsRun(run, acts) && n < |run| && sid in run[n].sessions
    ensures var a := run[n].sessions[sid]; a.accepted == a.attempted + Hand(a, run[n].closers) + a.queue
    ensures run[n].pending == |Open(run[n].sessions)|
  {
    RunInv(run, acts, n);
    assert SessionOk(run[n].sessions[sid], sid in run[n].runq, run[n].closers, sid);
  }

  /** A session is never destroyed while an entry is queued or in a closer's hands. */
  lemma OutlivesItsEntries(run: seq<Pool>, acts: seq<Action>, n: nat, sid: SessionId)
    requires IsRun(run, acts) && n < |run| && sid in run[n].sessions && run[n].sessions[sid].destroyed
    ensures run[n].sessions[sid].queue == [] && run[n].sessions[sid].others == 0
    ensures forall k | k in run[n].closers :: !HoldsRef(run[n].closers[k].phase, sid)
  {
    RunInv(run, acts, n);
    var p := run[n];
    assert SessionOk(p.sessions[sid], sid in p.runq, p.closers, sid);
    assert Holding(p.closers, sid) == {};
    forall k | k in p.closers ensures !HoldsRef(p.closers[k].phase, sid) { assert k !in Holding(p.closers, sid); }
  }

  /** What a closer's next section takes for granted is there: a waiting session, a queued entry, a
      pending count to lower and a reference to drop. */
  lemma NothingMissing(run: seq<Pool>, acts: seq<Action>, n: nat, k: CloserId)
    requires IsRun(run, acts) && n < |run| && k in run[n].closers
    ensures match run[n].closers[k].phase
      case Born => Enabled(run[n], RunTop(k))
      case Top => Enabled(run[n], RunTop(k))
      case Serving(_) => Enabled(run[n], TakeEntry(k))
      case Sending(_, _) => Enabled(run[n], FinishEntry(k))
      case Dropping(_, _) => Enabled(run[n], DropEntry(k))
      case Idle => Enabled(run[n], Wake(k))
      case Retiring => Enabled(run[n], Exit(k))
      case Exited => k in run[n].retired || Enabled(run[n], FreeReaped(k))
  {
    RunInv(run, acts, n);
    var p := run[n];
    var ph := p.closers[k].phase;
    assert CloserOk(p, k);
    if ph.Serving? || ph.Sending? || ph.Dropping? {
      var sid := ph.sid;
      var a := p.sessions[sid];
      assert SessionOk(a, sid in p.runq, p.closers, sid);
      if ph.Sending? { assert (sid, |a.attempted|) in Open(p.sessions); }
      if ph.Dropping? { assert k in Holding(p.closers, sid); }
    }
  }

  lemma TopFreesNone(p: Pool, k: CloserId)
    requires k in p.closers && (p.runq != [] ==> p.runq[0] in p.sessions)
    ensures DoRunTop(p, k).freed == p.freed
  {
  }

  lemma HandOffFreesNone(p: Pool, sid: SessionId)
    requires sid in p.sessions
    ensures DoDeferClose(p, sid).freed == p.freed && Enqueue(p, sid).freed == p.freed
  {
  }

  lemma FreedGrows(p: Pool, act: Action)
    requires Enabled(p, act)
    ensures p.freed <= Do(p, act).freed
  {
    if act.RunTop? {
      TopFreesNone(p, act.k);
    } else if act.DeferClose? || act.OrphanSink? {
      HandOffFreesNone(p, act.sid);
    }
  }

  lemma FreedIsGone(p: Pool, k: CloserId)
    requires Inv(p) && k in p.freed
    ensures k !in p.closers
  {
    assert k in p.closers ==> CloserOk(p, k);
  }

  lemma {:induction false} FreedStays(run: seq<Pool>, acts: seq<Action>, n: nat, m: nat, k: CloserId)
    requires IsRun(run, acts) && n <= m < |run| && k in run[n].freed
    ensures k in run[m].freed && k !in run[m].closers
  {
    if m > n {
      FreedStays(run, acts, n, m - 1, k);
      assert Follows(run, acts, m - 1);
      FreedGrows(run[m - 1], acts[m - 1]);
    }
    RunInv(run, acts, m);
    FreedIsGone(run[m], k);
  }

  /** A closer is freed once, and only after its terminal mark. */
  lemma FreedOnce(run: seq<Pool>, acts: seq<Action>, n: nat, m: nat, k: CloserId)
    requires IsRun(run, acts) && n < |acts| && acts[n] == FreeReaped(k)
    ensures k in run[n].closers && run[n].closers[k].phase.Exited? && run[n].idle != Some(k)
    ensures m < |acts| && acts[m] == FreeReaped(k) ==> m == n
  {
    RunInv(run, acts, n);
    assert Follows(run, acts, n) && CloserOk(run[n], k);
    assert m < |acts| ==> Follows(run, acts, m);
    if m < |acts| && acts[m] == FreeReaped(k) {
      if n < m { FreedStays(run, acts, n + 1, m, k); }
      if m < n { FreedStays(run, acts, m + 1, n, k); }
    }
  }

  // ---------------------------------------------------------------------------
  // By what was done.
  // ---------------------------------------------------------------------------

  predicate Defers(act: Action, sid: SessionId) { (act.DeferClose? || act.OrphanSink?) && act.sid == sid }

  /** How often an entry was handed over for `sid`. */
  function Deferred(acts: seq<Action>, sid: SessionId): nat {
    if acts == [] then 0 else Deferred(acts[..|acts| - 1], sid) + if Defers(acts[|acts| - 1], sid) then 1 else 0
  }

  function Accepted(p: Pool, sid: SessionId): nat { if sid in p.sessions then |p.sessions[sid].accepted| else 0 }

  lemma EnterTopKeeps(p: Pool, k: CloserId)
    requires k in p.closers
    ensures var q := EnterTop(p, k);
      && q.sessions == p.sessions && q.runq == p.runq && q.closers == p.closers && q.attempt == p.attempt
      && q.nextCloser == p.nextCloser
  {
  }

  /** A loop top gives the first waiting session to its closer, and changes no session's entries. */
  lemma TopForm(p: Pool, k: CloserId, sid: SessionId)
    requires k in p.closers && (p.runq != [] ==> p.runq[0] in p.sessions)
    ensures var q := DoRunTop(p, k);
      && Accepted(q, sid) == Accepted(p, sid) && k in q.closers
      && (if p.runq == [] then q.runq == [] && !q.closers[k].phase.Serving?
          else q.runq == p.runq[1..] && q.closers[k].phase == Serving(p.runq[0]))
      && (q.attempt == p.attempt || q.attempt == Some(1))
  {
    EnterTopKeeps(p, k);
  }

  lemma EnqueuedForm(p: Pool, sid: SessionId, x: SessionId)
    requires sid in p.sessions
    ensures var q := Enqueue(p, sid);
      && Accepted(q, x) == Accepted(p, x) + (if x == sid then 1 else 0) && q.attempt == p.attempt
      && q.runq == if p.sessions[sid].busy || p.sessions[sid].queued then p.runq else p.runq + [sid]
  {
  }

  lemma HandOffForm(p: Pool, sid: SessionId, x: SessionId)
    requires sid in p.sessions
    ensures var q := DoDeferClose(p, sid);
      && Accepted(q, x) == Accepted(p, x) + (if x == sid then 1 else 0)
      && (q.attempt == p.attempt || q.attempt == Some(1))
      && q.runq == if p.sessions[sid].busy || p.sessions[sid].queued then p.runq else p.runq + [sid]
  {
    EnqueuedForm(p, sid, x);
  }

  /** The steps that neither start a loop top nor hand an entry over. */
  predicate Elsewhere(act: Action) { !act.RunTop? && !act.DeferClose? && !act.OrphanSink? }

  lemma ElsewhereForm(p: Pool, act: Action, x: SessionId)
    requires Enabled(p, act) && Elsewhere(act)
    ensures Accepted(Do(p, act), x) == Accepted(p, x) && Do(p, act).runq == p.runq
  {
  }

  lemma StepAccepts(p: Pool, act: Action, sid: SessionId)
    requires Enabled(p, act)
    ensures Accepted(Do(p, act), sid) == Accepted(p, sid) + if Defers(act, sid) then 1 else 0
  {
    match act
    case RunTop(k) => TopForm(p, k, sid);
    case DeferClose(x) => HandOffForm(p, x, sid);
    case OrphanSink(x) => EnqueuedForm(p, x, sid);
    case _ => ElsewhereForm(p, act, sid);
  }

  /** Every entry handed over is accepted, whichever way it came, and none is made up. */
  lemma {:induction false} AcceptsEach(run: seq<Pool>, acts: seq<Action>, n: nat, sid: SessionId)
    requires IsRun(run, acts) && n < |run|
    ensures Accepted(run[n], sid) == Deferred(acts[..n], sid)
  {
    if n > 0 {
      AcceptsEach(run, acts, n - 1, sid);
      assert Follows(run, acts, n - 1);
      StepAccepts(run[n - 1], acts[n - 1], sid);
      assert acts[..n][..n - 1] == acts[..n - 1];
    }
  }

  /** The session a step puts in line for a closer, and the one a step gives to a closer. */
  function JoinsLine(p: Pool, act: Action): seq<SessionId> {
    if (act.DeferClose? || act.OrphanSink?) && act.sid in p.sessions && !p.sessions[act.sid].busy &&
       !p.sessions[act.sid].queued
    then [act.sid] else []
  }

  function IsGiven(q: Pool, act: Action): seq<SessionId> {
    if act.RunTop? && act.k in q.closers && q.closers[act.k].phase.Serving? then [q.closers[act.k].phase.sid] else []
  }

  function Joined(run: seq<Pool>, acts: seq<Action>, n: nat): seq<SessionId>
    requires n <= |acts| && |run| == |acts| + 1
  {
    if n == 0 then [] else Joined(run, acts, n - 1) + JoinsLine(run[n - 1], acts[n - 1])
  }

  function Given(run: seq<Pool>, acts: seq<Action>, n: nat): seq<SessionId>
    requires n <= |acts| && |run| == |acts| + 1
  {
    if n == 0 then [] else Given(run, acts, n - 1) + IsGiven(run[n], acts[n - 1])
  }

  lemma StepLine(p: Pool, act: Action)
    requires Enabled(p, act)
    ensures IsGiven(Do(p, act), act) + Do(p, act).runq == p.runq + JoinsLine(p, act)
  {
    match act
    case RunTop(k) => TopForm(p, k, 0);
    case DeferClose(x) => HandOffForm(p, x, 0);
    case OrphanSink(x) => EnqueuedForm(p, x, 0);
    case _ => ElsewhereForm(p, act, 0);
  }

  /** Sessions get their closer in the order in which they came to need one. */
  lemma {:induction false} ServedInTurn(run: seq<Pool>, acts: seq<Action>, n: nat)
    requires IsRun(run, acts) && n < |run|
    ensures Joined(run, acts, n) == Given(run, acts, n) + run[n].runq
  {
    if n > 0 {
      var m := n - 1;
      ServedInTurn(run, acts, m);
      assert Follows(run, acts, m);
      StepLine(run[m], acts[m]);
      var g, q, j := IsGiven(run[n], acts[m]), run[m].runq, JoinsLine(run[m], acts[m]);
      assert Given(run, acts, m) + q + j == Given(run, acts, m) + (q + j);
      assert Given(run, acts, m) + (g + run[n].runq) == Given(run, acts, m) + g + run[n].runq;
    }
  }

  /** The spawns that failed among the steps from `i` on. */
  function Fails(acts: seq<Action>, i: nat): nat
    requires i <= |acts|
    decreases |acts| - i
  {
    if i == |acts| then 0 else (if acts[i].SpawnFail? then 1 else 0) + Fails(acts, i + 1)
  }

  lemma {:induction false} FailsNext(acts: seq<Action>, act: Action, i: nat)
    requires i <= |acts|
    ensures Fails(acts + [act], i) == Fails(acts, i) + if act.SpawnFail? then 1 else 0
    decreases |acts| - i
  {
    if i < |acts| { FailsNext(acts, act, i + 1); }
  }

  lemma AttemptStep(p: Pool, act: Action)
    requires Enabled(p, act) && Do(p, act).attempt.Some?
    ensures (Do(p, act).attempt == Some(1) && !act.SpawnFail?)
      || (p.attempt.Some? && Do(p, act).attempt.value == p.attempt.value + if act.SpawnFail? then 1 else 0)
  {
    match act
    case RunTop(k) => TopForm(p, k, 0);
    case DeferClose(x) => HandOffForm(p, x, 0);
    case OrphanSink(x) => EnqueuedForm(p, x, 0);
    case _ => ElsewhereAttempt(p, act);
  }

  lemma ElsewhereAttempt(p: Pool, act: Action)
    requires Enabled(p, act) && Elsewhere(act) && Do(p, act).attempt.Some?
    ensures p.attempt.Some? && Do(p, act).attempt.value == p.attempt.value + if act.SpawnFail? then 1 else 0
  {
  }

  /** The attempt of a spawn counts the failures since some step. */
  lemma {:induction false} AttemptCounts(run: seq<Pool>, acts: seq<Action>, n: nat) returns (i: nat)
    requires IsRun(run, acts) && n < |run| && run[n].attempt.Some?
    ensures i <= n && Fails(acts[..n], i) + 1 == run[n].attempt.value
  {
    if n == 0 {
      i := 0;
    } else {
      var m := n - 1;
      assert Follows(run, acts, m);
      AttemptStep(run[m], acts[m]);
      assert acts[..n] == acts[..m] + [acts[m]];
      if run[n].attempt == Some(1) && !acts[m].SpawnFail? {
        i := n;
      } else {
        i := AttemptCounts(run, acts, m);
        FailsNext(acts[..m], acts[m], i);
      }
    }
  }

  lemma GiveUpStep(p: Pool, act: Action)
    requires Enabled(p, act) && act.SpawnFail? && p.runq != [] && p.idle.None? && Do(p, act).attempt.None?
    ensures p.attempt.Some? && p.attempt.value >= 3
  {
  }

  /** While a session waits and no closer is idle, a spawn is given up only after failing three times. */
  lemma GivesUpAfterThree(run: seq<Pool>, acts: seq<Action>, n: nat) returns (i: nat)
    requires IsRun(run, acts) && n < |acts| && acts[n].SpawnFail? && run[n].runq != [] && run[n].idle.None?
    requires run[n + 1].attempt.None?
    ensures i <= n && Fails(acts[..n + 1], i) >= 3
  {
    assert Follows(run, acts, n);
    GiveUpStep(run[n], acts[n]);
    i := AttemptCounts(run, acts, n);
    assert acts[..n + 1] == acts[..n] + [acts[n]];
    FailsNext(acts[..n], acts[n], i);
  }

  // ---------------------------------------------------------------------------
  // What a closer gets done.
  // ---------------------------------------------------------------------------

  /** A closer that wakes while a session waits takes it: the first in line. */
  lemma WakeServes(p: Pool, k: CloserId)
    requires Inv(p) && Enabled(p, Wake(k)) && p.runq != []
    ensures var q := Do(p, Wake(k)); Enabled(q, RunTop(k)) && Do(q, RunTop(k)).closers[k].phase == Serving(p.runq[0])
  {
    assert p.runq[0] in p.sessions;
  }

  /** And the entry at the head of its session's queue is attempted in three steps of the closer, which then
      goes on with the session, or to the top of its loop when that was the last. */
  lemma EntryIsAttempted(p: Pool, k: CloserId)
    requires Inv(p) && Enabled(p, TakeEntry(k))
    ensures var sid := p.closers[k].phase.sid;
      var q := Do(p, TakeEntry(k));
      && Enabled(q, FinishEntry(k))
      && var r := Do(q, FinishEntry(k));
      && Enabled(r, DropEntry(k))
      && var u := Do(r, DropEntry(k));
      && var a, b := p.sessions[sid], u.sessions[sid];
      && b.attempted == a.attempted + [a.queue[0]] && b.queue == a.queue[1..] && b.refs == a.refs - 1
      && u.closers[k].phase == (if |a.queue| == 1 then Top else Serving(sid))
      && u.pending == p.pending - 1
  {
    var sid := p.closers[k].phase.sid;
    var a := p.sessions[sid];
    assert SessionOk(a, sid in p.runq, p.closers, sid) && CloserOk(p, k);
    assert (sid, |a.attempted|) in Open(p.sessions);
    assert |a.queue| > 0 && a.refs > 0;
  }
}
