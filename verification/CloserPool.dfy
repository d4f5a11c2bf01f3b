/**
 The closer pool: threads that send the Tclunks which closing threads defer.  Each action is one
 critical section of the pool's lock, or one step a thread takes between two of them.
 */
module CloserPool {
  import opened Options

  type SessionId = nat
  type CloserId = nat
  type EntryId = nat

  /** Where a closer is.  `Dropping` has sent its entry and owes the session an unref. */
  datatype Phase =
    | Born
    | Top
    | Serving(sid: SessionId)
    | Sending(sid: SessionId, entry: EntryId)
    | Dropping(sid: SessionId, done: bool)
    | Idle
    | Retiring
    | Exited

  datatype Closer = Closer(phase: Phase, kicked: bool)

  /** `others` are the references that no entry holds; `accepted` and `attempted` are the whole
      history of the session's entries. */
  datatype Attached = Attached(
    queue: seq<EntryId>,
    queued: bool,
    busy: bool,
    server: Option<CloserId>,
    refs: nat,
    others: nat,
    destroyed: bool,
    accepted: seq<EntryId>,
    attempted: seq<EntryId>)

  datatype Pool = Pool(
    runq: seq<SessionId>,
    idle: Option<CloserId>,
    retired: set<CloserId>,
    spawning: bool,
    attempt: Option<nat>,
    newborn: Option<CloserId>,
    gaveUp: bool,
    pending: nat,
    sessions: map<SessionId, Attached>,
    closers: map<CloserId, Closer>,
    reaped: set<CloserId>,
    freed: set<CloserId>,
    nextEntry: EntryId,
    nextCloser: CloserId)

  datatype Action =
    | Attach(sid: SessionId)
    | Ref(sid: SessionId)
    | Unref(sid: SessionId)
    | DeferClose(sid: SessionId)
    | OrphanSink(sid: SessionId)
    | SpawnOk
    | SpawnFail
    | RunTop(k: CloserId)
    | Wake(k: CloserId)
    | TakeEntry(k: CloserId)
    | FinishEntry(k: CloserId)
    | DropEntry(k: CloserId)
    | Exit(k: CloserId)
    | FreeReaped(k: CloserId)

  const SPAWN_TRIES: nat := 3

  // ---------------------------------------------------------------------------
  // Steps.
  // ---------------------------------------------------------------------------

  function At(p: Pool, k: CloserId, phase: Phase): Pool
    requires k in p.closers
  {
    p.(closers := p.closers[k := p.closers[k].(phase := phase)])
  }

  function Kick(p: Pool): Pool {
    match p.idle
    case None => p
    case Some(k) => if k in p.closers then p.(closers := p.closers[k := p.closers[k].(kicked := true)]) else p
  }

  /** Append an entry to its session's queue, and the session to the run-queue unless a closer has
      it or it waits already; an idle closer is kicked. */
  function Enqueue(p: Pool, sid: SessionId): Pool
    requires sid in p.sessions
  {
    var a := p.sessions[sid];
    var e := p.nextEntry;
    var b := a.(queue := a.queue + [e], accepted := a.accepted + [e], refs := a.refs + 1);
    var q := p.(pending := p.pending + 1, nextEntry := e + 1);
    if a.busy || a.queued then q.(sessions := p.sessions[sid := b])
    else Kick(q.(sessions := p.sessions[sid := b.(queued := true)], runq := p.runq + [sid]))
  }

  /** Begin a spawn. */
  function Spawn(p: Pool): Pool { p.(spawning := true, attempt := Some(1), gaveUp := false) }

  function DoDeferClose(p: Pool, sid: SessionId): Pool
    requires sid in p.sessions
  {
    var q := Enqueue(p, sid);
    if q.runq != [] && q.idle.None? && !q.spawning then Spawn(q) else q
  }

  function DoSpawnOk(p: Pool): Pool {
    p.(attempt := None, newborn := Some(p.nextCloser), nextCloser := p.nextCloser + 1,
       closers := p.closers[p.nextCloser := Closer(Born, false)])
  }

  function DoSpawnFail(p: Pool): Pool
    requires p.attempt.Some?
  {
    if p.runq != [] && p.idle.None? && p.attempt.value < SPAWN_TRIES then p.(attempt := Some(p.attempt.value + 1))
    else p.(attempt := None, spawning := false, gaveUp := true)
  }

  /** A first loop top ends its closer's spawn. */
  function Start(p: Pool, k: CloserId): Pool
    requires k in p.closers
  {
    if p.closers[k].phase.Born? then p.(spawning := false, newborn := None) else p
  }

  function Reapable(p: Pool): set<CloserId> { set x | x in p.retired && x in p.closers && p.closers[x].phase.Exited? }

  /** Take the first waiting session, spawning a spare if none is idle or coming. */
  function TakeSession(p: Pool, k: CloserId): Pool
    requires k in p.closers && p.runq != [] && p.runq[0] in p.sessions
  {
    var sid := p.runq[0];
    var a := p.sessions[sid].(queued := false, busy := true, server := Some(k));
    var q := At(p.(runq := p.runq[1..], sessions := p.sessions[sid := a]), k, Serving(sid));
    if q.idle.None? && !q.spawning then Spawn(q) else q
  }

  /** What every loop top does first: end a spawn, stop being the idle closer, collect the retired. */
  function EnterTop(p: Pool, k: CloserId): Pool
    requires k in p.closers
  {
    var s := Start(p, k);
    s.(idle := if s.idle == Some(k) then None else s.idle,
       retired := s.retired - Reapable(s), reaped := s.reaped + Reapable(s))
  }

  function Retire(p: Pool, k: CloserId): Pool
    requires k in p.closers
  {
    Kick(At(p.(retired := p.retired + {k}), k, Retiring))
  }

  function GoIdle(p: Pool, k: CloserId): Pool {
    p.(idle := Some(k), gaveUp := false, closers := p.closers[k := Closer(Idle, false)])
  }

  function DoRunTop(p: Pool, k: CloserId): Pool
    requires k in p.closers && (p.runq != [] ==> p.runq[0] in p.sessions)
  {
    var q := EnterTop(p, k);
    if q.runq != [] then TakeSession(q, k) else if q.idle.Some? then Retire(q, k) else GoIdle(q, k)
  }

  function DoTakeEntry(p: Pool, k: CloserId): Pool
    requires k in p.closers && p.closers[k].phase.Serving?
    requires p.closers[k].phase.sid in p.sessions && p.sessions[p.closers[k].phase.sid].queue != []
  {
    var sid := p.closers[k].phase.sid;
    var a := p.sessions[sid];
    At(p.(sessions := p.sessions[sid := a.(queue := a.queue[1..])]), k, Sending(sid, a.queue[0]))
  }

  function DoFinishEntry(p: Pool, k: CloserId): Pool
    requires k in p.closers && p.closers[k].phase.Sending? && p.closers[k].phase.sid in p.sessions && p.pending > 0
  {
    var sid, e := p.closers[k].phase.sid, p.closers[k].phase.entry;
    var a := p.sessions[sid];
    var done := a.queue == [];
    var b := a.(attempted := a.attempted + [e], busy := !done, server := if done then None else a.server);
    At(p.(pending := p.pending - 1, sessions := p.sessions[sid := b]), k, Dropping(sid, done))
  }

  function Deref(a: Attached): Attached
    requires a.refs > 0
  {
    a.(refs := a.refs - 1, destroyed := a.refs == 1)
  }

  function DoDropEntry(p: Pool, k: CloserId): Pool
    requires k in p.closers && p.closers[k].phase.Dropping?
    requires p.closers[k].phase.sid in p.sessions && p.sessions[p.closers[k].phase.sid].refs > 0
  {
    var sid, done := p.closers[k].phase.sid, p.closers[k].phase.done;
    At(p.(sessions := p.sessions[sid := Deref(p.sessions[sid])]), k, if done then Top else Serving(sid))
  }

  /** A defer and a reference come from a holder; the orphan sink must first get a reference. */
  predicate Enabled(p: Pool, act: Action) {
    match act
    case Attach(sid) => sid !in p.sessions
    case Ref(sid) => sid in p.sessions && p.sessions[sid].others > 0
    case Unref(sid) => sid in p.sessions && p.sessions[sid].others > 0 && p.sessions[sid].refs > 0
    case DeferClose(sid) => sid in p.sessions && p.sessions[sid].others > 0
    case OrphanSink(sid) => sid in p.sessions && p.sessions[sid].refs > 0
    case SpawnOk => p.attempt.Some?
    case SpawnFail => p.attempt.Some?
    case RunTop(k) =>
      && k in p.closers && (p.closers[k].phase.Born? || p.closers[k].phase.Top?)
      && (p.runq != [] ==> p.runq[0] in p.sessions)
    case Wake(k) => k in p.closers && p.closers[k].phase.Idle?
    case TakeEntry(k) =>
      && k in p.closers && p.closers[k].phase.Serving?
      && p.closers[k].phase.sid in p.sessions && p.sessions[p.closers[k].phase.sid].queue != []
    case FinishEntry(k) =>
      && k in p.closers && p.closers[k].phase.Sending?
      && p.closers[k].phase.sid in p.sessions && p.pending > 0
    case DropEntry(k) =>
      && k in p.closers && p.closers[k].phase.Dropping?
      && p.closers[k].phase.sid in p.sessions && p.sessions[p.closers[k].phase.sid].refs > 0
    case Exit(k) => k in p.closers && p.closers[k].phase.Retiring?
    case FreeReaped(k) => k in p.reaped && k in p.closers
  }

  function Do(p: Pool, act: Action): Pool
    requires Enabled(p, act)
  {
    match act
    case Attach(sid) => p.(sessions := p.sessions[sid := Attached([], false, false, None, 1, 1, false, [], [])])
    case Ref(sid) =>
      var a := p.sessions[sid];
      p.(sessions := p.sessions[sid := a.(refs := a.refs + 1, others := a.others + 1)])
    case Unref(sid) =>
      var a := p.sessions[sid];
      p.(sessions := p.sessions[sid := Deref(a.(others := a.others - 1))])
    case DeferClose(sid) => DoDeferClose(p, sid)
    case OrphanSink(sid) => Enqueue(p, sid)
    case SpawnOk => DoSpawnOk(p)
    case SpawnFail => DoSpawnFail(p)
    case RunTop(k) => DoRunTop(p, k)
    case Wake(k) => At(p, k, Top)
    case TakeEntry(k) => DoTakeEntry(p, k)
    case FinishEntry(k) => DoFinishEntry(p, k)
    case DropEntry(k) => DoDropEntry(p, k)
    case Exit(k) => At(p, k, Exited)
    case FreeReaped(k) => p.(reaped := p.reaped - {k}, freed := p.freed + {k}, closers := p.closers - {k})
  }

  /** The pool right after its start: the first closer is being spawned. */
  function Init(): Pool {
    Pool([], None, {}, true, Some(1), None, false, 0, map[], map[], {}, {}, 0, 0)
  }

  ghost predicate Follows(run: seq<Pool>, acts: seq<Action>, i: nat)
    requires i < |acts| && |run| == |acts| + 1
  {
    Enabled(run[i], acts[i]) && run[i + 1] == Do(run[i], acts[i])
  }

  ghost predicate IsRun(run: seq<Pool>, acts: seq<Action>) {
    && |run| == |acts| + 1 && run[0] == Init()
    && forall i {:trigger Follows(run, acts, i)} | 0 <= i < |acts| :: Follows(run, acts, i)
  }
}
