/**
 The page counter of an address space: charges and uncharges of any number of threads, each a loop
 that loads, decides and swaps, with no lock held.  A step is one access to the counter and the
 decision the thread draws from it.
 */
module PageCounter {
  const COUNT_MAX: nat := 0xFFFF_FFFF

  type ThreadId = nat

  datatype Op = Charge(n: nat, exempt: bool) | Uncharge(n: nat)

  // ---------------------------------------------------------------------------
  // What an operation means when nothing runs beside it.
  // ---------------------------------------------------------------------------

  /** Whether the counter may take the operation: a charge must fit the counter and the budget. */
  predicate Admits(count: nat, budget: nat, op: Op) {
    op.Charge? ==> count + op.n <= COUNT_MAX && (op.exempt || count + op.n <= budget)
  }

  function Apply(count: nat, op: Op): nat {
    match op
    case Charge(n, _) => count + n
    case Uncharge(n) => if count >= n then count - n else 0
  }

  /** An operation that has returned, and what it answered. */
  datatype Done = Done(op: Op, ok: bool)

  /** The counter after the operations of `log`, one after the other. */
  function Replay(start: nat, log: seq<Done>): nat {
    if log == [] then start
    else
      var last := log[|log| - 1];
      var count := Replay(start, log[..|log| - 1]);
      if last.ok then Apply(count, last.op) else count
  }

  /** Each answered what it would have answered alone, at its place in the log. */
  ghost predicate Legal(budget: nat, start: nat, log: seq<Done>) {
    forall i | 0 <= i < |log| :: log[i].ok <==> Admits(Replay(start, log[..i]), budget, log[i].op)
  }

  lemma ReplayNext(budget: nat, start: nat, log: seq<Done>, d: Done)
    requires Legal(budget, start, log) && (d.ok <==> Admits(Replay(start, log), budget, d.op))
    ensures Legal(budget, start, log + [d])
    ensures Replay(start, log + [d]) == if d.ok then Apply(Replay(start, log), d.op) else Replay(start, log)
  {
    var u := log + [d];
    assert u[..|log|] == log;
    forall i | 0 <= i < |u|
      ensures u[i].ok <==> Admits(Replay(start, u[..i]), budget, u[i].op)
    {
      if i < |log| { assert u[..i] == log[..i]; }
    }
  }

  // ---------------------------------------------------------------------------
  // The loops.
  // ---------------------------------------------------------------------------

  /** A thread between its load and its swap. */
  datatype Loop = Loop(op: Op, cur: nat)

  datatype Counter = Counter(count: nat, budget: nat, loops: map<ThreadId, Loop>, log: seq<Done>)

  datatype Action = Begin(th: ThreadId, op: Op) | Swap(th: ThreadId, spurious: bool)

  /** The thread has the counter's value before it, and decides on that value. */
  function Observe(s: Counter, th: ThreadId, op: Op): Counter {
    if Admits(s.count, s.budget, op) then s.(loops := s.loops[th := Loop(op, s.count)])
    else s.(loops := s.loops - {th}, log := s.log + [Done(op, false)])
  }

  /** Store what was worked out from the value loaded, if the counter still has that value; otherwise
      take the value it has and decide again. */
  function DoSwap(s: Counter, th: ThreadId, spurious: bool): Counter
    requires th in s.loops
  {
    var l := s.loops[th];
    if !spurious && s.count == l.cur then
      s.(count := Apply(l.cur, l.op), loops := s.loops - {th}, log := s.log + [Done(l.op, true)])
    else Observe(s, th, l.op)
  }

  predicate Enabled(s: Counter, act: Action) {
    match act
    case Begin(th, _) => th !in s.loops
    case Swap(th, _) => th in s.loops
  }

  function Do(s: Counter, act: Action): Counter
    requires Enabled(s, act)
  {
    match act
    case Begin(th, op) => Observe(s, th, op)
    case Swap(th, spurious) => DoSwap(s, th, spurious)
  }

  ghost predicate Follows(run: seq<Counter>, acts: seq<Action>, i: nat)
    requires i < |acts| && |run| == |acts| + 1
  {
    Enabled(run[i], acts[i]) && run[i + 1] == Do(run[i], acts[i])
  }

  ghost predicate IsRun(run: seq<Counter>, acts: seq<Action>) {
    && |run| == |acts| + 1 && run[0].loops == map[] && run[0].log == []
    && forall i {:trigger Follows(run, acts, i)} | 0 <= i < |acts| :: Follows(run, acts, i)
  }

  // ---------------------------------------------------------------------------
  // Every interleaving.
  // ---------------------------------------------------------------------------

  ghost predicate Inv(s: Counter, start: nat) {
    && Legal(s.budget, start, s.log) && s.count == Replay(start, s.log)
    && forall th | th in s.loops :: Admits(s.loops[th].cur, s.budget, s.loops[th].op)
  }

  lemma ObserveKeeps(s: Counter, th: ThreadId, op: Op, start: nat)
    requires Inv(s, start)
    ensures Inv(Observe(s, th, op), start) && Observe(s, th, op).budget == s.budget
  {
    if !Admits(s.count, s.budget, op) { ReplayNext(s.budget, start, s.log, Done(op, false)); }
  }

  lemma SwapKeeps(s: Counter, th: ThreadId, spurious: bool, start: nat)
    requires Inv(s, start) && th in s.loops
    ensures Inv(DoSwap(s, th, spurious), start) && DoSwap(s, th, spurious).budget == s.budget
  {
    var l := s.loops[th];
    if !spurious && s.count == l.cur {
      ReplayNext(s.budget, start, s.log, Done(l.op, true));
    } else {
      ObserveKeeps(s, th, l.op, start);
    }
  }

  lemma StepKeeps(s: Counter, act: Action, start: nat)
    requires Inv(s, start) && Enabled(s, act)
    ensures Inv(Do(s, act), start) && Do(s, act).budget == s.budget
  {
    match act
    case Begin(th, op) => ObserveKeeps(s, th, op, start);
    case Swap(th, spurious) => SwapKeeps(s, th, spurious, start);
  }

  lemma NextKeeps(s: Counter, u: Counter, act: Action, start: nat)
    requires Inv(s, start) && Enabled(s, act) && u == Do(s, act)
    ensures Inv(u, start) && u.budget == s.budget
  {
    StepKeeps(s, act, start);
  }

  /** However the loops of any number of threads interleave, and however often a swap fails, the
      counter and every answer are those of the same operations run one at a time, in the order in which
      they took effect: no update is lost and no decision is stale. */
  lemma {:induction false} ActsOneAtATime(run: seq<Counter>, acts: seq<Action>, i: nat)
    requires IsRun(run, acts) && i < |run|
    ensures Inv(run[i], run[0].count) && run[i].budget == run[0].budget
  {
    if i > 0 {
      ActsOneAtATime(run, acts, i - 1);
      assert Follows(run, acts, i - 1);
      NextKeeps(run[i - 1], run[i], acts[i - 1], run[0].count);
    }
  }

  ghost predicate NoneExempt(log: seq<Done>) { forall i | 0 <= i < |log| && log[i].op.Charge? :: !log[i].op.exempt }

  lemma {:induction false} ReplayWithin(budget: nat, start: nat, log: seq<Done>)
    requires Legal(budget, start, log) && NoneExempt(log) && start <= budget
    ensures Replay(start, log) <= budget
  {
    if log != [] {
      var n := |log| - 1;
      forall i | 0 <= i < n
        ensures log[..n][i].ok <==> Admits(Replay(start, log[..n][..i]), budget, log[..n][i].op)
      {
        assert log[..n][..i] == log[..i];
      }
      ReplayWithin(budget, start, log[..n]);
    }
  }

  /** So racing charges do not overshoot: unless an exempt one landed, the counter never passes the
      budget. */
  lemma NeverOverBudget(run: seq<Counter>, acts: seq<Action>, i: nat)
    requires IsRun(run, acts) && i < |run| && run[0].count <= run[0].budget && NoneExempt(run[i].log)
    ensures run[i].count <= run[i].budget
  {
    ActsOneAtATime(run, acts, i);
    ReplayWithin(run[i].budget, run[0].count, run[i].log);
  }

  function Charged(log: seq<Done>): nat {
    if log == [] then 0
    else
      var last := log[|log| - 1];
      Charged(log[..|log| - 1]) + if last.ok && last.op.Charge? then last.op.n else 0
  }

  function Uncharged(log: seq<Done>): nat {
    if log == [] then 0
    else
      var last := log[|log| - 1];
      Uncharged(log[..|log| - 1]) + if last.ok && last.op.Uncharge? then last.op.n else 0
  }

  /** No more is ever given back than was taken. */
  ghost predicate Paired(start: nat, log: seq<Done>) {
    forall k | 0 <= k <= |log| :: Uncharged(log[..k]) <= start + Charged(log[..k])
  }

  lemma {:induction false} ReplayBalances(start: nat, log: seq<Done>)
    requires Paired(start, log)
    ensures Replay(start, log) + Uncharged(log) == start + Charged(log)
  {
    if log != [] {
      var n := |log| - 1;
      assert log[..|log|] == log;
      forall k | 0 <= k <= n
        ensures Uncharged(log[..n][..k]) <= start + Charged(log[..n][..k])
      {
        assert log[..n][..k] == log[..k];
      }
      ReplayBalances(start, log[..n]);
    }
  }

  lemma PairedPrefix(start: nat, log: seq<Done>, k: nat)
    requires Paired(start, log) && k <= |log|
    ensures Paired(start, log[..k])
  {
    forall j | 0 <= j <= k
      ensures Uncharged(log[..k][..j]) <= start + Charged(log[..k][..j])
    {
      assert log[..k][..j] == log[..j];
    }
  }

  /** And every answer is the right one for what was held when it was given: an uncharge always succeeds,
      and a charge is taken exactly when the counter can express it and the budget allows it or the
      charge is exempt. */
  lemma AnswersAreRight(run: seq<Counter>, acts: seq<Action>, i: nat, k: nat)
    requires IsRun(run, acts) && i < |run| && Paired(run[0].count, run[i].log) && k < |run[i].log|
    ensures var log := run[i].log; var held := run[0].count + Charged(log[..k]) - Uncharged(log[..k]);
      log[k].ok <==>
        match log[k].op
        case Uncharge(_) => true
        case Charge(n, exempt) => held + n < 0x1_0000_0000 && (held + n <= run[0].budget || exempt)
  {
    ActsOneAtATime(run, acts, i);
    PairedPrefix(run[0].count, run[i].log, k);
    ReplayBalances(run[0].count, run[i].log[..k]);
  }

  /** The operations begun in `acts`. */
  function Begun(acts: seq<Action>): nat {
    if acts == [] then 0 else Begun(acts[..|acts| - 1]) + if acts[|acts| - 1].Begin? then 1 else 0
  }

  /** No operation is answered twice or forgotten: those begun are those answered and those still at it. */
  lemma {:induction false} EachAnswersOnce(run: seq<Counter>, acts: seq<Action>, i: nat)
    requires IsRun(run, acts) && i < |run|
    ensures Begun(acts[..i]) == |run[i].log| + |run[i].loops|
  {
    if i > 0 {
      EachAnswersOnce(run, acts, i - 1);
      assert Follows(run, acts, i - 1);
      assert acts[..i][..i - 1] == acts[..i - 1];
      StepCounts(run[i - 1], acts[i - 1]);
    }
  }

  lemma LoopsDrop(m: map<ThreadId, Loop>, th: ThreadId)
    requires th in m
    ensures |m - {th}| == |m| - 1
  {
    var u := m - {th};
    assert u.Keys == m.Keys - {th} && |u| == |u.Keys| && |m| == |m.Keys|;
  }

  lemma LoopsPut(m: map<ThreadId, Loop>, th: ThreadId, l: Loop)
    ensures |m[th := l]| == if th in m then |m| else |m| + 1
  {
    var u := m[th := l];
    assert u.Keys == m.Keys + {th} && |u| == |u.Keys| && |m| == |m.Keys|;
  }

  lemma ObserveCounts(s: Counter, th: ThreadId, op: Op)
    ensures var u := Observe(s, th, op);
      |u.log| + |u.loops| == |s.log| + |s.loops| + if th in s.loops then 0 else 1
  {
    LoopsPut(s.loops, th, Loop(op, s.count));
    if th in s.loops { LoopsDrop(s.loops, th); } else { assert s.loops - {th} == s.loops; }
  }

  lemma StepCounts(s: Counter, act: Action)
    requires Enabled(s, act)
    ensures var u := Do(s, act); |u.log| + |u.loops| == |s.log| + |s.loops| + if act.Begin? then 1 else 0
  {
    match act
    case Begin(th, op) => ObserveCounts(s, th, op);
    case Swap(th, spurious) =>
      ObserveCounts(s, th, s.loops[th].op);
      LoopsDrop(s.loops, th);
  }

  /** While every uncharge returns what some charge took, the counter is exactly what is still held. */
  lemma CountIsBalance(run: seq<Counter>, acts: seq<Action>, i: nat)
    requires IsRun(run, acts) && i < |run| && Paired(run[0].count, run[i].log)
    ensures run[i].count + Uncharged(run[i].log) == run[0].count + Charged(run[i].log)
  {
    ActsOneAtATime(run, acts, i);
    ReplayBalances(run[0].count, run[i].log);
  }
}
