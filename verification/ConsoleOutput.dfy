/**
 The console's write path: a program's bytes are cooked (newline to CR NL under ONLCR) into a
 bounded stage, pushed to a sink that may take only part, and the accepted part is mapped back
 to a count of the caller's bytes.
 */
module ConsoleOutput {
  import opened Bytes
  import opened ConsoleInput

  // ---------------------------------------------------------------------------
  // Cooking.
  // ---------------------------------------------------------------------------

  function CookOne(onlcr: bool, b: Byte): seq<Byte> { if b == NL && onlcr then [CR, NL] else [b] }

  /** The bytes a program's output becomes on the wire. */
  function Cook(onlcr: bool, s: seq<Byte>): seq<Byte> {
    if s == [] then [] else Cook(onlcr, s[..|s| - 1]) + CookOne(onlcr, s[|s| - 1])
  }

  lemma CookNext(onlcr: bool, s: seq<Byte>, i: nat)
    requires i < |s|
    ensures Cook(onlcr, s[..i + 1]) == Cook(onlcr, s[..i]) + CookOne(onlcr, s[i])
  {
    assert s[..i + 1][..i] == s[..i];
  }

  lemma {:induction false} CookConcat(onlcr: bool, a: seq<Byte>, b: seq<Byte>)
    ensures Cook(onlcr, a + b) == Cook(onlcr, a) + Cook(onlcr, b)
  {
    if b == [] {
      assert a + b == a;
    } else {
      var n := |b| - 1;
      CookConcat(onlcr, a, b[..n]);
      assert (a + b)[..|a + b| - 1] == a + b[..n];
    }
  }

  /** Without ONLCR, and where there is no newline, output goes out as it is; with it, a newline goes out
      behind a carriage return. */
  lemma {:induction false} CookMeans(onlcr: bool, s: seq<Byte>)
    ensures !onlcr || NL !in s ==> Cook(onlcr, s) == s
    ensures Cook(true, [NL]) == [CR, NL]
  {
    var one: seq<Byte> := [NL];
    assert one[..|one| - 1] == [] && Cook(true, []) == [];
    if s != [] {
      CookMeans(onlcr, s[..|s| - 1]);
      assert s == s[..|s| - 1] + [s[|s| - 1]];
    }
  }

  /** Cooking a longer prefix extends what the shorter one gives. */
  lemma {:induction false} CookPrefix(onlcr: bool, s: seq<Byte>, i: nat, j: nat)
    requires i <= j <= |s|
    ensures |Cook(onlcr, s[..j])| >= |Cook(onlcr, s[..i])| + (j - i)
    ensures Cook(onlcr, s[..j])[..|Cook(onlcr, s[..i])|] == Cook(onlcr, s[..i])
    decreases j
  {
    if i < j {
      CookPrefix(onlcr, s, i, j - 1);
      CookNext(onlcr, s, j - 1);
    }
  }

  /** `used` is the longest prefix whose cooked form fits `cap`. */
  ghost predicate Fits(onlcr: bool, s: seq<Byte>, cap: nat, used: nat) {
    && used <= |s| && |Cook(onlcr, s[..used])| <= cap
    && (used < |s| ==> |Cook(onlcr, s[..used + 1])| > cap)
  }

  lemma FitsUnique(onlcr: bool, s: seq<Byte>, cap: nat, i: nat, j: nat)
    requires Fits(onlcr, s, cap, i) && i <= j <= |s| && |Cook(onlcr, s[..j])| <= cap
    ensures i == j
  {
    if i < j { CookPrefix(onlcr, s, i + 1, j); }
  }

  /** A newline in cooked output ends the cooked form of some input prefix. */
  lemma {:induction false} NewlineIsBoundary(onlcr: bool, s: seq<Byte>, k: nat) returns (j: nat)
    requires 0 < k <= |Cook(onlcr, s)| && Cook(onlcr, s)[k - 1] == NL
    ensures j <= |s| && |Cook(onlcr, s[..j])| == k
  {
    var n := |s| - 1;
    var head := Cook(onlcr, s[..n]);
    if k <= |head| {
      j := NewlineIsBoundary(onlcr, s[..n], k);
      assert s[..n][..j] == s[..j];
    } else {
      j := |s|;
      assert s[..j] == s;
    }
  }

  /** Cutting the stage after its last newline re-stages to exactly the cut. */
  lemma CutIsExact(onlcr: bool, s: seq<Byte>, used: nat, k: nat, i: nat)
    requires used <= |s| && 0 < k <= |Cook(onlcr, s[..used])| && Cook(onlcr, s[..used])[k - 1] == NL
    requires Fits(onlcr, s, k, i)
    ensures |Cook(onlcr, s[..i])| == k && i <= used
  {
    var j := NewlineIsBoundary(onlcr, s[..used], k);
    assert s[..used][..j] == s[..j];
    if i <= j { FitsUnique(onlcr, s, k, i, j); } else { CookPrefix(onlcr, s, j, i); }
  }

  lemma FitsBefore(onlcr: bool, s: seq<Byte>, used: nat, acc: nat, i: nat)
    requires used <= |s| && acc <= |Cook(onlcr, s[..used])| && Fits(onlcr, s, acc, i)
    ensures i <= used
  {
    if used < i { CookPrefix(onlcr, s, used, i); }
  }

  /** A short accept ends after some input prefix, or one byte later: between a CR and its NL. */
  lemma ShortAccept(onlcr: bool, s: seq<Byte>, used: nat, acc: nat, i: nat)
    requires used <= |s| && acc <= |Cook(onlcr, s[..used])| && Fits(onlcr, s, acc, i)
    ensures i <= used
    ensures var sent := Cook(onlcr, s[..used])[..acc];
      || sent == Cook(onlcr, s[..i])
      || (i < used && onlcr && s[i] == NL && sent == Cook(onlcr, s[..i]) + [CR])
  {
    FitsBefore(onlcr, s, used, acc, i);
    var all, head := Cook(onlcr, s[..used]), Cook(onlcr, s[..i]);
    CookPrefix(onlcr, s, i, used);
    if i < used {
      CookNext(onlcr, s, i);
      CookPrefix(onlcr, s, i + 1, used);
      var one := Cook(onlcr, s[..i + 1]);
      assert all[..|one|] == one && one == head + CookOne(onlcr, s[i]);
      assert all[..acc] == all[..|one|][..acc] == one[..acc];
      if acc > |head| { assert one[..acc] == head + [CR]; } else { assert one[..acc] == head; }
    } else {
      assert all[..acc] == head;
    }
  }

  /** A short accept that counts as nothing written is of no byte, or of the CR of a leading newline. */
  lemma CountedAsNothing(onlcr: bool, s: seq<Byte>, acc: nat, i: nat)
    requires s != [] && Fits(onlcr, s, acc, i)
    ensures i == 0 <==> acc == 0 || (acc == 1 && onlcr && s[0] == NL)
  {
    CookNext(onlcr, s, 0);
    CookPrefix(onlcr, s, 0, i);
    if i > 0 { CookPrefix(onlcr, s, 1, i); }
  }

  // ---------------------------------------------------------------------------
  // The write path.
  // ---------------------------------------------------------------------------

  /** Cook `input` into the stage, stopping at `cap` staged bytes. */
  method StageChunk(input: seq<Byte>, onlcr: bool, stage: array<Byte>, cap: nat) returns (used: nat, len: nat)
    requires cap <= stage.Length
    modifies stage
    ensures Fits(onlcr, input, cap, used) && len <= cap
    ensures stage[..len] == Cook(onlcr, input[..used])
  {
    len, used := 0, 0;
    while used < |input|
      invariant used <= |input| && len <= cap && stage[..len] == Cook(onlcr, input[..used])
    {
      CookNext(onlcr, input, used);
      var c := input[used];
      if c == NL && onlcr {
        if len + 2 > cap { break; }
        stage[len] := CR;
        stage[len + 1] := NL;
        len := len + 2;
      } else {
        if len + 1 > cap { break; }
        stage[len] := c;
        len := len + 1;
      }
      used := used + 1;
    }
  }

  /** How a wait for room ends. */
  datatype Wake = Room(take: nat) | Died | Noted | TimedOut

  /** What one chunk of a write meets: an episode opened before it, the room there is, and what each
      wait for more ends in. */
  datatype Meets = Meets(frozen: bool, room: nat, wakes: seq<Wake>)

  /** What happens at a chunk; one past the end of the script finds no room and times out. */
  function MeetsAt(script: seq<Meets>, k: nat): Meets { if k < |script| then script[k] else Meets(false, 0, []) }

  function Pushed(n: nat, done: nat, room: nat): nat { if n <= done + room then n else done + room }

  /** How many of `n` bytes are out when the waits are over, and whether a note ended them. */
  function Waited(n: nat, done: nat, wakes: seq<Wake>): (nat, bool)
    decreases |wakes|
  {
    if done >= n || wakes == [] then (done, false)
    else
      match wakes[0]
      case Room(free) => Waited(n, Pushed(n, done, free), wakes[1..])
      case Noted => (done, true)
      case _ => (done, false)
  }

  lemma WaitedNext(n: nat, done: nat, wakes: seq<Wake>, i: nat)
    requires done < n && i < |wakes|
    ensures wakes[i].Room? ==> Waited(n, done, wakes[i..]) == Waited(n, Pushed(n, done, wakes[i].take), wakes[i + 1..])
    ensures !wakes[i].Room? ==> Waited(n, done, wakes[i..]) == (done, wakes[i].Noted?)
  {
    assert wakes[i..][1..] == wakes[i + 1..];
  }

  function Accept(n: nat, m: Meets): (nat, bool) { Waited(n, Pushed(n, 0, m.room), m.wakes) }

  /** The room that opens before a wait ends in anything else, and whether that is a note. */
  function RoomIn(wakes: seq<Wake>): nat {
    if wakes == [] || !wakes[0].Room? then 0 else wakes[0].take + RoomIn(wakes[1..])
  }

  predicate EndsInNote(wakes: seq<Wake>) {
    wakes != [] && (wakes[0].Noted? || (wakes[0].Room? && EndsInNote(wakes[1..])))
  }

  lemma {:induction false} WaitedMeans(n: nat, done: nat, wakes: seq<Wake>)
    requires done <= n
    ensures Waited(n, done, wakes).0 == Pushed(n, done, RoomIn(wakes))
    ensures Waited(n, done, wakes).1 <==> done + RoomIn(wakes) < n && EndsInNote(wakes)
    decreases |wakes|
  {
    if done < n && wakes != [] && wakes[0].Room? { WaitedMeans(n, Pushed(n, done, wakes[0].take), wakes[1..]); }
  }

  /** The sink takes as much as there was room for, first and later, and a note counts exactly when it ends the
      waits with bytes still to go. */
  lemma AcceptMeans(n: nat, m: Meets)
    ensures var all := m.room + RoomIn(m.wakes);
      Accept(n, m) == (if all < n then all else n, all < n && EndsInNote(m.wakes))
  {
    WaitedMeans(n, Pushed(n, 0, m.room), m.wakes);
  }

  /** Whether an accept stops at `k` of the bytes does not depend on how many more there are. */
  lemma {:induction false} WaitedStops(n: nat, k: nat, done: nat, wakes: seq<Wake>)
    requires done <= k < n
    ensures Waited(n, done, wakes) == (k, true) <==> Waited(k + 1, done, wakes) == (k, true)
    decreases |wakes|
  {
    if wakes != [] && wakes[0].Room? {
      var more := Pushed(n, done, wakes[0].take);
      WaitedGrows(n, more, wakes[1..]);
      if more <= k { WaitedStops(n, k, more, wakes[1..]); }
    }
  }

  lemma {:induction false} WaitedGrows(n: nat, done: nat, wakes: seq<Wake>)
    ensures Waited(n, done, wakes).0 >= done
    decreases |wakes|
  {
    if done < n && wakes != [] && wakes[0].Room? { WaitedGrows(n, Pushed(n, done, wakes[0].take), wakes[1..]); }
  }

  lemma AcceptStops(n: nat, k: nat, m: Meets)
    requires k < n
    ensures Accept(n, m) == (k, true) <==> Accept(k + 1, m) == (k, true)
  {
    var done := Pushed(n, 0, m.room);
    WaitedGrows(n, done, m.wakes);
    if done <= k { WaitedStops(n, k, done, m.wakes); }
  }

  /** A chunk of at most `cap` bytes is not taken whole. */
  ghost predicate Cuts(m: Meets, cap: nat) { exists n :: 0 < n <= cap && Accept(n, m).0 < n }

  /** A note ends the first chunk before any byte of it is out. */
  predicate NothingOut(input: seq<Byte>, first: Meets) { input != [] && Accept(1, first) == (0, true) }

  /** A note ends the first chunk between the CR and the NL of a newline the output starts with. */
  predicate LoneReturn(input: seq<Byte>, onlcr: bool, first: Meets) {
    input != [] && onlcr && input[0] == NL && Accept(2, first) == (1, true)
  }

  /** An output can meet a lone CR exactly when it starts with a newline and ONLCR is set. */
  lemma LoneReturnPossible(input: seq<Byte>, onlcr: bool)
    ensures (exists first :: LoneReturn(input, onlcr, first)) <==> input != [] && onlcr && input[0] == NL
  {
    if input != [] && onlcr && input[0] == NL {
      assert Waited(2, 1, [Noted]) == (1, true);
      assert LoneReturn(input, onlcr, Meets(false, 1, [Noted]));
    }
  }

  /** What a chunk's accept says of a note, whatever the size of the chunk. */
  lemma ChunkDecides(input: seq<Byte>, onlcr: bool, m: Meets, used: nat, len: nat, acc: nat, noted: bool)
    requires 0 < used <= |input| && len == |Cook(onlcr, input[..used])| && (acc, noted) == Accept(len, m) && acc <= len
    ensures noted && acc == 0 <==> NothingOut(input, m)
    ensures noted && acc == 1 && onlcr && input[0] == NL <==> LoneReturn(input, onlcr, m)
  {
    CookNext(onlcr, input, 0);
    CookPrefix(onlcr, input, 1, used);
    AcceptStops(len, 0, m);
    if onlcr && input[0] == NL { AcceptStops(len, 1, m); }
  }

  /** A write that consumed `r` of the caller's bytes put exactly their cooked form on the sink. */
  ghost predicate WroteWhole(before: seq<Byte>, after: seq<Byte>, input: seq<Byte>, onlcr: bool, r: nat) {
    r <= |input| && after == before + Cook(onlcr, input[..r])
  }

  /** As WroteWhole, but the CR of a newline that did not fit whole went out too. */
  ghost predicate WroteSplit(before: seq<Byte>, after: seq<Byte>, input: seq<Byte>, onlcr: bool, r: nat) {
    r < |input| && onlcr && input[r] == NL && after == before + Cook(onlcr, input[..r]) + [CR]
  }

  lemma WroteMore(before: seq<Byte>, mid: seq<Byte>, after: seq<Byte>, input: seq<Byte>, onlcr: bool, r: nat, part: nat)
    requires WroteWhole(before, mid, input, onlcr, r)
    ensures WroteWhole(mid, after, input[r..], onlcr, part) ==> WroteWhole(before, after, input, onlcr, r + part)
    ensures WroteSplit(mid, after, input[r..], onlcr, part) ==> WroteSplit(before, after, input, onlcr, r + part)
  {
    if part <= |input| - r {
      CookConcat(onlcr, input[..r], input[r..][..part]);
      assert input[..r] + input[r..][..part] == input[..r + part];
    }
  }

  class Terminal {
    /** Every byte the sink took, in order. */
    var sent: seq<Byte>

    constructor ()
      ensures sent == []
    {
      sent := [];
    }

    /** Push what fits of the first `n` staged bytes from `done` on. */
    method PushBulk(stage: array<Byte>, done: nat, n: nat, room: nat, ghost was: seq<Byte>) returns (acc: nat)
      requires done <= n <= stage.Length && sent == was + stage[..done]
      modifies this
      ensures acc == Pushed(n, done, room) <= n && sent == was + stage[..acc]
    {
      var take := if n - done <= room then n - done else room;
      sent := sent + stage[done..done + take];
      acc := done + take;
    }

    /** Emit one staged chunk, parking for room between pushes; a list of wakes that ends early stands
        for a wait that timed out. */
    method EmitBulkWait(stage: array<Byte>, n: nat, m: Meets) returns (acc: nat, noted: bool)
      requires n <= stage.Length
      modifies this
      ensures acc <= n && sent == old(sent) + stage[..acc]
      ensures noted ==> acc < n
      ensures (acc, noted) == Accept(n, m)
    {
      noted := false;
      acc := PushBulk(stage, 0, n, m.room, sent);
      var i := 0;
      while acc < n && i < |m.wakes|
        invariant acc <= n && i <= |m.wakes| && sent == old(sent) + stage[..acc]
        invariant Accept(n, m) == Waited(n, acc, m.wakes[i..])
      {
        WaitedNext(n, acc, m.wakes, i);
        match m.wakes[i] {
          case Room(free) => acc := PushBulk(stage, acc, n, free, old(sent));
          case Noted => return acc, true;
          case _ => return acc, false;
        }
        i := i + 1;
      }
    }

    /** Stage the next chunk: as much as the stage holds, cut after the last newline when more follows. */
    method NextChunk(input: seq<Byte>, onlcr: bool, stage: array<Byte>) returns (used: nat, len: nat)
      requires stage.Length >= 2 && input != []
      modifies stage
      ensures 0 < used <= |input| && 0 < len <= stage.Length
      ensures stage[..len] == Cook(onlcr, input[..used])
      ensures used == |input| || stage[len - 1] == NL || (NL !in stage[..len] && Fits(onlcr, input, stage.Length, used))
    {
      used, len := StageChunk(input, onlcr, stage, stage.Length);
      FirstFits(onlcr, input, stage.Length, used);
      if used < |input| {
        var k: nat := len;
        while k > 0 && stage[k - 1] != NL
          invariant k <= len && forall j | k <= j < len :: stage[j] != NL
        {
          k := k - 1;
        }
        if 0 < k < len {
          ghost var u := used;
          assert Cook(onlcr, input[..u])[k - 1] == stage[..len][k - 1] == NL;
          used, len := StageChunk(input, onlcr, stage, k);
          CutIsExact(onlcr, input, u, k, used);
          NewlineEnds(onlcr, input, u, used, k);
        }
      }
    }

    /** Write the next chunk of `rest`: `part` is how many bytes of it count as written, `short` says that
        the sink cut it short. */
    method WriteChunk(rest: seq<Byte>, onlcr: bool, stage: array<Byte>, m: Meets)
      returns (part: nat, short: bool, noted: bool)
      requires stage.Length >= 2 && rest != []
      modifies this, stage
      ensures !short ==> part > 0 && !noted
      ensures short ==> Cuts(m, stage.Length)
      ensures WroteWhole(old(sent), sent, rest, onlcr, part) ||
          (short && WroteSplit(old(sent), sent, rest, onlcr, part))
      ensures noted && part == 0 <==> NothingOut(rest, m) || LoneReturn(rest, onlcr, m)
      ensures noted && part == 0 ==> sent == old(sent) + if LoneReturn(rest, onlcr, m) then [CR] else []
    {
      var used, len := NextChunk(rest, onlcr, stage);
      ghost var cooked := stage[..len];
      var acc;
      acc, noted := EmitBulkWait(stage, len, m);
      assert stage[..acc] == cooked[..acc];
      ChunkDecides(rest, onlcr, m, used, len, acc, noted);
      if acc != len {
        var dummy;
        part, dummy := StageChunk(rest, onlcr, stage, acc);
        ShortAccept(onlcr, rest, used, acc, part);
        CountedAsNothing(onlcr, rest, acc, part);
        return part, true, noted;
      }
      assert cooked[..acc] == cooked;
      return used, false, noted;
    }

    /** Write `input`: `short` says that the sink cut a chunk short, `stopped` that an episode opened
        between chunks.  A negative result is EINTR. */
    method OutputWrite(input: seq<Byte>, onlcr: bool, stage: array<Byte>, script: seq<Meets>)
      returns (r: int, short: bool, stopped: bool)
      requires stage.Length >= 2
      modifies this, stage
      ensures -1 <= r <= |input|
      ensures r >= 0 && !short ==> WroteWhole(old(sent), sent, input, onlcr, r)
      ensures r >= 0 && short ==>
          WroteWhole(old(sent), sent, input, onlcr, r) || WroteSplit(old(sent), sent, input, onlcr, r)
      ensures r < 0 <==> NothingOut(input, MeetsAt(script, 0)) || LoneReturn(input, onlcr, MeetsAt(script, 0))
      ensures r < 0 ==> sent == old(sent) + if LoneReturn(input, onlcr, MeetsAt(script, 0)) then [CR] else []
      ensures r < 0 && sent != old(sent) <==> LoneReturn(input, onlcr, MeetsAt(script, 0))
      ensures !short && !stopped ==> r == |input|
      ensures stopped ==> !short && 0 < r < |input|
      ensures short ==> exists k: nat :: Cuts(MeetsAt(script, k), stage.Length)
      ensures stopped ==> exists k: nat :: k > 0 && MeetsAt(script, k).frozen
    {
      var i, k: nat := 0, 0;
      var noted := false;
      short, stopped := false, false;
      assert Cook(onlcr, input[..0]) == [];
      ghost var first := MeetsAt(script, 0);
      while i < |input| && !short && !stopped
        invariant 0 <= i <= |input| && (k == 0 ==> i == 0 && !short && !stopped) && (k > 0 && !short ==> i > 0)
        invariant !short ==> WroteWhole(old(sent), sent, input, onlcr, i) && !noted
        invariant short ==> WroteWhole(old(sent), sent, input, onlcr, i) || WroteSplit(old(sent), sent, input, onlcr, i)
        invariant k > 0 ==> (noted && i == 0 <==> NothingOut(input, first) || LoneReturn(input, onlcr, first))
        invariant noted && i == 0 ==> sent == old(sent) + if LoneReturn(input, onlcr, first) then [CR] else []
        invariant stopped ==> !short && 0 < i < |input| && exists j: nat :: j > 0 && MeetsAt(script, j).frozen
        invariant short ==> exists j: nat :: Cuts(MeetsAt(script, j), stage.Length)
        decreases !short, !stopped, |input| - i
      {
        var m := MeetsAt(script, k);
        if i > 0 && m.frozen {
          stopped := true;
        } else {
          ghost var mid := sent;
          var part;
          part, short, noted := WriteChunk(input[i..], onlcr, stage, m);
          WroteMore(old(sent), mid, sent, input, onlcr, i, part);
          assert input[0..] == input;
          i, k := i + part, k + 1;
        }
      }
      if noted && i == 0 { return -1, short, stopped; }
      return i, short, stopped;
    }

    /** A newline under ONLCR, room for one byte, then a note: EINTR after the CR went out. */
    method InterruptedNewline(stage: array<Byte>) returns (r: int)
      requires stage.Length >= 2
      modifies this, stage
      ensures r < 0 && sent == old(sent) + [CR]
    {
      var script := [Meets(false, 1, [Noted])];
      assert Waited(2, 1, [Noted]) == (1, true);
      assert LoneReturn([NL], true, MeetsAt(script, 0));
      var short, stopped;
      r, short, stopped := OutputWrite([NL], true, stage, script);
    }
  }

  lemma FirstFits(onlcr: bool, s: seq<Byte>, cap: nat, used: nat)
    requires s != [] && cap >= 2 && Fits(onlcr, s, cap, used)
    ensures used > 0 && |Cook(onlcr, s[..used])| > 0
  {
    CookNext(onlcr, s, 0);
    CookPrefix(onlcr, s, 0, used);
  }

  lemma NewlineEnds(onlcr: bool, s: seq<Byte>, u: nat, i: nat, k: nat)
    requires i <= u <= |s| && 0 < k == |Cook(onlcr, s[..i])| && k <= |Cook(onlcr, s[..u])|
    requires Cook(onlcr, s[..u])[k - 1] == NL
    ensures i > 0 && Cook(onlcr, s[..i])[k - 1] == NL
  {
    CookPrefix(onlcr, s, i, u);
  }
}
