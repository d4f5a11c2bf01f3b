/**
 The console's receive side: a ring of bytes ready for the reader and a canonical line being
 assembled, fed one byte at a time by a producer that re-offers a refused byte.  Every method
 is proved against a pure fold of what was typed.
 */
module ConsoleInput {
  import opened Bytes

  const NL: Byte := 10
  const CR: Byte := 13
  const INTR: Byte := 3
  const BS: Byte := 8
  const DEL: Byte := 127
  const SPACE: Byte := 32

  datatype Mode = Mode(icanon: bool, echo: bool, isig: bool, icrnl: bool, onlcr: bool)

  // ---------------------------------------------------------------------------
  // Line editing as a fold.
  // ---------------------------------------------------------------------------

  /** What was typed, and the mode writes between: `kept` is how much of the pending line a mode
      write that leaves canonical mode could deliver. */
  datatype Event = Typed(b: Byte) | SetMode(mode: Mode, kept: nat)

  /** The bytes delivered so far, the line being assembled, the bytes a full line turned away
      and the interrupts raised. */
  datatype Edit = Edit(mode: Mode, out: seq<Byte>, line: seq<Byte>, lost: nat, interrupts: nat)

  function Translate(m: Mode, b: Byte): Byte { if b == CR && m.icrnl then NL else b }

  function Type(lineMax: nat, e: Edit, typed: Byte): Edit {
    var b := Translate(e.mode, typed);
    if b == INTR && e.mode.isig then
      e.(interrupts := e.interrupts + 1, line := if e.mode.icanon then [] else e.line)
    else if !e.mode.icanon then e.(out := e.out + [b])
    else if b == DEL || b == BS then e.(line := if e.line == [] then [] else e.line[..|e.line| - 1])
    else if b == NL then e.(out := e.out + e.line + [NL], line := [])
    else if |e.line| < lineMax then e.(line := e.line + [b])
    else e.(lost := e.lost + 1)
  }

  function ChangeMode(e: Edit, m: Mode, kept: nat): Edit {
    if e.mode.icanon && !m.icanon then
      e.(mode := m, out := e.out + (if kept <= |e.line| then e.line[..kept] else e.line), line := [])
    else e.(mode := m)
  }

  function Step(lineMax: nat, e: Edit, ev: Event): Edit {
    match ev
    case Typed(b) => Type(lineMax, e, b)
    case SetMode(m, kept) => ChangeMode(e, m, kept)
  }

  function Fold(lineMax: nat, start: Mode, events: seq<Event>): Edit {
    if events == [] then Edit(start, [], [], 0, 0)
    else Step(lineMax, Fold(lineMax, start, events[..|events| - 1]), events[|events| - 1])
  }

  lemma FoldNext(lineMax: nat, start: Mode, events: seq<Event>, ev: Event)
    ensures Fold(lineMax, start, events + [ev]) == Step(lineMax, Fold(lineMax, start, events), ev)
  {
    assert (events + [ev])[..|events|] == events;
  }

  /** Whether the console takes a byte now: what the byte would push must fit the ring. */
  predicate Admits(m: Mode, lineLen: nat, room: int, typed: Byte) {
    var b := Translate(m, typed);
    if b == INTR && m.isig then true
    else if m.icanon then b == NL ==> lineLen + 1 <= room
    else room > 0
  }

  /** A refused byte is accepted once the ring has drained. */
  lemma DrainedAdmits(m: Mode, lineLen: nat, lineMax: nat, ringSize: nat, typed: Byte)
    requires lineMax + 1 <= ringSize && lineLen <= lineMax
    ensures Admits(m, lineLen, ringSize, typed)
  {
  }

  /** Over every history the line being assembled is within its bound, holds no newline and is empty
      outside canonical mode. */
  lemma {:induction false} LineIsBounded(lineMax: nat, start: Mode, events: seq<Event>)
    ensures var e := Fold(lineMax, start, events);
      |e.line| <= lineMax && NL !in e.line && (!e.mode.icanon ==> e.line == [])
  {
    if events != [] { LineIsBounded(lineMax, start, events[..|events| - 1]); }
  }

  /** No event changes the mode. */
  ghost predicate FixedMode(events: seq<Event>) { forall i | 0 <= i < |events| :: events[i].Typed? }

  /** `e` has the mode of `was`, and its stream is that of `was` or extends it by bytes that end in a
      newline. */
  ghost predicate Extends(was: Edit, e: Edit) {
    e.mode == was.mode && was.out <= e.out && (e.out == was.out || e.out[|e.out| - 1] == NL)
  }

  lemma TypedEndsLine(lineMax: nat, was: Edit, e: Edit, b: Byte)
    requires was.mode.icanon && Extends(was, e)
    ensures Extends(was, Type(lineMax, e, b))
  {
  }

  /** Canonical mode delivers whole lines: whatever came before, what is typed in it adds nothing to the
      stream or adds bytes that end in a newline. */
  lemma {:induction false} WholeLines(lineMax: nat, start: Mode, before: seq<Event>, typed: seq<Event>)
    requires FixedMode(typed) && Fold(lineMax, start, before).mode.icanon
    ensures Extends(Fold(lineMax, start, before), Fold(lineMax, start, before + typed))
  {
    if typed == [] {
      assert before + typed == before;
    } else {
      var n := |typed| - 1;
      var init := before + typed[..n];
      WholeLines(lineMax, start, before, typed[..n]);
      TypedEndsLine(lineMax, Fold(lineMax, start, before), Fold(lineMax, start, init), typed[n].b);
      FoldNext(lineMax, start, init, typed[n]);
      assert before + typed == init + [typed[n]];
    }
  }

  /** After any history, erasing right after a character was taken into the line leaves no trace of
      either. */
  lemma EraseUndoes(lineMax: nat, start: Mode, events: seq<Event>, b: Byte, erase: Byte)
    requires erase == 8 || erase == 127
    requires var e := Fold(lineMax, start, events);
      e.mode.icanon && |e.line| < lineMax && TakenIntoLine(e.mode, b)
    ensures Fold(lineMax, start, events + [Typed(b)] + [Typed(erase)]) == Fold(lineMax, start, events)
  {
    FoldNext(lineMax, start, events, Typed(b));
    FoldNext(lineMax, start, events + [Typed(b)], Typed(erase));
    var e := Fold(lineMax, start, events);
    assert (e.line + [Translate(e.mode, b)])[..|e.line|] == e.line;
  }

  /** Neither a newline, an erase nor an interrupt. */
  predicate TakenIntoLine(m: Mode, b: Byte) {
    var c := Translate(m, b);
    c != NL && c != DEL && c != BS && !(c == INTR && m.isig)
  }

  // ---------------------------------------------------------------------------
  // What is typed comes out.
  // ---------------------------------------------------------------------------

  function Keys(cs: seq<Byte>): (ks: seq<Event>)
    ensures |ks| == |cs| && forall i | 0 <= i < |cs| :: ks[i] == Typed(cs[i])
  {
    seq(|cs|, i requires 0 <= i < |cs| => Typed(cs[i]))
  }

  /** Characters that go into the line, as the translation leaves them. */
  ghost predicate Ordinary(m: Mode, cs: seq<Byte>) {
    forall i | 0 <= i < |cs| :: TakenIntoLine(m, cs[i]) && Translate(m, cs[i]) == cs[i]
  }

  lemma KeysNext(events: seq<Event>, cs: seq<Byte>)
    requires cs != []
    ensures events + Keys(cs) == events + Keys(cs[..|cs| - 1]) + [Typed(cs[|cs| - 1])]
  {
  }

  /** How many of `n` more characters the line has room for. */
  function Taken(lineMax: nat, have: nat, n: nat): nat
    requires have <= lineMax
  {
    if have + n <= lineMax then n else lineMax - have
  }

  /** The state once the characters of `cs` are typed: those the line has room for have joined it, the others
      are lost. */
  function Joining(lineMax: nat, e: Edit, cs: seq<Byte>): Edit
    requires |e.line| <= lineMax
  {
    var n := Taken(lineMax, |e.line|, |cs|);
    e.(line := e.line + cs[..n], lost := e.lost + |cs| - n)
  }

  lemma JoinNext(lineMax: nat, e: Edit, cs: seq<Byte>, c: Byte)
    requires |e.line| <= lineMax && e.mode.icanon && TakenIntoLine(e.mode, c) && Translate(e.mode, c) == c
    ensures Type(lineMax, Joining(lineMax, e, cs), c) == Joining(lineMax, e, cs + [c])
  {
    var n := Taken(lineMax, |e.line|, |cs|);
    if |e.line| + |cs| < lineMax {
      assert cs[..n] == cs && (cs + [c])[..n + 1] == cs + [c];
      assert e.line + cs + [c] == e.line + (cs + [c]);
    } else {
      assert (cs + [c])[..n] == cs[..n];
    }
  }

  /** Characters typed in canonical mode join the line, as many as it has room for, and go no further yet;
      the others are counted as lost. */
  lemma {:induction false} TypedJoinsLine(lineMax: nat, start: Mode, events: seq<Event>, cs: seq<Byte>)
    requires var e := Fold(lineMax, start, events); e.mode.icanon && Ordinary(e.mode, cs)
    ensures var e := Fold(lineMax, start, events);
      |e.line| <= lineMax && Fold(lineMax, start, events + Keys(cs)) == Joining(lineMax, e, cs)
  {
    var e := Fold(lineMax, start, events);
    LineIsBounded(lineMax, start, events);
    if cs == [] {
      assert events + Keys(cs) == events;
      assert e.line + cs[..0] == e.line;
    } else {
      var init, c := cs[..|cs| - 1], cs[|cs| - 1];
      TypedJoinsLine(lineMax, start, events, init);
      KeysNext(events, cs);
      FoldNext(lineMax, start, events + Keys(init), Typed(c));
      JoinNext(lineMax, e, init, c);
      assert init + [c] == cs;
    }
  }

  /** A line typed and ended with Enter reaches the reader as it was typed: whatever the history, the stream
      gains exactly what was pending, the characters and the newline. */
  lemma LineComesOut(lineMax: nat, start: Mode, events: seq<Event>, cs: seq<Byte>, enter: Byte)
    requires var e := Fold(lineMax, start, events);
      e.mode.icanon && Ordinary(e.mode, cs) && |e.line| + |cs| <= lineMax
    requires enter == NL || (enter == CR && Fold(lineMax, start, events).mode.icrnl)
    ensures var e := Fold(lineMax, start, events);
      Fold(lineMax, start, events + Keys(cs) + [Typed(enter)]) == e.(out := e.out + e.line + cs + [NL], line := [])
  {
    TypedJoinsLine(lineMax, start, events, cs);
    FoldNext(lineMax, start, events + Keys(cs), Typed(enter));
    var e := Fold(lineMax, start, events);
    assert cs[..|cs|] == cs;
    assert e.out + (e.line + cs) + [NL] == e.out + e.line + cs + [NL];
  }

  /** Outside canonical mode every byte but an interrupt comes out at once, translated, and nothing else
      changes. */
  lemma RawComesOut(lineMax: nat, start: Mode, events: seq<Event>, b: Byte)
    requires var e := Fold(lineMax, start, events); !e.mode.icanon && !(b == INTR && e.mode.isig)
    ensures var e := Fold(lineMax, start, events);
      Fold(lineMax, start, events + [Typed(b)]) ==
        e.(out := e.out + [if b == CR && e.mode.icrnl then NL else b])
  {
    FoldNext(lineMax, start, events, Typed(b));
  }

  /** An interrupt is raised once, reaches no reader and leaves no line pending. */
  lemma InterruptIsRaised(lineMax: nat, start: Mode, events: seq<Event>)
    requires Fold(lineMax, start, events).mode.isig
    ensures var e := Fold(lineMax, start, events);
      Fold(lineMax, start, events + [Typed(INTR)]) == e.(line := [], interrupts := e.interrupts + 1)
  {
    LineIsBounded(lineMax, start, events);
    FoldNext(lineMax, start, events, Typed(INTR));
  }

  /** So in canonical mode the line typed after it comes out alone. */
  lemma InterruptDiscards(lineMax: nat, start: Mode, events: seq<Event>, cs: seq<Byte>)
    requires var e := Fold(lineMax, start, events);
      e.mode.icanon && e.mode.isig && Ordinary(e.mode, cs) && |cs| <= lineMax
    ensures var e := Fold(lineMax, start, events);
      Fold(lineMax, start, events + [Typed(INTR)] + Keys(cs) + [Typed(NL)]) ==
        e.(out := e.out + cs + [NL], line := [], interrupts := e.interrupts + 1)
  {
    var e := Fold(lineMax, start, events);
    InterruptIsRaised(lineMax, start, events);
    LineComesOut(lineMax, start, events + [Typed(INTR)], cs, NL);
    assert e.out + [] + cs == e.out + cs;
  }

  /** A mode write that stays in canonical mode leaves the pending line to be ended; one that leaves it hands
      the characters over as raw bytes, all of them when they fit. */
  lemma ModeKeepsLine(lineMax: nat, start: Mode, events: seq<Event>, cs: seq<Byte>, m: Mode, kept: nat)
    requires var e := Fold(lineMax, start, events);
      e.mode.icanon && e.line == [] && Ordinary(e.mode, cs) && |cs| <= lineMax && |cs| <= kept
    ensures var e := Fold(lineMax, start, events);
      Fold(lineMax, start, events + Keys(cs) + [SetMode(m, kept)]) ==
        if m.icanon then e.(mode := m, line := cs) else e.(mode := m, out := e.out + cs)
  {
    TypedJoinsLine(lineMax, start, events, cs);
    FoldNext(lineMax, start, events + Keys(cs), SetMode(m, kept));
    assert [] + cs[..|cs|] == cs;
  }

  /** A byte is turned away exactly when what it would add to the stream does not fit the ring. */
  lemma RefusedForRoom(lineMax: nat, e: Edit, room: nat, typed: Byte)
    requires !e.mode.icanon ==> e.line == []
    ensures Admits(e.mode, |e.line|, room, typed) <==> |Type(lineMax, e, typed).out| <= |e.out| + room
  {
  }

  // ---------------------------------------------------------------------------
  // Echo.
  // ---------------------------------------------------------------------------

  /** What an accepted byte shows: itself, a rubbed-out character, or nothing. */
  function Echo(lineMax: nat, m: Mode, lineLen: nat, typed: Byte): seq<Byte> {
    var b := Translate(m, typed);
    if !m.echo || (b == INTR && m.isig) then []
    else if m.icanon && (b == DEL || b == BS) then (if lineLen > 0 then [BS, SPACE, BS] else [])
    else if m.icanon && b != NL && lineLen >= lineMax then []
    else Show(m, b)
  }

  function Show(m: Mode, b: Byte): seq<Byte> { if b == NL && m.onlcr then [CR, NL] else [b] }

  /** A row of a terminal: what has been drawn on it, and the cursor. */
  datatype Row = Row(cells: seq<Byte>, at: nat)

  /** A backspace moves the cursor back; any other byte is drawn at the cursor and moves it on. */
  function Draw(r: Row, b: Byte): Row
    requires r.at <= |r.cells|
  {
    if b == BS then (if r.at == 0 then r else Row(r.cells, r.at - 1))
    else if r.at < |r.cells| then Row(r.cells[r.at := b], r.at + 1)
    else Row(r.cells + [b], r.at + 1)
  }

  function DrawAll(r: Row, bs: seq<Byte>): (d: Row)
    requires r.at <= |r.cells|
    ensures d.at <= |d.cells|
    decreases |bs|
  {
    if bs == [] then r else DrawAll(Draw(r, bs[0]), bs[1..])
  }

  /** What stands before the cursor. */
  function Visible(r: Row): seq<Byte>
    requires r.at <= |r.cells|
  {
    r.cells[..r.at]
  }

  lemma DrawOne(r: Row, b: Byte)
    requires r.at <= |r.cells| && b != BS
    ensures Visible(DrawAll(r, [b])) == Visible(r) + [b]
  {
    assert DrawAll(r, [b]) == DrawAll(Draw(r, b), []) == Draw(r, b);
  }

  lemma DrawRubout(r: Row)
    requires 0 < r.at <= |r.cells|
    ensures Visible(DrawAll(r, [BS, SPACE, BS])) == Visible(r)[..r.at - 1]
  {
    var a := Draw(r, BS);
    var b := Draw(a, SPACE);
    var c := Draw(b, BS);
    assert [BS, SPACE, BS][1..] == [SPACE, BS] && [SPACE, BS][1..] == [BS] && [BS][1..] == [];
    assert DrawAll(r, [BS, SPACE, BS]) == DrawAll(a, [SPACE, BS]) == DrawAll(b, [BS]) == DrawAll(c, []) == c;
  }

  /** With echo on, what stands on the row after a prompt is the pending line, whatever is typed short of a
      newline or an interrupt: characters appear as they are taken, an erase rubs one out and never
      touches the prompt, and what the line has no room for does not appear. */
  lemma RowShowsLine(lineMax: nat, e: Edit, b: Byte, prompt: seq<Byte>, r: Row)
    requires e.mode.icanon && e.mode.echo && r.at <= |r.cells| && Visible(r) == prompt + e.line
    requires var c := Translate(e.mode, b); c != NL && !(c == INTR && e.mode.isig)
    ensures Visible(DrawAll(r, Echo(lineMax, e.mode, |e.line|, b))) == prompt + Type(lineMax, e, b).line
  {
    var c := Translate(e.mode, b);
    if c == DEL || c == BS {
      if e.line != [] {
        assert r.at == |prompt| + |e.line|;
        DrawRubout(r);
        assert (prompt + e.line)[..r.at - 1] == prompt + e.line[..|e.line| - 1];
      }
    } else if |e.line| < lineMax {
      DrawOne(r, c);
      assert prompt + e.line + [c] == prompt + (e.line + [c]);
    }
  }

  /** A newline shows as the output side would send it, a raw byte as itself; with echo off, and for an
      interrupt, nothing shows. */
  lemma EchoElsewhere(lineMax: nat, m: Mode, lineLen: nat, b: Byte)
    ensures !m.echo || (b == INTR && m.isig) ==> Echo(lineMax, m, lineLen, b) == []
    ensures m.echo && b == NL ==> Echo(lineMax, m, lineLen, b) == if m.onlcr then [CR, NL] else [NL]
    ensures m.echo && m.icrnl && b == CR ==> Echo(lineMax, m, lineLen, b) == Echo(lineMax, m, lineLen, NL)
    ensures m.echo && !m.icanon && b != NL && b != CR && !(b == INTR && m.isig) ==> Echo(lineMax, m, lineLen, b) == [b]
  {
  }

  // ---------------------------------------------------------------------------
  // The ring.
  // ---------------------------------------------------------------------------

  function Wrap(size: nat, i: nat): nat { if i < size then i else i - size }

  /** The `count` bytes from `head`, wrapping at the end. */
  ghost function Window(r: seq<Byte>, head: nat, count: nat): (w: seq<Byte>)
    requires head < |r| && count <= |r|
    ensures |w| == count
    decreases count
  {
    if count == 0 then [] else [r[head]] + Window(r, Wrap(|r|, head + 1), count - 1)
  }

  lemma {:induction false} WindowPush(r: seq<Byte>, head: nat, count: nat, b: Byte, u: seq<Byte>)
    requires head < |r| && count < |r| && u == r[Wrap(|r|, head + count) := b]
    ensures Window(u, head, count + 1) == Window(r, head, count) + [b]
    decreases count
  {
    if count > 0 {
      var next := Wrap(|r|, head + 1);
      assert Wrap(|r|, next + (count - 1)) == Wrap(|r|, head + count);
      WindowPush(r, next, count - 1, b, u);
    }
  }

  lemma Appended(a: seq<Byte>, b: seq<Byte>, c: seq<Byte>, d: seq<Byte>)
    requires d == b + c
    ensures a + d == a + b + c
  {
  }

  class Ring {
    const data: array<Byte>
    var head: nat
    var tail: nat
    var count: nat
    ghost var bytes: seq<Byte>

    ghost predicate Valid()
      reads this, data
    {
      && head < data.Length && count <= data.Length && tail == Wrap(data.Length, head + count)
      && bytes == Window(data[..], head, count)
    }

    constructor (size: nat)
      requires size > 0
      ensures Valid() && fresh(data) && data.Length == size && count == 0 && bytes == []
    {
      data := new Byte[size];
      head, tail, count, bytes := 0, 0, 0, [];
    }

    method Push(b: Byte) returns (ok: bool)
      requires Valid()
      modifies this, data
      ensures Valid()
      ensures ok <==> old(count) < data.Length
      ensures count == if ok then old(count) + 1 else old(count)
      ensures bytes == if ok then old(bytes) + [b] else old(bytes)
    {
      if count >= data.Length { return false; }
      ghost var u := data[..][tail := b];
      WindowPush(data[..], head, count, b, u);
      data[tail] := b;
      assert data[..] == u;
      tail := Wrap(data.Length, tail + 1);
      count, bytes := count + 1, bytes + [b];
      return true;
    }

    /** Take up to `n` bytes from the head. */
    method Take(n: nat) returns (got: seq<Byte>)
      requires Valid()
      modifies this
      ensures Valid() && old(bytes) == got + bytes
      ensures |got| == if old(count) < n then old(count) else n
    {
      got := [];
      while count > 0 && |got| < n
        invariant Valid() && |got| <= n && |got| + count == old(count) && got + bytes == old(bytes)
      {
        ghost var was, w := got, bytes;
        var b := Pop();
        got := got + [b];
        assert was + w == was + [b] + bytes;
      }
    }

    method Pop() returns (b: Byte)
      requires Valid() && count > 0
      modifies this
      ensures Valid() && count == old(count) - 1
      ensures old(bytes) == [b] + bytes
    {
      b := data[head];
      head := Wrap(data.Length, head + 1);
      count, bytes := count - 1, bytes[1..];
    }
  }

  // ---------------------------------------------------------------------------
  // The console.
  // ---------------------------------------------------------------------------

  class Console {
    const ring: Ring
    const line: array<Byte>
    var lineLen: nat
    var mode: Mode
    var dropRing: nat
    var dropLine: nat
    var dropMode: nat
    var refusals: nat
    var interrupts: nat

    /** The mode at the start, everything accepted since, and everything the reader got. */
    const start: Mode
    ghost var history: seq<Event>
    ghost var read: seq<Byte>

    ghost predicate Shape()
      reads this, ring, ring.data
    {
      && ring.data != line && line.Length + 1 <= ring.data.Length
      && ring.Valid() && lineLen <= line.Length
    }

    /** What the console holds, as an editing state. */
    ghost function Now(): Edit
      requires lineLen <= line.Length
      reads this, ring, line
    {
      Edit(mode, read + ring.bytes, line[..lineLen], dropLine, interrupts)
    }

    /** What the reader got and will get is the fold of what was accepted, whatever the reads in
        between; the ring never dropped a byte. */
    ghost predicate Valid()
      reads this, ring, ring.data, line
    {
      Shape() && dropRing == 0 && Now() == Fold(line.Length, start, history)
    }

    constructor (ringSize: nat, lineMax: nat, mode: Mode)
      requires lineMax + 1 <= ringSize
      ensures Valid() && history == [] && read == [] && fresh(ring) && fresh(ring.data) && fresh(line)
      ensures ring.data.Length == ringSize && line.Length == lineMax
    {
      ring := new Ring(ringSize);
      line := new Byte[lineMax];
      lineLen, dropRing, dropLine, dropMode, refusals, interrupts := 0, 0, 0, 0, 0, 0;
      this.mode, start := mode, mode;
      history, read := [], [];
    }

    function Room(): int
      reads this, ring
    {
      ring.data.Length - ring.count
    }

    /** Push the assembled line; counts what did not fit in `lost`. */
    method PushLine() returns (lost: nat)
      requires Shape()
      modifies ring, ring.data
      ensures Shape()
      ensures lost == if lineLen <= old(Room()) then 0 else lineLen - old(Room())
      ensures ring.count == old(ring.count) + lineLen - lost
      ensures ring.bytes == old(ring.bytes) + line[..lineLen - lost]
    {
      lost := 0;
      for i := 0 to lineLen
        invariant Shape() && lost <= i && ring.count == old(ring.count) + i - lost
        invariant lost == if i <= old(Room()) then 0 else i - old(Room())
        invariant ring.bytes == old(ring.bytes) + line[..i - lost]
      {
        var ok := ring.Push(line[i]);
        if !ok { lost := lost + 1; }
      }
    }

    /** Offer one byte.  A refusal changes nothing but its own counter. */
    method RxAccept(typed: Byte) returns (accepted: bool, echo: seq<Byte>)
      requires Valid()
      modifies this, ring, ring.data, line
      ensures Valid() && read == old(read)
      ensures accepted <==> Admits(old(mode), old(lineLen), old(Room()), typed)
      ensures history == if accepted then old(history) + [Typed(typed)] else old(history)
      ensures !accepted ==> Now() == old(Now()) && refusals == old(refusals) + 1
      ensures echo == if accepted then Echo(line.Length, old(mode), old(lineLen), typed) else []
    {
      var b := if typed == CR && mode.icrnl then NL else typed;
      if (b != INTR || !mode.isig) &&
          ((mode.icanon && b == NL && Room() < lineLen + 1) || (!mode.icanon && Room() == 0)) {
        refusals := refusals + 1;
        return false, [];
      }
      echo := Act(b, typed);
      Record(Typed(typed), old(Now()));
      accepted := true;
    }

    /** What was done to the console is what the fold does with the event. */
    method Record(ghost ev: Event, ghost was: Edit)
      requires Shape() && dropRing == 0 && was == Fold(line.Length, start, history)
      requires Now() == Step(line.Length, was, ev)
      modifies `history
      ensures Valid() && history == old(history) + [ev]
    {
      FoldNext(line.Length, start, history, ev);
      history := history + [ev];
    }

    /** Carry out an admitted byte. */
    method Act(b: Byte, typed: Byte) returns (echo: seq<Byte>)
      requires Shape() && b == Translate(mode, typed) && Admits(mode, lineLen, Room(), typed)
      modifies `lineLen, `dropRing, `dropLine, `interrupts, ring, ring.data, line
      ensures Shape() && dropRing == old(dropRing)
      ensures Now() == Type(line.Length, old(Now()), typed)
      ensures echo == Echo(line.Length, mode, old(lineLen), typed)
    {
      if b == INTR && mode.isig {
        interrupts := interrupts + 1;
        if mode.icanon { lineLen := 0; }
        return [];
      }
      if !mode.icanon {
        PassRaw(b);
        return if mode.echo then Show(mode, b) else [];
      }
      if b == DEL || b == BS {
        if lineLen == 0 { return []; }
        Erase();
        return if mode.echo then [BS, SPACE, BS] else [];
      }
      if b == NL {
        DeliverLine();
        return if mode.echo then Show(mode, NL) else [];
      }
      if lineLen >= line.Length {
        dropLine := dropLine + 1;
        return [];
      }
      Append(b);
      return if mode.echo then Show(mode, b) else [];
    }

    method PassRaw(b: Byte)
      requires Shape() && Room() > 0
      modifies `dropRing, ring, ring.data
      ensures Shape() && dropRing == old(dropRing)
      ensures Now() == old(Now()).(out := old(Now()).out + [b])
    {
      var ok := ring.Push(b);
      dropRing := dropRing + if ok then 0 else 1;
      Appended(read, old(ring.bytes), [b], ring.bytes);
    }

    method Erase()
      requires Shape() && lineLen > 0
      modifies `lineLen
      ensures Shape() && Now() == old(Now()).(line := old(Now()).line[..old(lineLen) - 1])
    {
      lineLen := lineLen - 1;
      assert line[..lineLen] == line[..lineLen + 1][..lineLen];
    }

    method Append(b: Byte)
      requires Shape() && lineLen < line.Length
      modifies `lineLen, line
      ensures Shape() && Now() == old(Now()).(line := old(Now()).line + [b])
    {
      line[lineLen] := b;
      lineLen := lineLen + 1;
      assert line[..lineLen] == old(line[..lineLen]) + [b];
    }

    /** Push the assembled line and its newline, which fit. */
    method PushWhole() returns (lost: nat)
      requires Shape() && lineLen + 1 <= Room()
      modifies ring, ring.data
      ensures Shape() && lost == 0 && ring.bytes == old(ring.bytes) + (line[..lineLen] + [NL])
    {
      lost := PushLine();
      ghost var l := line[..lineLen];
      var ok := ring.Push(NL);
      lost := lost + if ok then 0 else 1;
      Appended(old(ring.bytes), l, [NL], l + [NL]);
    }

    /** The newline delivers the line whole. */
    method DeliverLine()
      requires Shape() && lineLen + 1 <= Room()
      modifies `lineLen, `dropRing, ring, ring.data
      ensures Shape() && dropRing == old(dropRing)
      ensures Now() == old(Now()).(out := old(Now()).out + old(Now()).line + [NL], line := [])
    {
      ghost var l, r := line[..lineLen], ring.bytes;
      var lost := PushWhole();
      dropRing := dropRing + lost;
      Appended(read, r, l + [NL], ring.bytes);
      Appended(read + r, l, [NL], l + [NL]);
      lineLen := 0;
    }

    /** The drain of a read: up to `n` bytes from the head of the ring. */
    method InputRead(n: nat) returns (got: seq<Byte>)
      requires Valid()
      modifies `read, ring
      ensures Valid() && history == old(history) && read == old(read) + got
      ensures |got| == if old(ring.count) < n then old(ring.count) else n
    {
      got := ring.Take(n);
      Appended(read, got, ring.bytes, old(ring.bytes));
      read := read + got;
    }

    /** A mode write; one that leaves canonical mode delivers the pending line as raw bytes. */
    method SetTermios(m: Mode) returns (ghost kept: nat)
      requires Valid()
      modifies `mode, `lineLen, `dropMode, `history, ring, ring.data
      ensures Valid() && mode == m
      ensures history == old(history) + [SetMode(m, kept)]
      ensures kept == if old(lineLen) <= old(Room()) then old(lineLen) else old(Room())
      ensures dropMode == old(dropMode) + if old(mode).icanon && !m.icanon then old(lineLen) - kept else 0
    {
      kept := if lineLen <= Room() then lineLen else Room();
      if mode.icanon && !m.icanon { DeliverPartial(kept); }
      mode := m;
      Record(SetMode(m, kept), old(Now()));
    }

    /** Push what fits of the pending line and start a fresh one. */
    method DeliverPartial(ghost kept: nat)
      requires Shape() && kept == if lineLen <= Room() then lineLen else Room()
      modifies `lineLen, `dropMode, ring, ring.data
      ensures Shape() && lineLen == 0 && dropMode == old(dropMode) + old(lineLen) - kept
      ensures Now() == old(Now()).(out := old(Now()).out + old(Now()).line[..kept], line := [])
    {
      ghost var l, r := line[..lineLen], ring.bytes;
      var lost := PushLine();
      assert line[..lineLen - lost] == l[..kept];
      Appended(read, r, l[..kept], ring.bytes);
      dropMode := dropMode + lost;
      lineLen := 0;
    }
  }
}
