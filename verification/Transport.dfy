/**
 The client's byte stream: frames read by whoever holds the reader role, resumable at any byte, and
 frames sent under back-pressure from a buffer that peers reuse.
 */
module Transport {
  import opened Options
  import opened Bytes
  import W = Wire

  const HDR_LEN: nat := 7

  // ---------------------------------------------------------------------------
  // What a stream of bytes means.
  // ---------------------------------------------------------------------------

  /** The size a frame's header announces. */
  function SizeOf(b: seq<Byte>): nat
    requires |b| >= HDR_LEN
  {
    Nat(b[..4])
  }

  predicate Sane(size: nat, cap: nat) { HDR_LEN <= size <= cap }

  /** A whole frame that fits the receive buffer. */
  predicate IsFrame(b: seq<Byte>, cap: nat) { |b| >= HDR_LEN && SizeOf(b) == |b| && Sane(|b|, cap) }

  /** Bytes from which no whole frame can be taken: too few, or led by a size no frame may have. */
  predicate Incomplete(b: seq<Byte>, cap: nat) {
    |b| < HDR_LEN || !Sane(SizeOf(b), cap) || |b| < SizeOf(b)
  }

  datatype Split = Split(frames: seq<seq<Byte>>, rest: seq<Byte>)

  /** The frames of a stream and what follows the last. */
  function Parse(b: seq<Byte>, cap: nat): Split
    decreases |b|
  {
    if Incomplete(b, cap) then Split([], b)
    else
      var p := Parse(b[SizeOf(b)..], cap);
      Split([b[..SizeOf(b)]] + p.frames, p.rest)
  }

  ghost predicate AllFrames(frames: seq<seq<Byte>>,
                            cap: nat) { forall i | 0 <= i < |frames| :: IsFrame(frames[i], cap) }

  /** Whole frames followed by an incomplete one are exactly what a stream parses to, so how the
      bytes arrived cannot matter. */
  lemma {:induction false} ParseUnique(frames: seq<seq<Byte>>, rest: seq<Byte>, cap: nat)
    requires AllFrames(frames, cap) && Incomplete(rest, cap)
    ensures Parse(Concat(frames) + rest, cap) == Split(frames, rest)
  {
    if frames == [] {
      assert Concat(frames) + rest == rest;
    } else {
      var f, more := frames[0], frames[1..];
      ConcatFirst(frames);
      var b := Concat(frames) + rest;
      assert b == f + (Concat(more) + rest);
      assert b[..4] == f[..4];
      assert SizeOf(b) == |f|;
      assert b[..|f|] == f && b[|f|..] == Concat(more) + rest;
      ParseUnique(more, rest, cap);
      assert frames == [f] + more;
    }
  }

  lemma {:induction false} ConcatFirst(parts: seq<seq<Byte>>)
    requires parts != []
    ensures Concat(parts) == parts[0] + Concat(parts[1..])
  {
    var n := |parts| - 1;
    var init, tail := parts[..n], parts[1..];
    if n == 0 {
      assert init == [] && tail == [];
    } else {
      ConcatFirst(init);
      assert init[1..] == tail[..n - 1];
      Regroup(parts[0], Concat(tail[..n - 1]), parts[n]);
    }
  }

  /** A frame's size is settled by its header. */
  lemma SameSize(head: seq<Byte>, b: seq<Byte>)
    requires |head| >= HDR_LEN && head <= b
    ensures SizeOf(b) == SizeOf(head)
  {
    assert b[..4] == head[..4];
  }

  lemma KeptNone(a: seq<Byte>, b: seq<Byte>)
    requires b == []
    ensures a + b == a
  {
  }

  lemma Regroup(a: seq<Byte>, b: seq<Byte>, c: seq<Byte>)
    ensures a + b + c == a + (b + c)
  {
  }

  // ---------------------------------------------------------------------------
  // Receiving.
  // ---------------------------------------------------------------------------

  /** One receive: bytes taken (none when the peer is gone), an error or unwind, or nothing waiting. */
  datatype Recv = Got(bytes: seq<Byte>) | Failed | Partial

  /** How a frame read ended. */
  datatype Read = Whole(len: nat) | PeerGone | Broken | NotYet

  /** A read that has ended, and the bytes of the frame in hand. */
  datatype Reading = Reading(read: Read, bytes: seq<Byte>)

  /** How many bytes are asked for, with `b` in hand: to the end of the header, then to the end of the frame. */
  function Want(b: seq<Byte>): int { if |b| < HDR_LEN then HDR_LEN - |b| else SizeOf(b) - |b| }

  /** What a read makes of the receives it gets, from the bytes in hand.  A list that ends early stands for a
      failure. */
  function Reads(b: seq<Byte>, cap: nat, now: bool, recvs: seq<Recv>): Reading
    decreases |recvs|
  {
    if IsFrame(b, cap) then Reading(Whole(|b|), b)
    else if (|b| >= HDR_LEN && !Sane(SizeOf(b), cap)) || recvs == [] then Reading(Broken, b)
    else
      match recvs[0]
      case Got(x) =>
        if x == [] then Reading(PeerGone, b)
        else if |x| > Want(b) then Reading(Broken, b)
        else Reads(b + x, cap, now, recvs[1..])
      case Failed => Reading(Broken, b)
      case Partial => Reading(if now then NotYet else Broken, b)
  }

  /** Receives that bring the bytes of `f` after the first `n`, none of them across the end of the header. */
  ghost predicate Brings(f: seq<Byte>, n: nat, recvs: seq<Recv>)
    decreases |recvs|
  {
    if n >= |f| then n == |f|
    else
      && recvs != [] && recvs[0].Got? && var m := n + |recvs[0].bytes|;
      && n < m <= |f| && recvs[0].bytes == f[n..m] && (n < HDR_LEN ==> m <= HDR_LEN) && Brings(f, m, recvs[1..])
  }

  /** However a frame is cut up, a reader that is given it reads it whole. */
  lemma {:induction false} FrameArrives(f: seq<Byte>, n: nat, cap: nat, now: bool, recvs: seq<Recv>)
    requires IsFrame(f, cap) && n <= |f| && Brings(f, n, recvs)
    ensures Reads(f[..n], cap, now, recvs) == Reading(Whole(|f|), f)
    decreases |recvs|
  {
    if n == |f| {
      assert f[..n] == f;
    } else {
      var m := n + |recvs[0].bytes|;
      PrefixSize(f, n, cap);
      FrameArrives(f, m, cap, now, recvs[1..]);
      assert f[..n] + f[n..m] == f[..m];
    }
  }

  /** A part of a frame is no frame, and what is asked for next lies within it. */
  lemma PrefixSize(f: seq<Byte>, n: nat, cap: nat)
    requires IsFrame(f, cap) && n < |f|
    ensures !IsFrame(f[..n], cap) && (n >= HDR_LEN ==> SizeOf(f[..n]) == |f|)
  {
    if n >= HDR_LEN { assert f[..n][..4] == f[..4]; }
  }

  /** The receives that were taken before one found nothing waiting. */
  function Taken(recvs: seq<Recv>): seq<Recv> {
    if recvs == [] || !recvs[0].Got? then [] else [recvs[0]] + Taken(recvs[1..])
  }

  /** And a read that is cut short resumes: the bytes in hand and what comes later read as all of it at once. */
  lemma {:induction false} ReadResumes(b: seq<Byte>, cap: nat, first: seq<Recv>, later: seq<Recv>)
    requires Reads(b, cap, true, first + [Partial]).read.NotYet?
    ensures Reads(Reads(b, cap, true, first + [Partial]).bytes, cap, true, later) ==
        Reads(b, cap, true, Taken(first) + later)
    decreases |first|
  {
    if first == [] {
      assert [] + [Partial] == [Partial] && [] + later == later;
    } else {
      assert (first + [Partial])[0] == first[0] && (first + [Partial])[1..] == first[1..] + [Partial];
      if first[0].Partial? {
        assert Taken(first) + later == later;
      } else {
        var rest := Taken(first[1..]);
        ReadResumes(b + first[0].bytes, cap, first[1..], later);
        assert Taken(first) + later == [first[0]] + (rest + later);
        assert ([first[0]] + (rest + later))[1..] == rest + later;
      }
    }
  }

  /** The bytes in hand are to be filled up to `upTo`: the header, or the frame it announces. */
  predicate Goal(b: seq<Byte>, upTo: nat, cap: nat) {
    |b| <= upTo && (upTo == HDR_LEN || (|b| >= HDR_LEN && SizeOf(b) == upTo && Sane(upTo, cap)))
  }

  lemma GoalWanted(b: seq<Byte>, upTo: nat, cap: nat)
    requires Goal(b, upTo, cap) && |b| < upTo
    ensures Want(b) == upTo - |b| && !IsFrame(b, cap) && (|b| >= HDR_LEN ==> Sane(SizeOf(b), cap))
  {
  }

  lemma GoalKept(b: seq<Byte>, u: seq<Byte>, upTo: nat, cap: nat)
    requires Goal(b, upTo, cap) && b <= u && |u| <= upTo
    ensures Goal(u, upTo, cap)
  {
    if |b| >= HDR_LEN { SameSize(b, u); }
  }

  class Receiver {
    const buf: array<Byte>
    var rxGot: nat
    ghost var consumed: seq<Byte>
    ghost var frames: seq<seq<Byte>>

    /** No byte lost or repeated: the frames delivered, followed by the bytes kept for the next
        reader, are the bytes consumed. */
    ghost predicate Valid()
      reads this, buf
    {
      && buf.Length >= HDR_LEN && rxGot <= buf.Length && AllFrames(frames, buf.Length)
      && consumed == Concat(frames) + buf[..rxGot] && Incomplete(buf[..rxGot], buf.Length)
    }

    /** So the frames delivered are those of the stream itself, however it was cut up. */
    lemma Received()
      requires Valid()
      ensures Parse(consumed, buf.Length) == Split(frames, buf[..rxGot])
    {
      ParseUnique(frames, buf[..rxGot], buf.Length);
    }

    constructor (cap: nat)
      requires cap >= HDR_LEN
      ensures Valid() && consumed == [] && frames == [] && fresh(buf)
    {
      buf := new Byte[cap];
      rxGot, consumed, frames := 0, [], [];
    }

    /** The backend writes what it received after the `got` bytes in hand. */
    method Place(got: nat, bytes: seq<Byte>)
      requires got + |bytes| <= buf.Length
      modifies `consumed, buf
      ensures buf[..got + |bytes|] == old(buf[..got]) + bytes && consumed == old(consumed) + bytes
    {
      for i := 0 to |bytes|
        invariant buf[..got + i] == old(buf[..got]) + bytes[..i] && consumed == old(consumed)
      {
        buf[got + i] := bytes[i];
      }
      consumed := consumed + bytes;
    }

    /** One receive towards `upTo`: some bytes, or a stop with nothing changed. */
    method FillSome(at: nat, upTo: nat, now: bool, recvs: seq<Recv>)
      returns (got: nat, stop: Option<Read>, rest: seq<Recv>)
      requires at < upTo <= buf.Length && Goal(buf[..at], upTo, buf.Length) && consumed == Concat(frames) + buf[..at]
      modifies `consumed, buf
      ensures at <= got <= upTo && Goal(buf[..got], upTo, buf.Length) && old(buf[..at]) <= buf[..got]
      ensures consumed == Concat(frames) + buf[..got] && old(consumed) <= consumed
      ensures if stop.Some? then got == at && !stop.value.Whole? && (stop.value.NotYet? ==> now) else |rest| < |recvs|
      ensures old(Reads(buf[..at], buf.Length, now, recvs)) ==
          if stop.Some? then Reading(stop.value, buf[..got]) else Reads(buf[..got], buf.Length, now, rest)
    {
      ghost var was := buf[..at];
      GoalWanted(was, upTo, buf.Length);
      got, stop, rest := at, None, recvs;
      var r := if recvs == [] then Failed else recvs[0];
      if r.Partial? && now { return at, Some(NotYet), recvs; }
      if !r.Got? || |r.bytes| > upTo - at { return at, Some(Broken), recvs; }
      if r.bytes == [] { return at, Some(PeerGone), recvs; }
      Place(at, r.bytes);
      got, rest := at + |r.bytes|, recvs[1..];
      Regroup(Concat(frames), was, r.bytes);
      GoalKept(was, buf[..got], upTo, buf.Length);
    }

    /** Fill the frame up to `upTo` bytes; stops where the stream does. */
    method FillTo(got0: nat, upTo: nat, now: bool, recvs: seq<Recv>)
      returns (got: nat, stop: Option<Read>, rest: seq<Recv>)
      requires got0 <= upTo <= buf.Length && Goal(buf[..got0], upTo, buf.Length)
      requires consumed == Concat(frames) + buf[..got0]
      modifies `consumed, buf
      ensures got0 <= got <= upTo && old(buf[..got0]) <= buf[..got]
      ensures consumed == Concat(frames) + buf[..got] && old(consumed) <= consumed
      ensures stop.None? <==> got == upTo
      ensures stop.Some? ==> !stop.value.Whole? && (stop.value.NotYet? ==> now)
      ensures old(Reads(buf[..got0], buf.Length, now, recvs)) ==
          if stop.Some? then Reading(stop.value, buf[..got]) else Reads(buf[..got], buf.Length, now, rest)
    {
      got, stop, rest := got0, None, recvs;
      while got < upTo
        invariant got0 <= got <= upTo && old(buf[..got0]) <= buf[..got] && consumed == Concat(frames) + buf[..got]
        invariant stop.None? && old(consumed) <= consumed && Goal(buf[..got], upTo, buf.Length)
        invariant old(Reads(buf[..got0], buf.Length, now, recvs)) == Reads(buf[..got], buf.Length, now, rest)
        decreases |rest|
      {
        got, stop, rest := FillSome(got, upTo, now, rest);
        if stop.Some? { return; }
      }
    }

    /** What was consumed is the frames and the bytes kept, which may by now be a whole frame. */
    ghost predicate Filling()
      reads this, buf
    {
      && buf.Length >= HDR_LEN && rxGot <= buf.Length && AllFrames(frames, buf.Length)
      && consumed == Concat(frames) + buf[..rxGot]
    }

    /** Fill up to `upTo` bytes and keep the count. */
    method Fill(upTo: nat, now: bool, recvs: seq<Recv>) returns (stop: Option<Read>, rest: seq<Recv>)
      requires Filling() && rxGot <= upTo <= buf.Length && Goal(buf[..rxGot], upTo, buf.Length)
      modifies `rxGot, `consumed, buf
      ensures Filling() && old(rxGot) <= rxGot <= upTo && old(consumed) <= consumed
      ensures old(buf[..rxGot]) <= buf[..rxGot]
      ensures stop.None? <==> rxGot == upTo
      ensures stop.Some? ==> !stop.value.Whole? && (stop.value.NotYet? ==> now)
      ensures old(Rest(now, recvs)) == if stop.Some? then Reading(stop.value, buf[..rxGot]) else Rest(now, rest)
    {
      var got;
      got, stop, rest := FillTo(rxGot, upTo, now, recvs);
      rxGot := got;
    }

    /** What the rest of a read makes of the bytes in hand. */
    ghost function Rest(now: bool, recvs: seq<Recv>): Reading
      requires rxGot <= buf.Length
      reads this, buf
    {
      Reads(buf[..rxGot], buf.Length, now, recvs)
    }

    /** The header: what is kept is complete up to it, and not past the frame it announces. */
    method ReadHeader(now: bool, recvs: seq<Recv>) returns (stop: Option<Read>, rest: seq<Recv>)
      requires Valid()
      modifies `rxGot, `consumed, buf
      ensures Filling() && old(consumed) <= consumed
      ensures stop.Some? ==> Valid() && !stop.value.Whole? && (stop.value.NotYet? ==> now)
      ensures stop.None? ==> rxGot >= HDR_LEN && (Incomplete(buf[..rxGot], buf.Length) || rxGot == SizeOf(buf[..rxGot]))
      ensures old(Rest(now, recvs)) == if stop.Some? then Reading(stop.value, buf[..rxGot]) else Rest(now, rest)
    {
      stop, rest := None, recvs;
      if rxGot < HDR_LEN { stop, rest := Fill(HDR_LEN, now, recvs); }
    }

    /** The body: to the end of the frame the header announces. */
    method ReadBody(size: nat, now: bool, recvs: seq<Recv>) returns (stop: Option<Read>)
      requires Filling() && HDR_LEN <= rxGot <= size && Sane(size, buf.Length) && SizeOf(buf[..rxGot]) == size
      modifies `rxGot, `consumed, buf
      ensures Filling() && old(consumed) <= consumed
      ensures stop.Some? ==> Valid() && !stop.value.Whole? && (stop.value.NotYet? ==> now)
      ensures stop.None? ==> rxGot == size && IsFrame(buf[..rxGot], buf.Length)
      ensures old(Rest(now, recvs)) == Reading(if stop.Some? then stop.value else Whole(size), buf[..rxGot])
    {
      ghost var head := buf[..rxGot];
      var rest;
      stop, rest := Fill(size, now, recvs);
      SameSize(head, buf[..rxGot]);
    }

    /** Hand the whole frame over, once. */
    method Deliver()
      requires Filling() && IsFrame(buf[..rxGot], buf.Length)
      modifies `frames, `rxGot
      ensures Valid() && frames == old(frames) + [buf[..old(rxGot)]] && rxGot == 0
    {
      ConcatNext(frames, buf[..rxGot]);
      frames, rxGot := frames + [buf[..rxGot]], 0;
      KeptNone(Concat(frames), buf[..0]);
    }

    /** Read one frame, resuming at the bytes an earlier reader left.  How it ends and what it leaves in hand
        are decided by those bytes and by what is received. */
    method ReadFrame(now: bool, recvs: seq<Recv>) returns (r: Read)
      requires Valid()
      modifies this, buf
      ensures Valid() && old(consumed) <= consumed
      ensures r.Whole? ==> r.len <= buf.Length && IsFrame(buf[..r.len], buf.Length)
      ensures r.Whole? ==> frames == old(frames) + [buf[..r.len]] && rxGot == 0
      ensures !r.Whole? ==> frames == old(frames)
      ensures r.NotYet? ==> now
      ensures old(Rest(now, recvs)) == Reading(r, if r.Whole? then buf[..r.len] else buf[..rxGot])
    {
      var stop, rest := ReadHeader(now, recvs);
      if stop.Some? { return stop.value; }
      var size := SizeOf(buf[..rxGot]);
      if !Sane(size, buf.Length) { return Broken; }
      stop := ReadBody(size, now, rest);
      if stop.Some? { return stop.value; }
      Deliver();
      return Whole(size);
    }
  }

  // ---------------------------------------------------------------------------
  // Sending.
  // ---------------------------------------------------------------------------

  /** What one backend send does: take some bytes, refuse for want of room taking none, or fail. */
  datatype Push = Took(n: nat) | Again | Bad

  datatype Sent = Ok | Retry | Break

  /** How a send under flow control ended: on the wire, never on the wire, or the stream broke. */
  datatype Outcome = OnWire | Never | Io

  /** A frame whose header announces its own length. */
  predicate Framed(b: seq<Byte>) { IsFrame(b, |b|) }

  /** Bytes that stop short of a whole frame. */
  predicate Short(b: seq<Byte>) { |b| < HDR_LEN || |b| < SizeOf(b) }

  /** Every message the client builds, and every message one of its parsers accepts, is a frame of its own
      length. */
  lemma BuiltIsFramed(kind: nat, tag: nat, body: seq<Byte>)
    requires HDR_LEN + |body| < Pow(4)
    ensures Framed(W.Frame(kind, tag, body))
  {
    var b := W.Frame(kind, tag, body);
    NatOfLe(|b|, 4);
    assert b[..4] == Le(|b|, 4);
  }

  lemma ParsedIsFramed(kind: nat, b: seq<Byte>)
    requires W.ParseHeader(kind, b).Some?
    ensures Framed(b)
  {
    W.HeaderExact(kind, b);
    NatBound(b[..4]);
    BuiltIsFramed(kind, W.ParseHeader(kind, b).value, b[HDR_LEN..]);
  }

  /** Pushes that, in order, take exactly `len` bytes. */
  predicate Completes(pushes: seq<Push>, len: nat) {
    || len == 0
    || (pushes != [] && pushes[0].Took? && 0 < pushes[0].n <= len && Completes(pushes[1..], len - pushes[0].n))
  }

  /** Bytes that are whole frames and a fragment of one. */
  ghost predicate IsStream(b: seq<Byte>, frames: seq<seq<Byte>>, torn: seq<Byte>) {
    b == Concat(frames) + torn && Short(torn) && forall i | 0 <= i < |frames| :: Framed(frames[i])
  }

  /** A whole frame after whole frames. */
  lemma StreamGrows(b: seq<Byte>, frames: seq<seq<Byte>>, frame: seq<Byte>)
    requires IsStream(b, frames, []) && Framed(frame)
    ensures IsStream(b + frame, frames + [frame], [])
  {
    ConcatNext(frames, frame);
    assert b == Concat(frames);
    assert b + frame + [] == b + frame;
  }

  /** A part of a frame after whole frames. */
  lemma StreamTears(b: seq<Byte>, frames: seq<seq<Byte>>, frame: seq<Byte>, cut: seq<Byte>)
    requires IsStream(b, frames, []) && Framed(frame) && cut < frame
    ensures IsStream(b + cut, frames, cut)
  {
    PrefixIsShort(frame, cut);
    assert b == Concat(frames);
  }

  lemma PrefixIsShort(frame: seq<Byte>, cut: seq<Byte>)
    requires Framed(frame) && cut < frame
    ensures Short(cut)
  {
    if |cut| >= HDR_LEN { assert cut[..4] == frame[..4]; }
  }

  lemma Extend(before: seq<Byte>, frame: seq<Byte>, i: nat, j: nat)
    requires i <= j <= |frame|
    ensures before + frame[..i] + frame[i..j] == before + frame[..j]
  {
  }

  /** One round of a send under flow control: what it finds, and what the backend does if it sends. */
  datatype Round = Round(dying: bool, answered: bool, stopped: bool, oom: bool, pushes: seq<Push>)

  /** A round in which nothing can be sent yet. */
  predicate Waits(round: Round) { round.stopped || (round.pushes != [] && round.pushes[0].Again?) }

  /** Why a send may be given up with nothing sent: the thread dies, its op is answered, a copy of the frame
      cannot be had, the caller will not wait, or no round got further. */
  ghost predicate Excused(rounds: seq<Round>, noWait: bool) {
    || (exists i :: 0 <= i < |rounds| && (rounds[i].dying || rounds[i].answered || rounds[i].oom))
    || (noWait && exists i :: 0 <= i < |rounds| && Waits(rounds[i]))
    || (forall i | 0 <= i < |rounds| :: Waits(rounds[i]))
  }

  /** The thread neither dies nor has its answer, and may send; or may not send yet. */
  predicate Sends(round: Round) { !round.dying && !round.answered && !round.stopped }

  predicate HoldsOn(round: Round) { !round.dying && !round.answered && Waits(round) }

  /** Round `i` is the first in which nothing stands in the way, and its pushes take the whole frame. */
  ghost predicate SentIn(rounds: seq<Round>, i: int, len: nat) {
    && 0 <= i < |rounds| && Sends(rounds[i]) && Completes(rounds[i].pushes, len)
    && forall j | 0 <= j < i :: HoldsOn(rounds[j])
  }

  class Sender {
    const outBuf: array<Byte>
    var open: bool
    var dead: bool
    /** Every byte on the wire and those of them this thread pushed; the whole frames among the
        former, and the bytes after the last. */
    ghost var wire: seq<Byte>
    ghost var mine: seq<Byte>
    ghost var frames: seq<seq<Byte>>
    ghost var torn: seq<Byte>

    /** The wire is whole frames, and only a transport that has failed has a fragment after them. */
    ghost predicate Valid()
      reads this
    {
      IsStream(wire, frames, torn) && (open ==> torn == [])
    }

    /** So a receiver large enough for them reads exactly the frames that were sent, and takes a
        fragment for no frame. */
    lemma WireParses(cap: nat)
      requires Valid() && AllFrames(frames, cap)
      ensures Parse(wire, cap) == Split(frames, torn)
    {
      ParseUnique(frames, torn, cap);
    }

    constructor (cap: nat)
      ensures Valid() && outBuf.Length == cap && open && !dead && mine == [] && wire == [] && fresh(outBuf)
    {
      outBuf := new Byte[cap];
      open, dead := true, false;
      wire, mine, frames, torn := [], [], [], [];
    }

    /** The backend takes some bytes. */
    method PushBytes(slice: seq<Byte>, ghost me: bool)
      modifies `wire, `mine
      ensures wire == old(wire) + slice && mine == if me then old(mine) + slice else old(mine)
    {
      wire := wire + slice;
      if me { mine := mine + slice; }
    }

    /** Push a whole frame, looping on short writes.  A refusal counts only before the first byte; a
        list of pushes that ends early stands for a failure. */
    method DoSend(frame: seq<Byte>, pushes: seq<Push>, ghost me: bool) returns (r: Sent)
      requires frame != []
      modifies `open, `wire, `mine
      ensures old(wire) <= wire && (mine == if me then old(mine) + wire[|old(wire)|..] else old(mine))
      ensures r.Ok? ==> wire == old(wire) + frame && open == old(open)
      ensures r.Retry? ==> wire == old(wire) && open == old(open)
      ensures r.Break? ==> wire[|old(wire)|..] < frame && !open
      ensures r.Ok? <==> Completes(pushes, |frame|)
      ensures r.Retry? <==> pushes != [] && pushes[0].Again?
    {
      var sent := 0;
      var i := 0;
      while sent < |frame|
        invariant 0 <= sent <= |frame| && 0 <= i <= |pushes| && (i == 0 <==> sent == 0)
        invariant open == old(open) && wire == old(wire) + frame[..sent]
        invariant mine == if me then old(mine) + frame[..sent] else old(mine)
        invariant Completes(pushes, |frame|) <==> Completes(pushes[i..], |frame| - sent)
        invariant sent > 0 ==> pushes[0].Took?
        decreases |pushes| - i
      {
        var p := if i < |pushes| then pushes[i] else Bad;
        if p.Again? && sent == 0 { return Retry; }
        if !p.Took? || p.n == 0 || p.n > |frame| - sent {
          open := false;
          return Break;
        }
        PushBytes(frame[sent..sent + p.n], me);
        Extend(old(wire), frame, sent, sent + p.n);
        Extend(old(mine), frame, sent, sent + p.n);
        assert pushes[i..][1..] == pushes[i + 1..];
        sent := sent + p.n;
        i := i + 1;
      }
      return Ok;
    }

    /** Send a frame whose header announces its length; anything else, or a transport no longer open,
        is refused with nothing sent. */
    method TransportSend(frame: seq<Byte>, pushes: seq<Push>, ghost me: bool) returns (r: Sent)
      requires Valid()
      modifies `open, `wire, `mine, `frames, `torn
      ensures Valid() && old(wire) <= wire && old(frames) <= frames && (!old(open) ==> !open)
      ensures mine == if me then old(mine) + wire[|old(wire)|..] else old(mine)
      ensures r.Ok? <==> old(open) && Framed(frame) && Completes(pushes, |frame|)
      ensures r.Ok? ==> open && wire == old(wire) + frame && frames == old(frames) + [frame]
      ensures r.Retry? <==> old(open) && Framed(frame) && pushes != [] && pushes[0].Again?
      ensures r.Retry? ==> open && wire == old(wire) && frames == old(frames)
      ensures r.Break? && old(open) && Framed(frame) ==>
          !open && torn < frame && wire == old(wire) + torn && frames == old(frames)
      ensures r.Break? && !(old(open) && Framed(frame)) ==>
          open == old(open) && wire == old(wire) && frames == old(frames)
    {
      if !open || |frame| < HDR_LEN || SizeOf(frame) != |frame| {
        assert wire[|wire|..] == [];
        return Break;
      }
      r := DoSend(frame, pushes, me);
      if r.Ok? {
        StreamGrows(old(wire), frames, frame);
        frames := frames + [frame];
      } else if r.Break? {
        torn := wire[|old(wire)|..];
        StreamTears(old(wire), frames, frame, torn);
      }
    }

    /** The lock is dropped: peers build frames of their own in the shared buffer and send them, and
        the session may die. */
    method PeersRun()
      requires Valid()
      modifies `dead, `open, `wire, `frames, `torn, `mine, outBuf
      ensures Valid() && mine == old(mine) && old(wire) <= wire && old(frames) <= frames
    {
      var sends: nat, died: bool := *, *;
      for i := 0 to sends
        invariant Valid() && mine == old(mine) && old(wire) <= wire && old(frames) <= frames
      {
        var f: int -> Byte, len: nat, pushes: seq<Push> := *, *, *;
        forall i | 0 <= i < outBuf.Length { outBuf[i] := f(i); }
        if len <= outBuf.Length { var s := TransportSend(outBuf[..len], pushes, false); }
      }
      if died { dead := true; }
    }

    /** One round: the frame goes out, the send is given up or fails, or nothing happens yet. */
    method SendRound(frame: seq<Byte>, noWait: bool, round: Round) returns (done: Option<Outcome>)
      requires Valid()
      modifies `open, `wire, `mine, `frames, `torn
      ensures Valid() && old(wire) <= wire && old(frames) <= frames
      ensures done.None? ==> mine == old(mine) && HoldsOn(round)
      ensures done == Some(OnWire) ==> open && mine == old(mine) + frame && frames == old(frames) + [frame]
      ensures done == Some(OnWire) ==> Sends(round) && Completes(round.pushes, |frame|)
      ensures done == Some(Never) ==> mine == old(mine)
      ensures done == Some(Never) ==> dead || round.dying || round.answered || (noWait && Waits(round))
      ensures done == Some(Io) ==> mine == old(mine) || (!open && mine == old(mine) + torn && torn < frame)
      ensures !dead && old(open) && Sends(round) && Framed(frame) && Completes(round.pushes, |frame|) ==>
          done == Some(OnWire)
    {
      if round.dying || dead || round.answered { return Some(Never); }
      if round.stopped { return None; }
      var s := TransportSend(frame, round.pushes, true);
      if s.Ok? { return Some(OnWire); }
      if s.Break? { return Some(Io); }
      return if noWait then Some(Never) else None;
    }

    /** Send the `len` bytes built in the shared buffer, waiting out back-pressure for as many rounds as
        there are (after which the thread is dying).  The frame leaves the shared buffer before the lock
        is first dropped. */
    method SendFlow(len: nat, noWait: bool, rounds: seq<Round>) returns (r: Outcome)
      requires Valid() && len <= outBuf.Length
      modifies this, outBuf
      ensures Valid() && old(wire) <= wire && old(frames) <= frames
      ensures r.OnWire? ==> open && mine == old(mine) + old(outBuf[..len])
      ensures r.OnWire? ==> |frames| > |old(frames)| && frames[|frames| - 1] == old(outBuf[..len])
      ensures r.Never? ==> mine == old(mine)
      ensures r.Io? ==> mine == old(mine) || (!open && mine == old(mine) + torn && torn < old(outBuf[..len]))
      ensures rounds != [] && old(Clear(rounds[0], len)) ==> r.OnWire?
      ensures r.Never? ==> dead || Excused(rounds, noWait)
      ensures r.OnWire? ==> exists i :: SentIn(rounds, i, len)
    {
      var spill: Option<seq<Byte>> := None;
      for i := 0 to |rounds|
        invariant Valid() && mine == old(mine) && old(wire) <= wire && old(frames) <= frames
        invariant (if spill.Some? then spill.value else outBuf[..len]) == old(outBuf[..len])
        invariant if i == 0 then open == old(open) && dead == old(dead) else !old(Clear(rounds[0], len))
        invariant forall j | 0 <= j < i :: HoldsOn(rounds[j])
      {
        var done := SendRound(if spill.Some? then spill.value else outBuf[..len], noWait, rounds[i]);
        if done.Some? {
          assert done == Some(OnWire) ==> SentIn(rounds, i, len);
          return done.value;
        }
        if spill.None? {
          if rounds[i].oom { return Never; }
          spill := Some(outBuf[..len]);
        }
        PeersRun();
      }
      return Never;
    }

    /** Nothing stands in the way of the frame in the shared buffer. */
    ghost predicate Clear(round: Round, len: nat)
      requires len <= outBuf.Length
      reads this, outBuf
    {
      && !dead && open && !round.dying && !round.answered && !round.stopped
      && Framed(outBuf[..len]) && Completes(round.pushes, len)
    }
  }
}
