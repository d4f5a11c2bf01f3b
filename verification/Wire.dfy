/**
 The 9P2000.L wire codecs.  Every fixed part of a message is a run of little-endian fields, so one
 encoder and one decoder over a list of widths serve them all; the parsers of variable replies
 are proved against the same encoder.
 */
module Wire {
  import opened Options
  import opened Bytes

  // ---------------------------------------------------------------------------
  // Runs of fields.
  // ---------------------------------------------------------------------------

  /** The widths of a run of fields, in bytes. */
  datatype Layout = End | Field(w: nat, rest: Layout)

  function Span(l: Layout): nat { if l.End? then 0 else l.w + Span(l.rest) }

  function Fields(l: Layout): nat { if l.End? then 0 else 1 + Fields(l.rest) }

  ghost predicate InRange(l: Layout, values: seq<nat>) {
    match l
    case End => values == []
    case Field(w, rest) => values != [] && values[0] < Pow(w) && InRange(rest, values[1..])
  }

  function Encode(l: Layout, values: seq<nat>): (b: seq<Byte>)
    requires |values| == Fields(l)
    ensures |b| == Span(l)
  {
    match l
    case End => []
    case Field(w, rest) => Le(values[0], w) + Encode(rest, values[1..])
  }

  /** The fields at the front of `b`, if `b` is long enough. */
  function Decode(l: Layout, b: seq<Byte>): (r: Option<seq<nat>>)
    ensures r.Some? ==> |r.value| == Fields(l)
  {
    match l
    case End => Some([])
    case Field(w, rest) =>
      if |b| < w then None
      else
        match Decode(rest, b[w..])
        case None => None
        case Some(vs) => Some([Nat(b[..w])] + vs)
  }

  /** Decoding takes exactly the strings long enough. */
  lemma {:induction false} DecodeTotal(l: Layout, b: seq<Byte>)
    ensures Decode(l, b).Some? <==> |b| >= Span(l)
  {
    if l.Field? && |b| >= l.w { DecodeTotal(l.rest, b[l.w..]); }
  }

  lemma {:induction false} InRangeCount(l: Layout, values: seq<nat>)
    requires InRange(l, values)
    ensures |values| == Fields(l)
  {
    if l.Field? { InRangeCount(l.rest, values[1..]); }
  }

  lemma {:induction false} DecodeEncode(l: Layout, values: seq<nat>, tail: seq<Byte>)
    requires |values| == Fields(l) && InRange(l, values)
    ensures Decode(l, Encode(l, values) + tail) == Some(values)
  {
    if l.Field? {
      var b := Encode(l, values) + tail;
      var rest := Encode(l.rest, values[1..]);
      assert b[..l.w] == Le(values[0], l.w);
      assert b[l.w..] == rest + tail;
      NatOfLe(values[0], l.w);
      DecodeEncode(l.rest, values[1..], tail);
      assert values == [values[0]] + values[1..];
    }
  }

  lemma {:induction false} EncodeDecode(l: Layout, b: seq<Byte>)
    requires |b| >= Span(l)
    ensures Decode(l, b).Some?
    ensures InRange(l, Decode(l, b).value) && Encode(l, Decode(l, b).value) == b[..Span(l)]
  {
    DecodeTotal(l, b);
    if l.Field? {
      EncodeDecode(l.rest, b[l.w..]);
      NatBound(b[..l.w]);
      LeOfNat(b[..l.w]);
      assert Decode(l, b).value[1..] == Decode(l.rest, b[l.w..]).value;
      assert b[..Span(l)] == b[..l.w] + b[l.w..][..Span(l.rest)];
    }
  }

  /** Where field `i` starts, and how wide it is. */
  function Offset(l: Layout, i: nat): nat
    requires i < Fields(l)
  {
    if i == 0 then 0 else l.w + Offset(l.rest, i - 1)
  }

  function Width(l: Layout, i: nat): nat
    requires i < Fields(l)
  {
    if i == 0 then l.w else Width(l.rest, i - 1)
  }

  lemma SliceShift(b: seq<Byte>, at: nat, o: nat, w: nat)
    requires at + o + w <= |b|
    ensures b[at..][o..o + w] == b[at + o..at + o + w]
  {
  }

  /** A decoded field is the little-endian value of its own bytes. */
  lemma {:induction false} FieldAt(l: Layout, b: seq<Byte>, i: nat)
    requires i < Fields(l) && |b| >= Span(l)
    ensures Decode(l, b).Some? && Offset(l, i) + Width(l, i) <= Span(l)
    ensures Decode(l, b).value[i] == Nat(b[Offset(l, i)..Offset(l, i) + Width(l, i)])
  {
    DecodeTotal(l, b);
    if i > 0 {
      var t := b[l.w..];
      FieldAt(l.rest, t, i - 1);
      var o, w := Offset(l.rest, i - 1), Width(l.rest, i - 1);
      SliceShift(b, l.w, o, w);
      assert Decode(l, b).value[1..] == Decode(l.rest, t).value;
    }
  }

  // ---------------------------------------------------------------------------
  // Messages with a fixed body.
  // ---------------------------------------------------------------------------

  const HDR_LEN: nat := 7
  const QID_LEN: nat := 13
  const ATTR_LEN: nat := 153

  function Words(n: nat, rest: Layout): Layout { if n == 0 then rest else Field(8, Words(n - 1, rest)) }

  function Qid(rest: Layout): Layout { Field(1, Field(4, Field(8, rest))) }

  /** The bodies of the shared-memory extension and of file attributes. */
  function Tweft(): Layout { Field(4, End) }
  function Rweft(): Layout { Field(8, Field(4, Field(4, End))) }
  function Tweftio(): Layout { Field(4, Field(4, Field(4, Field(4, End)))) }
  function Rweftio(): Layout { Field(4, End) }
  function Attr(): Layout { Field(8, Qid(Field(4, Field(4, Field(4, Words(15, End)))))) }

  lemma {:induction false} WordsSpan(n: nat, rest: Layout)
    ensures Span(Words(n, rest)) == 8 * n + Span(rest) && Fields(Words(n, rest)) == n + Fields(rest)
  {
    if n > 0 { WordsSpan(n - 1, rest); }
  }

  lemma QidSpan(rest: Layout)
    ensures Span(Qid(rest)) == QID_LEN + Span(rest) && Fields(Qid(rest)) == 3 + Fields(rest)
  {
    var l := Field(4, Field(8, rest));
    assert Span(l.rest) == 8 + Span(rest) && Fields(l.rest) == 1 + Fields(rest);
    assert Span(l) == 12 + Span(rest) && Fields(l) == 2 + Fields(rest);
  }

  lemma AttrSpan()
    ensures Span(Attr()) == ATTR_LEN && Fields(Attr()) == 22
  {
    var w := Words(15, End);
    WordsSpan(15, End);
    var ids := Field(4, Field(4, Field(4, w)));
    assert Span(ids.rest.rest) == 124 && Fields(ids.rest.rest) == 16;
    assert Span(ids.rest) == 128 && Fields(ids.rest) == 17;
    QidSpan(ids);
  }

  // ---------------------------------------------------------------------------
  // Which field is which.
  // ---------------------------------------------------------------------------

  datatype Attributes = Attributes(
    valid: nat, qidType: nat, qidVersion: nat, qidPath: nat, mode: nat, uid: nat, gid: nat,
    nlink: nat, rdev: nat, size: nat, blksize: nat, blocks: nat,
    atimeSec: nat, atimeNsec: nat, mtimeSec: nat, mtimeNsec: nat,
    ctimeSec: nat, ctimeNsec: nat, btimeSec: nat, btimeNsec: nat, gen: nat, dataVersion: nat)

  datatype Geometry = Geometry(shareId: nat, ringSize: nat, ringEntries: nat)

  datatype Drive = Drive(fid: nat, off: nat, len: nat, dir: nat)

  function AttributesOf(v: seq<nat>): Attributes
    requires |v| == 22
  {
    Attributes(v[0], v[1], v[2], v[3], v[4], v[5], v[6], v[7], v[8], v[9], v[10], v[11],
      v[12], v[13], v[14], v[15], v[16], v[17], v[18], v[19], v[20], v[21])
  }

  function GeometryOf(v: seq<nat>): Geometry
    requires |v| == 3
  {
    Geometry(v[0], v[1], v[2])
  }

  function DriveOf(v: seq<nat>): Drive
    requires |v| == 4
  {
    Drive(v[0], v[1], v[2], v[3])
  }

  lemma {:induction false} WordAt(n: nat, rest: Layout, i: nat)
    requires i < n
    ensures i < Fields(Words(n, rest)) && Offset(Words(n, rest), i) == 8 * i && Width(Words(n, rest), i) == 8
  {
    WordsSpan(n, rest);
    if i > 0 { WordAt(n - 1, rest, i - 1); }
  }

  /** Past the first seven fields of the attributes come words of eight bytes. */
  lemma AttrWordAt(i: nat)
    requires i < 15
    ensures Fields(Attr()) == 22 && Offset(Attr(), 7 + i) == 33 + 8 * i && Width(Attr(), 7 + i) == 8
  {
    AttrSpan();
    var w := Words(15, End);
    WordsSpan(15, End);
    WordAt(15, End, i);
    SkipField(4, w, i);
    SkipField(4, Field(4, w), 1 + i);
    var ids := Field(4, Field(4, Field(4, w)));
    SkipField(4, Field(4, Field(4, w)), 2 + i);
    SkipField(8, ids, 3 + i);
    SkipField(4, Field(8, ids), 4 + i);
    SkipField(1, Field(4, Field(8, ids)), 5 + i);
    SkipField(8, Qid(ids), 6 + i);
  }

  lemma SkipField(w: nat, rest: Layout, i: nat)
    requires i < Fields(rest)
    ensures i + 1 < Fields(Field(w, rest))
    ensures Offset(Field(w, rest), i + 1) == w + Offset(rest, i) && Width(Field(w, rest), i + 1) == Width(rest, i)
  {
  }

  /** The words of the attributes, in the order of the body. */
  function WordOf(a: Attributes, i: nat): nat
    requires i < 15
  {
    [a.nlink, a.rdev, a.size, a.blksize, a.blocks, a.atimeSec, a.atimeNsec, a.mtimeSec, a.mtimeNsec,
     a.ctimeSec, a.ctimeNsec, a.btimeSec, a.btimeNsec, a.gen, a.dataVersion][i]
  }

  /** A getattr body by its bytes. */
  lemma AttrBytes(x: seq<Byte>)
    requires |x| == ATTR_LEN
    ensures Decode(Attr(), x).Some? && |Decode(Attr(), x).value| == 22
    ensures var a := AttributesOf(Decode(Attr(), x).value);
      && a.valid == Nat(x[..8]) && a.qidType == Nat(x[8..9]) && a.qidVersion == Nat(x[9..13])
      && a.qidPath == Nat(x[13..21]) && a.mode == Nat(x[21..25]) && a.uid == Nat(x[25..29])
      && a.gid == Nat(x[29..33])
      && forall i | 0 <= i < 15 :: WordOf(a, i) == Nat(x[33 + 8 * i..41 + 8 * i])
  {
    AttrSpan();
    DecodeTotal(Attr(), x);
    AttrHead(x);
    var v := Decode(Attr(), x).value;
    forall i | 0 <= i < 15
      ensures v[7 + i] == Nat(x[33 + 8 * i..41 + 8 * i])
    {
      AttrWordAt(i);
      FieldAt(Attr(), x, 7 + i);
    }
  }

  lemma AttrHead(x: seq<Byte>)
    requires |x| == ATTR_LEN
    ensures Decode(Attr(), x).Some? && |Decode(Attr(), x).value| == 22
    ensures var v := Decode(Attr(), x).value;
      && v[0] == Nat(x[..8]) && v[1] == Nat(x[8..9]) && v[2] == Nat(x[9..13]) && v[3] == Nat(x[13..21])
      && v[4] == Nat(x[21..25]) && v[5] == Nat(x[25..29]) && v[6] == Nat(x[29..33])
  {
    AttrSpan();
    var tail := Words(15, End);
    HeadAt(tail);
    FieldAt(Attr(), x, 0);
    FieldAt(Attr(), x, 1);
    FieldAt(Attr(), x, 2);
    FieldAt(Attr(), x, 3);
    FieldAt(Attr(), x, 4);
    FieldAt(Attr(), x, 5);
    FieldAt(Attr(), x, 6);
  }

  lemma HeadAt(tail: Layout)
    ensures var l := Field(8, Qid(Field(4, Field(4, Field(4, tail)))));
      && Fields(l) >= 7
      && Offset(l, 0) == 0 && Offset(l, 1) == 8 && Offset(l, 2) == 9 && Offset(l, 3) == 13
      && Offset(l, 4) == 21 && Offset(l, 5) == 25 && Offset(l, 6) == 29
      && Width(l, 0) == 8 && Width(l, 1) == 1 && Width(l, 2) == 4 && Width(l, 3) == 8
      && Width(l, 4) == 4 && Width(l, 5) == 4 && Width(l, 6) == 4
  {
    var f6 := Field(4, tail);
    var f5 := Field(4, f6);
    var f4 := Field(4, f5);
    var f3 := Field(8, f4);
    var f2 := Field(4, f3);
    var f1 := Field(1, f2);
    SkipField(4, f6, 0);
    SkipField(4, f5, 0);
    SkipField(4, f5, 1);
    SkipField(8, f4, 0);
    SkipField(8, f4, 1);
    SkipField(8, f4, 2);
    SkipField(4, f3, 0);
    SkipField(4, f3, 1);
    SkipField(4, f3, 2);
    SkipField(4, f3, 3);
    SkipField(1, f2, 0);
    SkipField(1, f2, 1);
    SkipField(1, f2, 2);
    SkipField(1, f2, 3);
    SkipField(1, f2, 4);
    SkipField(8, f1, 0);
    SkipField(8, f1, 1);
    SkipField(8, f1, 2);
    SkipField(8, f1, 3);
    SkipField(8, f1, 4);
    SkipField(8, f1, 5);
  }

  lemma PairAt()
    ensures var two := Field(4, Field(4, End));
      && Fields(two) == 2 && Span(two) == 8
      && Offset(two, 0) == 0 && Offset(two, 1) == 4 && Width(two, 0) == 4 && Width(two, 1) == 4
  {
    var one := Field(4, End);
    assert Fields(one) == 1 && Span(one) == 4;
    SkipField(4, one, 0);
  }

  /** The bodies of the shared-memory extension by their bytes. */
  lemma GeometryBytes(x: seq<Byte>)
    requires |x| == 16
    ensures Decode(Rweft(), x).Some? && |Decode(Rweft(), x).value| == 3
    ensures GeometryOf(Decode(Rweft(), x).value) == Geometry(Nat(x[..8]), Nat(x[8..12]), Nat(x[12..16]))
  {
    var two := Field(4, Field(4, End));
    PairAt();
    SkipField(8, two, 0);
    SkipField(8, two, 1);
    FieldAt(Rweft(), x, 0);
    FieldAt(Rweft(), x, 1);
    FieldAt(Rweft(), x, 2);
  }

  lemma DriveBytes(x: seq<Byte>)
    requires |x| == 16
    ensures Decode(Tweftio(), x).Some? && |Decode(Tweftio(), x).value| == 4
    ensures DriveOf(Decode(Tweftio(), x).value) == Drive(Nat(x[..4]), Nat(x[4..8]), Nat(x[8..12]), Nat(x[12..16]))
  {
    var two := Field(4, Field(4, End));
    PairAt();
    SkipField(4, two, 0);
    SkipField(4, two, 1);
    SkipField(4, Field(4, two), 0);
    SkipField(4, Field(4, two), 1);
    SkipField(4, Field(4, two), 2);
    FieldAt(Tweftio(), x, 0);
    FieldAt(Tweftio(), x, 1);
    FieldAt(Tweftio(), x, 2);
    FieldAt(Tweftio(), x, 3);
  }

  // ---------------------------------------------------------------------------
  // Whole messages.
  // ---------------------------------------------------------------------------

  /** A message: a header that counts, names and tags it, and its body. */
  function Frame(kind: nat, tag: nat, body: seq<Byte>): (b: seq<Byte>)
    ensures |b| == HDR_LEN + |body| && b[HDR_LEN..] == body
  {
    Le(HDR_LEN + |body|, 4) + Le(kind, 1) + Le(tag, 2) + body
  }

  /** A header that frames exactly this message. */
  function ParseHeader(kind: nat, b: seq<Byte>): Option<nat> {
    if |b| < HDR_LEN then None
    else if Nat(b[..4]) != |b| || Nat(b[4..5]) != kind then None
    else Some(Nat(b[5..7]))
  }

  /** The header byte by byte: four of size, one of type, two of tag. */
  lemma HeaderBytes(kind: nat, tag: nat, body: seq<Byte>)
    requires kind < 0x100 && tag < 0x1_0000
    ensures var b := Frame(kind, tag, body); var n := 7 + |body|;
      && b[0] == n % 0x100 && b[1] == n / 0x100 % 0x100 && b[2] == n / 0x1_0000 % 0x100
      && b[3] == n / 0x100_0000 % 0x100
      && b[4] == kind && b[5] == tag % 0x100 && b[6] == tag / 0x100
  {
    var b := Frame(kind, tag, body);
    var n := HDR_LEN + |body|;
    assert Pow(1) == 0x100 && Pow(2) == 256 * Pow(1) && Pow(3) == 256 * Pow(2);
    LeAt(n, 4, 0);
    LeAt(n, 4, 1);
    LeAt(n, 4, 2);
    LeAt(n, 4, 3);
    LeAt(kind, 1, 0);
    LeAt(tag, 2, 0);
    LeAt(tag, 2, 1);
    assert b[4] == Le(kind, 1)[0] && b[5] == Le(tag, 2)[0] && b[6] == Le(tag, 2)[1];
  }

  /** What a header parser accepts is the header that the builders write. */
  lemma HeaderExact(kind: nat, b: seq<Byte>)
    requires ParseHeader(kind, b).Some?
    ensures ParseHeader(kind, b).value < Pow(2)
    ensures b == Frame(kind, ParseHeader(kind, b).value, b[HDR_LEN..])
  {
    NatBound(b[5..7]);
    LeOfNat(b[..4]);
    LeOfNat(b[4..5]);
    LeOfNat(b[5..7]);
    assert b == b[..4] + b[4..5] + b[5..7] + b[7..];
  }

  lemma HeaderBack(kind: nat, tag: nat, body: seq<Byte>)
    requires kind < Pow(1) && tag < Pow(2) && HDR_LEN + |body| < Pow(4)
    ensures ParseHeader(kind, Frame(kind, tag, body)) == Some(tag)
  {
    var n, b := HDR_LEN + |body|, Frame(kind, tag, body);
    NatOfLe(n, 4);
    NatOfLe(kind, 1);
    NatOfLe(tag, 2);
    assert b[..4] == Le(n, 4) && b[4..5] == Le(kind, 1) && b[5..7] == Le(tag, 2);
  }

  function Build(kind: nat, layout: Layout, tag: nat, values: seq<nat>): seq<Byte>
    requires |values| == Fields(layout)
  {
    Frame(kind, tag, Encode(layout, values))
  }

  /** A body that is exactly the layout. */
  function ParseBody(layout: Layout, body: seq<Byte>): Option<seq<nat>> {
    if |body| != Span(layout) then None else Decode(layout, body)
  }

  /** Strict parse: the header frames the message and the body is exactly the layout. */
  function Parse(kind: nat, layout: Layout, b: seq<Byte>): Option<(nat, seq<nat>)> {
    var tag := ParseHeader(kind, b);
    if tag.None? then None
    else
      match ParseBody(layout, b[HDR_LEN..])
      case None => None
      case Some(values) => Some((tag.value, values))
  }

  /** Every message that fits its fields parses back to what was built. */
  lemma ParseBuild(kind: nat, layout: Layout, tag: nat, values: seq<nat>)
    requires |values| == Fields(layout) && InRange(layout, values) && kind < Pow(1) && tag < Pow(2)
    requires HDR_LEN + Span(layout) < Pow(4)
    ensures Parse(kind, layout, Build(kind, layout, tag, values)) == Some((tag, values))
  {
    var body := Encode(layout, values);
    HeaderBack(kind, tag, body);
    DecodeEncode(layout, values, []);
    assert body + [] == body;
  }

  /** A strict parser accepts only what the builder would build from its result. */
  lemma BuildParse(kind: nat, layout: Layout, b: seq<Byte>)
    requires Parse(kind, layout, b).Some?
    ensures var (tag, values) := Parse(kind, layout, b).value;
      && |values| == Fields(layout) && InRange(layout, values) && tag < Pow(2)
      && Build(kind, layout, tag, values) == b
  {
    HeaderExact(kind, b);
    var body := b[HDR_LEN..];
    EncodeDecode(layout, body);
    assert body[..Span(layout)] == body;
  }

  // ---------------------------------------------------------------------------
  // The primitive codecs.
  // ---------------------------------------------------------------------------

  /** Write the `w` low bytes of `v` at `off`. */
  method Pack(out: array<Byte>, off: nat, v: nat, w: nat) returns (ok: bool)
    requires off <= out.Length
    modifies out
    ensures ok <==> w <= out.Length - off
    ensures ok ==>
        out[off..off + w] == Le(v, w) && out[..off] == old(out[..off]) && out[off + w..] == old(out[off + w..])
    ensures !ok ==> out[..] == old(out[..])
  {
    if out.Length - off < w { return false; }
    var rest := v;
    for i := 0 to w
      invariant out[..off] == old(out[..off]) && out[off + w..] == old(out[off + w..])
      invariant out[off..off + i] + Le(rest, w - i) == Le(v, w)
    {
      ghost var was := out[off..off + i];
      out[off + i] := rest % 256;
      assert out[off..off + i + 1] == was + [rest % 256];
      assert was + ([rest % 256] + Le(rest / 256, w - i - 1)) == was + [rest % 256] + Le(rest / 256, w - i - 1);
      rest := rest / 256;
    }
    assert out[off..off + w] + [] == out[off..off + w];
    return true;
  }

  /** Read `w` bytes at `off`. */
  method Unpack(b: seq<Byte>, off: nat, w: nat) returns (r: Option<nat>)
    requires off <= |b|
    ensures r == if |b| - off < w then None else Some(Nat(b[off..off + w]))
  {
    if |b| - off < w { return None; }
    var v: nat, unit: nat := 0, 1;
    for i := 0 to w
      invariant v == Nat(b[off..off + i]) && unit == Pow(i)
    {
      NatAppend(b[off..off + i], b[off + i]);
      assert b[off..off + i + 1] == b[off..off + i] + [b[off + i]];
      v := v + b[off + i] * unit;
      unit := 256 * unit;
    }
    return Some(v);
  }

  // ---------------------------------------------------------------------------
  // Strings: a length of two bytes, then that many.
  // ---------------------------------------------------------------------------

  const STR_MAX: nat := 0xFFFF

  function EncodeStr(s: seq<Byte>): seq<Byte> { Le(|s|, 2) + s }

  /** The string at the front of `b`, if the whole of it is there. */
  function DecodeStr(b: seq<Byte>): Option<seq<Byte>> {
    if |b| < 2 || |b| < 2 + Nat(b[..2]) then None else Some(b[2..2 + Nat(b[..2])])
  }

  lemma TwoBytes()
    ensures Pow(2) == STR_MAX + 1
  {
    assert Pow(1) == 256;
  }

  /** A string that its length field can count survives, whatever follows it. */
  lemma StrBack(s: seq<Byte>, rest: seq<Byte>)
    requires |s| <= STR_MAX
    ensures DecodeStr(EncodeStr(s) + rest) == Some(s)
  {
    TwoBytes();
    NatOfLe(|s|, 2);
    var b := EncodeStr(s) + rest;
    assert b[..2] == Le(|s|, 2) && b[2..2 + |s|] == s;
  }

  /** The string byte by byte: its length in two, least significant first, and then its own. */
  lemma StrBytes(s: seq<Byte>)
    requires |s| <= STR_MAX
    ensures var b := EncodeStr(s);
      |b| == |s| + 2 && b[0] == |s| % 0x100 && b[1] == |s| / 0x100 && b[2..] == s
  {
    LeAt(|s|, 2, 0);
    LeAt(|s|, 2, 1);
    assert Pow(1) == 0x100;
  }

  /** And a string that is read is the one those bytes encode. */
  lemma StrExact(b: seq<Byte>)
    requires DecodeStr(b).Some?
    ensures var s := DecodeStr(b).value; |s| <= STR_MAX && 2 + |s| <= |b| && EncodeStr(s) == b[..2 + |s|]
  {
    TwoBytes();
    NatBound(b[..2]);
    LeOfNat(b[..2]);
    var s := DecodeStr(b).value;
    assert b[..2 + |s|] == b[..2] + s;
  }

  /** Write a string at `off`: refused when its length does not fit two bytes or the buffer is short. */
  method PackStr(out: array<Byte>, off: nat, s: seq<Byte>) returns (n: Option<nat>)
    requires off <= out.Length
    modifies out
    ensures n.Some? <==> |s| <= STR_MAX && 2 + |s| <= out.Length - off
    ensures n.Some? ==> n.value == |EncodeStr(s)| && out[off..off + n.value] == EncodeStr(s)
    ensures n.Some? ==> out[..off] == old(out[..off]) && out[off + n.value..] == old(out[off + n.value..])
    ensures n.None? ==> out[..] == old(out[..])
  {
    if |s| > STR_MAX || out.Length - off < 2 + |s| { return None; }
    var ok := Pack(out, off, |s|, 2);
    var at := off + 2;
    assert out[at + |s|..] == out[at..][|s|..] && old(out[at + |s|..]) == old(out[at..])[|s|..];
    for i := 0 to |s|
      invariant out[..off] == old(out[..off]) && out[off..at] == Le(|s|, 2)
      invariant out[at..at + i] == s[..i] && out[at + |s|..] == old(out[at + |s|..])
    {
      out[at + i] := s[i];
      assert out[at..at + i + 1] == s[..i] + [s[i]];
    }
    Join(out[..], off, at, at + |s|);
    return Some(2 + |s|);
  }

  /** Read the string at `off`. */
  method UnpackStr(b: seq<Byte>, off: nat) returns (r: Option<seq<Byte>>)
    requires off <= |b|
    ensures r == DecodeStr(b[off..])
  {
    var n := Unpack(b, off, 2);
    if n.None? { return None; }
    assert b[off..][..2] == b[off..off + 2];
    if 2 + n.value > |b| - off { return None; }
    assert b[off..][2..2 + n.value] == b[off + 2..off + 2 + n.value];
    return Some(b[off + 2..off + 2 + n.value]);
  }

  // ---------------------------------------------------------------------------
  // Runs of fields, read and written in place.
  // ---------------------------------------------------------------------------

  /** Read a run of fields, advancing an offset. */
  method UnpackFields(l: Layout, b: seq<Byte>, off: nat) returns (r: Option<seq<nat>>)
    requires off <= |b|
    ensures r == Decode(l, b[off..])
  {
    if l.End? { return Some([]); }
    var v := Unpack(b, off, l.w);
    if v.None? { return None; }
    var rest := UnpackFields(l.rest, b, off + l.w);
    assert b[off..][..l.w] == b[off..off + l.w] && b[off..][l.w..] == b[off + l.w..];
    if rest.None? { return None; }
    return Some([v.value] + rest.value);
  }

  lemma Join(s: seq<Byte>, a: nat, b: nat, c: nat)
    requires a <= b <= c <= |s|
    ensures s[a..c] == s[a..b] + s[b..c]
  {
  }

  /** Two strings that agree up to `b` agree between `a` and `b`. */
  lemma Agree(s: seq<Byte>, u: seq<Byte>, a: nat, b: nat)
    requires a <= b <= |s| && b <= |u| && s[..b] == u[..b]
    ensures s[a..b] == u[a..b] && s[..a] == u[..a]
  {
    assert s[a..b] == s[..b][a..] && u[a..b] == u[..b][a..];
    assert s[..a] == s[..b][..a] && u[..a] == u[..b][..a];
  }

  /** Write a run of fields, advancing an offset. */
  method PackFields(out: array<Byte>, off: nat, l: Layout, values: seq<nat>) returns (ok: bool)
    requires off <= out.Length && |values| == Fields(l)
    modifies out
    ensures ok <==> Span(l) <= out.Length - off
    ensures ok ==> out[off..off + Span(l)] == Encode(l, values) && out[..off] == old(out[..off])
    decreases l
  {
    if l.End? { return true; }
    ok := Pack(out, off, values[0], l.w);
    if !ok { return; }
    ghost var was := out[..];
    ok := PackFields(out, off + l.w, l.rest, values[1..]);
    if ok {
      Join(out[..], off, off + l.w, off + Span(l));
      Agree(out[..], was, off, off + l.w);
    }
  }

  method WriteHeader(out: array<Byte>, size: nat, kind: nat, tag: nat)
    requires out.Length >= HDR_LEN
    modifies out
    ensures out[..HDR_LEN] == Le(size, 4) + Le(kind, 1) + Le(tag, 2)
  {
    var a := Pack(out, 0, size, 4);
    ghost var first := out[..];
    var b := Pack(out, 4, kind, 1);
    ghost var second := out[..];
    var c := Pack(out, 5, tag, 2);
    Agree(out[..], second, 4, 5);
    Agree(second, first, 0, 4);
    Join(out[..], 0, 4, 5);
    Join(out[..], 0, 5, 7);
  }

  /** Build a message of a fixed body, if the buffer can hold it. */
  method BuildFixed(out: array<Byte>, kind: nat, layout: Layout, tag: nat, values: seq<nat>) returns (n: Option<nat>)
    requires |values| == Fields(layout)
    modifies out
    ensures n.Some? <==> HDR_LEN + Span(layout) <= out.Length
    ensures n.Some? ==> n.value == HDR_LEN + Span(layout) && out[..n.value] == Build(kind, layout, tag, values)
  {
    var total := HDR_LEN + Span(layout);
    if out.Length < total { return None; }
    WriteHeader(out, total, kind, tag);
    ghost var header := out[..HDR_LEN];
    var ok := PackFields(out, HDR_LEN, layout, values);
    Join(out[..], 0, HDR_LEN, total);
    return Some(total);
  }

  /** A message of a fixed body: Tweft, Rweft, Tweftio, Rweftio, Rgetattr. */
  method ParseFixed(kind: nat, layout: Layout, b: seq<Byte>) returns (r: Option<(nat, seq<nat>)>)
    ensures r == Parse(kind, layout, b)
  {
    var tag := ParseHeader(kind, b);
    if tag.None? { return None; }
    DecodeTotal(layout, b[HDR_LEN..]);
    var values := UnpackFields(layout, b, HDR_LEN);
    if values.None? || HDR_LEN + Span(layout) != |b| { return None; }
    return Some((tag.value, values.value));
  }

  // ---------------------------------------------------------------------------
  // Counted replies: Rwalk and Rwalkgetattr.
  // ---------------------------------------------------------------------------

  const MAX_WALK: nat := 16

  /** `n` times `s`. */
  function Times(n: nat, s: nat): nat { if n == 0 then 0 else s + Times(n - 1, s) }

  lemma {:induction false} TimesIsProduct(n: nat, s: nat)
    ensures Times(n, s) == n * s
  {
    if n > 0 { TimesIsProduct(n - 1, s); }
  }

  function EncodeMany(l: Layout, items: seq<seq<nat>>): (b: seq<Byte>)
    requires forall i | 0 <= i < |items| :: |items[i]| == Fields(l)
    ensures |b| == Times(|items|, Span(l))
  {
    if items == [] then [] else Encode(l, items[0]) + EncodeMany(l, items[1..])
  }

  /** The first `n` elements of `b`. */
  function DecodeMany(l: Layout, n: nat, b: seq<Byte>): (r: Option<seq<seq<nat>>>)
    ensures r.Some? ==> |r.value| == n && forall i | 0 <= i < n :: |r.value[i]| == Fields(l)
    decreases n
  {
    if n == 0 then Some([])
    else
      var first := Decode(l, b);
      if first.None? then None
      else
        DecodeTotal(l, b);
        var rest := DecodeMany(l, n - 1, b[Span(l)..]);
        if rest.None? then None else Some([first.value] + rest.value)
  }

  lemma {:induction false} ManyTotal(l: Layout, n: nat, b: seq<Byte>)
    ensures DecodeMany(l, n, b).Some? <==> |b| >= Times(n, Span(l))
    decreases n
  {
    if n > 0 {
      DecodeTotal(l, b);
      if |b| >= Span(l) { ManyTotal(l, n - 1, b[Span(l)..]); }
    }
  }

  lemma ManyFirst(l: Layout, n: nat, b: seq<Byte>)
    requires n > 0 && DecodeMany(l, n, b).Some?
    ensures |b| >= Span(l) && Decode(l, b).Some? && DecodeMany(l, n - 1, b[Span(l)..]).Some?
    ensures DecodeMany(l, n, b).value[0] == Decode(l, b).value
    ensures DecodeMany(l, n, b).value[1..] == DecodeMany(l, n - 1, b[Span(l)..]).value
  {
    DecodeTotal(l, b);
  }

  lemma CutAt(b: seq<Byte>, k: nat)
    requires k <= |b|
    ensures b == b[..k] + b[k..]
  {
  }

  lemma {:induction false} ManyExact(l: Layout, n: nat, b: seq<Byte>, items: seq<seq<nat>>)
    requires |b| == Times(n, Span(l)) && DecodeMany(l, n, b) == Some(items)
    ensures EncodeMany(l, items) == b
    decreases n
  {
    if n > 0 {
      ManyFirst(l, n, b);
      EncodeDecode(l, b);
      ManyExact(l, n - 1, b[Span(l)..], items[1..]);
      CutAt(b, Span(l));
    }
  }

  lemma {:induction false} ManyInRange(l: Layout, n: nat, b: seq<Byte>, i: nat)
    requires DecodeMany(l, n, b).Some? && i < n
    ensures InRange(l, DecodeMany(l, n, b).value[i])
    decreases n
  {
    ManyFirst(l, n, b);
    if i == 0 {
      EncodeDecode(l, b);
    } else {
      ManyInRange(l, n - 1, b[Span(l)..], i - 1);
      var items := DecodeMany(l, n, b).value;
      assert items[i] == items[1..][i - 1];
    }
  }

  lemma {:induction false} ManyBack(l: Layout, items: seq<seq<nat>>)
    requires forall i | 0 <= i < |items| :: |items[i]| == Fields(l) && InRange(l, items[i])
    ensures DecodeMany(l, |items|, EncodeMany(l, items)) == Some(items)
    decreases |items|
  {
    if items != [] {
      ManyBack(l, items[1..]);
      ManyBackNext(l, items, EncodeMany(l, items[1..]));
    }
  }

  lemma ManyBackNext(l: Layout, items: seq<seq<nat>>, rest: seq<Byte>)
    requires items != [] && |items[0]| == Fields(l) && InRange(l, items[0])
    requires DecodeMany(l, |items| - 1, rest) == Some(items[1..])
    ensures DecodeMany(l, |items|, Encode(l, items[0]) + rest) == Some(items)
  {
    DecodeEncode(l, items[0], rest);
    assert (Encode(l, items[0]) + rest)[Span(l)..] == rest;
    assert items == [items[0]] + items[1..];
  }

  /** A body that counts its elements. */
  function EncodeItems(l: Layout, items: seq<seq<nat>>): seq<Byte>
    requires forall i | 0 <= i < |items| :: |items[i]| == Fields(l)
  {
    Le(|items|, 2) + EncodeMany(l, items)
  }

  /** As many elements as counted, and no more than the caller holds or a walk has. */
  function ParseItems(l: Layout, body: seq<Byte>, cap: nat): Option<seq<seq<nat>>> {
    if |body| < 2 then None
    else
      var n := Nat(body[..2]);
      if n > cap || n > MAX_WALK || |body| != 2 + Times(n, Span(l)) then None else DecodeMany(l, n, body[2..])
  }

  lemma ItemsExact(l: Layout, body: seq<Byte>, cap: nat)
    requires ParseItems(l, body, cap).Some?
    ensures var items := ParseItems(l, body, cap).value;
      && |items| <= cap && |items| <= MAX_WALK
      && (forall i | 0 <= i < |items| :: |items[i]| == Fields(l) && InRange(l, items[i]))
      && EncodeItems(l, items) == body
  {
    var n := Nat(body[..2]);
    LeOfNat(body[..2]);
    ManyExact(l, n, body[2..], DecodeMany(l, n, body[2..]).value);
    forall i | 0 <= i < n ensures InRange(l, DecodeMany(l, n, body[2..]).value[i]) { ManyInRange(l, n, body[2..], i); }
    assert body == body[..2] + body[2..];
  }

  lemma ItemsBack(l: Layout, items: seq<seq<nat>>, cap: nat)
    requires forall i | 0 <= i < |items| :: |items[i]| == Fields(l) && InRange(l, items[i])
    requires |items| <= cap && |items| <= MAX_WALK
    ensures ParseItems(l, EncodeItems(l, items), cap) == Some(items)
  {
    var body := EncodeItems(l, items);
    NatOfLe(|items|, 2);
    ManyBack(l, items);
    assert body[..2] == Le(|items|, 2) && body[2..] == EncodeMany(l, items);
  }

  /** A reply that counts its elements. */
  function BuildCounted(kind: nat, l: Layout, tag: nat, items: seq<seq<nat>>): seq<Byte>
    requires forall i | 0 <= i < |items| :: |items[i]| == Fields(l)
  {
    Frame(kind, tag, EncodeItems(l, items))
  }

  function ParseCounted(kind: nat, l: Layout, b: seq<Byte>, cap: nat): Option<(nat, seq<seq<nat>>)> {
    var tag := ParseHeader(kind, b);
    if tag.None? then None
    else
      match ParseItems(l, b[HDR_LEN..], cap)
      case None => None
      case Some(items) => Some((tag.value, items))
  }

  /** A counted reply that parses re-encodes identically from what the parser returns. */
  lemma CountedExact(kind: nat, l: Layout, b: seq<Byte>, cap: nat)
    requires ParseCounted(kind, l, b, cap).Some?
    ensures var (tag, items) := ParseCounted(kind, l, b, cap).value;
      && |items| <= cap && |items| <= 16 && tag < Pow(2)
      && (forall i | 0 <= i < |items| :: |items[i]| == Fields(l) && InRange(l, items[i]))
      && BuildCounted(kind, l, tag, items) == b
  {
    HeaderExact(kind, b);
    ItemsExact(l, b[HDR_LEN..], cap);
  }

  /** And every counted reply that fits is accepted. */
  lemma CountedBack(kind: nat, l: Layout, tag: nat, items: seq<seq<nat>>, cap: nat)
    requires forall i | 0 <= i < |items| :: |items[i]| == Fields(l) && InRange(l, items[i])
    requires kind < Pow(1) && tag < Pow(2) && |items| <= cap && |items| <= 16
    requires HDR_LEN + 2 + Times(|items|, Span(l)) < Pow(4)
    ensures ParseCounted(kind, l, BuildCounted(kind, l, tag, items), cap) == Some((tag, items))
  {
    HeaderBack(kind, tag, EncodeItems(l, items));
    ItemsBack(l, items, cap);
  }

  /** The elements of `all` are `done` and then those at the front of `b`. */
  ghost predicate Split(l: Layout, all: Option<seq<seq<nat>>>, done: seq<seq<nat>>, left: nat, b: seq<Byte>) {
    var rest := DecodeMany(l, left, b);
    all == if rest.None? then None else Some(done + rest.value)
  }

  lemma SplitStart(l: Layout, n: nat, b: seq<Byte>)
    ensures Split(l, DecodeMany(l, n, b), [], n, b)
  {
    var rest := DecodeMany(l, n, b);
    if rest.Some? { assert [] + rest.value == rest.value; }
  }

  lemma SplitNext(l: Layout, all: Option<seq<seq<nat>>>, done: seq<seq<nat>>, left: nat, b: seq<Byte>)
    requires Split(l, all, done, left, b) && left > 0
    ensures Decode(l, b).None? ==> all.None?
    ensures Decode(l, b).Some? ==> |b| >= Span(l) && Split(l, all, done + [Decode(l, b).value], left - 1, b[Span(l)..])
  {
    DecodeTotal(l, b);
    if Decode(l, b).Some? {
      var rest := DecodeMany(l, left - 1, b[Span(l)..]);
      if rest.Some? { assert done + ([Decode(l, b).value] + rest.value) == done + [Decode(l, b).value] + rest.value; }
    }
  }

  lemma SplitDone(l: Layout, all: Option<seq<seq<nat>>>, done: seq<seq<nat>>, b: seq<Byte>)
    requires Split(l, all, done, 0, b)
    ensures all == Some(done)
  {
    assert done + [] == done;
  }

  /** Read `n` qids from `start` on; returns them and where they end. */
  method UnpackQids(b: seq<Byte>, start: nat, n: nat) returns (r: Option<seq<seq<nat>>>, off: nat)
    requires start <= |b|
    ensures r == DecodeMany(Qid(End), n, b[start..])
    ensures r.Some? ==> off == start + Times(n, QID_LEN)
  {
    QidSpan(End);
    ghost var all := DecodeMany(Qid(End), n, b[start..]);
    SplitStart(Qid(End), n, b[start..]);
    off := start;
    var qids: seq<seq<nat>> := [];
    var left: nat := n;
    while left > 0
      invariant left <= n && off <= |b| && Split(Qid(End), all, qids, left, b[off..])
      invariant off + Times(left, QID_LEN) == start + Times(n, QID_LEN)
    {
      SplitNext(Qid(End), all, qids, left, b[off..]);
      var q := UnpackFields(Qid(End), b, off);
      if q.None? { return None, off; }
      qids := qids + [q.value];
      assert b[off..][QID_LEN..] == b[off + QID_LEN..];
      off := off + QID_LEN;
      left := left - 1;
    }
    SplitDone(Qid(End), all, qids, b[off..]);
    return Some(qids), off;
  }

  /** The count that leads a counted reply, if it may be taken. */
  method UnpackCount(b: seq<Byte>, cap: nat) returns (r: Option<nat>)
    requires |b| >= HDR_LEN
    ensures r.Some? ==> |b| >= HDR_LEN + 2 && r.value == Nat(b[HDR_LEN..][..2]) <= cap && r.value <= MAX_WALK
    ensures r.None? ==> |b[HDR_LEN..]| < 2 || Nat(b[HDR_LEN..][..2]) > cap || Nat(b[HDR_LEN..][..2]) > MAX_WALK
  {
    r := Unpack(b, HDR_LEN, 2);
    if r.None? { return; }
    assert b[HDR_LEN..][..2] == b[HDR_LEN..HDR_LEN + 2];
    if r.value > cap || r.value > MAX_WALK { return None; }
  }

  /** Rwalk: the count, then that many qids and nothing else. */
  method ParseRwalk(kind: nat, b: seq<Byte>, cap: nat) returns (r: Option<(nat, seq<seq<nat>>)>)
    ensures r == ParseCounted(kind, Qid(End), b, cap)
  {
    QidSpan(End);
    var tag := ParseHeader(kind, b);
    if tag.None? { return None; }
    var count := UnpackCount(b, cap);
    if count.None? { return None; }
    assert b[HDR_LEN..][2..] == b[HDR_LEN + 2..];
    ManyTotal(Qid(End), count.value, b[HDR_LEN + 2..]);
    var qids, off := UnpackQids(b, HDR_LEN + 2, count.value);
    if qids.None? || off != |b| { return None; }
    return Some((tag.value, qids.value));
  }

  /** The qid inside an attribute body. */
  lemma QidOfAttr(x: seq<Byte>)
    requires |x| >= ATTR_LEN
    ensures Decode(Attr(), x).Some? && Decode(Qid(End), x[8..]).Some?
    ensures Decode(Attr(), x).value[1..4] == Decode(Qid(End), x[8..]).value
  {
    AttrSpan();
    QidInside(Field(4, Field(4, Field(4, Words(15, End)))), x);
  }

  lemma QidInside(tail: Layout, x: seq<Byte>)
    requires |x| >= 8 + Span(Qid(tail))
    ensures Decode(Field(8, Qid(tail)), x).Some? && Decode(Qid(End), x[8..]).Some?
    ensures |Decode(Field(8, Qid(tail)), x).value| >= 4
    ensures Decode(Field(8, Qid(tail)), x).value[1..4] == Decode(Qid(End), x[8..]).value
  {
    var y := x[8..];
    QidSpan(tail);
    QidSpan(End);
    DecodeTotal(Qid(tail), y);
    DecodeTotal(Qid(End), y);
    QidPrefix(tail, y);
    assert Decode(Field(8, Qid(tail)), x).value == [Nat(x[..8])] + Decode(Qid(tail), y).value;
  }

  lemma QidPrefix(tail: Layout, y: seq<Byte>)
    requires Decode(Qid(tail), y).Some? && Decode(Qid(End), y).Some?
    ensures |Decode(Qid(tail), y).value| >= 3 && Decode(Qid(tail), y).value[..3] == Decode(Qid(End), y).value
  {
    var z := y[1..];
    assert Decode(Field(4, Field(8, tail)), z).Some? && Decode(Field(4, Field(8, End)), z).Some?;
    var u := z[4..];
    assert Decode(Field(8, tail), u).Some? && Decode(Field(8, End), u).Some?;
    assert Decode(Field(8, End), u).value == [Nat(u[..8])];
  }

  /** The qids that lie eight bytes into each of `n` attribute bodies. */
  function AttrQids(n: nat, b: seq<Byte>): (r: seq<seq<nat>>)
    requires |b| == Times(n, ATTR_LEN)
    ensures |r| == n
    decreases n
  {
    if n == 0 then []
    else
      QidSpan(End);
      DecodeTotal(Qid(End), b[8..]);
      [Decode(Qid(End), b[8..]).value] + AttrQids(n - 1, b[ATTR_LEN..])
  }

  lemma {:induction false} AttrQidsInside(n: nat, b: seq<Byte>, i: nat)
    requires |b| == Times(n, ATTR_LEN) && i < n
    ensures DecodeMany(Attr(), n, b).Some?
    ensures var attr := DecodeMany(Attr(), n, b).value[i]; |attr| == 22 && AttrQids(n, b)[i] == attr[1..4]
    decreases n
  {
    AttrSpan();
    ManyTotal(Attr(), n, b);
    ManyFirst(Attr(), n, b);
    if i == 0 {
      QidOfAttr(b);
    } else {
      AttrQidsInside(n - 1, b[ATTR_LEN..], i - 1);
      var items := DecodeMany(Attr(), n, b).value;
      assert items[i] == items[1..][i - 1];
    }
  }

  /** Read the qids inside `n` attribute bodies. */
  method UnpackAttrQids(b: seq<Byte>, start: nat, n: nat) returns (qids: seq<seq<nat>>)
    requires start <= |b| && |b| - start == Times(n, ATTR_LEN)
    ensures qids == AttrQids(n, b[start..])
  {
    QidSpan(End);
    qids := [];
    var off := start;
    for i := 0 to n
      invariant start <= off <= |b| && |b| - off == Times(n - i, ATTR_LEN)
      invariant qids + AttrQids(n - i, b[off..]) == AttrQids(n, b[start..])
    {
      assert b[off..][8..] == b[off + 8..] && b[off..][ATTR_LEN..] == b[off + ATTR_LEN..];
      DecodeTotal(Qid(End), b[off + 8..]);
      var q := UnpackFields(Qid(End), b, off + 8);
      qids := qids + [q.value];
      off := off + ATTR_LEN;
    }
  }

  /** Rwalkgetattr: the count, then that many attribute bodies and nothing else; the qids returned are
      those inside the bodies. */
  method ParseRwalkgetattr(kind: nat, b: seq<Byte>, cap: nat) returns (r: Option<(nat, seq<seq<nat>>)>)
    ensures r.Some? <==> ParseCounted(kind, Attr(), b, cap).Some?
    ensures r.Some? ==>
      var attrs := ParseCounted(kind, Attr(), b, cap).value.1;
      && r.value.0 == ParseCounted(kind, Attr(), b, cap).value.0 && |r.value.1| == |attrs|
      && forall i | 0 <= i < |attrs| :: |attrs[i]| == 22 && r.value.1[i] == attrs[i][1..4]
  {
    AttrSpan();
    var tag := ParseHeader(kind, b);
    if tag.None? { return None; }
    var count := UnpackCount(b, cap);
    if count.None? { return None; }
    TimesIsProduct(count.value, ATTR_LEN);
    if |b| - (HDR_LEN + 2) != count.value * ATTR_LEN { return None; }
    assert b[HDR_LEN..][2..] == b[HDR_LEN + 2..];
    var qids := UnpackAttrQids(b, HDR_LEN + 2, count.value);
    ManyTotal(Attr(), count.value, b[HDR_LEN + 2..]);
    forall i | 0 <= i < count.value
      ensures var attr := DecodeMany(Attr(), count.value, b[HDR_LEN + 2..]).value[i];
        |attr| == 22 && qids[i] == attr[1..4]
    {
      AttrQidsInside(count.value, b[HDR_LEN + 2..], i);
    }
    return Some((tag.value, qids));
  }
}
