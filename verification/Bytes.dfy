/**
 Bytes, and little-endian integers over them.
 */
module Bytes {

  type Byte = b: int | 0 <= b < 256

  /** 256 to the `w`: one more than the largest value of `w` bytes. */
  function Pow(w: nat): (p: nat)
    ensures p >= 1
  {
    if w == 0 then 1 else 256 * Pow(w - 1)
  }

  /** The `w` low bytes of `v`, least significant first. */
  function Le(v: nat, w: nat): (b: seq<Byte>)
    ensures |b| == w
    decreases w
  {
    if w == 0 then [] else [v % 256] + Le(v / 256, w - 1)
  }

  function Nat(b: seq<Byte>): nat {
    if b == [] then 0 else b[0] + 256 * Nat(b[1..])
  }

  lemma {:induction false} NatBound(b: seq<Byte>)
    ensures Nat(b) < Pow(|b|)
  {
    if b != [] { NatBound(b[1..]); }
  }

  /** A value that fits comes back from its bytes. */
  lemma {:induction false} NatOfLe(v: nat, w: nat)
    requires v < Pow(w)
    ensures Nat(Le(v, w)) == v
    decreases w
  {
    if w > 0 {
      NatOfLe(v / 256, w - 1);
      assert Le(v, w)[1..] == Le(v / 256, w - 1);
    }
  }

  /** Bytes come back from their value. */
  lemma {:induction false} LeOfNat(b: seq<Byte>)
    ensures Le(Nat(b), |b|) == b
  {
    if b != [] {
      LeOfNat(b[1..]);
      assert b == [b[0]] + b[1..];
      assert Nat(b) / 256 == Nat(b[1..]);
    }
  }

  /** Byte `i` has weight 256 to the `i`: the least significant byte comes first. */
  lemma {:induction false} LeAt(v: nat, w: nat, i: nat)
    requires i < w
    ensures Le(v, w)[i] == v / Pow(i) % 256
    decreases w
  {
    if i > 0 {
      LeAt(v / 256, w - 1, i - 1);
      DivDiv(v, Pow(i - 1));
    }
  }

  lemma DivDiv(v: nat, p: nat)
    requires p > 0
    ensures v / 256 / p == v / (256 * p)
  {
    var q, r := v / 256 / p, v / 256 % p;
    assert v / 256 == q * p + r;
    var low := 256 * r + v % 256;
    assert v == (256 * p) * q + low && 0 <= low < 256 * p;
    DivUnique(v, 256 * p, q, low);
  }

  lemma DivUnique(v: int, d: int, q: int, r: int)
    requires 0 < d && 0 <= r < d && v == d * q + r
    ensures v / d == q
  {
    var k := v / d - q;
    assert d * k == r - v % d;
    assert k > 0 ==> d * k >= d;
    assert k < 0 ==> d * k <= -d;
  }

  lemma {:induction false} NatAppend(b: seq<Byte>, x: Byte)
    ensures Nat(b + [x]) == Nat(b) + x * Pow(|b|)
  {
    if b == [] {
      assert b + [x] == [x];
    } else {
      NatAppend(b[1..], x);
      assert (b + [x])[1..] == b[1..] + [x];
    }
  }

  function Concat(parts: seq<seq<Byte>>): seq<Byte> {
    if parts == [] then [] else Concat(parts[..|parts| - 1]) + parts[|parts| - 1]
  }

  lemma ConcatNext(parts: seq<seq<Byte>>, b: seq<Byte>)
    ensures Concat(parts + [b]) == Concat(parts) + b
  {
    assert (parts + [b])[..|parts|] == parts;
  }
}
