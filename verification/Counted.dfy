/** Counted integers: little-endian bytes without trailing zeros, with a sign bit for signed values. */
module Counted {
  import opened Uvarint

  const INT64_LIMIT: int := 0x8000_0000_0000_0000

  type int64 = i: int | -INT64_LIMIT <= i < INT64_LIMIT
  type uint64 = u: int | 0 <= u < UINT64_LIMIT

  /** The base-256 digits of `u`, lowest first. */
  function Digits(u: nat): seq<byte> {
    if u == 0 then [] else [u % 256] + Digits(u / 256)
  }

  function Value(b: seq<byte>): nat {
    if b == [] then 0 else b[0] + 256 * Value(b[1..])
  }

  /** What the signed encoding stores: twice the magnitude, plus one if negative, in 64 bits. */
  function Fold(i: int64): (u: uint64) {
    if i >= 0 then (2 * i) % UINT64_LIMIT
    else (2 * (Negated(i) % UINT64_LIMIT) + 1) % UINT64_LIMIT
  }

  /** -i in 64-bit two's complement, where the minimum value is its own negation. */
  function Negated(i: int64): int64 {
    if i == -INT64_LIMIT then i else -i
  }

  function Unfold(u: uint64): (i: int64) {
    if u % 2 == 1 then (if u / 2 == 0 then -INT64_LIMIT else -(u / 2)) else u / 2
  }

  /** The minimal byte strings of at most eight bytes. */
  ghost predicate Canonical(b: seq<byte>) {
    |b| <= 8 && (b != [] ==> b[|b| - 1] != 0)
  }

  // ---------------------------------------------------------------------------

  lemma {:induction false} ValueOfDigits(u: nat)
    ensures Value(Digits(u)) == u
  {
    if u != 0 {
      ValueOfDigits(u / 256);
      assert Digits(u)[1..] == Digits(u / 256);
    }
  }

  lemma {:induction false} DivMod256(d: byte, v: nat)
    ensures (d + 256 * v) % 256 == d && (d + 256 * v) / 256 == v
  {
  }

  lemma {:induction false} DigitsOfValue(b: seq<byte>)
    requires b != [] ==> b[|b| - 1] != 0
    ensures Digits(Value(b)) == b
    decreases |b|
  {
    if b != [] {
      var tail := b[1..];
      if tail != [] {
        assert tail[|tail| - 1] == b[|b| - 1];
      }
      DigitsOfValue(tail);
      DivMod256(b[0], Value(tail));
      assert Value(b) != 0;
      assert Digits(Value(b)) == [b[0]] + tail;
    }
  }

  /** 256 to the power n. */
  function Pow256(n: nat): (p: nat)
    ensures p > 0
  {
    if n == 0 then 1 else 256 * Pow256(n - 1)
  }

  lemma {:induction false} ValueBound(b: seq<byte>)
    ensures Value(b) < Pow256(|b|)
    ensures b != [] && b[|b| - 1] != 0 ==> Value(b) >= Pow256(|b| - 1)
    decreases |b|
  {
    if b != [] {
      ValueBound(b[1..]);
      if |b| > 1 {
        assert b[1..][|b| - 2] == b[|b| - 1];
      }
    }
  }

  lemma {:induction false} Pow256Of8()
    ensures Pow256(8) == UINT64_LIMIT
  {
    assert Pow256(4) == 0x1_0000_0000;
    assert Pow256(5) == 0x100_0000_0000 && Pow256(6) == 0x1_0000_0000_0000 && Pow256(7) == 0x100_0000_0000_0000;
  }

  lemma {:induction false} PowMonotone(m: nat, n: nat)
    requires m <= n
    ensures Pow256(m) <= Pow256(n)
  {
    if m < n {
      PowMonotone(m, n - 1);
    }
  }

  lemma {:induction false} DigitsEndNonZero(u: nat)
    ensures Digits(u) != [] ==> Digits(u)[|Digits(u)| - 1] != 0
  {
    if u != 0 {
      DigitsEndNonZero(u / 256);
    }
  }

  /** The digits of 64-bit values are exactly the canonical strings. */
  lemma {:induction false} DigitsAreCanonical(u: uint64)
    ensures Canonical(Digits(u))
  {
    DigitsEndNonZero(u);
    ValueOfDigits(u);
    ValueBound(Digits(u));
    Pow256Of8();
    if |Digits(u)| > 8 {
      PowMonotone(8, |Digits(u)| - 1);
    }
  }

  lemma {:induction false} CanonicalIsUint64(b: seq<byte>)
    requires Canonical(b)
    ensures Value(b) < UINT64_LIMIT && Digits(Value(b)) == b
  {
    DigitsOfValue(b);
    ValueBound(b);
    Pow256Of8();
    PowMonotone(|b|, 8);
  }

  lemma {:induction false} UnfoldFold(i: int64)
    ensures Unfold(Fold(i)) == i
  {
    if i < 0 && i != -INT64_LIMIT {
      assert Negated(i) % UINT64_LIMIT == -i;
      assert Fold(i) == 2 * -i + 1;
    } else if i == -INT64_LIMIT {
      assert Negated(i) % UINT64_LIMIT == INT64_LIMIT;
      assert Fold(i) == 1;
    }
  }

  lemma {:induction false} FoldUnfold(u: uint64)
    ensures Fold(Unfold(u)) == u
  {
    var i := Unfold(u);
    if u % 2 == 1 && u / 2 != 0 {
      assert Negated(i) % UINT64_LIMIT == u / 2;
    } else if u % 2 == 1 {
      assert u == 1;
      assert Negated(i) % UINT64_LIMIT == INT64_LIMIT;
    }
  }

  /**
   The signed encoding is a bijection between the 64-bit integers, the minimum
   value included, and the canonical byte strings.
   */
  lemma {:induction false} SignedBijection(i: int64, b: seq<byte>)
    ensures Canonical(Digits(Fold(i))) && Value(Digits(Fold(i))) < UINT64_LIMIT && Unfold(Value(Digits(Fold(i)))) == i
    ensures Canonical(b) ==> Value(b) < UINT64_LIMIT && Digits(Fold(Unfold(Value(b)))) == b
  {
    DigitsAreCanonical(Fold(i));
    ValueOfDigits(Fold(i));
    UnfoldFold(i);
    if Canonical(b) {
      CanonicalIsUint64(b);
      FoldUnfold(Value(b));
    }
  }

  // ---------------------------------------------------------------------------
  // The codecs themselves

  lemma {:induction false} ValueOfTail(b: seq<byte>, n: nat)
    requires n < |b|
    ensures Value(b[n..]) == b[n] + 256 * Value(b[n + 1..])
  {
    assert b[n..][1..] == b[n + 1..];
  }

  lemma {:induction false} ShiftMod(v: nat, d: byte)
    ensures ((v % UINT64_LIMIT) * 256) % UINT64_LIMIT + d < UINT64_LIMIT
    ensures ((v % UINT64_LIMIT) * 256) % UINT64_LIMIT + d == (d + 256 * v) % UINT64_LIMIT
  {
    var q, r := v / UINT64_LIMIT, v % UINT64_LIMIT;
    assert v == q * UINT64_LIMIT + r;
    var high, low := r / 0x100_0000_0000_0000, r % 0x100_0000_0000_0000;
    assert r * 256 == high * UINT64_LIMIT + low * 256;
    assert d + 256 * v == (256 * q + high) * UINT64_LIMIT + (low * 256 + d);
    assert 0 <= low * 256 + d < UINT64_LIMIT;
  }

  /** DecodeCountedUvarint: shifts the bytes in from the last to the first, dropping what leaves 64 bits. */
  method DecodeUvarint(b: seq<byte>) returns (u64: uint64)
    ensures u64 == Value(b) % UINT64_LIMIT
    ensures Canonical(b) ==> u64 == Value(b)
  {
    var n := |b|;
    u64 := 0;
    assert b[n..] == [];
    while n > 0
      invariant 0 <= n <= |b|
      invariant u64 == Value(b[n..]) % UINT64_LIMIT
    {
      n := n - 1;
      ValueOfTail(b, n);
      ShiftMod(Value(b[n + 1..]), b[n]);
      u64 := (u64 * 256) % UINT64_LIMIT + b[n];
    }
    assert b[0..] == b;
    if Canonical(b) {
      CanonicalIsUint64(b);
    }
  }

  /** EncodeCountedUvarint: writes the digits to the front of `dst`, which must have room for them. */
  method EncodeUvarint(dst: array<byte>, u64: uint64) returns (n: nat)
    requires |Digits(u64)| <= dst.Length
    modifies dst
    ensures n == |Digits(u64)| && dst[..n] == Digits(u64)
    ensures dst[n..] == old(dst[n..])
  {
    var u := u64;
    n := 0;
    while u != 0
      invariant n + |Digits(u)| == |Digits(u64)| <= dst.Length
      invariant dst[..n] + Digits(u) == Digits(u64)
      invariant dst[n..] == old(dst[n..])
    {
      dst[n] := u % 256;
      assert dst[..n + 1] == dst[..n] + [u % 256];
      u := u / 256;
      n := n + 1;
    }
  }

  method AppendUvarint(dst: seq<byte>, u64: uint64) returns (r: seq<byte>)
    ensures r == dst + Digits(u64)
  {
    var u := u64;
    r := dst;
    while u != 0
      invariant r + Digits(u) == dst + Digits(u64)
    {
      r := r + [u % 256];
      u := u / 256;
    }
  }

  method AppendVarint(dst: seq<byte>, i: int64) returns (r: seq<byte>)
    ensures r == dst + Digits(Fold(i))
  {
    r := AppendUvarint(dst, Fold(i));
  }

  method DecodeVarint(b: seq<byte>) returns (i: int64)
    ensures i == Unfold(Value(b) % UINT64_LIMIT)
    ensures forall j: int64 :: b == Digits(Fold(j)) ==> i == j
  {
    var u := DecodeUvarint(b);
    i := Unfold(u);
    forall j: int64 | b == Digits(Fold(j)) ensures i == j {
      SignedBijection(j, b);
      ValueOfDigits(Fold(j));
    }
  }
}
