/** Unsigned LEB128 integers as written and read by Go's encoding/binary. */
module Uvarint {
  import opened Wrappers

  type byte = x: int | 0 <= x < 256

  const UINT64_LIMIT: nat := 0x1_0000_0000_0000_0000

  /** The encoding that AppendUvarint writes. */
  function Encode(n: nat): (r: seq<byte>)
    ensures |r| > 0
  {
    if n < 0x80 then [n] else [n % 0x80 + 0x80] + Encode(n / 0x80)
  }

  /** How much a value may still hold when `i` bytes of it have been read. */
  function Room(i: nat): nat
    requires i < 10
    decreases 10 - i
  {
    if i == 9 then 2 else 0x80 * Room(i + 1)
  }

  /** What binary.Uvarint reads from byte `i` of an encoding on: a value and its size. */
  function DecodeFrom(b: seq<byte>, i: nat): (r: Option<(nat, nat)>)
    ensures r.Some? ==> 0 < r.value.1 <= |b|
  {
    if b == [] || i >= 10 then None
    else if b[0] < 0x80 then
      if i == 9 && b[0] > 1 then None else Some((b[0], 1))
    else
      match DecodeFrom(b[1..], i + 1)
      case None => None
      case Some((v, n)) => Some((b[0] - 0x80 + 0x80 * v, n + 1))
  }

  /** binary.Uvarint: nothing if the buffer is too short or the value exceeds 64 bits. */
  function Decode(b: seq<byte>): (r: Option<(nat, nat)>)
    ensures r.Some? ==> 0 < r.value.1 <= |b|
  {
    DecodeFrom(b, 0)
  }

  lemma {:induction false} RoomIsUint64()
    ensures Room(0) == UINT64_LIMIT
  {
    assert Room(8) == 0x100 && Room(7) == 0x8000 && Room(6) == 0x40_0000;
    assert Room(5) == 0x2000_0000 && Room(4) == 0x10_0000_0000 && Room(3) == 0x800_0000_0000;
    assert Room(2) == 0x4_0000_0000_0000 && Room(1) == 0x200_0000_0000_0000;
  }

  lemma {:induction false} DecodeEncodeFrom(n: nat, rest: seq<byte>, i: nat)
    requires i < 10 && n < Room(i)
    ensures DecodeFrom(Encode(n) + rest, i) == Some((n, |Encode(n)|))
    decreases n
  {
    var b := Encode(n) + rest;
    if n >= 0x80 {
      assert i < 9;
      assert b[1..] == Encode(n / 0x80) + rest;
      DecodeEncodeFrom(n / 0x80, rest, i + 1);
    }
  }

  /** Every 64-bit value is read back from its encoding, whatever follows it. */
  lemma {:induction false} DecodeEncode(n: nat, rest: seq<byte>)
    requires n < UINT64_LIMIT
    ensures Decode(Encode(n) + rest) == Some((n, |Encode(n)|))
  {
    RoomIsUint64();
    DecodeEncodeFrom(n, rest, 0);
  }

  /** SizeOfUvarint: the size of the encoding, counted by shifting. */
  method SizeOf(u64: nat) returns (n: nat)
    ensures n == |Encode(u64)|
  {
    var u := u64;
    n := 1;
    while u >= 0x80
      invariant |Encode(u64)| == n - 1 + |Encode(u)|
    {
      n := n + 1;
      u := u / 0x80;
    }
  }
}
