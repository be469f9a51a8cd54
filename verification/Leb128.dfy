/** Signed LEB128 numbers (section 7.6 of DWARF Version 5) in 64-bit arithmetic: the coding, its round
    trip whatever follows the number, and its length. */
module Leb128 {
  type byte = x: int | 0 <= x < 256

  const TWO_TO_THE_64: nat := 0x1_0000_0000_0000_0000
  const INT64_MAX: int := 0x7FFF_FFFF_FFFF_FFFF

  predicate IsInt64(x: int) {
    -INT64_MAX - 1 <= x <= INT64_MAX
  }

  function ToUint64(x: int): nat {
    x % TWO_TO_THE_64
  }

  function ToInt64(x: int): (r: int)
    ensures IsInt64(r) && (IsInt64(x) ==> r == x)
  {
    var u := ToUint64(x);
    if u <= INT64_MAX then u else u - TWO_TO_THE_64
  }

  function Pow2(n: nat): (r: nat)
    ensures r > 0
  {
    if n == 0 then 1 else 2 * Pow2(n - 1)
  }

  lemma {:induction false} Pow2Add(a: nat, b: nat)
    ensures Pow2(a + b) == Pow2(a) * Pow2(b)
  {
    if b != 0 {
      Pow2Add(a, b - 1);
      calc {
        Pow2(a + b);
        2 * Pow2(a + (b - 1));
        2 * (Pow2(a) * Pow2(b - 1));
        Pow2(a) * (2 * Pow2(b - 1));
      }
    }
  }

  // The bytes of a number: seven bits each, low bits first, the sign in bit 6 of the last.
  function Encode(x: int): (r: seq<byte>)
    ensures |r| >= 1
    decreases if x < 0 then -x else x
  {
    if -0x40 <= x < 0x40 then [x % 128] else [x % 128 + 128] + Encode(x / 128)
  }

  datatype Parse<T> = Bad | Got(value: T, rest: seq<byte>)

  // What the bits of the last byte stand for.
  function SignedBits(b: nat): int {
    b % 64 - (if b / 64 % 2 == 1 then 64 else 0)
  }

  // Reading with `y` collected from the low `n` bits. A shift by 64 or more has no meaning.
  function DecodeFrom(bs: seq<byte>, n: nat, y: int): (r: Parse<int>)
    ensures r.Got? ==> |r.rest| < |bs|
  {
    if bs == [] || n >= 64 then Bad
    else if bs[0] >= 128 then DecodeFrom(bs[1..], n + 7, ToInt64(y + (bs[0] - 128) * Pow2(n)))
    else Got(ToInt64(y + SignedBits(bs[0]) * Pow2(n)), bs[1..])
  }

  function Decode(bs: seq<byte>): (r: Parse<int>)
    ensures r.Got? ==> |r.rest| < |bs|
  {
    DecodeFrom(bs, 0, 0)
  }

  // The values left to read when `n` bits are taken.
  predicate Fits(x: int, n: nat) {
    n <= 63 && 0 - Pow2(63 - n) <= x < Pow2(63 - n)
  }

  lemma Pow2Small()
    ensures Pow2(7) == 128
  {
    assert Pow2(3) == 8;
  }

  lemma Pow2Values()
    ensures Pow2(7) == 128 && Pow2(63) == INT64_MAX + 1
  {
    hide Pow2;
    Pow2Small();
    Pow2Add(7, 7);
    Pow2Add(14, 14);
    Pow2Add(28, 28);
    Pow2Add(56, 7);
  }

  lemma Scaled(x: int, y: int, n: nat)
    requires Fits(x, n) && 0 <= y < Pow2(n)
    ensures n <= 63 && ToInt64(y + x * Pow2(n)) == y + x * Pow2(n)
  {
    hide ToInt64, Pow2;
    Pow2Add(63 - n, n);
    Pow2Values();
    ScaledBy(x, y, Pow2(n), Pow2(63 - n));
  }

  lemma ScaledBy(x: int, y: int, p: nat, q: nat)
    requires 0 - q <= x <= q - 1 && 0 <= y < p
    ensures 0 - q * p <= y + x * p < q * p
  {
    MulMono(0 - q, x, p);
    MulMono(x, q - 1, p);
    assert (q - 1) * p == q * p - p;
  }

  lemma MulMono(a: int, b: int, p: nat)
    requires a <= b
    ensures a * p <= b * p
  {
  }

  // What is left after seven more bits.
  lemma FitsStep(x: int, n: nat)
    requires Fits(x, n) && n % 7 == 0 && !(-0x40 <= x < 0x40)
    ensures n + 7 <= 63 && Fits(x / 128, n + 7)
  {
    Pow2Values();
    assert Pow2(0) == 1;
    assert n < 63;
    Pow2Add(63 - n - 7, 7);
  }

  // Bytes that follow a number are left alone, and 64-bit wrap-around does no harm.
  lemma {:induction false} DecodeEncodeFrom(x: int, rest: seq<byte>, n: nat, y: int)
    requires Fits(x, n) && n % 7 == 0 && 0 <= y < Pow2(n)
    ensures DecodeFrom(Encode(x) + rest, n, y) == Got(y + x * Pow2(n), rest)
    decreases if x < 0 then -x else x
  {
    hide Pow2, Encode, DecodeFrom, ToInt64, Fits;
    Scaled(x, y, n);
    if -0x40 <= x < 0x40 {
      LastByte(x, rest, n, y);
    } else {
      FitsStep(x, n);
      var p, lo, hi := Pow2(n), x % 128, x / 128;
      Pow2Add(n, 7);
      Pow2Values();
      var y' := y + lo * p;
      Carry(x, y, p);
      FitsZero(n + 7);
      Scaled(0, y', n + 7);
      OneByte(x, rest, n, y);
      DecodeEncodeFrom(hi, rest, n + 7, y');
    }
  }

  lemma FitsZero(n: nat)
    requires n <= 63
    ensures Fits(0, n)
  {
  }

  lemma LastByte(x: int, rest: seq<byte>, n: nat, y: int)
    requires -0x40 <= x < 0x40 && n < 64
    ensures DecodeFrom(Encode(x) + rest, n, y) == Got(ToInt64(y + x * Pow2(n)), rest)
  {
    hide ToInt64, Pow2;
    assert (Encode(x) + rest)[1..] == rest;
    assert SignedBits(Encode(x)[0]) == x;
  }

  lemma OneByte(x: int, rest: seq<byte>, n: nat, y: int)
    requires !(-0x40 <= x < 0x40) && n < 64
    ensures DecodeFrom(Encode(x) + rest, n, y) == DecodeFrom(Encode(x / 128) + rest, n + 7, ToInt64(y + x % 128 * Pow2(n)))
  {
    hide ToInt64, Pow2;
    assert (Encode(x) + rest)[1..] == Encode(x / 128) + rest;
  }

  // Seven bits move from what is left to what is collected.
  lemma Carry(x: int, y: int, p: nat)
    requires 0 <= y < p
    ensures 0 <= y + x % 128 * p < p * 128 && y + x % 128 * p + x / 128 * (p * 128) == y + x * p
  {
    var lo, hi := x % 128, x / 128;
    MulMono(0, lo, p);
    MulMono(lo, 127, p);
    calc {
      y + lo * p + hi * (p * 128);
      y + (lo + hi * 128) * p;
      y + x * p;
    }
  }

  lemma DecodeEncode(x: int, rest: seq<byte>)
    requires IsInt64(x)
    ensures Decode(Encode(x) + rest) == Got(x, rest)
  {
    Pow2Values();
    assert Pow2(0) == 1;
    DecodeEncodeFrom(x, rest, 0, 0);
  }

  // No other number's bytes start with those of `x`.
  lemma PrefixFree(x: int, y: int, more: seq<byte>)
    requires IsInt64(x) && IsInt64(y) && Encode(x) + more == Encode(y)
    ensures x == y && more == []
  {
    DecodeEncode(x, more);
    DecodeEncode(y, []);
    assert Encode(y) + [] == Encode(y);
  }

  // -------- The bytes

  // Seven bits of each byte, the first byte the lowest.
  function Groups(bs: seq<byte>): nat {
    if bs == [] then 0 else bs[0] % 128 + 128 * Groups(bs[1..])
  }

  // Bit 7 is on in all bytes but the last.
  predicate Marked(bs: seq<byte>) {
    bs != [] && forall i :: 0 <= i < |bs| ==> (bs[i] >= 128 <==> i < |bs| - 1)
  }

  // The value of groups in two's complement: the sign is bit 6 of the last byte.
  function Signed(bs: seq<byte>): int
    requires bs != []
  {
    Groups(bs) - if bs[|bs| - 1] / 64 % 2 == 1 then Pow2(7 * |bs|) else 0
  }

  // The groups are the number in two's complement.
  lemma {:induction false} EncodeIs(x: int)
    ensures Marked(Encode(x)) && Signed(Encode(x)) == x
    decreases if x < 0 then -x else x
  {
    hide Signed, Marked;
    if -0x40 <= x < 0x40 {
      LastGroup(x);
    } else {
      EncodeIs(x / 128);
      MoreGroups(x % 128, Encode(x / 128));
      assert x == x % 128 + 128 * (x / 128);
    }
  }

  lemma LastGroup(x: int)
    requires -0x40 <= x < 0x40
    ensures Marked([x % 128]) && Signed([x % 128]) == x
  {
    var r := [x % 128];
    assert Groups(r[1..]) == 0;
    Pow2Small();
  }

  lemma MoreGroups(lo: nat, bs: seq<byte>)
    requires lo < 128 && Marked(bs)
    ensures Marked([lo + 128] + bs) && Signed([lo + 128] + bs) == lo + 128 * Signed(bs)
  {
    hide Pow2;
    var r := [lo + 128] + bs;
    Sevens(|bs|);
    assert r[1..] == bs && r[|bs|] == bs[|bs| - 1];
  }

  lemma Sevens(m: nat)
    ensures Pow2(7 * (m + 1)) == 128 * Pow2(7 * m)
  {
    hide Pow2;
    Pow2Add(7 * m, 7);
    Pow2Small();
  }

  // The examples of table 7.8 of DWARF Version 5.
  lemma Examples()
    ensures Encode(2) == [2] && Encode(-2) == [0x7e] && Encode(127) == [0x7f + 0x80, 0] && Encode(-127) == [1 + 0x80, 0x7f]
    ensures Encode(128) == [0 + 0x80, 1] && Encode(-128) == [0 + 0x80, 0x7f] && Encode(129) == [1 + 0x80, 1]
    ensures Encode(-129) == [0x7f + 0x80, 0x7e]
  {
  }

  // `k` groups of seven bits hold `x` and its sign.
  predicate Holds(x: int, k: nat) {
    k >= 1 && 0 - Pow2(7 * k - 1) <= x < Pow2(7 * k - 1)
  }

  // The coding uses the least number of groups.
  lemma {:induction false} Shortest(x: int)
    ensures Holds(x, |Encode(x)|) && forall k :: Holds(x, k) ==> |Encode(x)| <= k
    decreases if x < 0 then -x else x
  {
    assert Pow2(6) == 0x40;
    if !(-0x40 <= x < 0x40) {
      var hi, m := x / 128, |Encode(x / 128)|;
      Shortest(hi);
      Pow2Add(7 * m - 1, 7);
      Pow2Values();
      assert Pow2(7 * (m + 1) - 1) == Pow2(7 * m - 1) * 128;
      forall k: nat | Holds(x, k)
        ensures m + 1 <= k
      {
        assert k != 1;
        assert k >= 2;
        Pow2Add(7 * (k - 1) - 1, 7);
        assert Holds(hi, k - 1);
      }
    }
  }

  lemma AtMostTen(x: int)
    requires IsInt64(x)
    ensures |Encode(x)| <= 10
  {
    Shortest(x);
    Pow2Values();
    Pow2Add(63, 6);
    assert Pow2(6) == 64;
    assert Holds(x, 10);
  }
}
