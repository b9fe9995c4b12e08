/**
 * The C integer semantics the interpreter relies on: fixed-width wrap-around
 * on conversion, `/` and `%` truncating toward zero, the `(long)` cast of a
 * double, and 64-bit bitwise operators and shifts.
 */
module CInt {
  const Two8: int := 0x100
  const Two32: int := 0x1_0000_0000
  const Two64: int := 0x1_0000_0000_0000_0000
  const LongMin: int := -0x8000_0000_0000_0000
  const LongMax: int := 0x7FFF_FFFF_FFFF_FFFF

  predicate IsLong(x: int) { LongMin <= x <= LongMax }

  /** Conversion to int32_t: the value in [-2^31, 2^31) congruent to x modulo 2^32. */
  function Wrap32(x: int): (r: int)
    ensures -0x8000_0000 <= r < 0x8000_0000
    ensures (x - r) % Two32 == 0
    ensures -0x8000_0000 <= x < 0x8000_0000 ==> r == x
  {
    var m := x % Two32;
    if m >= 0x8000_0000 then m - Two32 else m
  }

  /** Conversion to a 64-bit long: the value in [LongMin, LongMax] congruent to x modulo 2^64. */
  function Wrap64(x: int): (r: int)
    ensures IsLong(r)
    ensures (x - r) % Two64 == 0
    ensures IsLong(x) ==> r == x
  {
    var m := x % Two64;
    if m > LongMax then m - Two64 else m
  }

  /** The low eight bits of x, as a cast to uint8_t keeps them. */
  function Low8(x: int): (r: int)
    ensures 0 <= r < Two8 && (x - r) % Two8 == 0
  {
    x % Two8
  }

  function Abs(x: int): nat { if x < 0 then -x else x }

  /** C's integer `/`: the quotient truncated toward zero. */
  function Quot(a: int, b: int): (q: int)
    requires b != 0
    ensures Abs(q * b) <= Abs(a) < Abs(q * b) + Abs(b)
    ensures q == 0 || ((q < 0) == ((a < 0) != (b < 0)))
  {
    var q0 := Abs(a) / Abs(b);
    var q := if (a < 0) == (b < 0) then q0 else -q0;
    QuotFacts(a, b, q0, q);
    q
  }

  lemma {:induction false} QuotFacts(a: int, b: int, q0: int, q: int)
    requires b != 0 && q0 == Abs(a) / Abs(b)
    requires q == if (a < 0) == (b < 0) then q0 else -q0
    ensures Abs(q * b) <= Abs(a) < Abs(q * b) + Abs(b)
    ensures q == 0 || ((q < 0) == ((a < 0) != (b < 0)))
  {
    DivBounds(Abs(a), Abs(b));
    AbsMul(q, b);
    assert Abs(q) == q0;
  }

  lemma {:induction false} DivBounds(x: nat, y: nat)
    requires y > 0
    ensures (x / y) * y <= x < (x / y) * y + y
  {}

  lemma {:induction false} AbsMul(q: int, b: int)
    ensures Abs(q * b) == Abs(q) * Abs(b)
  {
    if q < 0 && b < 0 { assert q * b == (-q) * (-b); }
    else if q < 0 { assert q * b == -((-q) * b); }
    else if b < 0 { assert q * b == -(q * (-b)); }
  }

  /** C's integer `%`: a - Quot(a, b) * b, which takes the sign of the dividend. */
  function Rem(a: int, b: int): (r: int)
    requires b != 0
    ensures Abs(r) < Abs(b)
    ensures r == 0 || ((r < 0) == (a < 0))
    ensures a == Quot(a, b) * b + r
  {
    var r := Abs(a) % Abs(b);
    var s := if a < 0 then -r else r;
    assert Abs(a) == (Abs(a) / Abs(b)) * Abs(b) + r;
    s
  }

  /** The `(long)` cast of a double holding the exact value v: truncation toward zero. */
  function Trunc(v: real): (n: int)
    ensures Abs(n) as real <= (if v < 0.0 then -v else v) < Abs(n) as real + 1.0
    ensures n == 0 || ((n < 0) == (v < 0.0))
  {
    if v >= 0.0 then v.Floor else -((-v).Floor)
  }

  function Pow2(n: nat): (p: nat)
    ensures p >= 1
  {
    if n == 0 then 1 else 2 * Pow2(n - 1)
  }

  lemma {:induction false} Pow2Bytes()
    ensures Pow2(8) == 0x100 && Pow2(16) == 0x1_0000
  {
    assert Pow2(4) == 16;
    assert Pow2(8) == 16 * Pow2(4) by { assert Pow2(8) == 2 * 2 * 2 * 2 * Pow2(4); }
    assert Pow2(12) == 16 * Pow2(8) by { assert Pow2(12) == 2 * 2 * 2 * 2 * Pow2(8); }
    assert Pow2(16) == 16 * Pow2(12) by { assert Pow2(16) == 2 * 2 * 2 * 2 * Pow2(12); }
  }

  function ToBits(x: int): bv64
  {
    (x % Two64) as bv64
  }

  function FromBits(b: bv64): (r: int)
    ensures IsLong(r)
  {
    Wrap64(b as int)
  }

  /** `a & b` on longs, two's complement. */
  function BitAnd(a: int, b: int): (r: int)
    ensures IsLong(r)
  {
    FromBits(ToBits(a) & ToBits(b))
  }

  /** `a | b` on longs, two's complement. */
  function BitOr(a: int, b: int): (r: int)
    ensures IsLong(r)
  {
    FromBits(ToBits(a) | ToBits(b))
  }

  /** `a ^ b` on longs, two's complement. */
  function BitXor(a: int, b: int): (r: int)
    ensures IsLong(r)
  {
    FromBits(ToBits(a) ^ ToBits(b))
  }

  /** Bitwise `|` on non-negative integers, bit by bit from the lowest. */
  function NatOr(x: nat, y: nat): (r: nat)
    decreases x + y
  {
    if x == 0 then y
    else if y == 0 then x
    else 2 * NatOr(x / 2, y / 2) + (if x % 2 == 1 || y % 2 == 1 then 1 else 0)
  }

  /** Or-ing two n-bit values gives an n-bit value. */
  lemma {:induction false} NatOrBound(x: nat, y: nat, n: nat)
    requires x < Pow2(n) && y < Pow2(n)
    ensures NatOr(x, y) < Pow2(n)
    decreases n
  {
    if x != 0 && y != 0 {
      NatOrBound(x / 2, y / 2, n - 1);
    }
  }

  /** Or-ing a value shifted left by n with an n-bit value is addition: the bits do not overlap. */
  lemma {:induction false} NatOrDisjoint(x: nat, y: nat, n: nat)
    requires y < Pow2(n)
    ensures NatOr(x * Pow2(n), y) == x * Pow2(n) + y
    decreases n
  {
    if x != 0 && y != 0 {
      assert n > 0;
      var h := x * Pow2(n - 1);
      assert x * Pow2(n) == 2 * h;
      assert (2 * h) / 2 == h && (2 * h) % 2 == 0;
      NatOrDisjoint(x, y / 2, n - 1);
    }
  }

  /** `a << n` on a long with 0 <= n < 64, wrapping as the hardware does; other counts are undefined in C. */
  function ShiftLeft(a: int, n: nat): (r: int)
    requires n < 64
    ensures IsLong(r) && (a * Pow2(n) - r) % Two64 == 0
  {
    Wrap64(a * Pow2(n))
  }

  /** `a >> n` on a long with 0 <= n < 64: an arithmetic shift, i.e. the floor of a / 2^n. */
  function ShiftRight(a: int, n: nat): (r: int)
    requires n < 64
    ensures r * Pow2(n) <= a < r * Pow2(n) + Pow2(n)
  {
    a / Pow2(n)
  }
}
