/**
 * Two's-complement 32-bit integers as Java's `int` and C++'s `int` (on the
 * platforms the programs target) behave: addition and multiplication keep
 * the low 32 bits of the exact result (section 15.18.2 and section 15.17.1
 * of the Java Language Specification).
 */
module Int32 {

  const TWO_32: int := 0x1_0000_0000
  const MIN: int := -0x8000_0000
  const MAX: int := 0x7fff_ffff

  type int32 = x: int | -0x8000_0000 <= x <= 0x7fff_ffff

  /** The int32 congruent to `x` modulo 2^32: what a 32-bit register holds. */
  function Wrap(x: int): (r: int32)
    ensures (r - x) % TWO_32 == 0
    ensures MIN <= x <= MAX ==> r == x
  {
    var m := x % TWO_32;
    if m > MAX then m - TWO_32 else m
  }

  /** Two values congruent modulo 2^32 wrap to the same int32. */
  lemma WrapCongruent(x: int, y: int)
    requires (x - y) % TWO_32 == 0
    ensures Wrap(x) == Wrap(y)
  {
    var rx, ry := Wrap(x), Wrap(y);
    assert (rx - ry) % TWO_32 == 0 by {
      assert rx - ry == (rx - x) + (x - y) + (y - ry);
    }
    assert -TWO_32 < rx - ry < TWO_32;
  }

  /** `a + b` on Java ints. */
  function Add(a: int32, b: int32): int32 { Wrap(a + b) }

  /** `a * b` on Java ints. */
  function Mul(a: int32, b: int32): int32 { Wrap(a * b) }

  /** Adding after wrapping is the same as wrapping after adding. */
  lemma WrapAdd(x: int, y: int)
    ensures Wrap(Wrap(x) + y) == Wrap(x + y)
  {
    WrapCongruent(Wrap(x) + y, x + y);
  }

  /** Multiplying after wrapping is the same as wrapping after multiplying. */
  lemma WrapMul(k: int, x: int)
    ensures Wrap(k * Wrap(x)) == Wrap(k * x)
  {
    var w := Wrap(x);
    var q := (w - x) / TWO_32;
    assert w - x == q * TWO_32;
    assert k * w - k * x == (k * q) * TWO_32;
    WrapCongruent(k * w, k * x);
  }

  /** The unsigned reading of the same 32 bits, as `Integer.toHexString` and
      the C++ `std::hex` insertion of an `int` use it. */
  function Unsigned(x: int32): (r: nat)
    ensures r < TWO_32 && (r - x) % TWO_32 == 0
    ensures Wrap(r) == x
  {
    if x < 0 then x + TWO_32 else x
  }
}
