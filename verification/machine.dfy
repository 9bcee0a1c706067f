/** Fixed-width machine arithmetic of the regulator's C types, written out over unbounded integers. */
module Machine {

  const U64: int := 0x1_0000_0000_0000_0000
  const S64: int := 0x8000_0000_0000_0000
  const U32: int := 0x1_0000_0000
  const S32: int := 0x8000_0000

  /** The low 64 bits: what storing an integer in a u64 keeps. */
  function Low64(x: int): (r: nat) { x % 0x1_0000_0000_0000_0000 }

  /** Unsigned 64-bit subtraction, which wraps below zero. */
  function Sub64(a: nat, b: nat): (r: nat) { Low64(a - b) }

  /** Two's-complement reading of a u64 as an s64. */
  function ToS64(x: nat): int { if x < 0x8000_0000_0000_0000 then x else x - 0x1_0000_0000_0000_0000 }

  /** Two's-complement truncation to a C int. */
  function ToS32(x: int): int { (x + 0x8000_0000) % 0x1_0000_0000 - 0x8000_0000 }

  /** The values that an unsigned 64-bit difference of two C ints can have. */
  predicate IntDifference(x: nat) { x < U32 || U64 - U32 < x < U64 }

  /** C's conversion of a double to an integer: the fraction is dropped, towards zero. */
  function Truncate(x: real): (r: int)
  {
    if x >= 0.0 then x.Floor else -((-x).Floor)
  }

  /** The doubles whose conversion to int is defined in C. */
  predicate FitsInt(x: real) { -((S32 + 1) as real) < x < S32 as real }

  /** Truncation loses less than one, towards zero. */
  lemma TruncateDropsFraction(x: real)
    ensures x >= 0.0 ==> x - 1.0 < Truncate(x) as real <= x
    ensures x <= 0.0 ==> x <= Truncate(x) as real < x + 1.0
  {
  }

  /** The conversion is defined exactly for the doubles whose truncation is a C int. */
  lemma FitsIntIff(x: real)
    ensures FitsInt(x) <==> -S32 <= Truncate(x) < S32
  {
  }

  function Abs(x: int): nat { if x < 0 then -x else x }

  function AbsReal(x: real): (a: real)
    ensures a >= 0.0
  {
    if x < 0.0 then -x else x
  }

  function Min(a: int, b: int): int { if a <= b then a else b }

  lemma LowIdentity(x: nat)
    requires x < U64
    ensures Low64(x) == x
  {
  }

  /** Signed values survive the detour through u64, also after an unsigned addition. */
  lemma SignedRoundTrip(x: int, y: nat)
    requires -S64 <= x && x + y < S64
    ensures ToS64(Low64(Low64(x) + y)) == x + y
  {
  }
}
