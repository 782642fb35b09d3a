/**
 * The few facts about C integer arithmetic (LP64, as on arm64 Linux) that
 * the benchmark bookkeeping of the DDAR request core depends on.
 */
module CArith {

  /** Largest value of a C `long` (64-bit, two's complement). */
  const LongMax: int := 0x7fff_ffff_ffff_ffff

  /** Smallest value of a C `long`. */
  const LongMin: int := -0x8000_0000_0000_0000

  predicate InLong(x: int) {
    LongMin <= x <= LongMax
  }

  function Abs(x: int): (r: nat)
    ensures r == x || r == -x
  {
    if x < 0 then -x else x
  }

  /**
   * C's signed division `a / d`, which truncates toward zero (C11 6.5.5),
   * for a positive divisor. Dafny's own `/` is Euclidean and rounds a
   * negative dividend down instead, so it differs whenever `a < 0` and `d`
   * does not divide `a`.
   */
  function TruncDiv(a: int, d: int): (q: int)
    requires d > 0
    ensures 0 <= a ==> 0 <= q * d <= a < q * d + d
    ensures a < 0 ==> q * d - d < a <= q * d <= 0
    ensures 0 <= a ==> 0 <= q <= a
    ensures a < 0 ==> a <= q <= 0
  {
    var n := Abs(a);
    var m := n / d;
    EuclidBounds(n, d);
    if a >= 0 then m else -m
  }

  /** Euclidean division of a natural number, with the bounds spelled out. */
  lemma EuclidBounds(n: nat, d: int)
    requires d > 0
    ensures 0 <= (n / d) * d <= n < (n / d) * d + d
    ensures 0 <= n / d <= n
  {
    var m := n / d;
    assert n == m * d + n % d;
    assert m >= 0;
    assert m <= m * d by { MulGrows(m, d); }
  }

  lemma MulGrows(m: nat, d: int)
    requires d > 0
    ensures m <= m * d
  {
    assert m * d == m + m * (d - 1);
  }
}
