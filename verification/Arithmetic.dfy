/** Division by a variable divisor. */
module Arithmetic {

  lemma {:induction false} MulAtLeast(m: int, d: int)
    requires d > 0
    ensures m >= 1 ==> m * d >= d
    ensures m <= -1 ==> m * d <= -d
  {
    assert m * d == (m - 1) * d + d && m * d == (m + 1) * d - d;
  }

  lemma {:induction false} DivMonotone(a: int, b: int, d: int)
    requires d > 0 && a <= b
    ensures a / d <= b / d
  {
    var m := a / d - b / d;
    assert m * d == (a / d) * d - (b / d) * d;
    MulAtLeast(m, d);
  }

  lemma {:induction false} DivShift(x: int, k: int, d: int)
    requires d > 0
    ensures (x + k * d) / d == x / d + k
  {
    var q, q' := x / d, (x + k * d) / d;
    var m := q' - q - k;
    assert m * d == q' * d - q * d - k * d;
    assert x == q * d + x % d;
    assert x + k * d == q' * d + (x + k * d) % d;
    MulAtLeast(m, d);
  }

  lemma {:induction false} DivAtLeast(x: int, k: int, d: int)
    requires d > 0
    ensures x / d >= k <==> x >= k * d
  {
    var m := x / d - k;
    assert m * d == (x / d) * d - k * d;
    assert x == (x / d) * d + x % d;
    MulAtLeast(m, d);
  }

  /** Rounding down to a multiple. */
  lemma {:induction false} RoundsDown(x: int, d: int)
    requires d > 0
    ensures x - x % d == x / d * d && 0 <= x - x / d * d < d
    ensures (x - x % d) % d == 0 && (x - x % d + d) % d == 0
  {
    var q := x / d;
    assert x == q * d + x % d;
    MultipleLeavesNone(q, d);
    MultipleLeavesNone(q + 1, d);
    assert (q + 1) * d == q * d + d;
  }

  lemma {:induction false} MultipleLeavesNone(k: int, d: int)
    requires d > 0
    ensures k * d % d == 0
  {
    DivShift(0, k, d);
    var x := 0 + k * d;
    assert x == x / d * d + x % d;
  }
}
