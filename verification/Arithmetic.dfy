/** Facts about division with a variable divisor that the solver does not find by itself. */
module Arithmetic {

  lemma ScaleMonotone(a: nat, b: nat, w: nat)
    requires a <= b
    ensures a * w <= b * w
  {
  }

  lemma DivModUnique(a: int, q: int, r: int, m: int)
    requires m > 0 && a == m * q + r && 0 <= r < m
    ensures a / m == q && a % m == r
  {
    var d := q - a / m;
    assert m * d == a % m - r by {
      assert m * d == m * q - m * (a / m);
    }
    assert d >= 1 ==> m * d >= m;
    assert d <= -1 ==> m * d <= -m;
  }

  /** Two numbers less than `m` apart have different remainders. */
  lemma DistinctRemainders(a: nat, b: nat, m: nat)
    requires m > 0 && a < b < a + m
    ensures a % m != b % m
  {
    var d := b / m - a / m;
    assert m * d == (b - a) - (b % m - a % m) by {
      assert m * d == m * (b / m) - m * (a / m);
    }
  }
}
