// What division by a positive number means, by its quotient and remainder.
module Division {
  import opened Base

  lemma FloorIs(a: int, q: int, r: int, d: Positive)
    requires a == q * d + r && 0 <= r < d
    ensures a / d == q
  {
    var p := a / d;
    assert p * d <= a < p * d + d;
    if p > q {
      Times(q + 1, p, d);
    } else if p < q {
      Times(p + 1, q, d);
    }
  }

  lemma Times(a: int, b: int, d: Positive)
    requires a <= b
    ensures a * d <= b * d && a * d == (a - 1) * d + d
  {
  }
}
