/** An optional value, and the few facts about products and quotients that several modules need. */
module Basics {

  datatype Option<+T> = None | Some(value: T)

  lemma MultiplyMonotone(k: nat, x: int, y: int)
    requires x <= y
    ensures k * x <= k * y && x * k <= y * k
  {
    assert k * (y - x) >= 0;
  }

  /** Division rounds down by less than one unit. */
  lemma Floor(x: int, d: int)
    requires d > 0
    ensures d * (x / d) <= x < d * (x / d) + d
  {
    assert x == d * (x / d) + x % d;
  }

  lemma DivideMonotone(a: int, b: int, d: int)
    requires a <= b && 0 < d
    ensures a / d <= b / d
  {
    BelowQuotient(a / d, b, d);
    Floor(a, d);
  }

  /** The largest whole number of units that fits. */
  lemma BelowQuotient(q: int, x: int, d: int)
    requires d > 0
    ensures q <= x / d <==> q * d <= x
  {
    var p := x / d;
    Floor(x, d);
    if q <= p {
      MultiplyMonotone(d, q, p);
    } else {
      MultiplyMonotone(d, p + 1, q);
      assert d * (p + 1) == d * p + d;
    }
  }
}
