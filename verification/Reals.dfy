/** Order facts about products and quotients of reals. */
module Reals {

  function Max(a: real, b: real): real {
    if a < b then b else a
  }

  function Min(a: real, b: real): real {
    if b < a then b else a
  }

  lemma Positive(x: real, y: real)
    requires x > 0.0 && y > 0.0
    ensures x * y > 0.0
  {
  }

  /** The product as a value of its own. */
  lemma Product(x: real, y: real) returns (w: real)
    requires x > 0.0 && y > 0.0
    ensures w > 0.0 && w == x * y
  {
    w := x * y;
  }

  lemma NonNegative(x: real, y: real)
    requires x >= 0.0 && y >= 0.0
    ensures x * y >= 0.0
  {
  }

  lemma Scale(x: real, y: real, d: real)
    requires d > 0.0
    ensures x < y <==> x * d < y * d
    ensures x == y <==> x * d == y * d
  {
    assert y * d - x * d == (y - x) * d;
    if x < y { Positive(y - x, d); }
    if y < x { Positive(x - y, d); assert x * d - y * d == (x - y) * d; }
  }

  lemma SquareOrder(x: real, y: real)
    requires y >= 0.0 && x * x <= y * y
    ensures x <= y
  {
    assert (x - y) * (x + y) == x * x - y * y;
    if x > y { Positive(x - y, x + y); }
  }

  lemma DivideOrder(x: real, y: real, d: real)
    requires d > 0.0
    ensures x <= y * d <==> x / d <= y
    ensures y * d <= x <==> y <= x / d
  {
    var q := x / d;
    assert q * d == x;
    Scale(q, y, d);
    Scale(y, q, d);
  }
}
