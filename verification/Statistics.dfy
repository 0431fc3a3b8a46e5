/** The Wilson interval and the minimum detectable effect, in exact reals.  A square root is any value
    r >= 0 whose square is the radicand. */
module Statistics {
  import opened Reals

  datatype WilsonInterval = WilsonInterval(proportion: real, lower: real, upper: real, n: nat, successes: nat, z: real)

  predicate IsRoot(r: real, x: real) {
    r >= 0.0 && r * r == x
  }

  function Proportion(successes: nat, n: nat): real
    requires n > 0
  {
    successes as real / n as real
  }

  /** The three terms of the interval, for a proportion p of m trials. */
  function RadicandOf(p: real, m: real, z: real): real
    requires m > 0.0
  {
    (p * (1.0 - p) + z * z / (4.0 * m)) / m
  }

  function DenominatorOf(m: real, z: real): real
    requires m > 0.0
    ensures DenominatorOf(m, z) >= 1.0
  {
    assert z * z >= 0.0;
    1.0 + z * z / m
  }

  function CentreOf(p: real, m: real, z: real): real
    requires m > 0.0
  {
    p + z * z / (2.0 * m)
  }

  function Radicand(successes: nat, n: nat, z: real): real
    requires n > 0
  {
    RadicandOf(Proportion(successes, n), n as real, z)
  }

  function Denominator(n: nat, z: real): real
    requires n > 0
    ensures Denominator(n, z) >= 1.0
  {
    DenominatorOf(n as real, z)
  }

  function Centre(successes: nat, n: nat, z: real): real
    requires n > 0
  {
    CentreOf(Proportion(successes, n), n as real, z)
  }

  /** `wilson_ci` for a known z, where `root` is the square root taken when n > 0. */
  function WilsonCi(successes: nat, n: nat, z: real, root: real): WilsonInterval {
    if n == 0 then WilsonInterval(0.0, 0.0, 1.0, 0, 0, 0.0)
    else
      var spread := z * root;
      WilsonInterval(Proportion(successes, n),
                     Max(0.0, (Centre(successes, n, z) - spread) / Denominator(n, z)),
                     Min(1.0, (Centre(successes, n, z) + spread) / Denominator(n, z)),
                     n, successes, z)
  }

  function MinimumDetectableEffect(n: nat, z: real, root: real): real {
    if n == 0 then 1.0 else z * root * 2.0
  }

  /** The effect is the positive number whose square is z*z/n. */
  lemma EffectSquared(n: nat, z: real, root: real)
    requires n > 0 && z > 0.0 && IsRoot(root, 0.25 / n as real)
    ensures MinimumDetectableEffect(n, z, root) >= 0.0
    ensures MinimumDetectableEffect(n, z, root) * MinimumDetectableEffect(n, z, root) == z * z / n as real
    ensures MinimumDetectableEffect(0, z, root) == 1.0
  {
    var e := z * root;
    NonNegative(z, root);
    HalfWidth(n as real, z, z * z / n as real, root);
    assert (e * 2.0) * (e * 2.0) == 4.0 * (e * e);
  }

  // ---- The algebra, with a = z*z/n ---------------------------------------------------------------------

  /** The spread's square. */
  lemma SpreadSquare(p: real, a: real, n: real, z: real, root: real)
    requires n > 0.0 && a == z * z / n
    requires root * root == (p * (1.0 - p) + z * z / (4.0 * n)) / n
    ensures (z * root) * (z * root) == a * (p * (1.0 - p) + a / 4.0)
    ensures z * z / (2.0 * n) == a / 2.0
  {
    var t := p * (1.0 - p) + a / 4.0;
    assert z * z == a * n;
    assert z * z / (4.0 * n) == a / 4.0 by { Quarter(a, n, 4.0); }
    assert z * z / (2.0 * n) == a / 2.0 by { Quarter(a, n, 2.0); }
    assert root * root * n == t;
    assert (z * root) * (z * root) == (z * z) * (root * root);
    assert (z * z) * (root * root) == a * (n * (root * root));
  }

  lemma Quarter(a: real, n: real, c: real)
    requires n > 0.0 && c > 0.0
    ensures a * n / (c * n) == a / c
  {
    var q := a / c;
    assert q * c == a;
    assert q * (c * n) == a * n;
  }

  /** s is a spread for proportion p and a = z*z/n. */
  predicate IsSpread(p: real, a: real, s: real) {
    a >= 0.0 && s >= 0.0 && s * s == a * (p * (1.0 - p) + a / 4.0)
  }

  lemma LowerBound(p: real, a: real, s: real)
    requires IsSpread(p, a, s) && 0.0 <= p
    ensures s <= p + a / 2.0
  {
    var c := p + a / 2.0;
    assert c * c - s * s == p * p * (1.0 + a);
    assert p * p >= 0.0;
    assert p * p * (1.0 + a) >= 0.0;
    SquareOrder(s, c);
  }

  lemma UpperBound(p: real, a: real, s: real)
    requires IsSpread(p, a, s) && p <= 1.0
    ensures p + a / 2.0 + s <= 1.0 + a
  {
    var q := 1.0 - p;
    assert a * (q * (1.0 - q) + a / 4.0) == a * (p * (1.0 - p) + a / 4.0);
    LowerBound(q, a, s);
  }

  lemma Encloses(p: real, a: real, s: real)
    requires IsSpread(p, a, s) && 0.0 <= p <= 1.0
    ensures p + a / 2.0 - s <= p * (1.0 + a) <= p + a / 2.0 + s
  {
    var d := a * (p - 0.5);
    assert p * (1.0 + a) - (p + a / 2.0) == d;
    var v := p * (1.0 - p);
    NonNegative(p, 1.0 - p);
    assert d * d == a * a * (0.25 - v) by {
      assert (p - 0.5) * (p - 0.5) == 0.25 - v;
      assert d * d == a * a * ((p - 0.5) * (p - 0.5));
    }
    assert s * s - d * d == a * v + a * a * v;
    NonNegative(a, v);
    NonNegative(a, a * v);
    assert d * d <= s * s;
    SquareOrder(d, s);
    assert (-d) * (-d) == d * d;
    SquareOrder(-d, s);
  }

  lemma WidthBound(p: real, a: real, s: real, h: real)
    requires IsSpread(p, a, s) && IsRoot(h, a / 4.0)
    ensures s <= h * (1.0 + a)
  {
    var v := p * (1.0 - p);
    assert v <= 0.25 by { assert (p - 0.5) * (p - 0.5) == 0.25 - v; }
    assert a * v <= a * 0.25;
    assert s * s <= (a / 4.0) * (1.0 + a);
    assert (a / 4.0) * (1.0 + a) * 1.0 <= (a / 4.0) * (1.0 + a) * (1.0 + a);
    var t := h * (1.0 + a);
    assert t * t == h * h * ((1.0 + a) * (1.0 + a));
    assert t >= 0.0;
    SquareOrder(s, t);
  }

  // ---- The interval ---------------------------------------------------------------------------------------

  /** For any outcome of n > 0 trials and z > 0 the interval's bounds lie in [0, 1] before clamping, so the
      clamps change nothing; they enclose the proportion; and the width is at most the detectable effect. */
  lemma WilsonIsProper(successes: nat, n: nat, z: real, root: real, effectRoot: real)
    requires successes <= n && n > 0 && z > 0.0
    requires IsRoot(root, Radicand(successes, n, z)) && IsRoot(effectRoot, 0.25 / n as real)
    ensures var lower := (Centre(successes, n, z) - z * root) / Denominator(n, z);
            var upper := (Centre(successes, n, z) + z * root) / Denominator(n, z);
            var w := WilsonCi(successes, n, z, root);
            && w.lower == lower && w.upper == upper
            && 0.0 <= lower <= w.proportion <= upper <= 1.0
            && upper - lower <= MinimumDetectableEffect(n, z, effectRoot)
  {
    var m, p := n as real, Proportion(successes, n);
    ProportionInUnit(successes, n);
    hide IsRoot;
    Interval(p, m, z, root, effectRoot);
  }

  /** The same for any proportion p and any real number m of trials. */
  lemma Interval(p: real, m: real, z: real, root: real, effectRoot: real)
    requires 0.0 <= p <= 1.0 && m > 0.0 && z > 0.0
    requires IsRoot(root, RadicandOf(p, m, z)) && IsRoot(effectRoot, 0.25 / m)
    ensures var c, d, s := CentreOf(p, m, z), DenominatorOf(m, z), z * root;
            && 0.0 <= (c - s) / d <= p <= (c + s) / d <= 1.0
            && (c + s) / d - (c - s) / d <= z * effectRoot * 2.0
  {
    var a := z * z / m;
    assert a >= 0.0 by {
      NonNegative(z, z);
      DivideOrder(z * z, 0.0, m);
    }
    assert IsSpread(p, a, z * root) && z * z / (2.0 * m) == a / 2.0 by {
      SpreadSquare(p, a, m, z, root);
      NonNegative(z, root);
    }
    assert IsRoot(z * effectRoot, a / 4.0) by {
      HalfWidth(m, z, a, effectRoot);
      NonNegative(z, effectRoot);
    }
    assert CentreOf(p, m, z) == p + a / 2.0 && DenominatorOf(m, z) == 1.0 + a;
    hide *;
    Scaled(p, a, z * root, z * effectRoot, p + a / 2.0, 1.0 + a);
  }

  /** The bounds in terms of p, a, the spread s and the half effect h. */
  lemma Scaled(p: real, a: real, s: real, h: real, c: real, d: real)
    requires 0.0 <= p <= 1.0 && a >= 0.0 && IsSpread(p, a, s) && IsRoot(h, a / 4.0)
    requires c == p + a / 2.0 && d == 1.0 + a
    ensures 0.0 <= (c - s) / d <= p <= (c + s) / d <= 1.0
    ensures (c + s) / d - (c - s) / d <= h * 2.0
  {
    hide *;
    assert s <= c by { LowerBound(p, a, s); }
    assert c + s <= d by { UpperBound(p, a, s); }
    assert c - s <= p * d <= c + s by { Encloses(p, a, s); }
    assert s <= h * d by { WidthBound(p, a, s, h); }
    Bounds(p, s, c, d);
    Width(c, s, d, h);
  }

  lemma Bounds(p: real, s: real, c: real, d: real)
    requires d > 0.0 && s <= c && c + s <= d && c - s <= p * d <= c + s
    ensures 0.0 <= (c - s) / d <= p <= (c + s) / d <= 1.0
  {
    DivideOrder(c - s, 0.0, d);
    DivideOrder(c + s, 1.0, d);
    DivideOrder(c - s, p, d);
    DivideOrder(c + s, p, d);
  }

  lemma HalfWidth(n: real, z: real, a: real, root: real)
    requires n > 0.0 && a == z * z / n && root * root == 0.25 / n
    ensures (z * root) * (z * root) == a / 4.0
  {
    assert (z * root) * (z * root) == z * z * (root * root);
    assert z * z == a * n;
    assert root * root * n == 0.25;
    assert a * n * (root * root) == a * (root * root * n);
  }

  lemma Width(c: real, s: real, d: real, h: real)
    requires d > 0.0 && s <= h * d
    ensures (c + s) / d - (c - s) / d <= h * 2.0
  {
    assert (c + s) / d - (c - s) / d == 2.0 * s / d;
    DivideOrder(2.0 * s, h * 2.0, d);
  }

  /** Both bounds x solve the score equation (p - x)(p - x) = z*z/n x(1 - x) that defines the interval. */
  lemma BoundsSolveScoreEquation(successes: nat, n: nat, z: real, root: real)
    requires successes <= n && n > 0 && z > 0.0 && IsRoot(root, Radicand(successes, n, z))
    ensures var w := WilsonCi(successes, n, z, root);
            && SolvesScore(w.proportion, z * z / n as real, w.lower)
            && SolvesScore(w.proportion, z * z / n as real, w.upper)
  {
    ClampedSolve(successes, n, z, root);
    hide Centre, Denominator, Proportion, SolvesScore, Max, Min, IsRoot, Radicand;
  }

  lemma ClampedSolve(successes: nat, n: nat, z: real, root: real)
    requires successes <= n && n > 0 && z > 0.0 && IsRoot(root, Radicand(successes, n, z))
    ensures var c, d := Centre(successes, n, z), Denominator(n, z);
            && SolvesScore(Proportion(successes, n), z * z / n as real, Max(0.0, (c - z * root) / d))
            && SolvesScore(Proportion(successes, n), z * z / n as real, Min(1.0, (c + z * root) / d))
  {
    ProportionInUnit(successes, n);
    hide IsRoot, SolvesScore, Max, Min, Proportion, RadicandOf, CentreOf, DenominatorOf;
    IntervalSolves(Proportion(successes, n), n as real, z, root);
  }

  lemma ProportionInUnit(successes: nat, n: nat)
    requires successes <= n && n > 0
    ensures 0.0 <= Proportion(successes, n) <= 1.0
  {
    DivideOrder(successes as real, 1.0, n as real);
    DivideOrder(successes as real, 0.0, n as real);
  }

  lemma ProportionIs(successes: nat, n: nat, z: real, root: real)
    requires n > 0
    ensures WilsonCi(successes, n, z, root).proportion * n as real == successes as real
    ensures WilsonCi(successes, 0, z, root) == WilsonInterval(0.0, 0.0, 1.0, 0, 0, 0.0)
  {
  }

  /** The same for any proportion p and any real number m of trials. */
  lemma IntervalSolves(p: real, m: real, z: real, root: real)
    requires 0.0 <= p <= 1.0 && m > 0.0 && z > 0.0 && IsRoot(root, RadicandOf(p, m, z))
    ensures var c, d, s := CentreOf(p, m, z), DenominatorOf(m, z), z * root;
            && SolvesScore(p, z * z / m, Max(0.0, (c - s) / d)) && SolvesScore(p, z * z / m, Min(1.0, (c + s) / d))
  {
    var a, s := z * z / m, z * root;
    assert a >= 0.0 by {
      NonNegative(z, z);
      DivideOrder(z * z, 0.0, m);
    }
    assert IsSpread(p, a, s) && z * z / (2.0 * m) == a / 2.0 by {
      SpreadSquare(p, a, m, z, root);
      NonNegative(z, root);
    }
    assert CentreOf(p, m, z) == p + a / 2.0 && DenominatorOf(m, z) == 1.0 + a;
    hide *;
    Unclamped(p, a, s, p + a / 2.0, 1.0 + a);
    ScoreAt(p, a, s, p + a / 2.0, 1.0 + a);
  }

  predicate SolvesScore(p: real, a: real, x: real) {
    (p - x) * (p - x) == a * (x * (1.0 - x))
  }

  lemma Unclamped(p: real, a: real, s: real, c: real, d: real)
    requires 0.0 <= p <= 1.0 && a >= 0.0 && IsSpread(p, a, s) && c == p + a / 2.0 && d == 1.0 + a
    ensures Max(0.0, (c - s) / d) == (c - s) / d && Min(1.0, (c + s) / d) == (c + s) / d
  {
    assert s <= c by { LowerBound(p, a, s); }
    assert c + s <= d by { UpperBound(p, a, s); }
    assert c - s <= p * d <= c + s by { Encloses(p, a, s); }
    hide IsSpread;
    Bounds(p, s, c, d);
  }

  lemma ScoreAt(p: real, a: real, s: real, c: real, d: real)
    requires a >= 0.0 && IsSpread(p, a, s) && c == p + a / 2.0 && d == 1.0 + a
    ensures SolvesScore(p, a, (c - s) / d) && SolvesScore(p, a, (c + s) / d)
  {
    assert c * c - s * s == p * p * d;
    RootOfQuadratic(p, a, c, d, s, (c + s) / d);
    RootOfQuadratic(p, a, c, d, -s, (c - s) / d);
  }

  /** With r*r = c*c - p*p*d, x = (c + r)/d solves d*x*x - 2*c*x + p*p = 0. */
  lemma RootOfQuadratic(p: real, a: real, c: real, d: real, r: real, x: real)
    requires d > 0.0 && d == 1.0 + a && c == p + a / 2.0 && x * d == c + r && c * c - r * r == p * p * d
    ensures SolvesScore(p, a, x)
  {
    var e := d * (x * x) - 2.0 * (c * x) + p * p;
    assert (x * d) * (x * d) == d * (d * (x * x));
    assert (c + r) * (c + r) - 2.0 * (c * (c + r)) == r * r - c * c;
    assert c * (x * d) == d * (c * x);
    assert d * e == 0.0;
    assert e == 0.0;
    assert (p - x) * (p - x) - a * (x * (1.0 - x)) == e;
  }
}
