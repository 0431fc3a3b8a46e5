/** Agreement between judge verdicts and human labels: accuracy, Cohen's kappa and the confusion counts. */
module Agreement {
  import Reals

  datatype Confusion = Confusion(tp: nat, fp: nat, fn: nat, tn: nat)

  function Count(judge: seq<bool>, human: seq<bool>, j: bool, h: bool): nat
    requires |judge| == |human|
  {
    if judge == [] then 0
    else Count(judge[..|judge| - 1], human[..|human| - 1], j, h)
         + (if judge[|judge| - 1] == j && human[|human| - 1] == h then 1 else 0)
  }

  function Matrix(judge: seq<bool>, human: seq<bool>): Confusion
    requires |judge| == |human|
  {
    Confusion(Count(judge, human, true, true), Count(judge, human, true, false),
              Count(judge, human, false, true), Count(judge, human, false, false))
  }

  function Trues(q: seq<bool>): nat {
    if q == [] then 0 else Trues(q[..|q| - 1]) + (if q[|q| - 1] then 1 else 0)
  }

  function Agreeing(judge: seq<bool>, human: seq<bool>): nat
    requires |judge| == |human|
  {
    if judge == [] then 0
    else Agreeing(judge[..|judge| - 1], human[..|human| - 1])
         + (if judge[|judge| - 1] == human[|human| - 1] then 1 else 0)
  }

  function Accuracy(judge: seq<bool>, human: seq<bool>): real
    requires |judge| == |human|
  {
    if judge == [] then 0.0 else Agreeing(judge, human) as real / |judge| as real
  }

  function ExpectedAgreement(judge: seq<bool>, human: seq<bool>): real
    requires |judge| == |human| > 0
  {
    var py, ph := Trues(judge) as real / |judge| as real, Trues(human) as real / |judge| as real;
    py * ph + (1.0 - py) * (1.0 - ph)
  }

  function Kappa(judge: seq<bool>, human: seq<bool>): real
    requires |judge| == |human|
  {
    if judge == [] then 0.0
    else
      var pe := ExpectedAgreement(judge, human);
      if pe < 1.0 then (Accuracy(judge, human) - pe) / (1.0 - pe) else 1.0
  }

  lemma {:induction false} CountsAddUp(judge: seq<bool>, human: seq<bool>)
    requires |judge| == |human|
    ensures var m := Matrix(judge, human);
            && m.tp + m.fp + m.fn + m.tn == |judge|
            && Trues(judge) == m.tp + m.fp && Trues(human) == m.tp + m.fn
            && Agreeing(judge, human) == m.tp + m.tn
            && (m.fp + m.fn == 0 <==> judge == human)
  {
    if judge != [] {
      var j, h := judge[..|judge| - 1], human[..|human| - 1];
      CountsAddUp(j, h);
      assert judge == human <==> j == h && judge[|judge| - 1] == human[|human| - 1] by {
        assert judge == j + [judge[|judge| - 1]] && human == h + [human[|human| - 1]];
      }
    }
  }

  /** The products behind kappa, for counts a, b, c, d with a + b + c + d = n: n*n*(1 - pe) and n*n*(1 - po). */
  lemma Products(a: real, b: real, c: real, d: real)
    requires a >= 0.0 && b >= 0.0 && c >= 0.0 && d >= 0.0
    ensures var e := (a + b) * (b + d) + (c + d) * (a + c);
            var f := (a + b + c + d) * (b + c);
            0.0 <= f <= 2.0 * e
  {
    assert a * b >= 0.0 && a * c >= 0.0 && b * d >= 0.0 && c * d >= 0.0 && a * d >= 0.0;
    assert (b - c) * (b - c) >= 0.0;
    assert (b - c) * (b - c) == b * b - 2.0 * (b * c) + c * c;
    assert (a + b) * (b + d) == a * b + a * d + b * b + b * d;
    assert (c + d) * (a + c) == a * c + c * c + a * d + c * d;
    assert (a + b + c + d) * (b + c) == a * b + a * c + b * b + b * c + b * c + c * c + b * d + c * d;
    assert b * c >= 0.0;
    assert b * b >= 0.0 && c * c >= 0.0;
  }

  lemma ExpectedInCounts(n: real, x: real, y: real)
    requires n > 0.0
    ensures (1.0 - (x / n * (y / n) + (1.0 - x / n) * (1.0 - y / n))) * (n * n) == x * (n - y) + (n - x) * y
  {
    var p, q := x / n, y / n;
    assert p * n == x && q * n == y;
    assert 1.0 - (p * q + (1.0 - p) * (1.0 - q)) == p * (1.0 - q) + (1.0 - p) * q;
    assert p * (1.0 - q) * (n * n) == (p * n) * ((1.0 - q) * n);
    assert (1.0 - p) * q * (n * n) == ((1.0 - p) * n) * (q * n);
  }

  lemma KappaRatio(po: real, pe: real, w: real, e: real, f: real)
    requires w > 0.0 && pe < 1.0
    requires (1.0 - pe) * w == e && (1.0 - po) * w == f && 0.0 <= f <= 2.0 * e
    ensures -1.0 <= (po - pe) / (1.0 - pe) <= 1.0
    ensures (po - pe) / (1.0 - pe) == 1.0 <==> f == 0.0
  {
    var c := 1.0 - pe;
    assert e > 0.0 by { Reals.Positive(c, w); }
    var k := (po - pe) / c;
    assert (1.0 - k) * e == f by { Complement(po, pe, c, k, w); }
    Reals.Scale(0.0, 1.0 - k, e);
    Reals.Scale(1.0 - k, 2.0, e);
  }

  /** 1 - k is (1 - po) / (1 - pe), here without the division. */
  lemma Complement(po: real, pe: real, c: real, k: real, w: real)
    requires c == 1.0 - pe && c > 0.0 && k == (po - pe) / c
    ensures (1.0 - k) * (c * w) == (1.0 - po) * w
  {
    assert k * c == po - pe;
    assert (1.0 - k) * c == 1.0 - po;
    assert (1.0 - k) * (c * w) == ((1.0 - k) * c) * w;
  }

  /** For labels of equal, positive number: kappa lies between -1 and 1, and is 1 exactly when all verdicts
      agree, whether or not chance agreement is certain; accuracy is (tp + tn) / n. */
  lemma KappaIsProper(judge: seq<bool>, human: seq<bool>)
    requires |judge| == |human| > 0
    ensures -1.0 <= Kappa(judge, human) <= 1.0
    ensures Kappa(judge, human) == 1.0 <==> judge == human
    ensures var m := Matrix(judge, human);
            && m.tp + m.fp + m.fn + m.tn == |judge|
            && Accuracy(judge, human) == (m.tp + m.tn) as real / |judge| as real
  {
    hide Count, Agreeing, Trues;
    CountsAddUp(judge, human);
    var m := Matrix(judge, human);
    var n := |judge| as real;
    var pe, po := ExpectedAgreement(judge, human), Accuracy(judge, human);
    assert Trues(judge) as real == m.tp as real + m.fp as real;
    assert Trues(human) as real == m.tp as real + m.fn as real;
    InCounts(m.tp as real, m.fp as real, m.fn as real, m.tn as real, n, pe, po);
  }

  lemma InCounts(a: real, b: real, c: real, d: real, n: real, pe: real, po: real)
    requires a >= 0.0 && b >= 0.0 && c >= 0.0 && d >= 0.0 && n == a + b + c + d > 0.0
    requires pe == (a + b) / n * ((a + c) / n) + (1.0 - (a + b) / n) * (1.0 - (a + c) / n)
    requires po == (a + d) / n
    ensures pe < 1.0 ==> -1.0 <= (po - pe) / (1.0 - pe) <= 1.0
    ensures pe < 1.0 ==> ((po - pe) / (1.0 - pe) == 1.0 <==> b == 0.0 && c == 0.0)
    ensures pe >= 1.0 ==> b == 0.0 && c == 0.0
  {
    var e, f := CountTerms(a, b, c, d, n, pe, po);
    Conclude(pe, po, n, e, f);
  }

  lemma CountTerms(a: real, b: real, c: real, d: real, n: real, pe: real, po: real) returns (e: real, f: real)
    requires a >= 0.0 && b >= 0.0 && c >= 0.0 && d >= 0.0 && n == a + b + c + d > 0.0
    requires pe == (a + b) / n * ((a + c) / n) + (1.0 - (a + b) / n) * (1.0 - (a + c) / n)
    requires po == (a + d) / n
    ensures (1.0 - pe) * (n * n) == e && (1.0 - po) * (n * n) == f && 0.0 <= f <= 2.0 * e
    ensures f == 0.0 <==> b == 0.0 && c == 0.0
  {
    e, f := (a + b) * (b + d) + (c + d) * (a + c), n * (b + c);
    Weights(a, b, c, d, n, pe, po);
    assert 0.0 <= f <= 2.0 * e by { Products(a, b, c, d); }
    assert f == 0.0 <==> b == 0.0 && c == 0.0 by { Disagreement(n, b, c); }
  }

  lemma Weights(a: real, b: real, c: real, d: real, n: real, pe: real, po: real)
    requires n == a + b + c + d > 0.0
    requires pe == (a + b) / n * ((a + c) / n) + (1.0 - (a + b) / n) * (1.0 - (a + c) / n)
    requires po == (a + d) / n
    ensures (1.0 - pe) * (n * n) == (a + b) * (b + d) + (c + d) * (a + c)
    ensures (1.0 - po) * (n * n) == n * (b + c)
  {
    ExpectedInCounts(n, a + b, a + c);
    assert po * n == a + d;
    assert (1.0 - po) * (n * n) == (n - po * n) * n;
  }

  lemma Conclude(pe: real, po: real, n: real, e: real, f: real)
    requires n > 0.0 && (1.0 - pe) * (n * n) == e && (1.0 - po) * (n * n) == f && 0.0 <= f <= 2.0 * e
    ensures pe < 1.0 ==> -1.0 <= (po - pe) / (1.0 - pe) <= 1.0
    ensures pe < 1.0 ==> ((po - pe) / (1.0 - pe) == 1.0 <==> f == 0.0)
    ensures pe >= 1.0 ==> f == 0.0
  {
    var w := Reals.Product(n, n);
    if pe < 1.0 {
      KappaRatio(po, pe, w, e, f);
    } else {
      Reals.NonNegative(pe - 1.0, w);
      assert (pe - 1.0) * w == -e;
    }
  }

  lemma Disagreement(n: real, b: real, c: real)
    requires n > 0.0 && b >= 0.0 && c >= 0.0
    ensures n * (b + c) == 0.0 <==> b == 0.0 && c == 0.0
  {
    if b + c > 0.0 { assert n * (b + c) > 0.0; }
  }

  function Marginals(m: Confusion): nat {
    (m.tp + m.fp) * (m.fp + m.tn) + (m.fn + m.tn) * (m.tp + m.fn)
  }

  function Determinant(m: Confusion): int {
    m.tp * m.tn - m.fp * m.fn
  }

  /** Kappa from the confusion counts: twice tp*tn - fp*fn over the sum of the products of the opposite marginals.  The
      other branch is taken exactly when that sum is 0. */
  lemma KappaFromCounts(judge: seq<bool>, human: seq<bool>)
    requires |judge| == |human| > 0
    ensures var m := Matrix(judge, human);
            && (Marginals(m) > 0 ==> Kappa(judge, human) == 2.0 * Determinant(m) as real / Marginals(m) as real)
            && (Marginals(m) == 0 ==> Kappa(judge, human) == 1.0)
    ensures Kappa([], []) == 0.0 && Accuracy([], []) == 0.0
  {
    hide Count, Agreeing, Trues, Marginals, Determinant;
    CountsAddUp(judge, human);
    var m := Matrix(judge, human);
    assert Trues(judge) as real == m.tp as real + m.fp as real;
    assert Trues(human) as real == m.tp as real + m.fn as real;
    KappaOfMatrix(m, |judge| as real, ExpectedAgreement(judge, human), Accuracy(judge, human));
  }

  lemma KappaOfMatrix(m: Confusion, n: real, pe: real, po: real)
    requires n == m.tp as real + m.fp as real + m.fn as real + m.tn as real > 0.0
    requires pe == (m.tp as real + m.fp as real) / n * ((m.tp as real + m.fn as real) / n)
                   + (1.0 - (m.tp as real + m.fp as real) / n) * (1.0 - (m.tp as real + m.fn as real) / n)
    requires po == (m.tp as real + m.tn as real) / n
    ensures pe < 1.0 <==> Marginals(m) > 0
    ensures Marginals(m) > 0 ==> (po - pe) / (1.0 - pe) == 2.0 * Determinant(m) as real / Marginals(m) as real
  {
    KappaReal(m.tp as real, m.fp as real, m.fn as real, m.tn as real, n, pe, po);
    InReals(m);
  }

  lemma KappaReal(a: real, b: real, c: real, d: real, n: real, pe: real, po: real)
    requires a >= 0.0 && b >= 0.0 && c >= 0.0 && d >= 0.0 && n == a + b + c + d > 0.0
    requires pe == (a + b) / n * ((a + c) / n) + (1.0 - (a + b) / n) * (1.0 - (a + c) / n)
    requires po == (a + d) / n
    ensures var e := (a + b) * (b + d) + (c + d) * (a + c);
            && (e > 0.0 <==> pe < 1.0)
            && (e > 0.0 ==> (po - pe) / (1.0 - pe) == 2.0 * (a * d - b * c) / e)
  {
    Weights(a, b, c, d, n, pe, po);
    Ratio(a, b, c, d, n, pe, po);
  }

  lemma InReals(m: Confusion)
    ensures var a, b, c, d := m.tp as real, m.fp as real, m.fn as real, m.tn as real;
            && Marginals(m) as real == (a + b) * (b + d) + (c + d) * (a + c)
            && Determinant(m) as real == a * d - b * c
  {
    ProductInReals(m.tp + m.fp, m.fp + m.tn);
    ProductInReals(m.fn + m.tn, m.tp + m.fn);
    ProductInReals(m.tp, m.tn);
    ProductInReals(m.fp, m.fn);
  }

  lemma {:induction false} ProductInReals(x: nat, y: nat)
    ensures (x * y) as real == x as real * y as real
  {
    if x > 0 {
      ProductInReals(x - 1, y);
      assert x * y == (x - 1) * y + y;
      assert x as real * y as real == (x - 1) as real * y as real + y as real;
    }
  }

  lemma Ratio(a: real, b: real, c: real, d: real, n: real, pe: real, po: real)
    requires a >= 0.0 && b >= 0.0 && c >= 0.0 && d >= 0.0 && n == a + b + c + d > 0.0
    requires (1.0 - pe) * (n * n) == (a + b) * (b + d) + (c + d) * (a + c)
    requires (1.0 - po) * (n * n) == n * (b + c)
    ensures var e := (a + b) * (b + d) + (c + d) * (a + c);
            && (e > 0.0 <==> pe < 1.0)
            && (e > 0.0 ==> (po - pe) / (1.0 - pe) == 2.0 * (a * d - b * c) / e)
  {
    var e := (a + b) * (b + d) + (c + d) * (a + c);
    assert e - n * (b + c) == 2.0 * (a * d - b * c) by { Expand(a, b, c, d); }
    Quotient(n, pe, po, e, 2.0 * (a * d - b * c));
  }

  lemma Expand(a: real, b: real, c: real, d: real)
    ensures (a + b) * (b + d) + (c + d) * (a + c) - (a + b + c + d) * (b + c) == 2.0 * (a * d - b * c)
  {
    assert (a + b) * (b + d) == a * b + a * d + b * b + b * d;
    assert (c + d) * (a + c) == a * c + c * c + a * d + c * d;
    assert (a + b + c + d) * (b + c) == a * b + a * c + b * b + b * c + b * c + c * c + b * d + c * d;
  }

  lemma Quotient(n: real, pe: real, po: real, e: real, g: real)
    requires n > 0.0 && (1.0 - pe) * (n * n) == e && e - (1.0 - po) * (n * n) == g
    ensures e > 0.0 <==> pe < 1.0
    ensures e > 0.0 ==> (po - pe) / (1.0 - pe) == g / e
  {
    var w := Reals.Product(n, n);
    Reals.Scale(0.0, 1.0 - pe, w);
    if e > 0.0 {
      SameQuotient(po - pe, 1.0 - pe, w, g, e);
    }
  }

  lemma SameQuotient(x: real, y: real, w: real, g: real, e: real)
    requires y > 0.0 && w > 0.0 && e > 0.0 && x * w == g && y * w == e
    ensures x / y == g / e
  {
    var k := x / y;
    assert k * y == x;
    assert k * e == (k * y) * w == g;
  }
}
