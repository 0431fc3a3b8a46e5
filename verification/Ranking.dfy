/** Retrieval metrics over a ranked list and a set of relevant chunks.  The logarithmic discount is any
    positive, strictly decreasing weight of the rank, counted from 1. */
module Ranking {
  import opened Basics

  type Weight = nat -> real

  ghost predicate IsDiscount(w: Weight) {
    && (forall i :: 1 <= i ==> w(i) > 0.0)
    && (forall i, j :: 1 <= i < j ==> w(j) < w(i))
  }

  function Top(q: seq<string>, k: nat): seq<string> {
    q[..Min(k, |q|)]
  }

  function Hits(q: seq<string>, relevant: set<string>): nat {
    if q == [] then 0 else Hits(q[..|q| - 1], relevant) + (if q[|q| - 1] in relevant then 1 else 0)
  }

  function Dcg(q: seq<string>, relevant: set<string>, w: Weight): real {
    if q == [] then 0.0
    else Dcg(q[..|q| - 1], relevant, w) + (if q[|q| - 1] in relevant then w(|q|) else 0.0)
  }

  /** The gain of n hits in the first n places. */
  function Ideal(n: nat, w: Weight): real {
    if n == 0 then 0.0 else Ideal(n - 1, w) + w(n)
  }

  method DcgAtK(retrieved: seq<string>, relevant: set<string>, k: nat, w: Weight) returns (dcg: real)
    ensures dcg == Dcg(Top(retrieved, k), relevant, w)
  {
    dcg := 0.0;
    var top := Top(retrieved, k);
    for i := 0 to |top|
      invariant dcg == Dcg(top[..i], relevant, w)
    {
      assert top[..i + 1][..i] == top[..i];
      if top[i] in relevant {
        dcg := dcg + w(i + 1);
      }
    }
    assert top[..|top|] == top;
  }

  /** A hit at place i + 1 gains exactly the discount of that place: the two lists differ there only. */
  lemma {:induction false} HitGains(q: seq<string>, relevant: set<string>, w: Weight, i: nat, hit: string, miss: string)
    requires i < |q| && hit in relevant && miss !in relevant
    ensures Dcg(q[i := hit], relevant, w) - Dcg(q[i := miss], relevant, w) == w(i + 1)
    decreases |q|
  {
    var a, b := q[i := hit], q[i := miss];
    if i == |q| - 1 {
      assert a[..i] == q[..i] == b[..i];
    } else {
      assert a[..|q| - 1] == q[..|q| - 1][i := hit] && b[..|q| - 1] == q[..|q| - 1][i := miss];
      HitGains(q[..|q| - 1], relevant, w, i, hit, miss);
    }
  }

  lemma {:induction false} NoHitNoGain(q: seq<string>, relevant: set<string>, w: Weight)
    requires forall i :: 0 <= i < |q| ==> q[i] !in relevant
    ensures Dcg(q, relevant, w) == 0.0
  {
    if q != [] { NoHitNoGain(q[..|q| - 1], relevant, w); }
  }

  method IdealGain(n: nat, w: Weight) returns (gain: real)
    ensures gain == Ideal(n, w)
  {
    gain := 0.0;
    for i := 0 to n
      invariant gain == Ideal(i, w)
    {
      gain := gain + w(i + 1);
    }
  }

  // ---- Recall ---------------------------------------------------------------------------------------------

  function Recall(retrieved: seq<string>, relevant: set<string>, k: nat): real {
    if relevant == {} then 1.0 else Hits(Top(retrieved, k), relevant) as real / |relevant| as real
  }

  function HitSet(q: seq<string>, relevant: set<string>): set<string> {
    set x | x in q && x in relevant
  }

  lemma {:induction false} HitsAreElements(q: seq<string>, relevant: set<string>)
    requires Distinct(q)
    ensures Hits(q, relevant) == |HitSet(q, relevant)|
  {
    if q != [] {
      var r, x := q[..|q| - 1], q[|q| - 1];
      HitsAreElements(r, relevant);
      if x in relevant {
        assert HitSet(q, relevant) == HitSet(r, relevant) + {x};
      } else {
        assert HitSet(q, relevant) == HitSet(r, relevant);
      }
    }
  }

  lemma {:induction false} HitsBelowLength(q: seq<string>, relevant: set<string>)
    ensures Hits(q, relevant) <= |q|
  {
    if q != [] { HitsBelowLength(q[..|q| - 1], relevant); }
  }

  /** Without repeats, hits in the first k places are bounded by the relevant chunks and by k. */
  lemma HitsBound(retrieved: seq<string>, relevant: set<string>, k: nat)
    requires Distinct(Top(retrieved, k))
    ensures Hits(Top(retrieved, k), relevant) <= Min(|relevant|, k)
  {
    HitsAreElements(Top(retrieved, k), relevant);
    SubsetSize(HitSet(Top(retrieved, k), relevant), relevant);
    HitsBelowLength(Top(retrieved, k), relevant);
  }

  lemma {:induction false} HitsGrow(q: seq<string>, relevant: set<string>, i: nat)
    requires i <= |q|
    ensures Hits(q[..i], relevant) <= Hits(q, relevant)
    decreases |q|
  {
    if i < |q| {
      assert q[..|q| - 1][..i] == q[..i];
      HitsGrow(q[..|q| - 1], relevant, i);
    } else {
      assert q[..i] == q;
    }
  }

  lemma DivideLess(a: nat, b: nat, c: nat)
    requires a <= b && c > 0
    ensures a as real / c as real <= b as real / c as real
  {
  }

  function HitPlaces(q: seq<string>, relevant: set<string>): set<nat> {
    set i | 0 <= i < |q| && q[i] in relevant
  }

  lemma {:induction false} HitsArePlaces(q: seq<string>, relevant: set<string>)
    ensures Hits(q, relevant) == |HitPlaces(q, relevant)|
  {
    if q == [] {
      assert HitPlaces(q, relevant) == {};
    } else {
      var r, last := q[..|q| - 1], |q| - 1;
      HitsArePlaces(r, relevant);
      if q[last] in relevant {
        assert HitPlaces(q, relevant) == HitPlaces(r, relevant) + {last};
      } else {
        assert HitPlaces(q, relevant) == HitPlaces(r, relevant);
      }
    }
  }

  /** Recall is the number of hits among the first k over the number of relevant chunks, and 1 when none is relevant. */
  lemma RecallCounts(retrieved: seq<string>, relevant: set<string>, k: nat)
    ensures relevant == {} ==> Recall(retrieved, relevant, k) == 1.0
    ensures relevant != {} ==>
              Recall(retrieved, relevant, k) * |relevant| as real
              == |set i | 0 <= i < |retrieved| && i < k && retrieved[i] in relevant| as real
  {
    HitsArePlaces(Top(retrieved, k), relevant);
    assert HitPlaces(Top(retrieved, k), relevant)
        == set i | 0 <= i < |retrieved| && i < k && retrieved[i] in relevant;
  }

  /** Recall never falls as k grows; when the first k have no repeats it lies between 0 and 1, and it is 1 exactly
      when every relevant chunk is among them. */
  lemma RecallGrowsWithinOne(retrieved: seq<string>, relevant: set<string>, k: nat, l: nat)
    requires k <= l
    ensures Recall(retrieved, relevant, k) <= Recall(retrieved, relevant, l)
    ensures Distinct(Top(retrieved, k)) ==> 0.0 <= Recall(retrieved, relevant, k) <= 1.0
    ensures Distinct(Top(retrieved, k)) ==>
              (Recall(retrieved, relevant, k) == 1.0 <==> forall x :: x in relevant ==> x in Top(retrieved, k))
  {
    if relevant != {} {
      assert Top(Top(retrieved, l), k) == Top(retrieved, k);
      HitsGrow(Top(retrieved, l), relevant, Min(k, |Top(retrieved, l)|));
      DivideLess(Hits(Top(retrieved, k), relevant), Hits(Top(retrieved, l), relevant), |relevant|);
      if Distinct(Top(retrieved, k)) {
        FullRecall(retrieved, relevant, k);
      }
    }
  }

  lemma AllHit(top: seq<string>, relevant: set<string>)
    requires Distinct(top)
    ensures Hits(top, relevant) <= |relevant|
    ensures Hits(top, relevant) == |relevant| <==> forall x :: x in relevant ==> x in top
  {
    HitsAreElements(top, relevant);
    var hit := HitSet(top, relevant);
    SubsetSize(hit, relevant);
    assert (forall x :: x in relevant ==> x in top) <==> hit == relevant;
  }

  lemma FullRecall(retrieved: seq<string>, relevant: set<string>, k: nat)
    requires relevant != {} && Distinct(Top(retrieved, k))
    ensures 0.0 <= Recall(retrieved, relevant, k) <= 1.0
    ensures Recall(retrieved, relevant, k) == 1.0 <==> forall x :: x in relevant ==> x in Top(retrieved, k)
  {
    hide Hits;
    var top := Top(retrieved, k);
    AllHit(top, relevant);
    Fraction(Hits(top, relevant), |relevant|);
  }

  lemma Fraction(a: nat, b: nat)
    requires a <= b && b > 0
    ensures 0.0 <= a as real / b as real <= 1.0
    ensures a as real / b as real == 1.0 <==> a == b
  {
  }

  /** A chunk at two places counts twice. */
  lemma {:induction false} TwoPlaces(q: seq<string>, i: nat, j: nat)
    requires i < j < |q| && q[i] == q[j]
    ensures Hits(q, {q[i]}) >= 2
    decreases |q|
  {
    if j < |q| - 1 {
      TwoPlaces(q[..|q| - 1], i, j);
    } else {
      OnePlace(q[..|q| - 1], i);
    }
  }

  lemma {:induction false} OnePlace(q: seq<string>, i: nat)
    requires i < |q|
    ensures Hits(q, {q[i]}) >= 1
    decreases |q|
  {
    if i < |q| - 1 { OnePlace(q[..|q| - 1], i); }
  }

  /** Repeats break the bound: a chunk at two of the first k places, if it is the only relevant one, has recall 2
      or more. */
  lemma RepeatsBreakRecall(retrieved: seq<string>, k: nat, i: nat, j: nat)
    requires i < j < |Top(retrieved, k)| && retrieved[i] == retrieved[j]
    ensures Recall(retrieved, {retrieved[i]}, k) >= 2.0
  {
    TwoPlaces(Top(retrieved, k), i, j);
  }

  /** Recall at k stays within 1 whatever is relevant if and only if the first k have no repeats. */
  lemma RecallIsFractionExactly(retrieved: seq<string>, k: nat)
    ensures (forall relevant :: Recall(retrieved, relevant, k) <= 1.0) <==> Distinct(Top(retrieved, k))
  {
    var top := Top(retrieved, k);
    if Distinct(top) {
      forall relevant ensures Recall(retrieved, relevant, k) <= 1.0 {
        RecallGrowsWithinOne(retrieved, relevant, k, k);
      }
    } else {
      var i, j :| 0 <= i < j < |top| && top[i] == top[j];
      RepeatsBreakRecall(retrieved, k, i, j);
      assert Recall(retrieved, {retrieved[i]}, k) > 1.0;
    }
  }

  // ---- nDCG -------------------------------------------------------------------------------------------------

  lemma {:induction false} IdealIncreases(m: nat, n: nat, w: Weight)
    requires IsDiscount(w) && m <= n
    ensures Ideal(m, w) <= Ideal(n, w)
    ensures m < n ==> Ideal(m, w) < Ideal(n, w)
    decreases n - m
  {
    if m < n { IdealIncreases(m, n - 1, w); }
  }

  /** Hits anywhere gain at most what as many hits at the top gain, and the same only when they are at the top. */
  lemma {:induction false} DcgBelowIdealOfHits(q: seq<string>, relevant: set<string>, w: Weight)
    requires IsDiscount(w)
    ensures Hits(q, relevant) <= |q|
    ensures Dcg(q, relevant, w) <= Ideal(Hits(q, relevant), w)
    ensures Dcg(q, relevant, w) == Ideal(Hits(q, relevant), w)
            <==> forall i :: 0 <= i < Hits(q, relevant) ==> q[i] in relevant
  {
    if q != [] {
      var r, x := q[..|q| - 1], q[|q| - 1];
      DcgBelowIdealOfHits(r, relevant, w);
      var h := Hits(r, relevant);
      if x in relevant {
        assert h + 1 < |q| ==> w(|q|) < w(h + 1);
        if h + 1 < |q| && (forall i :: 0 <= i < h + 1 ==> q[i] in relevant) {
          PrefixHits(r, relevant, h + 1);
        }
      }
    }
  }

  lemma {:induction false} PrefixHits(q: seq<string>, relevant: set<string>, n: nat)
    requires n <= |q| && forall i :: 0 <= i < n ==> q[i] in relevant
    ensures Hits(q, relevant) >= n
    decreases |q|
  {
    if n < |q| {
      PrefixHits(q[..|q| - 1], relevant, n);
    } else if q != [] {
      PrefixHits(q[..|q| - 1], relevant, n - 1);
    }
  }

  lemma {:induction false} DcgNonNegative(q: seq<string>, relevant: set<string>, w: Weight)
    requires IsDiscount(w)
    ensures Dcg(q, relevant, w) >= 0.0
  {
    if q != [] { DcgNonNegative(q[..|q| - 1], relevant, w); }
  }

  /** The score lies in [0, 1]; without repeats in the first k it is 1 exactly when the first min(|relevant|, k)
      places exist and are all hits. */
  method Ndcg(retrieved: seq<string>, relevant: set<string>, k: nat, w: Weight) returns (score: real)
    requires IsDiscount(w)
    ensures var n := Min(|relevant|, k);
            var actual := Dcg(Top(retrieved, k), relevant, w);
            && (Ideal(n, w) == 0.0 <==> n == 0)
            && score == if Ideal(n, w) == 0.0 then (if actual == 0.0 then 1.0 else 0.0)
                     else if actual <= Ideal(n, w) then actual / Ideal(n, w) else 1.0
    ensures 0.0 <= score <= 1.0
    ensures Distinct(Top(retrieved, k)) ==>
              (score == 1.0 <==> Min(|relevant|, k) <= |retrieved|
                                 && forall i :: 0 <= i < Min(|relevant|, k) ==> retrieved[i] in relevant)
  {
    var actual := DcgAtK(retrieved, relevant, k, w);
    var n := Min(|relevant|, k);
    var ideal := IdealGain(n, w);
    IdealIncreases(0, n, w);
    DcgNonNegative(Top(retrieved, k), relevant, w);
    if Distinct(Top(retrieved, k)) { NdcgNeedsNoClamp(retrieved, relevant, k, w); }
    if ideal == 0.0 {
      return if actual == 0.0 then 1.0 else 0.0;
    }
    AtMostOne(actual, ideal);
    score := if actual / ideal < 1.0 then actual / ideal else 1.0;
  }

  lemma AtMostOne(a: real, b: real)
    requires b > 0.0
    ensures a / b < 1.0 <==> a < b
    ensures a >= 0.0 ==> a / b >= 0.0
    ensures a == b <==> a / b == 1.0
  {
    assert a / b * b == a;
  }

  /** Without repeats in the first k DCG at k is at most the ideal, so the clamp of nDCG changes nothing, and the two
      are equal exactly when the first min(|relevant|, k) places exist and are all hits. */
  lemma NdcgNeedsNoClamp(retrieved: seq<string>, relevant: set<string>, k: nat, w: Weight)
    requires IsDiscount(w) && Distinct(Top(retrieved, k))
    ensures Dcg(Top(retrieved, k), relevant, w) <= Ideal(Min(|relevant|, k), w)
    ensures Dcg(Top(retrieved, k), relevant, w) == Ideal(Min(|relevant|, k), w)
            <==> Min(|relevant|, k) <= |retrieved|
                 && forall i :: 0 <= i < Min(|relevant|, k) ==> retrieved[i] in relevant
  {
    var top := Top(retrieved, k);
    var n := Min(|relevant|, k);
    HitsBound(retrieved, relevant, k);
    DcgBelowIdealOfHits(top, relevant, w);
    IdealIncreases(Hits(top, relevant), n, w);
    if n <= |retrieved| && (forall i :: 0 <= i < n ==> retrieved[i] in relevant) {
      PrefixHits(top, relevant, n);
    }
  }

  // ---- Reciprocal rank --------------------------------------------------------------------------------------

  /** 1/i for the first hit at place i, 0 without a hit. */
  method ReciprocalRank(retrieved: seq<string>, relevant: set<string>) returns (rank: nat, score: real)
    ensures rank == 0 ==> score == 0.0 && forall i :: 0 <= i < |retrieved| ==> retrieved[i] !in relevant
    ensures rank > 0 ==> rank <= |retrieved| && score == 1.0 / rank as real && retrieved[rank - 1] in relevant
    ensures rank > 0 ==> forall i :: 0 <= i < rank - 1 ==> retrieved[i] !in relevant
  {
    for i := 0 to |retrieved|
      invariant forall j :: 0 <= j < i ==> retrieved[j] !in relevant
    {
      if retrieved[i] in relevant {
        return i + 1, 1.0 / (i + 1) as real;
      }
    }
    return 0, 0.0;
  }
}
