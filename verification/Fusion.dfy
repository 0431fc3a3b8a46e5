/** Reciprocal rank fusion, and the in-memory vector store's search, on results as (text, score) pairs. */
module Fusion {
  import opened Basics

  type Scored = (string, real)

  // ---- Sorting by score, descending and stable ---------------------------------------------------------

  predicate Descending(q: seq<Scored>) {
    forall i, j :: 0 <= i < j < |q| ==> q[i].1 >= q[j].1
  }

  /** `sorted(…, key=score, reverse=True)`: equal scores keep their order. */
  function Insert(q: seq<Scored>, x: Scored): seq<Scored> {
    if q == [] || q[|q| - 1].1 >= x.1 then q + [x]
    else Insert(q[..|q| - 1], x) + [q[|q| - 1]]
  }

  lemma {:induction false} InsertBag(q: seq<Scored>, x: Scored)
    ensures multiset(Insert(q, x)) == multiset(q) + multiset{x}
  {
    if q != [] && q[|q| - 1].1 < x.1 {
      InsertBag(q[..|q| - 1], x);
      assert q == q[..|q| - 1] + [q[|q| - 1]];
    }
  }

  lemma {:induction false} InsertSorts(q: seq<Scored>, x: Scored)
    requires Descending(q)
    ensures Descending(Insert(q, x))
    ensures forall i :: 0 <= i < |Insert(q, x)| ==> Insert(q, x)[i] == x || Insert(q, x)[i] in q
  {
    if q != [] && q[|q| - 1].1 < x.1 {
      var r, z := q[..|q| - 1], q[|q| - 1];
      InsertSorts(r, x);
      var s := Insert(r, x);
      forall i | 0 <= i < |s| ensures s[i].1 >= z.1 && (s[i] == x || s[i] in q) {
        if s[i] != x {
          var j :| 0 <= j < |r| && r[j] == s[i];
          assert q[j] == s[i];
        }
      }
      assert z in q;
    }
  }

  method SortDescending(q: seq<Scored>) returns (sorted: seq<Scored>)
    ensures Descending(sorted) && multiset(sorted) == multiset(q)
  {
    sorted := [];
    for i := 0 to |q|
      invariant Descending(sorted) && multiset(sorted) == multiset(q[..i])
    {
      InsertSorts(sorted, q[i]);
      InsertBag(sorted, q[i]);
      assert q[..i + 1] == q[..i] + [q[i]];
      sorted := Insert(sorted, q[i]);
    }
    assert q[..|q|] == q;
  }

  // ---- Fusion --------------------------------------------------------------------------------------------

  /** What a list adds to a text's score: 1/(k + rank) for each place at which it stands. */
  function Share(list: seq<string>, text: string, k: nat): real {
    if list == [] then 0.0
    else Share(list[..|list| - 1], text, k) + (if list[|list| - 1] == text then 1.0 / (k + |list|) as real else 0.0)
  }

  function Score(dense: seq<string>, lexical: seq<string>, text: string, k: nat): real {
    Share(dense, text, k) + Share(lexical, text, k)
  }

  function Get(scores: map<string, real>, text: string): real {
    if text in scores then scores[text] else 0.0
  }

  /** One of the two loops. */
  method AddShares(before: map<string, real>, list: seq<string>, k: nat) returns (scores: map<string, real>)
    ensures scores.Keys == before.Keys + set t | t in list
    ensures forall t :: t in scores ==> scores[t] == Get(before, t) + Share(list, t, k)
  {
    scores := before;
    for i := 0 to |list|
      invariant scores.Keys == before.Keys + set t | t in list[..i]
      invariant forall t :: Get(scores, t) == Get(before, t) + Share(list[..i], t, k)
    {
      assert list[..i + 1][..i] == list[..i];
      scores := scores[list[i] := Get(scores, list[i]) + 1.0 / (k + i + 1) as real];
    }
    assert list[..|list|] == list;
  }

  /** The first topK texts by score. */
  method RrfFusion(dense: seq<string>, lexical: seq<string>, topK: nat, k: nat) returns (top: seq<Scored>)
    ensures exists fused :: IsFusion(dense, lexical, k, fused) && IsTop(top, fused, topK)
  {
    var scores := AddShares(map[], dense, k);
    ghost var first := scores;
    forall t ensures Get(first, t) == Share(dense, t, k) {
      if t !in dense { AbsentShare(dense, t, k); }
    }
    scores := AddShares(scores, lexical, k);
    var items := [];
    var todo := scores.Keys;
    while todo != {}
      invariant todo <= scores.Keys && IsListing(scores, scores.Keys - todo, items)
      decreases todo
    {
      var t :| t in todo;
      AddItem(scores, scores.Keys - todo, items, t);
      todo := todo - {t};
      assert scores.Keys - todo == scores.Keys - (todo + {t}) + {t};
      items := items + [(t, scores[t])];
    }
    assert scores.Keys - todo == scores.Keys;
    var sorted := SortDescending(items);
    SortedListing(scores, items, sorted);
    ListingIsFusion(dense, lexical, k, scores, sorted);
    top := sorted[..if topK < |sorted| then topK else |sorted|];
    assert IsTop(top, sorted, topK);
  }

  /** Each of the texts once, with its score. */
  ghost predicate IsListing(scores: map<string, real>, texts: set<string>, items: seq<Scored>) {
    && (forall i :: 0 <= i < |items| ==>
          items[i].0 in texts && items[i].0 in scores && items[i].1 == scores[items[i].0])
    && (forall i, j :: 0 <= i < j < |items| ==> items[i].0 != items[j].0)
    && (forall t :: t in texts ==> exists i :: 0 <= i < |items| && items[i].0 == t)
  }

  lemma AddItem(scores: map<string, real>, texts: set<string>, items: seq<Scored>, t: string)
    requires IsListing(scores, texts, items) && t in scores && t !in texts
    ensures IsListing(scores, texts + {t}, items + [(t, scores[t])])
  {
    var more := items + [(t, scores[t])];
    forall u | u in texts + {t} ensures exists i :: 0 <= i < |more| && more[i].0 == u {
      if u == t {
        assert more[|items|].0 == t;
      } else {
        var i :| 0 <= i < |items| && items[i].0 == u;
        assert more[i].0 == u;
      }
    }
  }

  lemma ListingIsFusion(dense: seq<string>, lexical: seq<string>, k: nat, scores: map<string, real>, items: seq<Scored>)
    requires IsListing(scores, scores.Keys, items)
    requires forall t :: t in scores <==> t in dense || t in lexical
    requires forall t :: t in scores ==> scores[t] == Score(dense, lexical, t, k)
    ensures IsFusion(dense, lexical, k, items)
  {
  }

  lemma SortedListing(scores: map<string, real>, items: seq<Scored>, sorted: seq<Scored>)
    requires IsListing(scores, scores.Keys, items) && multiset(sorted) == multiset(items)
    ensures IsListing(scores, scores.Keys, sorted)
  {
    forall i | 0 <= i < |sorted| ensures sorted[i] in items {
      assert sorted[i] in multiset(sorted);
    }
    forall t | t in scores.Keys ensures exists i :: 0 <= i < |sorted| && sorted[i].0 == t {
      var i :| 0 <= i < |items| && items[i].0 == t;
      assert items[i] in multiset(items);
      assert items[i] in sorted;
    }
    forall i, j | 0 <= i < j < |sorted| ensures sorted[i].0 != sorted[j].0 {
      if sorted[i].0 == sorted[j].0 {
        Twice(sorted, i, j);
        OnlyOnce(scores, items, sorted[i]);
      }
    }
  }

  lemma Twice(q: seq<Scored>, i: nat, j: nat)
    requires i < j < |q| && q[i] == q[j]
    ensures multiset(q)[q[i]] >= 2
  {
    assert q == q[..j] + [q[j]] + q[j + 1..];
    assert q[..j][i] == q[i];
    assert q[i] in multiset(q[..j]);
  }

  lemma OnlyOnce(scores: map<string, real>, items: seq<Scored>, x: Scored)
    requires IsListing(scores, scores.Keys, items)
    ensures multiset(items)[x] <= 1
  {
    OnceInDistinct(items, x);
  }

  lemma {:induction false} OnceInDistinct(items: seq<Scored>, x: Scored)
    requires forall i, j :: 0 <= i < j < |items| ==> items[i].0 != items[j].0
    ensures multiset(items)[x] <= 1
  {
    if items != [] {
      var r, y := items[..|items| - 1], items[|items| - 1];
      OnceInDistinct(r, x);
      assert items == r + [y];
      if y == x {
        assert x !in r;
      }
    }
  }

  /** Every text of either list once, with its fused score. */
  ghost predicate IsFusion(dense: seq<string>, lexical: seq<string>, k: nat, fused: seq<Scored>) {
    && (forall i, j :: 0 <= i < j < |fused| ==> fused[i].0 != fused[j].0)
    && (forall t :: (exists i :: 0 <= i < |fused| && fused[i].0 == t) <==> t in dense || t in lexical)
    && (forall i :: 0 <= i < |fused| ==> fused[i].1 == Score(dense, lexical, fused[i].0, k))
  }

  /** The first topK of a list in descending order. */
  ghost predicate IsTop(top: seq<Scored>, fused: seq<Scored>, topK: nat) {
    Descending(fused) && top == fused[..if topK < |fused| then topK else |fused|]
  }

  // ---- What fusion guarantees ----------------------------------------------------------------------------

  /** The rank of a text, counted from 1; 0 when it is absent. */
  function Rank(list: seq<string>, text: string): nat {
    if list == [] then 0
    else if list[|list| - 1] == text then |list|
    else Rank(list[..|list| - 1], text)
  }

  lemma {:induction false} AbsentShare(list: seq<string>, text: string, k: nat)
    requires text !in list
    ensures Share(list, text, k) == 0.0 && Rank(list, text) == 0
  {
    if list != [] {
      assert list[|list| - 1] in list;
      AbsentShare(list[..|list| - 1], text, k);
    }
  }

  lemma {:induction false} ShareIsReciprocal(list: seq<string>, text: string, k: nat)
    requires Distinct(list)
    ensures Rank(list, text) <= |list|
    ensures Rank(list, text) == 0 <==> text !in list
    ensures Share(list, text, k) == if Rank(list, text) == 0 then 0.0 else 1.0 / (k + Rank(list, text)) as real
  {
    if list != [] {
      var r := list[..|list| - 1];
      assert list == r + [list[|list| - 1]];
      if list[|list| - 1] == text {
        AbsentShare(r, text, k);
      } else {
        ShareIsReciprocal(r, text, k);
      }
    }
  }

  lemma ReciprocalOrder(a: nat, b: nat)
    requires 0 < a <= b
    ensures 1.0 / a as real >= 1.0 / b as real > 0.0
  {
  }

  /** Ranked at least as well: absent is worse than any rank. */
  predicate AtLeastAsHigh(list: seq<string>, x: string, y: string) {
    Rank(list, y) == 0 || 0 < Rank(list, x) <= Rank(list, y)
  }

  lemma ShareOrder(list: seq<string>, x: string, y: string, k: nat)
    requires Distinct(list) && AtLeastAsHigh(list, x, y)
    ensures Share(list, x, k) >= Share(list, y, k)
  {
    ShareIsReciprocal(list, x, k);
    ShareIsReciprocal(list, y, k);
    if Rank(list, x) > 0 { ReciprocalOrder(k + Rank(list, x), k + Rank(list, x)); }
    if Rank(list, y) > 0 { ReciprocalOrder(k + Rank(list, x), k + Rank(list, y)); }
  }

  /** A text ranked at least as well in both lists never scores lower. */
  lemma FusionIsMonotone(dense: seq<string>, lexical: seq<string>, x: string, y: string, k: nat)
    requires Distinct(dense) && Distinct(lexical)
    requires AtLeastAsHigh(dense, x, y) && AtLeastAsHigh(lexical, x, y)
    ensures Score(dense, lexical, x, k) >= Score(dense, lexical, y, k)
  {
    ShareOrder(dense, x, y, k);
    ShareOrder(lexical, x, y, k);
  }

  lemma ReciprocalFalls(a: real, b: real)
    requires 0.0 < a < b
    ensures 1.0 / a > 1.0 / b
  {
    var p, q := 1.0 / a, 1.0 / b;
    assert p * a == 1.0 && q * b == 1.0 && q > 0.0;
    assert q * a < q * b;
  }

  lemma HalfBeats(k: nat, r: nat)
    requires 0 < r <= k + 1
    ensures 1.0 / (k + r) as real > 1.0 / (2 * (k + 1)) as real
    ensures 1.0 / (2 * (k + 1)) as real + 1.0 / (2 * (k + 1)) as real == 1.0 / (k + 1) as real
  {
    assert k + r < 2 * (k + 1);
    var a, b := (k + r) as real, (2 * (k + 1)) as real;
    ReciprocalFalls(a, b);
    assert b == 2.0 * (k + 1) as real;
  }

  /** When no list is longer than k + 1, a text in both lists strictly outranks every text in only one. */
  lemma SharedBeatsSingle(dense: seq<string>, lexical: seq<string>, x: string, y: string, k: nat)
    requires Distinct(dense) && Distinct(lexical) && |dense| <= k + 1 && |lexical| <= k + 1
    requires x in dense && x in lexical && !(y in dense && y in lexical)
    ensures Score(dense, lexical, x, k) > Score(dense, lexical, y, k)
  {
    ShareIsReciprocal(dense, x, k);
    ShareIsReciprocal(lexical, x, k);
    ShareIsReciprocal(dense, y, k);
    ShareIsReciprocal(lexical, y, k);
    HalfBeats(k, Rank(dense, x));
    HalfBeats(k, Rank(lexical, x));
    if y in dense { ReciprocalOrder(k + 1, k + Rank(dense, y)); }
    if y in lexical { ReciprocalOrder(k + 1, k + Rank(lexical, y)); }
  }

  const DENSE_K := 50
  const RRF_K := 60

  /** With the limits of `search_hybrid`, the texts found by both searches come first in the fused list. */
  lemma SharedComeFirst(dense: seq<string>, lexical: seq<string>, fused: seq<Scored>, i: nat, j: nat)
    requires Distinct(dense) && Distinct(lexical) && |dense| <= DENSE_K && |lexical| <= DENSE_K
    requires IsFusion(dense, lexical, RRF_K, fused) && Descending(fused)
    requires i < |fused| && j < |fused|
    requires fused[i].0 in dense && fused[i].0 in lexical && !(fused[j].0 in dense && fused[j].0 in lexical)
    ensures i < j
  {
    SharedBeatsSingle(dense, lexical, fused[i].0, fused[j].0, RRF_K);
  }

  // ---- The in-memory store ------------------------------------------------------------------------------------

  class InMemoryVectorStore<Vector> {
    var store: map<string, seq<(string, Vector)>>

    constructor ()
      ensures store == map[]
    {
      store := map[];
    }

    function Entries(owner: string): seq<(string, Vector)>
      reads this
    {
      if owner in store then store[owner] else []
    }

    method Upsert(owner: string, text: string, vector: Vector)
      modifies this
      ensures Entries(owner) == old(Entries(owner)) + [(text, vector)]
      ensures forall other :: other != owner ==> Entries(other) == old(Entries(other))
    {
      store := store[owner := Entries(owner) + [(text, vector)]];
    }

    /** The owner's entries by descending similarity, cut at topK: nothing left out is more similar than
        anything returned, and no other owner's entry is returned. */
    method Search(owner: string, similarity: Vector -> real, topK: nat) returns (top: seq<Scored>)
      ensures Descending(top)
      ensures |top| == if topK < |Entries(owner)| then topK else |Entries(owner)|
      ensures exists rest: seq<Scored> ::
                && multiset(top) + multiset(rest) == multiset(Scores(Entries(owner), similarity))
                && forall i, j :: 0 <= i < |top| && 0 <= j < |rest| ==> top[i].1 >= rest[j].1
      ensures forall i :: 0 <= i < |top| ==> exists e :: e in Entries(owner) && top[i] == (e.0, similarity(e.1))
    {
      var entries := Entries(owner);
      var results := [];
      for i := 0 to |entries|
        invariant results == Scores(entries[..i], similarity)
      {
        results := results + [(entries[i].0, similarity(entries[i].1))];
      }
      assert entries[..|entries|] == entries;
      var sorted := SortDescending(results);
      SameLength(sorted, results);
      hide Scores, Descending;
      top := sorted[..if topK < |sorted| then topK else |sorted|];
      SearchResult(entries, similarity, sorted, |top|);
    }
  }

  lemma SearchResult<Vector>(entries: seq<(string, Vector)>, similarity: Vector -> real, sorted: seq<Scored>, cut: nat)
    requires multiset(sorted) == multiset(Scores(entries, similarity)) && Descending(sorted) && cut <= |sorted|
    ensures Descending(sorted[..cut])
    ensures exists rest: seq<Scored> ::
              && multiset(sorted[..cut]) + multiset(rest) == multiset(Scores(entries, similarity))
              && forall i, j :: 0 <= i < cut && 0 <= j < |rest| ==> sorted[..cut][i].1 >= rest[j].1
    ensures forall i :: 0 <= i < cut ==> exists e :: e in entries && sorted[..cut][i] == (e.0, similarity(e.1))
  {
    CutKeeps(sorted, cut);
    hide Descending;
    forall i | 0 <= i < cut ensures exists e :: e in entries && sorted[..cut][i] == (e.0, similarity(e.1)) {
      FromEntry(entries, similarity, sorted, i);
    }
  }

  lemma CutKeeps(sorted: seq<Scored>, cut: nat)
    requires Descending(sorted) && cut <= |sorted|
    ensures Descending(sorted[..cut])
    ensures multiset(sorted[..cut]) + multiset(sorted[cut..]) == multiset(sorted)
    ensures forall i, j :: 0 <= i < cut && 0 <= j < |sorted[cut..]| ==> sorted[..cut][i].1 >= sorted[cut..][j].1
  {
    assert sorted == sorted[..cut] + sorted[cut..];
  }

  function Scores<Vector>(entries: seq<(string, Vector)>, similarity: Vector -> real): (r: seq<Scored>)
    ensures |r| == |entries|
    ensures forall i :: 0 <= i < |r| ==> r[i].0 == entries[i].0 && r[i].1 == similarity(entries[i].1)
  {
    seq(|entries|, i requires 0 <= i < |entries| => (entries[i].0, similarity(entries[i].1)))
  }

  /** Every score is that of some entry. */
  lemma FromEntry<Vector>(entries: seq<(string, Vector)>, similarity: Vector -> real, sorted: seq<Scored>, i: nat)
    requires multiset(sorted) == multiset(Scores(entries, similarity)) && i < |sorted|
    ensures exists e :: e in entries && sorted[i] == (e.0, similarity(e.1))
  {
    assert sorted[i] in multiset(sorted);
    var j :| 0 <= j < |entries| && Scores(entries, similarity)[j] == sorted[i];
    assert entries[j] in entries;
  }

  lemma SameLength(p: seq<Scored>, q: seq<Scored>)
    requires multiset(p) == multiset(q)
    ensures |p| == |q|
  {
    assert |multiset(p)| == |p| && |multiset(q)| == |q|;
  }
}
