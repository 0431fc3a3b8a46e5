/** The binary heap of `heapq` on entries ordered by descending priority, then by arrival number. */
module Heap {

  datatype Entry<T> = Entry(priority: int, number: nat, item: T)

  /** Tuple order on (-priority, number): the item is never looked at. */
  predicate Less<T>(a: Entry<T>, b: Entry<T>) {
    a.priority > b.priority || (a.priority == b.priority && a.number < b.number)
  }

  predicate AtMost<T>(a: Entry<T>, b: Entry<T>) {
    !Less(b, a)
  }

  function Parent(i: nat): nat
    requires i > 0
  {
    (i - 1) / 2
  }

  predicate IsHeap<T>(h: seq<Entry<T>>) {
    forall i :: 0 < i < |h| ==> AtMost(h[Parent(i)], h[i])
  }

  /** A heap except that the entry at `pos` may be less than its ancestors. */
  predicate HeapBelow<T>(h: seq<Entry<T>>, pos: nat) {
    && (forall i :: 0 < i < |h| && i != pos ==> AtMost(h[Parent(i)], h[i]))
    && (forall i :: 0 < i < |h| && Parent(i) == pos && pos > 0 ==> AtMost(h[Parent(pos)], h[i]))
  }

  /** A heap except for the entry at `pos`, which may stand in any relation to its neighbours. */
  predicate HeapAround<T>(h: seq<Entry<T>>, pos: nat) {
    && (forall i :: 0 < i < |h| && i != pos && Parent(i) != pos ==> AtMost(h[Parent(i)], h[i]))
    && (forall i :: 0 < i < |h| && Parent(i) == pos && pos > 0 ==> AtMost(h[Parent(pos)], h[i]))
  }

  function Swap<T>(h: seq<T>, i: nat, j: nat): seq<T>
    requires i < |h| && j < |h|
  {
    h[i := h[j]][j := h[i]]
  }

  lemma SwapKeeps<T>(h: seq<T>, i: nat, j: nat)
    requires i < |h| && j < |h|
    ensures multiset(Swap(h, i, j)) == multiset(h)
  {
  }

  /** Moving the misplaced entry up past a greater parent. */
  lemma UpStep<T>(h: seq<Entry<T>>, pos: nat)
    requires 0 < pos < |h| && HeapBelow(h, pos) && Less(h[pos], h[Parent(pos)])
    ensures HeapBelow(Swap(h, pos, Parent(pos)), Parent(pos))
  {
    var p := Parent(pos);
    var g := Swap(h, pos, p);
    forall i | 0 < i < |g| && i != p ensures AtMost(g[Parent(i)], g[i]) {
      if i == pos { } else if Parent(i) == pos { } else if Parent(i) == p { } else { }
    }
  }

  lemma UpDone<T>(h: seq<Entry<T>>, pos: nat)
    requires pos < |h| && HeapBelow(h, pos) && (pos == 0 || !Less(h[pos], h[Parent(pos)]))
    ensures IsHeap(h)
  {
  }

  /** Moving the misplaced entry down, its smaller child up. */
  lemma DownStep<T>(h: seq<Entry<T>>, pos: nat, child: nat)
    requires pos < child < |h| && Parent(child) == pos && HeapAround(h, pos)
    requires forall i :: 0 < i < |h| && Parent(i) == pos ==> AtMost(h[child], h[i])
    ensures HeapAround(Swap(h, pos, child), child)
  {
  }

  /** The parent's entry is copied into the hole at `pos`, and the hole moves up. */
  lemma HoleUp<T>(h: seq<Entry<T>>, pos: nat, item: Entry<T>)
    requires 0 < pos < |h| && HeapBelow(h[pos := item], pos) && Less(item, h[Parent(pos)])
    ensures var g := h[pos := h[Parent(pos)]][Parent(pos) := item];
            HeapBelow(g, Parent(pos)) && multiset(g) == multiset(h[pos := item])
  {
    var whole := h[pos := item];
    UpStep(whole, pos);
    SwapKeeps(whole, pos, Parent(pos));
    assert h[pos := h[Parent(pos)]][Parent(pos) := item] == Swap(whole, pos, Parent(pos));
  }

  /** The least child's entry is copied into the hole at `pos`, and the hole moves down. */
  lemma HoleDown<T>(h: seq<Entry<T>>, pos: nat, child: nat, item: Entry<T>)
    requires pos < child < |h| && Parent(child) == pos && HeapAround(h[pos := item], pos)
    requires forall i :: 0 < i < |h| && Parent(i) == pos ==> AtMost(h[child], h[i])
    ensures var g := h[pos := h[child]][child := item];
            HeapAround(g, child) && multiset(g) == multiset(h[pos := item])
  {
    var whole := h[pos := item];
    DownStep(whole, pos, child);
    SwapKeeps(whole, pos, child);
    assert h[pos := h[child]][child := item] == Swap(whole, pos, child);
  }

  lemma LeastChild<T>(h: seq<Entry<T>>, pos: nat, child: nat)
    requires child < |h| && (child == 2 * pos + 1 || child == 2 * pos + 2)
    requires AtMost(h[child], h[2 * pos + 1]) && (2 * pos + 2 < |h| ==> AtMost(h[child], h[2 * pos + 2]))
    ensures forall i :: 0 < i < |h| && Parent(i) == pos ==> AtMost(h[child], h[i])
  {
  }

  lemma HoleAtLeaf<T>(h: seq<Entry<T>>, pos: nat)
    requires pos < |h| <= 2 * pos + 1 && HeapAround(h, pos)
    ensures HeapBelow(h, pos)
  {
  }

  /** `_siftdown(heap, 0, pos)`. */
  method SiftDown<T>(h0: seq<Entry<T>>, pos0: nat) returns (h: seq<Entry<T>>)
    requires pos0 < |h0| && HeapBelow(h0, pos0)
    ensures IsHeap(h) && multiset(h) == multiset(h0)
  {
    hide HeapBelow, IsHeap;
    h := h0;
    var pos := pos0;
    var item := h[pos];
    assert h[pos := item] == h0;
    while pos > 0
      invariant pos < |h| && HeapBelow(h[pos := item], pos) && multiset(h[pos := item]) == multiset(h0)
    {
      var parent := (pos - 1) / 2;
      if !Less(item, h[parent]) {
        break;
      }
      HoleUp(h, pos, item);
      h := h[pos := h[parent]];
      pos := parent;
    }
    h := h[pos := item];
    UpDone(h, pos);
  }

  /** `_siftup(heap, 0)`: the smaller children move up until the hole is a leaf, then the entry sinks back. */
  method SiftUp<T>(h0: seq<Entry<T>>) returns (h: seq<Entry<T>>)
    requires |h0| > 0 && HeapAround(h0, 0)
    ensures IsHeap(h) && multiset(h) == multiset(h0)
  {
    hide HeapBelow, HeapAround, IsHeap;
    h := h0;
    var pos := 0;
    var item := h[0];
    var child := 1;
    assert h[0 := item] == h0;
    while child < |h|
      invariant pos < |h| == |h0| && child == 2 * pos + 1
      invariant HeapAround(h[pos := item], pos) && multiset(h[pos := item]) == multiset(h0)
      decreases |h| - pos
    {
      var right := child + 1;
      if right < |h| && !Less(h[child], h[right]) {
        child := right;
      }
      LeastChild(h, pos, child);
      HoleDown(h, pos, child, item);
      h := h[pos := h[child]];
      pos := child;
      child := 2 * pos + 1;
    }
    h := h[pos := item];
    HoleAtLeaf(h, pos);
    h := SiftDown(h, pos);
  }

  method Push<T>(h0: seq<Entry<T>>, e: Entry<T>) returns (h: seq<Entry<T>>)
    requires IsHeap(h0)
    ensures IsHeap(h) && multiset(h) == multiset(h0) + multiset{e}
  {
    h := h0 + [e];
    h := SiftDown(h, |h| - 1);
  }

  method Pop<T>(h0: seq<Entry<T>>) returns (h: seq<Entry<T>>, least: Entry<T>)
    requires IsHeap(h0) && h0 != []
    ensures IsHeap(h) && multiset(h0) == multiset(h) + multiset{least}
    ensures forall e :: e in h0 ==> AtMost(least, e)
  {
    forall e | e in h0 ensures AtMost(h0[0], e) {
      var i :| 0 <= i < |h0| && h0[i] == e;
      RootIsLeast(h0, i);
    }
    var last := h0[|h0| - 1];
    h := h0[..|h0| - 1];
    assert h0 == h + [last];
    if h == [] {
      return h, last;
    }
    least := h[0];
    ghost var rest := h[1..];
    assert h == [least] + rest;
    h := h[0 := last];
    assert h == [last] + rest;
    h := SiftUp(h);
  }

  lemma {:induction false} RootIsLeast<T>(h: seq<Entry<T>>, i: nat)
    requires IsHeap(h) && i < |h|
    ensures AtMost(h[0], h[i])
  {
    if i > 0 {
      RootIsLeast(h, Parent(i));
    }
  }
}
