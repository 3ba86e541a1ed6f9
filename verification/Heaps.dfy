/** The array-embedded binary heap behind the query top-k buffer, the full-text result
    buffer and both candidate heaps of the vector search.  `above(x, y)` says that x may
    sit above y: "not better than" for the bounded buffers, "at least as near" or "at least
    as far" for the vector candidates. */
module Heaps {
  import opened Orders

  function Parent(i: int): int {
    (i - 1) / 2
  }

  ghost predicate IsHeap<T>(above: (T, T) -> bool, h: seq<T>) {
    forall i :: 0 < i < |h| ==> above(h[Parent(i)], h[i])
  }

  /** A heap except that the element at `hole` may belong higher up. */
  ghost predicate HeapExceptUp<T>(above: (T, T) -> bool, h: seq<T>, hole: int) {
    && (forall i :: 0 < i < |h| && i != hole ==> above(h[Parent(i)], h[i]))
    && (forall i :: 0 < hole < i < |h| && Parent(i) == hole ==> above(h[Parent(hole)], h[i]))
  }

  /** A heap except that the element at `hole` may belong lower down. */
  ghost predicate HeapExceptDown<T>(above: (T, T) -> bool, h: seq<T>, hole: int) {
    && (forall i :: 0 < i < |h| && Parent(i) != hole ==> above(h[Parent(i)], h[i]))
    && (forall i :: 0 < hole < i < |h| && Parent(i) == hole ==> above(h[Parent(hole)], h[i]))
  }

  /** The root of a heap bounds every element. */
  lemma {:induction false} RootAbove<T(!new)>(above: (T, T) -> bool, h: seq<T>, i: nat)
    requires TotalPreorder(above) && IsHeap(above, h) && i < |h|
    ensures above(h[0], h[i])
  {
    if i > 0 {
      RootAbove(above, h, Parent(i));
      Transitivity(above, h[0], h[Parent(i)], h[i]);
    } else {
      Totality(above, h[0], h[0]);
    }
  }

  lemma RootAboveAll<T(!new)>(above: (T, T) -> bool, h: seq<T>)
    requires TotalPreorder(above) && IsHeap(above, h) && h != []
    ensures forall x :: x in multiset(h) ==> above(h[0], x)
  {
    forall x | x in multiset(h) ensures above(h[0], x) {
      var i :| 0 <= i < |h| && h[i] == x;
      RootAbove(above, h, i);
    }
  }

  lemma SwapKeepsElements<T>(h: seq<T>, i: nat, j: nat)
    requires i < |h| && j < |h|
    ensures multiset(h[i := h[j]][j := h[i]]) == multiset(h)
  {
  }

  /** Append, then move the new element up while its parent may not sit above it. */
  method Push<T(!new)>(above: (T, T) -> bool, heap: seq<T>, item: T) returns (h: seq<T>)
    requires TotalPreorder(above) && IsHeap(above, heap)
    ensures IsHeap(above, h)
    ensures multiset(h) == multiset(heap) + multiset{item} && |h| == |heap| + 1
  {
    h := heap + [item];
    var child := |h| - 1;
    while child > 0
      invariant 0 <= child < |h| == |heap| + 1
      invariant HeapExceptUp(above, h, child)
      invariant multiset(h) == multiset(heap) + multiset{item}
    {
      var parent := Parent(child);
      if above(h[parent], h[child]) {
        break;
      }
      SwapKeepsElements(h, child, parent);
      ghost var before := h;
      h := h[child := h[parent]][parent := h[child]];
      SwapUpKeeps(above, before, h, child);
      child := parent;
    }
  }

  lemma SwapUpKeeps<T(!new)>(above: (T, T) -> bool, h: seq<T>, g: seq<T>, child: int)
    requires TotalPreorder(above) && 0 < child < |h|
    requires HeapExceptUp(above, h, child) && !above(h[Parent(child)], h[child])
    requires g == h[child := h[Parent(child)]][Parent(child) := h[child]]
    ensures HeapExceptUp(above, g, Parent(child))
  {
    var parent := Parent(child);
    Totality(above, h[parent], h[child]);
    forall i | 0 < i < |g| && i != parent ensures above(g[Parent(i)], g[i]) {
      if Parent(i) == parent && i != child {
        Transitivity(above, h[child], h[parent], h[i]);
      }
    }
    forall i | 0 < parent < i < |g| && Parent(i) == parent ensures above(g[Parent(parent)], g[i]) {
      if i != child { Transitivity(above, h[Parent(parent)], h[parent], h[i]); }
    }
  }

  /** The parent, or the child that must move above it. */
  function Uppermost<T>(above: (T, T) -> bool, h: seq<T>, parent: nat): (top: nat)
    requires parent < |h|
    ensures top < |h| && (top == parent || Parent(top) == parent)
  {
    var left, right := 2 * parent + 1, 2 * parent + 2;
    var top := if left < |h| && !above(h[parent], h[left]) then left else parent;
    if right < |h| && !above(h[top], h[right]) then right else top
  }

  lemma UppermostIsAbove<T(!new)>(above: (T, T) -> bool, h: seq<T>, parent: nat)
    requires TotalPreorder(above) && parent < |h|
    ensures forall i :: 0 < i < |h| && Parent(i) == parent ==> above(h[Uppermost(above, h, parent)], h[i])
    ensures above(h[Uppermost(above, h, parent)], h[parent])
  {
    var left, right, top := 2 * parent + 1, 2 * parent + 2, Uppermost(above, h, parent);
    Totality(above, h[parent], h[parent]);
    if left < |h| {
      Totality(above, h[parent], h[left]);
      Totality(above, h[left], h[left]);
    }
    if right < |h| {
      Totality(above, h[right], h[right]);
      Totality(above, h[parent], h[right]);
      Totality(above, h[left], h[right]);
      if top == right && !above(h[parent], h[left]) { Transitivity(above, h[right], h[left], h[parent]); }
      if top == right && above(h[parent], h[left]) { Transitivity(above, h[right], h[parent], h[left]); }
    }
    forall i | 0 < i < |h| && Parent(i) == parent ensures above(h[top], h[i]) {
      assert i == left || i == right;
    }
  }

  /** Move the element at the root down to its place, swapping with the uppermost child. */
  method SiftDown<T(!new)>(above: (T, T) -> bool, heap: seq<T>) returns (h: seq<T>)
    requires TotalPreorder(above) && HeapExceptDown(above, heap, 0) && heap != []
    ensures IsHeap(above, h)
    ensures multiset(h) == multiset(heap) && |h| == |heap|
  {
    h := heap;
    var parent := 0;
    while true
      invariant 0 <= parent < |h| == |heap|
      invariant HeapExceptDown(above, h, parent)
      invariant multiset(h) == multiset(heap)
      decreases |h| - parent
    {
      var top := Uppermost(above, h, parent);
      UppermostIsAbove(above, h, parent);
      if top == parent {
        return;
      }
      SwapKeepsElements(h, parent, top);
      SwapDownKeeps(above, h, h[parent := h[top]][top := h[parent]], parent, top);
      h := h[parent := h[top]][top := h[parent]];
      parent := top;
    }
  }

  lemma SwapDownKeeps<T(!new)>(above: (T, T) -> bool, h: seq<T>, g: seq<T>, hole: int, top: int)
    requires TotalPreorder(above) && 0 <= hole < |h| && 0 < top < |h| && Parent(top) == hole
    requires HeapExceptDown(above, h, hole)
    requires forall i :: 0 < i < |h| && Parent(i) == hole ==> above(h[top], h[i])
    requires above(h[top], h[hole])
    requires g == h[hole := h[top]][top := h[hole]]
    ensures HeapExceptDown(above, g, top)
  {
    forall i | 0 < i < |g| && Parent(i) != top ensures above(g[Parent(i)], g[i]) {
      if i == hole { assert above(h[Parent(hole)], h[top]); }
    }
    forall i | 0 < top < i < |g| && Parent(i) == top ensures above(g[Parent(top)], g[i]) {
      assert above(h[Parent(i)], h[i]);
    }
  }

  /** Remove the root: the last element replaces it and sinks. */
  method Pop<T(!new)>(above: (T, T) -> bool, heap: seq<T>) returns (item: T, h: seq<T>)
    requires TotalPreorder(above) && IsHeap(above, heap) && heap != []
    ensures item == heap[0] && IsHeap(above, h)
    ensures multiset(heap) == multiset(h) + multiset{item} && |h| == |heap| - 1
    ensures forall x :: x in multiset(heap) ==> above(item, x)
  {
    RootAboveAll(above, heap);
    item := heap[0];
    var last := |heap| - 1;
    if last == 0 {
      assert heap == [item];
      h := [];
    } else {
      LastReplacesRoot(above, heap);
      h := SiftDown(above, heap[..last][0 := heap[last]]);
    }
  }

  lemma LastReplacesRoot<T(!new)>(above: (T, T) -> bool, heap: seq<T>)
    requires IsHeap(above, heap) && |heap| > 1
    ensures var moved := heap[..|heap| - 1][0 := heap[|heap| - 1]];
            HeapExceptDown(above, moved, 0) && multiset(heap) == multiset(moved) + multiset{heap[0]}
  {
    var last := |heap| - 1;
    assert IsHeap(above, heap[..last]);
    RootMayChange(above, heap[..last], heap[last]);
    assert heap == heap[..last] + [heap[last]];
  }

  function Flip<T>(le: (T, T) -> bool): (T, T) -> bool {
    (x, y) => le(y, x)
  }

  lemma FlipPreorder<T(!new)>(le: (T, T) -> bool)
    requires TotalPreorder(le)
    ensures TotalPreorder(Flip(le))
  {
    var above := Flip(le);
    forall x, y, z
      ensures (above(x, y) || above(y, x)) && (above(x, y) && above(y, z) ==> above(x, z))
    {
      assert Instance(z, y, x) && Instance(y, x, x);
    }
  }

  /** One step of a bounded buffer that keeps the `limit` best elements with the worst at
      the root. */
  method PushBounded<T(!new)>(le: (T, T) -> bool, heap: seq<T>, item: T, limit: nat) returns (h: seq<T>)
    requires TotalPreorder(le) && IsHeap(Flip(le), heap) && |heap| <= limit
    ensures IsHeap(Flip(le), h) && |h| <= limit
    ensures KeepsBest(le, multiset(heap), item, limit, multiset(h))
  {
    FlipPreorder(le);
    if limit == 0 {
      h := heap;
    } else if |heap| < limit {
      h := Push(Flip(le), heap, item);
    } else {
      RootAboveAll(Flip(le), heap);
      if le(heap[0], item) {
        h := heap;
        RejectedWitness(le, multiset(heap), item, heap[0], limit);
      } else {
        BoundedWitness(le, multiset(heap), item, heap[0], limit);
        RootMayChange(Flip(le), heap, item);
        h := SiftDown(Flip(le), heap[0 := item]);
      }
    }
  }

  lemma RootMayChange<T(!new)>(above: (T, T) -> bool, h: seq<T>, item: T)
    requires IsHeap(above, h) && h != []
    ensures HeapExceptDown(above, h[0 := item], 0)
    ensures multiset(h[0 := item]) == multiset(h) - multiset{h[0]} + multiset{item}
  {
  }

  lemma RejectedWitness<T(!new)>(le: (T, T) -> bool, kept: multiset<T>, item: T, worst: T, limit: nat)
    requires TotalPreorder(le) && |kept| == limit > 0 && le(worst, item)
    requires forall x :: x in kept ==> le(x, worst)
    ensures KeepsBest(le, kept, item, limit, kept)
  {
    assert kept == kept + multiset{item} - multiset{item};
    Totality(le, item, item);
    forall x | x in kept + multiset{item} ensures le(x, item) {
      if x != item { Transitivity(le, x, worst, item); }
    }
  }

  lemma BoundedWitness<T(!new)>(le: (T, T) -> bool, kept: multiset<T>, item: T, worst: T, limit: nat)
    requires TotalPreorder(le) && worst in kept && |kept| == limit && !le(worst, item)
    requires forall x :: x in kept ==> le(x, worst)
    ensures KeepsBest(le, kept, item, limit, kept - multiset{worst} + multiset{item})
  {
    assert kept - multiset{worst} + multiset{item} == kept + multiset{item} - multiset{worst};
    Totality(le, item, worst);
  }

  /** What one push does to the set of kept elements: keep everything while there is room,
      otherwise drop a worst element of `kept + item`. */
  ghost predicate KeepsBest<T(!new)>(le: (T, T) -> bool, kept: multiset<T>, item: T, limit: nat, next: multiset<T>) {
    if |kept| < limit then next == kept + multiset{item}
    else if limit == 0 then next == kept
    else exists worst :: worst in kept + multiset{item}
                         && (forall x :: x in kept + multiset{item} ==> le(x, worst))
                         && next == kept + multiset{item} - multiset{worst}
  }

  /** `kept` holds the best `limit` elements of `seen`. */
  ghost predicate Best<T(!new)>(le: (T, T) -> bool, kept: multiset<T>, seen: multiset<T>, limit: nat) {
    && kept <= seen
    && |kept| == (if |seen| < limit then |seen| else limit)
    && AllBelow(le, kept, seen - kept)
  }

  /** Pushing keeps the buffer equal to the best elements seen so far. */
  lemma BestStep<T(!new)>(le: (T, T) -> bool, kept: multiset<T>, seen: multiset<T>, limit: nat, item: T, next: multiset<T>)
    requires TotalPreorder(le) && Best(le, kept, seen, limit) && KeepsBest(le, kept, item, limit, next)
    ensures Best(le, next, seen + multiset{item}, limit)
  {
    if |kept| < limit {
      KeptEverything(kept, seen);
      assert seen + multiset{item} - next == multiset{};
    } else if limit == 0 {
      assert kept == multiset{};
    } else {
      var worst :| worst in kept + multiset{item}
                   && (forall x :: x in kept + multiset{item} ==> le(x, worst))
                   && next == kept + multiset{item} - multiset{worst};
      DroppedElement(kept, seen, item, worst, next);
      DroppedBelow(le, kept, seen, item, worst, next);
    }
  }

  lemma KeptEverything<T(!new)>(kept: multiset<T>, seen: multiset<T>)
    requires kept <= seen && |kept| == |seen|
    ensures kept == seen
  {
    assert seen == kept + (seen - kept);
  }

  lemma DroppedBelow<T(!new)>(le: (T, T) -> bool, kept: multiset<T>, seen: multiset<T>, item: T, worst: T, next: multiset<T>)
    requires TotalPreorder(le) && AllBelow(le, kept, seen - kept)
    requires worst in kept + multiset{item} && (forall z :: z in kept + multiset{item} ==> le(z, worst))
    requires next == kept + multiset{item} - multiset{worst}
    ensures AllBelow(le, next, (seen - kept) + multiset{worst})
  {
    forall x, y | x in next && y in (seen - kept) + multiset{worst} ensures le(x, y) {
      assert x in kept + multiset{item};
      if y != worst && x !in kept {
        SomeKeptBelow(le, kept, seen, item, worst, next, x, y);
      }
    }
  }

  lemma DroppedElement<T(!new)>(kept: multiset<T>, seen: multiset<T>, item: T, worst: T, next: multiset<T>)
    requires kept <= seen && worst in kept + multiset{item} && next == kept + multiset{item} - multiset{worst}
    ensures next <= seen + multiset{item} && |next| == |kept|
    ensures seen + multiset{item} - next == (seen - kept) + multiset{worst}
  {
    assert |kept + multiset{item}| == |kept| + 1;
  }

  lemma SomeKeptBelow<T(!new)>(le: (T, T) -> bool, kept: multiset<T>, seen: multiset<T>, item: T, worst: T, next: multiset<T>, x: T, y: T)
    requires TotalPreorder(le) && AllBelow(le, kept, seen - kept) && y in seen - kept
    requires worst in kept + multiset{item} && (forall z :: z in kept + multiset{item} ==> le(z, worst))
    requires next == kept + multiset{item} - multiset{worst} && x in next && x !in kept
    ensures le(x, y)
  {
    assert x == item && worst != item;
    assert worst in kept;
    Transitivity(le, x, worst, y);
  }
}
