/** The priority queue of the event loop: a binary heap over a growable array, ordered by the
    comparison of module Tasks. */
module TaskQueues {
  import opened Tasks

  function Parent(i: int): int
    requires 0 < i
  {
    (i - 1) / 2
  }

  /** `p` may stand above `c` in the heap. */
  predicate Above(p: Task, c: Task) {
    !FiresAfter(p, c)
  }

  ghost predicate IsHeap(h: seq<Task>) {
    forall i :: 0 < i < |h| ==> Above(h[Parent(i)], h[i])
  }

  /** A heap but for the edge from `k` to its parent, while the children of `k` are in order
      with k's parent. */
  ghost predicate IsHeapBelow(h: seq<Task>, k: int) {
    && 0 <= k < |h|
    && (forall i :: 0 < i < |h| && i != k ==> Above(h[Parent(i)], h[i]))
    && (k > 0 ==> forall i :: 0 < i < |h| && Parent(i) == k ==> Above(h[Parent(k)], h[i]))
  }

  /** A heap but for the edges from `k` to its children, which are in order with k's parent. */
  ghost predicate IsHeapAbove(h: seq<Task>, k: int) {
    && 0 <= k < |h|
    && (forall i :: 0 < i < |h| && Parent(i) != k ==> Above(h[Parent(i)], h[i]))
    && (k > 0 ==> forall i :: 0 < i < |h| && Parent(i) == k ==> Above(h[Parent(k)], h[i]))
  }

  function Swap(h: seq<Task>, i: int, j: int): seq<Task>
    requires 0 <= i < |h| && 0 <= j < |h|
  {
    h[i := h[j]][j := h[i]]
  }

  lemma SwapKeepsElements(h: seq<Task>, i: int, j: int)
    requires 0 <= i < |h| && 0 <= j < |h|
    ensures multiset(Swap(h, i, j)) == multiset(h)
  {
  }

  /** No task of a heap fires before its root. */
  lemma {:induction false} RootIsTop(h: seq<Task>, k: int)
    requires IsHeap(h) && 0 <= k < |h|
    ensures Above(h[0], h[k])
  {
    if k > 0 {
      RootIsTop(h, Parent(k));
      FiresAfterIsStrictOrder(h[0], h[Parent(k)], h[k]);
    }
  }

  lemma HeapTop(h: seq<Task>)
    requires IsHeap(h) && h != []
    ensures IsTop(h[0], multiset(h))
  {
    forall u | u in multiset(h) ensures !FiresAfter(h[0], u) {
      var k :| 0 <= k < |h| && h[k] == u;
      RootIsTop(h, k);
    }
  }

  lemma SiftUpStep(h: seq<Task>, k: int)
    requires IsHeapBelow(h, k) && k > 0 && FiresAfter(h[Parent(k)], h[k])
    ensures IsHeapBelow(Swap(h, k, Parent(k)), Parent(k))
  {
    var p, g := Parent(k), Swap(h, k, Parent(k));
    FiresAfterIsStrictOrder(h[p], h[k], h[p]);
    forall i | 0 < i < |g| && i != p ensures Above(g[Parent(i)], g[i]) {
      if i == k {
      } else if Parent(i) == k {
        assert Above(h[p], h[i]);
      } else if Parent(i) == p {
        assert Above(h[p], h[i]);
        FiresAfterIsStrictOrder(h[k], h[p], h[i]);
      } else {
        assert g[i] == h[i] && g[Parent(i)] == h[Parent(i)];
      }
    }
    if p > 0 {
      var q := Parent(p);
      assert Above(h[q], h[p]);
      forall i | 0 < i < |g| && Parent(i) == p ensures Above(g[q], g[i]) {
        if i != k {
          assert Above(h[p], h[i]);
          FiresAfterIsStrictOrder(h[q], h[p], h[i]);
        }
      }
    }
  }

  lemma SiftDownStep(h: seq<Task>, k: int, c: int)
    requires IsHeapAbove(h, k) && 0 < c < |h| && Parent(c) == k && FiresAfter(h[k], h[c])
    requires forall i :: 0 < i < |h| && Parent(i) == k ==> Above(h[c], h[i])
    ensures IsHeapAbove(Swap(h, k, c), c)
  {
  }

  lemma LastReplacesRoot(h: seq<Task>)
    requires IsHeap(h) && h != []
    ensures var r := Swap(h, 0, |h| - 1)[..|h| - 1];
            && multiset(r) == multiset(h) - multiset{h[0]}
            && (r != [] ==> IsHeapAbove(r, 0))
  {
    var last := |h| - 1;
    SwapAndDropLast(h);
    if last > 0 {
      LastAtRoot(h, Swap(h, 0, last)[..last]);
    }
  }

  lemma SwapAndDropLast(h: seq<Task>)
    requires h != []
    ensures multiset(Swap(h, 0, |h| - 1)[..|h| - 1]) == multiset(h) - multiset{h[0]}
  {
    DropLast(Swap(h, 0, |h| - 1));
    SwapKeepsElements(h, 0, |h| - 1);
  }

  lemma LastAtRoot(h: seq<Task>, r: seq<Task>)
    requires IsHeap(h) && 0 < |r| == |h| - 1
    requires forall i :: 0 < i < |r| ==> r[i] == h[i]
    ensures IsHeapAbove(r, 0)
  {
  }

  lemma DropLast(w: seq<Task>)
    requires w != []
    ensures multiset(w[..|w| - 1]) == multiset(w) - multiset{w[|w| - 1]}
  {
    assert w == w[..|w| - 1] + [w[|w| - 1]];
  }

  lemma LeastChild(h: seq<Task>, k: int, c: int)
    requires 0 <= k && 2 * k + 1 < |h|
    requires c == if 2 * k + 2 < |h| && FiresAfter(h[2 * k + 1], h[2 * k + 2]) then 2 * k + 2 else 2 * k + 1
    ensures Parent(c) == k
    ensures forall i :: 0 < i < |h| && Parent(i) == k ==> Above(h[c], h[i])
  {
  }

  lemma SinkStops(h: seq<Task>, k: int, c: int)
    requires IsHeapAbove(h, k) && 0 < c < |h| && Above(h[k], h[c])
    requires forall i :: 0 < i < |h| && Parent(i) == k ==> Above(h[c], h[i])
    ensures IsHeap(h)
  {
  }

  class TaskQueue {
    var heap: seq<Task>

    constructor ()
      ensures IsHeap(heap) && heap == []
    {
      heap := [];
    }

    method Push(t: Task)
      requires IsHeap(heap)
      modifies this
      ensures IsHeap(heap)
      ensures multiset(heap) == multiset(old(heap)) + multiset{t}
    {
      heap := heap + [t];
      var k := |heap| - 1;
      while k > 0 && FiresAfter(heap[Parent(k)], heap[k])
        invariant IsHeapBelow(heap, k)
        invariant multiset(heap) == multiset(old(heap)) + multiset{t}
      {
        SiftUpStep(heap, k);
        SwapKeepsElements(heap, k, Parent(k));
        heap, k := Swap(heap, k, Parent(k)), Parent(k);
      }
    }

    method Top() returns (t: Task)
      requires IsHeap(heap) && heap != []
      ensures IsTop(t, multiset(heap)) && t == heap[0]
    {
      HeapTop(heap);
      t := heap[0];
    }

    /** Removes the top: the last element takes its place and sinks. */
    method Pop()
      requires IsHeap(heap) && heap != []
      modifies this
      ensures IsHeap(heap)
      ensures multiset(heap) == multiset(old(heap)) - multiset{old(heap)[0]}
    {
      LastReplacesRoot(heap);
      heap := Swap(heap, 0, |heap| - 1)[..|heap| - 1];
      if heap != [] {
        Sink();
      }
    }

    method Sink()
      requires IsHeapAbove(heap, 0)
      modifies this
      ensures IsHeap(heap)
      ensures multiset(heap) == multiset(old(heap))
    {
      var k := 0;
      while 2 * k + 1 < |heap|
        invariant IsHeapAbove(heap, k)
        invariant multiset(heap) == multiset(old(heap))
        decreases |heap| - k
      {
        var c := 2 * k + 1;
        if c + 1 < |heap| && FiresAfter(heap[c], heap[c + 1]) {
          c := c + 1;
        }
        LeastChild(heap, k, c);
        if !FiresAfter(heap[k], heap[c]) {
          SinkStops(heap, k, c);
          return;
        }
        SiftDownStep(heap, k, c);
        SwapKeepsElements(heap, k, c);
        heap, k := Swap(heap, k, c), c;
      }
    }
  }
}
