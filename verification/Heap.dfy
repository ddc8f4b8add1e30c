/** Binary heaps stored in a slice, as Go's container/heap keeps them.  The pool's nonce index and
    price index are both heaps of this kind; the order is a parameter, as heap.Interface makes it. */
module Heap {

  /** `less` is a strict order whose "not less" is transitive (a strict weak order). */
  ghost predicate Order<T(!new)>(less: (T, T) -> bool) {
    && (forall a, b :: less(a, b) ==> !less(b, a))
    && (forall a, b, c :: !less(b, a) && !less(c, b) ==> !less(c, a))
  }

  function Parent(i: int): (p: int)
    requires 0 < i
    ensures 0 <= p < i
  {
    (i - 1) / 2
  }

  /** Every element whose parent is at index `lo` or later is no less than that parent. */
  ghost predicate HeapFrom<T>(h: seq<T>, less: (T, T) -> bool, lo: int) {
    forall k {:trigger Parent(k)} :: 0 < k < |h| && Parent(k) >= lo ==> !less(h[k], h[Parent(k)])
  }

  ghost predicate IsHeap<T>(h: seq<T>, less: (T, T) -> bool) {
    forall k {:trigger Parent(k)} :: 0 < k < |h| ==> !less(h[k], h[Parent(k)])
  }

  function Swap<T>(h: seq<T>, i: int, j: int): (r: seq<T>)
    requires 0 <= i < |h| && 0 <= j < |h|
    ensures |r| == |h| && r[i] == h[j] && r[j] == h[i]
    ensures forall k :: 0 <= k < |h| && k != i && k != j ==> r[k] == h[k]
    ensures multiset(r) == multiset(h)
  {
    h[i := h[j]][j := h[i]]
  }

  /** A heap except that the element at `j` may be less than its parent. */
  ghost predicate HeapButUp<T>(h: seq<T>, less: (T, T) -> bool, j: int) {
    && (forall k {:trigger Parent(k)} :: 0 < k < |h| && k != j ==> !less(h[k], h[Parent(k)]))
    && (0 < j ==> forall k {:trigger Parent(k)} :: 0 < k < |h| && Parent(k) == j ==> !less(h[k], h[Parent(j)]))
  }

  function Up<T(!new)>(h: seq<T>, less: (T, T) -> bool, j: int): (r: seq<T>)
    requires 0 <= j < |h|
    ensures |r| == |h| && multiset(r) == multiset(h)
    decreases j
  {
    if j == 0 || !less(h[j], h[Parent(j)]) then h
    else Up(Swap(h, Parent(j), j), less, Parent(j))
  }

  lemma {:induction false} UpHeap<T(!new)>(h: seq<T>, less: (T, T) -> bool, j: int)
    requires 0 <= j < |h| && Order(less) && HeapButUp(h, less, j)
    ensures IsHeap(Up(h, less, j), less)
    decreases j
  {
    if j != 0 && less(h[j], h[Parent(j)]) {
      var p := Parent(j);
      var g := Swap(h, p, j);
      forall k | 0 < k < |g| && k != p ensures !less(g[k], g[Parent(k)]) {
        if k != j && Parent(k) == j { assert !less(h[k], h[p]); }
        if k != j && Parent(k) == p { assert !less(h[k], h[p]); }
      }
      if 0 < p {
        forall k | 0 < k < |g| && Parent(k) == p ensures !less(g[k], g[Parent(p)]) {
          assert !less(h[p], h[Parent(p)]);
          if k != j { assert !less(h[k], h[p]); }
        }
      }
      UpHeap(g, less, p);
    }
  }

  function MinChild<T>(h: seq<T>, less: (T, T) -> bool, i: int): (j: int)
    requires 0 <= i && 2 * i + 1 < |h|
    ensures 0 < j < |h| && Parent(j) == i
  {
    if 2 * i + 2 < |h| && less(h[2 * i + 2], h[2 * i + 1]) then 2 * i + 2 else 2 * i + 1
  }

  /** A heap from `lo` on except that the element at `i` may exceed its children. */
  ghost predicate HeapButDown<T>(h: seq<T>, less: (T, T) -> bool, i: int, lo: int) {
    && (forall k {:trigger Parent(k)} :: 0 < k < |h| && Parent(k) >= lo && Parent(k) != i ==> !less(h[k], h[Parent(k)]))
    && (0 < i && Parent(i) >= lo ==>
          forall k {:trigger Parent(k)} :: 0 < k < |h| && Parent(k) == i ==> !less(h[k], h[Parent(i)]))
  }

  predicate Sinks<T>(h: seq<T>, less: (T, T) -> bool, i: int)
    requires 0 <= i < |h|
  {
    2 * i + 1 < |h| && less(h[MinChild(h, less, i)], h[i])
  }

  function Down<T(!new)>(h: seq<T>, less: (T, T) -> bool, i: int): (r: seq<T>)
    requires 0 <= i < |h|
    ensures |r| == |h| && multiset(r) == multiset(h)
    decreases |h| - i
  {
    if Sinks(h, less, i) then Down(Swap(h, i, MinChild(h, less, i)), less, MinChild(h, less, i)) else h
  }

  lemma MinChildIsMin<T(!new)>(h: seq<T>, less: (T, T) -> bool, i: int, k: int)
    requires 0 <= i && 2 * i + 1 < |h| && Order(less)
    requires 0 < k < |h| && Parent(k) == i
    ensures !less(h[k], h[MinChild(h, less, i)])
  {
    assert k == 2 * i + 1 || k == 2 * i + 2;
    assert !less(h[k], h[k]);
  }

  lemma {:induction false} DownHeap<T(!new)>(h: seq<T>, less: (T, T) -> bool, i: int, lo: int)
    requires 0 <= lo <= i < |h| && Order(less) && HeapButDown(h, less, i, lo)
    ensures HeapFrom(Down(h, less, i), less, lo)
    decreases |h| - i
  {
    if Sinks(h, less, i) {
      var j := MinChild(h, less, i);
      var g := Swap(h, i, j);
      forall k | 0 < k < |g| && Parent(k) >= lo && Parent(k) != j ensures !less(g[k], g[Parent(k)]) {
        if Parent(k) == i { MinChildIsMin(h, less, i, k); }
        if k == i && Parent(i) >= lo { assert !less(h[j], h[Parent(i)]); }
      }
      forall k | 0 < k < |g| && Parent(k) == j ensures !less(g[k], g[Parent(j)]) {
        assert !less(h[k], h[j]);
      }
      DownHeap(g, less, j, lo);
    } else {
      forall k | 0 < k < |h| && Parent(k) >= lo ensures !less(h[k], h[Parent(k)]) {
        if Parent(k) == i { MinChildIsMin(h, less, i, k); }
      }
    }
  }

  /** The element at the front of a heap is a least one. */
  lemma {:induction false} FrontIsLeast<T(!new)>(h: seq<T>, less: (T, T) -> bool, i: int)
    requires 0 <= i < |h| && Order(less) && IsHeap(h, less)
    ensures !less(h[i], h[0])
    decreases i
  {
    if i != 0 {
      FrontIsLeast(h, less, Parent(i));
    }
  }

  method Push<T(!new)>(h: seq<T>, less: (T, T) -> bool, x: T) returns (r: seq<T>)
    requires Order(less) && IsHeap(h, less)
    ensures IsHeap(r, less) && multiset(r) == multiset(h) + multiset{x}
  {
    UpHeap(h + [x], less, |h|);
    r := Up(h + [x], less, |h|);
  }

  /** Takes the front element out. */
  method Pop<T(!new)>(h: seq<T>, less: (T, T) -> bool) returns (x: T, r: seq<T>)
    requires h != [] && Order(less) && IsHeap(h, less)
    ensures x == h[0] && IsHeap(r, less) && multiset(h) == multiset(r) + multiset{x}
    ensures forall y :: y in h ==> !less(y, x)
  {
    Cut(h, 0);
    x, r := h[0], Swap(h, 0, |h| - 1)[..|h| - 1];
    if r != [] {
      DownHeap(r, less, 0, 0);
      r := Down(r, less, 0);
    }
    forall y | y in h ensures !less(y, x) {
      var i :| 0 <= i < |h| && h[i] == y;
      FrontIsLeast(h, less, i);
    }
  }

  /** Moving the element at `i` to the end and cutting it off removes one occurrence of it. */
  lemma Cut<T>(h: seq<T>, i: int)
    requires 0 <= i < |h|
    ensures multiset(h) == multiset(Swap(h, i, |h| - 1)[..|h| - 1]) + multiset{h[i]}
  {
    var g := Swap(h, i, |h| - 1);
    assert g == g[..|h| - 1] + [g[|h| - 1]];
  }

  method Remove<T(!new)>(h: seq<T>, less: (T, T) -> bool, i: nat) returns (r: seq<T>)
    requires i < |h| && Order(less) && IsHeap(h, less)
    ensures IsHeap(r, less) && multiset(h) == multiset(r) + multiset{h[i]}
  {
    Cut(h, i);
    r := Swap(h, i, |h| - 1)[..|h| - 1];
    if i < |h| - 1 {
      if Sinks(r, less, i) {
        SinksToHeap(h, r, less, i);
        r := Down(r, less, i);
      } else {
        RisesToHeap(h, r, less, i);
        r := Up(r, less, i);
      }
    }
  }

  lemma SinksToHeap<T(!new)>(h: seq<T>, g: seq<T>, less: (T, T) -> bool, i: nat)
    requires |g| == |h| - 1 && i < |g| && Order(less) && IsHeap(h, less)
    requires forall k :: 0 <= k < |g| && k != i ==> g[k] == h[k]
    requires Sinks(g, less, i)
    ensures IsHeap(Down(g, less, i), less)
  {
    if 0 < i {
      forall k | 0 < k < |g| && Parent(k) == i ensures !less(g[k], g[Parent(i)]) {
        assert !less(h[k], h[i]) && !less(h[i], h[Parent(i)]);
      }
      var c := MinChild(g, less, i);
      assert !less(g[c], g[Parent(i)]) && !less(g[i], g[c]);
      assert !less(g[i], g[Parent(i)]);
    }
    DownHeap(g, less, i, 0);
  }

  lemma RisesToHeap<T(!new)>(h: seq<T>, g: seq<T>, less: (T, T) -> bool, i: nat)
    requires |g| == |h| - 1 && i < |g| && Order(less) && IsHeap(h, less)
    requires forall k :: 0 <= k < |g| && k != i ==> g[k] == h[k]
    requires !Sinks(g, less, i)
    ensures IsHeap(Up(g, less, i), less)
  {
    if 0 < i {
      forall k | 0 < k < |g| && Parent(k) == i ensures !less(g[k], g[Parent(i)]) {
        assert !less(h[k], h[i]) && !less(h[i], h[Parent(i)]);
      }
    }
    forall k | 0 < k < |g| && k != i ensures !less(g[k], g[Parent(k)]) {
      if Parent(k) == i { MinChildIsMin(g, less, i, k); }
    }
    UpHeap(g, less, i);
  }

  /** heap.Init: sink every inner node, last one first. */
  function Build<T(!new)>(h: seq<T>, less: (T, T) -> bool, n: nat): (r: seq<T>)
    requires n <= |h|
    ensures |r| == |h| && multiset(r) == multiset(h)
    decreases n
  {
    if n == 0 then h else Build(Down(h, less, n - 1), less, n - 1)
  }

  lemma {:induction false} BuildHeap<T(!new)>(h: seq<T>, less: (T, T) -> bool, n: nat)
    requires n <= |h| && Order(less) && HeapFrom(h, less, n)
    ensures IsHeap(Build(h, less, n), less)
    decreases n
  {
    if n != 0 {
      DownHeap(h, less, n - 1, n - 1);
      BuildHeap(Down(h, less, n - 1), less, n - 1);
    }
  }

  method Init<T(!new)>(h: seq<T>, less: (T, T) -> bool) returns (r: seq<T>)
    requires Order(less)
    ensures IsHeap(r, less) && multiset(r) == multiset(h)
  {
    BuildHeap(h, less, |h| / 2);
    r := Build(h, less, |h| / 2);
  }
}
