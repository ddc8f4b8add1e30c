/** core/tx_list.go, txPricedList: a price heap over the whole pool whose stale entries are cleaned up
    lazily, and core/tx_pool.go, txLookup and accountSet, which it consults. */
module PricedList {
  import opened Transactions
  import Heap

  /** Cheaper first; among equal prices the higher nonce is worse. */
  predicate PriceLess(a: Tx, b: Tx) {
    a.price < b.price || (a.price == b.price && a.nonce > b.nonce)
  }

  lemma PriceOrder()
    ensures Heap.Order(PriceLess)
  {
  }

  /** A slice of transactions that is a heap by price. */
  type PriceHeap = h: seq<Tx> | Heap.IsHeap(h, PriceLess) witness []

  /** The heap `items` covers the pool `all`: every pooled transaction has an entry in the heap or among
      the entries `taken` out for removal, and at most `slack` entries are surplus. */
  ghost predicate Covers(items: seq<Tx>, taken: seq<Tx>, all: set<Tx>, slack: int) {
    var ok :=
      && (forall tx :: tx in all ==> tx in multiset(items) || tx in taken)
      && |items| + |taken| - |all| <= slack;
    ok
  }

  /** A covering heap is never smaller than the pool. */
  lemma {:induction false} CoverSize(entries: seq<Tx>, all: set<Tx>)
    requires forall tx :: tx in all ==> tx in entries
    ensures |all| <= |entries|
    decreases |entries|
  {
    if entries == [] {
      assert all == {};
    } else {
      var last := entries[|entries| - 1];
      CoverSize(entries[..|entries| - 1], all - {last});
      if last in all { assert all == (all - {last}) + {last}; }
    }
  }

  lemma SurplusIsNatural(items: seq<Tx>, all: set<Tx>, slack: int)
    requires Covers(items, [], all, slack)
    ensures 0 <= |items| - |all| <= slack
  {
    forall tx | tx in all ensures tx in items { assert tx in multiset(items); }
    CoverSize(items, all);
  }

  method PushPrice(items: PriceHeap, tx: Tx) returns (r: PriceHeap)
    ensures multiset(r) == multiset(items) + multiset{tx} && |r| == |items| + 1
  {
    PriceOrder();
    r := Heap.Push(items, PriceLess, tx);
    assert |multiset(r)| == |multiset(items)| + 1;
  }

  method PopPrice(items: PriceHeap) returns (tx: Tx, r: PriceHeap)
    requires items != []
    ensures tx == items[0] && |r| == |items| - 1
    ensures multiset(items) == multiset(r) + multiset{tx}
    ensures forall t :: t in multiset(r) ==> tx.price <= t.price
  {
    PriceOrder();
    tx, r := Heap.Pop(items, PriceLess);
    assert |multiset(items)| == |multiset(r)| + 1;
    forall t | t in multiset(r) ensures tx.price <= t.price {
      assert t in multiset(items);
      assert !PriceLess(t, tx);
    }
  }

  lemma HeadIsCheapest(items: PriceHeap, t: Tx)
    requires items != [] && t in multiset(items)
    ensures items[0].price <= t.price
  {
    PriceOrder();
    var i :| 0 <= i < |items| && items[i] == t;
    Heap.FrontIsLeast(items, PriceLess, i);
  }

  lemma DropStale(items: seq<Tx>, r: seq<Tx>, tx: Tx, all: set<Tx>, slack: int)
    requires Covers(items, [], all, slack) && |r| == |items| - 1
    requires multiset(items) == multiset(r) + multiset{tx} && tx !in all
    ensures Covers(r, [], all, slack - 1)
  {
  }

  /** Pops stale entries off the front of the heap. */
  method Clean(items: PriceHeap, all: set<Tx>, stales: int) returns (r: PriceHeap, stales': int)
    requires Covers(items, [], all, stales)
    ensures Covers(r, [], all, stales') && (r != [] ==> r[0] in all) && (r == [] ==> all == {})
    ensures stales - stales' == |items| - |r|
  {
    r, stales' := items, stales;
    while |r| > 0 && r[0] !in all
      invariant Covers(r, [], all, stales') && stales - stales' == |items| - |r|
      decreases |r|
    {
      var tx, rest := PopPrice(r);
      DropStale(r, rest, tx, all, stales');
      r, stales' := rest, stales' - 1;
    }
    SurplusIsNatural(r, all, stales');
  }

  /** Rebuilds a heap from the pool. */
  method Reheap(all: set<Tx>) returns (r: PriceHeap)
    ensures Covers(r, [], all, 0) && |r| == |all|
  {
    var left, txs := all, [];
    while left != {}
      invariant left <= all && |txs| + |left| == |all|
      invariant forall tx :: tx in all ==> tx in left || tx in multiset(txs)
      decreases left
    {
      var tx :| tx in left;
      txs, left := txs + [tx], left - {tx};
    }
    PriceOrder();
    r := Heap.Init(txs, PriceLess);
    assert |multiset(r)| == |multiset(txs)|;
  }

  predicate IsLocal(tx: Tx, locals: set<Address>) { tx.sender in locals }

  /** One round of Cap or Discard.  `items` is what is left of the heap, `drop` and `save` were popped
      live; nothing dropped is dearer than anything left. */
  ghost predicate Sifting(items: seq<Tx>, drop: seq<Tx>, save: seq<Tx>, all: set<Tx>, locals: set<Address>,
                          slack: int) {
    && (forall tx :: tx in all ==> tx in multiset(items) || tx in drop || tx in save)
    && |items| + |drop| + |save| - |all| <= slack
    && (forall i :: 0 <= i < |drop| ==> drop[i] in all && !IsLocal(drop[i], locals))
    && (forall i :: 0 <= i < |save| ==> save[i] in all)
    && (forall i, t :: 0 <= i < |drop| && t in multiset(items) ==> drop[i].price <= t.price)
  }

  /** Puts the saved entries back. */
  method Restore(items: PriceHeap, drop: seq<Tx>, save: seq<Tx>, all: set<Tx>, slack: int) returns (r: PriceHeap)
    requires forall tx :: tx in all ==> tx in multiset(items) || tx in drop || tx in save
    requires |items| + |drop| + |save| - |all| <= slack
    ensures Covers(r, drop, all, slack) && multiset(r) == multiset(items) + multiset(save)
  {
    r := items;
    for i := 0 to |save|
      invariant |r| == |items| + i
      invariant multiset(r) == multiset(items) + multiset(save[..i])
    {
      r := PushPrice(r, save[i]);
      assert save[..i + 1] == save[..i] + [save[i]];
    }
    assert save[..|save|] == save;
    forall tx | tx in all ensures tx in multiset(r) || tx in drop {
      if tx in save { assert tx in multiset(save); }
    }
  }

  lemma SiftStale(items: seq<Tx>, r: seq<Tx>, tx: Tx, drop: seq<Tx>, save: seq<Tx>, all: set<Tx>,
                  locals: set<Address>, slack: int)
    requires Sifting(items, drop, save, all, locals, slack) && tx !in all
    requires |r| == |items| - 1 && multiset(items) == multiset(r) + multiset{tx}
    ensures Sifting(r, drop, save, all, locals, slack - 1)
  {
  }

  lemma SiftSave(items: seq<Tx>, r: seq<Tx>, tx: Tx, drop: seq<Tx>, save: seq<Tx>, all: set<Tx>, locals: set<Address>,
                 slack: int)
    requires Sifting(items, drop, save, all, locals, slack) && tx in all
    requires |r| == |items| - 1 && multiset(items) == multiset(r) + multiset{tx}
    ensures Sifting(r, drop, save + [tx], all, locals, slack)
  {
    var s := save + [tx];
    assert s[|save|] == tx;
    forall t | t in all ensures t in multiset(r) || t in drop || t in s {
      if t in save { var i :| 0 <= i < |save| && save[i] == t; assert s[i] == t; }
    }
  }

  lemma SiftDrop(items: seq<Tx>, r: seq<Tx>, tx: Tx, drop: seq<Tx>, save: seq<Tx>, all: set<Tx>, locals: set<Address>,
                 slack: int)
    requires Sifting(items, drop, save, all, locals, slack) && tx in all && !IsLocal(tx, locals)
    requires |r| == |items| - 1 && multiset(items) == multiset(r) + multiset{tx}
    requires forall t :: t in multiset(r) ==> tx.price <= t.price
    ensures Sifting(r, drop + [tx], save, all, locals, slack)
  {
    var d := drop + [tx];
    assert d[|drop|] == tx;
    forall t | t in all ensures t in multiset(r) || t in d || t in save {
      if t in drop { var i :| 0 <= i < |drop| && drop[i] == t; assert d[i] == t; }
    }
    forall t | t in multiset(r) ensures t in multiset(items) {}
  }

  /** What a sweep of the heap achieves, whichever way it stops. */
  ghost predicate Swept(r: seq<Tx>, drop: seq<Tx>, all: set<Tx>, locals: set<Address>, slack: int) {
    && Covers(r, drop, all, slack)
    && (forall i :: 0 <= i < |drop| ==> drop[i] in all && !IsLocal(drop[i], locals))
    && (forall tx :: tx in all && IsLocal(tx, locals) ==> tx in multiset(r))
  }

  lemma LocalsStay(items: seq<Tx>, drop: seq<Tx>, save: seq<Tx>, all: set<Tx>, locals: set<Address>, slack: int,
                   r: seq<Tx>)
    requires Sifting(items, drop, save, all, locals, slack)
    requires Covers(r, drop, all, slack) && multiset(r) == multiset(items) + multiset(save)
    ensures Swept(r, drop, all, locals, slack)
  {
    forall tx | tx in all && IsLocal(tx, locals) ensures tx in multiset(r) {
      if tx in drop { assert false; }
    }
  }

  class TxLookup {
    var txs: set<Tx>

    constructor ()
      ensures txs == {}
    {
      txs := {};
    }
  }

  class TxPricedList {
    const all: TxLookup
    var items: PriceHeap
    var stales: int
    /** Entries that Cap or Discard handed out and whose transactions the pool has yet to remove. */
    ghost var taken: seq<Tx>

    ghost predicate Valid()
      reads this, all
    {
      Covers(items, taken, all.txs, stales)
    }

    constructor (all: TxLookup)
      requires all.txs == {}
      ensures this.all == all && Valid() && taken == []
    {
      this.all := all;
      items, stales, taken := [], 0, [];
    }

    /** Adds an entry for a transaction just added to the pool. */
    method Put(tx: Tx)
      requires tx in all.txs && Covers(items, taken, all.txs - {tx}, stales)
      modifies this
      ensures Valid() && taken == old(taken)
    {
      assert all.txs == (all.txs - {tx}) + {tx};
      items := PushPrice(items, tx);
    }

    /** Notes that a transaction has left the pool, and rebuilds the heap once a quarter of it is stale. */
    method Removed()
      requires taken == [] && Covers(items, [], all.txs, stales + 1)
      modifies this
      ensures Valid() && taken == [] && 3 * |items| <= 4 * |all.txs|
    {
      stales := stales + 1;
      if stales <= |items| / 4 { return; }
      items := Reheap(all.txs);
      stales := 0;
    }

    /** On a non-empty pool a remote transaction is underpriced exactly when no pooled one is cheaper. */
    method Underpriced(tx: Tx, locals: set<Address>) returns (r: bool)
      requires Valid() && taken == []
      modifies this
      ensures Valid() && taken == []
      ensures IsLocal(tx, locals) || all.txs == {} ==> !r
      ensures !IsLocal(tx, locals) && all.txs != {} ==> (r <==> forall t :: t in all.txs ==> tx.price <= t.price)
    {
      if IsLocal(tx, locals) { return false; }
      items, stales := Clean(items, all.txs, stales);
      if |items| == 0 { return false; }
      forall t | t in all.txs ensures items[0].price <= t.price { HeadIsCheapest(items, t); }
      r := items[0].price >= tx.price;
    }

    /** Hands out `count` of the cheapest remote transactions, or all of them if there are fewer. */
    method Discard(count: nat, locals: set<Address>) returns (drop: seq<Tx>)
      requires Valid() && taken == []
      modifies this
      ensures Valid() && taken == drop && Swept(items, drop, all.txs, locals, stales)
      ensures |drop| <= count
      ensures forall d, t :: d in drop && t in multiset(items) && t in all.txs && !IsLocal(t, locals) ==>
        d.price <= t.price
      ensures |drop| < count ==> forall t :: t in all.txs && !IsLocal(t, locals) ==> t in drop
    {
      items, drop, stales := Sift(items, all.txs, locals, stales, count);
      taken := drop;
    }

    /** Hands out every remote transaction cheaper than `threshold`. */
    method Cap(threshold: int, locals: set<Address>) returns (drop: seq<Tx>)
      requires Valid() && taken == []
      modifies this
      ensures Valid() && taken == drop && Swept(items, drop, all.txs, locals, stales)
      ensures forall t :: t in all.txs && !IsLocal(t, locals) ==> (t in drop <==> t.price < threshold)
    {
      items, drop, stales := SiftBelow(items, all.txs, locals, stales, threshold);
      taken := drop;
    }
  }

  method Sift(items: PriceHeap, all: set<Tx>, locals: set<Address>, stales: int, count: nat)
    returns (r: PriceHeap, drop: seq<Tx>, stales': int)
    requires Covers(items, [], all, stales)
    ensures Swept(r, drop, all, locals, stales') && |drop| <= count
    ensures forall d, t :: d in drop && t in multiset(r) && t in all && !IsLocal(t, locals) ==> d.price <= t.price
    ensures |drop| < count ==> forall t :: t in all && !IsLocal(t, locals) ==> t in drop
  {
    drop, stales' := [], stales;
    var save: seq<Tx> := [];
    var rest := items;
    while |rest| > 0 && |drop| < count
      invariant Sifting(rest, drop, save, all, locals, stales') && |drop| <= count
      invariant forall i :: 0 <= i < |save| ==> IsLocal(save[i], locals)
      decreases |rest|
    {
      var tx, left := PopPrice(rest);
      if tx !in all {
        SiftStale(rest, left, tx, drop, save, all, locals, stales');
        stales' := stales' - 1;
      } else if IsLocal(tx, locals) {
        SiftSave(rest, left, tx, drop, save, all, locals, stales');
        save := save + [tx];
      } else {
        SiftDrop(rest, left, tx, drop, save, all, locals, stales');
        drop := drop + [tx];
      }
      rest := left;
    }
    r := Restore(rest, drop, save, all, stales');
    LocalsStay(rest, drop, save, all, locals, stales', r);
    SiftEnd(rest, drop, save, all, locals, stales', r, count);
  }

  lemma SiftEnd(rest: seq<Tx>, drop: seq<Tx>, save: seq<Tx>, all: set<Tx>, locals: set<Address>, slack: int,
                r: seq<Tx>, count: nat)
    requires Sifting(rest, drop, save, all, locals, slack) && (rest == [] || |drop| == count)
    requires forall i :: 0 <= i < |save| ==> IsLocal(save[i], locals)
    requires multiset(r) == multiset(rest) + multiset(save)
    ensures forall d, t :: d in drop && t in multiset(r) && t in all && !IsLocal(t, locals) ==> d.price <= t.price
    ensures |drop| < count ==> forall t :: t in all && !IsLocal(t, locals) ==> t in drop
  {
    forall d, t | d in drop && t in multiset(r) && t in all && !IsLocal(t, locals) ensures d.price <= t.price {
      assert t !in save;
      assert t in multiset(rest);
      var i :| 0 <= i < |drop| && drop[i] == d;
    }
  }

  /** Pops until the first live entry at or above `threshold`. */
  method SiftCheap(items: PriceHeap, all: set<Tx>, locals: set<Address>, stales: int, threshold: int)
    returns (rest: PriceHeap, drop: seq<Tx>, save: seq<Tx>, stales': int)
    requires Covers(items, [], all, stales)
    ensures Sifting(rest, drop, save, all, locals, stales')
    ensures forall i :: 0 <= i < |drop| ==> drop[i].price < threshold
    ensures forall i :: 0 <= i < |save| ==> IsLocal(save[i], locals) || threshold <= save[i].price
    ensures forall t :: t in multiset(rest) ==> threshold <= t.price
  {
    rest, drop, save, stales' := items, [], [], stales;
    var done := false;
    while |rest| > 0 && !done
      invariant Sifting(rest, drop, save, all, locals, stales')
      invariant forall i :: 0 <= i < |drop| ==> drop[i].price < threshold
      invariant forall i :: 0 <= i < |save| ==> IsLocal(save[i], locals) || threshold <= save[i].price
      invariant done ==> forall t :: t in multiset(rest) ==> threshold <= t.price
      decreases |rest|
    {
      var tx, left := PopPrice(rest);
      if tx !in all {
        SiftStale(rest, left, tx, drop, save, all, locals, stales');
        stales' := stales' - 1;
      } else if tx.price >= threshold || IsLocal(tx, locals) {
        SiftSave(rest, left, tx, drop, save, all, locals, stales');
        save, done := save + [tx], tx.price >= threshold;
      } else {
        SiftDrop(rest, left, tx, drop, save, all, locals, stales');
        drop := drop + [tx];
      }
      rest := left;
    }
  }

  method SiftBelow(items: PriceHeap, all: set<Tx>, locals: set<Address>, stales: int, threshold: int)
    returns (r: PriceHeap, drop: seq<Tx>, stales': int)
    requires Covers(items, [], all, stales)
    ensures Swept(r, drop, all, locals, stales')
    ensures forall t :: t in all && !IsLocal(t, locals) ==> (t in drop <==> t.price < threshold)
  {
    var rest, save;
    rest, drop, save, stales' := SiftCheap(items, all, locals, stales, threshold);
    r := Restore(rest, drop, save, all, stales');
    LocalsStay(rest, drop, save, all, locals, stales', r);
    BelowEnd(rest, drop, save, all, locals, stales', threshold);
  }

  lemma BelowEnd(rest: seq<Tx>, drop: seq<Tx>, save: seq<Tx>, all: set<Tx>, locals: set<Address>, slack: int,
                 threshold: int)
    requires Sifting(rest, drop, save, all, locals, slack)
    requires forall i :: 0 <= i < |drop| ==> drop[i].price < threshold
    requires forall i :: 0 <= i < |save| ==> IsLocal(save[i], locals) || threshold <= save[i].price
    requires forall t :: t in multiset(rest) ==> threshold <= t.price
    ensures forall t :: t in all && !IsLocal(t, locals) ==> (t in drop <==> t.price < threshold)
  {
  }
}
