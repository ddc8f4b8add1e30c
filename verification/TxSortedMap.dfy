/** core/tx_list.go, txSortedMap: a nonce-indexed map with a heap of its nonces and a sorted cache. */
module SortedMap {
  import opened Common
  import opened Transactions
  import Heap

  predicate NonceLess(a: nat, b: nat) { a < b }

  lemma NonceOrder()
    ensures Heap.Order(NonceLess)
  {
  }

  /** The heap holds exactly the map's nonces, once each. */
  ghost predicate Indexes(index: seq<nat>, items: NonceMap) {
    Heap.IsHeap(index, NonceLess) && multiset(index) == multiset(items.Keys)
  }

  /** The front of the index is the lowest nonce. */
  lemma FrontIsMin(index: seq<nat>, items: NonceMap)
    requires Indexes(index, items)
    ensures |index| == |items| && (index == [] <==> items == map[])
    ensures index != [] ==> index[0] in items && forall n :: n in items ==> index[0] <= n
  {
    assert |multiset(index)| == |index| && |multiset(items.Keys)| == |items.Keys|;
    if index == [] { assert items.Keys == {}; }
    if index != [] {
      assert index[0] in multiset(index);
      NonceOrder();
      forall n | n in items ensures index[0] <= n {
        assert n in multiset(index);
        var i :| 0 <= i < |index| && index[i] == n;
        Heap.FrontIsLeast(index, NonceLess, i);
      }
    }
  }

  method PushNonce(index: seq<nat>, items: NonceMap, tx: Tx) returns (r: seq<nat>)
    requires Indexes(index, items) && tx.nonce !in items
    ensures Indexes(r, items[tx.nonce := tx])
  {
    NonceOrder();
    r := Heap.Push(index, NonceLess, tx.nonce);
    assert items[tx.nonce := tx].Keys == items.Keys + {tx.nonce};
  }

  lemma IndexWithout(index: multiset<nat>, r: multiset<nat>, items: NonceMap, n: nat)
    requires index == multiset(items.Keys) && index == r + multiset{n}
    ensures n in items && r == multiset((items - {n}).Keys)
  {
    assert n in index;
    forall k ensures r[k] == multiset((items - {n}).Keys)[k] { assert index[k] == (r + multiset{n})[k]; }
  }

  method PopNonce(index: seq<nat>, items: NonceMap) returns (n: nat, r: seq<nat>)
    requires Indexes(index, items) && index != []
    ensures n == index[0] && n in items && Indexes(r, items - {n})
  {
    NonceOrder();
    n, r := Heap.Pop(index, NonceLess);
    IndexWithout(multiset(index), multiset(r), items, n);
  }

  method RemoveNonce(index: seq<nat>, items: NonceMap, i: nat) returns (r: seq<nat>)
    requires Indexes(index, items) && i < |index|
    ensures Indexes(r, items - {index[i]})
  {
    NonceOrder();
    r := Heap.Remove(index, NonceLess, i);
    IndexWithout(multiset(index), multiset(r), items, index[i]);
  }

  method InitNonces(nonces: seq<nat>, items: NonceMap) returns (r: seq<nat>)
    requires multiset(nonces) == multiset(items.Keys)
    ensures Indexes(r, items)
  {
    NonceOrder();
    r := Heap.Init(nonces, NonceLess);
  }

  /** sort.Sort: the stored nonces in increasing order. */
  method SortNonces(index: seq<nat>, items: NonceMap) returns (nonces: seq<nat>)
    requires Indexes(index, items)
    ensures multiset(nonces) == multiset(items.Keys)
    ensures forall i, j :: 0 <= i < j < |nonces| ==> nonces[i] < nonces[j]
  {
    nonces := [];
    var rest, left := index, items;
    while rest != []
      invariant Indexes(rest, left)
      invariant multiset(nonces) + multiset(rest) == multiset(items.Keys)
      invariant forall i, j :: 0 <= i < j < |nonces| ==> nonces[i] < nonces[j]
      invariant forall i, n :: 0 <= i < |nonces| && n in left ==> nonces[i] < n
      decreases |rest|
    {
      FrontIsMin(rest, left);
      ghost var before := rest;
      var n, r := PopNonce(rest, left);
      IndexSizes(rest, left, r, left - {n});
      rest, left := r, left - {n};
      nonces := nonces + [n];
    }
  }

  lemma IndexSizes(index: seq<nat>, items: NonceMap, index': seq<nat>, items': NonceMap)
    requires Indexes(index, items) && Indexes(index', items')
    ensures |index| == |items| && |index'| == |items'|
  {
    FrontIsMin(index, items);
    FrontIsMin(index', items');
  }

  /** The transactions behind a sorted list of all nonces. */
  method Behind(nonces: seq<nat>, items: NonceMap) returns (txs: seq<Tx>)
    requires Keyed(items) && multiset(nonces) == multiset(items.Keys)
    requires forall i, j :: 0 <= i < j < |nonces| ==> nonces[i] < nonces[j]
    ensures Flat(txs, items) && |txs| == |nonces|
    ensures forall i :: 0 <= i < |nonces| ==> txs[i].nonce == nonces[i]
  {
    forall i | 0 <= i < |nonces| ensures nonces[i] in items { assert nonces[i] in multiset(nonces); }
    assert |multiset(nonces)| == |nonces| && |multiset(items.Keys)| == |items|;
    txs := seq(|nonces|, i requires 0 <= i < |nonces| => items[nonces[i]]);
  }

  lemma NextSplit(items: NonceMap, b: nat, n: nat)
    requires n in items && b <= n && forall k :: k in items && b <= k ==> n <= k
    ensures AtLeast(items, b) - {n} == AtLeast(items, n + 1)
    ensures Below(items, b)[n := items[n]] == Below(items, n + 1)
  {
  }

  lemma LowestAbove(items: NonceMap, b: nat, n: nat)
    requires forall k :: k in AtLeast(items, b) ==> n <= k
    ensures forall k :: k in items && b <= k ==> n <= k
  {
    forall k | k in items && b <= k ensures n <= k { assert k in AtLeast(items, b); }
  }

  /** Popping the lowest nonce `n` left above `b` leaves what lies above `n`. */
  lemma TakeLowest(items: NonceMap, b: nat, taken: seq<Tx>, n: nat)
    requires Keyed(items) && Flat(taken, Below(items, b))
    requires n in AtLeast(items, b) && forall k :: k in AtLeast(items, b) ==> n <= k
    ensures AtLeast(items, b) - {n} == AtLeast(items, n + 1)
    ensures Flat(taken + [items[n]], Below(items, n + 1))
    ensures |AtLeast(items, n + 1)| < |AtLeast(items, b)|
  {
    LowestAbove(items, b, n);
    NextSplit(items, b, n);
    Shrinks(AtLeast(items, b), n);
    FlatSnoc(taken, Below(items, b), items[n]);
  }

  lemma SameSplit(items: NonceMap, b: nat, t: nat)
    requires b <= t && forall k :: k in AtLeast(items, b) ==> t <= k
    ensures AtLeast(items, b) == AtLeast(items, t) && Below(items, b) == Below(items, t)
  {
    LowestAbove(items, b, t);
  }

  lemma NothingTaken(items: NonceMap)
    ensures AtLeast(items, 0) == items && Flat([], Below(items, 0))
  {
    assert Below(items, 0) == map[];
  }

  lemma CutHighest(items: NonceMap, sorted: seq<nat>, flat: seq<Tx>, size: nat)
    requires Keyed(items) && 0 < size <= |sorted| == |flat| && Flat(flat[..size], items)
    requires multiset(sorted[..size]) == multiset(items.Keys)
    requires forall i :: 0 <= i < |sorted| ==> flat[i].nonce == sorted[i]
    ensures sorted[size - 1] in items && items[sorted[size - 1]] == flat[size - 1]
    ensures Max(items.Keys) == sorted[size - 1]
    ensures Flat(flat[..size - 1], items - {sorted[size - 1]})
    ensures multiset(sorted[..size - 1]) == multiset((items - {sorted[size - 1]}).Keys)
  {
    var s := flat[..size];
    FlatLastIsMax(s, items);
    FlatInit(s, items);
    assert s[..size - 1] == flat[..size - 1];
    assert sorted[..size] == sorted[..size - 1] + [sorted[size - 1]];
    IndexWithout(multiset(sorted[..size]), multiset(sorted[..size - 1]), items, sorted[size - 1]);
  }

  /** Moves the lowest transaction left above `b` to the end of `low`. */
  method PopOne(index: seq<nat>, left: NonceMap, low: seq<Tx>, ghost items: NonceMap, ghost b: nat)
    returns (n: nat, index': seq<nat>, left': NonceMap, low': seq<Tx>)
    requires Keyed(items) && left == AtLeast(items, b) && Indexes(index, left) && index != []
    requires Flat(low, Below(items, b))
    ensures n == index[0] && n in items && n >= b && left' == AtLeast(items, n + 1) && |left'| < |left|
    ensures Indexes(index', left') && Flat(low', Below(items, n + 1))
  {
    FrontIsMin(index, left);
    n, index' := PopNonce(index, left);
    TakeLowest(items, b, low, n);
    low', left' := low + [left[n]], left - {n};
  }

  method PopBelow(index: seq<nat>, items: NonceMap, t: nat) returns (low: seq<Tx>, index': seq<nat>, items': NonceMap)
    requires Keyed(items) && Indexes(index, items)
    ensures Indexes(index', items') && items' == AtLeast(items, t) && Flat(low, Below(items, t))
  {
    low, index', items' := [], index, items;
    ghost var b: nat := 0;
    NothingTaken(items);
    while |index'| > 0 && index'[0] < t
      invariant Indexes(index', items') && b <= t
      invariant items' == AtLeast(items, b) && Flat(low, Below(items, b))
      decreases |items'|
    {
      var n;
      n, index', items', low := PopOne(index', items', low, items, b);
      b := n + 1;
    }
    FrontIsMin(index', items');
    SameSplit(items, b, t);
  }

  /** Moves out the run of consecutive nonces from the lowest one, which ends at `end`. */
  method PopRun(index: seq<nat>, items: NonceMap, ghost end: nat)
    returns (run: seq<Tx>, index': seq<nat>, items': NonceMap)
    requires Keyed(items) && Indexes(index, items) && index != []
    requires index[0] <= end && end !in items && forall k :: index[0] <= k < end ==> k in items
    ensures Indexes(index', items') && items' == AtLeast(items, end) && Flat(run, Below(items, end))
  {
    run, index', items' := [], index, items;
    var next: nat := index[0];
    StartOfRun(index, items);
    while |index'| > 0 && index'[0] == next
      invariant Indexes(index', items') && index[0] <= next <= end
      invariant items' == AtLeast(items, next) && Flat(run, Below(items, next))
      decreases |items'|
    {
      var n;
      n, index', items', run := PopOne(index', items', run, items, next);
      next := next + 1;
    }
    RunIsOver(index', items', items, index[0], next, end);
  }

  lemma RunIsOver(index: seq<nat>, left: NonceMap, items: NonceMap, low: nat, next: nat, end: nat)
    requires Indexes(index, left) && left == AtLeast(items, next) && (index == [] || index[0] != next)
    requires low <= next <= end && forall k :: low <= k < end ==> k in items
    ensures next == end
  {
    FrontIsMin(index, left);
    assert next < end ==> next in left;
  }

  lemma StartOfRun(index: seq<nat>, items: NonceMap)
    requires Indexes(index, items) && index != []
    ensures AtLeast(items, index[0]) == items && Flat([], Below(items, index[0]))
  {
    FrontIsMin(index, items);
    NothingTaken(items);
    SameSplit(items, 0, index[0]);
  }

  /** Drops the highest transaction. */
  method CutOne(items: NonceMap, sorted: seq<nat>, ghost flat: seq<Tx>, size: nat) returns (tx: Tx, items': NonceMap)
    requires Keyed(items) && 0 < size <= |sorted| == |flat| && Flat(flat[..size], items)
    requires multiset(sorted[..size]) == multiset(items.Keys)
    requires forall i :: 0 <= i < |sorted| ==> flat[i].nonce == sorted[i]
    ensures tx == flat[size - 1] && Keyed(items') && Flat(flat[..size - 1], items')
    ensures multiset(sorted[..size - 1]) == multiset(items'.Keys)
  {
    CutHighest(items, sorted, flat, size);
    tx, items' := items[sorted[size - 1]], items - {sorted[size - 1]};
  }

  /** Drops transactions from the highest nonce down, until `k` are left. */
  method CutDown(items: NonceMap, sorted: seq<nat>, ghost flat: seq<Tx>, k: nat)
    returns (drops: seq<Tx>, items': NonceMap)
    requires Keyed(items) && Flat(flat, items) && |sorted| == |flat| && k < |items|
    requires multiset(sorted) == multiset(items.Keys)
    requires forall i :: 0 <= i < |sorted| ==> flat[i].nonce == sorted[i]
    ensures Flat(flat[..k], items') && multiset(sorted[..k]) == multiset(items'.Keys)
    ensures |drops| == |items| - k && forall i :: 0 <= i < |drops| ==> drops[i] == flat[|items| - 1 - i]
  {
    drops, items' := [], items;
    var size := |items|;
    assert sorted[..size] == sorted && flat[..size] == flat;
    while size > k
      invariant k <= size <= |items|
      invariant Keyed(items') && Flat(flat[..size], items') && multiset(sorted[..size]) == multiset(items'.Keys)
      invariant |drops| == |items| - size && forall i :: 0 <= i < |drops| ==> drops[i] == flat[|items| - 1 - i]
    {
      var tx;
      tx, items' := CutOne(items', sorted, flat, size);
      drops, size := drops + [tx], size - 1;
    }
  }

  method CutTo(items: NonceMap, sorted: seq<nat>, ghost flat: seq<Tx>, k: nat)
    returns (drops: seq<Tx>, items': NonceMap)
    requires Keyed(items) && Flat(flat, items) && |sorted| == |flat| && k < |items|
    requires multiset(sorted) == multiset(items.Keys)
    requires forall i :: 0 <= i < |sorted| ==> flat[i].nonce == sorted[i]
    ensures items' == Capped(items, k) && Flat(flat[..k], items')
    ensures multiset(sorted[..k]) == multiset(items'.Keys)
    ensures |drops| == |items| - k && forall i :: 0 <= i < |drops| ==> drops[i] == flat[|items| - 1 - i]
  {
    drops, items' := CutDown(items, sorted, flat, k);
    FlatCapped(flat, items, k);
    FlatSame(flat[..k], items', Capped(items, k));
  }

  /** Splits off what `filter` accepts, visiting the map in any order. */
  method Partition(was: NonceMap, filter: Tx -> bool) returns (removed: seq<Tx>, items: NonceMap)
    requires Keyed(was)
    ensures items == Keep(was, filter) && multiset(removed) == multiset(Txs(Drop(was, filter)))
  {
    var keys := was.Keys;
    ghost var gone := {};
    removed, items := [], was;
    while keys != {}
      invariant keys <= items.Keys <= was.Keys
      invariant forall n :: n in items ==> items[n] == was[n] && (n in keys || !filter(was[n]))
      invariant forall n :: n in was && n !in items ==> filter(was[n])
      invariant multiset(removed) == multiset(gone)
      invariant forall tx :: tx in gone <==> tx.nonce in was && was[tx.nonce] == tx && tx.nonce !in items
      decreases keys
    {
      var n :| n in keys;
      keys := keys - {n};
      if filter(items[n]) {
        removed, gone, items := removed + [items[n]], gone + {items[n]}, items - {n};
      }
    }
    assert items == Keep(was, filter);
    GoneIsDropped(was, filter, items, gone);
  }

  lemma GoneIsDropped(was: NonceMap, filter: Tx -> bool, items: NonceMap, gone: set<Tx>)
    requires Keyed(was) && items == Keep(was, filter)
    requires forall tx :: tx in gone <==> tx.nonce in was && was[tx.nonce] == tx && tx.nonce !in items
    ensures gone == Txs(Drop(was, filter))
  {
    forall tx ensures tx in gone <==> tx in Txs(Drop(was, filter)) {
      if tx in gone { assert tx.nonce in Drop(was, filter); }
    }
  }

  lemma TxsHas(m: NonceMap, n: nat)
    requires n in m
    ensures m[n] in Txs(m)
  {
  }

  lemma NothingDropped(was: NonceMap, filter: Tx -> bool)
    requires Txs(Drop(was, filter)) == {}
    ensures Keep(was, filter) == was
  {
    forall n | n in was ensures !filter(was[n]) {
      if filter(was[n]) { TxsHas(Drop(was, filter), n); }
    }
  }

  class TxSortedMap {
    var items: NonceMap
    var index: seq<nat>
    var cache: Option<seq<Tx>>

    ghost predicate Valid()
      reads this
    {
      Keyed(items) && Indexes(index, items) && (cache.Some? ==> Flat(cache.value, items))
    }

    constructor ()
      ensures Valid() && items == map[] && cache.None?
    {
      items, index, cache := map[], [], None;
    }

    method Get(nonce: nat) returns (tx: Option<Tx>)
      ensures tx == if nonce in items then Some(items[nonce]) else None
    {
      if nonce in items { tx := Some(items[nonce]); } else { tx := None; }
    }

    method Put(tx: Tx)
      requires Valid()
      modifies this
      ensures Valid() && items == old(items)[tx.nonce := tx]
    {
      if tx.nonce !in items {
        index := PushNonce(index, items, tx);
      } else {
        assert items[tx.nonce := tx].Keys == items.Keys;
      }
      items, cache := items[tx.nonce := tx], None;
    }

    method Forward(threshold: nat) returns (removed: seq<Tx>)
      requires Valid()
      modifies this
      ensures Valid()
      ensures items == AtLeast(old(items), threshold) && Flat(removed, Below(old(items), threshold))
    {
      ghost var was := items;
      removed, index, items := PopBelow(index, items, threshold);
      if cache.Some? {
        FlatSplit(cache.value, was, threshold);
        cache := Some(cache.value[|removed|..]);
      }
    }

    /** Moves out every transaction that `filter` accepts, visiting the map in any order. */
    method Filter(filter: Tx -> bool) returns (removed: seq<Tx>)
      requires Valid()
      modifies this
      ensures Valid()
      ensures items == Keep(old(items), filter)
      ensures multiset(removed) == multiset(Txs(Drop(old(items), filter)))
    {
      ghost var was := items;
      removed, items := Partition(items, filter);
      if |removed| > 0 {
        Reindex();
      } else {
        assert multiset(Txs(Drop(was, filter))) == multiset{};
        NothingDropped(was, filter);
      }
    }

    /** Filter, with the reason for each removal. */
    method FilterWithError<E>(filter: Tx -> Option<E>) returns (removed: seq<Tx>, errs: seq<E>)
      requires Valid()
      modifies this
      ensures Valid()
      ensures items == Keep(old(items), tx => filter(tx).Some?)
      ensures multiset(removed) == multiset(Txs(Drop(old(items), tx => filter(tx).Some?)))
      ensures |errs| == |removed| && forall i :: 0 <= i < |errs| ==> filter(removed[i]) == Some(errs[i])
    {
      var fails := tx => filter(tx).Some?;
      ghost var was := items;
      removed := Filter(fails);
      assert items == Keep(was, tx => filter(tx).Some?);
      assert Drop(was, fails) == Drop(was, tx => filter(tx).Some?);
      errs := [];
      for i := 0 to |removed|
        invariant |errs| == i
        invariant forall j :: 0 <= j < i ==> filter(removed[j]) == Some(errs[j])
      {
        assert removed[i] in multiset(removed);
        errs := errs + [filter(removed[i]).value];
      }
    }

    method Reindex()
      requires Keyed(items)
      modifies this
      ensures Valid() && items == old(items)
    {
      var keys, nonces := items.Keys, [];
      while keys != {}
        invariant keys <= items.Keys && multiset(nonces) + multiset(keys) == multiset(items.Keys)
        decreases keys
      {
        var n :| n in keys;
        nonces, keys := nonces + [n], keys - {n};
      }
      index := InitNonces(nonces, items);
      cache := None;
    }

    method Cap(threshold: nat) returns (drops: seq<Tx>)
      requires Valid()
      modifies this
      ensures Valid()
      ensures items == Capped(old(items), threshold)
      ensures |drops| == |old(items)| - |items|
      ensures forall i, j :: 0 <= i < j < |drops| ==> drops[i].nonce > drops[j].nonce
      ensures forall i :: 0 <= i < |drops| ==> drops[i].nonce in old(items) && old(items)[drops[i].nonce] == drops[i]
    {
      if |items| <= threshold { return []; }
      ghost var was := items;
      var sorted := SortNonces(index, items);
      ghost var flat := Behind(sorted, items);
      drops, items := CutTo(items, sorted, flat, threshold);
      index := InitNonces(sorted[..threshold], items);
      if cache.Some? {
        FlatUnique(cache.value, flat, was);
        cache := Some(cache.value[..|cache.value| - |drops|]);
      }
    }

    method Remove(nonce: nat) returns (found: bool)
      requires Valid()
      modifies this
      ensures Valid() && found == (nonce in old(items)) && items == old(items) - {nonce}
    {
      if nonce !in items { return false; }
      var i := 0;
      assert nonce in multiset(index);
      while index[i] != nonce
        invariant 0 <= i < |index| && nonce in index[i..]
        decreases |index| - i
      {
        i := i + 1;
      }
      index := RemoveNonce(index, items, i);
      items, cache := items - {nonce}, None;
      found := true;
    }

    /** Takes out the maximal run of consecutive nonces from the lowest one, if that is at most `start`. */
    method Ready(start: nat) returns (ready: seq<Tx>)
      requires Valid()
      modifies this
      ensures Valid()
      ensures items == ReadyRest(old(items), start) && Flat(ready, ReadyPart(old(items), start))
    {
      FrontIsMin(index, items);
      if |index| == 0 || index[0] > start {
        if |index| > 0 { MinIs(items.Keys, index[0]); }
        return [];
      }
      MinIs(items.Keys, index[0]);
      ready, index, items := PopRun(index, items, RunEnd(items, index[0]));
      cache := None;
    }

    method Flatten() returns (txs: seq<Tx>)
      requires Valid()
      modifies this
      ensures Valid() && items == old(items) && Flat(txs, items)
    {
      if cache.None? {
        var sorted := SortNonces(index, items);
        var flat := Behind(sorted, items);
        cache := Some(flat);
      }
      txs := cache.value;
    }
  }
}
