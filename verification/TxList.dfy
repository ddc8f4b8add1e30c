/** core/tx_list.go, txList: one account's transactions with lazily lowered cost and gas caps. */
module AccountList {
  import opened Common
  import opened Transactions
  import opened SortedMap

  /** stakingTxCheckThreshold: staking transactions are re-validated every 10 blocks. */
  const STAKING_CHECK_PERIOD: nat := 10

  /** What a list is filtered against: the owner's balance, the block gas limit, and the verdict of the
      staking verifier on the current state. */
  datatype Limits = Limits(balance: int, maxGas: nat, stakingOk: Tx -> bool)

  datatype ListState = ListState(strict: bool, items: NonceMap, costcap: int, gascap: nat, lastStkCheck: nat)

  /** Stored transactions are keyed by nonce, have a cost, and respect the caps. */
  ghost predicate Capsound(l: ListState) {
    forall n :: n in l.items ==>
      && l.items[n].nonce == n
      && l.items[n].cost.Some? && l.items[n].cost.value <= l.costcap
      && l.items[n].gas <= l.gascap
  }

  function Fresh(strict: bool): ListState { ListState(strict, map[], 0, 0, 0) }

  /** A replacement must beat the old price strictly and by `bump` percent. */
  predicate Outbids(prior: Tx, tx: Tx, bump: nat) {
    prior.price < tx.price && prior.price * (100 + bump) / 100 <= tx.price
  }

  /** The price of a replacement is higher, and falls short of the bumped price by less than one unit at most; so no two
      transactions outbid each other. */
  lemma OutbidsExactly(prior: Tx, tx: Tx, bump: nat)
    ensures Outbids(prior, tx, bump) <==>
      tx.price > prior.price && 100 * tx.price + 100 > prior.price * 100 + prior.price * bump
    ensures Outbids(prior, tx, bump) ==> !Outbids(tx, prior, bump)
  {
    assert prior.price * (100 + bump) == prior.price * 100 + prior.price * bump;
  }

  predicate Accepts(l: ListState, tx: Tx, bump: nat) {
    (tx.nonce in l.items ==> Outbids(l.items[tx.nonce], tx, bump)) && tx.cost.Some?
  }

  function Added(l: ListState, tx: Tx): ListState
    requires tx.cost.Some?
  {
    l.(items := l.items[tx.nonce := tx],
       costcap := if l.costcap < tx.cost.value then tx.cost.value else l.costcap,
       gascap := if l.gascap < tx.gas then tx.gas else l.gascap)
  }

  predicate Payable(tx: Tx, lim: Limits) {
    tx.cost.Some? && tx.cost.value <= lim.balance && tx.gas <= lim.maxGas
  }

  predicate StakingDue(l: ListState, bn: nat) { bn >= l.lastStkCheck + STAKING_CHECK_PERIOD }

  predicate Bad(tx: Tx, lim: Limits, checkStaking: bool) {
    !Payable(tx, lim) || (checkStaking && !tx.kind.Plain? && !lim.stakingOk(tx))
  }

  /** Filtering everything unconditionally: the transactions that must go. */
  function Removed(l: ListState, lim: Limits, bn: nat): NonceMap {
    map n | n in l.items && Bad(l.items[n], lim, StakingDue(l, bn)) :: l.items[n]
  }

  /** In a strict list everything above the lowest removed nonce goes back to the queue. */
  function Invalidated(l: ListState, lim: Limits, bn: nat): NonceMap {
    var gone := Removed(l, lim, bn);
    if !l.strict || gone.Keys == {} then map[] else
      map n | n in l.items && n !in gone && n > Min(gone.Keys) :: l.items[n]
  }

  function Survivors(l: ListState, lim: Limits, bn: nat): NonceMap {
    l.items - Removed(l, lim, bn).Keys - Invalidated(l, lim, bn).Keys
  }

  predicate CapsLow(l: ListState, lim: Limits) { l.costcap <= lim.balance && l.gascap <= lim.maxGas }

  /** The list after filtering: caps lowered to the limits unless they already lay below. */
  function Relimited(l: ListState, lim: Limits, bn: nat, items: NonceMap): ListState {
    ListState(l.strict, items,
              if CapsLow(l, lim) then l.costcap else lim.balance,
              if CapsLow(l, lim) then l.gascap else lim.maxGas,
              if StakingDue(l, bn) then bn else l.lastStkCheck)
  }

  function AfterFilter(l: ListState, lim: Limits, bn: nat): ListState {
    Relimited(l, lim, bn, Survivors(l, lim, bn))
  }

  /** The staking rules are applied again at the latest ten blocks after the last time, and then nothing that they turn
      down is left. */
  lemma StakingRecheck(l: ListState, lim: Limits, bn: nat)
    ensures var l' := AfterFilter(l, lim, bn);
      && bn < l'.lastStkCheck + 10
      && (l'.lastStkCheck == l.lastStkCheck || l'.lastStkCheck == bn >= l.lastStkCheck + 10)
      && (l'.lastStkCheck != l.lastStkCheck ==>
           forall n :: n in l'.items ==> l'.items[n].kind == Plain || lim.stakingOk(l'.items[n]))
  {
  }

  /** When the caps lie below the limits nothing is unpayable: the short circuit of filterPrice agrees
      with filtering unconditionally. */
  lemma ShortCircuitSound(l: ListState, lim: Limits)
    requires Capsound(l) && l.costcap <= lim.balance && l.gascap <= lim.maxGas
    ensures forall n :: n in l.items ==> Payable(l.items[n], lim)
  {
  }

  /** Filtering keeps the caps sound, and splits the list into three disjoint parts. */
  lemma FilterKeepsCaps(l: ListState, lim: Limits, bn: nat)
    requires Capsound(l)
    ensures Capsound(AfterFilter(l, lim, bn))
    ensures forall n :: n in l.items ==>
      (n in Survivors(l, lim, bn)) == (n !in Removed(l, lim, bn) && n !in Invalidated(l, lim, bn))
    ensures forall n :: n in Removed(l, lim, bn) ==>
      n !in Invalidated(l, lim, bn) && Removed(l, lim, bn)[n] == l.items[n]
    ensures forall n :: n in Invalidated(l, lim, bn) ==> Invalidated(l, lim, bn)[n] == l.items[n]
  {
    if l.costcap <= lim.balance && l.gascap <= lim.maxGas { ShortCircuitSound(l, lim); }
  }

  /** The nonces of `m` are exactly the interval from `lo` to `hi`. */
  ghost predicate Interval(m: NonceMap, lo: nat, hi: nat) {
    forall n :: n in m <==> lo <= n < hi
  }

  /** On a contiguous strict list filtering leaves exactly the contiguous prefix below the lowest
      removed nonce. */
  lemma FilterLeavesPrefix(l: ListState, lim: Limits, bn: nat, lo: nat, hi: nat) returns (cut: nat)
    requires l.strict && lo <= hi && Interval(l.items, lo, hi)
    ensures lo <= cut <= hi && Interval(Survivors(l, lim, bn), lo, cut)
    ensures cut == if Removed(l, lim, bn).Keys == {} then hi else Min(Removed(l, lim, bn).Keys)
  {
    var gone := Removed(l, lim, bn);
    cut := if gone.Keys == {} then hi else Min(gone.Keys);
    if gone.Keys != {} { assert cut in gone; }
    forall n ensures n in Survivors(l, lim, bn) <==> lo <= n < cut {
      if lo <= n < cut { assert n in l.items && n !in gone; }
    }
  }

  /** Removing one nonce from a strict list also takes out everything above it. */
  function WithoutNonce(l: ListState, nonce: nat): ListState
  {
    l.(items := if l.strict then Below(l.items, nonce) else l.items - {nonce})
  }

  function Above(l: ListState, nonce: nat): NonceMap {
    if l.strict then AtLeast(l.items, nonce + 1) else map[]
  }

  lemma RemoveLeavesPrefix(l: ListState, nonce: nat, lo: nat, hi: nat)
    requires l.strict && Interval(l.items, lo, hi) && lo <= nonce < hi
    ensures Interval(WithoutNonce(l, nonce).items, lo, nonce)
    ensures Interval(Above(l, nonce), nonce + 1, hi)
  {
  }

  /** Why a transaction is taken out. */
  datatype Reason = NoCost | NotEnoughBalance | ExceedsGasLimit | StakingInvalid

  function PriceReason(tx: Tx, lim: Limits): Option<Reason> {
    if tx.cost == None then Some(NoCost)
    else if tx.cost.value > lim.balance then Some(NotEnoughBalance)
    else if tx.gas > lim.maxGas then Some(ExceedsGasLimit)
    else None
  }

  function StakingReason(tx: Tx, lim: Limits): Option<Reason> {
    if !tx.kind.Plain? && !lim.stakingOk(tx) then Some(StakingInvalid) else None
  }

  /** The price is looked at first. */
  function ReasonFor(tx: Tx, lim: Limits): Option<Reason> {
    if PriceReason(tx, lim).Some? then PriceReason(tx, lim) else StakingReason(tx, lim)
  }

  /** Each transaction taken out comes with its reason. */
  ghost predicate Given(removed: seq<Tx>, errs: seq<Reason>, lim: Limits) {
    |errs| == |removed| && forall i :: 0 <= i < |removed| ==> ReasonFor(removed[i], lim) == Some(errs[i])
  }

  lemma GivenBoth(removed: seq<Tx>, errs: seq<Reason>, more: seq<Tx>, why: seq<Reason>, lim: Limits)
    requires Given(removed, errs, lim) && Given(more, why, lim)
    ensures Given(removed + more, errs + why, lim)
  {
  }

  /** Among payable transactions the reason is that of the staking check. */
  lemma StakingGiven(was: NonceMap, removed: seq<Tx>, errs: seq<Reason>, lim: Limits)
    requires |errs| == |removed| && multiset(removed) == multiset(Txs(StakingBad(was, lim)))
    requires forall i :: 0 <= i < |errs| ==> StakingReason(removed[i], lim) == Some(errs[i])
    ensures (forall n :: n in was ==> Payable(was[n], lim)) ==> Given(removed, errs, lim)
  {
    if forall n :: n in was ==> Payable(was[n], lim) {
      forall i | 0 <= i < |removed| ensures ReasonFor(removed[i], lim) == Some(errs[i]) {
        assert removed[i] in multiset(removed);
        assert removed[i] in Txs(StakingBad(was, lim));
      }
    }
  }

  class TxList {
    const strict: bool
    const txs: TxSortedMap
    var lastStkCheck: nat
    var costcap: int
    var gascap: nat

    ghost function Value(): ListState
      reads this, txs
    {
      ListState(strict, txs.items, costcap, gascap, lastStkCheck)
    }

    ghost predicate Valid()
      reads this, txs
    {
      txs.Valid() && Capsound(Value())
    }

    constructor (strict: bool)
      ensures Valid() && fresh(txs) && Value() == Fresh(strict)
    {
      this.strict := strict;
      txs := new TxSortedMap();
      lastStkCheck, costcap, gascap := 0, 0, 0;
    }

    method Overlaps(tx: Tx) returns (r: bool)
      ensures r == (tx.nonce in txs.items)
    {
      var old' := txs.Get(tx.nonce);
      r := old'.Some?;
    }

    method Add(tx: Tx, bump: nat) returns (inserted: bool, replaced: Option<Tx>)
      requires Valid()
      modifies this, txs
      ensures Valid() && inserted == Accepts(old(Value()), tx, bump)
      ensures Value() == if inserted then Added(old(Value()), tx) else old(Value())
      ensures replaced == if inserted && tx.nonce in old(txs.items) then Some(old(txs.items)[tx.nonce]) else None
    {
      var prior := txs.Get(tx.nonce);
      if prior.Some? {
        var threshold := prior.value.price * (100 + bump) / 100;
        if prior.value.price >= tx.price || threshold > tx.price {
          return false, None;
        }
      }
      if tx.cost.None? {
        return false, None;
      }
      txs.Put(tx);
      if costcap < tx.cost.value { costcap := tx.cost.value; }
      if gascap < tx.gas { gascap := tx.gas; }
      return true, prior;
    }

    method Forward(threshold: nat) returns (removed: seq<Tx>)
      requires Valid()
      modifies txs
      ensures Valid() && Value() == old(Value()).(items := AtLeast(old(txs.items), threshold))
      ensures Flat(removed, Below(old(txs.items), threshold))
    {
      removed := txs.Forward(threshold);
    }

    method FilterPrice(lim: Limits) returns (removed: seq<Tx>, errs: seq<Reason>)
      requires Valid()
      modifies this, txs
      ensures Given(removed, errs, lim)
      ensures Valid() && lastStkCheck == old(lastStkCheck)
      ensures txs.items == Payables(old(txs.items), lim)
      ensures multiset(removed) == multiset(Txs(Unpayables(old(txs.items), lim)))
      ensures costcap == if old(costcap) <= lim.balance && old(gascap) <= lim.maxGas then old(costcap) else lim.balance
      ensures gascap == if old(costcap) <= lim.balance && old(gascap) <= lim.maxGas then old(gascap) else lim.maxGas
    {
      if costcap <= lim.balance && gascap <= lim.maxGas {
        ShortCircuitSound(Value(), lim);
        assert Payables(txs.items, lim) == txs.items && Unpayables(txs.items, lim) == map[];
        return [], [];
      }
      removed, errs := FilterUnpayable(lim);
    }

    /** Lowers the caps and filters by them. */
    method FilterUnpayable(lim: Limits) returns (removed: seq<Tx>, errs: seq<Reason>)
      requires Valid()
      modifies this, txs
      ensures Given(removed, errs, lim)
      ensures Valid() && lastStkCheck == old(lastStkCheck) && costcap == lim.balance && gascap == lim.maxGas
      ensures txs.items == Payables(old(txs.items), lim)
      ensures multiset(removed) == multiset(Txs(Unpayables(old(txs.items), lim)))
    {
      costcap, gascap := lim.balance, lim.maxGas;
      removed, errs := TakeUnpayable(lim);
    }

    method TakeUnpayable(lim: Limits) returns (removed: seq<Tx>, errs: seq<Reason>)
      requires txs.Valid()
      modifies txs
      ensures txs.Valid() && txs.items == Payables(old(txs.items), lim)
      ensures multiset(removed) == multiset(Txs(Unpayables(old(txs.items), lim))) && Given(removed, errs, lim)
    {
      ghost var was: NonceMap := txs.items;
      var reason := tx => PriceReason(tx, lim);
      removed, errs := txs.FilterWithError(reason);
      assert Drop(was, tx => reason(tx).Some?) == Unpayables(was, lim);
      assert txs.items == Payables(was, lim);
    }

    method FilterStaking(lim: Limits) returns (removed: seq<Tx>, errs: seq<Reason>)
      requires Valid()
      modifies txs
      ensures Valid()
      ensures (forall n :: n in old(txs.items) ==> Payable(old(txs.items)[n], lim)) ==> Given(removed, errs, lim)
      ensures txs.items == StakingGood(old(txs.items), lim)
      ensures multiset(removed) == multiset(Txs(StakingBad(old(txs.items), lim)))
    {
      ghost var was: NonceMap := txs.items;
      var reason := tx => StakingReason(tx, lim);
      removed, errs := txs.FilterWithError(reason);
      assert Drop(was, tx => reason(tx).Some?) == StakingBad(was, lim);
      assert txs.items == StakingGood(was, lim);
      StakingGiven(was, removed, errs, lim);
    }

    /** Takes out what can no longer run; in a strict list also what then has a gap below it. */
    method FilterValid(lim: Limits, bn: nat) returns (removed: seq<Tx>, errs: seq<Reason>, invalids: seq<Tx>)
      requires Valid()
      modifies this, txs
      ensures Given(removed, errs, lim)
      ensures Valid() && Value() == AfterFilter(old(Value()), lim, bn)
      ensures multiset(removed) == multiset(Txs(Removed(old(Value()), lim, bn)))
      ensures multiset(invalids) == multiset(Txs(Invalidated(old(Value()), lim, bn)))
    {
      ghost var was := Value();
      removed, errs := FilterBad(lim, bn);
      invalids := DropInvalidated(removed, was, lim, bn);
    }

    method DropInvalidated(removed: seq<Tx>, ghost was: ListState, ghost lim: Limits, ghost bn: nat)
      returns (invalids: seq<Tx>)
      requires Valid() && was.strict == strict && Keyed(Removed(was, lim, bn))
      requires txs.items == was.items - Removed(was, lim, bn).Keys
      requires multiset(removed) == multiset(Txs(Removed(was, lim, bn)))
      modifies txs
      ensures Valid() && txs.items == Survivors(was, lim, bn)
      ensures multiset(invalids) == multiset(Txs(Invalidated(was, lim, bn)))
    {
      ghost var gone, left: NonceMap := Removed(was, lim, bn), txs.items;
      invalids := DropAbove(removed, gone);
      FilterDone(was, lim, bn, left, txs.items, invalids);
    }

    method FilterBad(lim: Limits, bn: nat) returns (removed: seq<Tx>, errs: seq<Reason>)
      requires Valid()
      modifies this, txs
      ensures Given(removed, errs, lim)
      ensures Valid() && Keyed(Removed(old(Value()), lim, bn))
      ensures Value() == Relimited(old(Value()), lim, bn, txs.items)
      ensures txs.items == old(txs.items) - Removed(old(Value()), lim, bn).Keys
      ensures multiset(removed) == multiset(Txs(Removed(old(Value()), lim, bn)))
    {
      ghost var was := Value();
      removed, errs := FilterPrice(lim);
      ghost var paid := txs.items;
      if bn >= lastStkCheck + STAKING_CHECK_PERIOD {
        lastStkCheck := bn;
        var more, why := FilterStaking(lim);
        GivenBoth(removed, errs, more, why, lim);
        removed, errs := removed + more, errs + why;
      }
      RemovedInTwoSteps(was, lim, bn, paid, txs.items);
    }

    /** In a strict list, takes out everything above the lowest of `removed`. */
    method DropAbove(removed: seq<Tx>, ghost gone: NonceMap) returns (invalids: seq<Tx>)
      requires Valid() && Keyed(gone) && multiset(removed) == multiset(Txs(gone))
      modifies txs
      ensures Valid()
      ensures !strict || gone.Keys == {} ==> txs.items == old(txs.items) && invalids == []
      ensures strict && gone.Keys != {} ==>
        && txs.items == Below(old(txs.items), Min(gone.Keys) + 1)
        && multiset(invalids) == multiset(Txs(AtLeast(old(txs.items), Min(gone.Keys) + 1)))
    {
      NonEmptyListing(removed, gone);
      invalids := [];
      if strict && |removed| > 0 {
        var lowest := LowestNonce(removed, gone);
        invalids := FilterFrom(lowest + 1);
      }
    }

    method FilterFrom(bound: nat) returns (removed: seq<Tx>)
      requires Valid()
      modifies txs
      ensures Valid() && txs.items == Below(old(txs.items), bound)
      ensures multiset(removed) == multiset(Txs(AtLeast(old(txs.items), bound)))
    {
      ghost var was: NonceMap := txs.items;
      var above := (tx: Tx) => tx.nonce >= bound;
      removed := txs.Filter(above);
      assert Drop(was, above) == AtLeast(was, bound);
      assert txs.items == Below(was, bound);
    }

    method Cap(threshold: nat) returns (drops: seq<Tx>)
      requires Valid()
      modifies txs
      ensures Valid() && Value() == old(Value()).(items := Capped(old(txs.items), threshold))
      ensures |drops| == |old(txs.items)| - |txs.items|
      ensures forall i, j :: 0 <= i < j < |drops| ==> drops[i].nonce > drops[j].nonce
      ensures forall i :: 0 <= i < |drops| ==>
        drops[i].nonce in old(txs.items) && old(txs.items)[drops[i].nonce] == drops[i]
    {
      drops := txs.Cap(threshold);
    }

    method Remove(tx: Tx) returns (found: bool, invalids: seq<Tx>)
      requires Valid()
      modifies txs
      ensures Valid() && found == (tx.nonce in old(txs.items))
      ensures !found ==> Value() == old(Value()) && invalids == []
      ensures found ==> Value() == WithoutNonce(old(Value()), tx.nonce)
      ensures found ==> multiset(invalids) == multiset(Txs(Above(old(Value()), tx.nonce)))
    {
      ghost var was: NonceMap := txs.items;
      found := txs.Remove(tx.nonce);
      invalids := [];
      if found && strict {
        invalids := CutAbove(tx.nonce, was);
      } else if !found {
        RemoveThenCut(was, tx.nonce);
      }
    }

    /** With `nonce` gone, takes out everything above it. */
    method CutAbove(nonce: nat, ghost was: NonceMap) returns (invalids: seq<Tx>)
      requires Valid() && txs.items == was - {nonce}
      modifies txs
      ensures Valid() && txs.items == Below(was, nonce)
      ensures multiset(invalids) == multiset(Txs(AtLeast(was, nonce + 1)))
    {
      RemoveThenCut(was, nonce);
      invalids := FilterFrom(nonce + 1);
    }

    method Ready(start: nat) returns (ready: seq<Tx>)
      requires Valid()
      modifies txs
      ensures Valid() && Value() == old(Value()).(items := ReadyRest(old(txs.items), start))
      ensures Flat(ready, ReadyPart(old(txs.items), start))
    {
      ready := txs.Ready(start);
    }

    method Flatten() returns (r: seq<Tx>)
      requires Valid()
      modifies txs
      ensures Valid() && Value() == old(Value()) && Flat(r, txs.items)
    {
      r := txs.Flatten();
    }
  }

  lemma RemoveThenCut(m: NonceMap, n: nat)
    ensures n !in m ==> m - {n} == m
    ensures Below(m - {n}, n + 1) == Below(m, n) && AtLeast(m - {n}, n + 1) == AtLeast(m, n + 1)
  {
  }

  lemma DropAboveInvalidates(l: ListState, lim: Limits, bn: nat)
    ensures !l.strict || Removed(l, lim, bn).Keys == {} ==>
      && Survivors(l, lim, bn) == l.items - Removed(l, lim, bn).Keys
      && Invalidated(l, lim, bn) == map[]
    ensures l.strict && Removed(l, lim, bn).Keys != {} ==>
      var left, cut := l.items - Removed(l, lim, bn).Keys, Min(Removed(l, lim, bn).Keys) + 1;
      Survivors(l, lim, bn) == Below(left, cut) && Invalidated(l, lim, bn) == AtLeast(left, cut)
  {
  }

  lemma FilterDone(l: ListState, lim: Limits, bn: nat, left: NonceMap, items: NonceMap, invalids: seq<Tx>)
    requires left == l.items - Removed(l, lim, bn).Keys
    requires !l.strict || Removed(l, lim, bn).Keys == {} ==> items == left && invalids == []
    requires l.strict && Removed(l, lim, bn).Keys != {} ==>
      && items == Below(left, Min(Removed(l, lim, bn).Keys) + 1)
      && multiset(invalids) == multiset(Txs(AtLeast(left, Min(Removed(l, lim, bn).Keys) + 1)))
    ensures items == Survivors(l, lim, bn) && multiset(invalids) == multiset(Txs(Invalidated(l, lim, bn)))
  {
    DropAboveInvalidates(l, lim, bn);
    if !l.strict || Removed(l, lim, bn).Keys == {} { assert Txs(Invalidated(l, lim, bn)) == {}; }
  }

  ghost function Payables(m: NonceMap, lim: Limits): NonceMap { map n | n in m && Payable(m[n], lim) :: m[n] }

  ghost function Unpayables(m: NonceMap, lim: Limits): NonceMap { map n | n in m && !Payable(m[n], lim) :: m[n] }

  ghost function StakingBad(m: NonceMap, lim: Limits): NonceMap {
    map n | n in m && !m[n].kind.Plain? && !lim.stakingOk(m[n]) :: m[n]
  }

  ghost function StakingGood(m: NonceMap, lim: Limits): NonceMap {
    map n | n in m && !(!m[n].kind.Plain? && !lim.stakingOk(m[n])) :: m[n]
  }

  lemma RemovedInTwoSteps(l: ListState, lim: Limits, bn: nat, paid: NonceMap, rest: NonceMap)
    requires Capsound(l) && paid == Payables(l.items, lim)
    requires rest == if StakingDue(l, bn) then StakingGood(paid, lim) else paid
    ensures rest == l.items - Removed(l, lim, bn).Keys
    ensures Keyed(Removed(l, lim, bn))
    ensures var first := Txs(Unpayables(l.items, lim));
            var second := if StakingDue(l, bn) then Txs(StakingBad(paid, lim)) else {};
            multiset(first) + multiset(second) == multiset(Txs(Removed(l, lim, bn)))
  {
    var gone := Removed(l, lim, bn);
    var first := Unpayables(l.items, lim);
    var second := if StakingDue(l, bn) then StakingBad(paid, lim) else map[];
    TxsDisjoint(first, second, gone);
  }

  lemma TxsDisjoint(a: NonceMap, b: NonceMap, c: NonceMap)
    requires Keyed(c)
    requires forall n :: n in c <==> n in a || n in b
    requires forall n :: n in a ==> a[n] == c[n] && n !in b
    requires forall n :: n in b ==> b[n] == c[n]
    ensures multiset(Txs(a)) + multiset(Txs(b)) == multiset(Txs(c))
  {
    forall tx ensures (tx in Txs(c)) == (tx in Txs(a) || tx in Txs(b)) && !(tx in Txs(a) && tx in Txs(b)) {
      if tx in Txs(a) { assert tx.nonce in c && c[tx.nonce] == tx; }
      if tx in Txs(b) { assert tx.nonce in c && c[tx.nonce] == tx; }
    }
    assert Txs(c) == Txs(a) + Txs(b);
    assert Txs(a) !! Txs(b);
    forall tx ensures (multiset(Txs(a)) + multiset(Txs(b)))[tx] == multiset(Txs(c))[tx] {}
  }

  lemma NonEmptyListing(s: seq<Tx>, m: NonceMap)
    requires multiset(s) == multiset(Txs(m))
    ensures |s| > 0 <==> m.Keys != {}
  {
    if |s| > 0 {
      assert s[0] in multiset(s);
      assert s[0] in Txs(m);
    }
    if m.Keys != {} {
      var n :| n in m.Keys;
      assert m[n] in Txs(m);
      assert m[n] in multiset(s);
    }
  }

  method LowestNonce(s: seq<Tx>, ghost m: NonceMap) returns (lowest: nat)
    requires |s| > 0 && Keyed(m) && m.Keys != {} && multiset(s) == multiset(Txs(m))
    ensures lowest == Min(m.Keys)
  {
    lowest := s[0].nonce;
    for i := 1 to |s|
      invariant exists j :: 0 <= j < i && s[j].nonce == lowest
      invariant forall j :: 0 <= j < i ==> lowest <= s[j].nonce
    {
      if s[i].nonce < lowest { lowest := s[i].nonce; }
    }
    ListingBounds(s, m, lowest);
  }

  lemma ListingBounds(s: seq<Tx>, m: NonceMap, lowest: nat)
    requires Keyed(m) && m.Keys != {} && multiset(s) == multiset(Txs(m))
    requires exists j :: 0 <= j < |s| && s[j].nonce == lowest
    requires forall j :: 0 <= j < |s| ==> lowest <= s[j].nonce
    ensures lowest == Min(m.Keys)
  {
    var j :| 0 <= j < |s| && s[j].nonce == lowest;
    assert s[j] in multiset(s);
    assert s[j] in Txs(m);
    forall n | n in m ensures lowest <= n {
      assert m[n] in Txs(m);
      assert m[n] in multiset(s);
    }
    MinIs(m.Keys, lowest);
  }
}
