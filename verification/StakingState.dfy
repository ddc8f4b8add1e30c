/** The staking closures of core/evm.go over the state database. */
module StakingState {
  import opened Common
  import opened Delegations
  import opened Staking
  import opened Ledger

  // ---------- what storing keeps ----------

  ghost predicate Singles(m: Wrappers) {
    forall a :: a in m ==> OneEach(m[a].delegations)
  }

  lemma {:induction false} StoredKeepsKeys(m: Wrappers, ws: seq<Wrapper>)
    requires Addressed(m) && From(ws, m)
    ensures Addressed(Stored(m, ws)) && Stored(m, ws).Keys == m.Keys
    decreases |ws|
  {
    if ws != [] {
      StoredKeepsKeys(m, ws[..|ws| - 1]);
      assert ws[|ws| - 1].address in m;
    }
  }

  lemma {:induction false} StoredKeepsOrder(m: Wrappers, ws: seq<Wrapper>)
    requires Orderly(m) && forall i :: 0 <= i < |ws| ==> AllEntriesOk(ws[i].delegations)
    ensures Orderly(Stored(m, ws))
    decreases |ws|
  {
    if ws != [] { StoredKeepsOrder(m, ws[..|ws| - 1]); }
  }

  lemma {:induction false} StoredKeepsSingles(m: Wrappers, ws: seq<Wrapper>)
    requires Singles(m) && forall i :: 0 <= i < |ws| ==> OneEach(ws[i].delegations)
    ensures Singles(Stored(m, ws))
    decreases |ws|
  {
    if ws != [] { StoredKeepsSingles(m, ws[..|ws| - 1]); }
  }

  /** UpdateValidatorWrapperWithRevert over a list: stops at the first wrapper that is not sane. */
  method StoreAll(m: Wrappers, ws: seq<Wrapper>, sane: Wrapper -> bool) returns (ok: bool, m': Wrappers, ghost n: nat)
    ensures n <= |ws| && m' == Stored(m, ws[..n])
    ensures ok ==> n == |ws|
    ensures !ok ==> n < |ws| && !sane(ws[n])
  {
    m', n, ok := m, 0, true;
    for i := 0 to |ws|
      invariant ok && n == i && m' == Stored(m, ws[..i])
    {
      if !sane(ws[i]) { ok := false; return; }
      assert ws[..i + 1][..i] == ws[..i];
      m' := m'[ws[i].address := ws[i]];
      n := i + 1;
    }
  }

  // ---------- collecting rewards ----------

  /** The reward an index gives; negative rewards are passed over. */
  ghost function Reward(m: Wrappers, ix: Index): int {
    if Leads(m, ix) && m[ix.validator].delegations[ix.position].reward > 0
    then m[ix.validator].delegations[ix.position].reward else 0
  }

  ghost function Rewards(m: Wrappers, ixs: seq<Index>): int {
    if ixs == [] then 0 else Rewards(m, ixs[..|ixs| - 1]) + Reward(m, ixs[|ixs| - 1])
  }

  /** The wrapper with one positive reward taken out. */
  function Cleared(w: Wrapper, pos: nat): Wrapper
    requires pos < |w.delegations|
  {
    var d := w.delegations[pos];
    if d.reward > 0 then w.(delegations := w.delegations[pos := d.(reward := 0)]) else w
  }

  lemma ClearedWorth(m: Wrappers, ix: Index)
    requires Leads(m, ix)
    ensures Worth(Cleared(m[ix.validator], ix.position).delegations)
         == Worth(m[ix.validator].delegations) - Reward(m, ix)
  {
    var w := m[ix.validator];
    WorthUpdate(w.delegations, ix.position, w.delegations[ix.position].(reward := 0));
  }

  /** One cleared wrapper for each index. */
  ghost predicate ClearedAll(m: Wrappers, ixs: seq<Index>, ws: seq<Wrapper>) {
    && |ws| == |ixs|
    && forall i :: 0 <= i < |ixs| ==> Leads(m, ixs[i]) && ws[i] == Cleared(m[ixs[i].validator], ixs[i].position)
  }

  const Wrap64: int := 0x1_0000_0000_0000_0000

  ghost predicate CollectRefused(m: Wrappers, ixs: seq<Index>, e: Error) {
    match e
    case AddressNotPresent => exists i :: 0 <= i < |ixs| && ixs[i].validator !in m
    case IndexOutOfBound => exists i :: 0 <= i < |ixs| && ixs[i].validator in m && !Leads(m, ixs[i])
    case NoRewards => Rewards(m, ixs) % Wrap64 == 0
    case _ => false
  }

  /** Collecting so far: a cleared wrapper for each index, which have lost what has been collected. */
  ghost predicate Collected(m: Wrappers, ixs: seq<Index>, ws: seq<Wrapper>, total: int) {
    var ok := ClearedAll(m, ixs, ws) && total == Rewards(m, ixs) && Gain(m, ws) == -total && total >= 0;
    ok
  }

  lemma CollectedSnoc(m: Wrappers, ixs: seq<Index>, i: nat, ws: seq<Wrapper>, total: int)
    requires Addressed(m) && i < |ixs| && Collected(m, ixs[..i], ws, total) && Leads(m, ixs[i])
    ensures Collected(m, ixs[..i + 1], ws + [Cleared(m[ixs[i].validator], ixs[i].position)],
                      total + Reward(m, ixs[i]))
  {
    ClearedWorth(m, ixs[i]);
    GainSnoc(m, ws, Cleared(m[ixs[i].validator], ixs[i].position));
    assert ixs[..i + 1][..i] == ixs[..i];
  }

  /** VerifyAndCollectRewardsFromDelegation. The total is compared to zero by its low 64 bits. */
  method VerifyCollect(m: Wrappers, ixs: seq<Index>) returns (error: Failure, ws: seq<Wrapper>, total: int)
    requires Addressed(m)
    ensures error != None ==> CollectRefused(m, ixs, error.value)
    ensures error == None ==> ClearedAll(m, ixs, ws) && total == Rewards(m, ixs)
    ensures error == None ==> Gain(m, ws) == -total && total >= 0 && total % Wrap64 != 0
  {
    ws, total := [], 0;
    for i := 0 to |ixs|
      invariant Collected(m, ixs[..i], ws, total)
    {
      var ix := ixs[i];
      if ix.validator !in m { return Some(AddressNotPresent), [], 0; }
      var w := m[ix.validator];
      if |w.delegations| <= ix.position { return Some(IndexOutOfBound), [], 0; }
      CollectedSnoc(m, ixs, i, ws, total);
      var d := w.delegations[ix.position];
      if d.reward > 0 { total := total + d.reward; }
      ws := ws + [Cleared(w, ix.position)];
    }
    assert ixs[..|ixs|] == ixs;
    error := if total % Wrap64 == 0 then Some(NoRewards) else None;
  }

  /** Rewards of exactly 2^64 look like none at all. */
  method RewardsOverlooked() returns (error: Failure)
    ensures error == Some(NoRewards)
    ensures Rewards(map[1 := Wrapper(1, [Delegation(1, 0, Wrap64, [])], 0)], [Index(1, 0)]) == Wrap64
  {
    var m: Wrappers := map[1 := Wrapper(1, [Delegation(1, 0, Wrap64, [])], 0)];
    var ixs := [Index(1, 0)];
    assert ixs[..0] == [];
    assert Rewards(m, []) == 0 && Reward(m, ixs[0]) == Wrap64;
    var ws, total;
    error, ws, total := VerifyCollect(m, ixs);
  }

  lemma ClearedKeeps(m: Wrappers, ixs: seq<Index>, ws: seq<Wrapper>)
    requires Addressed(m) && ClearedAll(m, ixs, ws)
    ensures From(ws, m)
    ensures DistinctIndexes(ixs) ==> Distinct(ws)
    ensures Orderly(m) ==> forall i :: 0 <= i < |ws| ==> AllEntriesOk(ws[i].delegations)
    ensures Singles(m) ==> forall i :: 0 <= i < |ws| ==> OneEach(ws[i].delegations)
  {
    forall i | 0 <= i < |ws|
      ensures ws[i].address == ixs[i].validator && ws[i].address in m
      ensures Orderly(m) ==> AllEntriesOk(ws[i].delegations)
      ensures Singles(m) ==> OneEach(ws[i].delegations)
    {
      assert Leads(m, ixs[i]);
    }
  }

  // ---------- undelegating ----------

  /** The first entry of `a`, or the number of entries. */
  method FirstEntry(ds: seq<Delegation>, a: Address) returns (i: nat)
    ensures i <= |ds| && forall j :: 0 <= j < i ==> ds[j].delegator != a
    ensures i < |ds| ==> ds[i].delegator == a
  {
    i := 0;
    while i < |ds| && ds[i].delegator != a
      invariant i <= |ds| && forall j :: 0 <= j < i ==> ds[j].delegator != a
    {
      i := i + 1;
    }
  }

  /** `w'` is `w` with `amount` of one entry of `a` moved into the unlocking entry of `epoch`; the status may have
      changed. */
  ghost predicate Unlocking(w: Wrapper, a: Address, amount: int, epoch: int, w': Wrapper) {
    && w'.address == w.address && |w'.delegations| == |w.delegations| && Worth(w'.delegations) == Worth(w.delegations)
    && (exists i :: 0 <= i < |w.delegations| && UnlockingAt(w.delegations, a, amount, epoch, i, w'.delegations))
  }

  ghost predicate UnlockingAt(ds: seq<Delegation>, a: Address, amount: int, epoch: int, i: nat, ds': seq<Delegation>) {
    && |ds'| == |ds| && i < |ds| && ds[i].delegator == a == ds'[i].delegator
    && ds'[i].amount == ds[i].amount - amount && ds'[i].reward == ds[i].reward
    && Value(ds'[i]) == Value(ds[i]) && EntriesOk(ds'[i].undelegations)
    && GrownIn(ds[i].undelegations, ds'[i].undelegations, epoch, amount)
    && ds' == ds[i := ds'[i]]
  }

  lemma UnlockingKeeps(w: Wrapper, a: Address, amount: int, epoch: int, w': Wrapper)
    requires Unlocking(w, a, amount, epoch, w')
    ensures AllEntriesOk(w.delegations) ==> AllEntriesOk(w'.delegations)
    ensures OneEach(w.delegations) ==> OneEach(w'.delegations)
  {
    var i :| 0 <= i < |w.delegations| && UnlockingAt(w.delegations, a, amount, epoch, i, w'.delegations);
    assert SameOwners(w.delegations, w'.delegations);
  }

  /** Why undelegating is refused: nothing is undelegated, `a` has no entry or too small a one, or the wrapper that
      would result does not pass the sanity check. */
  ghost predicate UndelegateRefused(w: Wrapper, a: Address, amount: int, epoch: int, sane: Wrapper -> bool) {
    var ds := w.delegations;
    || amount <= 0 || (exists w' :: !sane(w') && Unlocking(w, a, amount, epoch, w'))
    || (forall j :: 0 <= j < |ds| ==> ds[j].delegator != a)
    || (exists j :: 0 <= j < |ds| && ds[j].delegator == a && ds[j].amount < amount)
  }

  /** VerifyAndUndelegateFromMsg for a validator's wrapper: a self-delegation that falls too low only makes the
      validator inactive. */
  method VerifyUndelegate(w: Wrapper, a: Address, amount: int, epoch: int, sane: Wrapper -> bool, low: Wrapper -> bool,
                          inactive: nat -> nat) returns (ok: bool, w': Wrapper)
    requires AllEntriesOk(w.delegations)
    ensures ok ==> amount > 0 && Unlocking(w, a, amount, epoch, w')
    ensures !ok ==> UndelegateRefused(w, a, amount, epoch, sane)
  {
    w' := w;
    var i := FirstEntry(w.delegations, a);
    if i == |w.delegations| { return false, w; }
    var d;
    ok, d := Undelegate(w.delegations[i], epoch, amount);
    if !ok { return; }
    WorthUpdate(w.delegations, i, d);
    w' := w.(delegations := w.delegations[i := d]);
    assert UnlockingAt(w.delegations, a, amount, epoch, i, w'.delegations);
    assert Unlocking(w, a, amount, epoch, w');
    if !sane(w') {
      if low(w') { w' := w'.(body := inactive(w'.body)); } else { ok := false; }
    }
  }

  // ---------- the state database ----------

  function NewWrapper(a: Address, amount: int, fields: nat): Wrapper {
    Wrapper(a, [Delegation(a, amount, 0, [])], fields)
  }

  /** Storing the wrappers of an accepted delegation. */
  lemma DelegateStores(m: Wrappers, free: set<Index>, sane: Wrapper -> bool, to: Address, a: Address, amount: int,
                       ws: seq<Wrapper>)
    requires Addressed(m) && Orderly(m) && AllUpdated(m, free, sane, to, a, amount, ws)
    ensures Addressed(Stored(m, ws)) && Orderly(Stored(m, ws)) && Stored(m, ws).Keys == m.Keys
    ensures Singles(m) ==> Singles(Stored(m, ws))
  {
    forall i | 0 <= i < |ws|
      ensures ws[i].address in m && AllEntriesOk(ws[i].delegations)
      ensures Singles(m) ==> OneEach(ws[i].delegations)
    {
      assert UpdatedAt(m, free, to, a, amount, ws[i]);
      UpdatedKeeps(m, free, to, a, amount, ws[i]);
    }
    StoredKeepsKeys(m, ws);
    StoredKeepsOrder(m, ws);
    if Singles(m) { StoredKeepsSingles(m, ws); }
  }

  lemma CollectStores(m: Wrappers, ixs: seq<Index>, ws: seq<Wrapper>, n: nat)
    requires Addressed(m) && Orderly(m) && ClearedAll(m, ixs, ws) && n <= |ws|
    ensures var m' := Stored(m, ws[..n]); Addressed(m') && Orderly(m') && m'.Keys == m.Keys
    ensures Singles(m) ==> Singles(Stored(m, ws[..n]))
  {
    ClearedKeeps(m, ixs, ws);
    StoredKeepsKeys(m, ws[..n]);
    StoredKeepsOrder(m, ws[..n]);
    if Singles(m) { StoredKeepsSingles(m, ws[..n]); }
  }

  lemma CollectSettles(b: map<Address, int>, m: Wrappers, a: Address, ixs: seq<Index>, ws: seq<Wrapper>, total: int)
    requires Addressed(m) && ClearedAll(m, ixs, ws) && Gain(m, ws) == -total && DistinctIndexes(ixs)
    ensures TotalOf(b[a := Get(b, a) + total], Stored(m, ws)) == TotalOf(b, m)
  {
    ClearedKeeps(m, ixs, ws);
    StoredGain(m, ws);
    SumPut(b, a, Get(b, a) + total);
  }

  datatype Message =
    | CreateMsg(validator: Address, amount: int, duplicate: bool, fields: Option<nat>)
    | DelegateMsg(delegator: Address, validator: Address, amount: int, indexes: seq<Index>)
    | UndelegateMsg(delegator: Address, validator: Address, amount: int)
    | CollectMsg(delegator: Address, indexes: seq<Index>)

  /** The delegation index of a message names each validator once. */
  ghost predicate Indexed(msg: Message) {
    (msg.DelegateMsg? || msg.CollectMsg?) ==> DistinctIndexes(msg.indexes)
  }

  /** No balance is negative; flagged validators are those with a wrapper; entries are in epoch order. */
  ghost predicate ValidState(b: map<Address, int>, m: Wrappers, flags: set<Address>) {
    var ok := Solvent(b) && flags == m.Keys && Addressed(m) && Orderly(m);
    ok
  }

  ghost function TotalOf(b: map<Address, int>, m: Wrappers): int { Sum(b) + Staked(m) }

  /** What an accepted delegation does: the balance falls by what the free entries do not cover, and the wrappers
      stored are the old ones with entries used up and the delegation added. */
  ghost predicate DelegateEffect(b: map<Address, int>, m: Wrappers, a: Address, to: Address, amount: int,
                                 ixs: seq<Index>,
                                 epoch: int, sane: Wrapper -> bool, b': map<Address, int>, m': Wrappers) {
    && to in m
    && b' == b[a := Get(b, a) - (var free := TotalFree(m, ixs, epoch); if free >= amount then 0 else amount - free)]
    && exists ws :: AllUpdated(m, IndexSet(ixs), sane, to, a, amount, ws) && m' == Stored(m, ws)
  }

  /** What a delegation does to the stakes held with each validator: the delegator's grow at `to`, all others stay. */
  ghost predicate StakesAfter(m: Wrappers, m': Wrappers, to: Address, a: Address, amount: int) {
    forall v :: v in m ==> v in m' && StakesAt(m[v].delegations, m'[v].delegations, v == to, a, amount)
  }

  ghost predicate StakesAt(ds: seq<Delegation>, ds': seq<Delegation>, raised: bool, a: Address, amount: int) {
    if raised then StakesRaised(ds, ds', a, amount)
    else |ds'| == |ds| && forall j :: 0 <= j < |ds| ==> StakeRaised(ds[j], ds'[j], a, 0)
  }

  lemma StakesStay(ds: seq<Delegation>, a: Address)
    ensures StakesAt(ds, ds, false, a, 0)
  {
  }

  lemma DelegateStakesAt(m: Wrappers, free: set<Index>, sane: Wrapper -> bool, to: Address, a: Address, amount: int,
                         ws: seq<Wrapper>, v: Address)
    requires Addressed(m) && AllUpdated(m, free, sane, to, a, amount, ws) && Distinct(ws) && v in m
    ensures v in Stored(m, ws) && StakesAt(m[v].delegations, Stored(m, ws)[v].delegations, v == to, a, amount)
  {
    if v == to {
      var i :| 0 <= i < |ws| && ws[i].address == to && Topped(free, m[to], a, amount, ws[i]);
      StoredAt(m, ws, i);
      ToppedStakes(free, m[to], a, amount, ws[i]);
    } else if i :| 0 <= i < |ws| && ws[i].address == v {
      assert UpdatedAt(m, free, to, a, amount, ws[i]);
      StoredAt(m, ws, i);
      RedeemedStakes(free, m[v], ws[i], a);
    } else {
      StoredAway(m, ws, v);
      StakesStay(m[v].delegations, a);
    }
  }

  lemma DelegateStakes(m: Wrappers, free: set<Index>, sane: Wrapper -> bool, to: Address, a: Address, amount: int,
                       ws: seq<Wrapper>)
    requires Addressed(m) && AllUpdated(m, free, sane, to, a, amount, ws) && Distinct(ws)
    ensures StakesAfter(m, Stored(m, ws), to, a, amount)
  {
    forall v | v in m
      ensures v in Stored(m, ws) && StakesAt(m[v].delegations, Stored(m, ws)[v].delegations, v == to, a, amount)
    {
      DelegateStakesAt(m, free, sane, to, a, amount, ws, v);
    }
  }

  /** Total tokens after a delegation: kept exactly when the delegator has at most one entry with the validator. */
  ghost predicate DelegateTotal(b: map<Address, int>, m: Wrappers, a: Address, to: Address, amount: int,
                                b': map<Address, int>, m': Wrappers) {
    && to in m
    && TotalOf(b', m') == TotalOf(b, m) - amount + Gift(m[to].delegations, a, amount)
    && (TotalOf(b', m') == TotalOf(b, m) <==> Matches(m[to].delegations, a) <= 1)
  }

  /** With two entries of one delegator both are raised, and twice the amount is added. */
  lemma TwoEntriesGift(x: Delegation, y: Delegation, amount: int)
    requires x.delegator == y.delegator
    ensures Gift([x, y], x.delegator, amount) == 2 * amount
  {
    assert [x, y][..1] == [x] && [x][..0] == [];
    assert Matches([x], x.delegator) == 1;
    DueIsProduct([x, y], x.delegator, amount);
  }

  lemma DelegateSettles(b: map<Address, int>, m: Wrappers, a: Address, to: Address, amount: int, ixs: seq<Index>,
                        epoch: int, plan: Plan)
    requires Paid(m, ixs, to, a, epoch, amount, plan) && DistinctIndexes(ixs) && amount != 0
    ensures DelegateTotal(b, m, a, to, amount, b[a := Get(b, a) - plan.deduct], Stored(m, plan.wrappers))
    ensures Distinct(plan.wrappers)
  {
    StoredGain(m, plan.wrappers);
    SumPut(b, a, Get(b, a) - plan.deduct);
    GiftIsAmount(m[to].delegations, a, amount);
  }

  /** What storing a plan and deducting its amount comes to. */
  lemma DelegateDone(b: map<Address, int>, m: Wrappers, flags: set<Address>, a: Address, to: Address, amount: int,
                     ixs: seq<Index>, epoch: int, sane: Wrapper -> bool, plan: Plan)
    requires ValidState(b, m, flags) && 0 <= plan.deduct <= Get(b, a) && amount != 0
    requires Paid(m, ixs, to, a, epoch, amount, plan)
    requires AllUpdated(m, IndexSet(ixs), sane, to, a, amount, plan.wrappers)
    ensures var b', m' := b[a := Get(b, a) - plan.deduct], Stored(m, plan.wrappers);
      && DelegateEffect(b, m, a, to, amount, ixs, epoch, sane, b', m')
      && (DistinctIndexes(ixs) ==> DelegateTotal(b, m, a, to, amount, b', m') && StakesAfter(m, m', to, a, amount))
  {
    if DistinctIndexes(ixs) {
      DelegateSettles(b, m, a, to, amount, ixs, epoch, plan);
      DelegateStakes(m, IndexSet(ixs), sane, to, a, amount, plan.wrappers);
    }
  }

  /** Storing what was planned and deducting the balance. */
  method Settle(b: map<Address, int>, m: Wrappers, flags: set<Address>, a: Address, ghost to: Address,
                ghost amount: int, ghost ixs: seq<Index>, ghost epoch: int, sane: Wrapper -> bool, plan: Plan)
    returns (b': map<Address, int>, m': Wrappers)
    requires ValidState(b, m, flags) && 0 <= plan.deduct <= Get(b, a) && amount != 0
    requires Paid(m, ixs, to, a, epoch, amount, plan)
    requires AllUpdated(m, IndexSet(ixs), sane, to, a, amount, plan.wrappers)
    ensures ValidState(b', m', flags) && (Singles(m) ==> Singles(m'))
    ensures DelegateEffect(b, m, a, to, amount, ixs, epoch, sane, b', m')
    ensures DistinctIndexes(ixs) ==> DelegateTotal(b, m, a, to, amount, b', m') && StakesAfter(m, m', to, a, amount)
  {
    var ok;
    ghost var n;
    ok, m', n := StoreAll(m, plan.wrappers, sane);
    assert plan.wrappers[..|plan.wrappers|] == plan.wrappers;
    DelegateStores(m, IndexSet(ixs), sane, to, a, amount, plan.wrappers);
    DelegateDone(b, m, flags, a, to, amount, ixs, epoch, sane, plan);
    b' := b[a := Get(b, a) - plan.deduct];
  }

  /** An entry whose index was collected has lost a positive reward, and nothing else has changed. */
  ghost predicate EmptiedAt(ds: seq<Delegation>, ds': seq<Delegation>, collected: set<Index>, v: Address, j: nat)
    requires j < |ds| == |ds'|
  {
    && ds'[j].delegator == ds[j].delegator && ds'[j].amount == ds[j].amount
    && ds'[j].undelegations == ds[j].undelegations
    && ds'[j].reward == if Index(v, j) in collected && ds[j].reward > 0 then 0 else ds[j].reward
  }

  ghost predicate Emptied(m: Wrappers, m': Wrappers, collected: set<Index>, v: Address) {
    v in m ==>
      && v in m' && m'[v] == m[v].(delegations := m'[v].delegations) && |m'[v].delegations| == |m[v].delegations|
      && forall j :: 0 <= j < |m[v].delegations| ==>
        EmptiedAt(m[v].delegations, m'[v].delegations, collected, v, j)
  }

  /** Exactly the collected rewards are gone, when each validator is named once. */
  lemma CollectEmpties(m: Wrappers, ixs: seq<Index>, ws: seq<Wrapper>, v: Address)
    requires Addressed(m) && ClearedAll(m, ixs, ws) && DistinctIndexes(ixs)
    ensures Emptied(m, Stored(m, ws), IndexSet(ixs), v)
  {
    ClearedKeeps(m, ixs, ws);
    if i :| 0 <= i < |ixs| && ixs[i].validator == v {
      assert Leads(m, ixs[i]);
      StoredAt(m, ws, i);
      assert ixs[i] in IndexSet(ixs);
      assert forall k :: 0 <= k < |ixs| && k != i ==> ixs[k].validator != v;
      forall j | 0 <= j < |m[v].delegations| && j != ixs[i].position ensures Index(v, j) !in IndexSet(ixs) {
      }
    } else {
      forall i | 0 <= i < |ws| ensures ws[i].address != v { assert Leads(m, ixs[i]); }
      StoredAway(m, ws, v);
      forall j: nat ensures Index(v, j) !in IndexSet(ixs) {}
    }
  }

  lemma CollectEmptiesAll(m: Wrappers, ixs: seq<Index>, m': Wrappers)
    requires Addressed(m) && DistinctIndexes(ixs) && exists ws :: ClearedAll(m, ixs, ws) && m' == Stored(m, ws)
    ensures forall v :: Emptied(m, m', IndexSet(ixs), v)
  {
    var ws :| ClearedAll(m, ixs, ws) && m' == Stored(m, ws);
    forall v ensures Emptied(m, m', IndexSet(ixs), v) { CollectEmpties(m, ixs, ws, v); }
  }

  /** What collecting does: rewards move from the wrappers to the balance. */
  ghost predicate CollectEffect(b: map<Address, int>, m: Wrappers, a: Address, ixs: seq<Index>, b': map<Address, int>,
                                m': Wrappers) {
    && b' == b[a := Get(b, a) + Rewards(m, ixs)]
    && Rewards(m, ixs) % Wrap64 != 0
    && exists ws :: ClearedAll(m, ixs, ws) && m' == Stored(m, ws)
  }

  lemma CollectKeeps(b: map<Address, int>, m: Wrappers, flags: set<Address>, ixs: seq<Index>, ws: seq<Wrapper>, n: nat)
    requires ValidState(b, m, flags) && ClearedAll(m, ixs, ws) && n <= |ws|
    ensures ValidState(b, Stored(m, ws[..n]), flags) && (Singles(m) ==> Singles(Stored(m, ws[..n])))
  {
    CollectStores(m, ixs, ws, n);
  }

  lemma CollectPays(b: map<Address, int>, m: Wrappers, flags: set<Address>, a: Address, ixs: seq<Index>,
                    ws: seq<Wrapper>, total: int)
    requires ValidState(b, m, flags) && ValidState(b, Stored(m, ws), flags) && ClearedAll(m, ixs, ws)
    requires Gain(m, ws) == -total && 0 <= total == Rewards(m, ixs) && total % Wrap64 != 0
    ensures
      var b', m' := b[a := Get(b, a) + total], Stored(m, ws);
      ValidState(b', m', flags) && CollectEffect(b, m, a, ixs, b', m')
  {
  }

  /** Some wrapper does not pass the sanity check once its reward is taken out. */
  ghost predicate ClearedInsane(m: Wrappers, ixs: seq<Index>, sane: Wrapper -> bool) {
    exists i :: 0 <= i < |ixs| && Leads(m, ixs[i]) && !sane(Cleared(m[ixs[i].validator], ixs[i].position))
  }

  method StoreCleared(ghost b: map<Address, int>, m: Wrappers, ghost flags: set<Address>, ghost ixs: seq<Index>,
                      sane: Wrapper -> bool, ws: seq<Wrapper>) returns (ok: bool, m': Wrappers)
    requires ValidState(b, m, flags) && ClearedAll(m, ixs, ws)
    ensures ValidState(b, m', flags) && (Singles(m) ==> Singles(m'))
    ensures if ok then m' == Stored(m, ws) else ClearedInsane(m, ixs, sane)
  {
    ghost var n;
    ok, m', n := StoreAll(m, ws, sane);
    assert ws[..|ws|] == ws;
    CollectKeeps(b, m, flags, ixs, ws, n);
  }

  /** Storing cleared wrappers, then paying out. */
  method PayOut(b: map<Address, int>, m: Wrappers, flags: set<Address>, a: Address, ghost ixs: seq<Index>,
                sane: Wrapper -> bool, ws: seq<Wrapper>, total: int)
    returns (ok: bool, b': map<Address, int>, m': Wrappers)
    requires ValidState(b, m, flags) && ClearedAll(m, ixs, ws) && Gain(m, ws) == -total
    requires total >= 0 && total == Rewards(m, ixs) && total % Wrap64 != 0
    ensures ValidState(b', m', flags) && (Singles(m) ==> Singles(m'))
    ensures !ok ==> b' == b && ClearedInsane(m, ixs, sane)
    ensures ok ==> CollectEffect(b, m, a, ixs, b', m')
    ensures ok && DistinctIndexes(ixs) ==> TotalOf(b', m') == TotalOf(b, m)
  {
    ok, m' := StoreCleared(b, m, flags, ixs, sane, ws);
    b' := b;
    if ok {
      b' := b[a := Get(b, a) + total];
      CollectPays(b, m, flags, a, ixs, ws, total);
      if DistinctIndexes(ixs) { CollectSettles(b, m, a, ixs, ws, total); }
    }
  }

  /** The wrapper has the given fields, and its only delegation is that of `a` to itself, without reward or unlocking
      entries. */
  predicate SelfDelegated(w: Wrapper, a: Address, amount: int, fields: nat) {
    var ds := w.delegations;
    && w.address == a && w.body == fields
    && |ds| == 1 && ds[0].delegator == a && ds[0].amount == amount && ds[0].reward == 0 && ds[0].undelegations == []
  }

  /** A new validator's wrapper holds what leaves its balance. */
  lemma CreateStores(b: map<Address, int>, m: Wrappers, flags: set<Address>, a: Address, amount: int, fields: nat)
    requires ValidState(b, m, flags) && a !in m && 0 <= amount <= Get(b, a)
    ensures
      var b', m' := b[a := Get(b, a) - amount], m[a := NewWrapper(a, amount, fields)];
      ValidState(b', m', flags + {a}) && TotalOf(b', m') == TotalOf(b, m) && (Singles(m) ==> Singles(m'))
  {
    var w := NewWrapper(a, amount, fields);
    StakedPut(m, a, w);
    SumPut(b, a, Get(b, a) - amount);
    assert w.delegations[1..] == [];
    assert Worth(w.delegations) == amount;
  }

  datatype State = State(balances: map<Address, int>, wrappers: Wrappers, flags: set<Address>)

  /** How the staking messages of a block are checked. */
  datatype Rules = Rules(epoch: int, redelegation: bool, min100: bool, sane: Wrapper -> bool)

  ghost predicate CreateEffect(s: State, s': State, v: Address, amount: int, fields: nat) {
    && v !in s.flags && s'.flags == s.flags + {v} && 0 <= amount <= Get(s.balances, v)
    && s'.balances == s.balances[v := Get(s.balances, v) - amount]
    && v in s'.wrappers && s'.wrappers == s.wrappers[v := s'.wrappers[v]]
    && SelfDelegated(s'.wrappers[v], v, amount, fields)
  }

  lemma Creates(s: State, v: Address, amount: int, fields: nat)
    requires v !in s.flags && 0 <= amount <= Get(s.balances, v)
    ensures CreateEffect(s, State(s.balances[v := Get(s.balances, v) - amount],
                                  s.wrappers[v := NewWrapper(v, amount, fields)], s.flags + {v}), v, amount, fields)
  {
  }

  /** Unlocking part of the only delegation there is. */
  lemma UnlocksOnly(w: Wrapper, a: Address, total: int, fields: nat, amount: int, epoch: int, w': Wrapper)
    requires SelfDelegated(w, a, total, fields) && Unlocking(w, a, amount, epoch, w')
    ensures |w'.delegations| == 1 && w'.delegations[0].amount == total - amount
    ensures LockedIn(w'.delegations[0].undelegations, epoch) == amount
  {
    var i :| 0 <= i < |w.delegations| && UnlockingAt(w.delegations, a, amount, epoch, i, w'.delegations);
    assert LockedIn([], epoch) == 0;
  }

  ghost predicate UndelegateEffect(s: State, s': State, a: Address, v: Address, amount: int, epoch: int) {
    && amount > 0 && s'.balances == s.balances && s'.flags == s.flags && v in s.wrappers && v in s'.wrappers
    && s'.wrappers == s.wrappers[v := s'.wrappers[v]] && Unlocking(s.wrappers[v], a, amount, epoch, s'.wrappers[v])
  }

  /** What an accepted message does to the state. */
  ghost predicate Effect(msg: Message, s: State, s': State, r: Rules) {
    match msg
    case CreateMsg(v, amount, duplicate, fields) =>
      fields.Some? && !duplicate && CreateEffect(s, s', v, amount, fields.value)
    case DelegateMsg(a, v, amount, ixs) =>
      && s'.flags == s.flags && !TooSmall(amount, r.min100)
      && DelegateEffect(s.balances, s.wrappers, a, v, amount, Used(r.redelegation, ixs), r.epoch, r.sane, s'.balances,
                        s'.wrappers)
      && (DistinctIndexes(Used(r.redelegation, ixs)) ==> StakesAfter(s.wrappers, s'.wrappers, v, a, amount))
    case UndelegateMsg(a, v, amount) => UndelegateEffect(s, s', a, v, amount, r.epoch)
    case CollectMsg(a, ixs) =>
      && s'.flags == s.flags && CollectEffect(s.balances, s.wrappers, a, ixs, s'.balances, s'.wrappers)
      && (DistinctIndexes(ixs) ==> forall v :: Emptied(s.wrappers, s'.wrappers, IndexSet(ixs), v))
  }

  /** Why a message is not accepted. */
  ghost predicate Refused(msg: Message, s: State, r: Rules) {
    match msg
    case CreateMsg(v, amount, duplicate, fields) =>
      || amount < 0 || v in s.flags || duplicate || fields == None || Get(s.balances, v) < amount
      || exists w :: SelfDelegated(w, v, amount, fields.value) && !r.sane(w)
    case DelegateMsg(a, v, amount, ixs) =>
      exists e :: DelegateRefused(s.wrappers, s.flags, Get(s.balances, a), Used(r.redelegation, ixs), v, a, r.epoch,
                                  r.sane, amount, r.min100, e)
    case UndelegateMsg(a, v, amount) =>
      v !in s.flags || v !in s.wrappers || UndelegateRefused(s.wrappers[v], a, amount, r.epoch, r.sane)
    case CollectMsg(a, ixs) =>
      (exists e :: CollectRefused(s.wrappers, ixs, e)) || ClearedInsane(s.wrappers, ixs, r.sane)
  }

  ghost predicate EffectAt(states: seq<State>, msgs: seq<Message>, r: Rules, i: nat) {
    i < |msgs| && i + 1 < |states| && Effect(msgs[i], states[i], states[i + 1], r)
  }

  class StateDB {
    /** The wrapper's sanity check, and whether it fails only for a low self-delegation. */
    const sane: Wrapper -> bool
    const low: Wrapper -> bool
    const inactive: nat -> nat
    var balances: map<Address, int>
    var wrappers: Wrappers
    var flags: set<Address>

    ghost predicate Valid()
      reads this
    {
      ValidState(balances, wrappers, flags)
    }

    function Now(): State
      reads this
    {
      State(balances, wrappers, flags)
    }

    ghost function RulesFor(epoch: int, redelegation: bool, min100: bool): Rules {
      Rules(epoch, redelegation, min100, sane)
    }

    /** All tokens: liquid, staked, unlocking and rewarded. */
    ghost function Total(): int
      reads this
    {
      TotalOf(balances, wrappers)
    }

    constructor (sane: Wrapper -> bool, low: Wrapper -> bool, inactive: nat -> nat, balances: map<Address, int>)
      requires Solvent(balances)
      ensures Valid() && Singles(wrappers) && Total() == Sum(balances)
      ensures this.balances == balances && this.sane == sane && this.low == low && this.inactive == inactive
    {
      this.sane, this.low, this.inactive, this.balances := sane, low, inactive, balances;
      wrappers, flags := map[], {};
      assert Worths(map[]) == map[];
    }

    /** CreateValidatorFn. */
    method CreateValidator(a: Address, amount: int, duplicate: bool, fields: Option<nat>) returns (ok: bool)
      requires Valid()
      modifies this
      ensures Valid() && Total() == old(Total()) && (old(Singles(wrappers)) ==> Singles(wrappers))
      ensures ok <==>
        && amount >= 0 && a !in old(flags) && !duplicate && fields.Some? && amount <= old(Get(balances, a))
        && sane(NewWrapper(a, amount, fields.value))
      ensures !ok ==> unchanged(this)
      ensures ok ==> CreateEffect(old(Now()), Now(), a, amount, fields.value)
      ensures ok ==> wrappers == old(wrappers)[a := NewWrapper(a, amount, fields.value)]
    {
      if amount < 0 || a in flags || duplicate || Get(balances, a) < amount || fields.None? { return false; }
      var w := NewWrapper(a, amount, fields.value);
      if !sane(w) { return false; }
      CreateStores(balances, wrappers, flags, a, amount, fields.value);
      Creates(Now(), a, amount, fields.value);
      wrappers := wrappers[a := w];
      flags := flags + {a};
      balances := balances[a := Get(balances, a) - amount];
      ok := true;
    }

    /** DelegateFn: total tokens are kept exactly when the delegator has at most one entry with the validator. */
    method DelegateTo(a: Address, to: Address, amount: int, ixs: seq<Index>, epoch: int, redelegation: bool,
                      min100: bool)
      returns (error: Failure)
      requires Valid()
      modifies this
      ensures Valid() && (old(Singles(wrappers)) ==> Singles(wrappers)) && flags == old(flags)
      ensures error != None ==> unchanged(this)
      ensures error != None ==>
        DelegateRefused(wrappers, flags, Get(balances, a), Used(redelegation, ixs), to, a, epoch, sane,
                                                amount, min100, error.value)
      ensures error == None ==>
        && to in old(flags) && !TooSmall(amount, min100)
        && DelegateEffect(old(balances), old(wrappers), a, to, amount, Used(redelegation, ixs), epoch, sane,
                          balances, wrappers)
      ensures error == None && DistinctIndexes(Used(redelegation, ixs)) ==>
        && DelegateTotal(old(balances), old(wrappers), a, to, amount, balances, wrappers)
        && StakesAfter(old(wrappers), wrappers, to, a, amount)
    {
      var plan;
      error, plan := VerifyDelegate(wrappers, flags, Get(balances, a), a, to, amount, ixs, epoch, redelegation, min100,
                                    sane);
      if error != None { return; }
      balances, wrappers :=
        Settle(balances, wrappers, flags, a, to, amount, Used(redelegation, ixs), epoch, sane, plan);
    }

    /** CollectRewardsFn. */
    method CollectRewards(a: Address, ixs: seq<Index>) returns (error: Failure)
      requires Valid()
      modifies this
      ensures Valid() && (old(Singles(wrappers)) ==> Singles(wrappers)) && flags == old(flags)
      ensures error != None ==> balances == old(balances)
      ensures error != None && error != Some(Insane) ==> unchanged(this) && CollectRefused(wrappers, ixs, error.value)
      ensures error == Some(Insane) ==> ClearedInsane(old(wrappers), ixs, sane)
      ensures error == None ==> CollectEffect(old(balances), old(wrappers), a, ixs, balances, wrappers)
      ensures error == None && DistinctIndexes(ixs) ==>
        Total() == old(Total()) && forall v :: Emptied(old(wrappers), wrappers, IndexSet(ixs), v)
    {
      ghost var m := wrappers;
      var ws, total;
      error, ws, total := VerifyCollect(wrappers, ixs);
      if error != None { return; }
      var ok;
      ok, balances, wrappers := PayOut(balances, wrappers, flags, a, ixs, sane, ws, total);
      if !ok { error := Some(Insane); }
      if ok && DistinctIndexes(ixs) { CollectEmptiesAll(m, ixs, wrappers); }
    }

    /** UndelegateFn. */
    method UndelegateFrom(a: Address, v: Address, amount: int, epoch: int) returns (ok: bool)
      requires Valid()
      modifies this
      ensures Valid() && Total() == old(Total()) && (old(Singles(wrappers)) ==> Singles(wrappers))
      ensures !ok ==> unchanged(this)
      ensures !ok ==> v !in flags || UndelegateRefused(wrappers[v], a, amount, epoch, sane)
      ensures ok ==> UndelegateEffect(old(Now()), Now(), a, v, amount, epoch)
    {
      if amount < 0 || v !in flags { return false; }
      var w;
      ok, w := VerifyUndelegate(wrappers[v], a, amount, epoch, sane, low, inactive);
      if !ok || !sane(w) { return false; }
      UnlockingKeeps(wrappers[v], a, amount, epoch, w);
      StakedPut(wrappers, v, w);
      wrappers := wrappers[v := w];
    }

    /** One staking message of a block. */
    method Apply(msg: Message, epoch: int, redelegation: bool, min100: bool) returns (ok: bool)
      requires Valid() && Singles(wrappers)
      modifies this
      ensures Valid() && Singles(wrappers)
      ensures ok && Indexed(msg) ==> Total() == old(Total())
      ensures ok ==> Effect(msg, old(Now()), Now(), RulesFor(epoch, redelegation, min100))
      ensures !ok ==> Refused(msg, old(Now()), RulesFor(epoch, redelegation, min100))
    {
      match msg
      case CreateMsg(v, amount, duplicate, fields) =>
        ok := CreateValidator(v, amount, duplicate, fields);
        if fields.Some? { assert SelfDelegated(NewWrapper(v, amount, fields.value), v, amount, fields.value); }
      case DelegateMsg(a, v, amount, ixs) =>
        ghost var m := wrappers;
        var error := DelegateTo(a, v, amount, ixs, epoch, redelegation, min100);
        ok := error == None;
        if ok { MatchesOne(m[v].delegations, a); }
      case UndelegateMsg(a, v, amount) => ok := UndelegateFrom(a, v, amount, epoch);
      case CollectMsg(a, ixs) =>
        var error := CollectRewards(a, ixs);
        ok := error == None;
    }

    /** The staking messages of a block, one after the other; the first that is refused invalidates the block. */
    method ApplyAll(msgs: seq<Message>, epoch: int, redelegation: bool, min100: bool)
      returns (ok: bool, ghost states: seq<State>)
      requires Valid() && Singles(wrappers)
      modifies this
      ensures Valid() && Singles(wrappers)
      ensures ok && (forall i :: 0 <= i < |msgs| ==> Indexed(msgs[i])) ==> Total() == old(Total())
      ensures 0 < |states| <= |msgs| + 1 && states[0] == old(Now())
      ensures forall i :: 0 <= i < |states| - 1 ==> EffectAt(states, msgs, RulesFor(epoch, redelegation, min100), i)
      ensures ok ==> |states| == |msgs| + 1 && states[|msgs|] == Now()
      ensures !ok ==>
        var k := |states| - 1; k < |msgs| && Refused(msgs[k], states[k], RulesFor(epoch, redelegation, min100))
    {
      states := [Now()];
      for i := 0 to |msgs|
        invariant Valid() && Singles(wrappers)
        invariant (forall j :: 0 <= j < i ==> Indexed(msgs[j])) ==> Total() == old(Total())
        invariant |states| == i + 1 && states[0] == old(Now()) && states[i] == Now()
        invariant forall j :: 0 <= j < i ==> EffectAt(states, msgs, RulesFor(epoch, redelegation, min100), j)
      {
        ghost var was := states;
        ok := Apply(msgs[i], epoch, redelegation, min100);
        if !ok { return; }
        states := states + [Now()];
        forall j | 0 <= j < i + 1 ensures EffectAt(states, msgs, RulesFor(epoch, redelegation, min100), j) {
          if j < i { assert EffectAt(was, msgs, RulesFor(epoch, redelegation, min100), j); }
        }
      }
      ok := true;
    }
  }

  /** Right after its creation a validator can undelegate any part of its own stake. */
  method CreatedUndelegates(db: StateDB, v: Address, amount: int, fields: nat, part: int, epoch: int)
    returns (created: bool, ok: bool)
    requires db.Valid() && (forall w :: db.sane(w)) && 0 < part <= amount
    modifies db
    ensures created <==> v !in old(db.flags) && amount <= old(Get(db.balances, v))
    ensures created ==>
      && ok && v in db.wrappers && |db.wrappers[v].delegations| == 1
      && var d := db.wrappers[v].delegations[0]; d.amount == amount - part && LockedIn(d.undelegations, epoch) == part
  {
    ok := false;
    created := db.CreateValidator(v, amount, false, Some(fields));
    if created {
      ghost var w := db.wrappers[v];
      ok := db.UndelegateFrom(v, v, part, epoch);
      if ok { UnlocksOnly(w, v, amount, fields, part, epoch, db.wrappers[v]); }
    }
  }

  /** A delegator with two entries at a validator delegates, and as much again as it pays appears. The staking
      operations never produce such a wrapper. */
  method TwoEntriesMint(db: StateDB, v: Address, x: Delegation, y: Delegation, amount: int)
    requires db.Valid() && v in db.wrappers && db.wrappers[v].delegations == [x, y] && x.delegator == y.delegator
    requires !TooSmall(amount, false) && amount <= Get(db.balances, x.delegator) && forall w :: db.sane(w)
    modifies db
    ensures db.Total() == old(db.Total()) + amount
  {
    TwoEntriesGift(x, y, amount);
    assert amount >= 0 && TotalFree(db.wrappers, [], 0) == 0;
    var error := db.DelegateTo(x.delegator, v, amount, [], 0, false, false);
  }
}
