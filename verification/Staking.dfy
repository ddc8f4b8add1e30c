/** staking/types/delegation.go: delegations and the amounts locked in their undelegations. */
module Delegations {
  type Address = nat

  datatype Undelegation = Undelegation(amount: int, epoch: int)

  datatype Delegation = Delegation(delegator: Address, amount: int, reward: int, undelegations: seq<Undelegation>)

  /** The total of the entries still unlocking. */
  ghost function Locked(us: seq<Undelegation>): int {
    if us == [] then 0 else us[0].amount + Locked(us[1..])
  }

  /** Everything a delegation is worth: stake, reward and unlocking entries. */
  ghost function Value(d: Delegation): int { d.amount + d.reward + Locked(d.undelegations) }

  ghost predicate NonNegative(us: seq<Undelegation>) {
    forall i :: 0 <= i < |us| ==> us[i].amount >= 0
  }

  ghost predicate Sorted(us: seq<Undelegation>) {
    forall i, j :: 0 <= i < j < |us| ==> us[i].epoch <= us[j].epoch
  }

  /** The total of all entries from epochs earlier than `epoch`, wherever they stand. */
  ghost function Earlier(us: seq<Undelegation>, epoch: int): int {
    if us == [] then 0 else (if us[0].epoch < epoch then us[0].amount else 0) + Earlier(us[1..], epoch)
  }

  lemma {:induction false} EarlierIsZero(us: seq<Undelegation>, epoch: int)
    requires forall i :: 0 <= i < |us| ==> us[i].epoch >= epoch
    ensures Earlier(us, epoch) == 0
  {
    if us != [] { EarlierIsZero(us[1..], epoch); }
  }

  lemma {:induction false} EarlierNonNegative(us: seq<Undelegation>, epoch: int)
    requires NonNegative(us)
    ensures Earlier(us, epoch) >= 0
  {
    if us != [] { EarlierNonNegative(us[1..], epoch); }
  }

  /** What redelegating up to `balance` leaves of the entries, and of the balance. */
  ghost function Take(us: seq<Undelegation>, epoch: int, balance: int): (seq<Undelegation>, int) {
    if us == [] || us[0].epoch >= epoch then (us, balance)
    else if us[0].amount <= balance then Take(us[1..], epoch, balance - us[0].amount)
    else ([us[0].(amount := us[0].amount - balance)] + us[1..], 0)
  }

  /** What leaves the entries is what leaves the balance still to be found. */
  lemma {:induction false} TakeConserves(us: seq<Undelegation>, epoch: int, balance: int)
    ensures Locked(us) - Locked(Take(us, epoch, balance).0) == balance - Take(us, epoch, balance).1
    decreases |us|
  {
    if us == [] || us[0].epoch >= epoch {
    } else if us[0].amount <= balance {
      TakeConserves(us[1..], epoch, balance - us[0].amount);
    } else {
      var r := [us[0].(amount := us[0].amount - balance)] + us[1..];
      assert r[1..] == us[1..];
    }
  }

  /** With entries in epoch order, all earlier entries are used first, and no more than needed. */
  lemma {:induction false} TakeUsesEarlier(us: seq<Undelegation>, epoch: int, balance: int)
    requires Sorted(us) && NonNegative(us) && balance >= 0
    ensures Take(us, epoch, balance).1 == if Earlier(us, epoch) >= balance then 0 else balance - Earlier(us, epoch)
    decreases |us|
  {
    if us == [] {
    } else if us[0].epoch >= epoch {
      EarlierIsZero(us, epoch);
    } else if us[0].amount <= balance {
      TakeUsesEarlier(us[1..], epoch, balance - us[0].amount);
    } else {
      EarlierNonNegative(us[1..], epoch);
    }
  }

  /** `r` is a suffix of `us`, except that its first entry may have been reduced. */
  ghost predicate ReducedSuffix(us: seq<Undelegation>, r: seq<Undelegation>) {
    && |r| <= |us|
    && (r != [] ==>
         && r[1..] == us[|us| - |r| + 1..]
         && r[0].epoch == us[|us| - |r|].epoch && r[0].amount <= us[|us| - |r|].amount)
  }

  lemma {:induction false} TakeLeavesSuffix(us: seq<Undelegation>, epoch: int, balance: int)
    requires NonNegative(us) && balance >= 0
    ensures ReducedSuffix(us, Take(us, epoch, balance).0) && NonNegative(Take(us, epoch, balance).0)
    ensures Take(us, epoch, balance).1 >= 0
    decreases |us|
  {
    if us == [] || us[0].epoch >= epoch {
    } else if us[0].amount <= balance {
      TakeLeavesSuffix(us[1..], epoch, balance - us[0].amount);
      var r := Take(us[1..], epoch, balance - us[0].amount).0;
      assert r != [] ==> us[1..][|us| - 1 - |r| + 1..] == us[|us| - |r| + 1..];
    } else {
      var r := [us[0].(amount := us[0].amount - balance)] + us[1..];
      assert r[1..] == us[1..];
    }
  }

  lemma SuffixSorted(us: seq<Undelegation>, r: seq<Undelegation>)
    requires Sorted(us) && ReducedSuffix(us, r)
    ensures Sorted(r)
  {
    forall i, j | 0 <= i < j < |r| ensures r[i].epoch <= r[j].epoch {
      assert r[j] == r[1..][j - 1];
      assert r[j] == us[|us| - |r| + j];
      if i > 0 { assert r[i] == r[1..][i - 1]; }
    }
  }

  /** The redelegation loop over one delegation's entries, oldest first. */
  method Redeem(us: seq<Undelegation>, epoch: int, balance: int) returns (r: seq<Undelegation>, left: int)
    ensures (r, left) == Take(us, epoch, balance)
  {
    left := balance;
    var entries := us;
    var cur := 0;
    assert us[0..] == us;
    while cur < |us|
      invariant 0 <= cur <= |us| && entries == us
      invariant Take(us[cur..], epoch, left) == Take(us, epoch, balance)
    {
      assert us[cur..][0] == us[cur] && us[cur..][1..] == us[cur + 1..];
      if us[cur].epoch >= epoch { break; }
      if us[cur].amount <= left {
        left := left - us[cur].amount;
      } else {
        entries := entries[cur := us[cur].(amount := us[cur].amount - left)];
        left := 0;
        assert entries[cur..] == [entries[cur]] + us[cur + 1..];
        break;
      }
      cur := cur + 1;
    }
    r := entries[cur..];
  }

  // ---------- undelegating ----------

  /** Where an entry of `epoch` belongs among sorted entries: after those of earlier or equal epochs. */
  ghost function Inserted(us: seq<Undelegation>, u: Undelegation): seq<Undelegation> {
    if us == [] || us[0].epoch > u.epoch then [u] + us else [us[0]] + Inserted(us[1..], u)
  }

  lemma {:induction false} InsertedSorted(us: seq<Undelegation>, u: Undelegation)
    requires Sorted(us) && NonNegative(us) && u.amount >= 0
    ensures Sorted(Inserted(us, u)) && NonNegative(Inserted(us, u)) && |Inserted(us, u)| == |us| + 1
    ensures Locked(Inserted(us, u)) == Locked(us) + u.amount
    ensures forall v :: v in Inserted(us, u) ==> v == u || v in us
    decreases |us|
  {
    if us == [] || us[0].epoch > u.epoch {
      assert ([u] + us)[1..] == us;
    } else {
      InsertedSorted(us[1..], u);
      var r := Inserted(us[1..], u);
      assert ([us[0]] + r)[1..] == r;
      forall j | 0 <= j < |r| ensures us[0].epoch <= r[j].epoch {
        assert r[j] in r;
        if r[j] != u { assert r[j] in us[1..]; }
      }
    }
  }

  /** The total of the entries of one epoch. */
  ghost function LockedIn(us: seq<Undelegation>, epoch: int): int {
    if us == [] then 0 else (if us[0].epoch == epoch then us[0].amount else 0) + LockedIn(us[1..], epoch)
  }

  /** The entries of `epoch` have grown by `amt` in total, and those of every other epoch come to what they were. */
  ghost predicate GrownIn(us: seq<Undelegation>, us': seq<Undelegation>, epoch: int, amt: int) {
    forall e :: LockedIn(us', e) == LockedIn(us, e) + if e == epoch then amt else 0
  }

  lemma {:induction false} InsertedIn(us: seq<Undelegation>, u: Undelegation, e: int)
    ensures LockedIn(Inserted(us, u), e) == LockedIn(us, e) + if e == u.epoch then u.amount else 0
    decreases |us|
  {
    if us == [] || us[0].epoch > u.epoch {
      assert ([u] + us)[1..] == us;
    } else {
      InsertedIn(us[1..], u, e);
      assert ([us[0]] + Inserted(us[1..], u))[1..] == Inserted(us[1..], u);
    }
  }

  lemma {:induction false} UpdatedIn(us: seq<Undelegation>, i: nat, amt: int, e: int)
    requires i < |us|
    ensures LockedIn(us[i := us[i].(amount := us[i].amount + amt)], e)
         == LockedIn(us, e) + if e == us[i].epoch then amt else 0
  {
    var us' := us[i := us[i].(amount := us[i].amount + amt)];
    if i == 0 {
      assert us'[1..] == us[1..];
    } else {
      UpdatedIn(us[1..], i - 1, amt, e);
      assert us'[1..] == us[1..][i - 1 := us[i].(amount := us[i].amount + amt)];
    }
  }

  /** Delegation.Undelegate: moves `amt` from stake to the entry of `epoch`, keeping entries in epoch order
      and the delegation's value. */
  method Undelegate(d: Delegation, epoch: int, amt: int) returns (ok: bool, r: Delegation)
    requires Sorted(d.undelegations) && NonNegative(d.undelegations)
    ensures ok == (0 < amt <= d.amount) && (!ok ==> r == d)
    ensures ok ==> r.amount == d.amount - amt && r.delegator == d.delegator && r.reward == d.reward
    ensures ok ==> GrownIn(d.undelegations, r.undelegations, epoch, amt)
    ensures Value(r) == Value(d) && Sorted(r.undelegations) && NonNegative(r.undelegations)
  {
    ok, r := false, d;
    if amt <= 0 || d.amount < amt { return; }
    ok := true;
    var us := d.undelegations;
    for i := 0 to |us|
      invariant forall j :: 0 <= j < i ==> us[j].epoch != epoch
    {
      if us[i].epoch == epoch {
        LockedUpdate(us, i, us[i].(amount := us[i].amount + amt));
        forall e ensures LockedIn(us[i := us[i].(amount := us[i].amount + amt)], e)
                      == LockedIn(us, e) + if e == epoch then amt else 0 { UpdatedIn(us, i, amt, e); }
        r := d.(amount := d.amount - amt, undelegations := us[i := us[i].(amount := us[i].amount + amt)]);
        return;
      }
    }
    var sorted := InsertSorted(us, Undelegation(amt, epoch));
    InsertedSorted(us, Undelegation(amt, epoch));
    forall e ensures LockedIn(sorted, e) == LockedIn(us, e) + if e == epoch then amt else 0 {
      InsertedIn(us, Undelegation(amt, epoch), e);
    }
    r := d.(amount := d.amount - amt, undelegations := sorted);
  }

  lemma Reassociate(a: seq<Undelegation>, u: Undelegation, b: seq<Undelegation>)
    ensures a + ([u] + b) == a + [u] + b
  {
  }

  /** Appending an entry and stably sorting by epoch. */
  method InsertSorted(us: seq<Undelegation>, u: Undelegation) returns (r: seq<Undelegation>)
    ensures r == Inserted(us, u)
  {
    var i := 0;
    assert us[0..] == us;
    while i < |us| && us[i].epoch <= u.epoch
      invariant 0 <= i <= |us| && Inserted(us, u) == us[..i] + Inserted(us[i..], u)
    {
      assert us[i..][1..] == us[i + 1..] && us[..i + 1] == us[..i] + [us[i]];
      Reassociate(us[..i], us[i], Inserted(us[i + 1..], u));
      i := i + 1;
    }
    var rest := us[i..];
    assert Inserted(rest, u) == [u] + rest;
    r := us[..i] + ([u] + rest);
  }

  lemma {:induction false} LockedUpdate(us: seq<Undelegation>, i: nat, u: Undelegation)
    requires i < |us|
    ensures Locked(us[i := u]) == Locked(us) - us[i].amount + u.amount
  {
    if i == 0 {
      assert us[i := u][1..] == us[1..];
    } else {
      LockedUpdate(us[1..], i - 1, u);
      assert us[i := u][1..] == us[1..][i - 1 := u];
    }
  }
}

/** core/staking_verifier.go and the staking closures of core/evm.go: tokens move between liquid balances,
    delegations, unlocking entries and rewards. */
module Staking {
  import opened Common
  import opened Delegations
  import opened Ledger

  /** A validator wrapper; `body` stands for the fields these operations never read. */
  datatype Wrapper = Wrapper(address: Address, delegations: seq<Delegation>, body: nat)

  datatype Index = Index(validator: Address, position: nat)

  type Wrappers = map<Address, Wrapper>

  // ---------- totals ----------

  ghost function Worth(ds: seq<Delegation>): int {
    if ds == [] then 0 else Value(ds[0]) + Worth(ds[1..])
  }

  lemma {:induction false} WorthUpdate(ds: seq<Delegation>, i: nat, d: Delegation)
    requires i < |ds|
    ensures Worth(ds[i := d]) == Worth(ds) - Value(ds[i]) + Value(d)
  {
    if i == 0 {
      assert ds[i := d][1..] == ds[1..];
    } else {
      WorthUpdate(ds[1..], i - 1, d);
      assert ds[i := d][1..] == ds[1..][i - 1 := d];
    }
  }

  lemma {:induction false} WorthSnoc(ds: seq<Delegation>, d: Delegation)
    ensures Worth(ds + [d]) == Worth(ds) + Value(d)
  {
    if ds == [] {
      assert (ds + [d])[1..] == [];
    } else {
      WorthSnoc(ds[1..], d);
      assert (ds + [d])[1..] == ds[1..] + [d];
    }
  }

  ghost function Worths(m: Wrappers): map<Address, int> { map a | a in m :: Worth(m[a].delegations) }

  /** All tokens held through validators. */
  ghost function Staked(m: Wrappers): int { Sum(Worths(m)) }

  ghost function WorthAt(m: Wrappers, a: Address): int { if a in m then Worth(m[a].delegations) else 0 }

  lemma StakedPut(m: Wrappers, a: Address, w: Wrapper)
    ensures Staked(m[a := w]) == Staked(m) - WorthAt(m, a) + Worth(w.delegations)
  {
    SumPut(Worths(m), a, Worth(w.delegations));
    assert Worths(m[a := w]) == Worths(m)[a := Worth(w.delegations)];
  }

  /** Wrappers are stored under their own address. */
  ghost predicate Addressed(m: Wrappers) {
    forall a :: a in m ==> m[a].address == a
  }

  ghost predicate EntriesOk(us: seq<Undelegation>) { Sorted(us) && NonNegative(us) }

  /** All unlocking entries are non-negative and in epoch order. */
  ghost predicate Orderly(m: Wrappers) {
    forall a :: a in m ==> AllEntriesOk(m[a].delegations)
  }

  // ---------- a list of changed wrappers ----------

  ghost predicate Distinct(ws: seq<Wrapper>) {
    forall i, j :: 0 <= i < j < |ws| ==> ws[i].address != ws[j].address
  }

  ghost predicate From(ws: seq<Wrapper>, m: Wrappers) {
    forall i :: 0 <= i < |ws| ==> ws[i].address in m
  }

  /** By how much `ws` is worth more than the wrappers of `m` it stands for. */
  ghost function Gain(m: Wrappers, ws: seq<Wrapper>): int {
    if ws == [] then 0 else
      var w := ws[|ws| - 1];
      Gain(m, ws[..|ws| - 1]) + Worth(w.delegations) - WorthAt(m, w.address)
  }

  lemma GainSnoc(m: Wrappers, ws: seq<Wrapper>, w: Wrapper)
    ensures Gain(m, ws + [w]) == Gain(m, ws) + Worth(w.delegations) - WorthAt(m, w.address)
  {
    assert (ws + [w])[..|ws|] == ws;
  }

  lemma {:induction false} GainUpdate(m: Wrappers, ws: seq<Wrapper>, i: nat, w: Wrapper)
    requires i < |ws| && w.address == ws[i].address
    ensures Gain(m, ws[i := w]) == Gain(m, ws) + Worth(w.delegations) - Worth(ws[i].delegations)
    decreases |ws|
  {
    var n := |ws| - 1;
    if i == n {
      assert ws[i := w][..n] == ws[..n];
    } else {
      GainUpdate(m, ws[..n], i, w);
      assert ws[i := w][..n] == ws[..n][i := w];
    }
  }

  /** Storing wrappers one after the other. */
  ghost function Stored(m: Wrappers, ws: seq<Wrapper>): Wrappers {
    if ws == [] then m else Stored(m, ws[..|ws| - 1])[ws[|ws| - 1].address := ws[|ws| - 1]]
  }

  lemma {:induction false} StoredElsewhere(m: Wrappers, ws: seq<Wrapper>, a: Address)
    requires forall i :: 0 <= i < |ws| ==> ws[i].address != a
    ensures WorthAt(Stored(m, ws), a) == WorthAt(m, a)
    decreases |ws|
  {
    if ws != [] { StoredElsewhere(m, ws[..|ws| - 1], a); }
  }

  /** With pairwise distinct addresses, storing adds exactly the gain. */
  lemma {:induction false} StoredGain(m: Wrappers, ws: seq<Wrapper>)
    requires Distinct(ws)
    ensures Staked(Stored(m, ws)) == Staked(m) + Gain(m, ws)
    decreases |ws|
  {
    if ws != [] {
      var n := |ws| - 1;
      StoredGain(m, ws[..n]);
      StoredElsewhere(m, ws[..n], ws[n].address);
      StakedPut(Stored(m, ws[..n]), ws[n].address, ws[n]);
    }
  }

  // ---------- redelegation ----------

  /** The entries of delegation `ix` that are free to be redelegated. */
  ghost function Free(m: Wrappers, ix: Index, epoch: int): int {
    if ix.validator in m && ix.position < |m[ix.validator].delegations|
    then Earlier(m[ix.validator].delegations[ix.position].undelegations, epoch) else 0
  }

  ghost function TotalFree(m: Wrappers, ixs: seq<Index>, epoch: int): int {
    if ixs == [] then 0 else TotalFree(m, ixs[..|ixs| - 1], epoch) + Free(m, ixs[|ixs| - 1], epoch)
  }

  ghost predicate DistinctIndexes(ixs: seq<Index>) {
    forall i, j :: 0 <= i < j < |ixs| ==> ixs[i].validator != ixs[j].validator
  }

  /** `d'` is `d` with its oldest entries used up, the last of them perhaps in part. */
  ghost predicate Reduced(d: Delegation, d': Delegation) {
    && d' == d.(undelegations := d'.undelegations)
    && ReducedSuffix(d.undelegations, d'.undelegations)
    && (EntriesOk(d.undelegations) ==> EntriesOk(d'.undelegations))
  }

  /** Entry `i` has lost entries only if it is one of the free ones. */
  ghost predicate RedeemedEntry(free: set<Index>, w: Wrapper, w': Wrapper, i: nat)
    requires i < |w.delegations| == |w'.delegations|
  {
    && Reduced(w.delegations[i], w'.delegations[i])
    && (w'.delegations[i] != w.delegations[i] ==> Index(w.address, i) in free)
  }

  /** `w'` is `w` with entries of the delegations `free` used up, and nothing else changed. */
  ghost predicate Redeemed(free: set<Index>, w: Wrapper, w': Wrapper) {
    && w' == w.(delegations := w'.delegations)
    && |w'.delegations| == |w.delegations|
    && forall i :: 0 <= i < |w.delegations| ==> RedeemedEntry(free, w, w', i)
  }

  lemma RedeemedMore(some: set<Index>, free: set<Index>, w: Wrapper, w': Wrapper)
    requires Redeemed(some, w, w') && some <= free
    ensures Redeemed(free, w, w')
  {
    forall i | 0 <= i < |w.delegations| ensures RedeemedEntry(free, w, w', i) {
      assert RedeemedEntry(some, w, w', i);
    }
  }

  /** Takes up to `left` from one delegation's free entries. */
  method RedeemFrom(w: Wrapper, pos: nat, epoch: int, left: int) returns (w': Wrapper, left': int)
    requires pos < |w.delegations| && left >= 0 && EntriesOk(w.delegations[pos].undelegations)
    ensures 0 <= left' <= left && Redeemed({Index(w.address, pos)}, w, w')
    ensures Worth(w.delegations) - Worth(w'.delegations) == left - left'
    ensures var free := Earlier(w.delegations[pos].undelegations, epoch);
      left' == if free >= left then 0 else left - free
  {
    var d := w.delegations[pos];
    var us;
    us, left' := Redeem(d.undelegations, epoch, left);
    TakeConserves(d.undelegations, epoch, left);
    TakeUsesEarlier(d.undelegations, epoch, left);
    TakeLeavesSuffix(d.undelegations, epoch, left);
    SuffixSorted(d.undelegations, us);
    EarlierNonNegative(d.undelegations, epoch);
    WorthUpdate(w.delegations, pos, d.(undelegations := us));
    w' := w.(delegations := w.delegations[pos := d.(undelegations := us)]);
  }

  datatype Error = NegativeAmount | ValidatorExist | ValidatorNotExist | DelegationTooSmall | InsufficientBalance
                 | AddressNotPresent | IndexOutOfBound | Insane | NoRewards | BadFields

  type Failure = Option<Error>

  /** The sanity check turns something down. */
  ghost predicate Rejects(sane: Wrapper -> bool) { exists w :: !sane(w) }

  ghost function IndexSet(ixs: seq<Index>): set<Index> { set i | 0 <= i < |ixs| :: ixs[i] }

  /** An index that leads to a delegation of `m`. */
  ghost predicate Leads(m: Wrappers, ix: Index) {
    ix.validator in m && ix.position < |m[ix.validator].delegations|
  }

  /** What redelegation has gathered so far: changed wrappers, the amount still to be found, and what came from
      each validator. */
  datatype Gathered = Gathered(updated: seq<Wrapper>, left: int, locked: map<Address, int>, mine: Option<nat>)

  /** Every changed wrapper is sane, is an old one with entries used up, and belongs to one of the indexes. */
  ghost predicate ChangedAt(m: Wrappers, free: set<Index>, sane: Wrapper -> bool, w: Wrapper) {
    && sane(w) && w.address in m && Redeemed(free, m[w.address], w)
  }

  ghost predicate Changed(m: Wrappers, free: set<Index>, sane: Wrapper -> bool, ws: seq<Wrapper>) {
    forall i :: 0 <= i < |ws| ==> ChangedAt(m, free, sane, ws[i])
  }

  ghost predicate Names(ixs: seq<Index>, a: Address) { exists i :: 0 <= i < |ixs| && ixs[i].validator == a }

  ghost predicate Named(ixs: seq<Index>, g: Gathered) {
    && (forall k :: 0 <= k < |g.updated| ==> Names(ixs, g.updated[k].address))
    && (forall a :: a in g.locked ==> Names(ixs, a))
  }

  /** `mine` is where the wrapper of `to` stands, if it is there. */
  ghost predicate Finds(ws: seq<Wrapper>, to: Address, mine: Option<nat>) {
    match mine
    case None => forall k :: 0 <= k < |ws| ==> ws[k].address != to
    case Some(k) => k < |ws| && ws[k].address == to
  }

  ghost predicate Balances(m: Wrappers, ixs: seq<Index>, epoch: int, amount: int, g: Gathered) {
    && Gain(m, g.updated) == g.left - amount
    && 0 <= g.left <= amount
    && g.left == (var free := TotalFree(m, ixs, epoch); if free >= amount then 0 else amount - free)
  }

  /** Once the validators differ, so do the wrappers, and the locked amounts add up. */
  ghost predicate AddsUp(ixs: seq<Index>, amount: int, g: Gathered) {
    DistinctIndexes(ixs) ==> Distinct(g.updated) && Sum(g.locked) == amount - g.left
  }

  ghost predicate AllLead(m: Wrappers, ixs: seq<Index>, n: nat) {
    n <= |ixs| && forall j :: 0 <= j < n ==> Leads(m, ixs[j])
  }

  /** The invariant of the redelegation loop, after the indexes `ixs`. */
  ghost predicate Progress(m: Wrappers, free: set<Index>, ixs: seq<Index>, to: Address, epoch: int,
                           sane: Wrapper -> bool, amount: int, g: Gathered) {
    var ok := Balances(m, ixs, epoch, amount, g) && AddsUp(ixs, amount, g)
              && Changed(m, free, sane, g.updated) && Named(ixs, g) && Finds(g.updated, to, g.mine);
    ok
  }

  lemma NamesMore(ixs: seq<Index>, i: nat, g: Gathered)
    requires i < |ixs| && Named(ixs[..i], g)
    ensures Named(ixs[..i + 1], g) && Names(ixs[..i + 1], ixs[i].validator)
  {
    assert ixs[..i + 1][i] == ixs[i];
    forall a | Names(ixs[..i], a) ensures Names(ixs[..i + 1], a) {
      var j :| 0 <= j < i && ixs[..i][j].validator == a;
      assert ixs[..i + 1][j].validator == a;
    }
  }

  /** One more changed wrapper. */
  function Grown(g: Gathered, w: Wrapper, to: Address, left: int): Gathered {
    Gathered(g.updated + [w], left, g.locked[w.address := g.left - left],
             if w.address == to then Some(|g.updated|) else g.mine)
  }

  lemma GrownAddsUp(ixs: seq<Index>, i: nat, amount: int, g: Gathered, w: Wrapper, to: Address, left: int)
    requires i < |ixs| && w.address == ixs[i].validator
    requires Named(ixs[..i], g) && AddsUp(ixs[..i], amount, g)
    ensures AddsUp(ixs[..i + 1], amount, Grown(g, w, to, left))
  {
    var ixs' := ixs[..i + 1];
    if DistinctIndexes(ixs') {
      assert ixs'[i] == ixs[i];
      assert forall a :: Names(ixs[..i], a) ==> a != w.address by {
        forall a | Names(ixs[..i], a) ensures a != w.address {
          var j :| 0 <= j < i && ixs[..i][j].validator == a;
          assert ixs'[j].validator == a;
        }
      }
      assert DistinctIndexes(ixs[..i]) by {
        forall j, k | 0 <= j < k < i ensures ixs[..i][j].validator != ixs[..i][k].validator {
          assert ixs'[j].validator != ixs'[k].validator;
        }
      }
      assert w.address !in g.locked;
      SumPut(g.locked, w.address, g.left - left);
    }
  }

  lemma KeptAddsUp(ixs: seq<Index>, i: nat, amount: int, g: Gathered)
    requires i < |ixs| && AddsUp(ixs[..i], amount, g)
    ensures AddsUp(ixs[..i + 1], amount, g)
  {
    var ixs' := ixs[..i + 1];
    if DistinctIndexes(ixs') {
      forall j, k | 0 <= j < k < i ensures ixs[..i][j].validator != ixs[..i][k].validator {
        assert ixs'[j].validator != ixs'[k].validator;
      }
    }
  }

  lemma {:induction false} TotalFreeNonNegative(m: Wrappers, ixs: seq<Index>, epoch: int)
    requires Orderly(m)
    ensures TotalFree(m, ixs, epoch) >= 0
    decreases |ixs|
  {
    if ixs != [] {
      var ix := ixs[|ixs| - 1];
      TotalFreeNonNegative(m, ixs[..|ixs| - 1], epoch);
      if Leads(m, ix) {
        assert EntriesOk(m[ix.validator].delegations[ix.position].undelegations);
        EarlierNonNegative(m[ix.validator].delegations[ix.position].undelegations, epoch);
      }
    }
  }

  lemma FreeSnoc(m: Wrappers, ixs: seq<Index>, i: nat, epoch: int)
    requires i < |ixs|
    ensures TotalFree(m, ixs[..i + 1], epoch) == TotalFree(m, ixs[..i], epoch) + Free(m, ixs[i], epoch)
  {
    assert ixs[..i + 1][..i] == ixs[..i];
  }

  /** One index of the redelegation loop. */
  method RedeemStep(m: Wrappers, ghost free: set<Index>, ixs: seq<Index>, i: nat, to: Address, epoch: int,
                    sane: Wrapper -> bool, ghost amount: int, g: Gathered) returns (error: Failure, g': Gathered)
    requires Addressed(m) && Orderly(m) && i < |ixs|
    requires Progress(m, free, ixs[..i], to, epoch, sane, amount, g) && ixs[i] in free
    ensures Explained(m, free, ixs, sane, error)
    ensures error == None ==> Leads(m, ixs[i])
    ensures error == None ==> Progress(m, free, ixs[..i + 1], to, epoch, sane, amount, g')
  {
    var ix := ixs[i];
    g' := g;
    if ix.validator !in m { return Some(AddressNotPresent), g; }
    var w := m[ix.validator];
    if |w.delegations| <= ix.position { return Some(IndexOutOfBound), g; }
    error := None;
    assert EntriesOk(w.delegations[ix.position].undelegations);
    var w', left := RedeemFrom(w, ix.position, epoch, g.left);
    RedeemedMore({Index(w.address, ix.position)}, free, w, w');
    if g.left > left {
      if !sane(w') { return Some(Insane), g; }
      g' := Grown(g, w', to, left);
      GrownProgress(m, free, ixs, i, to, epoch, sane, amount, g, w', left);
    } else {
      KeptProgress(m, free, ixs, i, to, epoch, sane, amount, g);
    }
  }

  /** What taking from the entries of index `ix` leaves of `left`. */
  ghost predicate LeftAfter(m: Wrappers, ix: Index, epoch: int, left: int, left': int) {
    left' == var free := Free(m, ix, epoch); if free >= left then 0 else left - free
  }

  lemma LeftSnoc(m: Wrappers, ixs: seq<Index>, i: nat, epoch: int, amount: int, g: Gathered, left: int)
    requires Orderly(m) && i < |ixs| && Leads(m, ixs[i])
    requires Balances(m, ixs[..i], epoch, amount, g) && LeftAfter(m, ixs[i], epoch, g.left, left)
    ensures left == (var free := TotalFree(m, ixs[..i + 1], epoch); if free >= amount then 0 else amount - free)
  {
    FreeSnoc(m, ixs, i, epoch);
    TotalFreeNonNegative(m, ixs[..i], epoch);
    var us := m[ixs[i].validator].delegations[ixs[i].position].undelegations;
    assert EntriesOk(us);
    EarlierNonNegative(us, epoch);
  }

  lemma GrownProgress(m: Wrappers, free: set<Index>, ixs: seq<Index>, i: nat, to: Address, epoch: int,
                      sane: Wrapper -> bool, amount: int, g: Gathered, w: Wrapper, left: int)
    requires Orderly(m) && i < |ixs| && Leads(m, ixs[i]) && 0 <= left <= g.left
    requires Progress(m, free, ixs[..i], to, epoch, sane, amount, g)
    requires w.address == ixs[i].validator && ChangedAt(m, free, sane, w)
    requires LeftAfter(m, ixs[i], epoch, g.left, left)
    requires WorthAt(m, w.address) - Worth(w.delegations) == g.left - left
    ensures Progress(m, free, ixs[..i + 1], to, epoch, sane, amount, Grown(g, w, to, left))
  {
    LeftSnoc(m, ixs, i, epoch, amount, g, left);
    NamesMore(ixs, i, g);
    GainSnoc(m, g.updated, w);
    GrownAddsUp(ixs, i, amount, g, w, to, left);
  }

  lemma KeptProgress(m: Wrappers, free: set<Index>, ixs: seq<Index>, i: nat, to: Address, epoch: int,
                     sane: Wrapper -> bool, amount: int, g: Gathered)
    requires Orderly(m) && i < |ixs| && Leads(m, ixs[i])
    requires Progress(m, free, ixs[..i], to, epoch, sane, amount, g)
    requires LeftAfter(m, ixs[i], epoch, g.left, g.left)
    ensures Progress(m, free, ixs[..i + 1], to, epoch, sane, amount, g)
  {
    LeftSnoc(m, ixs, i, epoch, amount, g, g.left);
    NamesMore(ixs, i, g);
    KeptAddsUp(ixs, i, amount, g);
  }

  /** Why redelegation failed: a bad index, or a wrapper that does not pass the sanity check. */
  ghost predicate Explained(m: Wrappers, free: set<Index>, ixs: seq<Index>, sane: Wrapper -> bool, error: Failure) {
    match error
    case None => true
    case Some(AddressNotPresent) => exists i :: 0 <= i < |ixs| && ixs[i].validator !in m
    case Some(IndexOutOfBound) => exists i :: 0 <= i < |ixs| && ixs[i].validator in m && !Leads(m, ixs[i])
    case Some(Insane) => exists w :: !sane(w) && w.address in m && Redeemed(free, m[w.address], w)
    case _ => false
  }

  /** The redelegation loop over all of a delegator's indexes. */
  method RedeemAll(m: Wrappers, ixs: seq<Index>, to: Address, epoch: int, sane: Wrapper -> bool, amount: int)
    returns (error: Failure, g: Gathered)
    requires Addressed(m) && Orderly(m) && amount >= 0
    ensures Explained(m, IndexSet(ixs), ixs, sane, error)
    ensures error == None ==> AllLead(m, ixs, |ixs|) && Progress(m, IndexSet(ixs), ixs, to, epoch, sane, amount, g)
  {
    ghost var free := IndexSet(ixs);
    g := Gathered([], amount, map[], None);
    error := None;
    for i := 0 to |ixs|
      invariant error == None && AllLead(m, ixs, i) && Progress(m, free, ixs[..i], to, epoch, sane, amount, g)
    {
      error, g := RedeemStep(m, free, ixs, i, to, epoch, sane, amount, g);
      if error != None { return; }
    }
    assert ixs[..|ixs|] == ixs;
  }

  // ---------- crediting the delegatee ----------

  /** How many entries belong to `a`. */
  ghost function Matches(ds: seq<Delegation>, a: Address): nat {
    if ds == [] then 0 else
      Matches(ds[..|ds| - 1], a) + if ds[|ds| - 1].delegator == a then 1 else 0
  }

  /** `amount` for each of them. */
  ghost function Due(ds: seq<Delegation>, a: Address, amount: int): int {
    if ds == [] then 0 else
      Due(ds[..|ds| - 1], a, amount) + if ds[|ds| - 1].delegator == a then amount else 0
  }

  lemma {:induction false} DueIsProduct(ds: seq<Delegation>, a: Address, amount: int)
    ensures Due(ds, a, amount) == Matches(ds, a) * amount
    decreases |ds|
  {
    if ds != [] {
      DueIsProduct(ds[..|ds| - 1], a, amount);
      assert (Matches(ds[..|ds| - 1], a) + 1) * amount == Matches(ds[..|ds| - 1], a) * amount + amount;
    }
  }

  ghost predicate SameOwners(ds: seq<Delegation>, es: seq<Delegation>) {
    |ds| == |es| && forall i :: 0 <= i < |ds| ==> ds[i].delegator == es[i].delegator
  }

  lemma {:induction false} MatchesSame(ds: seq<Delegation>, es: seq<Delegation>, a: Address)
    requires SameOwners(ds, es)
    ensures Matches(ds, a) == Matches(es, a)
    decreases |ds|
  {
    if ds != [] { MatchesSame(ds[..|ds| - 1], es[..|es| - 1], a); }
  }

  /** One entry per delegator. */
  ghost predicate OneEach(ds: seq<Delegation>) {
    forall i, j :: 0 <= i < j < |ds| ==> ds[i].delegator != ds[j].delegator
  }

  lemma {:induction false} MatchesOne(ds: seq<Delegation>, a: Address)
    requires OneEach(ds)
    ensures Matches(ds, a) <= 1
    ensures Matches(ds, a) == 0 <==> forall i :: 0 <= i < |ds| ==> ds[i].delegator != a
    decreases |ds|
  {
    if ds != [] {
      MatchesOne(ds[..|ds| - 1], a);
      assert forall i :: 0 <= i < |ds| - 1 ==> ds[..|ds| - 1][i] == ds[i];
    }
  }

  ghost predicate AllEntriesOk(ds: seq<Delegation>) {
    forall i :: 0 <= i < |ds| ==> EntriesOk(ds[i].undelegations)
  }

  /** What a successful delegation adds to the stake: the amount, once for each entry of the delegator, or a new
      entry of that amount. */
  ghost function Gift(ds: seq<Delegation>, a: Address, amount: int): int {
    if Matches(ds, a) == 0 then amount else Due(ds, a, amount)
  }

  /** The gift is the amount itself exactly when the delegator has at most one entry (or nothing is delegated). */
  lemma GiftIsAmount(ds: seq<Delegation>, a: Address, amount: int)
    ensures Gift(ds, a, amount) == amount <==> Matches(ds, a) <= 1 || amount == 0
  {
    DueIsProduct(ds, a, amount);
    if Matches(ds, a) > 1 && amount != 0 {
      var k := Matches(ds, a) - 1;
      assert Due(ds, a, amount) == k * amount + amount;
      assert k * amount != 0;
    }
  }

  function Raised(d: Delegation, a: Address, amount: int): Delegation {
    if d.delegator == a then d.(amount := d.amount + amount) else d
  }

  /** Entries below `i` have been credited: `ds'` is what became of `ds`. */
  ghost predicate Credited(ds: seq<Delegation>, a: Address, amount: int, i: nat, ds': seq<Delegation>) {
    var ok := i <= |ds| && |ds'| == |ds|
      && forall j :: 0 <= j < |ds| ==> ds'[j] == if j < i then Raised(ds[j], a, amount) else ds[j];
    ok
  }

  lemma {:induction false} CreditedWorth(ds: seq<Delegation>, a: Address, amount: int, ds': seq<Delegation>)
    requires Credited(ds, a, amount, |ds|, ds')
    ensures Worth(ds') == Worth(ds) + Due(ds, a, amount)
    decreases |ds|
  {
    if ds != [] {
      var n := |ds| - 1;
      CreditedWorth(ds[..n], a, amount, ds'[..n]);
      WorthSnoc(ds[..n], ds[n]);
      WorthSnoc(ds'[..n], ds'[n]);
      assert ds[..n] + [ds[n]] == ds && ds'[..n] + [ds'[n]] == ds';
    }
  }

  /** What crediting goes through on its way: some entries raised, or one appended. */
  ghost predicate Halfway(ds: seq<Delegation>, a: Address, amount: int, ds': seq<Delegation>) {
    || (exists i :: Credited(ds, a, amount, i, ds'))
    || ds' == ds + [Delegation(a, amount, 0, [])]
  }

  /** The crediting loop: the amount goes to every entry of the delegator. */
  method CreditEach(w: Wrapper, a: Address, amount: int, sane: Wrapper -> bool)
    returns (error: Failure, found: bool, w': Wrapper)
    ensures error == None || (error == Some(Insane) && !sane(w') && Halfway(w.delegations, a, amount, w'.delegations))
    ensures w' == w.(delegations := w'.delegations)
    ensures error == None ==> found ==> sane(w')
    ensures error == None ==> Credited(w.delegations, a, amount, |w.delegations|, w'.delegations)
    ensures error == None ==> found == !(forall j :: 0 <= j < |w.delegations| ==> w.delegations[j].delegator != a)
  {
    found, w', error := false, w, None;
    for i := 0 to |w.delegations|
      invariant error == None && w' == w.(delegations := w'.delegations) && (found ==> sane(w'))
      invariant Credited(w.delegations, a, amount, i, w'.delegations)
      invariant found == !(forall j :: 0 <= j < i ==> w.delegations[j].delegator != a)
    {
      var d := w'.delegations[i];
      if d.delegator == a {
        w' := w'.(delegations := w'.delegations[i := d.(amount := d.amount + amount)]);
        if !sane(w') {
          assert Credited(w.delegations, a, amount, i + 1, w'.delegations);
          return Some(Insane), found, w';
        }
        found := true;
      }
    }
  }

  /** `ds'` is `ds` after `a` delegated: its entries raised, or one appended if it had none. */
  ghost predicate Delegated(ds: seq<Delegation>, a: Address, amount: int, ds': seq<Delegation>) {
    if Matches(ds, a) == 0 then ds' == ds + [Delegation(a, amount, 0, [])]
    else Credited(ds, a, amount, |ds|, ds')
  }

  lemma DelegatedGives(ds: seq<Delegation>, a: Address, amount: int, ds': seq<Delegation>)
    requires Delegated(ds, a, amount, ds')
    ensures Worth(ds') == Worth(ds) + Gift(ds, a, amount)
    ensures AllEntriesOk(ds) ==> AllEntriesOk(ds')
    ensures OneEach(ds) ==> OneEach(ds')
  {
    if Matches(ds, a) == 0 {
      WorthSnoc(ds, Delegation(a, amount, 0, []));
      NoneMatches(ds, a);
    } else {
      CreditedWorth(ds, a, amount, ds');
    }
  }

  /** What a delegation does to the stakes: each entry of the delegator, or else a new one without reward, gains the
      amount; the stakes and rewards of others stay. */
  ghost predicate StakesRaised(ds: seq<Delegation>, ds': seq<Delegation>, a: Address, amount: int) {
    && (forall j :: 0 <= j < |ds| ==> j < |ds'| && StakeRaised(ds[j], ds'[j], a, amount))
    && (if exists j :: 0 <= j < |ds| && ds[j].delegator == a then |ds'| == |ds|
        else |ds'| == |ds| + 1 && ds'[|ds|] == Delegation(a, amount, 0, []))
  }

  ghost predicate StakeRaised(d: Delegation, d': Delegation, a: Address, amount: int) {
    && d'.delegator == d.delegator && d'.reward == d.reward
    && d'.amount == d.amount + if d.delegator == a then amount else 0
  }

  lemma DelegatedStakes(was: seq<Delegation>, ds: seq<Delegation>, a: Address, amount: int, ds': seq<Delegation>)
    requires |was| == |ds| && forall j :: 0 <= j < |was| ==> StakeRaised(was[j], ds[j], a, 0)
    requires Delegated(ds, a, amount, ds')
    ensures StakesRaised(was, ds', a, amount)
  {
    NoneMatches(ds, a);
    forall j | 0 <= j < |was| ensures j < |ds'| && StakeRaised(was[j], ds'[j], a, amount) {
      assert StakeRaised(was[j], ds[j], a, 0);
    }
    if exists j :: 0 <= j < |was| && was[j].delegator == a {
      var j :| 0 <= j < |was| && was[j].delegator == a;
      assert StakeRaised(was[j], ds[j], a, 0);
    } else {
      assert forall j :: 0 <= j < |ds| ==> ds[j].delegator != a by {
        forall j | 0 <= j < |ds| ensures ds[j].delegator != a { assert StakeRaised(was[j], ds[j], a, 0); }
      }
    }
  }

  /** Adds the amount to the delegator's entry, or appends one. */
  method Credit(w: Wrapper, a: Address, amount: int, sane: Wrapper -> bool) returns (error: Failure, w': Wrapper)
    ensures error == None || (error == Some(Insane) && !sane(w') && Halfway(w.delegations, a, amount, w'.delegations))
    ensures w' == w.(delegations := w'.delegations) && (error == None ==> sane(w'))
    ensures error == None ==> Delegated(w.delegations, a, amount, w'.delegations)
  {
    var found;
    error, found, w' := CreditEach(w, a, amount, sane);
    if error != None { return; }
    NoneMatches(w.delegations, a);
    if !found {
      assert w'.delegations == w.delegations;
      w' := w'.(delegations := w'.delegations + [Delegation(a, amount, 0, [])]);
      if !sane(w') { return Some(Insane), w'; }
    }
  }

  lemma {:induction false} NoneMatches(ds: seq<Delegation>, a: Address)
    ensures Matches(ds, a) == 0 <==> forall i :: 0 <= i < |ds| ==> ds[i].delegator != a
    decreases |ds|
  {
    if ds != [] {
      NoneMatches(ds[..|ds| - 1], a);
      assert forall i :: 0 <= i < |ds| - 1 ==> ds[..|ds| - 1][i] == ds[i];
    }
  }

  // ---------- the whole delegation ----------

  /** The result of verifying a delegation: the wrappers to store and the amount to deduct. */
  datatype Plan = Plan(wrappers: seq<Wrapper>, deduct: int, locked: map<Address, int>)

  const One: int := 1_000_000_000_000_000_000
  const MinimumDelegation: int := 1000 * One
  const MinimumDelegationV2: int := 100 * One

  function TooSmall(amount: int, min100: bool): bool {
    amount < MinimumDelegation && (!min100 || amount < MinimumDelegationV2)
  }

  lemma RedeemedOwners(free: set<Index>, w: Wrapper, w': Wrapper, a: Address, amount: int)
    requires Redeemed(free, w, w')
    ensures Matches(w'.delegations, a) == Matches(w.delegations, a)
    ensures Gift(w'.delegations, a, amount) == Gift(w.delegations, a, amount)
    ensures AllEntriesOk(w.delegations) ==> AllEntriesOk(w'.delegations)
    ensures OneEach(w.delegations) ==> OneEach(w'.delegations)
  {
    forall i | 0 <= i < |w.delegations|
      ensures w'.delegations[i].delegator == w.delegations[i].delegator
      ensures EntriesOk(w.delegations[i].undelegations) ==> EntriesOk(w'.delegations[i].undelegations)
    {
      assert RedeemedEntry(free, w, w', i);
    }
    assert SameOwners(w.delegations, w'.delegations);
    MatchesSame(w.delegations, w'.delegations, a);
    DueIsProduct(w.delegations, a, amount);
    DueIsProduct(w'.delegations, a, amount);
  }

  /** `w` is the wrapper of `m` with entries used up and, at `to`, the delegation of `a` added. */
  ghost predicate UpdatedAt(m: Wrappers, free: set<Index>, to: Address, a: Address, amount: int, w: Wrapper) {
    && w.address in m
    && (|| Redeemed(free, m[w.address], w)
        || (w.address == to && Topped(free, m[to], a, amount, w)))
  }

  ghost predicate Topped(free: set<Index>, was: Wrapper, a: Address, amount: int, w: Wrapper) {
    exists ds :: Redeemed(free, was, w.(delegations := ds)) && Delegated(ds, a, amount, w.delegations)
  }

  /** Using up entries leaves stakes and rewards alone. */
  lemma RedeemedStakes(free: set<Index>, w: Wrapper, w': Wrapper, a: Address)
    requires Redeemed(free, w, w')
    ensures |w'.delegations| == |w.delegations|
    ensures forall j :: 0 <= j < |w.delegations| ==> StakeRaised(w.delegations[j], w'.delegations[j], a, 0)
  {
    forall j | 0 <= j < |w.delegations| ensures StakeRaised(w.delegations[j], w'.delegations[j], a, 0) {
      assert RedeemedEntry(free, w, w', j);
    }
  }

  lemma ToppedStakes(free: set<Index>, was: Wrapper, a: Address, amount: int, w: Wrapper)
    requires Topped(free, was, a, amount, w)
    ensures StakesRaised(was.delegations, w.delegations, a, amount)
  {
    var ds :| Redeemed(free, was, w.(delegations := ds)) && Delegated(ds, a, amount, w.delegations);
    RedeemedStakes(free, was, w.(delegations := ds), a);
    DelegatedStakes(was.delegations, ds, a, amount, w.delegations);
  }

  /** Storing wrappers with different addresses leaves each of them at its own. */
  lemma {:induction false} StoredAt(m: Wrappers, ws: seq<Wrapper>, i: nat)
    requires Distinct(ws) && i < |ws|
    ensures ws[i].address in Stored(m, ws) && Stored(m, ws)[ws[i].address] == ws[i]
    decreases |ws|
  {
    var n := |ws| - 1;
    if i < n { StoredAt(m, ws[..n], i); }
  }

  /** An address none of the wrappers has keeps what it had. */
  lemma {:induction false} StoredAway(m: Wrappers, ws: seq<Wrapper>, a: Address)
    requires forall i :: 0 <= i < |ws| ==> ws[i].address != a
    ensures (a in Stored(m, ws) <==> a in m) && (a in m ==> Stored(m, ws)[a] == m[a])
    decreases |ws|
  {
    if ws != [] { StoredAway(m, ws[..|ws| - 1], a); }
  }

  lemma UpdatedKeeps(m: Wrappers, free: set<Index>, to: Address, a: Address, amount: int, w: Wrapper)
    requires Addressed(m) && UpdatedAt(m, free, to, a, amount, w)
    ensures AllEntriesOk(m[w.address].delegations) ==> AllEntriesOk(w.delegations)
    ensures OneEach(m[w.address].delegations) ==> OneEach(w.delegations)
  {
    var was := m[w.address];
    if Redeemed(free, was, w) {
      RedeemedOwners(free, was, w, a, amount);
    } else {
      var ds :| Redeemed(free, was, w.(delegations := ds)) && Delegated(ds, a, amount, w.delegations);
      RedeemedOwners(free, was, w.(delegations := ds), a, amount);
      DelegatedGives(ds, a, amount, w.delegations);
    }
  }

  /** Every wrapper to store is sane and updated as the message asks; one of them is the delegatee's. */
  ghost predicate AllUpdated(m: Wrappers, free: set<Index>, sane: Wrapper -> bool, to: Address, a: Address,
                             amount: int, ws: seq<Wrapper>) {
    && (forall i :: 0 <= i < |ws| ==> UpdatedAt(m, free, to, a, amount, ws[i]) && sane(ws[i]))
    && to in m
    && (exists i :: 0 <= i < |ws| && ws[i].address == to && Topped(free, m[to], a, amount, ws[i]))
  }

  /** The amounts of a plan: the gift is paid for by the balance and by the entries used up. */
  ghost predicate Paid(m: Wrappers, ixs: seq<Index>, to: Address, a: Address, epoch: int, amount: int, plan: Plan) {
    && to in m
    && Gain(m, plan.wrappers) == plan.deduct - amount + Gift(m[to].delegations, a, amount)
    && plan.deduct == (var free := TotalFree(m, ixs, epoch); if free >= amount then 0 else amount - free)
    && (DistinctIndexes(ixs) ==> Distinct(plan.wrappers) && Sum(plan.locked) + plan.deduct == amount)
  }

  lemma RedeemedSame(free: set<Index>, w: Wrapper)
    ensures Redeemed(free, w, w)
  {
  }

  /** The delegatee's wrapper joins the changed ones, if it is not among them. */
  method Join(m: Wrappers, ghost free: set<Index>, ghost ixs: seq<Index>, to: Address, ghost epoch: int,
              ghost sane: Wrapper -> bool, ghost amount: int, g: Gathered) returns (ws: seq<Wrapper>, k: nat)
    requires Addressed(m) && to in m && Progress(m, free, ixs, to, epoch, sane, amount, g)
    ensures k < |ws| && ws[k].address == to
    ensures forall i :: 0 <= i < |ws| ==>
      ws[i].address in m && Redeemed(free, m[ws[i].address], ws[i]) && (i != k ==> sane(ws[i]))
    ensures Gain(m, ws) == g.left - amount
    ensures Distinct(g.updated) ==> Distinct(ws)
  {
    assert forall i :: 0 <= i < |g.updated| ==> ChangedAt(m, free, sane, g.updated[i]);
    match g.mine
    case Some(i) => ws, k := g.updated, i;
    case None =>
      RedeemedSame(free, m[to]);
      GainSnoc(m, g.updated, m[to]);
      ws, k := g.updated + [m[to]], |g.updated|;
  }

  /** Crediting the delegatee turns what was gathered into a plan. */
  lemma PlannedPaid(m: Wrappers, free: set<Index>, ixs: seq<Index>, to: Address, a: Address, epoch: int,
                    sane: Wrapper -> bool, amount: int, g: Gathered, ws: seq<Wrapper>, k: nat, w: Wrapper)
    requires to in m && Progress(m, free, ixs, to, epoch, sane, amount, g)
    requires k < |ws| && ws[k].address == to && Gain(m, ws) == g.left - amount && Redeemed(free, m[to], ws[k])
    requires Distinct(g.updated) ==> Distinct(ws)
    requires w == ws[k].(delegations := w.delegations) && Delegated(ws[k].delegations, a, amount, w.delegations)
    ensures Paid(m, ixs, to, a, epoch, amount, Plan(ws[k := w], g.left, g.locked))
  {
    GainUpdate(m, ws, k, w);
    DelegatedGives(ws[k].delegations, a, amount, w.delegations);
    RedeemedOwners(free, m[to], ws[k], a, amount);
  }

  lemma PlannedUpdated(m: Wrappers, free: set<Index>, to: Address, a: Address, sane: Wrapper -> bool, amount: int,
                       ws: seq<Wrapper>, k: nat, w: Wrapper)
    requires Addressed(m) && to in m && k < |ws| && ws[k].address == to
    requires forall i :: 0 <= i < |ws| ==>
      ws[i].address in m && Redeemed(free, m[ws[i].address], ws[i]) && (i != k ==> sane(ws[i]))
    requires sane(w) && w == ws[k].(delegations := w.delegations)
    requires Delegated(ws[k].delegations, a, amount, w.delegations)
    ensures AllUpdated(m, free, sane, to, a, amount, ws[k := w])
  {
    var ws' := ws[k := w];
    assert w.(delegations := ws[k].delegations) == ws[k];
    assert Topped(free, m[to], a, amount, w);
    assert ws'[k] == w;
    forall i | 0 <= i < |ws'| ensures UpdatedAt(m, free, to, a, amount, ws'[i]) && sane(ws'[i]) {
      if i != k { assert ws'[i] == ws[i]; }
    }
  }

  /** Before redelegation no entries are used. */
  function Used(redelegation: bool, ixs: seq<Index>): (r: seq<Index>)
    ensures |r| == if redelegation then |ixs| else 0
    ensures forall ix :: ix in r ==> redelegation && ix in ixs
  {
    if redelegation then ixs else []
  }

  /** A wrapper that the delegation goes through: entries used up and, at `to`, perhaps some of the credit. */
  ghost predicate Attempted(m: Wrappers, free: set<Index>, to: Address, a: Address, amount: int, w: Wrapper) {
    && w.address in m
    && (|| Redeemed(free, m[w.address], w)
        || (w.address == to &&
            exists ds :: Redeemed(free, m[to], w.(delegations := ds)) && Halfway(ds, a, amount, w.delegations)))
  }

  /** One of them does not pass the sanity check. */
  ghost predicate Rejected(m: Wrappers, free: set<Index>, sane: Wrapper -> bool, to: Address, a: Address, amount: int) {
    exists w :: !sane(w) && Attempted(m, free, to, a, amount, w)
  }

  /** Why a delegation is refused. */
  ghost predicate DelegateRefused(m: Wrappers, flags: set<Address>, balance: int, ixs: seq<Index>, to: Address,
                                  a: Address, epoch: int, sane: Wrapper -> bool, amount: int, min100: bool, e: Error) {
    match e
    case ValidatorNotExist => to !in flags
    case NegativeAmount => amount < 0
    case DelegationTooSmall => TooSmall(amount, min100)
    case AddressNotPresent => to !in m || exists i :: 0 <= i < |ixs| && ixs[i].validator !in m
    case IndexOutOfBound => exists i :: 0 <= i < |ixs| && ixs[i].validator in m && !Leads(m, ixs[i])
    case Insane => Rejected(m, IndexSet(ixs), sane, to, a, amount)
    case InsufficientBalance => balance + TotalFree(m, ixs, epoch) < amount
    case _ => false
  }

  /** VerifyAndDelegateFromMsg. */
  method VerifyDelegate(m: Wrappers, flags: set<Address>, balance: int, a: Address, to: Address, amount: int,
                        ixs: seq<Index>, epoch: int, redelegation: bool, min100: bool, sane: Wrapper -> bool)
    returns (error: Failure, plan: Plan)
    requires Addressed(m) && Orderly(m) && balance >= 0
    ensures error != None ==>
      DelegateRefused(m, flags, balance, Used(redelegation, ixs), to, a, epoch, sane, amount, min100, error.value)
    ensures error == None ==> to in flags && !TooSmall(amount, min100) && amount >= (if min100 then 100 else 1000) * One
    ensures error == None ==> Paid(m, Used(redelegation, ixs), to, a, epoch, amount, plan)
    ensures error == None ==> AllUpdated(m, IndexSet(Used(redelegation, ixs)), sane, to, a, amount, plan.wrappers)
    ensures error == None ==> 0 <= plan.deduct <= balance
  {
    plan := Plan([], 0, map[]);
    if to !in flags { return Some(ValidatorNotExist), plan; }
    if amount < 0 { return Some(NegativeAmount), plan; }
    if TooSmall(amount, min100) { return Some(DelegationTooSmall), plan; }
    var g;
    error, g := RedeemAll(m, Used(redelegation, ixs), to, epoch, sane, amount);
    if error != None { return; }
    if to !in m { return Some(AddressNotPresent), plan; }
    error, plan := Finish(m, IndexSet(Used(redelegation, ixs)), Used(redelegation, ixs), a, to, epoch, sane, amount, g);
    if error == None && plan.deduct != 0 && balance < plan.deduct { error := Some(InsufficientBalance); }
  }

  /** The second half: join, credit, and report the amounts. */
  method Finish(m: Wrappers, ghost free: set<Index>, ghost ixs: seq<Index>, a: Address, to: Address, ghost epoch: int,
                sane: Wrapper -> bool, amount: int, g: Gathered) returns (error: Failure, plan: Plan)
    requires Addressed(m) && to in m && Progress(m, free, ixs, to, epoch, sane, amount, g)
    ensures error == None || (error == Some(Insane) && Rejected(m, free, sane, to, a, amount))
    ensures error == None ==> Paid(m, ixs, to, a, epoch, amount, plan) && plan.deduct >= 0
    ensures error == None ==> AllUpdated(m, free, sane, to, a, amount, plan.wrappers)
  {
    var ws, k := Join(m, free, ixs, to, epoch, sane, amount, g);
    var w;
    error, w := Credit(ws[k], a, amount, sane);
    plan := Plan(ws[k := w], g.left, g.locked);
    if error != None {
      assert w.(delegations := ws[k].delegations) == ws[k];
      assert Attempted(m, free, to, a, amount, w);
    } else {
      PlannedPaid(m, free, ixs, to, a, epoch, sane, amount, g, ws, k, w);
      PlannedUpdated(m, free, to, a, sane, amount, ws, k, w);
    }
  }
}