/** The contents of the transaction pool as values, and what every step of the pool keeps about them. */
module PoolState {
  import opened Transactions
  import opened AccountList
  import opened Fairness

  type Lists = map<Address, ListState>

  /** Account `a` has some transaction with nonce `n` in `m`. */
  predicate Taken(m: Lists, a: Address, n: nat) { a in m && n in m[a].items }

  /** `m` stores `tx` under its own sender and nonce. */
  predicate Holds(m: Lists, tx: Tx) { Taken(m, tx.sender, tx.nonce) && m[tx.sender].items[tx.nonce] == tx }

  /** `l` is a sound list of transactions sent by `a`. */
  ghost predicate ListFor(a: Address, l: ListState, strict: bool) {
    Capsound(l) && l.strict == strict && forall n :: n in l.items ==> l.items[n].sender == a
  }

  ghost predicate KeptAt(m: Lists, a: Address, strict: bool) { a in m ==> ListFor(a, m[a], strict) }

  ghost predicate Kept(m: Lists, strict: bool) {
    forall a :: KeptAt(m, a, strict)
  }

  /** No account has the same nonce in both maps. */
  ghost predicate Apart(p: Lists, q: Lists) {
    forall a, n :: Taken(p, a, n) ==> !Taken(q, a, n)
  }

  /** `loose` transactions are in no list; their slots are free, and no two want the same slot. */
  ghost predicate Loose(p: Lists, q: Lists, loose: set<Tx>) {
    && (forall tx :: tx in loose ==> !Taken(p, tx.sender, tx.nonce) && !Taken(q, tx.sender, tx.nonce) && tx.cost.Some?)
    && (forall t, u :: t in loose && u in loose && t.sender == u.sender && t.nonce == u.nonce ==> t == u)
  }

  /** The known transactions are exactly those in `p`, in `q`, and the loose ones. */
  ghost predicate Exactly(p: Lists, q: Lists, all: set<Tx>, loose: set<Tx>) {
    forall tx :: tx in all <==> Holds(p, tx) || Holds(q, tx) || tx in loose
  }

  ghost predicate Joint(p: Lists, q: Lists, all: set<Tx>, loose: set<Tx>) {
    Apart(p, q) && Loose(p, q, loose) && Exactly(p, q, all, loose)
  }

  ghost predicate Consistent(p: Lists, q: Lists, all: set<Tx>, loose: set<Tx>) {
    var ok :=
      Kept(p, true) && Kept(q, false) && Joint(p, q, all, loose);
    ok
  }

  ghost predicate FullAt(p: Lists, a: Address) { a in p ==> p[a].items.Keys != {} }

  ghost predicate NoEmpty(p: Lists) {
    forall a :: FullAt(p, a)
  }

  /** Everything a consistent pool holds is held once: a known transaction lies in exactly one of the
      two maps, and no other transaction of its sender has its nonce. */
  lemma StoredOnce(p: Lists, q: Lists, all: set<Tx>, t: Tx, u: Tx)
    requires Consistent(p, q, all, {}) && t in all && u in all
    ensures Holds(p, t) != Holds(q, t)
    ensures t.sender == u.sender && t.nonce == u.nonce ==> t == u
  {
    assert Taken(p, t.sender, t.nonce) ==> !Taken(q, t.sender, t.nonce);
    assert Taken(p, u.sender, u.nonce) ==> !Taken(q, u.sender, u.nonce);
  }

  lemma JointSym(p: Lists, q: Lists, all: set<Tx>, loose: set<Tx>)
    requires Joint(p, q, all, loose)
    ensures Joint(q, p, all, loose)
  {
    forall a, n | Taken(q, a, n) ensures !Taken(p, a, n) {}
  }

  /** Transactions of `a` that leave with the change of its list from `l` to `l'`. */
  ghost predicate Leave(l: ListState, l': ListState, gone: set<Tx>) {
    && (forall n :: n in l'.items ==> n in l.items && l'.items[n] == l.items[n])
    && (forall tx :: tx in gone <==> tx.nonce in l.items && l.items[tx.nonce] == tx && tx.nonce !in l'.items)
  }

  /** Taking transactions out of a list makes them loose. */
  lemma Detach(p: Lists, q: Lists, all: set<Tx>, loose: set<Tx>, a: Address, l': ListState, gone: set<Tx>, strict: bool)
    requires Joint(p, q, all, loose) && Kept(p, strict) && a in p && Leave(p[a], l', gone)
    ensures Joint(p[a := l'], q, all, loose + gone)
  {
    var p' := p[a := l'];
    assert KeptAt(p, a, strict);
    forall b, n | Taken(p', b, n) ensures Taken(p, b, n) {}
    forall tx | tx in gone ensures tx.sender == a && Holds(p, tx) && !Taken(p', a, tx.nonce) && tx.cost.Some? {}
    forall t, u | t in loose + gone && u in loose + gone && t.sender == u.sender && t.nonce == u.nonce ensures t == u {
      if t in gone { assert Taken(p, t.sender, t.nonce); }
      if u in gone { assert Taken(p, u.sender, u.nonce); }
    }
    forall tx ensures tx in all <==> Holds(p', tx) || Holds(q, tx) || tx in loose + gone {
      if Holds(p, tx) && tx.sender == a { assert tx in gone || Holds(p', tx); }
    }
  }

  /** Putting a loose transaction into a list with its slot free. */
  lemma Attach(p: Lists, q: Lists, all: set<Tx>, loose: set<Tx>, tx: Tx, l: ListState)
    requires Joint(p, q, all, loose) && tx in loose
    requires l == (if tx.sender in p then p[tx.sender] else Fresh(l.strict))
    ensures Joint(p[tx.sender := Added(l, tx)], q, all, loose - {tx})
  {
    var p', a := p[tx.sender := Added(l, tx)], tx.sender;
    forall b, n | Taken(p', b, n) ensures Taken(p, b, n) || (b == a && n == tx.nonce) {}
    forall t | t in loose - {tx} ensures !Taken(p', t.sender, t.nonce) {
      assert t.sender != a || t.nonce != tx.nonce;
    }
    forall t ensures t in all <==> Holds(p', t) || Holds(q, t) || t in loose - {tx} {
      if Holds(p, t) { assert t.nonce != tx.nonce || t.sender != a; assert Holds(p', t); }
      if Holds(p', t) && t != tx { assert Holds(p, t); }
    }
  }

  /** Dropping loose transactions from the known ones. */
  lemma Discarded(p: Lists, q: Lists, all: set<Tx>, loose: set<Tx>, gone: set<Tx>)
    requires Joint(p, q, all, loose) && gone <= loose
    ensures Joint(p, q, all - gone, loose - gone) && gone <= all
  {
    forall tx | tx in gone ensures !Holds(p, tx) && !Holds(q, tx) && tx in all {}
  }

  /** Deleting an empty list changes nothing else. */
  lemma Prune(p: Lists, q: Lists, all: set<Tx>, loose: set<Tx>, a: Address)
    requires Joint(p, q, all, loose) && a in p && p[a].items.Keys == {}
    ensures Joint(p - {a}, q, all, loose)
  {
    forall b, n ensures Taken(p - {a}, b, n) == Taken(p, b, n) {}
    forall tx ensures Holds(p - {a}, tx) == Holds(p, tx) {}
  }

  /** A list whose items are some of those of a sound list with as high caps is sound. */
  lemma Sublist(a: Address, l: ListState, l': ListState, strict: bool)
    requires ListFor(a, l, strict) && l'.strict == strict && l'.costcap == l.costcap && l'.gascap == l.gascap
    requires forall n :: n in l'.items ==> n in l.items && l'.items[n] == l.items[n]
    ensures ListFor(a, l', strict)
  {
  }

  lemma AddedSound(a: Address, l: ListState, tx: Tx, strict: bool)
    requires ListFor(a, l, strict) && tx.sender == a && tx.cost.Some?
    ensures ListFor(a, Added(l, tx), strict)
  {
  }

  lemma KeptUpdate(m: Lists, a: Address, l: ListState, strict: bool)
    requires Kept(m, strict) && ListFor(a, l, strict)
    ensures Kept(m[a := l], strict)
  {
    var m' := m[a := l];
    forall b ensures KeptAt(m', b, strict) { assert KeptAt(m, b, strict); }
  }

  lemma KeptWithout(m: Lists, a: Address, strict: bool)
    requires Kept(m, strict)
    ensures Kept(m - {a}, strict)
  {
    var m' := m - {a};
    forall b ensures KeptAt(m', b, strict) { assert KeptAt(m, b, strict); }
  }

  /** A new transaction whose pending slot is free enters the queue, perhaps replacing an older one. */
  lemma AttachNew(p: Lists, q: Lists, all: set<Tx>, tx: Tx, l: ListState, all': set<Tx>)
    requires Joint(q, p, all, {}) && tx !in all && tx.cost.Some? && !Taken(p, tx.sender, tx.nonce)
    requires l == (if tx.sender in q then q[tx.sender] else Fresh(l.strict))
    requires all' == (if tx.nonce in l.items then all - {l.items[tx.nonce]} else all) + {tx}
    requires forall n :: n in l.items ==> l.items[n].nonce == n && l.items[n].sender == tx.sender
    ensures Joint(q[tx.sender := Added(l, tx)], p, all', {})
  {
    var q', a := q[tx.sender := Added(l, tx)], tx.sender;
    forall b, n | Taken(q', b, n) ensures !Taken(p, b, n) {
      if !(b == a && n == tx.nonce) { assert Taken(q, b, n); }
    }
    forall t ensures t in all' <==> Holds(q', t) || Holds(p, t) {
      if t.sender == a && t.nonce == tx.nonce {
        assert !Holds(p, t);
        assert Holds(q', t) <==> t == tx;
        assert Holds(q, t) <==> a in q && tx.nonce in l.items && t == l.items[tx.nonce];
      } else {
        assert Holds(q', t) == Holds(q, t);
      }
    }
  }

  function ListOf(m: Lists, a: Address, strict: bool): ListState {
    if a in m then m[a] else Fresh(strict)
  }

  lemma ListOfSound(m: Lists, a: Address, strict: bool)
    requires Kept(m, strict)
    ensures ListFor(a, ListOf(m, a, strict), strict)
  {
    assert KeptAt(m, a, strict);
  }

  /** A loose transaction is always accepted into the queue, and collides with nothing there. */
  lemma Requeue(p: Lists, q: Lists, all: set<Tx>, loose: set<Tx>, tx: Tx, bump: nat)
    requires Consistent(p, q, all, loose) && tx in loose
    ensures !Taken(q, tx.sender, tx.nonce) && tx in all && Accepts(ListOf(q, tx.sender, false), tx, bump)
    ensures Consistent(p, q[tx.sender := Added(ListOf(q, tx.sender, false), tx)], all, loose - {tx})
  {
    var l := ListOf(q, tx.sender, false);
    ListOfSound(q, tx.sender, false);
    JointSym(p, q, all, loose);
    Attach(q, p, all, loose, tx, l);
    JointSym(q[tx.sender := Added(l, tx)], p, all, loose - {tx});
    AddedSound(tx.sender, l, tx, false);
    KeptUpdate(q, tx.sender, Added(l, tx), false);
  }

  /** A loose transaction is always accepted into the pending lists, and collides with nothing there. */
  lemma Promotion(p: Lists, q: Lists, all: set<Tx>, loose: set<Tx>, tx: Tx, bump: nat)
    requires Consistent(p, q, all, loose) && tx in loose
    ensures !Taken(p, tx.sender, tx.nonce) && tx in all && Accepts(ListOf(p, tx.sender, true), tx, bump)
    ensures Consistent(p[tx.sender := Added(ListOf(p, tx.sender, true), tx)], q, all, loose - {tx})
  {
    var l := ListOf(p, tx.sender, true);
    ListOfSound(p, tx.sender, true);
    Attach(p, q, all, loose, tx, l);
    AddedSound(tx.sender, l, tx, true);
    KeptUpdate(p, tx.sender, Added(l, tx), true);
  }

  /** Replacing the pending list of `a` by a part of it. */
  lemma DetachPending(p: Lists, q: Lists, all: set<Tx>, loose: set<Tx>, a: Address, l': ListState, gone: set<Tx>)
    requires Consistent(p, q, all, loose) && a in p && Leave(p[a], l', gone) && ListFor(a, l', true)
    ensures Consistent(p[a := l'], q, all, loose + gone)
    ensures l'.items.Keys == {} ==> Consistent(p - {a}, q, all, loose + gone)
  {
    Detach(p, q, all, loose, a, l', gone, true);
    KeptUpdate(p, a, l', true);
    if l'.items.Keys == {} {
      KeptWithout(p, a, true);
      Prune(p[a := l'], q, all, loose + gone, a);
      assert p[a := l'] - {a} == p - {a};
    }
  }

  lemma DetachQueued(p: Lists, q: Lists, all: set<Tx>, loose: set<Tx>, a: Address, l': ListState, gone: set<Tx>)
    requires Consistent(p, q, all, loose) && a in q && Leave(q[a], l', gone) && ListFor(a, l', false)
    ensures Consistent(p, q[a := l'], all, loose + gone)
    ensures l'.items.Keys == {} ==> Consistent(p, q - {a}, all, loose + gone)
  {
    JointSym(p, q, all, loose);
    Detach(q, p, all, loose, a, l', gone, false);
    JointSym(q[a := l'], p, all, loose + gone);
    KeptUpdate(q, a, l', false);
    if l'.items.Keys == {} {
      KeptWithout(q, a, false);
      Prune(q[a := l'], p, all, loose + gone, a);
      assert q[a := l'] - {a} == q - {a};
      JointSym(q - {a}, p, all, loose + gone);
    }
  }

  lemma DiscardLoose(p: Lists, q: Lists, all: set<Tx>, loose: set<Tx>, gone: set<Tx>)
    requires Consistent(p, q, all, loose) && gone <= loose
    ensures Consistent(p, q, all - gone, loose - gone) && gone <= all
  {
    Discarded(p, q, all, loose, gone);
  }

  /** Stores a list, or deletes the entry when the list has become empty. */
  function PutList(m: Lists, a: Address, l: ListState): Lists {
    if l.items.Keys == {} then m - {a} else m[a := l]
  }

  lemma LeaveParts(l: ListState, l': ListState, m: NonceMap)
    requires Keyed(l.items)
    requires forall n :: n in l'.items ==> n in l.items && l'.items[n] == l.items[n]
    requires forall n :: n in m <==> n in l.items && n !in l'.items
    requires forall n :: n in m ==> m[n] == l.items[n]
    ensures Leave(l, l', Txs(m))
  {
    forall tx ensures tx in Txs(m) <==> tx.nonce in l.items && l.items[tx.nonce] == tx && tx.nonce !in l'.items {
      if tx.nonce in m && m[tx.nonce] == tx { assert tx in Txs(m); }
    }
  }

  lemma CutList(a: Address, l: ListState, n: nat)
    requires ListFor(a, l, true) && n in l.items
    ensures ListFor(a, WithoutNonce(l, n), true) && Leave(l, WithoutNonce(l, n), Txs(AtLeast(l.items, n)))
    ensures Keyed(Above(l, n)) && Txs(Above(l, n)) == Txs(AtLeast(l.items, n)) - {l.items[n]}
    ensures l.items[n] in Txs(AtLeast(l.items, n))
  {
    var from: NonceMap := AtLeast(l.items, n);
    LeaveParts(l, WithoutNonce(l, n), from);
    Sublist(a, l, WithoutNonce(l, n), true);
    assert from - {n} == Above(l, n) && from[n] == l.items[n];
    WithoutOne(from, n);
  }

  /** removeTx on a pending transaction: it goes, and what lay above it becomes loose. */
  lemma Unpend(p: Lists, q: Lists, all: set<Tx>, tx: Tx, l: ListState)
    requires Consistent(p, q, all, {}) && Holds(p, tx) && l == p[tx.sender]
    ensures Keyed(Above(l, tx.nonce))
    ensures Consistent(PutList(p, tx.sender, WithoutNonce(l, tx.nonce)), q, all - {tx}, Txs(Above(l, tx.nonce)))
  {
    var a, n, l' := tx.sender, tx.nonce, WithoutNonce(l, tx.nonce);
    assert KeptAt(p, a, true);
    CutList(a, l, n);
    var gone := Txs(AtLeast(l.items, n));
    DetachPending(p, q, all, {}, a, l', gone);
    assert {} + gone == gone;
    DiscardLoose(PutList(p, a, l'), q, all, gone, {tx});
  }

  lemma PutListNoEmpty(p: Lists, a: Address, l: ListState)
    requires NoEmpty(p)
    ensures NoEmpty(PutList(p, a, l))
  {
    forall b ensures FullAt(PutList(p, a, l), b) { assert FullAt(p, b); }
  }

  lemma AddNoEmpty(p: Lists, a: Address, l: ListState)
    requires NoEmpty(p) && l.items.Keys != {}
    ensures NoEmpty(p[a := l])
  {
    var p' := p[a := l];
    forall b ensures FullAt(p', b) { assert FullAt(p, b); }
  }

  /** A known transaction is pending exactly when its pending slot is taken, else it is queued: removal by
      nonce removes the transaction itself. */
  lemma WhereIs(p: Lists, q: Lists, all: set<Tx>, tx: Tx)
    requires Consistent(p, q, all, {}) && tx in all
    ensures if Taken(p, tx.sender, tx.nonce) then Holds(p, tx) && p[tx.sender].strict else Holds(q, tx)
  {
    assert KeptAt(p, tx.sender, true);
  }

  lemma Unqueue(p: Lists, q: Lists, all: set<Tx>, tx: Tx)
    requires Consistent(p, q, all, {}) && Holds(q, tx)
    ensures Consistent(p, PutList(q, tx.sender, WithoutNonce(q[tx.sender], tx.nonce)), all - {tx}, {})
  {
    var a, n, l := tx.sender, tx.nonce, q[tx.sender];
    var l' := WithoutNonce(l, n);
    assert KeptAt(q, a, false);
    Sublist(a, l, l', false);
    assert Leave(l, l', {tx});
    DetachQueued(p, q, all, {}, a, l', {tx});
    assert {} + {tx} == {tx} && {tx} - {tx} == {};
    DiscardLoose(p, PutList(q, a, l'), all, {tx}, {tx});
  }

  lemma WithoutOne(m: NonceMap, n: nat)
    requires Keyed(m) && n in m
    ensures Txs(m - {n}) == Txs(m) - {m[n]}
  {
    forall tx ensures tx in Txs(m - {n}) <==> tx in Txs(m) - {m[n]} {
      if tx in Txs(m) - {m[n]} { assert tx.nonce in m - {n}; }
    }
  }

  // ---------- nonces ----------

  function ItemsOf(p: Lists, a: Address): NonceMap { if a in p then p[a].items else map[] }

  function NextNonce(virtual: map<Address, nat>, nonce: Address -> nat, a: Address): nat {
    if a in virtual then virtual[a] else nonce(a)
  }

  ghost predicate StepOf(p: Lists, virtual: map<Address, nat>, nonce: Address -> nat, a: Address) {
    && nonce(a) <= NextNonce(virtual, nonce, a)
    && Interval(ItemsOf(p, a), nonce(a), NextNonce(virtual, nonce, a))
  }

  /** Every account's pending nonces are exactly those from its state nonce up to its virtual nonce. */
  ghost predicate InStep(p: Lists, virtual: map<Address, nat>, nonce: Address -> nat) {
    forall a :: StepOf(p, virtual, nonce, a)
  }

  lemma StepElsewhere(p: Lists, v: map<Address, nat>, p': Lists, v': map<Address, nat>, nonce: Address -> nat,
                      a: Address)
    requires InStep(p, v, nonce) && StepOf(p', v', nonce, a)
    requires forall b :: b != a ==> ItemsOf(p', b) == ItemsOf(p, b)
    requires forall b :: b != a ==> NextNonce(v', nonce, b) == NextNonce(v, nonce, b)
    ensures InStep(p', v', nonce)
  {
    forall b ensures StepOf(p', v', nonce, b) {
      if b != a { assert StepOf(p, v, nonce, b); }
    }
  }

  /** The virtual nonces after lowering that of `a` to `n` if it lies above. */
  function Lowered(v: map<Address, nat>, nonce: Address -> nat, a: Address, n: nat): map<Address, nat> {
    if NextNonce(v, nonce, a) > n then v[a := n] else v
  }

  ghost predicate LowersAt(v: map<Address, nat>, v': map<Address, nat>, nonce: Address -> nat, a: Address) {
    NextNonce(v', nonce, a) <= NextNonce(v, nonce, a)
  }

  /** No virtual nonce has risen. */
  ghost predicate Lowers(v: map<Address, nat>, v': map<Address, nat>, nonce: Address -> nat) {
    forall a :: LowersAt(v, v', nonce, a)
  }

  lemma LoweredLowers(v: map<Address, nat>, v': map<Address, nat>, nonce: Address -> nat, a: Address, n: nat)
    requires Lowers(v, v', nonce)
    ensures Lowers(v, Lowered(v', nonce, a, n), nonce)
  {
    var w := Lowered(v', nonce, a, n);
    forall b ensures LowersAt(v, w, nonce, b) { assert LowersAt(v, v', nonce, b); }
  }

  lemma UnpendInStep(p: Lists, v: map<Address, nat>, nonce: Address -> nat, a: Address, n: nat)
    requires InStep(p, v, nonce) && Taken(p, a, n) && p[a].strict
    ensures InStep(PutList(p, a, WithoutNonce(p[a], n)), Lowered(v, nonce, a, n), nonce)
  {
    assert StepOf(p, v, nonce, a);
    var p', v' := PutList(p, a, WithoutNonce(p[a], n)), Lowered(v, nonce, a, n);
    RemoveLeavesPrefix(p[a], n, nonce(a), NextNonce(v, nonce, a));
    assert StepOf(p', v', nonce, a) by {
      assert ItemsOf(p', a) == WithoutNonce(p[a], n).items;
    }
    StepElsewhere(p, v, p', v', nonce, a);
  }

  // ---------- what a list gives up ----------

  /** `gone` is what `l` gives up on becoming `l'`, and `l'` is again a sound list of `a`. */
  ghost predicate Sheds(a: Address, l: ListState, l': ListState, gone: NonceMap, strict: bool) {
    Keyed(gone) && ListFor(a, l', strict) && Leave(l, l', Txs(gone))
  }

  lemma ForwardSheds(a: Address, l: ListState, t: nat, strict: bool)
    requires ListFor(a, l, strict)
    ensures Sheds(a, l, l.(items := AtLeast(l.items, t)), Below(l.items, t), strict)
  {
    LeaveParts(l, l.(items := AtLeast(l.items, t)), Below(l.items, t));
  }

  lemma FilterSheds(a: Address, l: ListState, lim: Limits, bn: nat)
    requires ListFor(a, l, false)
    ensures Sheds(a, l, AfterFilter(l, lim, bn), Removed(l, lim, bn), false)
  {
    FilterKeepsCaps(l, lim, bn);
    LeaveParts(l, AfterFilter(l, lim, bn), Removed(l, lim, bn));
  }

  lemma ReadySheds(a: Address, l: ListState, start: nat)
    requires ListFor(a, l, false)
    ensures Sheds(a, l, l.(items := ReadyRest(l.items, start)), ReadyPart(l.items, start), false)
  {
    var part, rest := ReadyPart(l.items, start), ReadyRest(l.items, start);
    assert forall n :: n in l.items ==> (n in part <==> n !in rest);
    assert forall n :: n in part ==> n in l.items && part[n] == l.items[n];
    LeaveParts(l, l.(items := rest), part);
  }

  function Excess(m: NonceMap, k: nat): NonceMap { m - Capped(m, k).Keys }

  lemma CapSheds(a: Address, l: ListState, k: nat, strict: bool)
    requires ListFor(a, l, strict)
    ensures Sheds(a, l, l.(items := Capped(l.items, k)), Excess(l.items, k), strict)
  {
    PartSheds(a, l, Capped(l.items, k), strict);
  }

  // ---------- promotion ----------

  /** What a chain that has reached `nonce` leaves of a list. */
  function Unpassed(l: ListState, nonce: nat): ListState { l.(items := AtLeast(l.items, nonce)) }

  /** What promotion from `next` on leaves of a queue. */
  function Unready(l: ListState, next: nat): ListState { l.(items := ReadyRest(l.items, next)) }

  function CappedTo(l: ListState, limit: nat): ListState { l.(items := Capped(l.items, limit)) }

  /** Only the queues of remote accounts are capped. */
  function Trimmed(l: ListState, local: bool, limit: nat): ListState { if local then l else CappedTo(l, limit) }

  /** What is still worth keeping of a queue: neither passed by the chain nor beyond the account's means. */
  function Live(l: ListState, nonce: nat, lim: Limits): ListState { AfterFilter(Unpassed(l, nonce), lim, 0) }

  lemma LiveAbove(l: ListState, nonce: nat, lim: Limits)
    ensures forall n :: n in Live(l, nonce, lim).items ==> nonce <= n
  {
  }

  lemma PutListOver(m: Lists, a: Address, l: ListState, l': ListState)
    ensures PutList(m[a := l], a, l') == PutList(m, a, l')
  {
  }

  /** The list of `a` in `p'` is that of `p` with `gain` added; other accounts have what they had. */
  ghost predicate Gains(p: Lists, p': Lists, a: Address, gain: NonceMap) {
    ItemsOf(p', a) == ItemsOf(p, a) + gain && p' - {a} == p - {a}
  }

  /** Gaining `gain`, with `left` of it still to come. */
  ghost predicate Gaining(p: Lists, p': Lists, a: Address, gain: NonceMap, left: NonceMap) {
    ItemsOf(p', a) + left == ItemsOf(p, a) + gain && p' - {a} == p - {a}
  }

  type Nonces = map<Address, nat>

  /** The virtual nonces once `gain` has been promoted for `a`: one past its last. */
  ghost function Advanced(v: Nonces, a: Address, gain: NonceMap): Nonces {
    if gain.Keys == {} then v else v[a := Max(gain.Keys) + 1]
  }

  /** Advancing in nonce order, with `left` of it still to come. */
  ghost predicate Advancing(v: Nonces, v': Nonces, a: Address, gain: NonceMap, left: NonceMap) {
    && left.Keys <= gain.Keys
    && if left.Keys == gain.Keys then v' == v else exists n: nat :: LastSoFar(gain, left, n) && v' == v[a := n + 1]
  }

  ghost predicate LastSoFar(gain: NonceMap, left: NonceMap, n: nat) {
    && n in gain && (forall k :: k in left ==> n < k) && (forall k :: k in gain && k !in left ==> k <= n)
  }

  lemma AdvanceOne(v: Nonces, v': Nonces, a: Address, gain: NonceMap, left: NonceMap, n: nat)
    requires Advancing(v, v', a, gain, left) && n in left && forall k :: k in left ==> n <= k
    ensures Advancing(v, v'[a := n + 1], a, gain, left - {n})
  {
    assert n !in (left - {n}).Keys;
    if left.Keys != gain.Keys {
      var m: nat :| LastSoFar(gain, left, m) && v' == v[a := m + 1];
      assert v'[a := n + 1] == v[a := n + 1];
    }
    assert LastSoFar(gain, left - {n}, n);
  }

  lemma AdvanceAll(v: Nonces, v': Nonces, a: Address, gain: NonceMap, left: NonceMap)
    requires Advancing(v, v', a, gain, left) && left.Keys == {}
    ensures v' == Advanced(v, a, gain)
  {
    if gain.Keys != {} {
      var n: nat :| LastSoFar(gain, left, n) && v' == v[a := n + 1];
      MaxIs(gain.Keys, n);
    }
  }

  /** The three things promotion changes. */
  datatype Ranks = Ranks(pending: Lists, queue: Lists, virtual: Nonces)

  /** Promotion of account `a`, whose live queue is `l`: the run that is ready from `next` on moves to the pending list,
      and the rest, within its limit, is the new queue. */
  ghost predicate Promotes(r: Ranks, a: Address, l: ListState, next: nat, local: bool, limit: nat, r': Ranks) {
    var ok :=
      && Gains(r.pending, r'.pending, a, ReadyPart(l.items, next))
      && r'.queue == PutList(r.queue, a, Trimmed(Unready(l, next), local, limit))
      && r'.virtual == Advanced(r.virtual, a, ReadyPart(l.items, next));
    ok
  }

  /** The first half of it: the rest of the queue is not trimmed yet. */
  ghost predicate Readies(r: Ranks, a: Address, l: ListState, next: nat, r': Ranks) {
    var ok :=
      && Gains(r.pending, r'.pending, a, ReadyPart(l.items, next))
      && r'.queue == r.queue[a := Unready(l, next)]
      && r'.virtual == Advanced(r.virtual, a, ReadyPart(l.items, next));
    ok
  }

  lemma TrimsTo(r: Ranks, a: Address, l: ListState, next: nat, local: bool, limit: nat, r1: Ranks, r': Ranks)
    requires Readies(r, a, l, next, r1) && r' == r1.(queue := r'.queue) && a in r1.queue
    requires r'.queue == PutList(r1.queue, a, Trimmed(r1.queue[a], local, limit))
    ensures Promotes(r, a, l, next, local, limit, r')
  {
    PutListOver(r.queue, a, Unready(l, next), Trimmed(Unready(l, next), local, limit));
  }

  lemma PromotesOver(r: Ranks, a: Address, l: ListState, next: nat, local: bool, limit: nat, r': Ranks)
    requires Promotes(r.(queue := r.queue[a := l]), a, l, next, local, limit, r')
    ensures Promotes(r, a, l, next, local, limit, r')
  {
    PutListOver(r.queue, a, l, Trimmed(Unready(l, next), local, limit));
  }

  // ---------- what promotion of an account means ----------

  /** What the pool holds of one account: its pending and its queued transactions, and its virtual nonce. */
  datatype Holding = Holding(pending: NonceMap, queue: NonceMap, next: nat)

  function HoldingOf(r: Ranks, nonce: Address -> nat, a: Address): Holding {
    Holding(ItemsOf(r.pending, a), ItemsOf(r.queue, a), NextNonce(r.virtual, nonce, a))
  }

  /** The chain has not passed the transaction, and its sender can pay for it. */
  predicate Lives(tx: Tx, nonce: nat, lim: Limits) {
    && nonce <= tx.nonce
    && tx.cost.Some? && tx.cost.value <= lim.balance && tx.gas <= lim.maxGas
  }

  predicate LivesIn(m: NonceMap, n: nat, nonce: nat, lim: Limits) { n in m && Lives(m[n], nonce, lim) }

  /** The lowest live nonce is at most `next`, and all from there to `n` are live. */
  ghost predicate IsReady(m: NonceMap, next: nat, n: nat, nonce: nat, lim: Limits) {
    exists lo: nat :: lo <= next && StartsRun(m, lo, n, nonce, lim)
  }

  ghost predicate StartsRun(m: NonceMap, lo: nat, n: nat, nonce: nat, lim: Limits) {
    && lo <= n && (forall j :: lo <= j <= n ==> LivesIn(m, j, nonce, lim))
    && forall j :: LivesIn(m, j, nonce, lim) ==> lo <= j
  }

  predicate SameAt(m: NonceMap, m': NonceMap, n: nat) { n in m && n in m' && m'[n] == m[n] }

  /** Nothing pending is lost, and what becomes pending is exactly what was queued and ready; the virtual nonce is one
      past the last of it. */
  ghost predicate GainsReady(h: Holding, h': Holding, nonce: nat, lim: Limits) {
    && (forall n :: n in h.pending ==> SameAt(h.pending, h'.pending, n))
    && (forall n :: n in h'.pending && n !in h.pending ==>
         SameAt(h.queue, h'.pending, n) && IsReady(h.queue, h.next, n, nonce, lim) && n < h'.next)
    && (forall n :: n in h.queue && IsReady(h.queue, h.next, n, nonce, lim) ==> SameAt(h.queue, h'.pending, n))
    && (h'.next == h.next || (h'.next > 0 && h'.next - 1 in h'.pending && h'.next - 1 !in h.pending))
  }

  /** What stays queued is live and lies above the virtual nonce, within the limit of a remote account; a live
      transaction that is gone lies above a full queue. */
  ghost predicate KeepsLive(h: Holding, h': Holding, nonce: nat, lim: Limits, local: bool, limit: nat) {
    && (forall n :: n in h'.queue ==>
         SameAt(h.queue, h'.queue, n) && LivesIn(h.queue, n, nonce, lim) && h'.next < n && n !in h'.pending)
    && (local || |h'.queue| <= limit)
    && (forall n :: LivesIn(h.queue, n, nonce, lim) && n !in h'.queue && n !in h'.pending ==>
         !local && |h'.queue| == limit && forall k :: k in h'.queue ==> k < n)
  }

  ghost predicate Promoted(h: Holding, h': Holding, nonce: nat, lim: Limits, local: bool, limit: nat) {
    var ok := GainsReady(h, h', nonce, lim) && KeepsLive(h, h', nonce, lim, local, limit);
    ok
  }

  lemma NothingReady(m: NonceMap, next: nat, nonce: nat, lim: Limits)
    requires forall n :: n in m ==> next < n
    ensures forall n :: !IsReady(m, next, n, nonce, lim)
  {
    forall n, lo: nat | lo <= next ensures !StartsRun(m, lo, n, nonce, lim) { assert !LivesIn(m, lo, nonce, lim); }
  }

  /** Promoting again changes nothing. */
  lemma PromotedTwice(h: Holding, h1: Holding, h2: Holding, nonce: nat, lim: Limits, local: bool, limit: nat)
    requires Promoted(h, h1, nonce, lim, local, limit) && Promoted(h1, h2, nonce, lim, local, limit)
    ensures h2 == h1
  {
    NothingReady(h1.queue, h1.next, nonce, lim);
    assert h2.pending == h1.pending;
    StaysQueued(h, h1, h2, nonce, lim, local, limit);
  }

  // --- from the step to its meaning ---

  lemma LiveIs(l: ListState, nonce: nat, lim: Limits)
    requires !l.strict && Keyed(l.items)
    ensures forall n :: n in Live(l, nonce, lim).items <==> LivesIn(l.items, n, nonce, lim)
    ensures forall n :: n in Live(l, nonce, lim).items ==> Live(l, nonce, lim).items[n] == l.items[n]
  {
  }

  /** What is ready of a map of live transactions, and what is not. */
  lemma ReadyIs(m: NonceMap, next: nat)
    ensures forall n :: n in ReadyPart(m, next) ==>
      n in m && ReadyPart(m, next)[n] == m[n] && exists lo: nat :: lo <= next && RunsTo(m, lo, n)
    ensures forall n, lo: nat :: lo <= next && RunsTo(m, lo, n) ==> n in ReadyPart(m, next)
    ensures forall n :: n in m && n !in ReadyPart(m, next) ==> n in ReadyRest(m, next) && ReadyRest(m, next)[n] == m[n]
    ensures forall n :: n in ReadyRest(m, next) ==> n in m && n !in ReadyPart(m, next)
    ensures var part := ReadyPart(m, next);
      forall n :: n in ReadyRest(m, next) ==> (if part.Keys == {} then next else Max(part.Keys) + 1) < n
  {
    if m.Keys != {} && Min(m.Keys) <= next {
      var lo := Min(m.Keys);
      var e := RunEnd(m, lo);
      assert e - 1 in m && lo < e;
      MaxIs(ReadyPart(m, next).Keys, e - 1);
      forall n | n in ReadyPart(m, next) ensures RunsTo(m, lo, n) {}
      forall n, k: nat | k <= next && RunsTo(m, k, n) ensures n in ReadyPart(m, next) {
        assert k in m && k == lo;
        assert e !in m;
      }
    } else {
      forall n, k: nat | k <= next ensures !RunsTo(m, k, n) { assert k !in m; }
    }
  }

  /** All from the lowest nonce of `m`, which is `lo`, up to `n` are there. */
  ghost predicate RunsTo(m: NonceMap, lo: nat, n: nat) {
    lo <= n && (forall j :: lo <= j <= n ==> j in m) && forall j :: j in m ==> lo <= j
  }

  lemma RunsAlike(m: NonceMap, live: NonceMap, lo: nat, n: nat, nonce: nat, lim: Limits)
    requires forall k :: k in live <==> LivesIn(m, k, nonce, lim)
    ensures RunsTo(live, lo, n) <==> StartsRun(m, lo, n, nonce, lim)
  {
  }

  /** The step of an account on its own, where `part` is ready and `rest` is not. */
  ghost predicate Gained(h: Holding, h': Holding, part: NonceMap) {
    && h'.pending == h.pending + part
    && h'.next == (if part.Keys == {} then h.next else Max(part.Keys) + 1)
  }

  /** `live` is the live part of `m`. */
  ghost predicate LivePart(m: NonceMap, live: NonceMap, nonce: nat, lim: Limits) {
    && (forall n :: n in live <==> LivesIn(m, n, nonce, lim))
    && (forall n :: n in live ==> SameAt(m, live, n))
  }

  lemma ReadyExactly(m: NonceMap, live: NonceMap, next: nat, nonce: nat, lim: Limits)
    requires LivePart(m, live, nonce, lim)
    ensures forall n :: n in ReadyPart(live, next) <==> IsReady(m, next, n, nonce, lim)
    ensures forall n :: n in ReadyPart(live, next) ==> SameAt(m, ReadyPart(live, next), n)
  {
    ReadyIs(live, next);
    forall n ensures n in ReadyPart(live, next) <==> IsReady(m, next, n, nonce, lim) {
      forall lo: nat ensures RunsTo(live, lo, n) <==> StartsRun(m, lo, n, nonce, lim) {
        RunsAlike(m, live, lo, n, nonce, lim);
      }
      if n in ReadyPart(live, next) {
        var lo: nat :| lo <= next && RunsTo(live, lo, n);
        assert StartsRun(m, lo, n, nonce, lim);
      }
    }
  }

  lemma StepsGain(h: Holding, h': Holding, live: NonceMap, nonce: nat, lim: Limits)
    requires LivePart(h.queue, live, nonce, lim) && (forall n :: n in h.queue ==> n !in h.pending)
    requires Gained(h, h', ReadyPart(live, h.next))
    ensures GainsReady(h, h', nonce, lim)
  {
    var part := ReadyPart(live, h.next);
    ReadyExactly(h.queue, live, h.next, nonce, lim);
    forall n | n in h.pending ensures SameAt(h.pending, h'.pending, n) { assert n !in part; }
    forall n | n in h'.pending && n !in h.pending
      ensures SameAt(h.queue, h'.pending, n) && IsReady(h.queue, h.next, n, nonce, lim) && n < h'.next
    {
      assert n in part;
    }
    forall n | n in h.queue && IsReady(h.queue, h.next, n, nonce, lim) ensures SameAt(h.queue, h'.pending, n) {
      assert n in part;
    }
    if part.Keys != {} { assert Max(part.Keys) in part; }
  }

  lemma StepsKeep(h: Holding, h': Holding, live: NonceMap, nonce: nat, lim: Limits, local: bool, limit: nat)
    requires LivePart(h.queue, live, nonce, lim) && (forall n :: n in h.queue ==> n !in h.pending)
    requires Gained(h, h', ReadyPart(live, h.next))
    requires h'.queue == if local then ReadyRest(live, h.next) else Capped(ReadyRest(live, h.next), limit)
    ensures KeepsLive(h, h', nonce, lim, local, limit)
  {
    ReadyIs(live, h.next);
    if !local { CappedIsLowest(ReadyRest(live, h.next), limit); }
  }

  lemma StepsMean(h: Holding, h': Holding, live: NonceMap, nonce: nat, lim: Limits, local: bool, limit: nat)
    requires LivePart(h.queue, live, nonce, lim) && (forall n :: n in h.queue ==> n !in h.pending)
    requires Gained(h, h', ReadyPart(live, h.next))
    requires h'.queue == if local then ReadyRest(live, h.next) else Capped(ReadyRest(live, h.next), limit)
    ensures Promoted(h, h', nonce, lim, local, limit)
  {
    StepsGain(h, h', live, nonce, lim);
    StepsKeep(h, h', live, nonce, lim, local, limit);
  }

  lemma QueueApart(r: Ranks, a: Address, nonce: nat, lim: Limits, all: set<Tx>)
    requires Consistent(r.pending, r.queue, all, {}) && a in r.queue
    ensures LivePart(ItemsOf(r.queue, a), Live(r.queue[a], nonce, lim).items, nonce, lim)
    ensures forall n :: n in ItemsOf(r.queue, a) ==> n !in ItemsOf(r.pending, a)
  {
    assert KeptAt(r.queue, a, false);
    LiveIs(r.queue[a], nonce, lim);
    forall n | n in ItemsOf(r.queue, a) ensures n !in ItemsOf(r.pending, a) {
      assert Taken(r.pending, a, n) ==> !Taken(r.queue, a, n);
    }
  }

  /** What promoting an account does to what it holds. */
  lemma PromotesSteps(r: Ranks, a: Address, nonce: Address -> nat, l: ListState, local: bool, limit: nat, r': Ranks)
    requires Promotes(r, a, l, NextNonce(r.virtual, nonce, a), local, limit, r')
    ensures var h, h' := HoldingOf(r, nonce, a), HoldingOf(r', nonce, a);
      && Gained(h, h', ReadyPart(l.items, h.next))
      && h'.queue == if local then ReadyRest(l.items, h.next) else Capped(ReadyRest(l.items, h.next), limit)
  {
    var rest := Trimmed(Unready(l, NextNonce(r.virtual, nonce, a)), local, limit);
    if rest.items.Keys == {} { assert rest.items == map[]; }
  }

  /** What promoting an account means for what it holds. */
  lemma PromotesMeans(r: Ranks, a: Address, nonce: Address -> nat, lim: Limits, local: bool, limit: nat, r': Ranks,
                      all: set<Tx>)
    requires Consistent(r.pending, r.queue, all, {}) && a in r.queue
    requires Promotes(r, a, Live(r.queue[a], nonce(a), lim), NextNonce(r.virtual, nonce, a), local, limit, r')
    ensures Promoted(HoldingOf(r, nonce, a), HoldingOf(r', nonce, a), nonce(a), lim, local, limit)
  {
    var l := Live(r.queue[a], nonce(a), lim);
    QueueApart(r, a, nonce(a), lim, all);
    PromotesSteps(r, a, nonce, l, local, limit, r');
    StepsMean(HoldingOf(r, nonce, a), HoldingOf(r', nonce, a), l.items, nonce(a), lim, local, limit);
  }

  /** Nothing changes for the others. */
  lemma PromotesOthers(r: Ranks, a: Address, l: ListState, nonce: Address -> nat, local: bool, limit: nat, r': Ranks,
                       b: Address)
    requires Promotes(r, a, l, NextNonce(r.virtual, nonce, a), local, limit, r') && b != a
    ensures HoldingOf(r', nonce, b) == HoldingOf(r, nonce, b)
  {
    SameElsewhere(r.pending, r'.pending, a, b);
  }

  /** An account without a queue is promoted by doing nothing. */
  lemma NoQueue(r: Ranks, a: Address, nonce: Address -> nat, lim: Limits, local: bool, limit: nat)
    requires a !in r.queue
    ensures Promoted(HoldingOf(r, nonce, a), HoldingOf(r, nonce, a), nonce(a), lim, local, limit)
  {
  }

  lemma StaysQueued(h: Holding, h1: Holding, h2: Holding, nonce: nat, lim: Limits, local: bool, limit: nat)
    requires KeepsLive(h, h1, nonce, lim, local, limit) && KeepsLive(h1, h2, nonce, lim, local, limit)
    requires h2.pending == h1.pending
    ensures h2.queue == h1.queue
  {
    assert h2.queue.Keys <= h1.queue.Keys by {
      forall n | n in h2.queue ensures n in h1.queue { assert SameAt(h1.queue, h2.queue, n); }
    }
    forall n | n in h1.queue ensures n in h2.queue {
      assert SameAt(h.queue, h1.queue, n) && LivesIn(h.queue, n, nonce, lim);
      if n !in h2.queue { FewerKeys(h1.queue, h2.queue, n); }
    }
    forall n | n in h1.queue ensures h2.queue[n] == h1.queue[n] { assert SameAt(h1.queue, h2.queue, n); }
  }

  lemma FewerKeys(m: NonceMap, m': NonceMap, n: nat)
    requires m'.Keys <= m.Keys && n in m && n !in m'
    ensures |m'| < |m|
  {
    Shrinks(m, n);
    FewerOrEqual(m - {n}, m');
  }

  lemma {:induction false} FewerOrEqual(m: NonceMap, m': NonceMap)
    requires m'.Keys <= m.Keys
    ensures |m'| <= |m|
  {
    assert m.Keys == m'.Keys + (m.Keys - m'.Keys);
  }

  lemma GainOne(p: Lists, p': Lists, p'': Lists, a: Address, gain: NonceMap, left: NonceMap, n: nat)
    requires Gaining(p, p', a, gain, left) && n in left
    requires a in p'' && p'' == p'[a := p''[a]] && p''[a].items == ItemsOf(p', a)[n := left[n]]
    ensures Gaining(p, p'', a, gain, left - {n})
  {
    assert ItemsOf(p', a)[n := left[n]] + (left - {n}) == ItemsOf(p', a) + left;
    assert p'' - {a} == p' - {a};
  }

  lemma GainAll(p: Lists, p': Lists, a: Address, gain: NonceMap, left: NonceMap)
    requires Gaining(p, p', a, gain, left) && left.Keys == {}
    ensures Gains(p, p', a, gain)
  {
    assert ItemsOf(p', a) + left == ItemsOf(p', a);
  }

  /** Keeping any part of a list gives up the rest. */
  lemma PartSheds(a: Address, l: ListState, part: NonceMap, strict: bool)
    requires ListFor(a, l, strict) && forall n :: n in part ==> n in l.items && part[n] == l.items[n]
    ensures Sheds(a, l, l.(items := part), l.items - part.Keys, strict)
  {
    LeaveParts(l, l.(items := part), l.items - part.Keys);
  }

  lemma QueueSheds(p: Lists, q: Lists, all: set<Tx>, a: Address, l': ListState, gone: NonceMap)
    requires Consistent(p, q, all, {}) && a in q && Sheds(a, q[a], l', gone, false)
    ensures Consistent(p, q[a := l'], all, Txs(gone)) && Txs(gone) <= all
    ensures Consistent(p, q[a := l'], all - Txs(gone), {})
  {
    DetachQueued(p, q, all, {}, a, l', Txs(gone));
    assert {} + Txs(gone) == Txs(gone) && Txs(gone) - Txs(gone) == {};
    DiscardLoose(p, q[a := l'], all, Txs(gone), Txs(gone));
  }

  lemma PendingSheds(p: Lists, q: Lists, all: set<Tx>, a: Address, l': ListState, gone: NonceMap)
    requires Consistent(p, q, all, {}) && a in p && Sheds(a, p[a], l', gone, true)
    ensures Consistent(p[a := l'], q, all, Txs(gone)) && Txs(gone) <= all
    ensures Consistent(p[a := l'], q, all - Txs(gone), {})
  {
    DetachPending(p, q, all, {}, a, l', Txs(gone));
    assert {} + Txs(gone) == Txs(gone) && Txs(gone) - Txs(gone) == {};
    DiscardLoose(p[a := l'], q, all, Txs(gone), Txs(gone));
  }

  lemma PruneQueued(p: Lists, q: Lists, all: set<Tx>, a: Address)
    requires Consistent(p, q, all, {}) && a in q
    ensures Consistent(p, PutList(q, a, q[a]), all, {})
  {
    if q[a].items.Keys == {} {
      KeptWithout(q, a, false);
      JointSym(p, q, all, {});
      Prune(q, p, all, {}, a);
      JointSym(q - {a}, p, all, {});
    } else {
      assert q[a := q[a]] == q;
    }
  }

  /** In step, whatever an account queues at or above its state nonce lies at or above its virtual nonce,
      so what is ready starts exactly there. */
  lemma ReadyInStep(p: Lists, q: Lists, all: set<Tx>, v: map<Address, nat>, nonce: Address -> nat, a: Address)
    returns (end: nat)
    requires Consistent(p, q, all, {}) && InStep(p, v, nonce) && a in q
    requires forall n :: n in q[a].items ==> nonce(a) <= n
    ensures NextNonce(v, nonce, a) <= end
    ensures Interval(ReadyPart(q[a].items, NextNonce(v, nonce, a)), NextNonce(v, nonce, a), end)
  {
    var next, m := NextNonce(v, nonce, a), q[a].items;
    assert StepOf(p, v, nonce, a);
    forall n | n in m ensures next <= n {
      assert Taken(q, a, n);
      assert Taken(p, a, n) <==> n in ItemsOf(p, a);
    }
    end := if m.Keys == {} || Min(m.Keys) > next then next else RunEnd(m, next);
    if m.Keys != {} && Min(m.Keys) <= next { assert Min(m.Keys) == next; }
  }

  lemma IntervalMin(m: NonceMap, lo: nat, hi: nat, n: nat)
    requires Interval(m, lo, hi) && n in m && forall k :: k in m ==> n <= k
    ensures n == lo && Interval(m - {n}, lo + 1, hi)
  {
    assert lo in m;
  }

  lemma PromoteInStep(p: Lists, v: map<Address, nat>, nonce: Address -> nat, tx: Tx, l: ListState)
    requires InStep(p, v, nonce) && tx.nonce == NextNonce(v, nonce, tx.sender) && tx.cost.Some?
    requires l == ListOf(p, tx.sender, true)
    ensures InStep(p[tx.sender := Added(l, tx)], v[tx.sender := tx.nonce + 1], nonce)
  {
    var a := tx.sender;
    assert StepOf(p, v, nonce, a);
    var p', v' := p[a := Added(l, tx)], v[a := tx.nonce + 1];
    assert StepOf(p', v', nonce, a);
    StepElsewhere(p, v, p', v', nonce, a);
  }

  /** Filtering a pending list: the removed ones can be forgotten, the invalidated ones are loose. */
  lemma FilterDemotes(p: Lists, q: Lists, all: set<Tx>, a: Address, lim: Limits, bn: nat)
    requires Consistent(p, q, all, {}) && a in p
    ensures var l := p[a];
      && Keyed(Removed(l, lim, bn)) && Keyed(Invalidated(l, lim, bn)) && Txs(Removed(l, lim, bn)) <= all
      && Consistent(p[a := AfterFilter(l, lim, bn)], q, all - Txs(Removed(l, lim, bn)), Txs(Invalidated(l, lim, bn)))
  {
    var l, l' := p[a], AfterFilter(p[a], lim, bn);
    var gone, back := Removed(l, lim, bn), Invalidated(l, lim, bn);
    assert KeptAt(p, a, true);
    FilterKeepsCaps(l, lim, bn);
    LeaveTwo(l, l', gone, back);
    DetachPending(p, q, all, {}, a, l', Txs(gone) + Txs(back));
    assert {} + (Txs(gone) + Txs(back)) == Txs(gone) + Txs(back);
    DiscardLoose(p[a := l'], q, all, Txs(gone) + Txs(back), Txs(gone));
  }

  lemma LeaveTwo(l: ListState, l': ListState, x: NonceMap, y: NonceMap)
    requires Keyed(l.items)
    requires forall n :: n in l'.items ==> n in l.items && l'.items[n] == l.items[n]
    requires forall n :: n in l.items ==> (n in l'.items <==> n !in x && n !in y)
    requires forall n :: n in x ==> n in l.items && x[n] == l.items[n] && n !in y
    requires forall n :: n in y ==> n in l.items && y[n] == l.items[n]
    ensures Leave(l, l', Txs(x) + Txs(y)) && Txs(x) + Txs(y) - Txs(x) == Txs(y)
  {
    forall tx ensures tx in Txs(x) <==> tx.nonce in x && x[tx.nonce] == tx {
      if tx.nonce in x && x[tx.nonce] == tx { assert tx in Txs(x); }
    }
    forall tx ensures tx in Txs(y) <==> tx.nonce in y && y[tx.nonce] == tx {
      if tx.nonce in y && y[tx.nonce] == tx { assert tx in Txs(y); }
    }
  }

  lemma PrunePending(p: Lists, q: Lists, all: set<Tx>, a: Address)
    requires Consistent(p, q, all, {}) && a in p
    ensures Consistent(PutList(p, a, p[a]), q, all, {})
  {
    if p[a].items.Keys == {} {
      KeptWithout(p, a, true);
      Prune(p, q, all, {}, a);
    } else {
      assert p[a := p[a]] == p;
    }
  }

  /** The nonces of `m` are an interval that starts at `lo`. */
  ghost predicate RunFrom(m: NonceMap, lo: nat) {
    exists hi: nat :: lo <= hi && Interval(m, lo, hi)
  }

  /** The nonces of `m` are an interval that starts at or below `t`. */
  ghost predicate StartsBy(m: NonceMap, t: nat) {
    exists lo: nat, hi: nat :: lo <= t && Interval(m, lo, hi)
  }

  /** An interval of pending nonces that starts at or below the state nonce is, after demotion, an interval
      that starts exactly there: no gap can open in front. */
  lemma DemotedRun(l: ListState, nonce: nat, lim: Limits, bn: nat)
    requires l.strict && StartsBy(l.items, nonce)
    ensures RunFrom(AfterFilter(l.(items := AtLeast(l.items, nonce)), lim, bn).items, nonce)
  {
    var lo: nat, hi: nat :| lo <= nonce && Interval(l.items, lo, hi);
    var l' := l.(items := AtLeast(l.items, nonce));
    var top := if hi < nonce then nonce else hi;
    assert Interval(l'.items, nonce, top);
    var cut := FilterLeavesPrefix(l', lim, bn, nonce, top);
  }

  lemma RunHasFront(m: NonceMap, lo: nat)
    requires RunFrom(m, lo) && m.Keys != {}
    ensures lo in m
  {
    var hi: nat :| lo <= hi && Interval(m, lo, hi);
    var n :| n in m.Keys;
    assert lo <= n < hi;
  }

  // ---------- capping many lists ----------

  ghost function Lens(p: Lists): Lengths { map a | a in p :: |p[a].items| }

  /** Everything that `p` holds. */
  ghost function HeldIn(p: Lists): set<Tx> { set a, n | a in p && n in p[a].items :: p[a].items[n] }

  lemma {:induction false} TxsSize(m: NonceMap)
    requires Keyed(m)
    ensures |Txs(m)| == |m|
    decreases |m|
  {
    if m.Keys == {} {
      assert Txs(m) == {};
    } else {
      var n :| n in m.Keys;
      Shrinks(m, n);
      TxsSize(m - {n});
      WithoutOne(m, n);
      assert m[n] in Txs(m);
    }
  }

  lemma HeldSplit(p: Lists, a: Address, strict: bool)
    requires Kept(p, strict) && a in p
    ensures HeldIn(p) == HeldIn(p - {a}) + Txs(p[a].items) && HeldIn(p - {a}) !! Txs(p[a].items)
    ensures Keyed(p[a].items) && Lens(p - {a}) == Lens(p) - {a}
  {
    assert KeptAt(p, a, strict);
    forall tx | tx in HeldIn(p) ensures tx in HeldIn(p - {a}) + Txs(p[a].items) {
      var b, n :| b in p && n in p[b].items && tx == p[b].items[n];
      if b != a {
        assert b in p - {a} && n in (p - {a})[b].items;
      } else {
        assert p[a].items[n] in Txs(p[a].items);
      }
    }
    forall tx | tx in HeldIn(p - {a}) ensures tx in HeldIn(p) && tx !in Txs(p[a].items) {
      var b, n :| b in p - {a} && n in (p - {a})[b].items && tx == (p - {a})[b].items[n];
      assert KeptAt(p, b, strict);
    }
  }

  /** The lists hold as many transactions as they are long. */
  lemma {:induction false} HeldSize(p: Lists, strict: bool)
    requires Kept(p, strict)
    ensures |HeldIn(p)| == Sum(Lens(p))
    decreases p.Keys
  {
    if p.Keys == {} {
      assert HeldIn(p) == {} && Lens(p).Keys == {};
      SumEmpty(Lens(p));
    } else {
      var a :| a in p.Keys;
      HeldSplit(p, a, strict);
      KeptWithout(p, a, strict);
      HeldSize(p - {a}, strict);
      TxsSize(p[a].items);
      SumSplit(Lens(p), a);
    }
  }

  lemma HeldIs(p: Lists, strict: bool, tx: Tx)
    requires Kept(p, strict)
    ensures tx in HeldIn(p) <==> Holds(p, tx)
  {
    if tx in HeldIn(p) {
      var a, n :| a in p && n in p[a].items && tx == p[a].items[n];
      assert KeptAt(p, a, strict);
    }
  }

  /** The pool knows as many transactions as its lists are long. */
  lemma CountsAddUp(p: Lists, q: Lists, all: set<Tx>)
    requires Consistent(p, q, all, {})
    ensures |all| == Sum(Lens(p)) + Sum(Lens(q))
  {
    HeldSize(p, true);
    HeldSize(q, false);
    forall tx ensures tx in all <==> tx in HeldIn(p) || tx in HeldIn(q) {
      HeldIs(p, true, tx);
      HeldIs(q, false, tx);
      assert tx in all <==> Holds(p, tx) || Holds(q, tx) || tx in {};
    }
    forall tx | tx in HeldIn(p) ensures tx !in HeldIn(q) {
      HeldIs(p, true, tx);
      HeldIs(q, false, tx);
      assert Taken(p, tx.sender, tx.nonce) ==> !Taken(q, tx.sender, tx.nonce);
    }
    assert all == HeldIn(p) + HeldIn(q);
  }

  /** `r` is the part of `m` with the lowest nonces. */
  ghost predicate LowPart(m: NonceMap, r: NonceMap) {
    && (forall n :: n in r ==> n in m && r[n] == m[n])
    && (forall x, y :: x in r && y in m && y !in r ==> x < y)
  }

  /** Without its highest nonce a queue keeps its lowest ones. */
  lemma TopGone(q: Lists, a: Address, n: nat, q': Lists)
    requires Taken(q, a, n) && !q[a].strict && (forall k :: k in q[a].items ==> k <= n)
    requires q' == PutList(q, a, WithoutNonce(q[a], n))
    ensures LowPart(ItemsOf(q, a), ItemsOf(q', a)) && |ItemsOf(q', a)| == |ItemsOf(q, a)| - 1 && q' - {a} == q - {a}
  {
    WithoutTop(q, a, n);
    Shrinks(q[a].items, n);
    assert ItemsOf(q', a) == q[a].items - {n};
  }

  ghost predicate CutAt(p0: Lists, p: Lists, lens: Lengths, a: Address) {
    && (a in p <==> a in p0) && (a in lens <==> a in p0)
    && (a in p ==>
         && p[a] == p0[a].(items := p[a].items)
         && LowPart(p0[a].items, p[a].items) && |p[a].items| == lens[a])
  }

  /** `p` is `p0` with every list cut down to its lowest `lens[a]` nonces. */
  ghost predicate Cut(p0: Lists, p: Lists, lens: Lengths) {
    forall a :: CutAt(p0, p, lens, a)
  }

  lemma CutSelf(p: Lists)
    ensures Cut(p, p, Lens(p))
  {
  }

  lemma CutLens(p0: Lists, p: Lists, lens: Lengths)
    requires Cut(p0, p, lens)
    ensures Lens(p) == lens
  {
    forall a ensures a in Lens(p) <==> a in lens { assert CutAt(p0, p, lens, a); }
    forall a | a in lens ensures Lens(p)[a] == lens[a] { assert CutAt(p0, p, lens, a); }
  }

  /** A list without its highest transaction. */
  function Topless(l: ListState): ListState
    requires l.items.Keys != {}
  {
    l.(items := l.items - {Max(l.items.Keys)})
  }

  lemma ToplessIsLow(m: NonceMap, l: ListState)
    requires l.items.Keys != {} && LowPart(m, l.items)
    ensures LowPart(m, Topless(l).items) && |Topless(l).items| == |l.items| - 1
  {
    Shrinks(l.items, Max(l.items.Keys));
  }

  lemma CutOneMore(p0: Lists, p: Lists, lens: Lengths, a: Address)
    requires Cut(p0, p, lens) && a in p && p[a].items.Keys != {} && a in lens && lens[a] > 0
    ensures Cut(p0, p[a := Topless(p[a])], lens[a := lens[a] - 1])
  {
    assert CutAt(p0, p, lens, a);
    ToplessIsLow(p0[a].items, p[a]);
    var p', lens' := p[a := Topless(p[a])], lens[a := lens[a] - 1];
    forall b ensures CutAt(p0, p', lens', b) { assert CutAt(p0, p, lens, b); }
  }

  lemma CapInStep(p: Lists, v: map<Address, nat>, nonce: Address -> nat, a: Address, l: ListState)
    requires InStep(p, v, nonce) && a in p && p[a].items.Keys != {} && l == Topless(p[a])
    ensures InStep(p[a := l], Lowered(v, nonce, a, Max(p[a].items.Keys)), nonce)
  {
    var m, top := p[a].items, Max(p[a].items.Keys);
    assert StepOf(p, v, nonce, a);
    var hi := NextNonce(v, nonce, a);
    assert top == hi - 1 by { assert hi - 1 in m; }
    var p', v' := p[a := l], Lowered(v, nonce, a, top);
    assert StepOf(p', v', nonce, a);
    StepElsewhere(p, v, p', v', nonce, a);
  }

  lemma CapOffHighest(m: NonceMap)
    requires |m| >= 1
    ensures m.Keys != {} && Capped(m, |m| - 1) == m - {Max(m.Keys)}
  {
    Shrinks(m, Max(m.Keys));
  }

  /** txList.Cap one below the length: the highest transaction goes. */
  method CapHighest(l: ListState) returns (l': ListState, gone: NonceMap)
    requires |l.items| >= 1
    ensures l.items.Keys != {} && l' == Topless(l)
    ensures gone == map[Max(l.items.Keys) := l.items[Max(l.items.Keys)]]
  {
    CapOffHighest(l.items);
    l' := l.(items := Capped(l.items, |l.items| - 1));
    gone := l.items - l'.items.Keys;
    assert gone == map[Max(l.items.Keys) := l.items[Max(l.items.Keys)]];
  }

  lemma HighestSheds(a: Address, l: ListState, l': ListState, gone: NonceMap, strict: bool)
    requires ListFor(a, l, strict) && l.items.Keys != {} && l' == Topless(l)
    requires gone == map[Max(l.items.Keys) := l.items[Max(l.items.Keys)]]
    ensures Sheds(a, l, l', gone, strict)
  {
    LeaveParts(l, l', gone);
  }

  /** Removing one queued transaction takes one from the total. */
  lemma DropSum(q: Lists, a: Address, n: nat, all: set<Tx>, p: Lists)
    requires Consistent(p, q, all, {}) && Taken(q, a, n)
    ensures Sum(Lens(PutList(q, a, WithoutNonce(q[a], n)))) == Sum(Lens(q)) - 1
  {
    assert KeptAt(q, a, false);
    var l, l' := q[a], WithoutNonce(q[a], n);
    Shrinks(l.items, n);
    var k := |l'.items|;
    if l'.items.Keys == {} {
      assert Lens(q - {a}) == Lens(q) - {a};
      SumSplit(Lens(q), a);
    } else {
      assert Lens(q[a := l']) == Lens(q)[a := k];
      SumUpdate(Lens(q), a, k);
    }
  }

  lemma WithoutTop(q: Lists, a: Address, n: nat)
    requires Taken(q, a, n) && !q[a].strict
    ensures PutList(q, a, WithoutNonce(q[a], n)) - {a} == q - {a}
    ensures |ItemsOf(PutList(q, a, WithoutNonce(q[a], n)), a)| == |ItemsOf(q, a)| - 1
  {
    Shrinks(q[a].items, n);
  }

  ghost predicate WaitAt(q: Lists, locals: set<Address>, waiting: set<Address>, a: Address) {
    && (a in waiting ==> a in q)
    && (a in q && a !in locals && a !in waiting ==> |q[a].items| == 0)
  }

  /** Only `waiting` accounts and local ones still have queued transactions. */
  ghost predicate Waiting(q: Lists, locals: set<Address>, waiting: set<Address>) {
    forall a :: WaitAt(q, locals, waiting, a)
  }

  /** No remote account has a queued transaction. */
  ghost predicate OnlyLocals(q: Lists, locals: set<Address>) {
    Waiting(q, locals, {})
  }

  lemma WaitingStep(q: Lists, q': Lists, locals: set<Address>, waiting: set<Address>, a: Address)
    requires Waiting(q, locals, waiting) && q' - {a} == q - {a} && |ItemsOf(q', a)| == 0
    ensures Waiting(q', locals, waiting - {a})
  {
    var rest := waiting - {a};
    forall b ensures WaitAt(q', locals, rest, b) {
      assert WaitAt(q, locals, waiting, b);
      if b != a { assert b in q' - {a} <==> b in q'; assert b in q - {a} <==> b in q; }
      if b != a && b in q' { assert (q' - {a})[b] == (q - {a})[b]; }
    }
  }

  ghost predicate NotAbove(p: Lists, locals: set<Address>, slots: nat, a: Address) {
    a in p && a !in locals ==> |p[a].items| <= slots
  }

  /** No remote account holds more than its guaranteed slots. */
  ghost predicate NobodyAbove(p: Lists, locals: set<Address>, slots: nat) {
    forall a :: NotAbove(p, locals, slots, a)
  }

  lemma FairCaps(p0: Lists, p: Lists, locals: set<Address>, slots: nat, limit: nat, level: nat)
    requires Fair(Lens(p0), Lens(p), locals, slots, limit, level)
    ensures level == slots ==> NobodyAbove(p, locals, slots)
  {
    forall a ensures level == slots ==> NotAbove(p, locals, slots, a) {
      if a in p { assert a in Lens(p) && Lens(p)[a] == Level(Lens(p0), locals, level)[a]; }
    }
  }

  // ---------- demotion ----------

  ghost predicate StartByAt(p: Lists, nonce: Address -> nat, a: Address) { a in p ==> StartsBy(p[a].items, nonce(a)) }

  /** Every pending list is an interval of nonces that starts at or below the state nonce. */
  ghost predicate AllStartBy(p: Lists, nonce: Address -> nat) {
    forall a :: StartByAt(p, nonce, a)
  }

  ghost predicate RunAt(p: Lists, nonce: Address -> nat, a: Address) { a in p ==> RunFrom(p[a].items, nonce(a)) }

  ghost predicate AllRuns(p: Lists, nonce: Address -> nat) {
    forall a :: RunAt(p, nonce, a)
  }

  ghost predicate RunsOutside(p: Lists, left: set<Address>, nonce: Address -> nat) {
    forall a :: a in left || RunAt(p, nonce, a)
  }

  ghost predicate FrontAt(p: Lists, nonce: Address -> nat, a: Address) { a in p ==> nonce(a) in p[a].items }

  /** Every pending list holds the state nonce. */
  ghost predicate AllFronts(p: Lists, nonce: Address -> nat) {
    forall a :: FrontAt(p, nonce, a)
  }

  ghost predicate DemotingAt(p0: Lists, p: Lists, left: set<Address>, nonce: Address -> nat, a: Address) {
    && (a in p ==> a in p0)
    && (a in left ==> a in p && a in p0 && p[a] == p0[a])
    && (a !in left ==> FrontAt(p, nonce, a))
  }

  /** The accounts in `left` are still as in `p0`; the others have been demoted. */
  ghost predicate Demoting(p0: Lists, p: Lists, left: set<Address>, nonce: Address -> nat) {
    forall a :: DemotingAt(p0, p, left, nonce, a)
  }

  lemma SameElsewhere(p: Lists, p': Lists, a: Address, b: Address)
    requires p' - {a} == p - {a} && b != a
    ensures (b in p' <==> b in p) && (b in p ==> p'[b] == p[b])
  {
    assert b in p' - {a} <==> b in p';
    assert b in p - {a} <==> b in p;
    if b in p { assert (p' - {a})[b] == p'[b] && (p - {a})[b] == p[b]; }
  }

  lemma DemotingStep(p0: Lists, p: Lists, p': Lists, left: set<Address>, nonce: Address -> nat, a: Address)
    requires Demoting(p0, p, left, nonce) && a in left && p' - {a} == p - {a} && FrontAt(p', nonce, a)
    ensures Demoting(p0, p', left - {a}, nonce)
  {
    var rest := left - {a};
    forall b ensures DemotingAt(p0, p', rest, nonce, b) {
      assert DemotingAt(p0, p, left, nonce, b);
      if b != a { SameElsewhere(p, p', a, b); }
    }
  }

  lemma RunsStep(p: Lists, p': Lists, left: set<Address>, nonce: Address -> nat, a: Address)
    requires RunsOutside(p, left, nonce) && p' - {a} == p - {a} && RunAt(p', nonce, a)
    ensures RunsOutside(p', left - {a}, nonce)
  {
    var rest := left - {a};
    forall b ensures b in rest || RunAt(p', nonce, b) {
      assert b in left || RunAt(p, nonce, b);
      if b != a { SameElsewhere(p, p', a, b); }
    }
  }

  lemma DemotingDone(p0: Lists, p: Lists, nonce: Address -> nat)
    requires Demoting(p0, p, {}, nonce)
    ensures p.Keys <= p0.Keys && AllFronts(p, nonce) && NoEmpty(p)
  {
    forall a ensures FrontAt(p, nonce, a) && FullAt(p, a) && (a in p ==> a in p0) {
      assert DemotingAt(p0, p, {}, nonce, a);
    }
    forall a ensures FrontAt(p, nonce, a) {}
    forall a ensures FullAt(p, a) { assert FrontAt(p, nonce, a); }
  }

  lemma RunsEverywhere(p: Lists, nonce: Address -> nat)
    requires RunsOutside(p, {}, nonce)
    ensures AllRuns(p, nonce)
  {
    forall a ensures RunAt(p, nonce, a) { assert a in {} || RunAt(p, nonce, a); }
  }

  // ---------- insertion ----------

  /** A new transaction takes the pending slot of an older one. */
  lemma SwapPending(p: Lists, q: Lists, all: set<Tx>, tx: Tx)
    requires Consistent(p, q, all, {}) && NoEmpty(p) && tx !in all && tx.cost.Some? && Taken(p, tx.sender, tx.nonce)
    ensures var l := p[tx.sender];
      && l.items[tx.nonce] in all && NoEmpty(p[tx.sender := Added(l, tx)])
      && Consistent(p[tx.sender := Added(l, tx)], q, all - {l.items[tx.nonce]} + {tx}, {})
  {
    var a, l := tx.sender, p[tx.sender];
    assert KeptAt(p, a, true);
    assert Holds(p, l.items[tx.nonce]);
    AttachNew(q, p, all, tx, l, all - {l.items[tx.nonce]} + {tx});
    AddedSound(a, l, tx, true);
    KeptUpdate(p, a, Added(l, tx), true);
    AddNoEmpty(p, a, Added(l, tx));
  }

  lemma SwapInStep(p: Lists, v: map<Address, nat>, nonce: Address -> nat, tx: Tx)
    requires InStep(p, v, nonce) && Taken(p, tx.sender, tx.nonce) && tx.cost.Some?
    ensures InStep(p[tx.sender := Added(p[tx.sender], tx)], v, nonce)
  {
    var a := tx.sender;
    var p' := p[a := Added(p[a], tx)];
    assert StepOf(p, v, nonce, a);
    assert StepOf(p', v, nonce, a);
    StepElsewhere(p, v, p', v, nonce, a);
  }

  /** What a queue slot holds is known, and is not a transaction that is yet unknown. */
  lemma SlotKnown(p: Lists, q: Lists, all: set<Tx>, tx: Tx)
    requires Consistent(p, q, all, {}) && tx !in all
    ensures Taken(q, tx.sender, tx.nonce) ==>
      var t := q[tx.sender].items[tx.nonce]; t in all && t != tx && t.sender == tx.sender && t.nonce == tx.nonce
  {
    assert KeptAt(q, tx.sender, false);
    if Taken(q, tx.sender, tx.nonce) { assert Holds(q, q[tx.sender].items[tx.nonce]); }
  }

  /** Whether or not the queue accepts a new transaction, the pool stays consistent. */
  lemma NewQueued(p: Lists, q: Lists, all: set<Tx>, tx: Tx)
    requires Consistent(p, q, all, {}) && tx !in all && tx.cost.Some? && !Taken(p, tx.sender, tx.nonce)
    ensures var l := ListOf(q, tx.sender, false);
      && Consistent(p, q[tx.sender := l], all, {})
      && Consistent(p, q[tx.sender := Added(l, tx)],
                    all + {tx} - (if Taken(q, tx.sender, tx.nonce) then {q[tx.sender].items[tx.nonce]} else {}), {})
  {
    var a, l := tx.sender, ListOf(q, tx.sender, false);
    ListOfSound(q, a, false);
    NewList(p, q, all, a);
    SlotKnown(p, q, all, tx);
    var all' := (if tx.nonce in l.items then all - {l.items[tx.nonce]} else all) + {tx};
    JointSym(p, q, all, {});
    AttachNew(p, q, all, tx, l, all');
    JointSym(q[a := Added(l, tx)], p, all', {});
    AddedSound(a, l, tx, false);
    KeptUpdate(q, a, Added(l, tx), false);
    assert all' == all + {tx} - (if Taken(q, a, tx.nonce) then {q[a].items[tx.nonce]} else {});
  }

  /** Adding an empty list changes nothing else. */
  lemma NewList(p: Lists, q: Lists, all: set<Tx>, a: Address)
    requires Consistent(p, q, all, {})
    ensures Consistent(p, q[a := ListOf(q, a, false)], all, {})
  {
    var q' := q[a := ListOf(q, a, false)];
    ListOfSound(q, a, false);
    KeptUpdate(q, a, ListOf(q, a, false), false);
    assert forall b, n :: Taken(q', b, n) == Taken(q, b, n);
    assert forall tx :: Holds(q', tx) == Holds(q, tx);
  }

  /** The virtual nonces with those of the pending accounts set one past their last pending nonce. */
  ghost function Synced(p: Lists, v: map<Address, nat>): map<Address, nat> {
    map a | a in v.Keys + p.Keys ::
      if a in p && p[a].items.Keys != {} then Max(p[a].items.Keys) + 1 else if a in v then v[a] else 0
  }

  /** After demotion, setting the virtual nonces puts the pool in step. */
  lemma SyncedInStep(p: Lists, nonce: Address -> nat)
    requires AllRuns(p, nonce) && NoEmpty(p)
    ensures InStep(p, Synced(p, map[]), nonce)
  {
    var v := Synced(p, map[]);
    forall a ensures StepOf(p, v, nonce, a) {
      assert RunAt(p, nonce, a) && FullAt(p, a);
      if a in p { RunTop(p[a].items, nonce(a)); }
    }
  }

  lemma RunTop(m: NonceMap, lo: nat)
    requires RunFrom(m, lo) && m.Keys != {}
    ensures lo <= Max(m.Keys) && Interval(m, lo, Max(m.Keys) + 1)
  {
    var hi: nat :| lo <= hi && Interval(m, lo, hi);
    var top := Max(m.Keys);
    assert lo <= top < hi;
    assert hi - 1 in m;
  }

  /** Lists in step with an older chain state start at or below the state nonces of a newer one. */
  lemma OlderStartsBy(p: Lists, v: map<Address, nat>, nonce: Address -> nat, nonce': Address -> nat)
    requires InStep(p, v, nonce) && forall a :: nonce(a) <= nonce'(a)
    ensures AllStartBy(p, nonce')
  {
    forall a ensures StartByAt(p, nonce', a) {
      assert StepOf(p, v, nonce, a);
      if a in p { assert nonce(a) <= nonce'(a) && Interval(p[a].items, nonce(a), NextNonce(v, nonce, a)); }
    }
  }
}
