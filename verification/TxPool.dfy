/** core/tx_pool.go: the transaction pool. */
module Pool {
  import opened Common
  import opened Transactions
  import opened AccountList
  import opened PricedList
  import opened PoolState
  import opened Fairness

  datatype Config = Config(priceLimit: nat, priceBump: nat, accountSlots: nat, globalSlots: nat,
                           accountQueue: nat, globalQueue: nat)

  const DEFAULTS := Config(100_000_000_000, 1, 16, 4096, 64, 5120)

  ghost predicate Sanitized(c: Config) {
    && c.priceLimit >= 1 && c.priceBump >= 1 && c.accountSlots >= 1
    && c.globalSlots >= 1 && c.accountQueue >= 1 && c.globalQueue >= 1
  }

  /** A setting of zero gives way to the default; any other stays. */
  predicate Replaced(given: nat, standard: nat, used: nat) {
    (given > 0 ==> used == given) && (given == 0 ==> used == standard)
  }

  /** Replaces every unworkable setting by its default. */
  function Sanitize(c: Config): (r: Config)
    ensures Sanitized(r) && (Sanitized(c) ==> r == c)
    ensures Replaced(c.priceLimit, DEFAULTS.priceLimit, r.priceLimit)
    ensures Replaced(c.priceBump, DEFAULTS.priceBump, r.priceBump)
    ensures Replaced(c.accountSlots, DEFAULTS.accountSlots, r.accountSlots)
    ensures Replaced(c.globalSlots, DEFAULTS.globalSlots, r.globalSlots)
    ensures Replaced(c.accountQueue, DEFAULTS.accountQueue, r.accountQueue)
    ensures Replaced(c.globalQueue, DEFAULTS.globalQueue, r.globalQueue)
  {
    Config(if c.priceLimit < 1 then DEFAULTS.priceLimit else c.priceLimit,
           if c.priceBump < 1 then DEFAULTS.priceBump else c.priceBump,
           if c.accountSlots == 0 then DEFAULTS.accountSlots else c.accountSlots,
           if c.globalSlots == 0 then DEFAULTS.globalSlots else c.globalSlots,
           if c.accountQueue == 0 then DEFAULTS.accountQueue else c.accountQueue,
           if c.globalQueue == 0 then DEFAULTS.globalQueue else c.globalQueue)
  }

  /** The chain state the pool validates against. */
  datatype Chain = Chain(nonce: Address -> nat, balance: Address -> int, maxGas: nat, stakingOk: Tx -> bool)

  function LimitsFor(c: Chain, a: Address): Limits { Limits(c.balance(a), c.maxGas, c.stakingOk) }

  datatype PoolError = KnownTransaction | Invalid | Underpriced | ReplaceUnderpriced

  /** What can happen to the pool from outside. */
  datatype Op =
    | AddOne(tx: Tx, local: bool)
    | AddMany(txs: seq<Tx>, local: bool)
    | NewPrice(price: int)
    | Expire(addr: Address)
    | NewHead(chain: Chain, bn: nat, reinject: seq<Tx>)

  function ChainAfter(c: Chain, op: Op): Chain { if op.NewHead? then op.chain else c }

  /** A head change that takes nothing back and lowers no account nonce. */
  ghost predicate CalmOp(c: Chain, op: Op) {
    op.NewHead? ==> op.reinject == [] && forall a :: c.nonce(a) <= op.chain.nonce(a)
  }

  ghost predicate Calm(c: Chain, ops: seq<Op>)
    decreases |ops|
  {
    ops == [] || (CalmOp(c, ops[0]) && Calm(ChainAfter(c, ops[0]), ops[1..]))
  }

  /** Everything the pool holds. */
  datatype Contents = Contents(ranks: Ranks, all: set<Tx>, locals: set<Address>)

  /** What a new transaction is judged by; `checks` are the checks on shard, size, value, signature, allow and block
      lists, and intrinsic gas. */
  datatype Terms = Terms(chain: Chain, gasPrice: int, cfg: Config, checks: Tx -> bool)

  /** Passes the checks, fits into a block, is not too cheap for a remote one, not stale, affordable unless it is a
      delegation, and not a staking transaction that the staking rules turn down. */
  predicate Admissible(tx: Tx, local: bool, t: Terms, locals: set<Address>) {
    && t.checks(tx) && tx.gas <= t.chain.maxGas && t.chain.nonce(tx.sender) <= tx.nonce
    && (local || tx.sender in locals || tx.price >= t.gasPrice)
    && tx.cost.Some? && (tx.kind == Delegation || tx.cost.value <= t.chain.balance(tx.sender))
    && (tx.kind == Plain || t.chain.stakingOk(tx))
  }

  /** `tx` stands under its sender and nonce, and all else is as it was. */
  ghost predicate InsertedInto(p: Lists, p': Lists, tx: Tx) {
    forall a :: ItemsOf(p', a) == if a == tx.sender then ItemsOf(p, a)[tx.nonce := tx] else ItemsOf(p, a)
  }

  lemma InsertsOne(p: Lists, tx: Tx, l: ListState)
    requires tx.cost.Some? && l.items == ItemsOf(p, tx.sender)
    ensures InsertedInto(p, p[tx.sender := Added(l, tx)], tx)
  {
  }

  /** A full pool makes room; else nothing changes. */
  ghost predicate RoomMade(c: Contents, c': Contents, cfg: Config) {
    var ok :=
      if !Overflows(c.all, cfg) then c' == c
      else
        && c'.locals == c.locals && c'.all <= c.all
        && DropsCheapest(c.all, c'.all, c.locals) && MakesRoom(c.all, c'.all, c.locals, cfg);
    ok
  }

  /** The transaction that has the sender and nonce of `tx`, as a set. */
  ghost function PriorOf(p: Lists, tx: Tx): set<Tx> {
    if Taken(p, tx.sender, tx.nonce) then {p[tx.sender].items[tx.nonce]} else {}
  }

  /** An accepted transaction replaces the pending one with its nonce, or else goes into the queue, where it may replace
      one too; a local one makes its sender local there. */
  ghost predicate Stored(c: Contents, c': Contents, tx: Tx, local: bool, replaced: bool) {
    var p, q := c.ranks.pending, c.ranks.queue;
    && c'.ranks.virtual == c.ranks.virtual
    && (if Taken(p, tx.sender, tx.nonce) then
          && replaced && InsertedInto(p, c'.ranks.pending, tx) && c'.ranks.queue == q
          && c'.locals == c.locals && c'.all == c.all - PriorOf(p, tx) + {tx}
        else
          && replaced == Taken(q, tx.sender, tx.nonce) && InsertedInto(q, c'.ranks.queue, tx) && c'.ranks.pending == p
          && c'.locals == (if local then c.locals + {tx.sender} else c.locals)
          && c'.all == c.all - PriorOf(q, tx) + {tx})
  }

  /** Stored if it is accepted where it belongs; else nothing changes, except that an empty list may appear. */
  ghost predicate Settles(c: Contents, c': Contents, tx: Tx, local: bool, cfg: Config, replaced: bool,
                          err: Option<PoolError>) {
    var ok :=
      if Accepts(SlotList(c.ranks.pending, c.ranks.queue, tx), tx, cfg.priceBump)
      then err == None && Stored(c, c', tx, local, replaced)
      else
        && err == Some(ReplaceUnderpriced) && !replaced && c'.all == c.all && c'.locals == c.locals
        && c'.ranks.pending == c.ranks.pending && c'.ranks.virtual == c.ranks.virtual
        && forall a :: ItemsOf(c'.ranks.queue, a) == ItemsOf(c.ranks.queue, a);
    ok
  }

  /** An underpriced transaction changes nothing; for any other room is made, and then it is stored or refused. */
  ghost predicate Places(c: Contents, c': Contents, tx: Tx, local: bool, cfg: Config, replaced: bool,
                         err: Option<PoolError>) {
    var ok :=
      if Overflows(c.all, cfg) && !local && TooCheap(tx, c.all, c.locals)
      then err == Some(Underpriced) && !replaced && c' == c
      else exists mid :: RoomMade(c, mid, cfg) && Settles(mid, c', tx, local, cfg, replaced, err);
    ok
  }

  lemma SettlesPending(c: Contents, c': Contents, tx: Tx, local: bool, cfg: Config, inserted: bool)
    requires Taken(c.ranks.pending, tx.sender, tx.nonce) && tx.cost.Some?
    requires c' == c.(ranks := c.ranks.(pending := c'.ranks.pending), all := c'.all)
    requires inserted == Outbids(c.ranks.pending[tx.sender].items[tx.nonce], tx, cfg.priceBump)
    requires inserted ==>
      InsertedInto(c.ranks.pending, c'.ranks.pending, tx) && c'.all == c.all - PriorOf(c.ranks.pending, tx) + {tx}
    requires !inserted ==> c' == c
    ensures Settles(c, c', tx, local, cfg, inserted, if inserted then None else Some(ReplaceUnderpriced))
  {
  }

  lemma SettlesQueued(c: Contents, c': Contents, tx: Tx, local: bool, cfg: Config, inserted: bool, replaced: bool)
    requires !Taken(c.ranks.pending, tx.sender, tx.nonce) && tx !in PriorOf(c.ranks.queue, tx)
    requires c' == Contents(c.ranks.(queue := c'.ranks.queue), c'.all,
                            if inserted && local then c.locals + {tx.sender} else c.locals)
    requires inserted == Accepts(ListOf(c.ranks.queue, tx.sender, false), tx, cfg.priceBump)
    requires inserted ==>
      && InsertedInto(c.ranks.queue, c'.ranks.queue, tx) && replaced == Taken(c.ranks.queue, tx.sender, tx.nonce)
      && c'.all == c.all + {tx} - PriorOf(c.ranks.queue, tx)
    requires !inserted ==>
      c'.all == c.all && forall a :: ItemsOf(c'.ranks.queue, a) == ItemsOf(c.ranks.queue, a)
    ensures Settles(c, c', tx, local, cfg, replaced && inserted,
                    if inserted then None else Some(ReplaceUnderpriced))
  {
    assert c.all + {tx} - PriorOf(c.ranks.queue, tx) == c.all - PriorOf(c.ranks.queue, tx) + {tx};
  }

  /** A transaction is accepted exactly when it is known afterwards but was not before; one that is not accepted leaves
      what is known as it is, unless room was made for it. */
  lemma AddsMeans(c: Contents, c': Contents, tx: Tx, local: bool, t: Terms, replaced: bool, err: Option<PoolError>)
    requires Adds(c, c', tx, local, t, replaced, err)
    ensures err == None <==> tx !in c.all && tx in c'.all
    ensures err.Some? ==> !replaced && (tx in c'.all <==> tx in c.all) && (!Overflows(c.all, t.cfg) ==> c'.all == c.all)
    ensures err == None ==> Admissible(tx, local, t, c.locals)
  {
  }

  /** What adding one transaction does: a known and an inadmissible one change nothing. */
  ghost predicate Adds(c: Contents, c': Contents, tx: Tx, local: bool, t: Terms, replaced: bool,
                       err: Option<PoolError>) {
    var ok :=
      if tx in c.all then err == Some(KnownTransaction) && !replaced && c' == c
      else if !Admissible(tx, local, t, c.locals) then err == Some(Invalid) && !replaced && c' == c
      else Places(c, c', tx, local, t.cfg, replaced, err);
    ok
  }

  class TxPool {
    const cfg: Config
    const all: TxLookup
    const priced: TxPricedList
    var chain: Chain
    var pending: Lists
    var queue: Lists
    var virtual: map<Address, nat>
    var locals: set<Address>
    var gasPrice: int

    /** The pool's structures agree, apart from the `loose` transactions a step has in hand. */
    ghost predicate Sound(loose: set<Tx>)
      reads this, all, priced
    {
      var ok :=
        && Sanitized(cfg) && priced.all == all && priced.Valid()
        && Consistent(pending, queue, all.txs, loose);
      ok
    }

    ghost function Now(): Ranks
      reads this
    {
      Ranks(pending, queue, virtual)
    }

    ghost function Whole(): Contents
      reads this, all
    {
      Contents(Now(), all.txs, locals)
    }

    ghost function TermsOf(checks: Tx -> bool): Terms
      reads this
    {
      Terms(chain, gasPrice, cfg, checks)
    }

    /** What holds between operations. */
    ghost predicate Valid()
      reads this, all, priced
    {
      var ok :=
        Sound({}) && NoEmpty(pending) && priced.taken == [];
      ok
    }

    constructor (config: Config, locals: set<Address>, chain: Chain)
      ensures Valid() && cfg == Sanitize(config) && fresh(all) && fresh(priced)
      ensures this.locals == locals && this.chain == chain && pending == map[] && queue == map[] && virtual == map[]
      ensures NoncesInStep()
    {
      var conf := Sanitize(config);
      var lookup := new TxLookup();
      cfg, all, this.chain, this.locals := conf, lookup, chain, locals;
      priced := new TxPricedList(lookup);
      pending, queue, virtual := map[], map[], map[];
      gasPrice := conf.priceLimit;
    }

    /** Drops a transaction from the lookup and tells the price list. */
    method Forget(tx: Tx)
      requires priced.all == all && priced.Valid() && priced.taken == []
      modifies all, priced
      ensures all.txs == old(all.txs) - {tx}
      ensures priced.Valid() && priced.taken == [] && 3 * |priced.items| <= 4 * |all.txs|
    {
      assert tx in all.txs ==> all.txs == (all.txs - {tx}) + {tx};
      assert tx !in all.txs ==> all.txs - {tx} == all.txs;
      all.txs := all.txs - {tx};
      priced.Removed();
    }

    /** Drops transactions that a list gave up, in any order. */
    method ForgetAll(gone: NonceMap)
      requires priced.all == all && priced.Valid() && priced.taken == []
      requires Keyed(gone) && Txs(gone) <= all.txs
      modifies all, priced
      ensures all.txs == old(all.txs) - Txs(gone)
      ensures priced.Valid() && priced.taken == []
    {
      var keys := gone.Keys;
      while keys != {}
        invariant keys <= gone.Keys && priced.Valid() && priced.taken == []
        invariant forall tx :: tx in all.txs <==>
          tx in old(all.txs) && !(tx.nonce in gone && gone[tx.nonce] == tx && tx.nonce !in keys)
        decreases keys
      {
        var n :| n in keys;
        assert gone[n] in Txs(gone);
        Forget(gone[n]);
        keys := keys - {n};
      }
    }

    /** Makes a transaction known, unless it already is. */
    method Track(tx: Tx)
      requires priced.all == all && priced.Valid()
      modifies all, priced
      ensures all.txs == old(all.txs) + {tx} && priced.Valid() && priced.taken == old(priced.taken)
    {
      if tx in all.txs { assert all.txs + {tx} == all.txs; return; }
      all.txs := all.txs + {tx};
      assert all.txs - {tx} == old(all.txs);
      priced.Put(tx);
    }

    /** enqueueTx: puts a transaction into its sender's queue, perhaps replacing a cheaper one. */
    method EnqueueTx(tx: Tx) returns (inserted: bool, replaced: bool)
      requires priced.all == all && priced.Valid()
      requires Taken(queue, tx.sender, tx.nonce) ==> priced.taken == []
      modifies this`queue, all, priced
      ensures priced.Valid() && priced.taken == old(priced.taken)
      ensures inserted == Accepts(ListOf(old(queue), tx.sender, false), tx, cfg.priceBump)
      ensures !inserted ==> queue == old(queue)[tx.sender := ListOf(old(queue), tx.sender, false)]
      ensures !inserted ==> all.txs == old(all.txs) && !replaced
      ensures inserted ==>
        && queue == old(queue)[tx.sender := Added(ListOf(old(queue), tx.sender, false), tx)]
        && replaced == Taken(old(queue), tx.sender, tx.nonce)
        && all.txs == old(all.txs) + {tx} - (if replaced then {old(queue)[tx.sender].items[tx.nonce]} else {})
    {
      if tx.sender !in queue {
        queue := queue[tx.sender := Fresh(false)];
      }
      var l := queue[tx.sender];
      inserted := Accepts(l, tx, cfg.priceBump);
      replaced := inserted && tx.nonce in l.items;
      if !inserted { return; }
      queue := queue[tx.sender := Added(l, tx)];
      if replaced {
        Forget(l.items[tx.nonce]);
      }
      Track(tx);
    }

    /** promoteTx: puts a transaction into its sender's pending list. */
    method PromoteTx(addr: Address, tx: Tx) returns (inserted: bool)
      requires priced.all == all && priced.Valid() && priced.taken == [] && tx.sender == addr
      modifies this`pending, this`virtual, all, priced
      ensures priced.Valid() && priced.taken == []
      ensures inserted == Accepts(ListOf(old(pending), addr, true), tx, cfg.priceBump)
      ensures !inserted ==> all.txs == old(all.txs) - {tx} && virtual == old(virtual)
      ensures !inserted ==> pending == old(pending)[addr := ListOf(old(pending), addr, true)]
      ensures inserted ==>
        && pending == old(pending)[addr := Added(ListOf(old(pending), addr, true), tx)]
        && all.txs == old(all.txs) + {tx}
                      - (if Taken(old(pending), addr, tx.nonce) then {old(pending)[addr].items[tx.nonce]} else {})
        && virtual == old(virtual)[addr := tx.nonce + 1]
    {
      if addr !in pending {
        pending := pending[addr := Fresh(true)];
      }
      var l := pending[addr];
      inserted := Accepts(l, tx, cfg.priceBump);
      if !inserted {
        Forget(tx);
        return;
      }
      pending := pending[addr := Added(l, tx)];
      Supersede(if tx.nonce in l.items then Some(l.items[tx.nonce]) else None, tx);
      virtual := virtual[addr := tx.nonce + 1];
    }

    /** Forgets the transaction replaced, if any, and makes the new one known, unless it already is. */
    method Supersede(prior: Option<Tx>, tx: Tx)
      requires priced.all == all && priced.Valid() && priced.taken == [] && prior != Some(tx)
      modifies all, priced
      ensures priced.Valid() && priced.taken == []
      ensures all.txs == old(all.txs) + {tx} - if prior.Some? then {prior.value} else {}
    {
      if prior.Some? { Forget(prior.value); }
      Track(tx);
    }

    /** Sends loose transactions back to the queue, in any order: none is lost, none collides. */
    method RequeueAll(loose: NonceMap)
      requires Keyed(loose) && Sound(Txs(loose))
      modifies this`queue, all, priced
      ensures Sound({}) && all.txs == old(all.txs) && priced.taken == old(priced.taken)
    {
      var left := loose;
      while left.Keys != {}
        invariant Keyed(left) && Sound(Txs(left))
        invariant all.txs == old(all.txs) && priced.taken == old(priced.taken)
        decreases left.Keys
      {
        var n :| n in left.Keys;
        RequeueOne(left, n);
        left := left - {n};
      }
      assert Txs(left) == {};
    }

    method RequeueOne(left: NonceMap, n: nat)
      requires Keyed(left) && n in left && Sound(Txs(left))
      modifies this`queue, all, priced
      ensures Sound(Txs(left - {n})) && all.txs == old(all.txs) && priced.taken == old(priced.taken)
    {
      var tx := left[n];
      assert tx in Txs(left);
      Requeue(pending, queue, all.txs, Txs(left), tx, cfg.priceBump);
      WithoutOne(left, n);
      var _, _ := EnqueueTx(tx);
      assert all.txs == old(all.txs);
    }

    /** Every account's pending nonces run from its state nonce up to its virtual nonce. */
    ghost predicate NoncesInStep()
      reads this
    {
      InStep(pending, virtual, chain.nonce)
    }

    function VirtualNonce(a: Address): nat
      reads this
    {
      NextNonce(virtual, chain.nonce, a)
    }

    /** Lowers the virtual nonce of `a` to `nonce` if it lies above. */
    method LowerNonce(a: Address, nonce: nat)
      modifies this`virtual
      ensures virtual == Lowered(old(virtual), chain.nonce, a, nonce)
      ensures old(Valid()) ==> Valid()
    {
      if VirtualNonce(a) > nonce {
        virtual := virtual[a := nonce];
      }
    }

    /** Takes a pending transaction, already unknown, out of its list and sends its successors back. */
    method UnpendTx(tx: Tx)
      requires Holds(pending, tx) && tx !in all.txs && NoEmpty(pending)
      requires Sanitized(cfg) && priced.all == all && priced.Valid() && Consistent(pending, queue, all.txs + {tx}, {})
      modifies this`pending, this`queue, this`virtual, all, priced
      ensures Sound({}) && NoEmpty(pending) && all.txs == old(all.txs) && priced.taken == old(priced.taken)
      ensures pending == PutList(old(pending), tx.sender, WithoutNonce(old(pending)[tx.sender], tx.nonce))
      ensures virtual == Lowered(old(virtual), chain.nonce, tx.sender, tx.nonce)
    {
      var l := pending[tx.sender];
      Unpend(pending, queue, all.txs + {tx}, tx, l);
      PutListNoEmpty(pending, tx.sender, WithoutNonce(l, tx.nonce));
      assert all.txs + {tx} - {tx} == all.txs;
      pending := PutList(pending, tx.sender, WithoutNonce(l, tx.nonce));
      RequeueAll(Above(l, tx.nonce));
      LowerNonce(tx.sender, tx.nonce);
    }

    /** Drops a transaction from the lookup, with or without telling the price list. */
    method DropKnown(tx: Tx, outofbound: bool)
      requires priced.all == all && priced.Valid() && tx in all.txs
      requires if outofbound then priced.taken == [] else priced.taken != [] && priced.taken[0] == tx
      modifies all, priced
      ensures all.txs == old(all.txs) - {tx} && priced.Valid()
      ensures priced.taken == if outofbound then [] else old(priced.taken)[1..]
    {
      assert all.txs == (all.txs - {tx}) + {tx};
      all.txs := all.txs - {tx};
      if outofbound {
        priced.Removed();
      } else {
        priced.taken := priced.taken[1..];
      }
    }

    /** removeTx: removes a transaction wherever it is; pending successors go back to the queue. */
    method RemoveTx(tx: Tx, outofbound: bool)
      requires Sound({}) && NoEmpty(pending)
      requires if outofbound then priced.taken == [] else priced.taken != [] && priced.taken[0] == tx
      modifies this`pending, this`queue, this`virtual, all, priced
      ensures Sound({}) && NoEmpty(pending) && all.txs == old(all.txs) - {tx}
      ensures priced.taken == if outofbound then [] else old(priced.taken)[1..]
      ensures old(NoncesInStep()) ==> NoncesInStep()
      ensures old(Holds(pending, tx)) ==> Unpended(old(pending), old(virtual), tx, pending, virtual, chain.nonce)
      ensures old(Holds(queue, tx)) ==>
        && pending == old(pending) && virtual == old(virtual)
        && queue == PutList(old(queue), tx.sender, WithoutNonce(old(queue)[tx.sender], tx.nonce))
    {
      if tx !in all.txs {
        if !outofbound {
          priced.taken := priced.taken[1..];
        }
        return;
      }
      ghost var known := all.txs;
      DropKnown(tx, outofbound);
      assert all.txs + {tx} == known;
      TakeOut(tx);
    }

    /** Takes a transaction, already unknown, out of whichever list holds it. */
    method TakeOut(tx: Tx)
      requires tx !in all.txs && NoEmpty(pending)
      requires Sanitized(cfg) && priced.all == all && priced.Valid() && Consistent(pending, queue, all.txs + {tx}, {})
      modifies this`pending, this`queue, this`virtual, all, priced
      ensures Sound({}) && NoEmpty(pending) && all.txs == old(all.txs) && priced.taken == old(priced.taken)
      ensures old(NoncesInStep()) ==> NoncesInStep()
      ensures old(Holds(pending, tx)) ==> Unpended(old(pending), old(virtual), tx, pending, virtual, chain.nonce)
      ensures old(Holds(queue, tx)) ==>
        && pending == old(pending) && virtual == old(virtual)
        && queue == PutList(old(queue), tx.sender, WithoutNonce(old(queue)[tx.sender], tx.nonce))
    {
      WhereIs(pending, queue, all.txs + {tx}, tx);
      if Taken(pending, tx.sender, tx.nonce) {
        if NoncesInStep() { UnpendInStep(pending, virtual, chain.nonce, tx.sender, tx.nonce); }
        UnpendTx(tx);
      } else {
        Unqueue(pending, queue, all.txs + {tx}, tx);
        assert all.txs + {tx} - {tx} == all.txs;
        queue := PutList(queue, tx.sender, WithoutNonce(queue[tx.sender], tx.nonce));
      }
    }

    /** Replaces a queue list by a part of it and forgets the rest. */
    method ShedQueued(addr: Address, l': ListState, gone: NonceMap)
      requires Sound({}) && priced.taken == [] && addr in queue && Sheds(addr, queue[addr], l', gone, false)
      modifies this`queue, all, priced
      ensures Sound({}) && priced.taken == [] && queue == old(queue)[addr := l']
      ensures all.txs == old(all.txs) - Txs(gone)
    {
      QueueSheds(pending, queue, all.txs, addr, l', gone);
      queue := queue[addr := l'];
      ForgetAll(gone);
    }

    method ShedPending(addr: Address, l': ListState, gone: NonceMap)
      requires Sound({}) && priced.taken == [] && addr in pending && Sheds(addr, pending[addr], l', gone, true)
      modifies this`pending, all, priced
      ensures Sound({}) && priced.taken == [] && pending == old(pending)[addr := l']
      ensures all.txs == old(all.txs) - Txs(gone)
    {
      PendingSheds(pending, queue, all.txs, addr, l', gone);
      pending := pending[addr := l'];
      ForgetAll(gone);
    }

    /** Promotes loose transactions of `addr` in nonce order. */
    method PromoteRun(addr: Address, ready: NonceMap, ghost end: nat)
      requires Sound(Txs(ready)) && Keyed(ready) && NoEmpty(pending) && priced.taken == []
      requires forall n :: n in ready ==> ready[n].sender == addr
      modifies this`pending, this`virtual, all, priced
      ensures Sound({}) && NoEmpty(pending) && priced.taken == [] && all.txs == old(all.txs)
      ensures Gains(old(pending), pending, addr, ready) && virtual == Advanced(old(virtual), addr, ready)
      ensures old(NoncesInStep() && Interval(ready, VirtualNonce(addr), end)) ==> NoncesInStep()
    {
      var left := ready;
      ghost var p0, v0 := pending, virtual;
      while left.Keys != {}
        invariant Sound(Txs(left)) && Keyed(left) && NoEmpty(pending) && priced.taken == [] && all.txs == old(all.txs)
        invariant Gaining(p0, pending, addr, ready, left) && Advancing(v0, virtual, addr, ready, left)
        invariant forall n :: n in left ==> left[n].sender == addr
        invariant old(NoncesInStep() && Interval(ready, VirtualNonce(addr), end)) ==>
          NoncesInStep() && Interval(left, VirtualNonce(addr), end)
        decreases left.Keys
      {
        var n := Min(left.Keys);
        PromoteNext(addr, left, n, end, p0, v0, ready);
        left := left - {n};
      }
      assert Txs(left) == {};
      GainAll(p0, pending, addr, ready, left);
      AdvanceAll(v0, virtual, addr, ready, left);
    }

    method PromoteNext(addr: Address, left: NonceMap, n: nat, ghost end: nat, ghost p0: Lists, ghost v0: Nonces,
                       ghost ready: NonceMap)
      requires Sound(Txs(left)) && Keyed(left) && NoEmpty(pending) && priced.taken == []
      requires n in left && left[n].sender == addr && forall k :: k in left ==> n <= k
      requires Gaining(p0, pending, addr, ready, left) && Advancing(v0, virtual, addr, ready, left)
      modifies this`pending, this`virtual, all, priced
      ensures Sound(Txs(left - {n})) && NoEmpty(pending) && priced.taken == [] && all.txs == old(all.txs)
      ensures Gaining(p0, pending, addr, ready, left - {n}) && Advancing(v0, virtual, addr, ready, left - {n})
      ensures old(NoncesInStep() && Interval(left, VirtualNonce(addr), end)) ==>
        NoncesInStep() && Interval(left - {n}, VirtualNonce(addr), end)
    {
      ghost var p1 := pending;
      AdvanceOne(v0, virtual, addr, ready, left, n);
      PromoteOne(addr, left, n, end);
      GainOne(p0, p1, pending, addr, ready, left, n);
    }

    method PromoteOne(addr: Address, left: NonceMap, n: nat, ghost end: nat)
      requires Sound(Txs(left)) && Keyed(left) && NoEmpty(pending) && priced.taken == []
      requires n in left && left[n].sender == addr && forall k :: k in left ==> n <= k
      modifies this`pending, this`virtual, all, priced
      ensures Sound(Txs(left - {n})) && NoEmpty(pending) && priced.taken == [] && all.txs == old(all.txs)
      ensures pending == old(pending)[addr := Added(ListOf(old(pending), addr, true), left[n])]
      ensures virtual == old(virtual)[addr := n + 1]
      ensures old(NoncesInStep() && Interval(left, VirtualNonce(addr), end)) ==>
        NoncesInStep() && Interval(left - {n}, VirtualNonce(addr), end)
    {
      var tx := left[n];
      assert tx in Txs(left);
      WithoutOne(left, n);
      if NoncesInStep() && Interval(left, VirtualNonce(addr), end) {
        IntervalMin(left, VirtualNonce(addr), end, n);
        PromoteInStep(pending, virtual, chain.nonce, tx, ListOf(pending, addr, true));
      }
      PromoteLoose(tx, Txs(left));
    }

    method PromoteLoose(tx: Tx, ghost loose: set<Tx>)
      requires Sound(loose) && tx in loose && NoEmpty(pending) && priced.taken == [] && tx.cost.Some?
      modifies this`pending, this`virtual, all, priced
      ensures Sound(loose - {tx}) && NoEmpty(pending) && priced.taken == [] && all.txs == old(all.txs)
      ensures pending == old(pending)[tx.sender := Added(ListOf(old(pending), tx.sender, true), tx)]
      ensures virtual == old(virtual)[tx.sender := tx.nonce + 1]
    {
      Promotion(pending, queue, all.txs, loose, tx, cfg.priceBump);
      AddNoEmpty(pending, tx.sender, Added(ListOf(pending, tx.sender, true), tx));
      ghost var known := all.txs;
      var _ := PromoteTx(tx.sender, tx);
      assert known + {tx} == known;
    }

    /** Drops queued transactions of `addr` whose nonce the chain has passed. */
    method ForwardQueue(addr: Address)
      requires Valid() && addr in queue
      modifies this`queue, all, priced
      ensures Valid() && queue == old(queue)[addr := Unpassed(old(queue)[addr], chain.nonce(addr))]
      ensures all.txs == old(all.txs) - Txs(Below(old(queue)[addr].items, chain.nonce(addr)))
    {
      var l, nonce := queue[addr], chain.nonce(addr);
      assert KeptAt(queue, addr, false);
      ForwardSheds(addr, l, nonce, false);
      ShedQueued(addr, l.(items := AtLeast(l.items, nonce)), Below(l.items, nonce));
    }

    /** Drops queued transactions of `addr` that can no longer be paid for. */
    method FilterQueue(addr: Address)
      requires Valid() && addr in queue
      modifies this`queue, all, priced
      ensures Valid() && queue == old(queue)[addr := AfterFilter(old(queue)[addr], LimitsFor(chain, addr), 0)]
      ensures all.txs == old(all.txs) - Txs(Removed(old(queue)[addr], LimitsFor(chain, addr), 0))
    {
      var l, lim := queue[addr], LimitsFor(chain, addr);
      assert KeptAt(queue, addr, false);
      FilterSheds(addr, l, lim, 0);
      ShedQueued(addr, AfterFilter(l, lim, 0), Removed(l, lim, 0));
    }

    /** Moves the executable run of `addr` from its queue to its pending list. */
    method PromoteReady(addr: Address)
      requires Valid() && addr in queue
      modifies this`pending, this`queue, this`virtual, all, priced
      ensures Valid() && all.txs == old(all.txs)
      ensures Readies(old(Now()), addr, old(queue)[addr], old(VirtualNonce(addr)), Now())
      ensures old(NoncesInStep() && forall n :: n in queue[addr].items ==> chain.nonce(addr) <= n) ==> NoncesInStep()
    {
      var l, next := queue[addr], VirtualNonce(addr);
      assert KeptAt(queue, addr, false);
      ghost var end := 0;
      if NoncesInStep() && forall n :: n in l.items ==> chain.nonce(addr) <= n {
        end := ReadyInStep(pending, queue, all.txs, virtual, chain.nonce, addr);
      }
      ReadySheds(addr, l, next);
      var rest, ready := l.(items := ReadyRest(l.items, next)), ReadyPart(l.items, next);
      QueueSheds(pending, queue, all.txs, addr, rest, ready);
      queue := queue[addr := rest];
      PromoteRun(addr, ready, end);
    }

    /** Drops the highest nonces of a queue over its limit. */
    method CapQueue(addr: Address)
      requires Sound({}) && priced.taken == [] && addr in queue
      modifies this`queue, all, priced
      ensures Sound({}) && priced.taken == []
      ensures queue == old(queue)[addr := CappedTo(old(queue)[addr], cfg.accountQueue)]
    {
      var l := queue[addr];
      assert KeptAt(queue, addr, false);
      CapSheds(addr, l, cfg.accountQueue, false);
      ShedQueued(addr, l.(items := Capped(l.items, cfg.accountQueue)), Excess(l.items, cfg.accountQueue));
    }

    /** Caps the queue of a remote account, and deletes an empty queue entry. */
    method TrimQueue(addr: Address)
      requires Valid() && addr in queue
      modifies this`queue, all, priced
      ensures Valid() && queue == PutList(old(queue), addr, Trimmed(old(queue)[addr], addr in locals, cfg.accountQueue))
    {
      if addr !in locals { CapQueue(addr); }
      PruneQueued(pending, queue, all.txs, addr);
      queue := PutList(queue, addr, queue[addr]);
    }

    /** The loop body of promoteExecutables: exactly what is queued and ready becomes pending, and what stays queued is
        live. */
    method PromoteAccount(addr: Address)
      requires Valid()
      modifies this`pending, this`queue, this`virtual, all, priced
      ensures Valid() && (old(NoncesInStep()) ==> NoncesInStep())
      ensures PromotesOnly(old(Now()), Now(), chain, locals, cfg.accountQueue, addr)
    {
      ghost var r := Now();
      if addr !in queue {
        NoQueue(r, addr, chain.nonce, LimitsFor(chain, addr), addr in locals, cfg.accountQueue);
        return;
      }
      ghost var known := all.txs;
      PromoteListed(addr);
      PromotesMeans(r, addr, chain.nonce, LimitsFor(chain, addr), addr in locals, cfg.accountQueue, Now(), known);
      OthersHeld(r, addr, Live(r.queue[addr], chain.nonce(addr), LimitsFor(chain, addr)), chain.nonce, addr in locals,
                 cfg.accountQueue, Now());
    }

    /** For an account with a queue: the run that is ready moves, the rest is trimmed. */
    method PromoteListed(addr: Address)
      requires Valid() && addr in queue
      modifies this`pending, this`queue, this`virtual, all, priced
      ensures Valid() && (old(NoncesInStep()) ==> NoncesInStep())
      ensures Promotes(old(Now()), addr, Live(old(queue)[addr], chain.nonce(addr), LimitsFor(chain, addr)),
                       old(VirtualNonce(addr)), addr in locals, cfg.accountQueue, Now())
    {
      ghost var r, next := Now(), VirtualNonce(addr);
      CleanQueue(addr);
      ghost var l := queue[addr];
      PromoteLive(addr);
      PromotesOver(r, addr, l, next, addr in locals, cfg.accountQueue, Now());
    }

    /** Promotes what is ready from a queue without dead transactions, and caps the rest. */
    method PromoteLive(addr: Address)
      requires Valid() && addr in queue && forall n :: n in queue[addr].items ==> chain.nonce(addr) <= n
      modifies this`pending, this`queue, this`virtual, all, priced
      ensures Valid() && (old(NoncesInStep()) ==> NoncesInStep())
      ensures Promotes(old(Now()), addr, old(queue)[addr], old(VirtualNonce(addr)), addr in locals, cfg.accountQueue,
                       Now())
    {
      ghost var r, l, next := Now(), queue[addr], VirtualNonce(addr);
      PromoteReady(addr);
      ghost var r1 := Now();
      TrimQueue(addr);
      TrimsTo(r, addr, l, next, addr in locals, cfg.accountQueue, r1, Now());
    }

    /** Drops what is dead from the queue of `addr`. */
    method CleanQueue(addr: Address)
      requires Valid() && addr in queue
      modifies this`queue, all, priced
      ensures Valid() && queue == old(queue)[addr := Live(old(queue)[addr], chain.nonce(addr), LimitsFor(chain, addr))]
      ensures forall n :: n in queue[addr].items ==> chain.nonce(addr) <= n
    {
      ghost var q, l := queue, Unpassed(queue[addr], chain.nonce(addr));
      LiveAbove(queue[addr], chain.nonce(addr), LimitsFor(chain, addr));
      ForwardQueue(addr);
      assert queue[addr] == l;
      FilterQueue(addr);
      PutTwice(q, addr, l, AfterFilter(l, LimitsFor(chain, addr), 0));
    }

    /** Drops dead pending transactions of `addr` and sends the ones above a dropped one back to the queue. */
    method FilterPending(addr: Address, bn: nat)
      requires Sound({}) && priced.taken == [] && addr in pending
      modifies this`pending, this`queue, all, priced
      ensures Sound({}) && priced.taken == []
      ensures pending == old(pending)[addr := AfterFilter(old(pending)[addr], LimitsFor(chain, addr), bn)]
      ensures all.txs == old(all.txs) - Txs(Removed(old(pending)[addr], LimitsFor(chain, addr), bn))
    {
      var l, lim := pending[addr], LimitsFor(chain, addr);
      FilterDemotes(pending, queue, all.txs, addr, lim, bn);
      pending := pending[addr := AfterFilter(l, lim, bn)];
      ForgetAll(Removed(l, lim, bn));
      RequeueAll(Invalidated(l, lim, bn));
    }

    /** Drops pending transactions of `addr` whose nonce the chain has passed. */
    method ForwardPending(addr: Address)
      requires Sound({}) && priced.taken == [] && addr in pending
      modifies this`pending, all, priced
      ensures Sound({}) && priced.taken == []
      ensures pending == old(pending)[addr := Unpassed(old(pending)[addr], chain.nonce(addr))]
      ensures all.txs == old(all.txs) - Txs(Below(old(pending)[addr].items, chain.nonce(addr)))
    {
      var l, nonce := pending[addr], chain.nonce(addr);
      assert KeptAt(pending, addr, true);
      ForwardSheds(addr, l, nonce, true);
      ShedPending(addr, l.(items := AtLeast(l.items, nonce)), Below(l.items, nonce));
    }

    /** Sends the whole pending list of `addr` back to the queue. */
    method DemoteAll(addr: Address)
      requires Sound({}) && priced.taken == [] && addr in pending
      modifies this`pending, this`queue, all, priced
      ensures Sound({}) && priced.taken == [] && all.txs == old(all.txs)
      ensures addr in pending && pending[addr].items.Keys == {}
      ensures pending == old(pending)[addr := pending[addr]]
    {
      var l := pending[addr];
      assert KeptAt(pending, addr, true);
      CapSheds(addr, l, 0, true);
      var rest, gone := l.(items := Capped(l.items, 0)), Excess(l.items, 0);
      PendingSheds(pending, queue, all.txs, addr, rest, gone);
      pending := pending[addr := rest];
      RequeueAll(gone);
    }

    /** Drops what is too old or can no longer run from the pending list of `addr`. */
    method SweepPending(addr: Address, bn: nat)
      requires Sound({}) && priced.taken == [] && addr in pending
      modifies this`pending, this`queue, all, priced
      ensures Sound({}) && priced.taken == []
      ensures pending == old(pending)[addr := Demoted(old(pending)[addr], chain, addr, bn)]
      ensures all.txs == old(all.txs) - DeadOf(old(pending)[addr], chain, addr, bn)
    {
      ghost var p, known, l := pending, all.txs, pending[addr];
      ghost var live := Unpassed(l, chain.nonce(addr));
      ForwardPending(addr);
      assert pending[addr] == live;
      FilterPending(addr, bn);
      MinusTwice(known, Txs(Below(l.items, chain.nonce(addr))), Txs(Removed(live, LimitsFor(chain, addr), bn)));
      PutTwice(p, addr, live, AfterFilter(live, LimitsFor(chain, addr), bn));
    }

    /** If the state nonce is missing from a non-empty pending list, sends all of it back; then deletes an
        empty list.  `gap` tells whether the "gap in front" branch ran. */
    method CloseGap(addr: Address) returns (gap: bool)
      requires Sound({}) && priced.taken == [] && addr in pending
      modifies this`pending, this`queue, all, priced
      ensures Sound({}) && priced.taken == [] && all.txs == old(all.txs)
      ensures gap == (old(pending)[addr].items.Keys != {} && chain.nonce(addr) !in old(pending)[addr].items)
      ensures pending == if gap then old(pending) - {addr} else PutList(old(pending), addr, old(pending)[addr])
    {
      gap := pending[addr].items.Keys != {} && chain.nonce(addr) !in pending[addr].items;
      if gap {
        DemoteAll(addr);
      }
      PrunePending(pending, queue, all.txs, addr);
      pending := PutList(pending, addr, pending[addr]);
    }

    /** The loop body of demoteUnexecutables. */
    method DemoteAccount(addr: Address, bn: nat) returns (gap: bool)
      requires Sound({}) && priced.taken == [] && addr in pending
      modifies this`pending, this`queue, all, priced
      ensures Sound({}) && priced.taken == []
      ensures pending - {addr} == old(pending) - {addr}
      ensures gap == Gapped(Demoted(old(pending)[addr], chain, addr, bn), chain.nonce(addr))
      ensures StaysAs(pending, addr, Demoted(old(pending)[addr], chain, addr, bn), chain.nonce(addr))
      ensures all.txs == old(all.txs) - DeadOf(old(pending)[addr], chain, addr, bn)
      ensures addr in pending ==> chain.nonce(addr) in pending[addr].items
      ensures StartsBy(old(pending)[addr].items, chain.nonce(addr)) ==>
        !gap && (addr in pending ==> RunFrom(pending[addr].items, chain.nonce(addr)))
    {
      ghost var p, d := pending, Demoted(pending[addr], chain, addr, bn);
      assert KeptAt(pending, addr, true);
      if StartsBy(pending[addr].items, chain.nonce(addr)) { DemotedStarts(pending[addr], chain, addr, bn); }
      SweepPending(addr, bn);
      gap := FinishDemotion(addr, p, d);
    }

    /** Closes a gap in front of a list that has been swept. */
    method FinishDemotion(addr: Address, ghost p: Lists, ghost d: ListState) returns (gap: bool)
      requires Sound({}) && priced.taken == [] && addr in pending && pending == p[addr := d]
      modifies this`pending, this`queue, all, priced
      ensures Sound({}) && priced.taken == [] && all.txs == old(all.txs)
      ensures pending - {addr} == p - {addr} && gap == Gapped(d, chain.nonce(addr))
      ensures StaysAs(pending, addr, d, chain.nonce(addr))
    {
      gap := CloseGap(addr);
      assert pending - {addr} == p - {addr};
    }

    /** list.Cap(list.Len() - 1) on a pending list, and forgetting the dropped transaction. */
    method CapPending(addr: Address)
      requires Valid() && addr in pending && |pending[addr].items| >= 2
      modifies this`pending, all, priced
      ensures Valid() && old(pending)[addr].items.Keys != {}
      ensures pending == old(pending)[addr := Topless(old(pending)[addr])]
    {
      var l := pending[addr];
      assert KeptAt(pending, addr, true);
      var l', gone := CapHighest(l);
      HighestSheds(addr, l, l', gone, true);
      Shrinks(l.items, Max(l.items.Keys));
      AddNoEmpty(pending, addr, l');
      ShedPending(addr, l', gone);
    }

    method CapOne(addr: Address)
      requires Valid() && addr in pending && |pending[addr].items| >= 2
      modifies this`pending, this`virtual, all, priced
      ensures Valid() && old(pending)[addr].items.Keys != {}
      ensures pending == old(pending)[addr := Topless(old(pending)[addr])]
      ensures virtual == Lowered(old(virtual), chain.nonce, addr, Max(old(pending)[addr].items.Keys))
      ensures old(NoncesInStep()) ==> NoncesInStep()
    {
      var l := pending[addr];
      ghost var was := pending;
      CapPending(addr);
      LowerNonce(addr, Max(l.items.Keys));
      if old(NoncesInStep()) { CapInStep(was, old(virtual), chain.nonce, addr, Topless(l)); }
    }

    /** The pool while it is being equalised: the pending lists of `r0` cut to lengths `lens`, and no
        virtual nonce above that of `r0`; a `steady` pool also has its nonces in step. */
    ghost predicate Levelled(r0: Ranks, lens: Lengths, steady: bool)
      reads this, all, priced
    {
      var ok := Valid() && Cut(r0.pending, pending, lens) && Lowers(r0.virtual, virtual, chain.nonce)
                && (steady ==> NoncesInStep());
      ok
    }

    method CapCut(addr: Address, ghost r0: Ranks, ghost now: Lengths, ghost steady: bool)
      requires Levelled(r0, now, steady) && addr in now && now[addr] >= 2
      modifies this`pending, this`virtual, all, priced
      ensures Levelled(r0, now[addr := now[addr] - 1], steady)
    {
      assert CutAt(r0.pending, pending, now, addr);
      ghost var was, v := pending, virtual;
      CapOne(addr);
      LoweredLowers(r0.virtual, v, chain.nonce, addr, Max(was[addr].items.Keys));
      CutOneMore(r0.pending, was, now, addr);
    }

    /** One pass of the equaliser: every account of `who` loses its highest transaction. */
    method LowerAll(who: seq<Address>, ghost r0: Ranks, ghost lens: Lengths, ghost steady: bool)
      requires Levelled(r0, lens, steady) && Lowerable(lens, who)
      modifies this`pending, this`virtual, all, priced
      ensures Levelled(r0, After(lens, who), steady)
    {
      ghost var now: Lengths := lens;
      assert who[0..] == who;
      for i := 0 to |who|
        invariant Levelled(r0, now, steady)
        invariant Lowerable(now, who[i..]) && After(now, who[i..]) == After(lens, who)
      {
        assert who[i..][1..] == who[i + 1..];
        CapCut(who[i], r0, now, steady);
        now := now[who[i] := now[who[i]] - 1];
      }
    }

    /** pool.pending[a].Len() for an account the equaliser looks at. */
    method LenOf(a: Address, ghost met: set<Address>, ghost next: Address, ghost count: nat,
                 ghost spammers: set<Address>, ghost r0: Ranks, ghost m: Lengths, ghost level: nat, ghost steady: bool)
      returns (len: nat)
      requires Levelled(r0, Level(m, locals, level), steady) && (a == next || a in met)
      requires Lowering(m, locals, cfg.accountSlots, cfg.globalSlots, met, next, spammers, level, count)
      ensures (a == next ==> len == m[next]) && (a in met ==> len == level)
    {
      assert LowerAt(m, locals, cfg.accountSlots, met, next, spammers, level, a);
      LoweringReads(m, locals, cfg.accountSlots, cfg.globalSlots, met, next, spammers, level, count);
      assert CutAt(r0.pending, pending, Level(m, locals, level), a);
      len := |pending[a].items|;
    }

    method LowerPass(who: seq<Address>, ghost met: set<Address>, next: Address, count: nat,
                     ghost spammers: set<Address>,
                     ghost r0: Ranks, ghost m: Lengths, ghost level: nat, ghost steady: bool)
      returns (count': nat)
      requires Levelled(r0, Level(m, locals, level), steady) && Enumerates(who, met) && cfg.accountSlots >= 1
      requires Lowering(m, locals, cfg.accountSlots, cfg.globalSlots, met, next, spammers, level, count)
      requires count > cfg.globalSlots && level > m[next]
      modifies this`pending, this`virtual, all, priced
      ensures Levelled(r0, Level(m, locals, level - 1), steady)
      ensures Lowering(m, locals, cfg.accountSlots, cfg.globalSlots, met, next, spammers, level - 1, count')
    {
      PassInOrder(m, locals, cfg.accountSlots, cfg.globalSlots, who, met, next, spammers, level, count);
      LowerAll(who, r0, Level(m, locals, level), steady);
      count' := count - |who|;
    }

    method LowerStep(who: seq<Address>, ghost met: set<Address>, next: Address, count: nat,
                     ghost spammers: set<Address>,
                     ghost r0: Ranks, ghost m: Lengths, ghost level: nat, ghost steady: bool)
      returns (count': nat, bar: nat, ghost level': nat)
      requires Levelled(r0, Level(m, locals, level), steady) && Enumerates(who, met) && who != []
      requires cfg.accountSlots >= 1
      requires Lowering(m, locals, cfg.accountSlots, cfg.globalSlots, met, next, spammers, level, count)
      requires count > cfg.globalSlots && level > m[next]
      modifies this`pending, this`virtual, all, priced
      ensures Levelled(r0, Level(m, locals, level'), steady) && bar == level' == level - 1
      ensures Lowering(m, locals, cfg.accountSlots, cfg.globalSlots, met, next, spammers, level', count')
    {
      level' := level - 1;
      count' := LowerPass(who, met, next, count, spammers, r0, m, level, steady);
      bar := LenOf(who[|who| - 1], met, next, count', spammers, r0, m, level', steady);
    }

    method BothLens(who: seq<Address>, ghost met: set<Address>, next: Address, ghost count: nat,
                    ghost spammers: set<Address>, ghost r0: Ranks, ghost m: Lengths, ghost level: nat,
                    ghost steady: bool)
      returns (threshold: nat, bar: nat)
      requires Levelled(r0, Level(m, locals, level), steady) && Enumerates(who, met) && who != []
      requires Lowering(m, locals, cfg.accountSlots, cfg.globalSlots, met, next, spammers, level, count)
      ensures threshold == m[next] && bar == level
    {
      threshold := LenOf(next, met, next, count, spammers, r0, m, level, steady);
      bar := LenOf(who[|who| - 1], met, next, count, spammers, r0, m, level, steady);
    }

    /** Lowers the offenders `who` towards `next`, pass by pass, until the pool fits or they reach it. */
    method LowerTowards(who: seq<Address>, ghost met: set<Address>, next: Address, count: nat, threshold: nat,
                        first: nat, ghost spammers: set<Address>,
                        ghost r0: Ranks, ghost m: Lengths, ghost level: nat, ghost steady: bool)
      returns (count': nat, ghost level': nat)
      requires Levelled(r0, Level(m, locals, level), steady) && Enumerates(who, met) && who != []
      requires cfg.accountSlots >= 1
      requires Lowering(m, locals, cfg.accountSlots, cfg.globalSlots, met, next, spammers, level, count)
      requires threshold == m[next] && first == level
      modifies this`pending, this`virtual, all, priced
      ensures Levelled(r0, Level(m, locals, level'), steady)
      ensures Lowering(m, locals, cfg.accountSlots, cfg.globalSlots, met, next, spammers, level', count')
      ensures count' <= cfg.globalSlots || level' <= m[next]
    {
      count', level' := count, level;
      var bar := first;
      while count' > cfg.globalSlots && bar > threshold
        invariant Levelled(r0, Level(m, locals, level'), steady)
        invariant Lowering(m, locals, cfg.accountSlots, cfg.globalSlots, met, next, spammers, level', count')
        invariant bar == level' && locals == old(locals)
        decreases level'
      {
        count', bar, level' := LowerStep(who, met, next, count', spammers, r0, m, level', steady);
      }
    }

    /** Meets the next offender: the first is only noted, later ones pull those before them down. */
    method Meet(offenders: seq<Address>, ghost met: set<Address>, next: Address, count: nat,
                ghost spammers: set<Address>,
                ghost floor: nat, ghost r0: Ranks, ghost m: Lengths, ghost level: nat, ghost steady: bool)
      returns (count': nat, ghost level': nat)
      requires Levelled(r0, Level(m, locals, level), steady) && Enumerates(offenders, met) && cfg.accountSlots >= 1
      requires Meeting(m, locals, cfg.accountSlots, cfg.globalSlots, met, spammers, floor, level, count)
      requires count > cfg.globalSlots
      requires next in spammers && next in m && forall a :: a in spammers ==> a in m && m[a] <= m[next]
      modifies this`pending, this`virtual, all, priced
      ensures Levelled(r0, Level(m, locals, level'), steady) && Enumerates(offenders + [next], met + {next})
      ensures Meeting(m, locals, cfg.accountSlots, cfg.globalSlots, met + {next}, spammers - {next}, m[next], level',
                      count')
    {
      assert MeetAt(m, locals, cfg.accountSlots, met, spammers, floor, next);
      EnumeratesMore(offenders, met, next);
      if |offenders| == 0 {
        assert met == {};
        assert met + {next} == {next};
        MeetFirst(m, locals, cfg.accountSlots, cfg.globalSlots, spammers, floor, level, count, next);
        return count, m[next];
      }
      MeetNext(m, locals, cfg.accountSlots, cfg.globalSlots, met, spammers, floor, level, count, next);
      var threshold, first := BothLens(offenders, met, next, count, spammers - {next}, r0, m, level, steady);
      count', level' :=
        LowerTowards(offenders, met, next, count, threshold, first, spammers - {next}, r0, m, level, steady);
      LoweringDone(m, locals, cfg.accountSlots, cfg.globalSlots, met, next, spammers - {next}, level', count');
    }

    /** Meets offenders, biggest first, until the pool fits or nobody is left to meet. */
    method MeetAll(prio: Lengths, spammers: set<Address>, count: nat, ghost r0: Ranks, ghost level: nat,
                   ghost steady: bool)
      returns (offenders: seq<Address>, count': nat, ghost met: set<Address>, ghost left: set<Address>,
               ghost floor: nat, ghost level': nat)
      requires Levelled(r0, Level(prio, locals, level), steady) && cfg.accountSlots >= 1
      requires Meeting(prio, locals, cfg.accountSlots, cfg.globalSlots, {}, spammers, 0, level, count)
      modifies this`pending, this`virtual, all, priced
      ensures Levelled(r0, Level(prio, locals, level'), steady) && Enumerates(offenders, met)
      ensures Meeting(prio, locals, cfg.accountSlots, cfg.globalSlots, met, left, floor, level', count')
      ensures count' <= cfg.globalSlots || left == {}
    {
      offenders, count', met, floor, level' := [], count, {}, 0, level;
      var waiting := spammers;
      while count' > cfg.globalSlots && waiting != {}
        invariant Levelled(r0, Level(prio, locals, level'), steady) && Enumerates(offenders, met)
        invariant Meeting(prio, locals, cfg.accountSlots, cfg.globalSlots, met, waiting, floor, level', count')
        decreases waiting
      {
        SpammersKnown(prio, locals, cfg.accountSlots, cfg.globalSlots, met, waiting, floor, level', count');
        var next := Biggest(waiting, prio);
        count', level' := Meet(offenders, met, next, count', waiting, floor, r0, prio, level', steady);
        offenders, met, floor, waiting := offenders + [next], met + {next}, prio[next], waiting - {next};
      }
      left := waiting;
    }

    /** If still above the limit, lowers all offenders to the limit or to the guarantee. */
    method Drain(offenders: seq<Address>, ghost met: set<Address>, count: nat,
                 ghost r0: Ranks, ghost m: Lengths, ghost level: nat, ghost steady: bool)
      returns (count': nat, ghost level': nat)
      requires Levelled(r0, Level(m, locals, level), steady) && Enumerates(offenders, met) && offenders != []
      requires cfg.accountSlots >= 1
      requires Draining(m, locals, cfg.accountSlots, cfg.globalSlots, met, level, count)
      modifies this`pending, this`virtual, all, priced
      ensures Levelled(r0, Level(m, locals, level'), steady)
      ensures Draining(m, locals, cfg.accountSlots, cfg.globalSlots, met, level', count')
      ensures count' <= cfg.globalSlots || level' <= cfg.accountSlots
    {
      count', level' := count, level;
      var bar := DrainLen(offenders[|offenders| - 1], met, count, r0, m, level, steady);
      while count' > cfg.globalSlots && bar > cfg.accountSlots
        invariant Levelled(r0, Level(m, locals, level'), steady)
        invariant Draining(m, locals, cfg.accountSlots, cfg.globalSlots, met, level', count')
        invariant bar == level' && locals == old(locals)
        decreases level'
      {
        count', bar, level' := DrainStep(offenders, met, count', r0, m, level', steady);
      }
    }

    method DrainStep(offenders: seq<Address>, ghost met: set<Address>, count: nat,
                     ghost r0: Ranks, ghost m: Lengths, ghost level: nat, ghost steady: bool)
      returns (count': nat, bar: nat, ghost level': nat)
      requires Levelled(r0, Level(m, locals, level), steady) && Enumerates(offenders, met) && offenders != []
      requires Draining(m, locals, cfg.accountSlots, cfg.globalSlots, met, level, count) && cfg.accountSlots >= 1
      requires count > cfg.globalSlots && level > cfg.accountSlots
      modifies this`pending, this`virtual, all, priced
      ensures Levelled(r0, Level(m, locals, level'), steady) && bar == level' == level - 1
      ensures Draining(m, locals, cfg.accountSlots, cfg.globalSlots, met, level', count')
    {
      level' := level - 1;
      count' := DrainPass(offenders, met, count, r0, m, level, steady);
      bar := DrainLen(offenders[|offenders| - 1], met, count', r0, m, level', steady);
    }

    method DrainLen(a: Address, ghost met: set<Address>, ghost count: nat,
                    ghost r0: Ranks, ghost m: Lengths, ghost level: nat, ghost steady: bool)
      returns (len: nat)
      requires Levelled(r0, Level(m, locals, level), steady) && a in met
      requires Draining(m, locals, cfg.accountSlots, cfg.globalSlots, met, level, count)
      ensures len == level
    {
      DrainingReads(m, locals, cfg.accountSlots, cfg.globalSlots, met, level, count);
      assert CutAt(r0.pending, pending, Level(m, locals, level), a);
      len := |pending[a].items|;
    }

    method DrainPass(offenders: seq<Address>, ghost met: set<Address>, count: nat,
                     ghost r0: Ranks, ghost m: Lengths, ghost level: nat, ghost steady: bool)
      returns (count': nat)
      requires Levelled(r0, Level(m, locals, level), steady) && Enumerates(offenders, met) && cfg.accountSlots >= 1
      requires Draining(m, locals, cfg.accountSlots, cfg.globalSlots, met, level, count)
      requires count > cfg.globalSlots && level > cfg.accountSlots
      modifies this`pending, this`virtual, all, priced
      ensures Levelled(r0, Level(m, locals, level - 1), steady)
      ensures Draining(m, locals, cfg.accountSlots, cfg.globalSlots, met, level - 1, count')
    {
      DrainInOrder(m, locals, cfg.accountSlots, cfg.globalSlots, offenders, met, level, count);
      LowerAll(offenders, r0, Level(m, locals, level), steady);
      count' := count - |offenders|;
    }

    /** Equalises the allowances once the pool is known to be over its limit. */
    method Equalize(prio: Lengths, count: nat, ghost r0: Ranks, ghost steady: bool)
      returns (count': nat, ghost level: nat)
      requires Levelled(r0, prio, steady) && prio == Lens(r0.pending) && cfg.accountSlots >= 1
      requires count == Sum(prio) > cfg.globalSlots
      modifies this`pending, this`virtual, all, priced
      ensures Levelled(r0, Level(prio, locals, level), steady) && count' == Sum(Level(prio, locals, level))
      ensures Fair(prio, Level(prio, locals, level), locals, cfg.accountSlots, cfg.globalSlots, level)
    {
      var spammers := set a | a in prio && a !in locals && prio[a] > cfg.accountSlots;
      level := MeetingStart(prio, locals, cfg.accountSlots, cfg.globalSlots, spammers);
      var offenders;
      ghost var met, left, floor;
      offenders, count', met, left, floor, level := MeetAll(prio, spammers, count, r0, level, steady);
      if count' > cfg.globalSlots {
        count', level := FinishDrain(offenders, met, count', floor, r0, prio, level, steady);
      }
    }

    method FinishDrain(offenders: seq<Address>, ghost met: set<Address>, count: nat, ghost floor: nat,
                       ghost r0: Ranks, ghost m: Lengths, ghost level: nat, ghost steady: bool)
      returns (count': nat, ghost level': nat)
      requires Levelled(r0, Level(m, locals, level), steady) && Enumerates(offenders, met) && cfg.accountSlots >= 1
      requires Meeting(m, locals, cfg.accountSlots, cfg.globalSlots, met, {}, floor, level, count)
      requires count > cfg.globalSlots
      modifies this`pending, this`virtual, all, priced
      ensures Levelled(r0, Level(m, locals, level'), steady) && count' == Sum(Level(m, locals, level'))
      ensures Fair(m, Level(m, locals, level'), locals, cfg.accountSlots, cfg.globalSlots, level')
    {
      if |offenders| > 0 {
        DrainStart(m, locals, cfg.accountSlots, cfg.globalSlots, met, floor, level, count);
        count', level' := Drain(offenders, met, count, r0, m, level, steady);
      } else {
        assert met == {};
        NobodyToLower(m, locals, cfg.accountSlots, cfg.globalSlots, floor, level, count);
        count', level' := count, cfg.accountSlots;
      }
    }

    /** promoteExecutables, second part: if the pending limit is overflown, equalise allowances.  Every list
        keeps its lowest nonces, and the lengths are those of one fair level. */
    method EqualizePending() returns (total: nat, ghost level: nat)
      requires Valid()
      modifies this`pending, this`virtual, all, priced
      ensures Valid() && Cut(old(pending), pending, Lens(pending)) && total == Sum(Lens(pending))
      ensures Lowers(old(virtual), virtual, chain.nonce)
      ensures Sum(Lens(old(pending))) <= cfg.globalSlots ==> pending == old(pending) && virtual == old(virtual)
      ensures Sum(Lens(old(pending))) > cfg.globalSlots ==>
        Fair(Lens(old(pending)), Lens(pending), locals, cfg.accountSlots, cfg.globalSlots, level)
      ensures old(NoncesInStep()) ==> NoncesInStep()
    {
      ghost var r0, steady := Now(), NoncesInStep();
      var prio: Lengths := map a | a in pending :: |pending[a].items|;
      CutSelf(pending);
      total := Count(prio);
      level := 0;
      if total > cfg.globalSlots {
        total, level := Equalize(prio, total, r0, steady);
        CutLens(r0.pending, pending, Level(prio, locals, level));
      }
    }

    /** Removes the transactions that the price list handed out. */
    method RemoveTaken(drop: seq<Tx>)
      requires Sound({}) && NoEmpty(pending) && priced.taken == drop
      modifies this`pending, this`queue, this`virtual, all, priced
      ensures Valid() && all.txs == Minus(old(all.txs), drop)
      ensures old(NoncesInStep()) ==> NoncesInStep()
    {
      assert drop[0..] == drop;
      for i := 0 to |drop|
        invariant Sound({}) && NoEmpty(pending) && priced.taken == drop[i..]
        invariant Minus(all.txs, drop[i..]) == Minus(old(all.txs), drop)
        invariant old(NoncesInStep()) ==> NoncesInStep()
      {
        assert drop[i..][1..] == drop[i + 1..];
        RemoveTx(drop[i], false);
      }
    }

    /** SetGasPrice: every remote transaction below the new threshold goes. */
    method SetGasPrice(price: int)
      requires Valid()
      modifies this`gasPrice, this`pending, this`queue, this`virtual, all, priced
      ensures Valid() && gasPrice == price
      ensures forall tx :: tx in all.txs <==> tx in old(all.txs) && (IsLocal(tx, locals) || tx.price >= price)
      ensures old(NoncesInStep()) ==> NoncesInStep()
    {
      gasPrice := price;
      var drop := priced.Cap(price, locals);
      MinusIs(all.txs, drop);
      RemoveTaken(drop);
    }

    /** Removes one queued transaction; nothing else changes. */
    method DropQueued(tx: Tx)
      requires Valid() && Holds(queue, tx)
      modifies this`pending, this`queue, this`virtual, all, priced
      ensures Valid() && pending == old(pending) && virtual == old(virtual)
      ensures queue == PutList(old(queue), tx.sender, WithoutNonce(old(queue)[tx.sender], tx.nonce))
      ensures Sum(Lens(queue)) == Sum(Lens(old(queue))) - 1
      ensures old(NoncesInStep()) ==> NoncesInStep()
    {
      DropSum(queue, tx.sender, tx.nonce, all.txs, pending);
      RemoveTx(tx, true);
    }

    /** Drops the `k` highest queued transactions of `addr`. */
    method DropHighest(addr: Address, k: nat)
      requires Valid() && addr in queue && k <= |queue[addr].items|
      modifies this`pending, this`queue, this`virtual, all, priced
      ensures Valid() && pending == old(pending) && Sum(Lens(queue)) == Sum(Lens(old(queue))) - k
      ensures virtual == old(virtual)
      ensures queue - {addr} == old(queue) - {addr}
      ensures |ItemsOf(queue, addr)| == |old(queue)[addr].items| - k
      ensures LowPart(old(queue)[addr].items, ItemsOf(queue, addr))
      ensures old(NoncesInStep()) ==> NoncesInStep()
    {
      ghost var items := queue[addr].items;
      for i := 0 to k
        invariant LowPart(items, ItemsOf(queue, addr))
        invariant Valid() && pending == old(pending) && Sum(Lens(queue)) == Sum(Lens(old(queue))) - i
        invariant virtual == old(virtual)
        invariant queue - {addr} == old(queue) - {addr}
        invariant |ItemsOf(queue, addr)| == |old(queue)[addr].items| - i
        invariant old(NoncesInStep()) ==> NoncesInStep()
      {
        ghost var mid := ItemsOf(queue, addr);
        DropTop(addr);
        LowTrans(items, mid, ItemsOf(queue, addr));
      }
    }

    method DropTop(addr: Address)
      requires Valid() && |ItemsOf(queue, addr)| > 0
      modifies this`pending, this`queue, this`virtual, all, priced
      ensures Valid() && pending == old(pending) && Sum(Lens(queue)) == Sum(Lens(old(queue))) - 1
      ensures virtual == old(virtual)
      ensures queue - {addr} == old(queue) - {addr}
      ensures |ItemsOf(queue, addr)| == |ItemsOf(old(queue), addr)| - 1
      ensures LowPart(ItemsOf(old(queue), addr), ItemsOf(queue, addr))
      ensures old(NoncesInStep()) ==> NoncesInStep()
    {
      var l := queue[addr];
      assert KeptAt(queue, addr, false);
      ghost var q := queue;
      var tx := l.items[Max(l.items.Keys)];
      DropQueued(tx);
      TopGone(q, addr, tx.nonce, queue);
    }

    /** The eviction tick for one remote account: its whole queue goes. */
    method Evict(addr: Address)
      requires Valid() && addr in queue
      modifies this`pending, this`queue, this`virtual, all, priced
      ensures Valid() && pending == old(pending) && |ItemsOf(queue, addr)| == 0 && queue - {addr} == old(queue) - {addr}
      ensures virtual == old(virtual)
      ensures old(NoncesInStep()) ==> NoncesInStep()
    {
      DropHighest(addr, |queue[addr].items|);
    }

    /** promoteExecutables, third part: above the queue limit, whole remote queues are dropped, and of the
        last one only the highest nonces, until the limit is met or no remote account has a queue. */
    method TruncateQueue() returns (ghost last: Address)
      requires Valid()
      modifies this`pending, this`queue, this`virtual, all, priced
      ensures Valid() && pending == old(pending) && Truncated(old(queue), queue, locals, last)
      ensures virtual == old(virtual)
      ensures Sum(Lens(queue)) <= cfg.globalQueue || OnlyLocals(queue, locals)
      ensures Sum(Lens(old(queue))) <= cfg.globalQueue ==> queue == old(queue)
      ensures Sum(Lens(old(queue))) > cfg.globalQueue ==> Sum(Lens(queue)) >= cfg.globalQueue
      ensures old(NoncesInStep()) ==> NoncesInStep()
    {
      var lens: Lengths := map a | a in queue :: |queue[a].items|;
      var queued := Count(lens);
      last := 0;
      if queued <= cfg.globalQueue { return; }
      var left;
      left, last := ShrinkQueue(queued - cfg.globalQueue);
    }

    /** Drops queued transactions of remote accounts, met in any order, until `drop` are gone or none is left. */
    method ShrinkQueue(drop: nat) returns (left: nat, ghost last: Address)
      requires Valid() && drop > 0
      modifies this`pending, this`queue, this`virtual, all, priced
      ensures Truncated(old(queue), queue, locals, last)
      ensures Valid() && pending == old(pending) && Sum(Lens(queue)) + drop == Sum(Lens(old(queue))) + left
      ensures virtual == old(virtual)
      ensures left == 0 || OnlyLocals(queue, locals)
      ensures old(NoncesInStep()) ==> NoncesInStep()
    {
      left, last := drop, 0;
      var addresses := set a | a in queue && a !in locals;
      assert Waiting(queue, locals, addresses);
      ghost var q0 := queue;
      while left > 0 && addresses != {}
        invariant addresses !! locals && Truncating(q0, queue, locals, addresses, left > 0)
        invariant Truncated(q0, queue, locals, last)
        invariant Valid() && pending == old(pending) && Sum(Lens(queue)) + drop == Sum(Lens(old(queue))) + left
        invariant virtual == old(virtual)
        invariant left > 0 ==> Waiting(queue, locals, addresses)
        invariant old(NoncesInStep()) ==> NoncesInStep()
        decreases addresses
      {
        var addr :| addr in addresses;
        ghost var mid := queue;
        left := DropSome(addr, left, addresses);
        TruncateStep(q0, mid, queue, locals, addresses, addr, left > 0);
        last := addr;
        addresses := addresses - {addr};
      }
    }

    /** Drops as much of the queue of `addr` as the overflow asks for. */
    method DropSome(addr: Address, drop: nat, ghost addresses: set<Address>) returns (drop': nat)
      requires Valid() && addr in addresses && Waiting(queue, locals, addresses)
      modifies this`pending, this`queue, this`virtual, all, priced
      ensures Valid() && pending == old(pending) && virtual == old(virtual)
      ensures drop' <= drop && Sum(Lens(queue)) + drop == Sum(Lens(old(queue))) + drop'
      ensures drop' > 0 ==> Waiting(queue, locals, addresses - {addr}) && |ItemsOf(queue, addr)| == 0
      ensures queue - {addr} == old(queue) - {addr} && LowPart(ItemsOf(old(queue), addr), ItemsOf(queue, addr))
      ensures old(NoncesInStep()) ==> NoncesInStep()
    {
      assert WaitAt(queue, locals, addresses, addr);
      ghost var was := queue;
      var size := |queue[addr].items|;
      if size <= drop {
        DropHighest(addr, size);
        drop' := drop - size;
        WaitingStep(was, queue, locals, addresses, addr);
      } else {
        DropHighest(addr, drop);
        drop' := 0;
      }
    }

    /** promoteExecutables: promotes what has become executable for the given accounts, then enforces the pending and
        the queue limits. Afterwards nothing in their queues could still be promoted, and nothing has been lost without
        a reason. */
    method PromoteExecutables(accounts: seq<Address>) returns (ghost r: Ranks)
      requires Valid()
      modifies this`pending, this`queue, this`virtual, all, priced
      ensures Valid() && PromotedAll(old(Now()), r, chain, locals, cfg.accountQueue, accounts)
      ensures Limited(r, Now(), locals, cfg, chain.nonce)
      ensures Sum(Lens(pending)) <= cfg.globalSlots || NobodyAbove(pending, locals, cfg.accountSlots)
      ensures Sum(Lens(queue)) <= cfg.globalQueue || OnlyLocals(queue, locals)
      ensures NothingLeft(Now(), chain, accounts)
      ensures LostForReason(old(all.txs), all.txs, r, chain, locals, cfg, accounts)
      ensures Sum(Lens(r.pending)) + Sum(Lens(r.queue)) <= |old(all.txs)|
      ensures old(NoncesInStep()) ==> NoncesInStep()
    {
      ghost var r0, known := Now(), all.txs;
      PromoteEach(accounts);
      r := Now();
      PromotedCount(r0, known, r, all.txs, chain, locals, cfg, accounts);
      EnforceLimits();
      QueuesStay(r0, r, Now(), chain, locals, cfg, accounts);
      LossesExplained(r0, known, r, Now(), all.txs, chain, locals, cfg, accounts);
    }

    /** The promotion of each account. */
    method PromoteEach(accounts: seq<Address>)
      requires Valid()
      modifies this`pending, this`queue, this`virtual, all, priced
      ensures Valid() && PromotedAll(old(Now()), Now(), chain, locals, cfg.accountQueue, accounts)
      ensures old(NoncesInStep()) ==> NoncesInStep()
    {
      ghost var r0 := Now();
      for i := 0 to |accounts|
        invariant Valid() && PromotedAll(r0, Now(), chain, locals, cfg.accountQueue, accounts[..i])
        invariant old(NoncesInStep()) ==> NoncesInStep()
      {
        PromoteAfter(r0, accounts[..i], accounts[i]);
        assert accounts[..i + 1] == accounts[..i] + [accounts[i]];
      }
      assert accounts[..|accounts|] == accounts;
    }

    method PromoteAfter(ghost r0: Ranks, ghost done: seq<Address>, addr: Address)
      requires Valid() && PromotedAll(r0, Now(), chain, locals, cfg.accountQueue, done)
      modifies this`pending, this`queue, this`virtual, all, priced
      ensures Valid() && PromotedAll(r0, Now(), chain, locals, cfg.accountQueue, done + [addr])
      ensures old(NoncesInStep()) ==> NoncesInStep()
    {
      ghost var r1 := Now();
      PromoteAccount(addr);
      PromotedNext(r0, r1, Now(), chain, locals, cfg.accountQueue, done, addr);
    }

    /** Both limits of promoteExecutables. */
    method EnforceLimits()
      requires Valid()
      modifies this`pending, this`queue, this`virtual, all, priced
      ensures Valid() && Limited(old(Now()), Now(), locals, cfg, chain.nonce)
      ensures Sum(Lens(pending)) <= cfg.globalSlots || NobodyAbove(pending, locals, cfg.accountSlots)
      ensures Sum(Lens(queue)) <= cfg.globalQueue || OnlyLocals(queue, locals)
      ensures old(NoncesInStep()) ==> NoncesInStep()
    {
      LimitPending();
      LimitQueue();
    }

    method LimitPending()
      requires Valid()
      modifies this`pending, this`virtual, all, priced
      ensures Valid() && LimitedPending(old(Now()), Now(), locals, cfg, chain.nonce)
      ensures Sum(Lens(pending)) <= cfg.globalSlots || NobodyAbove(pending, locals, cfg.accountSlots)
      ensures old(NoncesInStep()) ==> NoncesInStep()
    {
      ghost var p0 := pending;
      ghost var level;
      var total;
      total, level := EqualizePending();
      if Sum(Lens(p0)) > cfg.globalSlots && level == cfg.accountSlots {
        FairCaps(p0, pending, locals, cfg.accountSlots, cfg.globalSlots, level);
      }
    }

    method LimitQueue()
      requires Valid()
      modifies this`pending, this`queue, this`virtual, all, priced
      ensures Valid() && pending == old(pending) && virtual == old(virtual) && QueueCut(old(queue), queue, locals)
      ensures Sum(Lens(queue)) <= cfg.globalQueue || OnlyLocals(queue, locals)
      ensures Sum(Lens(old(queue))) <= cfg.globalQueue ==> queue == old(queue)
      ensures old(NoncesInStep()) ==> NoncesInStep()
    {
      ghost var last := TruncateQueue();
    }

    /** demoteUnexecutables: drops what is done or dead from the pending lists and sends back what has lost
        its footing.  `gaps` counts how often the "gap in front" branch ran. */
    method DemoteUnexecutables(bn: nat) returns (gaps: nat)
      requires Sound({}) && priced.taken == []
      modifies this`pending, this`queue, all, priced
      ensures Valid() && pending.Keys <= old(pending).Keys
      ensures AllFronts(pending, chain.nonce)
      ensures AllStartBy(old(pending), chain.nonce) ==> gaps == 0 && AllRuns(pending, chain.nonce)
      ensures DropsOutside(old(all.txs), all.txs, old(pending), {}, chain, bn)
      ensures StaysOutside(old(pending), pending, {}, chain, bn)
      ensures all.txs <= old(all.txs) && (forall tx :: tx in old(all.txs) && tx !in all.txs ==> Dead(tx, chain))
      ensures LivePending(pending, chain)
    {
      gaps := 0;
      var left := pending.Keys;
      ghost var p0, all0 := pending, all.txs;
      NoneDemoted(p0, all0, chain, bn);
      while left != {}
        invariant Sound({}) && priced.taken == [] && Demoting(p0, pending, left, chain.nonce) && Kept(p0, true)
        invariant DropsOutside(all0, all.txs, p0, left, chain, bn) && StaysOutside(p0, pending, left, chain, bn)
        invariant AllStartBy(p0, chain.nonce) ==> gaps == 0 && RunsOutside(pending, left, chain.nonce)
        decreases left
      {
        var addr :| addr in left;
        var gap := DemoteNext(addr, bn, p0, left, all0);
        if gap { gaps := gaps + 1; }
        left := left - {addr};
      }
      DemotingDone(p0, pending, chain.nonce);
      DemotionMeans(all0, all.txs, p0, pending, chain, bn);
      if AllStartBy(p0, chain.nonce) { RunsEverywhere(pending, chain.nonce); }
    }

    method DemoteNext(addr: Address, bn: nat, ghost p0: Lists, ghost left: set<Address>, ghost all0: set<Tx>)
      returns (gap: bool)
      requires Sound({}) && priced.taken == [] && addr in left && Demoting(p0, pending, left, chain.nonce)
      requires Kept(p0, true)
      requires DropsOutside(all0, all.txs, p0, left, chain, bn) && StaysOutside(p0, pending, left, chain, bn)
      modifies this`pending, this`queue, all, priced
      ensures DropsOutside(all0, all.txs, p0, left - {addr}, chain, bn)
      ensures StaysOutside(p0, pending, left - {addr}, chain, bn)
      ensures Sound({}) && priced.taken == [] && Demoting(p0, pending, left - {addr}, chain.nonce)
      ensures AllStartBy(p0, chain.nonce) ==> !gap
      ensures AllStartBy(p0, chain.nonce) && RunsOutside(old(pending), left, chain.nonce) ==>
        RunsOutside(pending, left - {addr}, chain.nonce)
    {
      assert DemotingAt(p0, pending, left, chain.nonce, addr);
      assert StartByAt(p0, chain.nonce, addr) || !AllStartBy(p0, chain.nonce);
      ghost var was := pending;
      ghost var known := all.txs;
      gap := DemoteAccount(addr, bn);
      DropsStep(all0, known, all.txs, p0, left, chain, bn, addr);
      StaysStep(p0, was, pending, left, chain, bn, addr);
      DemotingStep(p0, was, pending, left, chain.nonce, addr);
      if AllStartBy(p0, chain.nonce) && RunsOutside(was, left, chain.nonce) {
        RunsStep(was, pending, left, chain.nonce, addr);
      }
    }

    /** validateTx; `checks` stands for the checks on shard, size, value, signature, allow and block lists,
        and intrinsic gas. */
    predicate ValidTx(tx: Tx, local: bool, checks: Tx -> bool)
      reads this
    {
      && checks(tx)
      && tx.gas <= chain.maxGas
      && (local || tx.sender in locals || gasPrice <= tx.price)
      && chain.nonce(tx.sender) <= tx.nonce
      && tx.cost.Some?
      && (tx.kind.Delegation? || tx.cost.value <= chain.balance(tx.sender))
      && (tx.kind.Plain? || chain.stakingOk(tx))
    }

    /** If the pool is full, turns away an underpriced transaction or makes room by dropping the cheapest
        remote ones. */
    method MakeRoom(tx: Tx, local: bool) returns (ok: bool)
      requires Valid()
      modifies this`pending, this`queue, this`virtual, all, priced
      ensures Valid() && all.txs <= old(all.txs)
      ensures !ok <==> Overflows(old(all.txs), cfg) && !local && TooCheap(tx, old(all.txs), locals)
      ensures !ok || !Overflows(old(all.txs), cfg) ==>
        && all.txs == old(all.txs) && pending == old(pending) && queue == old(queue) && virtual == old(virtual)
      ensures DropsCheapest(old(all.txs), all.txs, locals)
      ensures ok && Overflows(old(all.txs), cfg) ==> MakesRoom(old(all.txs), all.txs, locals, cfg)
      ensures ok ==> RoomMade(old(Whole()), Whole(), cfg)
      ensures old(NoncesInStep()) ==> NoncesInStep()
    {
      ok := true;
      if Overflows(all.txs, cfg) {
        if !local {
          var under := priced.Underpriced(tx, locals);
          if under { return false; }
        }
        DiscardFor();
      }
    }

    /** Drops the cheapest remote transactions of a full pool. */
    method DiscardFor()
      requires Valid() && Overflows(all.txs, cfg)
      modifies this`pending, this`queue, this`virtual, all, priced
      ensures Valid() && all.txs <= old(all.txs) && DropsCheapest(old(all.txs), all.txs, locals)
      ensures MakesRoom(old(all.txs), all.txs, locals, cfg)
      ensures old(NoncesInStep()) ==> NoncesInStep()
    {
      var drop := priced.Discard(|all.txs| - (cfg.globalSlots + cfg.globalQueue - 1), locals);
      MinusIs(all.txs, drop);
      DiscardCheapest(priced.items, drop, all.txs, locals, priced.stales);
      DiscardMakesRoom(priced.items, drop, all.txs, locals, priced.stales, cfg);
      RemoveTaken(drop);
    }

    /** Replaces the pending transaction with the same nonce if the new one outbids it. */
    method ReplacePending(tx: Tx) returns (inserted: bool)
      requires Valid() && tx !in all.txs && tx.cost.Some? && Taken(pending, tx.sender, tx.nonce)
      modifies this`pending, all, priced
      ensures Valid() && inserted == Outbids(old(pending)[tx.sender].items[tx.nonce], tx, cfg.priceBump)
      ensures inserted ==> all.txs == old(all.txs) - {old(pending)[tx.sender].items[tx.nonce]} + {tx}
      ensures !inserted ==> all.txs == old(all.txs) && pending == old(pending)
      ensures inserted ==> InsertedInto(old(pending), pending, tx)
      ensures old(NoncesInStep()) ==> NoncesInStep()
    {
      var a, l := tx.sender, pending[tx.sender];
      inserted := Accepts(l, tx, cfg.priceBump);
      if !inserted { return; }
      SwapPending(pending, queue, all.txs, tx);
      if NoncesInStep() { SwapInStep(pending, virtual, chain.nonce, tx); }
      var prior := l.items[tx.nonce];
      Swap(prior, tx);
      InsertsOne(pending, tx, l);
      pending := pending[a := Added(l, tx)];
    }

    /** Forgets one transaction and makes another known. */
    method Swap(prior: Tx, tx: Tx)
      requires priced.all == all && priced.Valid() && priced.taken == [] && prior in all.txs
      modifies all, priced
      ensures all.txs == old(all.txs) - {prior} + {tx} && priced.Valid() && priced.taken == []
    {
      Forget(prior);
      Track(tx);
    }

    /** Puts a transaction whose pending slot is free into the queue. */
    method InsertQueued(tx: Tx, local: bool) returns (inserted: bool, replaced: bool)
      requires Valid() && tx !in all.txs && tx.cost.Some? && !Taken(pending, tx.sender, tx.nonce)
      modifies this`queue, this`locals, all, priced
      ensures Valid() && (tx in all.txs <==> inserted)
      ensures inserted == Accepts(ListOf(old(queue), tx.sender, false), tx, cfg.priceBump)
      ensures !inserted ==> ListOf(queue, tx.sender, false) == ListOf(old(queue), tx.sender, false)
      ensures forall t :: t in old(all.txs) && t !in all.txs ==> t.sender == tx.sender && t.nonce == tx.nonce
      ensures locals == if inserted && local then old(locals) + {tx.sender} else old(locals)
      ensures inserted ==>
        && InsertedInto(old(queue), queue, tx) && replaced == Taken(old(queue), tx.sender, tx.nonce)
        && all.txs == old(all.txs) + {tx} - (if replaced then {old(queue)[tx.sender].items[tx.nonce]} else {})
      ensures !inserted ==> all.txs == old(all.txs) && forall a :: ItemsOf(queue, a) == ItemsOf(old(queue), a)
    {
      InsertsOne(queue, tx, ListOf(queue, tx.sender, false));
      SlotKnown(pending, queue, all.txs, tx);
      NewQueued(pending, queue, all.txs, tx);
      inserted, replaced := EnqueueTx(tx);
      if inserted && local {
        locals := locals + {tx.sender};
      }
    }

    /** add: validates a transaction and stores it, in the pending lists only as a replacement, else in the
        queue. */
    method Add(tx: Tx, local: bool, checks: Tx -> bool) returns (replaced: bool, err: Option<PoolError>)
      requires Valid()
      modifies this`pending, this`queue, this`virtual, this`locals, all, priced
      ensures Valid() && Adds(old(Whole()), Whole(), tx, local, TermsOf(checks), replaced, err)
      ensures old(NoncesInStep()) ==> NoncesInStep()
    {
      if tx in all.txs { return false, Some(KnownTransaction); }
      if !ValidTx(tx, local, checks) { return false, Some(Invalid); }
      replaced, err := Place(tx, local);
    }

    /** Makes room for a new transaction and stores it. */
    method Place(tx: Tx, local: bool) returns (replaced: bool, err: Option<PoolError>)
      requires Valid() && tx !in all.txs && tx.cost.Some?
      modifies this`pending, this`queue, this`virtual, this`locals, all, priced
      ensures Valid() && Places(old(Whole()), Whole(), tx, local, cfg, replaced, err)
      ensures old(NoncesInStep()) ==> NoncesInStep()
    {
      var room := MakeRoom(tx, local);
      if !room { return false, Some(Underpriced); }
      replaced, err := Store(tx, local);
    }

    method Store(tx: Tx, local: bool) returns (replaced: bool, err: Option<PoolError>)
      requires Valid() && tx !in all.txs && tx.cost.Some?
      modifies this`pending, this`queue, this`locals, all, priced
      ensures Valid() && Settles(old(Whole()), Whole(), tx, local, cfg, replaced, err)
      ensures old(NoncesInStep()) ==> NoncesInStep()
    {
      var inserted;
      ghost var c := Whole();
      if Taken(pending, tx.sender, tx.nonce) {
        inserted := ReplacePending(tx);
        replaced := inserted;
        SettlesPending(c, Whole(), tx, local, cfg, inserted);
      } else {
        SlotKnown(pending, queue, all.txs, tx);
        inserted, replaced := InsertQueued(tx, local);
        SettlesQueued(c, Whole(), tx, local, cfg, inserted, replaced);
        replaced := replaced && inserted;
      }
      err := if inserted then None else Some(ReplaceUnderpriced);
    }

    /** addTx: adds one transaction and, unless it only replaced another, runs the promotion checks. */
    method AddTx(tx: Tx, local: bool, checks: Tx -> bool) returns (err: Option<PoolError>)
      requires Valid()
      modifies this`pending, this`queue, this`virtual, this`locals, all, priced
      ensures Valid() && AddedOne(old(Whole()), Whole(), tx, local, TermsOf(checks), err)
      ensures old(NoncesInStep() && NextAndRoom(Whole(), tx, TermsOf(checks))) && err == None ==>
        Holds(pending, tx) && tx.nonce < VirtualNonce(tx.sender)
      ensures old(NoncesInStep()) ==> NoncesInStep()
    {
      ghost var c := Whole();
      err := AddPromote(tx, local, checks);
      if old(NoncesInStep()) && NextAndRoom(c, tx, TermsOf(checks)) && err == None {
        NextBecomesPending(c, Whole(), tx, local, TermsOf(checks));
      }
    }

    method AddPromote(tx: Tx, local: bool, checks: Tx -> bool) returns (err: Option<PoolError>)
      requires Valid()
      modifies this`pending, this`queue, this`virtual, this`locals, all, priced
      ensures Valid() && AddedOne(old(Whole()), Whole(), tx, local, TermsOf(checks), err)
      ensures old(NoncesInStep()) ==> NoncesInStep()
    {
      ghost var c := Whole();
      var replaced;
      replaced, err := Add(tx, local, checks);
      ghost var mid := Whole();
      if err.None? && !replaced { PromoteFor([tx.sender]); }
      assert AddsThen(c, mid, Whole(), tx, local, TermsOf(checks), replaced, err);
    }

    method PromoteFor(accounts: seq<Address>)
      requires Valid()
      modifies this`pending, this`queue, this`virtual, all, priced
      ensures Valid() && PromotesFor(old(Whole()), Whole(), chain, cfg, accounts)
      ensures old(NoncesInStep()) ==> NoncesInStep()
    {
      ghost var c := Whole();
      ghost var r := PromoteExecutables(accounts);
      assert PromotesVia(c, Whole(), r, chain, cfg, accounts);
    }

    /** addTxsLocked: adds a batch, then runs the promotion checks once for every account that gained one. */
    method AddTxs(txs: seq<Tx>, local: bool, checks: Tx -> bool)
      returns (errs: seq<Option<PoolError>>, ghost replaced: seq<bool>, ghost cs: seq<Contents>,
               ghost dirty: seq<Address>)
      requires Valid()
      modifies this`pending, this`queue, this`virtual, this`locals, all, priced
      ensures Valid() && AddedMany(old(Whole()), Whole(), txs, local, TermsOf(checks), errs, replaced, cs, dirty)
      ensures txs == [] ==> Whole() == old(Whole())
      ensures old(NoncesInStep()) ==> NoncesInStep()
    {
      var gained;
      errs, gained, replaced, cs := AddEach(txs, local, checks);
      dirty := gained;
      if |gained| > 0 {
        PromoteFor(gained);
      }
    }

    method AddEach(txs: seq<Tx>, local: bool, checks: Tx -> bool)
      returns (errs: seq<Option<PoolError>>, dirty: seq<Address>, ghost replaced: seq<bool>, ghost cs: seq<Contents>)
      requires Valid()
      modifies this`pending, this`queue, this`virtual, this`locals, all, priced
      ensures Valid() && AddsEach(txs, |txs|, local, TermsOf(checks), errs, replaced, cs)
      ensures cs[0] == old(Whole()) && cs[|txs|] == Whole() && Gainers(txs, |txs|, errs, replaced, dirty)
      ensures txs == [] ==> dirty == []
      ensures old(NoncesInStep()) ==> NoncesInStep()
    {
      dirty, errs, replaced, cs := [], [], [], [Whole()];
      for i := 0 to |txs|
        invariant Valid() && AddsEach(txs, i, local, TermsOf(checks), errs, replaced, cs)
        invariant cs[0] == old(Whole()) && cs[i] == Whole() && Gainers(txs, i, errs, replaced, dirty)
        invariant i == 0 ==> dirty == []
        invariant old(NoncesInStep()) ==> NoncesInStep()
      {
        var r, err := Add(txs[i], local, checks);
        AddsSnoc(txs, i, local, TermsOf(checks), errs, replaced, cs, err, r, Whole());
        GainersSnoc(txs, i, errs, replaced, dirty, err, r);
        if err.None? && !r && txs[i].sender !in dirty {
          dirty := dirty + [txs[i].sender];
        }
        errs, replaced, cs := errs + [err], replaced + [r], cs + [Whole()];
      }
    }

    /** reset: moves the pool to a new chain state, taking discarded transactions back in.  Afterwards every known
        transaction is alive and nothing in the queues could be promoted. With nothing to take back and no account nonce
        going down, nonces stay in step and no gap is ever found in front. */
    method Reset(newChain: Chain, bn: nat, reinject: seq<Tx>, checks: Tx -> bool) returns (gaps: nat)
      requires Valid()
      modifies this`chain, this`pending, this`queue, this`virtual, this`locals, all, priced
      ensures Valid() && chain == newChain
      ensures HeadChanged(old(Whole()), Whole(), reinject, TermsOf(checks))
      ensures old(NoncesInStep()) && reinject == [] && (forall a :: old(chain.nonce(a)) <= newChain.nonce(a)) ==>
        gaps == 0 && NoncesInStep()
    {
      ghost var calm := NoncesInStep() && reinject == [] && forall a :: chain.nonce(a) <= newChain.nonce(a);
      if calm { OlderStartsBy(pending, virtual, chain.nonce, newChain.nonce); }
      ghost var c := Whole();
      chain, virtual := newChain, map[];
      Reinject(reinject, checks, c);
      ghost var mid := Whole();
      gaps := Resettle(bn, calm);
      assert Reinjected(c, mid, reinject, TermsOf(checks)) && Resettled(mid, Whole(), chain, cfg);
    }

    /** Takes discarded transactions back in. */
    method Reinject(reinject: seq<Tx>, checks: Tx -> bool, ghost c: Contents)
      requires Valid() && Forgotten(c) == Whole()
      modifies this`pending, this`queue, this`virtual, this`locals, all, priced
      ensures Valid() && Reinjected(c, Whole(), reinject, TermsOf(checks))
      ensures reinject == [] ==> pending == old(pending) && virtual == old(virtual)
    {
      var errs;
      ghost var replaced, cs, dirty;
      errs, replaced, cs, dirty := AddTxs(reinject, false, checks);
      assert AddedMany(Forgotten(c), Whole(), reinject, false, TermsOf(checks), errs, replaced, cs, dirty);
    }

    /** The rest of reset, once discarded transactions are back in the pool. */
    method Resettle(bn: nat, ghost calm: bool) returns (gaps: nat)
      requires Valid() && (calm ==> virtual == map[] && AllStartBy(pending, chain.nonce))
      modifies this`pending, this`queue, this`virtual, all, priced
      ensures Valid() && (calm ==> gaps == 0 && NoncesInStep())
      ensures Resettled(old(Whole()), Whole(), chain, cfg)
    {
      ghost var c := Whole();
      gaps := DemoteUnexecutables(bn);
      if calm { SyncedInStep(pending, chain.nonce); }
      virtual := LastNonces(pending, virtual);
      var accounts := Listed(queue.Keys);
      ghost var c1 := Whole();
      ghost var r := PromoteExecutables(accounts);
      SettledAfter(c, c1, Whole(), r, chain, cfg, accounts);
    }

    /** Any run of the pool: whatever the operations, every structure stays sound, and each operation does to the
        contents what it says; in a calm run every account's pending nonces also stay the interval from its state nonce
        to its virtual nonce, and the "gap in front" branch is never taken. */
    method Run(ops: seq<Op>, checks: Tx -> bool)
      returns (gaps: nat, ghost stages: seq<Stage>)
      requires Valid()
      modifies this`chain, this`pending, this`queue, this`virtual, this`locals, this`gasPrice, all, priced
      ensures Valid() && Chained(Doing(ops), stages, |ops|)
      ensures stages[0] == Stage(old(Whole()), old(TermsOf(checks)))
      ensures stages[|ops|] == Stage(Whole(), TermsOf(checks))
      ensures old(NoncesInStep()) && Calm(old(chain), ops) ==> NoncesInStep() && gaps == 0
    {
      gaps, stages := 0, [Stage(Whole(), TermsOf(checks))];
      assert ops[0..] == ops;
      for i := 0 to |ops|
        invariant Valid() && Chained(Doing(ops), stages, i)
        invariant stages[0] == Stage(old(Whole()), old(TermsOf(checks)))
        invariant stages[i] == Stage(Whole(), TermsOf(checks))
        invariant old(NoncesInStep()) && Calm(old(chain), ops) ==> NoncesInStep() && gaps == 0 && Calm(chain, ops[i..])
      {
        assert ops[i..][1..] == ops[i + 1..];
        var more := Do(ops[i], checks);
        gaps := gaps + more;
        ChainedSnoc(Doing(ops), stages, i, Stage(Whole(), TermsOf(checks)));
        stages := stages + [Stage(Whole(), TermsOf(checks))];
      }
    }

    method Do(op: Op, checks: Tx -> bool) returns (gaps: nat)
      requires Valid()
      modifies this`chain, this`pending, this`queue, this`virtual, this`locals, this`gasPrice, all, priced
      ensures Valid() && chain == ChainAfter(old(chain), op)
      ensures Did(op, old(Whole()), Whole(), old(TermsOf(checks)))
      ensures TermsOf(checks) == TermsAfter(old(TermsOf(checks)), op)
      ensures old(NoncesInStep()) && CalmOp(old(chain), op) ==> NoncesInStep() && gaps == 0
    {
      gaps := 0;
      match op
      case AddOne(tx, local) =>
        var err := AddTx(tx, local, checks);
      case AddMany(txs, local) => DoAddMany(txs, local, checks);
      case NewPrice(price) =>
        SetGasPrice(price);
      case Expire(addr) =>
        if addr in queue && addr !in locals {
          Evict(addr);
        }
      case NewHead(head, bn, reinject) =>
        gaps := Reset(head, bn, reinject, checks);
    }

    method DoAddMany(txs: seq<Tx>, local: bool, checks: Tx -> bool)
      requires Valid()
      modifies this`pending, this`queue, this`virtual, this`locals, all, priced
      ensures Valid() && AddedBatch(old(Whole()), Whole(), txs, local, TermsOf(checks))
      ensures old(NoncesInStep()) ==> NoncesInStep()
    {
      var errs;
      ghost var replaced, cs, dirty;
      errs, replaced, cs, dirty := AddTxs(txs, local, checks);
      assert AddedMany(old(Whole()), Whole(), txs, local, TermsOf(checks), errs, replaced, cs, dirty);
    }
  }

  // ---------- operations on the contents ----------

  ghost predicate AddedBatch(c: Contents, c': Contents, txs: seq<Tx>, local: bool, t: Terms) {
    exists errs, replaced, cs, dirty :: AddedMany(c, c', txs, local, t, errs, replaced, cs, dirty)
  }

  /** What an operation does to the contents of the pool. */
  ghost predicate Did(op: Op, c: Contents, c': Contents, t: Terms) {
    match op
    case AddOne(tx, local) => exists err :: AddedOne(c, c', tx, local, t, err)
    case AddMany(txs, local) => AddedBatch(c, c', txs, local, t)
    case NewPrice(price) =>
      && c'.locals == c.locals
      && forall tx :: tx in c'.all <==> tx in c.all && (IsLocal(tx, c.locals) || tx.price >= price)
    case Expire(a) => if a in c.ranks.queue && a !in c.locals then Emptied(c, c', a) else c' == c
    case NewHead(head, _, reinject) => HeadChanged(c, c', reinject, t.(chain := head))
  }

  /** Nothing of `a` is queued any more, and all else in the lists is as it was. */
  ghost predicate Emptied(c: Contents, c': Contents, a: Address) {
    && c'.locals == c.locals && c'.ranks.pending == c.ranks.pending && c'.ranks.virtual == c.ranks.virtual
    && |ItemsOf(c'.ranks.queue, a)| == 0 && c'.ranks.queue - {a} == c.ranks.queue - {a}
  }

  function TermsAfter(t: Terms, op: Op): Terms {
    match op
    case NewPrice(price) => t.(gasPrice := price)
    case NewHead(head, _, _) => t.(chain := head)
    case _ => t
  }

  datatype Stage = Stage(contents: Contents, terms: Terms)

  /** Operation `i` leads from one stage to the next. */
  ghost function Doing(ops: seq<Op>): (nat, Stage, Stage) -> bool {
    (i: nat, s: Stage, s': Stage) =>
      i < |ops| && Did(ops[i], s.contents, s'.contents, s.terms) && s'.terms == TermsAfter(s.terms, ops[i])
  }

  /** What demotion leaves of a pending list, before a gap in front is looked for. */
  function Demoted(l: ListState, chain: Chain, a: Address, bn: nat): ListState {
    AfterFilter(Unpassed(l, chain.nonce(a)), LimitsFor(chain, a), bn)
  }

  /** What demotion drops: what the chain has passed, and what can no longer be paid for or run. The rest of what leaves
      the list goes back to the queue. */
  ghost function DeadOf(l: ListState, chain: Chain, a: Address, bn: nat): set<Tx> {
    Txs(Below(l.items, chain.nonce(a))) + Txs(Removed(Unpassed(l, chain.nonce(a)), LimitsFor(chain, a), bn))
  }

  /** A list that is not empty and lacks the state nonce. */
  predicate Gapped(l: ListState, nonce: nat) { l.items.Keys != {} && nonce !in l.items }

  /** The pending list of `a` is `l`, unless that is empty or gapped; then there is none. */
  ghost predicate StaysAs(p: Lists, a: Address, l: ListState, nonce: nat) {
    if l.items.Keys == {} || Gapped(l, nonce) then a !in p else a in p && p[a] == l
  }

  /** Demotion drops `tx` from the pending lists `p`. */
  ghost predicate DropsAt(p: Lists, chain: Chain, bn: nat, tx: Tx) {
    tx.sender in p && tx in DeadOf(p[tx.sender], chain, tx.sender, bn)
  }

  /** Known before and not dropped, with the accounts in `left` still to come: known now. */
  ghost predicate DropsOutside(all: set<Tx>, all': set<Tx>, p: Lists, left: set<Address>, chain: Chain, bn: nat) {
    forall tx :: tx in all' <==> tx in all && (tx.sender in left || !DropsAt(p, chain, bn, tx))
  }

  ghost predicate StaysAt(p: Lists, p': Lists, a: Address, chain: Chain, bn: nat) {
    if a in p then StaysAs(p', a, Demoted(p[a], chain, a, bn), chain.nonce(a)) else a !in p'
  }

  /** Every account outside `left` has its demoted list. */
  ghost predicate StaysOutside(p: Lists, p': Lists, left: set<Address>, chain: Chain, bn: nat) {
    forall a :: a in left || StaysAt(p, p', a, chain, bn)
  }

  /** A transaction that a new head makes impossible: dead, or turned down by the staking rules. */
  predicate Dead(tx: Tx, chain: Chain) {
    !Lives(tx, chain.nonce(tx.sender), LimitsFor(chain, tx.sender)) || (tx.kind != Plain && !chain.stakingOk(tx))
  }

  lemma DeadIs(l: ListState, chain: Chain, a: Address, bn: nat, tx: Tx)
    requires ListFor(a, l, true)
    ensures tx in DeadOf(l, chain, a, bn) ==> tx.sender == a && Dead(tx, chain)
    ensures tx.nonce in Demoted(l, chain, a, bn).items && Demoted(l, chain, a, bn).items[tx.nonce] == tx ==>
      && tx.nonce in l.items && l.items[tx.nonce] == tx
      && Lives(tx, chain.nonce(a), LimitsFor(chain, a))
  {
  }

  // ---------- a new head ----------

  /** The virtual nonces start again from the new state. */
  ghost function Forgotten(c: Contents): Contents { c.(ranks := c.ranks.(virtual := map[])) }

  /** Discarded transactions were added as remote ones. */
  ghost predicate Reinjected(c: Contents, c': Contents, reinject: seq<Tx>, t: Terms) {
    exists errs, replaced, cs, dirty ::
      AddedMany(Forgotten(c), c', reinject, false, t, errs, replaced, cs, dirty)
  }

  /** Everything known is alive, nothing queued could be promoted, and what was lost is dead or a remote transaction for
      which there was no room. */
  ghost predicate Resettled(c: Contents, c': Contents, chain: Chain, cfg: Config) {
    var ok :=
      && c'.locals == c.locals && AllAlive(c', chain) && (forall a :: NothingLeftAt(c'.ranks, chain, a))
      && c'.all <= c.all && exists r :: LostToHead(c, c', r, chain, cfg);
    ok
  }

  ghost predicate LostToHead(c: Contents, c': Contents, r: Ranks, chain: Chain, cfg: Config) {
    forall tx :: tx in c.all && tx !in c'.all ==>
      Dead(tx, chain) || (tx.sender !in c.locals && Crowded(tx.sender, r, cfg))
  }

  ghost predicate AllAlive(c: Contents, chain: Chain) {
    forall tx :: tx in c.all ==> Lives(tx, chain.nonce(tx.sender), LimitsFor(chain, tx.sender))
  }

  ghost predicate HeadChanged(c: Contents, c': Contents, reinject: seq<Tx>, t: Terms) {
    exists mid :: Reinjected(c, mid, reinject, t) && Resettled(mid, c', t.chain, t.cfg)
  }

  /** Promotion of live pending lists leaves them live. */
  lemma StillLive(r0: Ranks, r: Ranks, r': Ranks, chain: Chain, locals: set<Address>, cfg: Config,
                  accounts: seq<Address>, a: Address)
    requires LivePendingAt(r0.pending, chain, a) && PromotedAll(r0, r, chain, locals, cfg.accountQueue, accounts)
    requires Limited(r, r', locals, cfg, chain.nonce)
    ensures LivePendingAt(r'.pending, chain, a)
  {
    assert PromotedAt(r0, r, chain, locals, cfg.accountQueue, accounts, a);
    var h0, h := HoldingOf(r0, chain.nonce, a), HoldingOf(r, chain.nonce, a);
    forall n | n in ItemsOf(r'.pending, a)
      ensures LivesIn(ItemsOf(r'.pending, a), n, chain.nonce(a), LimitsFor(chain, a))
    {
      EqualizedPart(r.pending, r'.pending, locals, cfg, a, n);
      if n in h0.pending {
        if a in accounts { assert SameAt(h0.pending, h.pending, n); }
      } else {
        ReadyLives(h0.queue, h0.next, n, chain.nonce(a), LimitsFor(chain, a));
        assert SameAt(h0.queue, h.pending, n);
      }
    }
  }

  lemma ReadyLives(m: NonceMap, next: nat, n: nat, nonce: nat, lim: Limits)
    ensures IsReady(m, next, n, nonce, lim) ==> LivesIn(m, n, nonce, lim)
  {
    if IsReady(m, next, n, nonce, lim) {
      var lo: nat :| lo <= next && StartsRun(m, lo, n, nonce, lim);
    }
  }

  lemma StillNothing(r0: Ranks, r: Ranks, r': Ranks, chain: Chain, locals: set<Address>, cfg: Config,
                     accounts: seq<Address>, a: Address)
    requires PromotedAll(r0, r, chain, locals, cfg.accountQueue, accounts) && Limited(r, r', locals, cfg, chain.nonce)
    requires a !in accounts && a !in r0.queue
    ensures NothingLeftAt(r', chain, a)
  {
    var last :| Truncated(r.queue, r'.queue, locals, last);
    assert PromotedAt(r0, r, chain, locals, cfg.accountQueue, accounts, a);
    assert TruncatedAt(r.queue, r'.queue, locals, last, a);
  }

  lemma SettledAfter(c: Contents, c1: Contents, c': Contents, r: Ranks, chain: Chain, cfg: Config,
                     accounts: seq<Address>)
    requires c'.locals == c1.locals == c.locals
    requires c1.all <= c.all && (forall tx :: tx in c.all && tx !in c1.all ==> Dead(tx, chain))
    requires LivePending(c1.ranks.pending, chain) && forall a :: a in accounts <==> a in c1.ranks.queue
    requires PromotesVia(c1, c', r, chain, cfg, accounts) && Consistent(c'.ranks.pending, c'.ranks.queue, c'.all, {})
    ensures Resettled(c, c', chain, cfg)
  {
    forall a ensures NothingLeftAt(c'.ranks, chain, a) && LivePendingAt(c'.ranks.pending, chain, a) {
      assert LivePendingAt(c1.ranks.pending, chain, a);
      StillLive(c1.ranks, r, c'.ranks, chain, c.locals, cfg, accounts, a);
      if a !in accounts { StillNothing(c1.ranks, r, c'.ranks, chain, c.locals, cfg, accounts, a); }
    }
    forall tx | tx in c'.all ensures Lives(tx, chain.nonce(tx.sender), LimitsFor(chain, tx.sender)) {
      HoldsKnown(c'.ranks, chain.nonce, c'.all, tx);
      assert NothingLeftAt(c'.ranks, chain, tx.sender) && LivePendingAt(c'.ranks.pending, chain, tx.sender);
    }
    assert LostToHead(c, c', r, chain, cfg) by {
      forall tx | tx in c.all && tx !in c'.all
        ensures Dead(tx, chain) || (tx.sender !in c.locals && Crowded(tx.sender, r, cfg))
      {
        if tx in c1.all { assert LossExcused(tx, r, chain, c.locals, cfg, accounts); }
      }
    }
  }

  /** Demotion drops only what is dead, and what stays pending is alive. */
  lemma DemotionMeans(all: set<Tx>, all': set<Tx>, p: Lists, p': Lists, chain: Chain, bn: nat)
    requires Kept(p, true) && DropsOutside(all, all', p, {}, chain, bn) && StaysOutside(p, p', {}, chain, bn)
    ensures all' <= all && forall tx :: tx in all && tx !in all' ==> Dead(tx, chain)
    ensures LivePending(p', chain)
  {
    forall tx | tx in all && tx !in all' ensures Dead(tx, chain) {
      assert KeptAt(p, tx.sender, true);
      DeadIs(p[tx.sender], chain, tx.sender, bn, tx);
    }
    forall a ensures LivePendingAt(p', chain, a) {
      assert StaysAt(p, p', a, chain, bn) && KeptAt(p, a, true);
      if a in p && a in p' {
        forall n | n in p'[a].items ensures LivesIn(p'[a].items, n, chain.nonce(a), LimitsFor(chain, a)) {
          DeadIs(p[a], chain, a, bn, p'[a].items[n]);
        }
      }
    }
  }

  ghost predicate LivePendingAt(p: Lists, chain: Chain, a: Address) {
    forall n :: n in ItemsOf(p, a) ==> LivesIn(ItemsOf(p, a), n, chain.nonce(a), LimitsFor(chain, a))
  }

  /** Every pending transaction is alive. */
  ghost predicate LivePending(p: Lists, chain: Chain) { forall a :: LivePendingAt(p, chain, a) }

  lemma NoneDemoted(p: Lists, all: set<Tx>, chain: Chain, bn: nat)
    ensures DropsOutside(all, all, p, p.Keys, chain, bn) && StaysOutside(p, p, p.Keys, chain, bn)
  {
  }

  lemma DeadSender(l: ListState, chain: Chain, a: Address, bn: nat, tx: Tx)
    requires ListFor(a, l, true) && tx in DeadOf(l, chain, a, bn)
    ensures tx.sender == a
  {
  }

  lemma DropsStep(all: set<Tx>, known: set<Tx>, known': set<Tx>, p: Lists, left: set<Address>, chain: Chain, bn: nat,
                  a: Address)
    requires DropsOutside(all, known, p, left, chain, bn) && a in left && a in p && Kept(p, true)
    requires known' == known - DeadOf(p[a], chain, a, bn)
    ensures DropsOutside(all, known', p, left - {a}, chain, bn)
  {
    assert KeptAt(p, a, true);
    var dead := DeadOf(p[a], chain, a, bn);
    forall tx ensures tx in known' <==> tx in all && (tx.sender in left - {a} || !DropsAt(p, chain, bn, tx)) {
      if tx in dead { DeadSender(p[a], chain, a, bn, tx); }
      if tx.sender == a { assert DropsAt(p, chain, bn, tx) <==> tx in dead; }
    }
  }

  lemma StaysStep(p: Lists, q: Lists, q': Lists, left: set<Address>, chain: Chain, bn: nat, a: Address)
    requires StaysOutside(p, q, left, chain, bn) && a in left && q' - {a} == q - {a} && StaysAt(p, q', a, chain, bn)
    ensures StaysOutside(p, q', left - {a}, chain, bn)
  {
    forall b ensures b in left - {a} || StaysAt(p, q', b, chain, bn) {
      if b != a && b !in left {
        assert StaysAt(p, q, b, chain, bn);
        SameElsewhere(q, q', a, b);
      }
    }
  }

  lemma MinusTwice(a: set<Tx>, b: set<Tx>, c: set<Tx>)
    ensures a - b - c == a - (b + c)
  {
  }

  lemma PutTwice(p: Lists, a: Address, l: ListState, l': ListState)
    ensures p[a := l][a := l'] == p[a := l']
  {
  }

  lemma DemotedStarts(l: ListState, chain: Chain, a: Address, bn: nat)
    requires l.strict && StartsBy(l.items, chain.nonce(a))
    ensures RunFrom(Demoted(l, chain, a, bn).items, chain.nonce(a)) && !Gapped(Demoted(l, chain, a, bn), chain.nonce(a))
  {
    var d := Demoted(l, chain, a, bn);
    DemotedRun(l, chain.nonce(a), LimitsFor(chain, a), bn);
    if d.items.Keys != {} { RunHasFront(d.items, chain.nonce(a)); }
  }

  /** The accounts `done` have been promoted, and nothing has changed for the others. */
  ghost predicate PromotedAll(r: Ranks, r': Ranks, chain: Chain, locals: set<Address>, limit: nat, done: seq<Address>) {
    forall a :: PromotedAt(r, r', chain, locals, limit, done, a)
  }

  ghost predicate PromotedAt(r: Ranks, r': Ranks, chain: Chain, locals: set<Address>, limit: nat, done: seq<Address>,
                             a: Address) {
    var h, h' := HoldingOf(r, chain.nonce, a), HoldingOf(r', chain.nonce, a);
    if a in done then Promoted(h, h', chain.nonce(a), LimitsFor(chain, a), a in locals, limit) else h' == h
  }

  /** One account has been promoted, and nothing has changed for the others. */
  ghost predicate PromotesOnly(r: Ranks, r': Ranks, chain: Chain, locals: set<Address>, limit: nat, a: Address) {
    var ok :=
      && Promoted(HoldingOf(r, chain.nonce, a), HoldingOf(r', chain.nonce, a), chain.nonce(a), LimitsFor(chain, a),
                  a in locals, limit)
      && forall b :: b != a ==> HoldingOf(r', chain.nonce, b) == HoldingOf(r, chain.nonce, b);
    ok
  }

  /** One more account; one that comes up again stays as it is. */
  lemma PromotedNext(r: Ranks, r1: Ranks, r2: Ranks, chain: Chain, locals: set<Address>, limit: nat,
                     done: seq<Address>, a: Address)
    requires PromotedAll(r, r1, chain, locals, limit, done)
    requires PromotesOnly(r1, r2, chain, locals, limit, a)
    ensures PromotedAll(r, r2, chain, locals, limit, done + [a])
  {
    forall b ensures PromotedAt(r, r2, chain, locals, limit, done + [a], b) {
      assert PromotedAt(r, r1, chain, locals, limit, done, b);
      if b == a && a in done {
        PromotedTwice(HoldingOf(r, chain.nonce, a), HoldingOf(r1, chain.nonce, a), HoldingOf(r2, chain.nonce, a),
                      chain.nonce(a), LimitsFor(chain, a), a in locals, limit);
      }
    }
  }

  lemma OthersHeld(r: Ranks, a: Address, l: ListState, nonce: Address -> nat, local: bool, limit: nat, r': Ranks)
    requires Promotes(r, a, l, NextNonce(r.virtual, nonce, a), local, limit, r')
    ensures forall b :: b != a ==> HoldingOf(r', nonce, b) == HoldingOf(r, nonce, b)
  {
    forall b | b != a ensures HoldingOf(r', nonce, b) == HoldingOf(r, nonce, b) {
      PromotesOthers(r, a, l, nonce, local, limit, r', b);
    }
  }

  /** What an account has queued is live and lies above its virtual nonce. */
  ghost predicate NothingLeftAt(r: Ranks, chain: Chain, a: Address) {
    var h := HoldingOf(r, chain.nonce, a);
    forall n :: n in h.queue ==> LivesIn(h.queue, n, chain.nonce(a), LimitsFor(chain, a)) && h.next < n
  }

  ghost predicate NothingLeft(r: Ranks, chain: Chain, accounts: seq<Address>) {
    forall a :: a in accounts ==> NothingLeftAt(r, chain, a)
  }

  /** The accounts are promoted and the limits enforced. */
  ghost predicate PromotesVia(c: Contents, c': Contents, r: Ranks, chain: Chain, cfg: Config, accounts: seq<Address>) {
    && c'.locals == c.locals
    && PromotedAll(c.ranks, r, chain, c.locals, cfg.accountQueue, accounts)
    && Limited(r, c'.ranks, c.locals, cfg, chain.nonce) && NothingLeft(c'.ranks, chain, accounts)
    && LostForReason(c.all, c'.all, r, chain, c.locals, cfg, accounts)
    && Sum(Lens(r.pending)) + Sum(Lens(r.queue)) <= |c.all|
  }

  ghost predicate PromotesFor(c: Contents, c': Contents, chain: Chain, cfg: Config, accounts: seq<Address>) {
    exists r :: PromotesVia(c, c', r, chain, cfg, accounts)
  }

  /** Added, and unless it only replaced another, promoted. */
  ghost predicate AddsThen(c: Contents, mid: Contents, c': Contents, tx: Tx, local: bool, t: Terms, replaced: bool,
                           err: Option<PoolError>) {
    && Adds(c, mid, tx, local, t, replaced, err)
    && if err == None && !replaced then PromotesFor(mid, c', t.chain, t.cfg, [tx.sender]) else c' == mid
  }

  ghost predicate AddedOne(c: Contents, c': Contents, tx: Tx, local: bool, t: Terms, err: Option<PoolError>) {
    exists mid, replaced :: AddsThen(c, mid, c', tx, local, t, replaced, err)
  }

  /** Added one after the other, then promoted once for all accounts that gained a transaction. */
  ghost predicate AddedMany(c: Contents, c': Contents, txs: seq<Tx>, local: bool, t: Terms,
                            errs: seq<Option<PoolError>>, replaced: seq<bool>, cs: seq<Contents>,
                            dirty: seq<Address>) {
    && AddsEach(txs, |txs|, local, t, errs, replaced, cs) && cs[0] == c && Gainers(txs, |txs|, errs, replaced, dirty)
    && if dirty == [] then c' == cs[|txs|] else PromotesFor(cs[|txs|], c', t.chain, t.cfg, dirty)
  }

  /** A live transaction with the next nonce that has been queued is ready. */
  lemma NextIsReady(h: Holding, tx: Tx, nonce: nat, lim: Limits)
    requires nonce <= h.next == tx.nonce && Lives(tx, nonce, lim) && Keyed(h.queue)
    requires Interval(h.pending, nonce, h.next) && forall n :: n in h.queue ==> n !in h.pending
    ensures IsReady(h.queue[tx.nonce := tx], h.next, tx.nonce, nonce, lim)
  {
    var q := h.queue[tx.nonce := tx];
    forall j | LivesIn(q, j, nonce, lim) ensures tx.nonce <= j {
      if j != tx.nonce { assert j in h.queue && j !in h.pending; }
    }
    assert StartsRun(q, tx.nonce, tx.nonce, nonce, lim);
  }

  /** What a pool within its limits has once a new transaction with the next nonce of its sender was queued. */
  lemma NextQueued(c: Contents, mid: Contents, tx: Tx, local: bool, t: Terms, replaced: bool)
    requires Consistent(c.ranks.pending, c.ranks.queue, c.all, {})
    requires InStep(c.ranks.pending, c.ranks.virtual, t.chain.nonce)
    requires Adds(c, mid, tx, local, t, replaced, None) && !Overflows(c.all, t.cfg)
    requires tx.nonce == NextNonce(c.ranks.virtual, t.chain.nonce, tx.sender)
    requires !Taken(c.ranks.queue, tx.sender, tx.nonce)
    ensures !replaced && |mid.all| <= |c.all| + 1
    ensures HoldingOf(mid.ranks, t.chain.nonce, tx.sender)
         == (var h := HoldingOf(c.ranks, t.chain.nonce, tx.sender); h.(queue := h.queue[tx.nonce := tx]))
    ensures forall n :: n in ItemsOf(c.ranks.pending, tx.sender) ==> n != tx.nonce
  {
    assert StepOf(c.ranks.pending, c.ranks.virtual, t.chain.nonce, tx.sender);
    assert !Taken(c.ranks.pending, tx.sender, tx.nonce) by {
      assert tx.nonce !in ItemsOf(c.ranks.pending, tx.sender);
    }
    assert mid.all == c.all + {tx};
  }

  lemma QueueKeyed(r: Ranks, all: set<Tx>, a: Address)
    requires Consistent(r.pending, r.queue, all, {})
    ensures Keyed(ItemsOf(r.queue, a))
  {
    assert KeptAt(r.queue, a, false);
  }

  /** Promotion makes it pending. */
  lemma NextPromoted(h0: Holding, h: Holding, tx: Tx, nonce: nat, lim: Limits, local: bool, limit: nat)
    requires nonce <= h0.next == tx.nonce && Lives(tx, nonce, lim) && Keyed(h0.queue)
    requires Interval(h0.pending, nonce, h0.next) && forall n :: n in h0.queue ==> n !in h0.pending
    requires Promoted(h0.(queue := h0.queue[tx.nonce := tx]), h, nonce, lim, local, limit)
    ensures tx.nonce in h.pending && h.pending[tx.nonce] == tx && tx.nonce < h.next
  {
    NextIsReady(h0, tx, nonce, lim);
    var h1 := h0.(queue := h0.queue[tx.nonce := tx]);
    assert SameAt(h1.queue, h.pending, tx.nonce);
  }

  /** The pool holds fewer transactions than may be pending, and `tx` is live, has the next nonce of its sender, and no
      other with that nonce is queued. */
  ghost predicate NextAndRoom(c: Contents, tx: Tx, t: Terms) {
    && |c.all| < t.cfg.globalSlots && !Taken(c.ranks.queue, tx.sender, tx.nonce)
    && tx.nonce == NextNonce(c.ranks.virtual, t.chain.nonce, tx.sender)
    && Lives(tx, t.chain.nonce(tx.sender), LimitsFor(t.chain, tx.sender))
  }

  /** If it is accepted it is pending afterwards, and the virtual nonce has passed it. */
  lemma NextBecomesPending(c: Contents, c': Contents, tx: Tx, local: bool, t: Terms)
    requires Consistent(c.ranks.pending, c.ranks.queue, c.all, {})
    requires InStep(c.ranks.pending, c.ranks.virtual, t.chain.nonce)
    requires AddedOne(c, c', tx, local, t, None) && NextAndRoom(c, tx, t)
    ensures Holds(c'.ranks.pending, tx) && tx.nonce < NextNonce(c'.ranks.virtual, t.chain.nonce, tx.sender)
  {
    var a := tx.sender;
    var mid, replaced :| AddsThen(c, mid, c', tx, local, t, replaced, None);
    NextQueued(c, mid, tx, local, t, replaced);
    var r :| PromotesVia(mid, c', r, t.chain, t.cfg, [a]);
    assert PromotedAt(mid.ranks, r, t.chain, mid.locals, t.cfg.accountQueue, [a], a);
    assert StepOf(c.ranks.pending, c.ranks.virtual, t.chain.nonce, a);
    QueueKeyed(c.ranks, c.all, a);
    QueuedApart(c.ranks, c.all, a);
    NextPromoted(HoldingOf(c.ranks, t.chain.nonce, a), HoldingOf(r, t.chain.nonce, a), tx, t.chain.nonce(a),
                 LimitsFor(t.chain, a), a in mid.locals, t.cfg.accountQueue);
    assert c'.ranks.pending == r.pending && c'.ranks.virtual == r.virtual;
  }

  /** Once its sender has been promoted, a known transaction below the virtual nonce, or at it, is pending. */
  lemma KnownIsPending(c: Contents, chain: Chain, accounts: seq<Address>, tx: Tx)
    requires Consistent(c.ranks.pending, c.ranks.queue, c.all, {}) && NothingLeft(c.ranks, chain, accounts)
    requires tx in c.all && tx.sender in accounts && tx.nonce <= NextNonce(c.ranks.virtual, chain.nonce, tx.sender)
    ensures Holds(c.ranks.pending, tx)
  {
    HoldsKnown(c.ranks, chain.nonce, c.all, tx);
    assert NothingLeftAt(c.ranks, chain, tx.sender);
  }

  lemma QueuesStay(r0: Ranks, r: Ranks, r': Ranks, chain: Chain, locals: set<Address>, cfg: Config,
                   accounts: seq<Address>)
    requires PromotedAll(r0, r, chain, locals, cfg.accountQueue, accounts) && Limited(r, r', locals, cfg, chain.nonce)
    ensures NothingLeft(r', chain, accounts)
  {
    var last :| Truncated(r.queue, r'.queue, locals, last);
    forall a | a in accounts ensures NothingLeftAt(r', chain, a) {
      assert PromotedAt(r0, r, chain, locals, cfg.accountQueue, accounts, a);
      assert TruncatedAt(r.queue, r'.queue, locals, last, a);
      assert LowersAt(r.virtual, r'.virtual, chain.nonce, a);
      var h0, h, h' := HoldingOf(r0, chain.nonce, a), HoldingOf(r, chain.nonce, a), HoldingOf(r', chain.nonce, a);
      forall n | n in h'.queue
        ensures LivesIn(h'.queue, n, chain.nonce(a), LimitsFor(chain, a)) && h'.next < n
      {
        assert SameAt(h0.queue, h.queue, n) && h'.queue[n] == h.queue[n];
      }
    }
  }

  /** Why promotion may lose a known transaction: it is dead, or it is remote and a limit is reached: that of its
      sender's queue, that of all pending or that of all queued transactions. */
  ghost predicate LossExcused(tx: Tx, r: Ranks, chain: Chain, locals: set<Address>, cfg: Config,
                              accounts: seq<Address>) {
    || (tx.sender in accounts && !Lives(tx, chain.nonce(tx.sender), LimitsFor(chain, tx.sender)))
    || (tx.sender !in locals && Crowded(tx.sender, r, cfg))
  }

  /** A limit is reached that remote transactions of `a` count against. */
  ghost predicate Crowded(a: Address, r: Ranks, cfg: Config) {
    || |ItemsOf(r.queue, a)| >= cfg.accountQueue
    || Sum(Lens(r.pending)) > cfg.globalSlots || Sum(Lens(r.queue)) > cfg.globalQueue
  }

  ghost predicate LostForReason(all: set<Tx>, all': set<Tx>, r: Ranks, chain: Chain, locals: set<Address>, cfg: Config,
                                accounts: seq<Address>) {
    && all' <= all
    && forall tx :: tx in all && tx !in all' ==> LossExcused(tx, r, chain, locals, cfg, accounts)
  }

  ghost predicate HoldsTx(h: Holding, tx: Tx) {
    (tx.nonce in h.pending && h.pending[tx.nonce] == tx) || (tx.nonce in h.queue && h.queue[tx.nonce] == tx)
  }

  lemma HoldsKnown(r: Ranks, nonce: Address -> nat, all: set<Tx>, tx: Tx)
    requires Consistent(r.pending, r.queue, all, {})
    ensures tx in all <==> HoldsTx(HoldingOf(r, nonce, tx.sender), tx)
  {
    assert tx in all <==> Holds(r.pending, tx) || Holds(r.queue, tx) || tx in {};
  }

  /** Promoting one account. */
  lemma PromotionKeeps(h: Holding, h': Holding, tx: Tx, nonce: nat, lim: Limits, local: bool, limit: nat)
    requires Promoted(h, h', nonce, lim, local, limit) && (forall n :: n in h.queue ==> n !in h.pending)
    ensures HoldsTx(h, tx) && !HoldsTx(h', tx) ==> !Lives(tx, nonce, lim) || (!local && |h'.queue| >= limit)
    ensures HoldsTx(h', tx) ==> HoldsTx(h, tx)
  {
    var n := tx.nonce;
    if n in h'.pending && n !in h.pending { assert SameAt(h.queue, h'.pending, n); }
    if n in h.pending { assert SameAt(h.pending, h'.pending, n); }
    if n in h'.queue { assert SameAt(h.queue, h'.queue, n); }
  }

  /** Equalising takes nothing from local accounts. */
  lemma EqualizedLocal(p: Lists, p': Lists, locals: set<Address>, cfg: Config, a: Address)
    requires Equalized(p, p', locals, cfg) && a in locals
    ensures ItemsOf(p', a) == ItemsOf(p, a)
  {
    if Sum(Lens(p)) > cfg.globalSlots {
      assert CutAt(p, p', Lens(p'), a);
      if a in p {
        assert |p'[a].items| == |p[a].items|;
        SameSize(p[a].items, p'[a].items);
      }
    }
  }

  lemma SameSize(m: NonceMap, m': NonceMap)
    requires |m'| == |m| && forall n :: n in m' ==> n in m && m'[n] == m[n]
    ensures m' == m
  {
    assert m'.Keys <= m.Keys;
    if n :| n in m && n !in m' { FewerKeys(m, m', n); }
  }

  lemma EqualizedPart(p: Lists, p': Lists, locals: set<Address>, cfg: Config, a: Address, n: nat)
    requires Equalized(p, p', locals, cfg) && n in ItemsOf(p', a)
    ensures SameAt(ItemsOf(p, a), ItemsOf(p', a), n)
  {
    if Sum(Lens(p)) > cfg.globalSlots { assert CutAt(p, p', Lens(p'), a); }
  }

  /** Enforcing the limits. */
  lemma LimitsKeep(r: Ranks, r': Ranks, chain: Chain, locals: set<Address>, cfg: Config, tx: Tx)
    requires Limited(r, r', locals, cfg, chain.nonce)
    ensures var h, h' := HoldingOf(r, chain.nonce, tx.sender), HoldingOf(r', chain.nonce, tx.sender);
      && (HoldsTx(h', tx) ==> HoldsTx(h, tx))
      && (HoldsTx(h, tx) && !HoldsTx(h', tx) ==>
           && tx.sender !in locals
           && (Sum(Lens(r.pending)) > cfg.globalSlots || Sum(Lens(r.queue)) > cfg.globalQueue))
  {
    var a, n := tx.sender, tx.nonce;
    var last :| Truncated(r.queue, r'.queue, locals, last);
    assert TruncatedAt(r.queue, r'.queue, locals, last, a);
    if a in locals { EqualizedLocal(r.pending, r'.pending, locals, cfg, a); }
    if n in ItemsOf(r'.pending, a) { EqualizedPart(r.pending, r'.pending, locals, cfg, a, n); }
  }

  lemma LossesExplained(r0: Ranks, known: set<Tx>, r: Ranks, r': Ranks, all: set<Tx>, chain: Chain,
                        locals: set<Address>, cfg: Config, accounts: seq<Address>)
    requires Consistent(r0.pending, r0.queue, known, {}) && Consistent(r'.pending, r'.queue, all, {})
    requires PromotedAll(r0, r, chain, locals, cfg.accountQueue, accounts) && Limited(r, r', locals, cfg, chain.nonce)
    ensures LostForReason(known, all, r, chain, locals, cfg, accounts)
  {
    forall tx ensures tx in all ==> tx in known
              ensures tx in known && tx !in all ==> LossExcused(tx, r, chain, locals, cfg, accounts) {
      var a := tx.sender;
      HoldsKnown(r0, chain.nonce, known, tx);
      HoldsKnown(r', chain.nonce, all, tx);
      LimitsKeep(r, r', chain, locals, cfg, tx);
      assert PromotedAt(r0, r, chain, locals, cfg.accountQueue, accounts, a);
      if a in accounts {
        QueuedApart(r0, known, a);
        PromotionKeeps(HoldingOf(r0, chain.nonce, a), HoldingOf(r, chain.nonce, a), tx, chain.nonce(a),
                       LimitsFor(chain, a), a in locals, cfg.accountQueue);
      }
    }
  }

  /** Promotion adds nothing to what is known. */
  lemma PromotedCount(r0: Ranks, known: set<Tx>, r: Ranks, all: set<Tx>, chain: Chain, locals: set<Address>,
                      cfg: Config, accounts: seq<Address>)
    requires Consistent(r0.pending, r0.queue, known, {}) && Consistent(r.pending, r.queue, all, {})
    requires PromotedAll(r0, r, chain, locals, cfg.accountQueue, accounts)
    ensures Sum(Lens(r.pending)) + Sum(Lens(r.queue)) <= |known|
  {
    forall tx | tx in all ensures tx in known {
      HoldsKnown(r0, chain.nonce, known, tx);
      HoldsKnown(r, chain.nonce, all, tx);
      PromotedHolds(r0, known, r, chain, locals, cfg, accounts, tx);
    }
    CountsAddUp(r.pending, r.queue, all);
    SetSize(all, known);
  }

  lemma PromotedHolds(r0: Ranks, known: set<Tx>, r: Ranks, chain: Chain, locals: set<Address>, cfg: Config,
                      accounts: seq<Address>, tx: Tx)
    requires Consistent(r0.pending, r0.queue, known, {})
    requires PromotedAll(r0, r, chain, locals, cfg.accountQueue, accounts)
    ensures HoldsTx(HoldingOf(r, chain.nonce, tx.sender), tx) ==> HoldsTx(HoldingOf(r0, chain.nonce, tx.sender), tx)
  {
    var a := tx.sender;
    assert PromotedAt(r0, r, chain, locals, cfg.accountQueue, accounts, a);
    if a in accounts {
      QueuedApart(r0, known, a);
      PromotionKeeps(HoldingOf(r0, chain.nonce, a), HoldingOf(r, chain.nonce, a), tx, chain.nonce(a),
                     LimitsFor(chain, a), a in locals, cfg.accountQueue);
    }
  }

  lemma QueuedApart(r: Ranks, all: set<Tx>, a: Address)
    requires Consistent(r.pending, r.queue, all, {})
    ensures forall n :: n in ItemsOf(r.queue, a) ==> n !in ItemsOf(r.pending, a)
  {
    forall n | n in ItemsOf(r.queue, a) ensures n !in ItemsOf(r.pending, a) {
      assert Taken(r.pending, a, n) ==> !Taken(r.queue, a, n);
    }
  }

  /** Below the limit pending lists are left alone; above it they are cut to their lowest nonces at one fair level. */
  ghost predicate Equalized(p: Lists, p': Lists, locals: set<Address>, cfg: Config) {
    if Sum(Lens(p)) <= cfg.globalSlots then p' == p
    else
      && Cut(p, p', Lens(p'))
      && exists level :: Fair(Lens(p), Lens(p'), locals, cfg.accountSlots, cfg.globalSlots, level)
  }

  /** Both limits are enforced; within them nothing changes. */
  ghost predicate Limited(r: Ranks, r': Ranks, locals: set<Address>, cfg: Config, nonce: Address -> nat) {
    var ok :=
      && LimitedPending(r, r', locals, cfg, nonce) && QueueCut(r.queue, r'.queue, locals)
      && (Sum(Lens(r.queue)) <= cfg.globalQueue ==> r'.queue == r.queue);
    ok
  }

  ghost predicate LimitedPending(r: Ranks, r': Ranks, locals: set<Address>, cfg: Config, nonce: Address -> nat) {
    var ok :=
      && Equalized(r.pending, r'.pending, locals, cfg) && Lowers(r.virtual, r'.virtual, nonce)
      && (Sum(Lens(r.pending)) <= cfg.globalSlots ==> r'.pending == r.pending && r'.virtual == r.virtual);
    ok
  }

  ghost predicate QueueCut(q: Lists, q': Lists, locals: set<Address>) {
    exists last :: Truncated(q, q', locals, last)
  }

  /** The queue of `a` was left alone or emptied. */
  ghost predicate AllOrNothing(q: Lists, q': Lists, a: Address) {
    ItemsOf(q', a) == ItemsOf(q, a) || ItemsOf(q', a).Keys == {}
  }

  ghost predicate TruncatedAt(q: Lists, q': Lists, locals: set<Address>, last: Address, a: Address) {
    && LowPart(ItemsOf(q, a), ItemsOf(q', a))
    && (a in locals ==> ItemsOf(q', a) == ItemsOf(q, a))
    && (a != last ==> AllOrNothing(q, q', a))
  }

  /** Local queues are left alone, remote ones emptied, and one of them, `last`, may have lost its highest nonces
      only. */
  ghost predicate Truncated(q: Lists, q': Lists, locals: set<Address>, last: Address) {
    forall a :: TruncatedAt(q, q', locals, last, a)
  }

  ghost predicate TruncatingAt(q: Lists, q': Lists, waiting: set<Address>, more: bool, a: Address) {
    && (a in waiting ==> ItemsOf(q', a) == ItemsOf(q, a))
    && (more ==> AllOrNothing(q, q', a))
  }

  /** The accounts in `waiting` are still as they were; while there is more to drop no queue has been cut in part. */
  ghost predicate Truncating(q: Lists, q': Lists, locals: set<Address>, waiting: set<Address>, more: bool) {
    forall a :: TruncatingAt(q, q', waiting, more, a)
  }

  lemma TruncateStep(q: Lists, mid: Lists, q': Lists, locals: set<Address>, waiting: set<Address>, a: Address,
                     more: bool)
    requires Truncating(q, mid, locals, waiting, true) && a in waiting && waiting !! locals
    requires exists last :: Truncated(q, mid, locals, last)
    requires q' - {a} == mid - {a} && LowPart(ItemsOf(mid, a), ItemsOf(q', a)) && (more ==> |ItemsOf(q', a)| == 0)
    ensures Truncating(q, q', locals, waiting - {a}, more) && Truncated(q, q', locals, a)
  {
    var last :| Truncated(q, mid, locals, last);
    forall b ensures TruncatingAt(q, q', waiting - {a}, more, b) && TruncatedAt(q, q', locals, a, b) {
      assert TruncatingAt(q, mid, waiting, true, b) && TruncatedAt(q, mid, locals, last, b);
      if b != a { SameElsewhere(mid, q', a, b); }
    }
  }

  lemma LowTrans(m: NonceMap, r: NonceMap, t: NonceMap)
    requires LowPart(m, r) && LowPart(r, t)
    ensures LowPart(m, t)
  {
  }

  /** The first `n` transactions of a batch, one after the other, with what the pool holds in between. */
  ghost predicate AddsEach(txs: seq<Tx>, n: nat, local: bool, t: Terms, errs: seq<Option<PoolError>>,
                           replaced: seq<bool>, cs: seq<Contents>) {
    && n <= |txs| && |errs| == |replaced| == n && |cs| == n + 1
    && forall i :: 0 <= i < n ==> AddsAt(txs, local, t, errs, replaced, cs, i)
  }

  ghost predicate AddsAt(txs: seq<Tx>, local: bool, t: Terms, errs: seq<Option<PoolError>>, replaced: seq<bool>,
                         cs: seq<Contents>, i: nat) {
    && i < |txs| && i < |errs| && i < |replaced| && i + 1 < |cs|
    && Adds(cs[i], cs[i + 1], txs[i], local, t, replaced[i], errs[i])
  }

  lemma AddsSnoc(txs: seq<Tx>, n: nat, local: bool, t: Terms, errs: seq<Option<PoolError>>, replaced: seq<bool>,
                 cs: seq<Contents>, err: Option<PoolError>, r: bool, c: Contents)
    requires n < |txs| && AddsEach(txs, n, local, t, errs, replaced, cs) && Adds(cs[n], c, txs[n], local, t, r, err)
    ensures AddsEach(txs, n + 1, local, t, errs + [err], replaced + [r], cs + [c])
  {
    forall i | 0 <= i < n + 1 ensures AddsAt(txs, local, t, errs + [err], replaced + [r], cs + [c], i) {
      if i < n { assert AddsAt(txs, local, t, errs, replaced, cs, i); }
    }
  }

  /** The senders of the first `n` transactions that were accepted without replacing another. */
  ghost predicate Gainers(txs: seq<Tx>, n: nat, errs: seq<Option<PoolError>>, replaced: seq<bool>,
                          dirty: seq<Address>) {
    && n <= |txs| && |errs| == |replaced| == n
    && forall a :: a in dirty <==> GainsOne(txs, n, errs, replaced, a)
  }

  ghost predicate GainsOne(txs: seq<Tx>, n: nat, errs: seq<Option<PoolError>>, replaced: seq<bool>, a: Address) {
    && n <= |txs| && |errs| == |replaced| == n
    && exists i :: 0 <= i < n && errs[i] == None && !replaced[i] && txs[i].sender == a
  }

  lemma GainersSnoc(txs: seq<Tx>, n: nat, errs: seq<Option<PoolError>>, replaced: seq<bool>, dirty: seq<Address>,
                    err: Option<PoolError>, r: bool)
    requires n < |txs| && Gainers(txs, n, errs, replaced, dirty)
    ensures var a := txs[n].sender;
      Gainers(txs, n + 1, errs + [err], replaced + [r],
              if err == None && !r && a !in dirty then dirty + [a] else dirty)
  {
    var a, errs', replaced' := txs[n].sender, errs + [err], replaced + [r];
    forall b ensures GainsOne(txs, n + 1, errs', replaced', b) <==>
      GainsOne(txs, n, errs, replaced, b) || (err == None && !r && a == b)
    {
      if i :| 0 <= i < n && errs[i] == None && !replaced[i] && txs[i].sender == b {
        assert errs'[i] == None && !replaced'[i];
      }
      if err == None && !r && a == b { assert errs'[n] == None && !replaced'[n]; }
    }
  }

  /** A pending transaction is gone: what lay below it stays pending, and the virtual nonce falls to its own. */
  ghost predicate Unpended(p: Lists, v: map<Address, nat>, tx: Tx, p': Lists, v': map<Address, nat>,
                           nonce: Address -> nat) {
    && tx.sender in p
    && p' == PutList(p, tx.sender, WithoutNonce(p[tx.sender], tx.nonce)) && v' == Lowered(v, nonce, tx.sender, tx.nonce)
  }

  /** The pool holds as many transactions as it may. */
  predicate Overflows(all: set<Tx>, cfg: Config) { |all| >= cfg.globalSlots + cfg.globalQueue }

  /** A remote transaction no dearer than any in the pool. */
  ghost predicate TooCheap(tx: Tx, all: set<Tx>, locals: set<Address>) {
    !IsLocal(tx, locals) && all != {} && forall t :: t in all ==> tx.price <= t.price
  }

  /** What is dropped is remote, and no dearer than any remote transaction that stays. */
  ghost predicate DropsCheapest(all: set<Tx>, all': set<Tx>, locals: set<Address>) {
    forall d :: d in all && d !in all' ==> DroppedCheap(d, all', locals)
  }

  ghost predicate DroppedCheap(d: Tx, all': set<Tx>, locals: set<Address>) {
    !IsLocal(d, locals) && forall t :: t in all' && !IsLocal(t, locals) ==> d.price <= t.price
  }

  lemma DiscardCheapest(items: seq<Tx>, drop: seq<Tx>, all: set<Tx>, locals: set<Address>, slack: int)
    requires Swept(items, drop, all, locals, slack)
    requires forall d, t :: d in drop && t in multiset(items) && t in all && !IsLocal(t, locals) ==> d.price <= t.price
    ensures DropsCheapest(all, Minus(all, drop), locals)
  {
    MinusIs(all, drop);
    forall d | d in all && d !in Minus(all, drop) ensures DroppedCheap(d, Minus(all, drop), locals) {
    }
  }

  /** What making room in a full pool achieves: something goes if anything remote is there, and never more than it takes
      to leave one place free. A transaction with two entries in the price heap can be handed out twice, so fewer may go
      than it takes. */
  ghost predicate MakesRoom(all: set<Tx>, all': set<Tx>, locals: set<Address>, cfg: Config) {
    && |all'| + 1 >= cfg.globalSlots + cfg.globalQueue
    && ((exists t :: t in all && !IsLocal(t, locals)) ==> |all'| < |all|)
  }

  lemma {:induction false} MinusSize(all: set<Tx>, drop: seq<Tx>)
    ensures |all| - |drop| <= |Minus(all, drop)| && Minus(all, drop) <= all
    decreases |drop|
  {
    if drop != [] { MinusSize(all - {drop[0]}, drop[1..]); }
  }

  lemma DiscardMakesRoom(items: seq<Tx>, drop: seq<Tx>, all: set<Tx>, locals: set<Address>, slack: int, cfg: Config)
    requires Swept(items, drop, all, locals, slack) && Overflows(all, cfg) && cfg.globalSlots + cfg.globalQueue >= 1
    requires |drop| <= |all| - (cfg.globalSlots + cfg.globalQueue - 1)
    requires |drop| < |all| - (cfg.globalSlots + cfg.globalQueue - 1) ==>
      forall t :: t in all && !IsLocal(t, locals) ==> t in drop
    ensures MakesRoom(all, Minus(all, drop), locals, cfg)
  {
    MinusSize(all, drop);
    MinusIs(all, drop);
    if t :| t in all && !IsLocal(t, locals) {
      assert drop != [];
      assert drop[0] in all && drop[0] !in Minus(all, drop);
      assert Minus(all, drop) <= all - {drop[0]};
      SetSize(Minus(all, drop), all - {drop[0]});
    }
  }

  lemma {:induction false} SetSize(a: set<Tx>, b: set<Tx>)
    requires a <= b
    ensures |a| <= |b|
  {
    assert b == a + (b - a) && a !! b - a;
  }

  /** The list a new transaction would go into: the pending one if its slot there is taken, else the queue. */
  function SlotList(p: Lists, q: Lists, tx: Tx): ListState {
    if Taken(p, tx.sender, tx.nonce) then p[tx.sender] else ListOf(q, tx.sender, false)
  }

  method Listed(s: set<Address>) returns (r: seq<Address>)
    ensures forall a :: a in r <==> a in s
  {
    var left := s;
    r := [];
    while left != {}
      invariant left <= s && forall a :: a in r <==> a in s && a !in left
      decreases left
    {
      var a :| a in left;
      r, left := r + [a], left - {a};
    }
  }

  ghost predicate SyncedAt(p: Lists, v: map<Address, nat>, r: map<Address, nat>, left: set<Address>, a: Address) {
    if a in p && a !in left then a in r && FullAt(p, a) && r[a] == Max(p[a].items.Keys) + 1
    else (a in r <==> a in v) && (a in r ==> r[a] == v[a])
  }

  /** reset: every pending account's virtual nonce is one past its last pending nonce. */
  method LastNonces(p: Lists, v: map<Address, nat>) returns (r: map<Address, nat>)
    requires NoEmpty(p)
    ensures r == Synced(p, v)
  {
    var left := p.Keys;
    r := v;
    while left != {}
      invariant left <= p.Keys && forall a :: SyncedAt(p, v, r, left, a)
      decreases left
    {
      var addr :| addr in left;
      assert FullAt(p, addr);
      ghost var was, before := r, left;
      r, left := r[addr := Max(p[addr].items.Keys) + 1], left - {addr};
      forall a ensures SyncedAt(p, v, r, left, a) { assert SyncedAt(p, v, was, before, a); }
    }
    forall a ensures (a in r <==> a in Synced(p, v)) && (a in r ==> r[a] == Synced(p, v)[a]) {
      assert SyncedAt(p, v, r, {}, a);
    }
  }

  /** The set `all` without the members of `drop`, one by one. */
  ghost function Minus(all: set<Tx>, drop: seq<Tx>): set<Tx> {
    if drop == [] then all else Minus(all - {drop[0]}, drop[1..])
  }

  lemma {:induction false} MinusIs(all: set<Tx>, drop: seq<Tx>)
    ensures forall tx :: tx in Minus(all, drop) <==> tx in all && tx !in drop
    decreases |drop|
  {
    if drop != [] {
      MinusIs(all - {drop[0]}, drop[1..]);
      assert drop == [drop[0]] + drop[1..];
    }
  }

  method Count(m: Lengths) returns (n: nat)
    ensures n == Sum(m)
  {
    n := 0;
    var left := m;
    while left.Keys != {}
      invariant n + Sum(left) == Sum(m)
      decreases left.Keys
    {
      var a :| a in left.Keys;
      SumSplit(left, a);
      n := n + left[a];
      left := left - {a};
    }
    SumEmpty(left);
  }

  /** prque.Pop: an account of highest priority. */
  method Biggest(s: set<Address>, prio: Lengths) returns (a: Address)
    requires s != {} && forall b :: b in s ==> b in prio
    ensures a in s && forall b :: b in s ==> prio[b] <= prio[a]
  {
    a :| a in s;
    var left := s - {a};
    while left != {}
      invariant a in s && left <= s && forall b :: b in s && b !in left ==> prio[b] <= prio[a]
      decreases left
    {
      var b :| b in left;
      if prio[a] < prio[b] { a := b; }
      left := left - {b};
    }
  }
}
