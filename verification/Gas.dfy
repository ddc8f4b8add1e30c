/** core/gaspool.go, core/state_transition.go and core/state_processor.go: gas is bought, used, refunded and paid for,
    and value crosses shards, over the transactions of a block. */
module Gas {
  import opened Common
  import opened Ledger

  type Address = nat
  type Balances = map<Address, int>

  const MaxUint64: int := 0xffff_ffff_ffff_ffff

  class GasPool {
    var gas: nat

    constructor (limit: nat)
      ensures gas == limit
    {
      gas := limit;
    }

    /** AddGas panics above the 64-bit range. */
    method AddGas(amount: nat)
      requires gas + amount <= MaxUint64
      modifies this
      ensures gas == old(gas) + amount
    {
      gas := gas + amount;
    }

    method SubGas(amount: nat) returns (ok: bool)
      modifies this
      ensures ok == (amount <= old(gas))
      ensures gas == if ok then old(gas) - amount else old(gas)
    {
      ok := amount <= gas;
      if ok { gas := gas - amount; }
    }
  }

  // ---------- fees ----------

  /** Who gets the fees: the block producer before staking, then collectors with shares in units of 10^-18. */
  datatype Collector = Collector(address: Address, share: nat)
  datatype Fees = ToProducer(coinbase: Address) | ToCollectors(collectors: seq<Collector>)

  const Precision: int := 1_000_000_000_000_000_000

  /** The price of some gas. */
  function Cost(gas: nat, price: nat): nat { gas * price }

  /** What a share of the fee comes to, rounded down. */
  function Part(share: nat, fee: nat): nat { share * fee / Precision }

  ghost function Parts(cs: seq<Collector>, fee: nat): nat {
    if cs == [] then 0 else Parts(cs[..|cs| - 1], fee) + Part(cs[|cs| - 1].share, fee)
  }

  ghost function Shares(cs: seq<Collector>): nat {
    if cs == [] then 0 else Shares(cs[..|cs| - 1]) + cs[|cs| - 1].share
  }

  /** What reaches an account out of a fee. */
  ghost function Collected(fees: Fees, fee: nat): nat {
    match fees
    case ToProducer(_) => fee
    case ToCollectors(cs) => Parts(cs, fee)
  }

  /** The producer takes all, or the shares come to at most one. */
  ghost predicate Fair(fees: Fees) { fees.ToCollectors? ==> Shares(fees.collectors) <= Precision }

  /** A part falls short of the exact share by less than one. */
  lemma PartBound(share: nat, fee: nat)
    ensures Part(share, fee) * Precision <= share * fee < (Part(share, fee) + 1) * Precision
  {
  }

  lemma {:induction false} PartsBound(cs: seq<Collector>, fee: nat)
    ensures Parts(cs, fee) * Precision <= Shares(cs) * fee
    decreases |cs|
  {
    if cs != [] {
      var n := |cs| - 1;
      PartsBound(cs[..n], fee);
      PartBound(cs[n].share, fee);
      assert Shares(cs) * fee == Shares(cs[..n]) * fee + cs[n].share * fee;
    }
  }

  /** With shares of at most one, no more than the fee is collected. */
  lemma CollectedBound(fees: Fees, fee: nat)
    requires Fair(fees)
    ensures Collected(fees, fee) <= fee
  {
    if fees.ToCollectors? {
      PartsBound(fees.collectors, fee);
      assert Shares(fees.collectors) * fee <= Precision * fee;
    }
  }

  /** Adds to an account. */
  function Plus(b: Balances, a: Address, x: int): Balances { b[a := Get(b, a) + x] }

  lemma PlusSum(b: Balances, a: Address, x: int)
    ensures Sum(Plus(b, a, x)) == Sum(b) + x
    ensures Solvent(b) && Get(b, a) + x >= 0 ==> Solvent(Plus(b, a, x))
  {
    SumPut(b, a, Get(b, a) + x);
  }

  /** The balances after each collector got its part. */
  ghost function Shared(b: Balances, cs: seq<Collector>, fee: nat): Balances {
    if cs == [] then b
    else Plus(Shared(b, cs[..|cs| - 1], fee), cs[|cs| - 1].address, Part(cs[|cs| - 1].share, fee))
  }

  ghost function WithFees(b: Balances, fees: Fees, fee: nat): Balances {
    match fees
    case ToProducer(a) => Plus(b, a, fee)
    case ToCollectors(cs) => Shared(b, cs, fee)
  }

  /** What account `a` collects out of a fee. */
  ghost function Paid(fees: Fees, fee: nat, a: Address): nat {
    match fees
    case ToProducer(producer) => if a == producer then fee else 0
    case ToCollectors(cs) => PaidOf(cs, fee, a)
  }

  ghost function PaidOf(cs: seq<Collector>, fee: nat, a: Address): nat {
    if cs == [] then 0 else
      var c := cs[|cs| - 1];
      PaidOf(cs[..|cs| - 1], fee, a) + if a == c.address then Part(c.share, fee) else 0
  }

  /** Every account gets what it collects, and nobody else gets anything. */
  lemma FeesPaid(b: Balances, fees: Fees, fee: nat, a: Address)
    ensures Get(WithFees(b, fees, fee), a) == Get(b, a) + Paid(fees, fee, a)
  {
    if fees.ToCollectors? { SharesPaid(b, fees.collectors, fee, a); }
  }

  lemma {:induction false} SharesPaid(b: Balances, cs: seq<Collector>, fee: nat, a: Address)
    ensures Get(Shared(b, cs, fee), a) == Get(b, a) + PaidOf(cs, fee, a)
    decreases |cs|
  {
    if cs != [] { SharesPaid(b, cs[..|cs| - 1], fee, a); }
  }

  /** collectGas. */
  method CollectGas(b: Balances, fees: Fees, fee: nat) returns (b': Balances)
    requires Solvent(b)
    ensures b' == WithFees(b, fees, fee) && Solvent(b') && Sum(b') == Sum(b) + Collected(fees, fee)
  {
    match fees
    case ToProducer(a) =>
      PlusSum(b, a, fee);
      b' := Plus(b, a, fee);
    case ToCollectors(cs) =>
      b' := b;
      for i := 0 to |cs|
        invariant b' == Shared(b, cs[..i], fee) && Solvent(b') && Sum(b') == Sum(b) + Parts(cs[..i], fee)
      {
        assert cs[..i + 1][..i] == cs[..i];
        var part := Part(cs[i].share, fee);
        PlusSum(b', cs[i].address, part);
        b' := Plus(b', cs[i].address, part);
      }
      assert cs[..|cs|] == cs;
  }

  // ---------- running a message ----------

  /** A cross-shard receipt. */
  datatype Receipt = Receipt(to: Option<Address>, amount: nat)

  /** What executing code comes to, besides the transfer of the message's value. `cx` is a receipt for another shard
      issued by a precompile. `burned` is value that code destroys: nested calls of a cross-shard transaction take what
      they forward from the caller and give it to nobody. */
  datatype Outcome = Outcome(balances: Balances, staked: int, gasLeft: nat, refund: nat, failed: bool,
                             cx: Option<Receipt>, burned: nat)

  function Amount(cx: Option<Receipt>): nat { if cx.Some? then cx.value.amount else 0 }

  /** Execution uses gas it was given, overdraws nobody, creates no value and says what it burns. */
  ghost predicate Behaves(b: Balances, staked: int, gas: nat, o: Outcome) {
    && o.gasLeft <= gas
    && (Solvent(b) ==> Solvent(o.balances))
    && Sum(o.balances) + o.staked + Amount(o.cx) + o.burned == Sum(b) + staked
  }

  datatype TxType = SameShard | SubtractionOnly | Invalid

  type Code = (Balances, int, nat) -> Outcome

  ghost predicate BehavesAlways(code: Code) {
    forall b, staked, gas :: Behaves(b, staked, gas, code(b, staked, gas))
  }

  /** `to` is none for a contract creation, and `created` the address of its contract. */
  datatype Message = Message(from: Address, to: Option<Address>, created: Address, value: nat, gas: nat, price: nat,
                             intrinsic: nat, nonceOk: bool, code: Code)

  /** Where the value goes on this shard. */
  function Target(m: Message): Address { if m.to.Some? then m.to.value else m.created }

  /** How the value moves: a contract creation always transfers it on this shard, whatever the transaction's type. */
  function Moving(m: Message, txType: TxType): TxType { if m.to == None then SameShard else txType }

  /** Transfer: a cross-shard transaction only takes the value away here. */
  function Transfer(b: Balances, from: Address, to: Address, value: nat, txType: TxType): Balances {
    var b1 := if txType.Invalid? then b else Plus(b, from, 0 - value);
    if txType.SameShard? then Plus(b1, to, value) else b1
  }

  /** What leaves the shard with a transfer. */
  function Leaving(value: nat, txType: TxType): nat { if txType.SubtractionOnly? then value else 0 }

  /** What leaves the shard with a message. */
  function Leaves(m: Message, txType: TxType): nat { Leaving(m.value, Moving(m, txType)) }

  lemma TransferSum(b: Balances, from: Address, to: Address, value: nat, txType: TxType)
    requires !txType.Invalid?
    ensures Sum(Transfer(b, from, to, value, txType)) + Leaving(value, txType) == Sum(b)
    ensures Solvent(b) && value <= Get(b, from) ==> Solvent(Transfer(b, from, to, value, txType))
  {
    var b1 := Plus(b, from, 0 - value);
    PlusSum(b, from, 0 - value);
    PlusSum(b1, to, value);
  }

  /** A transfer on this shard takes the value from the sender and gives it to the recipient; one to another shard only
      takes it from the sender. Nobody else is touched. */
  lemma TransferMoves(b: Balances, from: Address, to: Address, value: nat, txType: TxType, a: Address)
    requires !txType.Invalid?
    ensures var b' := Transfer(b, from, to, value, txType);
      && (from != to || txType.SubtractionOnly? ==> Get(b', from) == Get(b, from) - value)
      && (from != to && txType.SameShard? ==> Get(b', to) == Get(b, to) + value)
      && (from == to && txType.SameShard? ==> Get(b', to) == Get(b, to))
      && (a != from && a != to ==> Get(b', a) == Get(b, a))
      && (a != from && txType.SubtractionOnly? ==> Get(b', a) == Get(b, a))
  {
    assert Get(Plus(b, from, 0 - value), from) == Get(b, from) - value;
  }

  /** What the code of a message comes to, when it runs after `gas` has been bought. */
  function Ran(b: Balances, staked: int, m: Message, txType: TxType, gas: nat): Outcome {
    m.code(Transfer(b, m.from, Target(m), m.value, Moving(m, txType)), staked, gas)
  }

  /** evm.Call and evm.Create: the ledger is transferred and executed, or as before when execution failed; none when
      the balance does not cover the value. */
  method Call(b: Balances, staked: int, m: Message, gas: nat, txType: TxType) returns (r: Option<Outcome>)
    requires Solvent(b) && BehavesAlways(m.code) && !txType.Invalid?
    ensures r == None <==> Get(b, m.from) < m.value
    ensures r.Some? ==> Solvent(r.value.balances) && r.value.gasLeft <= gas
    ensures r.Some? ==> Handed(b, staked, Ran(b, staked, m, txType, gas), r.value)
    ensures r.Some? && !r.value.failed ==>
      Sum(r.value.balances) + r.value.staked + Amount(r.value.cx) + r.value.burned + Leaves(m, txType)
      == Sum(b) + staked
  {
    if Get(b, m.from) < m.value { return None; }
    var b1 := Transfer(b, m.from, Target(m), m.value, Moving(m, txType));
    TransferSum(b, m.from, Target(m), m.value, Moving(m, txType));
    var o := m.code(b1, staked, gas);
    assert Behaves(b1, staked, gas, o);
    r := Some(if o.failed then Outcome(b, staked, o.gasLeft, o.refund, true, None, 0) else o);
  }

  /** The gas charged: what was used, less a refund of at most half of it. */
  function Charged(used: nat, refund: nat): nat {
    used - if used / 2 > refund then refund else used / 2
  }

  /** What is refunded is the largest amount that neither exceeds the refund counter nor half of the gas used. */
  lemma ChargedHalf(used: nat, refund: nat)
    ensures Charged(used, refund) <= used <= 2 * Charged(used, refund)
    ensures forall back: nat :: back <= used - Charged(used, refund) <==> back <= refund && 2 * back <= used
  {
  }

  /** What a message leaves behind when it does not make the block invalid. */
  datatype Result = Result(balances: Balances, staked: int, used: nat, failed: bool, cx: Option<Receipt>, burned: nat)

  /** The whole of a message: the total falls by what leaves the shard, by what is burned and by the part of the fee
      nobody collects. */
  ghost predicate Accounted(b: Balances, staked: int, m: Message, txType: TxType, fees: Fees, r: Result) {
    && Solvent(r.balances) && r.used <= m.gas
    && Sum(r.balances) + r.staked + r.burned + (if r.failed then 0 else Amount(r.cx) + Leaves(m, txType))
       == Sum(b) + staked - Uncollected(fees, Cost(r.used, m.price))
  }

  datatype State = State(balances: Balances, staked: int)

  /** The ledger after a message: gas bought, code run, unused gas paid back, fees collected. */
  ghost function AfterOf(s: State, m: Message, txType: TxType, fees: Fees): State
    requires m.intrinsic <= m.gas
  {
    var o := OutcomeOf(s.balances, s.staked, m, txType);
    var used := ChargedOf(m, o);
    var ran := if o.failed then Plus(s.balances, m.from, Bought(m)) else o.balances;
    State(WithFees(Plus(ran, m.from, Cost(m.gas - used, m.price)), fees, Cost(used, m.price)),
          if o.failed then s.staked else o.staked)
  }

  /** The gas charged for an outcome. */
  function ChargedOf(m: Message, o: Outcome): (used: nat)
    ensures used <= m.gas
  {
    if o.gasLeft <= m.gas then Charged(m.gas - o.gasLeft, o.refund) else 0
  }

  /** The fees of a message nobody collected. */
  ghost function Uncollected(fees: Fees, fee: nat): int { fee - Collected(fees, fee) }

  /** The code of a message, run after its gas was bought and its intrinsic gas paid. */
  function OutcomeOf(b: Balances, staked: int, m: Message, txType: TxType): Outcome
    requires m.intrinsic <= m.gas
  {
    Ran(Plus(b, m.from, Bought(m)), staked, m, txType, m.gas - m.intrinsic)
  }

  /** What buying gas does to a balance. */
  function Bought(m: Message): int { 0 - Cost(m.gas, m.price) }

  /** The result is what the code's outcome says, with the refund applied: at least half of the gas used before it is
      charged. */
  ghost predicate Reflects(m: Message, o: Outcome, r: Result) {
    && o.gasLeft + m.intrinsic <= m.gas && r.used == Charged(m.gas - o.gasLeft, o.refund) && r.failed == o.failed
    && r.used <= m.gas - o.gasLeft <= 2 * r.used
    && (if o.failed then r.cx == None && r.burned == 0 else r.cx == o.cx && r.burned == o.burned)
  }

  /** refundGas and collectGas: the gas left and refunded is paid back, the rest is the fee. */
  method Settle(b: Balances, m: Message, left: nat, refund: nat, fees: Fees) returns (b': Balances, back: nat)
    requires Solvent(b) && left <= m.gas
    ensures Solvent(b') && back <= m.gas && m.gas - back == Charged(m.gas - left, refund)
    ensures b' == WithFees(Plus(b, m.from, Cost(back, m.price)), fees, Cost(m.gas - back, m.price))
    ensures Sum(b') == Sum(b) + Cost(back, m.price) + Collected(fees, Cost(m.gas - back, m.price))
  {
    var used := m.gas - left;
    back := left + if used / 2 > refund then refund else used / 2;
    var remaining := Cost(back, m.price);
    var fee := Cost(m.gas - back, m.price);
    PlusSum(b, m.from, remaining);
    b' := CollectGas(Plus(b, m.from, remaining), fees, fee);
  }

  /** Why a message makes its block invalid. */
  predicate Refused(b: Balances, pool: nat, m: Message) {
    || !m.nonceOk || Get(b, m.from) < Cost(m.gas, m.price) || pool < m.gas || m.gas < m.intrinsic
    || (Get(b, m.from) - Cost(m.gas, m.price) < m.value)
  }

  /** A message is not refused exactly when its nonce fits, its sender can pay for value and gas, and the pool and the
      gas of the message suffice. */
  lemma Affordable(b: Balances, pool: nat, m: Message)
    ensures !Refused(b, pool, m) <==>
      m.nonceOk && m.gas * m.price + m.value <= Get(b, m.from) && m.intrinsic <= m.gas <= pool
  {
  }

  /** What one message spends: `bought` for gas up front, `remaining` back, and the fee. */
  lemma Spent(m: Message, back: nat)
    requires back <= m.gas
    ensures Cost(m.gas, m.price) == Cost(back, m.price) + Cost(m.gas - back, m.price)
  {
  }

  /** Once gas is bought: pays the intrinsic gas, calls, refunds and collects. At least half of the gas used before the
      refund is charged. */
  method Execute(b: Balances, staked: int, m: Message, txType: TxType, fees: Fees) returns (r: Option<Result>)
    requires Solvent(b) && BehavesAlways(m.code) && !txType.Invalid? && Cost(m.gas, m.price) <= Get(b, m.from)
    ensures r == None <==> m.gas < m.intrinsic || Get(b, m.from) - Cost(m.gas, m.price) < m.value
    ensures r.Some? ==>
      && Accounted(b, staked, m, txType, fees, r.value) && Reflects(m, OutcomeOf(b, staked, m, txType), r.value)
      && State(r.value.balances, r.value.staked) == AfterOf(State(b, staked), m, txType, fees)
  {
    var b1 := Plus(b, m.from, Bought(m));
    PlusSum(b, m.from, Bought(m));
    if m.gas < m.intrinsic { return None; }
    var called := Call(b1, staked, m, m.gas - m.intrinsic, txType);
    if called == None { return None; }
    var result := Conclude(b, b1, staked, m, txType, fees, called.value);
    r := Some(result);
  }

  /** After the call: refunds and collects. */
  method Conclude(ghost b: Balances, ghost b1: Balances, ghost staked: int, m: Message, ghost txType: TxType,
                  fees: Fees, c: Outcome) returns (r: Result)
    requires m.intrinsic <= m.gas && c.gasLeft + m.intrinsic <= m.gas && Solvent(c.balances)
    requires b1 == Plus(b, m.from, Bought(m)) && Sum(b1) == Sum(b) - Cost(m.gas, m.price)
    requires Handed(b1, staked, OutcomeOf(b, staked, m, txType), c)
    requires !c.failed ==>
      Sum(c.balances) + c.staked + Amount(c.cx) + c.burned + Leaves(m, txType) == Sum(b1) + staked
    ensures Accounted(b, staked, m, txType, fees, r) && Reflects(m, OutcomeOf(b, staked, m, txType), r)
    ensures State(r.balances, r.staked) == AfterOf(State(b, staked), m, txType, fees)
  {
    var b2, back := Settle(c.balances, m, c.gasLeft, c.refund, fees);
    AddsUp(b, b1, staked, m, txType, fees, c, b2, back);
    Follows(b, staked, m, txType, fees, c, b2, back);
    r := Result(b2, c.staked, m.gas - back, c.failed, c.cx, c.burned);
  }

  /** The outcome of a call, as evm.Call hands it on: a failure leaves the ledger as it was once gas was bought. */
  ghost predicate Handed(b: Balances, staked: int, o: Outcome, c: Outcome) {
    c == if o.failed then Outcome(b, staked, o.gasLeft, o.refund, true, None, 0) else o
  }

  /** The result reflects the code's outcome, and the ledger is the one that follows from it. */
  lemma Follows(b: Balances, staked: int, m: Message, txType: TxType, fees: Fees, c: Outcome, b2: Balances, back: nat)
    requires m.intrinsic <= m.gas && c.gasLeft + m.intrinsic <= m.gas && back <= m.gas
    requires Handed(Plus(b, m.from, Bought(m)), staked, OutcomeOf(b, staked, m, txType), c)
    requires m.gas - back == Charged(m.gas - c.gasLeft, c.refund)
    requires b2 == WithFees(Plus(c.balances, m.from, Cost(back, m.price)), fees, Cost(m.gas - back, m.price))
    ensures Reflects(m, OutcomeOf(b, staked, m, txType),
                     Result(b2, c.staked, m.gas - back, c.failed, c.cx, c.burned))
    ensures State(b2, c.staked) == AfterOf(State(b, staked), m, txType, fees)
  {
    ChargedHalf(m.gas - c.gasLeft, c.refund);
  }

  /** The code does nothing. */
  ghost predicate Idles(code: Code) {
    forall b, staked, gas :: code(b, staked, gas) == Outcome(b, staked, gas, 0, false, None, 0)
  }

  /** Each account after a message: a failure costs the sender the gas charged and changes nothing else; otherwise the
      code's ledger stands and the sender gets the unused gas back. The fee goes to its collectors. */
  lemma EachBalance(s: State, m: Message, txType: TxType, fees: Fees, a: Address)
    requires m.intrinsic <= m.gas
    ensures var o := OutcomeOf(s.balances, s.staked, m, txType);
      var used := ChargedOf(m, o);
      Get(AfterOf(s, m, txType, fees).balances, a) == Paid(fees, Cost(used, m.price), a) +
        if o.failed then Get(s.balances, a) - (if a == m.from then Cost(used, m.price) else 0)
        else Get(o.balances, a) + if a == m.from then Cost(m.gas - used, m.price) else 0
  {
    var o := OutcomeOf(s.balances, s.staked, m, txType);
    var used := ChargedOf(m, o);
    var ran := if o.failed then Plus(s.balances, m.from, Bought(m)) else o.balances;
    FeesPaid(Plus(ran, m.from, Cost(m.gas - used, m.price)), fees, Cost(used, m.price), a);
    Spent(m, m.gas - used);
  }

  /** What a message does to account `a` when its code does nothing: the sender pays the value and the intrinsic gas,
      the recipient or the new contract gets the value unless it leaves the shard, and the fee goes to its
      collectors. */
  ghost predicate TransferredAt(b: Balances, b': Balances, m: Message, txType: TxType, fees: Fees, a: Address) {
    Get(b', a) == Get(b, a) + Paid(fees, Cost(m.intrinsic, m.price), a)
                  - (if a == m.from then m.value + Cost(m.intrinsic, m.price) else 0)
                  + (if m.to == None && a == m.created then m.value else 0)
                  + (if m.to == Some(a) && txType.SameShard? then m.value else 0)
  }

  ghost predicate Transferred(b: Balances, b': Balances, m: Message, txType: TxType, fees: Fees) {
    forall a :: TransferredAt(b, b', m, txType, fees, a)
  }

  lemma IdleTransfers(s: State, m: Message, txType: TxType, fees: Fees)
    requires m.intrinsic <= m.gas && !txType.Invalid? && Idles(m.code)
    ensures Transferred(s.balances, AfterOf(s, m, txType, fees).balances, m, txType, fees)
    ensures AfterOf(s, m, txType, fees).staked == s.staked
  {
    forall a ensures TransferredAt(s.balances, AfterOf(s, m, txType, fees).balances, m, txType, fees, a) {
      IdleAt(s, m, txType, fees, a);
    }
  }

  lemma IdleAt(s: State, m: Message, txType: TxType, fees: Fees, a: Address)
    requires m.intrinsic <= m.gas && !txType.Invalid? && Idles(m.code)
    ensures TransferredAt(s.balances, AfterOf(s, m, txType, fees).balances, m, txType, fees, a)
  {
    EachBalance(s, m, txType, fees, a);
    TransferMoves(Plus(s.balances, m.from, Bought(m)), m.from, Target(m), m.value, Moving(m, txType), a);
    Spent(m, m.gas - m.intrinsic);
  }

  /** Buying, calling, refunding and collecting add up. */
  lemma AddsUp(b: Balances, b1: Balances, staked: int, m: Message, txType: TxType, fees: Fees, c: Outcome, b2: Balances,
               back: nat)
    requires Sum(b1) == Sum(b) - Cost(m.gas, m.price) && back <= m.gas && Solvent(b2)
    requires c.failed ==> c.balances == b1 && c.staked == staked && c.burned == 0
    requires !c.failed ==>
      Sum(c.balances) + c.staked + Amount(c.cx) + c.burned + Leaves(m, txType) == Sum(b1) + staked
    requires Sum(b2) == Sum(c.balances) + Cost(back, m.price) + Collected(fees, Cost(m.gas - back, m.price))
    ensures Accounted(b, staked, m, txType, fees, Result(b2, c.staked, m.gas - back, c.failed, c.cx, c.burned))
  {
    Spent(m, back);
  }

  /** TransitionDb: buys gas from the pool and the sender, executes, and returns unused gas to both. */
  method Transition(gp: GasPool, b: Balances, staked: int, m: Message, txType: TxType, fees: Fees)
    returns (r: Option<Result>)
    requires Solvent(b) && BehavesAlways(m.code) && !txType.Invalid? && gp.gas <= MaxUint64
    modifies gp
    ensures r == None <==> Refused(b, old(gp.gas), m)
    ensures r.Some? ==> gp.gas == old(gp.gas) - r.value.used
    ensures r.Some? ==>
      && Accounted(b, staked, m, txType, fees, r.value) && Reflects(m, OutcomeOf(b, staked, m, txType), r.value)
      && State(r.value.balances, r.value.staked) == AfterOf(State(b, staked), m, txType, fees)
  {
    if !m.nonceOk || Get(b, m.from) < Cost(m.gas, m.price) { return None; }
    var ok := gp.SubGas(m.gas);
    if !ok { return None; }
    r := Execute(b, staked, m, txType, fees);
    if r.Some? { gp.AddGas(m.gas - r.value.used); }
  }

  // ---------- a block ----------

  datatype Tx = Tx(message: Message, shard: nat, toShard: nat)

  datatype Config = Config(shard: nat, shards: nat, acceptsCross: bool, fees: Fees)

  /** getTransactionType. */
  function TypeOf(c: Config, tx: Tx): TxType {
    if c.shard == tx.shard && (!c.acceptsCross || tx.shard == tx.toShard) then SameShard
    else if tx.shard != tx.toShard && c.shard == tx.shard && tx.toShard < c.shards then SubtractionOnly
    else Invalid
  }

  /** Only transactions of this shard are processed, and only where cross-shard transactions are accepted does value
      leave it. */
  lemma TypeSound(c: Config, tx: Tx)
    ensures TypeOf(c, tx).SubtractionOnly? <==>
      tx.shard == c.shard && c.acceptsCross && tx.toShard != c.shard && tx.toShard < c.shards
    ensures TypeOf(c, tx).Invalid? <==>
      tx.shard != c.shard || (c.acceptsCross && tx.toShard != c.shard && tx.toShard >= c.shards)
  {
  }

  ghost function Amounts(rs: seq<Receipt>): nat {
    if rs == [] then 0 else Amounts(rs[..|rs| - 1]) + rs[|rs| - 1].amount
  }

  lemma AmountsSnoc(rs: seq<Receipt>, r: Receipt)
    ensures Amounts(rs + [r]) == Amounts(rs) + r.amount
  {
    assert (rs + [r])[..|rs|] == rs;
  }

  /** The receipt that goes out with a message. */
  function ReceiptOf(m: Message, txType: TxType, failed: bool, cx: Option<Receipt>): Option<Receipt> {
    if txType.SubtractionOnly? && !failed then Some(Receipt(m.to, m.value)) else cx
  }

  /** A successful cross-shard transaction sends its value to the recipient of its message, a failed one sends nothing,
      and any other sends what its code issued. */
  lemma ReceiptNames(m: Message, txType: TxType, o: Outcome)
    requires o.failed ==> o.cx == None
    ensures var r := ReceiptOf(m, txType, o.failed, o.cx);
      && (o.failed ==> r == None)
      && (!o.failed && txType.SubtractionOnly? ==> r.Some? && r.value.to == m.to && r.value.amount == m.value)
      && (!txType.SubtractionOnly? ==> r == o.cx)
  {
  }

  function Listed(cx: Option<Receipt>): seq<Receipt> { if cx.Some? then [cx.value] else [] }

  /** What one message of a block came to: gas charged, its price, what its code burned, what its receipt promises
      elsewhere although it was not taken away here, and the receipt that went out with it. */
  datatype Bill = Bill(used: nat, price: nat, burned: nat, doubled: nat, cx: Option<Receipt>)

  /** A cross-shard contract creation moves its value to the new contract and sends a receipt for it as well. */
  function Doubled(m: Message, txType: TxType, failed: bool): nat {
    if m.to == None && txType.SubtractionOnly? && !failed then m.value else 0
  }

  /** The bill of a message is settled by the outcome of its code. */
  function BillOf(s: State, m: Message, txType: TxType): Bill
    requires m.intrinsic <= m.gas
  {
    var o := OutcomeOf(s.balances, s.staked, m, txType);
    Bill(ChargedOf(m, o), m.price, if o.failed then 0 else o.burned, Doubled(m, txType, o.failed),
         ReceiptOf(m, txType, o.failed, if o.failed then None else o.cx))
  }

  /** What one bill loses. */
  ghost function Loss(fees: Fees, l: Bill): int { Uncollected(fees, Cost(l.used, l.price)) + l.burned - l.doubled }

  /** What the messages of a block lose: fees that nobody collects and burned value, less what was doubled. */
  ghost function Lost(fees: Fees, bills: seq<Bill>): int {
    if bills == [] then 0 else Lost(fees, bills[..|bills| - 1]) + Loss(fees, bills[|bills| - 1])
  }

  ghost function GasOf(bills: seq<Bill>): nat {
    if bills == [] then 0 else GasOf(bills[..|bills| - 1]) + bills[|bills| - 1].used
  }

  /** The receipts that went out with the messages, in their order. */
  ghost function OutOf(bills: seq<Bill>): seq<Receipt> {
    if bills == [] then [] else OutOf(bills[..|bills| - 1]) + Listed(bills[|bills| - 1].cx)
  }

  lemma BillsSnoc(fees: Fees, bills: seq<Bill>, l: Bill)
    ensures OutOf(bills + [l]) == OutOf(bills) + Listed(l.cx)
    ensures Lost(fees, bills + [l]) == Lost(fees, bills) + Loss(fees, l)
    ensures GasOf(bills + [l]) == GasOf(bills) + l.used
  {
    assert (bills + [l])[..|bills|] == bills;
  }

  /** With shares of at most one and nothing doubled, nothing is gained. */
  lemma {:induction false} LostNotNegative(fees: Fees, bills: seq<Bill>)
    requires Fair(fees) && forall i :: 0 <= i < |bills| ==> bills[i].doubled == 0
    ensures Lost(fees, bills) >= 0
    decreases |bills|
  {
    if bills != [] {
      var l := bills[|bills| - 1];
      LostNotNegative(fees, bills[..|bills| - 1]);
      CollectedBound(fees, Cost(l.used, l.price));
    }
  }

  /** When the producer takes the fees and nothing is burned or doubled, nothing is lost. */
  lemma {:induction false} NothingLost(fees: Fees, bills: seq<Bill>)
    requires fees.ToProducer? && forall i :: 0 <= i < |bills| ==> bills[i].burned == bills[i].doubled == 0
    ensures Lost(fees, bills) == 0
    decreases |bills|
  {
    if bills != [] { NothingLost(fees, bills[..|bills| - 1]); }
  }

  /** The uncollected fees and the burned value of a block. */
  ghost function Fallen(fees: Fees, bills: seq<Bill>): int {
    if bills == [] then 0 else
      var l := bills[|bills| - 1];
      Fallen(fees, bills[..|bills| - 1]) + Uncollected(fees, Cost(l.used, l.price)) + l.burned
  }

  /** A block loses its uncollected fees and burned value exactly when nothing was doubled, and else less. */
  lemma {:induction false} LostExactly(fees: Fees, bills: seq<Bill>)
    ensures Lost(fees, bills) <= Fallen(fees, bills)
    ensures Lost(fees, bills) == Fallen(fees, bills) <==> forall i :: 0 <= i < |bills| ==> bills[i].doubled == 0
    decreases |bills|
  {
    if bills != [] {
      var init := bills[..|bills| - 1];
      LostExactly(fees, init);
      assert forall i :: 0 <= i < |init| ==> init[i] == bills[i];
    }
  }

  /** A staking message: it carries no value and sends nothing to other shards. */
  ghost predicate Stakes(m: Message) {
    && m.value == 0 && BehavesAlways(m.code)
    && forall b, staked, gas :: m.code(b, staked, gas).cx == None
  }

  /** The code of a cross-shard transaction has issued a receipt of its own, so there would be two. */
  predicate TwoReceipts(o: Outcome, txType: TxType) { txType.SubtractionOnly? && !o.failed && o.cx.Some? }

  /** A message as it is applied. */
  datatype Sent = Sent(message: Message, txType: TxType, staking: bool)

  function SentTx(c: Config, tx: Tx): Sent { Sent(tx.message, TypeOf(c, tx), false) }

  function SentStake(m: Message): Sent { Sent(m, SameShard, true) }

  /** The message does not make its block invalid. */
  predicate Good(s: State, pool: nat, x: Sent) {
    && !x.txType.Invalid? && !Refused(s.balances, pool, x.message)
    && var o := OutcomeOf(s.balances, s.staked, x.message, x.txType);
    if x.staking then !o.failed else !TwoReceipts(o, x.txType)
  }

  function SentTxs(c: Config, txs: seq<Tx>): seq<Sent> {
    seq(|txs|, i requires 0 <= i < |txs| => SentTx(c, txs[i]))
  }

  function SentStakes(ms: seq<Message>): seq<Sent> {
    seq(|ms|, i requires 0 <= i < |ms| => SentStake(ms[i]))
  }

  /** The message does not make the block invalid, leads from one ledger to the next and leaves this bill. */
  ghost predicate Applied(s: State, pool: int, x: Sent, fees: Fees, s': State, l: Bill) {
    var ok :=
      && pool >= 0 && Good(s, pool, x)
      && l == BillOf(s, x.message, x.txType) && s' == AfterOf(s, x.message, x.txType, fees);
    ok
  }

  ghost predicate AppliedAt(states: seq<State>, sent: seq<Sent>, limit: nat, fees: Fees, bills: seq<Bill>, i: nat) {
    && i < |sent| && i < |bills| && i + 1 < |states|
    && Applied(states[i], limit - GasOf(bills[..i]), sent[i], fees, states[i + 1], bills[i])
  }

  /** One after the other the messages lead through the ledgers and leave the bills, each with the gas of the limit that
      the bills before it leave. */
  ghost predicate AppliedAll(states: seq<State>, sent: seq<Sent>, limit: nat, fees: Fees, bills: seq<Bill>) {
    var ok := |states| == |bills| + 1 && |bills| == |sent|
              && forall i :: 0 <= i < |sent| ==> AppliedAt(states, sent, limit, fees, bills, i);
    ok
  }

  lemma AppliedSnoc(states: seq<State>, sent: seq<Sent>, limit: nat, fees: Fees, bills: seq<Bill>, s': State, x: Sent,
                    l: Bill)
    requires AppliedAll(states, sent, limit, fees, bills)
    requires Applied(states[|bills|], limit - GasOf(bills), x, fees, s', l)
    ensures AppliedAll(states + [s'], sent + [x], limit, fees, bills + [l])
  {
    var states', sent', bills' := states + [s'], sent + [x], bills + [l];
    forall i | 0 <= i < |sent'| ensures AppliedAt(states', sent', limit, fees, bills', i) {
      assert bills'[..i] == bills[..i];
      if i < |sent| {
        assert AppliedAt(states, sent, limit, fees, bills, i);
      } else {
        assert bills[..i] == bills;
      }
    }
  }

  /** The code of a message never burns value. */
  ghost predicate NeverBurns(m: Message) { forall b, staked, gas :: m.code(b, staked, gas).burned == 0 }

  /** A message that could double its value: a cross-shard contract creation. */
  predicate CreatesAcross(x: Sent) { x.message.to == None && x.txType.SubtractionOnly? }

  ghost predicate NoneCreatesAcross(sent: seq<Sent>) { forall i :: 0 <= i < |sent| ==> !CreatesAcross(sent[i]) }

  ghost predicate NoneBurns(sent: seq<Sent>) { forall i :: 0 <= i < |sent| ==> NeverBurns(sent[i].message) }

  lemma NothingDoubled(states: seq<State>, sent: seq<Sent>, limit: nat, fees: Fees, bills: seq<Bill>)
    requires AppliedAll(states, sent, limit, fees, bills) && NoneCreatesAcross(sent)
    ensures forall i :: 0 <= i < |bills| ==> bills[i].doubled == 0
  {
    forall i | 0 <= i < |bills| ensures bills[i].doubled == 0 {
      assert AppliedAt(states, sent, limit, fees, bills, i);
    }
  }

  lemma NothingBurned(states: seq<State>, sent: seq<Sent>, limit: nat, fees: Fees, bills: seq<Bill>)
    requires AppliedAll(states, sent, limit, fees, bills) && NoneBurns(sent)
    ensures forall i :: 0 <= i < |bills| ==> bills[i].burned == 0
  {
    forall i | 0 <= i < |bills| ensures bills[i].burned == 0 {
      assert AppliedAt(states, sent, limit, fees, bills, i);
      assert NeverBurns(sent[i].message);
    }
  }

  /** What receipts bring account `a`. */
  ghost function Credited(rs: seq<Receipt>, a: Address): nat {
    if rs == [] then 0 else
      var r := rs[|rs| - 1];
      Credited(rs[..|rs| - 1], a) + (if r.to == Some(a) then r.amount else 0)
  }

  ghost predicate CreditedAt(b: Balances, b': Balances, rs: seq<Receipt>, a: Address) {
    Get(b', a) == Get(b, a) + Credited(rs, a)
  }

  /** Every account has gained exactly what the receipts bring it. */
  ghost predicate CreditedAll(b: Balances, b': Balances, rs: seq<Receipt>) {
    forall a :: CreditedAt(b, b', rs, a)
  }

  lemma CreditedSnoc(b: Balances, b': Balances, rs: seq<Receipt>, r: Receipt)
    requires CreditedAll(b, b', rs) && r.to.Some?
    ensures CreditedAll(b, Plus(b', r.to.value, r.amount), rs + [r])
  {
    assert (rs + [r])[..|rs|] == rs;
    forall a ensures CreditedAt(b, Plus(b', r.to.value, r.amount), rs + [r], a) {
      assert CreditedAt(b, b', rs, a);
    }
  }

  /** The total, with what left and without what came in, has fallen exactly by what the bills lose. */
  ghost predicate Even(fees: Fees, b: Balances, staked: int, out: seq<Receipt>, rs: seq<Receipt>, bills: seq<Bill>,
                       start: int) {
    Sum(b) + staked + Amounts(out) - Amounts(rs) + Lost(fees, bills) == start
  }

  lemma EvenSnoc(fees: Fees, b: Balances, staked: int, out: seq<Receipt>, rs: seq<Receipt>, bills: seq<Bill>,
                 start: int, b': Balances, staked': int, cx: Option<Receipt>, l: Bill)
    requires Even(fees, b, staked, out, rs, bills, start)
    requires Sum(b') + staked' + Amount(cx) == Sum(b) + staked - Loss(fees, l)
    ensures Even(fees, b', staked', out + Listed(cx), rs, bills + [l], start)
    ensures OutOf(bills + [l]) == OutOf(bills) + Listed(l.cx) && GasOf(bills + [l]) == GasOf(bills) + l.used
  {
    BillsSnoc(fees, bills, l);
    if cx.Some? { AmountsSnoc(out, cx.value); } else { assert out + [] == out; }
  }

  ghost predicate AllBehave(txs: seq<Tx>) {
    var ok := forall i :: 0 <= i < |txs| ==> BehavesAlways(txs[i].message.code);
    ok
  }

  ghost predicate AllStake(ms: seq<Message>) {
    var ok := forall i :: 0 <= i < |ms| ==> Stakes(ms[i]);
    ok
  }

  class Processor {
    const config: Config
    const gasLimit: nat
    const gp: GasPool
    var balances: Balances
    /** Everything held through validators. */
    var staked: int
    var usedGas: nat
    var outgoing: seq<Receipt>
    var incoming: seq<Receipt>
    /** The total at the start of the block, the messages so far, the ledger before and after each, and its bill. */
    ghost const start: int
    ghost var sent: seq<Sent>
    ghost var states: seq<State>
    ghost var bills: seq<Bill>

    /** Gas left plus gas used is the block's limit; no account is overdrawn; the total, with what left and without what
        came in, has fallen exactly by what the bills lose. */
    ghost predicate Valid()
      reads this, gp
    {
      var ok :=
        && gp.gas + usedGas == gasLimit <= MaxUint64 && usedGas == GasOf(bills)
        && Solvent(balances)
        && Even(config.fees, balances, staked, outgoing, incoming, bills, start)
        && AppliedAll(states, sent, gasLimit, config.fees, bills);
      ok
    }

    /** No receipt has come in yet: the last ledger is the current one. */
    ghost predicate Current()
      reads this
    {
      incoming == [] && states != [] && states[|states| - 1] == State(balances, staked)
    }

    /** What went out is what the messages sent, in their order. */
    ghost predicate Dispatched()
      reads this
    {
      outgoing == OutOf(bills)
    }

    /** What holds between the messages of a block. */
    ghost predicate Running()
      reads this, gp
    {
      var ok := Valid() && Current() && Dispatched();
      ok
    }

    constructor (config: Config, gasLimit: nat, balances: Balances, staked: int)
      requires Solvent(balances) && gasLimit <= MaxUint64
      ensures Running() && fresh(gp) && usedGas == 0 && outgoing == [] && bills == [] && sent == []
      ensures start == Sum(balances) + staked && this.balances == balances && this.staked == staked
      ensures this.config == config && this.gasLimit == gasLimit
    {
      this.config, this.gasLimit, this.balances, this.staked := config, gasLimit, balances, staked;
      gp := new GasPool(gasLimit);
      usedGas, outgoing, incoming, start := 0, [], [], Sum(balances) + staked;
      bills, sent, states := [], [], [State(balances, staked)];
    }

    /** The messages so far are the first of `all`, and the next one makes the block invalid. */
    ghost predicate StopsIn(all: seq<Sent>)
      reads this
    {
      |sent| < |all| && sent == all[..|sent|] && Stopped(all[|sent|])
    }

    /** `x` makes the block invalid after the messages so far. */
    ghost predicate Stopped(x: Sent)
      reads this
    {
      var ok :=
        && AppliedAll(states, sent, gasLimit, config.fees, bills)
        && (var pool := gasLimit - GasOf(bills); pool >= 0 ==> !Good(states[|sent|], pool, x));
      ok
    }

    /** Takes over the result of a message and sends its receipt out. */
    method Enter(r: Result, cx: Option<Receipt>, ghost x: Sent, ghost l: Bill)
      requires gp.gas + usedGas + r.used == gasLimit <= MaxUint64 && usedGas == GasOf(bills) && Solvent(r.balances)
      requires Even(config.fees, balances, staked, outgoing, incoming, bills, start) && Dispatched() && cx == l.cx
      requires AppliedAll(states, sent, gasLimit, config.fees, bills) && Current() && l.used == r.used
      requires Applied(State(balances, staked), gasLimit - GasOf(bills), x, config.fees, State(r.balances, r.staked), l)
      requires Sum(r.balances) + r.staked + Amount(cx) == Sum(balances) + staked - Loss(config.fees, l)
      modifies this`balances, this`staked, this`usedGas, this`outgoing, this`bills, this`sent, this`states
      ensures Running() && State(balances, staked) == State(r.balances, r.staked)
      ensures usedGas == old(usedGas) + r.used && outgoing == old(outgoing) + Listed(cx)
      ensures sent == old(sent) + [x] && bills == old(bills) + [l] && states == old(states) + [State(balances, staked)]
    {
      EvenSnoc(config.fees, balances, staked, outgoing, incoming, bills, start, r.balances, r.staked, cx, l);
      Book(r, cx, x, l);
    }

    method Book(r: Result, cx: Option<Receipt>, ghost x: Sent, ghost l: Bill)
      requires gp.gas + usedGas + r.used == gasLimit <= MaxUint64 && usedGas == GasOf(bills) && Solvent(r.balances)
      requires Even(config.fees, r.balances, r.staked, outgoing + Listed(cx), incoming, bills + [l], start)
      requires AppliedAll(states, sent, gasLimit, config.fees, bills) && Current() && l.used == r.used
      requires Applied(State(balances, staked), gasLimit - GasOf(bills), x, config.fees, State(r.balances, r.staked), l)
      requires GasOf(bills + [l]) == GasOf(bills) + l.used
      modifies this`balances, this`staked, this`usedGas, this`outgoing, this`bills, this`sent, this`states
      ensures Valid() && Current() && State(balances, staked) == State(r.balances, r.staked)
      ensures usedGas == old(usedGas) + r.used && outgoing == old(outgoing) + Listed(cx)
      ensures sent == old(sent) + [x] && bills == old(bills) + [l] && states == old(states) + [State(balances, staked)]
      ensures OutOf(old(bills) + [l]) == OutOf(old(bills)) + Listed(cx) && old(Dispatched()) ==> Dispatched()
    {
      SendOut(cx);
      Record(x, State(r.balances, r.staked), l);
      balances, staked, usedGas := r.balances, r.staked, usedGas + r.used;
    }

    method SendOut(cx: Option<Receipt>)
      modifies this`outgoing
      ensures outgoing == old(outgoing) + Listed(cx)
    {
      if cx.Some? { outgoing := outgoing + [cx.value]; }
    }

    /** Notes the message, its bill and the ledger after it. */
    ghost method Record(x: Sent, s: State, l: Bill)
      requires AppliedAll(states, sent, gasLimit, config.fees, bills)
      requires Applied(states[|bills|], gasLimit - GasOf(bills), x, config.fees, s, l)
      modifies this`bills, this`sent, this`states
      ensures AppliedAll(states, sent, gasLimit, config.fees, bills)
      ensures sent == old(sent) + [x] && bills == old(bills) + [l] && states == old(states) + [s]
    {
      AppliedSnoc(states, sent, gasLimit, config.fees, bills, s, x, l);
      bills, sent, states := bills + [l], sent + [x], states + [s];
    }

    /** ApplyTransaction: it makes the block invalid exactly when its type is wrong, its message is refused, or it would
        issue two receipts. */
    method ApplyTransaction(tx: Tx) returns (ok: bool)
      requires Running() && BehavesAlways(tx.message.code)
      modifies this, gp
      ensures ok <==> Good(State(old(balances), old(staked)), old(gp.gas), SentTx(config, tx))
      ensures ok ==> Running() && sent == old(sent) + [SentTx(config, tx)] && old(states) <= states
      ensures !ok ==> sent == old(sent) && states == old(states) && bills == old(bills) && Stopped(SentTx(config, tx))
      ensures ok && tx.message.intrinsic <= tx.message.gas ==>
        bills == old(bills) + [BillOf(State(old(balances), old(staked)), tx.message, TypeOf(config, tx))]
      ensures ok && Idles(tx.message.code) ==>
        && Transferred(old(balances), balances, tx.message, TypeOf(config, tx), config.fees) && staked == old(staked)
        && outgoing == old(outgoing) + if TypeOf(config, tx).SameShard? then []
                                       else [Receipt(tx.message.to, tx.message.value)]
    {
      var txType := TypeOf(config, tx);
      if txType.Invalid? { return false; }
      var m := tx.message;
      var r := Transition(gp, balances, staked, m, txType, config.fees);
      if r == None { return false; }
      if Idles(m.code) { IdleTransfers(State(balances, staked), m, txType, config.fees); }
      if txType.SubtractionOnly? && !r.value.failed && r.value.cx.Some? { return false; }
      ghost var l := BillOf(State(balances, staked), m, txType);
      var cx := ReceiptOf(m, txType, r.value.failed, r.value.cx);
      Enter(r.value, cx, SentTx(config, tx), l);
      ok := true;
    }

    /** ApplyStakingTransaction: no value is transferred, and a failing message makes the block invalid. */
    method ApplyStakingTransaction(m: Message) returns (ok: bool)
      requires Running() && Stakes(m)
      modifies this, gp
      ensures ok <==> Good(State(old(balances), old(staked)), old(gp.gas), SentStake(m))
      ensures ok ==> Running() && outgoing == old(outgoing) && sent == old(sent) + [SentStake(m)]
      ensures ok ==> old(states) <= states
      ensures !ok ==> sent == old(sent) && states == old(states) && bills == old(bills) && Stopped(SentStake(m))
    {
      var r := Transition(gp, balances, staked, m, SameShard, config.fees);
      if r == None || r.value.failed { return false; }
      ghost var l := BillOf(State(balances, staked), m, SameShard);
      Enter(r.value, None, SentStake(m), l);
      ok := true;
    }

    method Receive(to: Address, r: Receipt)
      requires Valid()
      modifies this`balances, this`incoming
      ensures old(Dispatched()) ==> Dispatched()
      ensures Valid() && incoming == old(incoming) + [r] && balances == Plus(old(balances), to, r.amount)
    {
      PlusSum(balances, to, r.amount);
      AmountsSnoc(incoming, r);
      balances := Plus(balances, to, r.amount);
      incoming := incoming + [r];
    }

    /** ApplyIncomingReceipt. */
    method ApplyIncomingReceipts(rs: seq<Receipt>) returns (ok: bool)
      requires Valid()
      modifies this`balances, this`incoming
      ensures ok <==> forall i :: 0 <= i < |rs| ==> rs[i].to.Some?
      ensures ok ==> Valid() && incoming == old(incoming) + rs && (old(Dispatched()) ==> Dispatched())
      ensures ok ==> CreditedAll(old(balances), balances, rs)
    {
      for i := 0 to |rs|
        invariant Valid() && incoming == old(incoming) + rs[..i] && (old(Dispatched()) ==> Dispatched())
        invariant CreditedAll(old(balances), balances, rs[..i])
        invariant forall j :: 0 <= j < i ==> rs[j].to.Some?
      {
        if rs[i].to == None { return false; }
        ghost var b := balances;
        Receive(rs[i].to.value, rs[i]);
        assert rs[..i + 1] == rs[..i] + [rs[i]];
        CreditedSnoc(old(balances), b, rs[..i], rs[i]);
      }
      assert rs[..|rs|] == rs;
      ok := true;
    }

    /** The transactions of a block; `all` are all its messages. */
    method ApplyTransactions(txs: seq<Tx>, ghost all: seq<Sent>) returns (ok: bool)
      requires Running() && sent == [] && |txs| <= |all|
      requires AllBehave(txs) && forall i :: 0 <= i < |txs| ==> all[i] == SentTx(config, txs[i])
      modifies this, gp
      ensures ok ==> Running() && sent == all[..|txs|]
      ensures old(states) <= states && (!ok ==> StopsIn(all))
    {
      for i := 0 to |txs|
        invariant Running() && sent == all[..i] && old(states) <= states
      {
        ok := ApplyTransaction(txs[i]);
        if !ok { return; }
        assert all[..i + 1] == all[..i] + [all[i]];
      }
      ok := true;
    }

    /** The staking transactions of a block, after the `n` others. */
    method ApplyStakingTransactions(stakes: seq<Message>, ghost all: seq<Sent>, ghost n: nat) returns (ok: bool)
      requires Running() && n + |stakes| == |all| && sent == all[..n]
      requires AllStake(stakes) && forall i :: 0 <= i < |stakes| ==> all[n + i] == SentStake(stakes[i])
      modifies this, gp
      ensures ok ==> Running() && sent == all
      ensures old(states) <= states && (!ok ==> StopsIn(all))
    {
      for i := 0 to |stakes|
        invariant Running() && sent == all[..n + i] && old(states) <= states
      {
        ok := ApplyStakingTransaction(stakes[i]);
        if !ok { return; }
        assert all[..n + i + 1] == all[..n + i] + [all[n + i]];
      }
      assert all[..|all|] == all;
      ok := true;
    }

    /** The messages of a block: transactions, then staking transactions. */
    method ApplyMessages(txs: seq<Tx>, stakes: seq<Message>) returns (ok: bool)
      requires Running() && sent == []
      requires AllBehave(txs)
      requires AllStake(stakes)
      modifies this, gp
      ensures ok ==> Running() && sent == SentTxs(config, txs) + SentStakes(stakes)
      ensures old(states) <= states && (!ok ==> StopsIn(SentTxs(config, txs) + SentStakes(stakes)))
    {
      ghost var all := SentTxs(config, txs) + SentStakes(stakes);
      ok := ApplyTransactions(txs, all);
      if !ok { return; }
      ok := ApplyStakingTransactions(stakes, all, |txs|);
    }

    /** Process: transactions, staking transactions, then incoming receipts. From the ledger at the start the messages
        lead through ledgers that their code determines, and leave bills that it determines. The total, with what went
        out and without what came in, falls exactly by what the bills lose: the uncollected part of each fee and what
        was burned, less what cross-shard contract creations doubled. */
    method Process(txs: seq<Tx>, stakes: seq<Message>, rs: seq<Receipt>) returns (ok: bool)
      requires Running() && sent == []
      requires AllBehave(txs)
      requires AllStake(stakes)
      modifies this, gp
      ensures !ok ==>
        || StopsIn(SentTxs(config, txs) + SentStakes(stakes))
        || exists i :: 0 <= i < |rs| && rs[i].to == None
      ensures ok ==> forall i :: 0 <= i < |rs| ==> rs[i].to.Some?
      ensures ok ==>
        sent == SentTxs(config, txs) + SentStakes(stakes) && AppliedAll(states, sent, gasLimit, config.fees, bills)
      ensures ok ==> states[0] == State(old(balances), old(staked)) && outgoing == OutOf(bills)
      ensures ok ==> CreditedAll(states[|sent|].balances, balances, rs) && staked == states[|sent|].staked
      ensures ok ==> gp.gas + usedGas == gasLimit && usedGas == GasOf(bills) && Solvent(balances)
      ensures ok ==> Sum(balances) + staked + Amounts(outgoing) - Amounts(rs)
                     == old(Sum(balances) + staked) - Lost(config.fees, bills)
      ensures ok && NoneCreatesAcross(sent) && Fair(config.fees) ==> Lost(config.fees, bills) >= 0
      ensures ok && NoneCreatesAcross(sent) && NoneBurns(sent) && config.fees.ToProducer? ==>
        Lost(config.fees, bills) == 0
    {
      assert states == [State(balances, staked)];
      ok := ApplyMessages(txs, stakes);
      if !ok { return; }
      ok := ApplyIncomingReceipts(rs);
      assert [] + rs == rs;
      if ok { Balanced(); }
    }

    lemma Balanced()
      requires Valid()
      ensures NoneCreatesAcross(sent) && Fair(config.fees) ==> Lost(config.fees, bills) >= 0
      ensures NoneCreatesAcross(sent) && NoneBurns(sent) && config.fees.ToProducer? ==> Lost(config.fees, bills) == 0
    {
      if NoneCreatesAcross(sent) {
        NothingDoubled(states, sent, gasLimit, config.fees, bills);
        if Fair(config.fees) { LostNotNegative(config.fees, bills); }
        if config.fees.ToProducer? && NoneBurns(sent) {
          NothingBurned(states, sent, gasLimit, config.fees, bills);
          NothingLost(config.fees, bills);
        }
      }
    }
  }

  function CrossReceipt(m: Message): Receipt { Receipt(m.to, m.value) }

  ghost function IdleBill(m: Message): Bill {
    Bill(m.intrinsic, m.price, 0, 0, Some(CrossReceipt(m)))
  }

  lemma CreditedOne(r: Receipt)
    ensures forall a: Address :: Credited([r], a) == if r.to == Some(a) then r.amount else 0
  {
    assert [r][..0] == [];
  }

  /** One receipt that has arrived has brought its amount to its recipient, and nothing to others. */
  lemma ArrivesWith(b: Balances, b': Balances, r: Receipt)
    requires CreditedAll(b, b', [r])
    ensures forall a: Address :: Get(b', a) == Get(b, a) + (if r.to == Some(a) then r.amount else 0)
  {
    CreditedOne(r);
    forall a: Address ensures Get(b', a) == Get(b, a) + (if r.to == Some(a) then r.amount else 0) {
      assert CreditedAt(b, b', [r], a);
    }
  }

  /** The sending half. */
  method SendOff(source: Processor, tx: Tx) returns (ok: bool)
    requires source.Running() && TypeOf(source.config, tx).SubtractionOnly? && tx.message.to.Some?
    requires BehavesAlways(tx.message.code) && Idles(tx.message.code)
    modifies source, source.gp
    ensures ok ==> source.outgoing == old(source.outgoing) + [CrossReceipt(tx.message)]
    ensures ok ==>
      Transferred(old(source.balances), source.balances, tx.message, SubtractionOnly, source.config.fees)
    ensures ok ==>
      Sum(source.balances) + source.staked + tx.message.value == old(Sum(source.balances) + source.staked)
        - Uncollected(source.config.fees, Cost(tx.message.intrinsic, tx.message.price))
  {
    ghost var fees, bills := source.config.fees, source.bills;
    ok := source.ApplyTransaction(tx);
    if ok {
      BillsSnoc(fees, bills, IdleBill(tx.message));
      AmountsSnoc(old(source.outgoing), CrossReceipt(tx.message));
    }
  }

  /** The receiving half. */
  method Arrive(target: Processor, r: Receipt) returns (ok: bool)
    requires target.Valid()
    modifies target`balances, target`incoming
    ensures ok <==> r.to.Some?
    ensures ok ==> Sum(target.balances) == old(Sum(target.balances)) + r.amount
    ensures ok ==> forall a: Address ::
      Get(target.balances, a) == old(Get(target.balances, a)) + if r.to == Some(a) then r.amount else 0
  {
    ghost var b, was := target.balances, target.incoming;
    assert [r][0] == r;
    ok := target.ApplyIncomingReceipts([r]);
    if ok {
      AmountsSnoc(was, r);
      ArrivesWith(b, target.balances, r);
    }
  }

  /** A cross-shard transaction whose code does nothing, applied on its shard and then, as a receipt, on the other: the
      recipient gets the value the sender pays, and over both shards only the uncollected part of the fee is lost. */
  method SendAcross(source: Processor, target: Processor, tx: Tx) returns (ok: bool)
    requires source.Running() && target.Valid() && source != target && source.gp != target.gp
    requires TypeOf(source.config, tx).SubtractionOnly? && tx.message.to.Some?
    requires BehavesAlways(tx.message.code) && Idles(tx.message.code)
    modifies source, source.gp, target`balances, target`incoming
    ensures ok ==>
      Transferred(old(source.balances), source.balances, tx.message, SubtractionOnly, source.config.fees)
    ensures ok ==> forall a: Address ::
      Get(target.balances, a)
        == old(Get(target.balances, a)) + if tx.message.to == Some(a) then tx.message.value else 0
    ensures ok ==>
      Sum(source.balances) + source.staked + Sum(target.balances) + target.staked
      == old(Sum(source.balances) + source.staked + Sum(target.balances) + target.staked)
         - Uncollected(source.config.fees, Cost(tx.message.intrinsic, tx.message.price))
  {
    ok := SendOff(source, tx);
    if ok { ok := Arrive(target, CrossReceipt(tx.message)); }
  }

  /** Code that does nothing. */
  const Nothing: Code := (b, staked, gas) => Outcome(b, staked, gas, 0, false, None, 0)

  /** A contract creation by account 1, without gas. */
  function Creation(value: nat): Message { Message(1, None, 2, value, 0, 0, 0, true, Nothing) }

  lemma CreationBill(s: State, value: nat)
    requires value <= Get(s.balances, 1)
    ensures BehavesAlways(Nothing) && Good(s, 0, Sent(Creation(value), SubtractionOnly, false))
    ensures BillOf(s, Creation(value), SubtractionOnly) == Bill(0, 0, 0, value, Some(Receipt(None, value)))
  {
  }

  lemma CreationLoss(fees: Fees, value: nat)
    requires fees.ToProducer?
    ensures Lost(fees, [Bill(0, 0, 0, value, Some(Receipt(None, value)))]) + value == 0
  {
    var l := Bill(0, 0, 0, value, Some(Receipt(None, value)));
    BillsSnoc(fees, [], l);
    assert [] + [l] == [l] && Loss(fees, l) + value == 0;
  }

  /** A contract creation sent to another shard: the sender's tokens end up with the contract and in a receipt. */
  method CreationDoubles(value: nat) returns (p: Processor)
    ensures p.start == value && Sum(p.balances) + p.staked + Amounts(p.outgoing) == 2 * value
  {
    var none: Balances := map[];
    var b := none[1 := value];
    SumPut(none, 1, value);
    assert Sum(none) == 0;
    CreationBill(State(b, 0), value);
    p := new Processor(Config(0, 2, true, ToProducer(3)), 0, b, 0);
    var ok := p.ApplyTransaction(Tx(Creation(value), 0, 1));
    CreationLoss(p.config.fees, value);
    assert p.bills == [Bill(0, 0, 0, value, Some(Receipt(None, value)))];
  }
}
