/** prepareStakingMetaData of core/blockchain_impl.go: for each delegator touched by a block, where its delegations
    stand in the validators' wrappers. */
module DelegationIndex {
  import opened Common

  type Address = nat

  /** For each validator, who delegates to it, by position. */
  type Wrappers = map<Address, seq<Address>>

  datatype Entry = Entry(validator: Address, position: nat, blockNum: nat)

  type Indexes = map<Address, seq<Entry>>

  datatype Message = Create(validator: Address) | Delegate(delegator: Address, to: Address)

  // ---------- what a full scan would find ----------

  ghost predicate Holds(m: Wrappers, a: Address, v: Address) { v in m && a in m[v] }

  /** The index names each validator at most once. */
  ghost predicate NoRepeats(ix: seq<Entry>) {
    forall i, j :: 0 <= i < j < |ix| ==> ix[i].validator != ix[j].validator
  }

  ghost predicate Lists(ix: seq<Entry>, v: Address) { exists i :: 0 <= i < |ix| && ix[i].validator == v }

  ghost predicate Right(m: Wrappers, a: Address, e: Entry) {
    e.validator in m && e.position < |m[e.validator]| && m[e.validator][e.position] == a
  }

  ghost predicate AllRight(m: Wrappers, a: Address, ix: seq<Entry>) {
    forall i :: 0 <= i < |ix| ==> Right(m, a, ix[i])
  }

  /** Exactly one entry for each validator where `a` has a delegation, at its position there. */
  ghost predicate Exact(m: Wrappers, a: Address, ix: seq<Entry>) {
    && NoRepeats(ix) && AllRight(m, a, ix)
    && forall v :: Holds(m, a, v) ==> Lists(ix, v)
  }

  function Get(db: Indexes, a: Address): seq<Entry> { if a in db then db[a] else [] }

  // ---------- the block ----------

  /** Wrappers only grow by appending, one entry per delegator. */
  ghost predicate Appends(before: Wrappers, after: Wrappers) {
    && (forall v :: v in after ==> NoDuplicates(after[v]))
    && (forall v :: v in before ==> v in after && before[v] <= after[v])
  }

  ghost predicate Adds(msg: Message, a: Address, v: Address) {
    match msg
    case Create(c) => a == c == v
    case Delegate(d, to) => a == d && v == to
  }

  /** A validator was created. Delegations need not have taken effect: those made by a contract call that is reverted
      later are listed all the same. */
  ghost predicate Effective(before: Wrappers, after: Wrappers, msg: Message) {
    msg.Create? ==>
      && msg.validator !in before && msg.validator in after
      && |after[msg.validator]| > 0 && after[msg.validator][0] == msg.validator
  }

  ghost predicate Added(msgs: seq<Message>, n: nat, a: Address, v: Address) {
    n <= |msgs| && exists i :: 0 <= i < n && Adds(msgs[i], a, v)
  }

  /** The validators named were created, and the messages account for every new delegation. */
  ghost predicate Explains(before: Wrappers, after: Wrappers, msgs: seq<Message>) {
    && Appends(before, after)
    && (forall i :: 0 <= i < |msgs| ==> Effective(before, after, msgs[i]))
    && (forall a, v :: Holds(after, a, v) ==> Holds(before, a, v) || Added(msgs, |msgs|, a, v))
  }

  /** No delegation by a validator to itself comes before its creation. */
  ghost predicate InOrder(msgs: seq<Message>, n: nat, a: Address) {
    n <= |msgs| && forall i, j :: 0 <= i < j < n && msgs[j] == Create(a) ==> msgs[i] != Delegate(a, a)
  }

  /** After `n` messages the index of `a` is right for the delegations seen so far, unless messages were out of order:
      then it repeats a validator for good. */
  ghost predicate SoFar(before: Wrappers, after: Wrappers, msgs: seq<Message>, n: nat, a: Address, ix: seq<Entry>) {
    var ok :=
      && AllRight(after, a, ix)
      && (InOrder(msgs, n, a) <==> NoRepeats(ix))
      && (forall v :: Lists(ix, v) <==> Holds(before, a, v) || (Added(msgs, n, a, v) && Holds(after, a, v)));
    ok
  }

  lemma AddedNext(msgs: seq<Message>, n: nat, a: Address)
    requires n < |msgs|
    ensures forall v :: Added(msgs, n + 1, a, v) <==> Added(msgs, n, a, v) || Adds(msgs[n], a, v)
  {
    forall v | Adds(msgs[n], a, v) ensures Added(msgs, n + 1, a, v) {
      assert Adds(msgs[n], a, v);
    }
  }

  /** An index that was exact before the block. */
  lemma StartsRight(before: Wrappers, after: Wrappers, msgs: seq<Message>, a: Address, ix: seq<Entry>)
    requires Explains(before, after, msgs) && Exact(before, a, ix)
    ensures SoFar(before, after, msgs, 0, a, ix)
  {
    forall i | 0 <= i < |ix| ensures Right(after, a, ix[i]) && Holds(before, a, ix[i].validator) {
      assert Right(before, a, ix[i]);
    }
  }

  lemma ListsSnoc(ix: seq<Entry>, e: Entry)
    ensures forall v :: Lists(ix + [e], v) <==> Lists(ix, v) || v == e.validator
    ensures NoRepeats(ix + [e]) <==> NoRepeats(ix) && !Lists(ix, e.validator)
  {
    var ix' := ix + [e];
    assert ix'[|ix|] == e;
    forall v | Lists(ix, v) ensures Lists(ix', v) {
      var i :| 0 <= i < |ix| && ix[i].validator == v;
      assert ix'[i].validator == v;
    }
    if NoRepeats(ix') {
      forall i, j | 0 <= i < j < |ix| ensures ix[i].validator != ix[j].validator {
        assert ix'[i].validator != ix'[j].validator;
      }
      forall i | 0 <= i < |ix| ensures ix[i].validator != e.validator {
        assert ix'[i].validator != ix'[|ix|].validator;
      }
    }
  }

  lemma OrderNext(msgs: seq<Message>, n: nat, a: Address)
    requires n < |msgs|
    ensures InOrder(msgs, n + 1, a) <==>
      InOrder(msgs, n, a) && !(msgs[n] == Create(a) && exists i :: 0 <= i < n && msgs[i] == Delegate(a, a))
  {
    if InOrder(msgs, n, a) && !(msgs[n] == Create(a) && exists i :: 0 <= i < n && msgs[i] == Delegate(a, a)) {
      forall i, j | 0 <= i < j < n + 1 && msgs[j] == Create(a) ensures msgs[i] != Delegate(a, a) {
        if j == n { assert msgs[i] != Delegate(a, a); }
      }
    }
  }

  /** A message about others leaves the index of `a` right. */
  lemma Others(before: Wrappers, after: Wrappers, msgs: seq<Message>, n: nat, a: Address, ix: seq<Entry>)
    requires n < |msgs| && SoFar(before, after, msgs, n, a, ix)
    requires forall v :: !Adds(msgs[n], a, v)
    ensures SoFar(before, after, msgs, n + 1, a, ix)
  {
    AddedNext(msgs, n, a);
    OrderNext(msgs, n, a);
    assert !Adds(msgs[n], a, a);
  }

  /** A delegation already listed. */
  lemma Repeated(before: Wrappers, after: Wrappers, msgs: seq<Message>, n: nat, a: Address, v: Address, ix: seq<Entry>)
    requires n < |msgs| && SoFar(before, after, msgs, n, a, ix) && msgs[n] == Delegate(a, v) && Lists(ix, v)
    ensures SoFar(before, after, msgs, n + 1, a, ix)
  {
    AddedNext(msgs, n, a);
    OrderNext(msgs, n, a);
  }

  /** A delegation that did not last. */
  lemma Ineffective(before: Wrappers, after: Wrappers, msgs: seq<Message>, n: nat, a: Address, v: Address,
                    ix: seq<Entry>)
    requires n < |msgs| && SoFar(before, after, msgs, n, a, ix) && msgs[n] == Delegate(a, v) && !Holds(after, a, v)
    ensures SoFar(before, after, msgs, n + 1, a, ix)
  {
    AddedNext(msgs, n, a);
    OrderNext(msgs, n, a);
  }

  /** A delegation not yet listed. */
  lemma Appended(before: Wrappers, after: Wrappers, msgs: seq<Message>, n: nat, a: Address, e: Entry, ix: seq<Entry>)
    requires n < |msgs| && SoFar(before, after, msgs, n, a, ix) && Right(after, a, e)
    requires msgs[n] == Delegate(a, e.validator) && !Lists(ix, e.validator)
    ensures SoFar(before, after, msgs, n + 1, a, ix + [e])
  {
    AddedNext(msgs, n, a);
    OrderNext(msgs, n, a);
    ListsSnoc(ix, e);
  }

  /** A validator's own entry: a repeat exactly when it delegated to itself earlier in the block. */
  lemma Created(before: Wrappers, after: Wrappers, msgs: seq<Message>, n: nat, a: Address, e: Entry, ix: seq<Entry>)
    requires n < |msgs| && SoFar(before, after, msgs, n, a, ix) && Right(after, a, e)
    requires msgs[n] == Create(a) && e.validator == a && a !in before
    requires forall i :: 0 <= i < n ==> msgs[i] != Create(a)
    ensures SoFar(before, after, msgs, n + 1, a, ix + [e])
  {
    AddedNext(msgs, n, a);
    OrderNext(msgs, n, a);
    ListsSnoc(ix, e);
    assert Lists(ix, a) <==> exists i :: 0 <= i < n && msgs[i] == Delegate(a, a) by {
      if i :| 0 <= i < n && msgs[i] == Delegate(a, a) { assert Adds(msgs[i], a, a); }
      if i :| 0 <= i < n && Adds(msgs[i], a, a) { assert msgs[i] == Delegate(a, a); }
    }
  }

  // ---------- the program ----------

  /** Whether the validator is already listed. */
  method Listed(ix: seq<Entry>, v: Address) returns (r: bool)
    ensures r == Lists(ix, v)
  {
    for i := 0 to |ix|
      invariant forall j :: 0 <= j < i ==> ix[j].validator != v
    {
      if ix[i].validator == v { return true; }
    }
    r := false;
  }

  /** An index left alone when the validator is listed or holds nothing of `a`; else one entry longer. */
  ghost predicate Lengthened(ix: seq<Entry>, a: Address, v: Address, m: Wrappers, blockNum: nat, ix': seq<Entry>) {
    && v in m
    && (Lists(ix, v) || a !in m[v] ==> ix' == ix)
    && (!Lists(ix, v) && a in m[v] && NoDuplicates(m[v]) ==>
         && |ix'| == |ix| + 1 && ix' == ix + [Entry(v, ix'[|ix|].position, blockNum)]
         && Right(m, a, ix'[|ix|]))
  }

  /** addDelegationIndex: unless the validator is listed, every entry of `a` in its wrapper is. */
  method AddDelegationIndex(ix: seq<Entry>, a: Address, v: Address, m: Wrappers, blockNum: nat)
    returns (ok: bool, ix': seq<Entry>)
    ensures ok <==> Lists(ix, v) || v in m
    ensures if ok && v in m then Lengthened(ix, a, v, m, blockNum, ix') else ix' == ix
  {
    var listed := Listed(ix, v);
    if listed { return true, ix; }
    if v !in m { return false, ix; }
    ix' := ix;
    var w := m[v];
    for i := 0 to |w|
      invariant a !in w[..i] ==> ix' == ix
      invariant a in w[..i] && NoDuplicates(w) ==>
        |ix'| == |ix| + 1 && ix' == ix + [Entry(v, ix'[|ix|].position, blockNum)] && Right(m, a, ix'[|ix|])
    {
      if w[i] == a {
        if NoDuplicates(w) { assert a !in w[..i]; }
        ix' := ix' + [Entry(v, i, blockNum)];
      }
      assert w[..i + 1] == w[..i] + [w[i]];
    }
    assert w[..|w|] == w;
    ok := true;
  }

  /** What the new indexes hold after `n` messages: for every delegator, cached or still as stored. */
  ghost predicate Progress(before: Wrappers, after: Wrappers, db: Indexes, msgs: seq<Message>, n: nat, cache: Indexes) {
    forall a :: SoFar(before, after, msgs, n, a, Current(db, cache, a))
  }

  /** The index of a delegator: from the cache, or loaded from the database. */
  function Current(db: Indexes, cache: Indexes, a: Address): seq<Entry> {
    if a in cache then cache[a] else Get(db, a)
  }

  /** Entries are only appended, and those of the block carry its number. */
  ghost predicate Grows(ix: seq<Entry>, ix': seq<Entry>, blockNum: nat) {
    ix <= ix' && forall i :: |ix| <= i < |ix'| ==> ix'[i].blockNum == blockNum
  }

  ghost predicate Extends(db: Indexes, cache: Indexes, cache': Indexes, blockNum: nat) {
    forall b :: Grows(Current(db, cache, b), Current(db, cache', b), blockNum)
  }

  lemma ExtendsAt(db: Indexes, cache: Indexes, a: Address, ix: seq<Entry>, blockNum: nat)
    requires Grows(Current(db, cache, a), ix, blockNum)
    ensures Extends(db, cache, cache[a := ix], blockNum)
  {
    forall b ensures Grows(Current(db, cache, b), Current(db, cache[a := ix], b), blockNum) {}
  }

  lemma ExtendsOn(db: Indexes, cache: Indexes, cache': Indexes, blockNum: nat)
    requires Extends(db, map[], cache, blockNum) && Extends(db, cache, cache', blockNum)
    ensures Extends(db, map[], cache', blockNum)
  {
    forall b ensures Grows(Current(db, map[], b), Current(db, cache', b), blockNum) {
      assert Grows(Current(db, map[], b), Current(db, cache, b), blockNum);
      assert Grows(Current(db, cache, b), Current(db, cache', b), blockNum);
    }
  }

  /** The message is an AppendIfMissing failure: its validator was created earlier in the block. */
  ghost predicate CreatedTwice(msgs: seq<Message>, n: nat) {
    n <= |msgs| && exists i, j :: 0 <= i < j < n && msgs[i].Create? && msgs[i] == msgs[j]
  }

  /** processDelegateMetadata: fails when the validator has no wrapper. */
  method ProcessDelegate(ghost before: Wrappers, after: Wrappers, db: Indexes, msgs: seq<Message>, n: nat,
                         cache: Indexes, blockNum: nat) returns (ok: bool, cache': Indexes)
    requires n < |msgs| && msgs[n].Delegate? && Explains(before, after, msgs)
    requires Progress(before, after, db, msgs, n, cache)
    ensures ok <==> msgs[n].to in after
    ensures ok ==> Progress(before, after, db, msgs, n + 1, cache')
    ensures ok ==> cache'.Keys == cache.Keys + {msgs[n].delegator} && Extends(db, cache, cache', blockNum)
  {
    var a, v := msgs[n].delegator, msgs[n].to;
    var ix := Current(db, cache, a);
    assert SoFar(before, after, msgs, n, a, ix);
    ListedExists(after, a, ix, v);
    var ix';
    ok, ix' := AddDelegationIndex(ix, a, v, after, blockNum);
    cache' := cache[a := ix'];
    if ok { DelegateProgress(before, after, db, msgs, n, cache, ix', blockNum); }
  }

  lemma DelegateProgress(before: Wrappers, after: Wrappers, db: Indexes, msgs: seq<Message>, n: nat, cache: Indexes,
                         ix': seq<Entry>, blockNum: nat)
    requires n < |msgs| && msgs[n].Delegate? && msgs[n].to in after && Explains(before, after, msgs)
    requires Progress(before, after, db, msgs, n, cache)
    requires Lengthened(Current(db, cache, msgs[n].delegator), msgs[n].delegator, msgs[n].to, after, blockNum, ix')
    ensures var cache' := cache[msgs[n].delegator := ix'];
      Progress(before, after, db, msgs, n + 1, cache') && Extends(db, cache, cache', blockNum)
  {
    var a := msgs[n].delegator;
    var ix := Current(db, cache, a);
    assert SoFar(before, after, msgs, n, a, ix);
    DelegateListed(before, after, msgs, n, a, msgs[n].to, ix, ix', blockNum);
    ProgressAt(before, after, db, msgs, n, cache, a, ix');
    ExtendsAt(db, cache, a, ix', blockNum);
  }

  lemma ListedExists(m: Wrappers, a: Address, ix: seq<Entry>, v: Address)
    requires AllRight(m, a, ix)
    ensures Lists(ix, v) ==> v in m
  {
    if i :| 0 <= i < |ix| && ix[i].validator == v { assert Right(m, a, ix[i]); }
  }

  /** Whichever way addDelegationIndex goes, the index stays right. */
  lemma DelegateListed(before: Wrappers, after: Wrappers, msgs: seq<Message>, n: nat, a: Address, v: Address,
                       ix: seq<Entry>, ix': seq<Entry>, blockNum: nat)
    requires n < |msgs| && Explains(before, after, msgs) && SoFar(before, after, msgs, n, a, ix)
    requires msgs[n] == Delegate(a, v) && v in after
    requires Lengthened(ix, a, v, after, blockNum, ix')
    ensures SoFar(before, after, msgs, n + 1, a, ix') && Grows(ix, ix', blockNum)
  {
    if Lists(ix, v) {
      Repeated(before, after, msgs, n, a, v, ix);
    } else if a !in after[v] {
      Ineffective(before, after, msgs, n, a, v, ix);
    } else {
      Appended(before, after, msgs, n, a, ix'[|ix|], ix);
    }
  }

  /** Only the index of `a` changes. */
  lemma ProgressAt(before: Wrappers, after: Wrappers, db: Indexes, msgs: seq<Message>, n: nat, cache: Indexes,
                   a: Address, ix: seq<Entry>)
    requires n < |msgs| && Progress(before, after, db, msgs, n, cache) && SoFar(before, after, msgs, n + 1, a, ix)
    requires forall b, v :: b != a ==> !Adds(msgs[n], b, v)
    ensures Progress(before, after, db, msgs, n + 1, cache[a := ix])
  {
    var cache' := cache[a := ix];
    forall b ensures SoFar(before, after, msgs, n + 1, b, Current(db, cache', b)) {
      if b != a {
        assert SoFar(before, after, msgs, n, b, Current(db, cache, b));
        Others(before, after, msgs, n, b, Current(db, cache, b));
      }
    }
  }

  /** The entry of a new validator for itself. */
  method ProcessCreate(ghost before: Wrappers, ghost after: Wrappers, db: Indexes, msgs: seq<Message>, n: nat,
                       cache: Indexes, blockNum: nat) returns (cache': Indexes)
    requires n < |msgs| && msgs[n].Create? && Explains(before, after, msgs)
    requires forall i :: 0 <= i < n ==> msgs[i] != msgs[n]
    requires Progress(before, after, db, msgs, n, cache)
    ensures Progress(before, after, db, msgs, n + 1, cache')
    ensures cache'.Keys == cache.Keys + {msgs[n].validator} && Extends(db, cache, cache', blockNum)
  {
    var a := msgs[n].validator;
    var ix := Current(db, cache, a);
    var e := Entry(a, 0, blockNum);
    assert SoFar(before, after, msgs, n, a, ix);
    assert Effective(before, after, msgs[n]);
    Created(before, after, msgs, n, a, e, ix);
    ProgressAt(before, after, db, msgs, n, cache, a, ix + [e]);
    ExtendsAt(db, cache, a, ix + [e], blockNum);
    cache' := cache[a := ix + [e]];
  }

  ghost function Touched(msgs: seq<Message>, n: nat): set<Address>
    requires n <= |msgs|
  {
    set i | 0 <= i < n :: ToucherOf(msgs[i])
  }

  function ToucherOf(msg: Message): Address { if msg.Create? then msg.validator else msg.delegator }

  lemma TouchedNext(msgs: seq<Message>, n: nat)
    requires n < |msgs|
    ensures Touched(msgs, n + 1) == Touched(msgs, n) + {ToucherOf(msgs[n])}
  {
  }

  /** `created` are the validators created by the first `n` messages. */
  ghost predicate CreatedAre(msgs: seq<Message>, n: nat, created: set<Address>) {
    n <= |msgs| && forall v :: v in created <==> CreatedBy(msgs, n, v)
  }

  /** A delegation to an address without a wrapper. */
  ghost predicate Missing(after: Wrappers, msgs: seq<Message>, n: nat) {
    n <= |msgs| && exists i :: 0 <= i < n && msgs[i].Delegate? && msgs[i].to !in after
  }

  ghost predicate Refused(after: Wrappers, msgs: seq<Message>, n: nat) {
    CreatedTwice(msgs, n) || Missing(after, msgs, n)
  }

  /** The invariant of prepareStakingMetaData after `n` messages. */
  ghost predicate Reached(before: Wrappers, after: Wrappers, db: Indexes, msgs: seq<Message>, n: nat, cache: Indexes,
                          created: set<Address>, blockNum: nat) {
    var ok := n <= |msgs| && Progress(before, after, db, msgs, n, cache) && cache.Keys == Touched(msgs, n)
              && Extends(db, map[], cache, blockNum) && CreatedAre(msgs, n, created) && !Refused(after, msgs, n);
    ok
  }

  lemma CreatedNext(msgs: seq<Message>, n: nat, created: set<Address>)
    requires n < |msgs| && CreatedAre(msgs, n, created)
    ensures CreatedAre(msgs, n + 1, if msgs[n].Create? then created + {msgs[n].validator} else created)
    ensures !CreatedTwice(msgs, n) ==>
      (CreatedTwice(msgs, n + 1) <==> msgs[n].Create? && msgs[n].validator in created)
  {
    forall v ensures CreatedBy(msgs, n + 1, v) <==> CreatedBy(msgs, n, v) || msgs[n] == Create(v) {
      if msgs[n] == Create(v) { assert CreatedBy(msgs, n + 1, v); }
    }
    if msgs[n].Create? && msgs[n].validator in created {
      var j :| 0 <= j < n && msgs[j] == Create(msgs[n].validator);
      assert CreatedTwice(msgs, n + 1);
    }
  }

  /** Either kind of message. */
  method Process(ghost before: Wrappers, after: Wrappers, db: Indexes, msgs: seq<Message>, n: nat, cache: Indexes,
                 blockNum: nat) returns (ok: bool, cache': Indexes)
    requires n < |msgs| && Explains(before, after, msgs) && Progress(before, after, db, msgs, n, cache)
    requires msgs[n].Create? ==> forall i :: 0 <= i < n ==> msgs[i] != msgs[n]
    ensures ok <==> msgs[n].Create? || msgs[n].to in after
    ensures ok ==> Progress(before, after, db, msgs, n + 1, cache')
    ensures ok ==> cache'.Keys == cache.Keys + {ToucherOf(msgs[n])} && Extends(db, cache, cache', blockNum)
  {
    if msgs[n].Create? {
      cache' := ProcessCreate(before, after, db, msgs, n, cache, blockNum);
      ok := true;
    } else {
      ok, cache' := ProcessDelegate(before, after, db, msgs, n, cache, blockNum);
    }
  }

  /** One message of the loop. */
  method Advance(ghost before: Wrappers, after: Wrappers, db: Indexes, msgs: seq<Message>, n: nat, cache: Indexes,
                 created: set<Address>, blockNum: nat) returns (ok: bool, cache': Indexes, created': set<Address>)
    requires n < |msgs| && Explains(before, after, msgs)
    requires Reached(before, after, db, msgs, n, cache, created, blockNum)
    ensures if ok then Reached(before, after, db, msgs, n + 1, cache', created', blockNum)
            else Refused(after, msgs, n + 1)
  {
    cache', created' := cache, created;
    CreatedNext(msgs, n, created);
    TouchedNext(msgs, n);
    if msgs[n].Create? {
      if msgs[n].validator in created { return false, cache', created'; }
      created' := created + {msgs[n].validator};
    }
    ok, cache' := Process(before, after, db, msgs, n, cache, blockNum);
    if ok { ReachedNext(before, after, db, msgs, n, cache, created, cache', created', blockNum); }
  }

  lemma ReachedNext(before: Wrappers, after: Wrappers, db: Indexes, msgs: seq<Message>, n: nat, cache: Indexes,
                    created: set<Address>, cache': Indexes, created': set<Address>, blockNum: nat)
    requires n < |msgs| && Reached(before, after, db, msgs, n, cache, created, blockNum)
    requires Progress(before, after, db, msgs, n + 1, cache') && Extends(db, cache, cache', blockNum)
    requires cache'.Keys == cache.Keys + {ToucherOf(msgs[n])} && CreatedAre(msgs, n + 1, created')
    requires !CreatedTwice(msgs, n + 1) && (msgs[n].Create? || msgs[n].to in after)
    ensures Reached(before, after, db, msgs, n + 1, cache', created', blockNum)
  {
    TouchedNext(msgs, n);
    ExtendsOn(db, cache, cache', blockNum);
    assert !Missing(after, msgs, n + 1);
  }

  /** prepareStakingMetaData. When the index was exact before the block and the messages could be executed in their
      order, the index of every delegator is exact after it. In general it is exact for a delegator exactly when no
      delegation of it to itself is listed before its creation as a validator. */
  method PrepareStakingMetaData(ghost before: Wrappers, after: Wrappers, db: Indexes, msgs: seq<Message>, blockNum: nat)
    returns (ok: bool, cache: Indexes)
    requires Explains(before, after, msgs)
    requires forall a :: Exact(before, a, Get(db, a))
    ensures ok <==> !Refused(after, msgs, |msgs|)
    ensures ok ==> cache.Keys == Touched(msgs, |msgs|) && Extends(db, map[], cache, blockNum)
    ensures ok ==> forall a :: Exact(after, a, Current(db, cache, a)) <==> InOrder(msgs, |msgs|, a)
    ensures ok && Executable(before, msgs) ==> forall a :: Exact(after, a, Current(db, cache, a))
  {
    cache := map[];
    var created: set<Address> := {};
    Start(before, after, db, msgs, blockNum);
    for i := 0 to |msgs|
      invariant Reached(before, after, db, msgs, i, cache, created, blockNum)
    {
      ok, cache, created := Advance(before, after, db, msgs, i, cache, created, blockNum);
      if !ok { return; }
    }
    ok := true;
    Final(before, after, db, msgs, cache);
    if Executable(before, msgs) { AllInOrder(before, after, msgs); }
  }

  lemma AllInOrder(before: Wrappers, after: Wrappers, msgs: seq<Message>)
    requires Explains(before, after, msgs) && Executable(before, msgs) && !CreatedTwice(msgs, |msgs|)
    ensures forall a :: InOrder(msgs, |msgs|, a)
  {
    forall a ensures InOrder(msgs, |msgs|, a) { ExecutedInOrder(before, after, msgs, a); }
  }

  lemma Final(before: Wrappers, after: Wrappers, db: Indexes, msgs: seq<Message>, cache: Indexes)
    requires Explains(before, after, msgs) && Progress(before, after, db, msgs, |msgs|, cache)
    ensures forall a :: Exact(after, a, Current(db, cache, a)) <==> InOrder(msgs, |msgs|, a)
  {
    forall a ensures Exact(after, a, Current(db, cache, a)) <==> InOrder(msgs, |msgs|, a) {
      var ix := Current(db, cache, a);
      assert SoFar(before, after, msgs, |msgs|, a, ix);
      assert forall v :: Holds(after, a, v) ==> Lists(ix, v);
    }
  }

  lemma Start(before: Wrappers, after: Wrappers, db: Indexes, msgs: seq<Message>, blockNum: nat)
    requires Explains(before, after, msgs) && forall a :: Exact(before, a, Get(db, a))
    ensures Reached(before, after, db, msgs, 0, map[], {}, blockNum)
  {
    assert forall v :: !CreatedBy(msgs, 0, v);
    forall a ensures SoFar(before, after, msgs, 0, a, Current(db, map[], a)) {
      StartsRight(before, after, msgs, a, Get(db, a));
    }
  }

  /** The validator of each delegation existed by then. */
  ghost predicate Executable(before: Wrappers, msgs: seq<Message>) {
    forall i :: 0 <= i < |msgs| && msgs[i].Delegate? && msgs[i].to !in before ==> CreatedBy(msgs, i, msgs[i].to)
  }

  ghost predicate CreatedBy(msgs: seq<Message>, n: nat, v: Address) {
    n <= |msgs| && exists j :: 0 <= j < n && msgs[j] == Create(v)
  }

  /** Messages that could be executed in this order are in order for every delegator. */
  lemma ExecutedInOrder(before: Wrappers, after: Wrappers, msgs: seq<Message>, a: Address)
    requires Explains(before, after, msgs) && Executable(before, msgs) && !CreatedTwice(msgs, |msgs|)
    ensures InOrder(msgs, |msgs|, a)
  {
    forall i, j | 0 <= i < j < |msgs| && msgs[j] == Create(a) ensures msgs[i] != Delegate(a, a) {
      assert Effective(before, after, msgs[j]);
      assert !CreatedBy(msgs, i, a);
    }
  }

  /** The condition is not empty: a self-delegation listed ahead of the creation, which no execution produces, gives the
      validator two entries for itself. */
  lemma OutOfOrder()
    ensures
      var msgs := [Delegate(1, 1), Create(1)];
      Explains(map[], map[1 := [1]], msgs) && !Refused(map[1 := [1]], msgs, 2) && !InOrder(msgs, 2, 1)
  {
    var msgs := [Delegate(1, 1), Create(1)];
    var before: Wrappers := map[];
    var after: Wrappers := map[1 := [1]];
    assert Adds(msgs[0], 1, 1);
    assert Holds(after, 1, 1);
    assert Effective(before, after, msgs[0]) && Effective(before, after, msgs[1]);
    assert msgs[1] == Create(1) && msgs[0] == Delegate(1, 1);
  }
}
