/** Pool transactions and nonce-indexed maps of them.  A hash is ideal, so a transaction stands for
    its own hash. */
module Transactions {
  import opened Common

  type Address = nat

  datatype Kind = Plain | Delegation | OtherStaking

  /** `cost` is None when computing it fails; `body` stands for everything the pool never reads, which
      still tells two transactions apart. */
  datatype Tx = Tx(sender: Address, nonce: nat, price: int, gas: nat, cost: Option<int>, kind: Kind, body: nat)

  type NonceMap = map<nat, Tx>

  /** Every transaction is stored under its own nonce. */
  ghost predicate Keyed(m: NonceMap) {
    forall n :: n in m ==> m[n].nonce == n
  }

  function Below(m: NonceMap, t: nat): NonceMap { map n | n in m && n < t :: m[n] }

  function AtLeast(m: NonceMap, t: nat): NonceMap { map n | n in m && n >= t :: m[n] }

  function Keep(m: NonceMap, drop: Tx -> bool): NonceMap { map n | n in m && !drop(m[n]) :: m[n] }

  function Drop(m: NonceMap, drop: Tx -> bool): NonceMap { map n | n in m && drop(m[n]) :: m[n] }

  lemma MinExists(s: set<nat>) returns (x: nat)
    requires s != {}
    ensures x in s && forall y :: y in s ==> x <= y
    decreases |s|
  {
    x :| x in s;
    if s != {x} {
      var r := s - {x};
      var y := MinExists(r);
      if y < x { x := y; }
      forall z | z in s ensures x <= z { if z in r {} }
    }
  }

  lemma MaxExists(s: set<nat>) returns (x: nat)
    requires s != {}
    ensures x in s && forall y :: y in s ==> y <= x
    decreases |s|
  {
    x :| x in s;
    if s != {x} {
      var r := s - {x};
      var y := MaxExists(r);
      if x < y { x := y; }
      forall z | z in s ensures z <= x { if z in r {} }
    }
  }

  function Min(s: set<nat>): (x: nat)
    requires s != {}
    ensures x in s && forall y :: y in s ==> x <= y
  {
    assert exists x :: x in s && forall y :: y in s ==> x <= y by { var x := MinExists(s); }
    var x :| x in s && forall y :: y in s ==> x <= y; x
  }

  function Max(s: set<nat>): (x: nat)
    requires s != {}
    ensures x in s && forall y :: y in s ==> y <= x
  {
    assert exists x :: x in s && forall y :: y in s ==> y <= x by { var x := MaxExists(s); }
    var x :| x in s && forall y :: y in s ==> y <= x; x
  }

  lemma MinIs(s: set<nat>, n: nat)
    requires n in s && forall y :: y in s ==> n <= y
    ensures Min(s) == n
  {
  }

  lemma MaxIs(s: set<nat>, n: nat)
    requires n in s && forall y :: y in s ==> y <= n
    ensures Max(s) == n
  {
  }

  lemma Shrinks(m: NonceMap, n: nat)
    requires n in m
    ensures |m - {n}| == |m| - 1
  {
    assert m.Keys == (m - {n}).Keys + {n};
  }

  /** `s` is the contents of `m` in increasing nonce order. */
  ghost predicate Flat(s: seq<Tx>, m: NonceMap) {
    && |s| == |m|
    && (forall i, j :: 0 <= i < j < |s| ==> s[i].nonce < s[j].nonce)
    && (forall i :: 0 <= i < |s| ==> s[i].nonce in m && m[s[i].nonce] == s[i])
  }

  lemma FlatSnoc(s: seq<Tx>, m: NonceMap, tx: Tx)
    requires Flat(s, m) && forall n :: n in m ==> n < tx.nonce
    ensures Flat(s + [tx], m[tx.nonce := tx])
  {
    assert m[tx.nonce := tx].Keys == m.Keys + {tx.nonce};
  }

  lemma FlatInit(s: seq<Tx>, m: NonceMap)
    requires Flat(s, m) && s != []
    ensures Flat(s[..|s| - 1], m - {s[|s| - 1].nonce})
  {
    Shrinks(m, s[|s| - 1].nonce);
  }

  /** A sorted listing misses nothing. */
  lemma {:induction false} FlatCovers(s: seq<Tx>, m: NonceMap, n: nat) returns (i: nat)
    requires Flat(s, m) && n in m
    ensures i < |s| && s[i] == m[n] && s[i].nonce == n
    decreases |s|
  {
    assert m.Keys != {};
    if s == [] { assert false; }
    if s[|s| - 1].nonce == n { return |s| - 1; }
    FlatInit(s, m);
    i := FlatCovers(s[..|s| - 1], m - {s[|s| - 1].nonce}, n);
  }

  lemma FlatLastIsMax(s: seq<Tx>, m: NonceMap)
    requires Flat(s, m) && s != []
    ensures forall n :: n in m ==> n <= s[|s| - 1].nonce
    ensures Max(m.Keys) == s[|s| - 1].nonce
  {
    forall n | n in m ensures n <= s[|s| - 1].nonce { var i := FlatCovers(s, m, n); }
    MaxIs(m.Keys, s[|s| - 1].nonce);
  }

  /** Every map has exactly one sorted listing. */
  lemma {:induction false} FlatExists(m: NonceMap) returns (s: seq<Tx>)
    requires Keyed(m)
    ensures Flat(s, m)
    decreases |m|
  {
    if m.Keys == {} { return []; }
    var x := Max(m.Keys);
    Shrinks(m, x);
    s := FlatExists(m - {x});
    FlatSnoc(s, m - {x}, m[x]);
    assert (m - {x})[x := m[x]] == m;
    s := s + [m[x]];
  }

  lemma {:induction false} FlatUnique(s: seq<Tx>, t: seq<Tx>, m: NonceMap)
    requires Flat(s, m) && Flat(t, m)
    ensures s == t
    decreases |s|
  {
    if s != [] {
      var k := |s| - 1;
      FlatLastIsMax(s, m);
      FlatLastIsMax(t, m);
      FlatInit(s, m);
      FlatInit(t, m);
      FlatUnique(s[..k], t[..k], m - {s[k].nonce});
      assert s == s[..k] + [s[k]] && t == t[..k] + [t[k]];
    }
  }

  lemma SplitSizes(m: NonceMap, t: nat)
    ensures |m| == |Below(m, t)| + |AtLeast(m, t)|
  {
    assert m.Keys == Below(m, t).Keys + AtLeast(m, t).Keys;
  }

  /** Dropping the nonces below `t` shifts a sorted listing by their number. */
  lemma FlatSplit(s: seq<Tx>, m: NonceMap, t: nat)
    requires Flat(s, m) && Keyed(m)
    ensures |Below(m, t)| <= |s|
    ensures Flat(s[..|Below(m, t)|], Below(m, t)) && Flat(s[|Below(m, t)|..], AtLeast(m, t))
  {
    SplitSizes(m, t);
    var low := FlatExists(Below(m, t));
    var high := FlatExists(AtLeast(m, t));
    FlatUnique(s, low + high, m);
    assert s[..|low|] == low && s[|low|..] == high;
  }

  /** Drop the highest nonce until at most `k` are left. */
  function Capped(m: NonceMap, k: nat): (r: NonceMap)
    ensures r.Keys <= m.Keys && forall n :: n in r ==> r[n] == m[n]
    ensures |r| == if |m| <= k then |m| else k
    decreases |m|
  {
    if |m| <= k then m else
      Shrinks(m, Max(m.Keys));
      Capped(m - {Max(m.Keys)}, k)
  }

  /** A sorted listing is the listing of one map only. */
  lemma FlatSame(s: seq<Tx>, m: NonceMap, r: NonceMap)
    requires Flat(s, m) && Flat(s, r)
    ensures m == r
  {
    forall n ensures n in m <==> n in r {
      if n in m { var i := FlatCovers(s, m, n); }
      if n in r { var i := FlatCovers(s, r, n); }
    }
    forall n | n in m ensures m[n] == r[n] { var i := FlatCovers(s, m, n); }
  }

  /** Capping cuts the sorted listing. */
  lemma {:induction false} FlatCapped(s: seq<Tx>, m: NonceMap, k: nat)
    requires Flat(s, m) && k <= |s|
    ensures Flat(s[..k], Capped(m, k))
    decreases |s|
  {
    if k == |s| {
      assert s[..k] == s;
    } else {
      var init := s[..|s| - 1];
      FlatLastIsMax(s, m);
      FlatInit(s, m);
      FlatCapped(init, m - {Max(m.Keys)}, k);
      assert init[..k] == s[..k];
    }
  }

  /** What a cap keeps lies below everything it drops. */
  lemma {:induction false} CappedIsLowest(m: NonceMap, k: nat)
    ensures forall a, b :: a in Capped(m, k) && b in m && b !in Capped(m, k) ==> a < b
    decreases |m|
  {
    if |m| > k {
      var x := Max(m.Keys);
      Shrinks(m, x);
      CappedIsLowest(m - {x}, k);
    }
  }

  /** The first nonce from `n` on that `m` lacks. */
  function RunEnd(m: NonceMap, n: nat): (e: nat)
    ensures n <= e && e !in m && forall k :: n <= k < e ==> k in m
    decreases |AtLeast(m, n)|
  {
    if n in m then
      assert AtLeast(m, n).Keys == AtLeast(m, n + 1).Keys + {n};
      RunEnd(m, n + 1)
    else n
  }

  /** The maximal run of consecutive nonces from the lowest one, provided that one is at most `start`. */
  function ReadyPart(m: NonceMap, start: nat): NonceMap {
    if m.Keys == {} || Min(m.Keys) > start then map[] else Below(m, RunEnd(m, Min(m.Keys)))
  }

  function ReadyRest(m: NonceMap, start: nat): NonceMap {
    if m.Keys == {} || Min(m.Keys) > start then m else AtLeast(m, RunEnd(m, Min(m.Keys)))
  }

  /** The transactions of a map, as a set. */
  ghost function Txs(m: NonceMap): set<Tx> { set n | n in m :: m[n] }
}
