/** GetAncestor of core/headerchain.go: an ancestor by number, taking the canonical chain as a shortcut. */
module HeaderChain {
  import opened Common

  type Hash = nat

  /** What a missing hash reads as. */
  const Zero: Hash := 0

  datatype Id = Id(hash: Hash, number: nat)

  /** Stored headers give the parent's hash; the canonical chain gives one hash for each number. */
  datatype Store = Store(parents: map<Id, Hash>, canonical: map<nat, Hash>)

  function Canonical(db: Store, n: nat): Hash { if n in db.canonical then db.canonical[n] else Zero }

  /** The canonical chain is parent-linked down to genesis, and no hash is zero. */
  ghost predicate Consistent(db: Store) {
    && (forall n :: n in db.canonical ==> db.canonical[n] != Zero)
    && (forall n :: n in db.canonical && n > 0 ==>
          && Id(db.canonical[n], n) in db.parents && n - 1 in db.canonical
          && db.parents[Id(db.canonical[n], n)] == db.canonical[n - 1])
    && (forall id :: id in db.parents && id.number > 0 ==> db.parents[id] != Zero)
  }

  /** The ancestor found by following parents alone. */
  ghost function Walk(db: Store, id: Id, k: nat): Option<Id>
    decreases k
  {
    if k == 0 then Some(id)
    else if id.number == 0 || id !in db.parents then None
    else Walk(db, Id(db.parents[id], id.number - 1), k - 1)
  }

  /** How many parents are followed before the canonical chain is met. */
  ghost function Detour(db: Store, id: Id, k: nat): nat
    decreases k
  {
    if k == 0 || id.number == 0 || id !in db.parents || Canonical(db, id.number) == id.hash then 0
    else 1 + Detour(db, Id(db.parents[id], id.number - 1), k - 1)
  }

  /** On the canonical chain, following parents leads where the numbers say. */
  lemma {:induction false} WalkCanonical(db: Store, id: Id, k: nat)
    requires Consistent(db) && id.hash != Zero && Canonical(db, id.number) == id.hash && k <= id.number
    ensures Walk(db, id, k) == Some(Id(Canonical(db, id.number - k), id.number - k))
    decreases k
  {
    if k > 0 { WalkCanonical(db, Id(db.parents[id], id.number - 1), k - 1); }
  }

  lemma {:induction false} WalkTooFar(db: Store, id: Id, k: nat)
    requires k > id.number
    ensures Walk(db, id, k) == None
    decreases k
  {
    if id.number > 0 && id in db.parents { WalkTooFar(db, Id(db.parents[id], id.number - 1), k - 1); }
  }

  /** The answer: the ancestor by parents, if it is reached within the budget of steps off the canonical chain. */
  ghost function Answer(db: Store, id: Id, k: nat, budget: nat): Id {
    var found := Walk(db, id, k);
    if found.Some? && (k == 1 || Detour(db, id, k) <= budget) then found.value else Id(Zero, 0)
  }

  /** No header has the zero hash. */
  ghost predicate NoZeroHeader(db: Store) { forall n :: Id(Zero, n) !in db.parents }

  /** GetAncestor agrees with following parents for every hash but zero. The zero hash is what the canonical chain reads
      as above its head, so there, and only there, it is taken for a canonical block. */
  method GetAncestor(db: Store, hash: Hash, number: nat, ancestor: nat, budget: nat)
    returns (r: Id, left: nat)
    requires Consistent(db)
    ensures hash != Zero ==> r == Answer(db, Id(hash, number), ancestor, budget)
    ensures NoZeroHeader(db) && 0 in db.canonical ==>
      (r == Answer(db, Id(hash, number), ancestor, budget)
       <==> hash != Zero || number in db.canonical || ancestor <= 1 || number < ancestor)
    ensures hash == Zero && number !in db.canonical && 1 < ancestor <= number ==>
      r == Id(Canonical(db, number - ancestor), number - ancestor)
    ensures left <= budget
    ensures hash != Zero && r.hash != Zero && ancestor != 1 ==> left == budget - Detour(db, Id(hash, number), ancestor)
  {
    var id, k: nat := Id(hash, number), ancestor;
    left := budget;
    if ancestor > number {
      WalkTooFar(db, id, ancestor);
      return Id(Zero, 0), left;
    }
    if ancestor == 1 {
      if id !in db.parents { return Id(Zero, 0), left; }
      assert Walk(db, id, 1) == Walk(db, Id(db.parents[id], number - 1), 0);
      return Id(db.parents[id], number - 1), left;
    }
    while k != 0
      invariant k <= id.number && left <= budget
      invariant hash == Zero && number !in db.canonical ==> id == Id(hash, number) && k == ancestor
      invariant hash == Zero && NoZeroHeader(db) ==> id == Id(hash, number) && k == ancestor
      invariant hash != Zero ==> id.hash != Zero && Walk(db, id, k) == Walk(db, Id(hash, number), ancestor)
      invariant hash != Zero ==> Detour(db, id, k) + budget - left == Detour(db, Id(hash, number), ancestor)
      decreases k
    {
      if Canonical(db, id.number) == id.hash {
        if hash != Zero { WalkCanonical(db, id, k); }
        return Id(Canonical(db, id.number - k), id.number - k), left;
      }
      if left == 0 { return Id(Zero, 0), left; }
      if id !in db.parents { return Id(Zero, 0), left - 1; }
      left := left - 1;
      k := k - 1;
      id := Id(db.parents[id], id.number - 1);
    }
    r := id;
  }

  /** With only genesis known, the fifth ancestor of the zero hash at number 5 is said to be genesis. */
  method ZeroHashTaken(genesis: Hash) returns (r: Id)
    requires genesis != Zero
    ensures r == Id(genesis, 0)
    ensures Answer(Store(map[], map[0 := genesis]), Id(Zero, 5), 5, 0) == Id(Zero, 0)
  {
    var left;
    r, left := GetAncestor(Store(map[], map[0 := genesis]), Zero, 5, 5, 0);
  }
}
