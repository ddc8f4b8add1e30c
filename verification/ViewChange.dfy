/** crypto/bls/mask.go: a participation bitmap over a fixed committee. */
module Mask {
  import opened Common

  type Key = nat

  /** The committee lists each key once, and `index` gives the place of each. */
  ghost predicate Indexes(committee: seq<Key>, index: map<Key, nat>) {
    && (forall i :: 0 <= i < |committee| ==> committee[i] in index && index[committee[i]] == i)
    && (forall k :: k in index ==> index[k] < |committee| && committee[index[k]] == k)
  }

  /** NewMask builds the index of a committee. */
  method NewIndex(committee: seq<Key>) returns (index: map<Key, nat>)
    requires NoDuplicates(committee)
    ensures Indexes(committee, index)
  {
    index := map[];
    for i := 0 to |committee|
      invariant forall j :: 0 <= j < i ==> committee[j] in index && index[committee[j]] == j
      invariant forall k :: k in index ==> index[k] < i && committee[index[k]] == k
    {
      index := index[committee[i] := i];
    }
  }

  /** The bitmap marks exactly the committee members of `signers`. */
  ghost predicate Marks(committee: seq<Key>, bits: seq<bool>, signers: set<Key>) {
    && |bits| == |committee|
    && forall i :: 0 <= i < |bits| ==> (bits[i] <==> committee[i] in signers)
  }

  function Blank(n: nat): seq<bool> { seq(n, i => false) }

  /** SetKey: sets the key's bit, or fails for a key that is not in the committee. */
  method SetKey(committee: seq<Key>, index: map<Key, nat>, bits: seq<bool>, key: Key, ghost signers: set<Key>)
    returns (ok: bool, bits': seq<bool>)
    requires Indexes(committee, index) && Marks(committee, bits, signers)
    ensures ok == (key in index)
    ensures Marks(committee, bits', signers + {key})
  {
    ok := key in index;
    bits' := if ok then bits[index[key] := true] else bits;
  }

  ghost function Count(bits: seq<bool>): nat {
    if bits == [] then 0 else (if bits[0] then 1 else 0) + Count(bits[1..])
  }

  /** CountOneBits. */
  method CountOneBits(bits: seq<bool>) returns (n: nat)
    ensures n == Count(bits)
  {
    n := 0;
    for i := 0 to |bits|
      invariant n + Count(bits[i..]) == Count(bits)
    {
      assert bits[i..][1..] == bits[i + 1..];
      if bits[i] { n := n + 1; }
    }
  }

  lemma {:induction false} CountPositive(bits: seq<bool>)
    ensures Count(bits) > 0 <==> exists i :: 0 <= i < |bits| && bits[i]
  {
    if bits != [] {
      CountPositive(bits[1..]);
      if i :| 0 <= i < |bits| && bits[i] {
        if i > 0 { assert bits[1..][i - 1]; }
      }
      if i :| 0 <= i < |bits| - 1 && bits[1..][i] { assert bits[i + 1]; }
    }
  }

  /** Bitmaps of disjoint sets add up to the bitmap of their union. */
  lemma {:induction false} CountUnion(a: seq<bool>, b: seq<bool>, c: seq<bool>)
    requires |a| == |b| == |c|
    requires forall i :: 0 <= i < |a| ==> !(a[i] && b[i]) && (c[i] <==> a[i] || b[i])
    ensures Count(c) == Count(a) + Count(b)
  {
    if a != [] { CountUnion(a[1..], b[1..], c[1..]); }
  }
}

/** consensus/view_change_construct.go: the votes collected for each view since the last reset. */
module ViewChange {
  import opened Common
  import opened Mask

  type View = nat
  type Sig = nat
  type Sigs = map<Key, Sig>

  /** A view-change message; the outcome of each outside check is a field. */
  datatype Message = Message(view: View, single: bool, sender: Key, payload: seq<nat>, hasBlock: bool, blockOk: bool,
                             m1SigOk: bool, m2SigOk: bool, quorum: bool, payloadSigOk: bool, bitmapOk: bool,
                             sig: Sig, viewSig: Sig)

  const ValidPayloadLength: nat := 32 + 96

  datatype Error = IncorrectSender | DupM1 | DupM2 | DupM3 | BadBlock | VerifyM1 | VerifyM2 | BadBitmap | NoQuorum
                 | M1Payload

  /** The message carries a prepared block: an M1 vote rather than a NIL vote. */
  predicate Prepared(m: Message) { |m.payload| >= ValidPayloadLength && m.hasBlock }

  /** The first of the outside checks that fails. */
  function Checked(m: Message): Option<Error> {
    if Prepared(m) then
      if !m.blockOk then Some(BadBlock)
      else if !m.m1SigOk then Some(VerifyM1)
      else if !m.bitmapOk then Some(BadBitmap)
      else if !m.quorum then Some(NoQuorum)
      else if !m.payloadSigOk then Some(M1Payload)
      else None
    else if !m.m2SigOk then Some(VerifyM2) else None
  }

  function Of(sigs: map<View, Sigs>, v: View): Sigs { if v in sigs then sigs[v] else map[] }

  function BitsOf(bitmaps: map<View, seq<bool>>, v: View, n: nat): seq<bool> {
    if v in bitmaps then bitmaps[v] else Blank(n)
  }

  /** One kind of vote for all views: signatures and the bitmap of those who gave one. */
  datatype Ballot = Ballot(sigs: map<View, Sigs>, bitmaps: map<View, seq<bool>>)

  ghost function Signers(b: Ballot, v: View): set<Key> { Of(b.sigs, v).Keys }

  ghost predicate NoVotes(b: Ballot) { forall v :: Signers(b, v) == {} }

  ghost predicate BallotOkAt(committee: seq<Key>, b: Ballot, v: View) {
    && Marks(committee, BitsOf(b.bitmaps, v, |committee|), Signers(b, v))
    && (Signers(b, v) != {} ==> v in b.bitmaps)
  }

  /** Every bitmap marks exactly the committee members that signed. */
  ghost predicate BallotOk(committee: seq<Key>, b: Ballot) {
    forall v :: BallotOkAt(committee, b, v)
  }

  /** What a ballot gains: the keys `own`, in view `view`, with signatures `sign`; nothing else changes. */
  ghost predicate Voted(b: Ballot, b': Ballot, view: View, own: set<Key>, sign: Key -> Sig) {
    && (forall v :: v != view ==> Signers(b', v) == Signers(b, v) && Of(b'.sigs, v) == Of(b.sigs, v))
    && Signers(b', view) == Signers(b, view) + own
    && forall k :: k in Of(b'.sigs, view) ==>
      Of(b'.sigs, view)[k] == if k in own then sign(k) else if k in Of(b.sigs, view) then Of(b.sigs, view)[k] else 0
  }

  /** What a ballot gains from this node and then from a sender. */
  ghost predicate Collects(b: Ballot, b': Ballot, view: View, own: set<Key>, sign: Key -> Sig, sender: set<Key>,
                           sig: Sig) {
    && (forall v :: v != view ==> Of(b'.sigs, v) == Of(b.sigs, v))
    && Signers(b', view) == Signers(b, view) + own + sender
    && forall k :: k in Of(b'.sigs, view) ==>
      Of(b'.sigs, view)[k] == if k in sender then sig else if k in own then sign(k)
                              else if k in Of(b.sigs, view) then Of(b.sigs, view)[k] else 0
  }

  lemma VotedTwice(b: Ballot, b1: Ballot, b2: Ballot, b': Ballot, view: View, own: set<Key>, sign: Key -> Sig,
                   sender: set<Key>, sig: Sig)
    requires b1.sigs == b.sigs && Voted(b1, b2, view, own, sign)
    requires Voted(b2, b', view, sender, k => sig)
    ensures Collects(b, b', view, own, sign, sender, sig)
  {
    assert Signers(b2, view) == Signers(b, view) + own;
    assert Signers(b', view) == Signers(b, view) + own + sender;
  }

  /** Adds one signature, whoever it is from, and sets the bit of a committee member. */
  method AddVote(committee: seq<Key>, index: map<Key, nat>, b: Ballot, view: View, key: Key, sig: Sig)
    returns (b': Ballot)
    requires Indexes(committee, index) && BallotOk(committee, b)
    ensures BallotOk(committee, b') && Voted(b, b', view, {key}, k => sig)
  {
    var bits := BitsOf(b.bitmaps, view, |committee|);
    assert BallotOkAt(committee, b, view);
    var ok, bits' := SetKey(committee, index, bits, key, Signers(b, view));
    b' := Ballot(b.sigs[view := Of(b.sigs, view)[key := sig]], b.bitmaps[view := bits']);
    forall v ensures BallotOkAt(committee, b', v) {
      assert BallotOkAt(committee, b, v);
    }
  }

  /** The members of the committee among `keys[..n]`. */
  ghost function Own(index: map<Key, nat>, keys: seq<Key>, n: nat): set<Key>
    requires n <= |keys|
  {
    set i | 0 <= i < n && keys[i] in index :: keys[i]
  }

  lemma OwnNext(index: map<Key, nat>, keys: seq<Key>, n: nat)
    requires n < |keys|
    ensures Own(index, keys, n + 1) == Own(index, keys, n) + if keys[n] in index then {keys[n]} else {}
  {
  }

  /** Some of `keys` have voted. */
  ghost predicate SomeVoted(m3: Ballot, view: View, keys: seq<Key>) {
    exists i :: 0 <= i < |keys| && keys[i] in Signers(m3, view)
  }

  /** The keys with which this node votes: none if one has voted before, else all that are in the committee. */
  ghost function Cast(index: map<Key, nat>, m3: Ballot, view: View, keys: seq<Key>): set<Key> {
    if SomeVoted(m3, view, keys) then {} else Own(index, keys, |keys|)
  }

  lemma SomeVotedSame(b: Ballot, b': Ballot, view: View, keys: seq<Key>, index: map<Key, nat>)
    requires b.sigs == b'.sigs
    ensures SomeVoted(b, view, keys) == SomeVoted(b', view, keys)
    ensures Cast(index, b, view, keys) == Cast(index, b', view, keys)
  {
  }

  /** The quorum of a view is there. */
  predicate Reached(m3: Ballot, view: View, quorum: seq<bool> -> bool) {
    view in m3.bitmaps && quorum(m3.bitmaps[view])
  }

  /** Adds this node's own signatures, passing over keys that are not in the committee. */
  method AddOwn(committee: seq<Key>, index: map<Key, nat>, b: Ballot, view: View, keys: seq<Key>, sign: Key -> Sig)
    returns (b': Ballot)
    requires Indexes(committee, index) && BallotOk(committee, b)
    ensures BallotOk(committee, b') && Voted(b, b', view, Own(index, keys, |keys|), sign)
    ensures forall k :: k in Signers(b', view) <==> k in Signers(b, view) || (k in keys && k in committee)
  {
    b' := b;
    for i := 0 to |keys|
      invariant BallotOk(committee, b') && Voted(b, b', view, Own(index, keys, i), sign)
    {
      OwnNext(index, keys, i);
      if keys[i] in index {
        b' := AddVote(committee, index, b', view, keys[i], sign(keys[i]));
      } else {
        b' := Touch(committee, b', view);
      }
    }
    OwnAre(committee, index, keys);
  }

  /** This node votes with exactly those of its keys that are in the committee. */
  lemma OwnAre(committee: seq<Key>, index: map<Key, nat>, keys: seq<Key>)
    requires Indexes(committee, index)
    ensures forall k :: k in Own(index, keys, |keys|) <==> k in keys && k in committee
  {
    forall k ensures k in Own(index, keys, |keys|) <==> k in keys && k in committee {
      if k in keys && k in committee { var i :| 0 <= i < |keys| && keys[i] == k; }
    }
  }

  /** Creates the view's bitmap if it is missing. */
  method Touch(committee: seq<Key>, b: Ballot, view: View) returns (b': Ballot)
    requires BallotOk(committee, b)
    ensures BallotOk(committee, b') && b'.sigs == b.sigs && view in b'.bitmaps
    ensures forall v :: BitsOf(b'.bitmaps, v, |committee|) == BitsOf(b.bitmaps, v, |committee|)
  {
    b' := b.(bitmaps := b.bitmaps[view := BitsOf(b.bitmaps, view, |committee|)]);
    forall v ensures BallotOkAt(committee, b', v) {
      assert BallotOkAt(committee, b, v);
    }
  }

  /** M1 and M2 votes never come from the same signer, and together they are the M3 votes. */
  ghost predicate SplitAt(m1: Ballot, m2: Ballot, m3: Ballot, v: View) {
    && Signers(m1, v) !! Signers(m2, v)
    && Signers(m1, v) + Signers(m2, v) == Signers(m3, v)
  }

  ghost predicate Split(m1: Ballot, m2: Ballot, m3: Ballot) {
    forall v :: SplitAt(m1, m2, m3, v)
  }

  /** New signers that gave neither M1 nor M2 so far keep the split, whichever of the two they give. */
  lemma SplitVoted(m1: Ballot, m1': Ballot, m2: Ballot, m3: Ballot, m3': Ballot, view: View, own: set<Key>,
                   sign: Key -> Sig, sign3: Key -> Sig)
    requires Split(m1, m2, m3) && own !! Signers(m3, view)
    requires Voted(m1, m1', view, own, sign) && Voted(m3, m3', view, own, sign3)
    ensures Split(m1', m2, m3')
  {
    forall v ensures SplitAt(m1', m2, m3', v) {
      assert SplitAt(m1, m2, m3, v);
    }
  }

  lemma SplitSwap(m1: Ballot, m2: Ballot, m3: Ballot)
    requires Split(m1, m2, m3)
    ensures Split(m2, m1, m3)
  {
    forall v ensures SplitAt(m2, m1, m3, v) {
      assert SplitAt(m1, m2, m3, v);
    }
  }

  method AnyIn(keys: seq<Key>, s: Sigs) returns (found: bool)
    ensures found <==> exists i :: 0 <= i < |keys| && keys[i] in s
  {
    for i := 0 to |keys|
      invariant forall j :: 0 <= j < i ==> keys[j] !in s
    {
      if keys[i] in s { return true; }
    }
    found := false;
  }

  /** A NEWVIEW message: the bitmaps are absent when there is no signature of that kind. */
  datatype NewView = NewView(m2: Option<seq<bool>>, m3: seq<bool>)

  /** onNewView: the sender must have collected an M1 vote. */
  method NeedsPayload(nv: NewView) returns (r: bool)
    ensures r <==> nv.m2.None? || Count(nv.m3) > Count(nv.m2.value)
  {
    if nv.m2.None? { return true; }
    var n3 := CountOneBits(nv.m3);
    var n2 := CountOneBits(nv.m2.value);
    r := n3 > n2;
  }

  /** The message is built from the ballots of one view. */
  ghost predicate Reports(committee: seq<Key>, m2: Ballot, m3: Ballot, view: View, nv: NewView) {
    && Marks(committee, nv.m3, Signers(m3, view))
    && (nv.m2 == None <==> Signers(m2, view) == {})
    && (nv.m2.Some? ==> Marks(committee, nv.m2.value, Signers(m2, view)))
  }

  /** The bitmap of the committee members of a set. */
  ghost function Bitmap(committee: seq<Key>, s: set<Key>): (bits: seq<bool>)
    ensures Marks(committee, bits, s)
  {
    seq(|committee|, i requires 0 <= i < |committee| => committee[i] in s)
  }

  /** For a message with a non-empty M3 bitmap, the receiver's comparison of counts tells exactly whether some
      committee member gave an M1 vote. */
  lemma CountsTellM1(committee: seq<Key>, m1: Ballot, m2: Ballot, m3: Ballot, view: View, nv: NewView)
    requires SplitAt(m1, m2, m3, view) && Reports(committee, m2, m3, view, nv) && Count(nv.m3) > 0
    ensures (nv.m2.None? || Count(nv.m3) > Count(nv.m2.value))
      <==> exists i :: 0 <= i < |committee| && committee[i] in Signers(m1, view)
  {
    var b1 := Bitmap(committee, Signers(m1, view));
    var b2 := Bitmap(committee, Signers(m2, view));
    CountUnion(b1, b2, nv.m3);
    CountPositive(b1);
    CountPositive(b2);
    if nv.m2.Some? { assert b2 == nv.m2.value; }
    assert (exists i :: 0 <= i < |b1| && b1[i])
      <==> exists i :: 0 <= i < |committee| && committee[i] in Signers(m1, view) by {
      if i :| 0 <= i < |b1| && b1[i] { assert committee[i] in Signers(m1, view); }
      if i :| 0 <= i < |committee| && committee[i] in Signers(m1, view) { assert b1[i]; }
    }
  }

  /** Everything collected since the last reset. */
  datatype Votes = Votes(m1: Ballot, m2: Ballot, m3: Ballot, payload: seq<nat>)

  datatype Decision = Wait | FreshProposal | Resume(payload: seq<nat>)

  datatype Step =
    | Init(view: View, keys: seq<Key>, prepared: Option<seq<nat>>)
    | Receive(msg: Message)
    | AddView(view: View)

  /** A step as the callers make it: a prepared payload starts with a block hash. */
  ghost predicate StepOk(s: Step) { s.Init? && s.prepared.Some? ==> |s.prepared.value| >= 32 }

  class VoteStore {
    const committee: seq<Key>
    const index: map<Key, nat>
    /** Signs the prepared message, NIL and the view number. */
    const sign1: Key -> Sig
    const sign2: Key -> Sig
    const sign3: Key -> Sig
    /** M1 is a prepared block, M2 is NIL, M3 is the view number. */
    var m1: Ballot
    var m2: Ballot
    var m3: Ballot
    var m1Payload: seq<nat>

    ghost predicate Valid()
      reads this
    {
      && Indexes(committee, index)
      && BallotOk(committee, m1) && BallotOk(committee, m2) && BallotOk(committee, m3)
      && Split(m1, m2, m3)
      && (m1Payload == [] ==> NoVotes(m1))
    }

    function State(): Votes
      reads this
    {
      Votes(m1, m2, m3, m1Payload)
    }

    /** This node's vote: nothing changes when one of its keys has voted before. */
    ghost predicate Inits(v: Votes, v': Votes, view: View, keys: seq<Key>, prepared: Option<seq<nat>>) {
      var own := Own(index, keys, |keys|);
      var ok :=
        if SomeVoted(v.m3, view, keys) then v' == v else
          && Voted(v.m3, v'.m3, view, own, sign3)
          && (if prepared.Some? then Voted(v.m1, v'.m1, view, own, sign1) && v'.m2 == v.m2
              else Voted(v.m2, v'.m2, view, own, sign2) && v'.m1 == v.m1)
          && v'.payload == if v.payload == [] && prepared.Some? then prepared.value else v.payload;
      ok
    }

    /** A sender's vote, or its refusal. */
    ghost predicate Receives(v: Votes, v': Votes, m: Message, error: Option<Error>) {
      var ok :=
        if error != None then v' == v else
          && Voted(v.m3, v'.m3, m.view, {m.sender}, k => m.viewSig)
          && (if Prepared(m) then Voted(v.m1, v'.m1, m.view, {m.sender}, k => m.sig) && v'.m2 == v.m2
              else Voted(v.m2, v'.m2, m.view, {m.sender}, k => m.sig) && v'.m1 == v.m1)
          && v'.payload == if v.payload == [] && Prepared(m) then m.payload else v.payload;
      ok
    }

    constructor (committee: seq<Key>, sign1: Key -> Sig, sign2: Key -> Sig, sign3: Key -> Sig)
      requires NoDuplicates(committee)
      ensures Valid() && this.committee == committee
      ensures NoVotes(m3)
    {
      this.committee, this.sign1, this.sign2, this.sign3 := committee, sign1, sign2, sign3;
      var places := NewIndex(committee);
      index := places;
      m1, m2, m3, m1Payload := Ballot(map[], map[]), Ballot(map[], map[]), Ballot(map[], map[]), [];
      new;
      BlankOk();
    }

    lemma BlankOk()
      requires m1 == m2 == m3 == Ballot(map[], map[])
      ensures BallotOk(committee, m1) && Split(m1, m2, m3)
    {
      forall v ensures BallotOkAt(committee, m1, v) && SplitAt(m1, m2, m3, v) {
      }
    }

    method Reset()
      requires Valid()
      modifies this
      ensures Valid() && NoVotes(m3) && m1Payload == []
    {
      m1, m2, m3, m1Payload := Ballot(map[], map[]), Ballot(map[], map[]), Ballot(map[], map[]), [];
      BlankOk();
    }

    method AddViewIDKeyIfNotExist(view: View)
      requires Valid()
      modifies this`m1, this`m2, this`m3
      ensures Valid() && m1.sigs == old(m1.sigs) && m2.sigs == old(m2.sigs) && m3.sigs == old(m3.sigs)
      ensures view in m1.bitmaps && view in m2.bitmaps && view in m3.bitmaps
    {
      var b1 := Touch(committee, m1, view);
      var b2 := Touch(committee, m2, view);
      var b3 := Touch(committee, m3, view);
      SplitSame(m1, m2, m3, b1, b2, b3);
      if NoVotes(m1) {
        forall v ensures Signers(b1, v) == {} { assert Signers(m1, v) == {}; }
      }
      m1, m2, m3 := b1, b2, b3;
    }

    /** ProcessViewChangeMsg: a first vote is recorded once as M1 or M2 and once as M3; later ones are refused. */
    method ProcessViewChangeMsg(m: Message) returns (error: Option<Error>)
      requires Valid()
      modifies this
      ensures Valid()
      ensures error == if !m.single then Some(IncorrectSender)
                       else if m.sender in old(Signers(m3, m.view)) then Some(DupM3) else Checked(m)
      ensures error != None ==> unchanged(this)
      ensures error == None <==>
        && m.single && m.sender !in old(Signers(m3, m.view))
        && if m.hasBlock && |m.payload| >= 32 + 96
           then m.blockOk && m.m1SigOk && m.bitmapOk && m.quorum && m.payloadSigOk else m.m2SigOk
      ensures Receives(old(State()), State(), m, error)
    {
      if !m.single { return Some(IncorrectSender); }
      if m.sender in Of(m3.sigs, m.view) { return Some(DupM3); }
      assert SplitAt(m1, m2, m3, m.view);
      if Prepared(m) {
        if !m.blockOk { return Some(BadBlock); }
        if m.sender in Of(m1.sigs, m.view) { return Some(DupM1); }
        if !m.m1SigOk { return Some(VerifyM1); }
        if !m.bitmapOk { return Some(BadBitmap); }
        if !m.quorum { return Some(NoQuorum); }
        if !m.payloadSigOk { return Some(M1Payload); }
        var b1 := AddVote(committee, index, m1, m.view, m.sender, m.sig);
        var b3 := AddVote(committee, index, m3, m.view, m.sender, m.viewSig);
        SplitVoted(m1, b1, m2, m3, b3, m.view, {m.sender}, k => m.sig, k => m.viewSig);
        m1, m3 := b1, b3;
        if m1Payload == [] { m1Payload := m.payload; }
        return None;
      }
      if m.sender in Of(m2.sigs, m.view) { return Some(DupM2); }
      if !m.m2SigOk { return Some(VerifyM2); }
      var b2 := AddVote(committee, index, m2, m.view, m.sender, m.sig);
      var b3 := AddVote(committee, index, m3, m.view, m.sender, m.viewSig);
      SplitSwap(m1, m2, m3);
      SplitVoted(m2, b2, m1, m3, b3, m.view, {m.sender}, k => m.sig, k => m.viewSig);
      SplitSwap(b2, m1, b3);
      m2, m3 := b2, b3;
      return None;
    }

    /** InitPayload: this node votes once per view, with all its keys in the committee. */
    method InitPayload(view: View, keys: seq<Key>, prepared: Option<seq<nat>>)
      requires Valid() && (prepared.Some? ==> |prepared.value| >= 32)
      modifies this
      ensures Valid()
      ensures Inits(old(State()), State(), view, keys, prepared)
    {
      assert SplitAt(m1, m2, m3, view);
      ghost var own := Own(index, keys, |keys|);
      var voted1 := AnyIn(keys, Of(m1.sigs, view));
      var voted2 := AnyIn(keys, Of(m2.sigs, view));
      var voted3 := AnyIn(keys, Of(m3.sigs, view));
      assert voted3 == (voted1 || voted2);
      var b1, b2, b3, payload := m1, m2, m3, m1Payload;
      if !(voted1 || voted2) {
        if prepared.Some? {
          b1 := AddOwn(committee, index, m1, view, keys, sign1);
          if payload == [] { payload := prepared.value; }
        } else {
          b2 := AddOwn(committee, index, m2, view, keys, sign2);
        }
      }
      if !voted3 {
        b3 := AddOwn(committee, index, m3, view, keys, sign3);
        assert own !! Signers(m3, view);
        InitSplits(m1, m2, m3, b1, b2, b3, view, own, prepared.Some?);
      }
      m1, m2, m3, m1Payload := b1, b2, b3, payload;
    }

    lemma InitSplits(m1: Ballot, m2: Ballot, m3: Ballot, b1: Ballot, b2: Ballot, b3: Ballot, view: View,
                     own: set<Key>, first: bool)
      requires Split(m1, m2, m3) && own !! Signers(m3, view) && Voted(m3, b3, view, own, sign3)
      requires first ==> Voted(m1, b1, view, own, sign1) && b2 == m2
      requires !first ==> Voted(m2, b2, view, own, sign2) && b1 == m1
      ensures Split(b1, b2, b3)
    {
      if first {
        SplitVoted(m1, b1, m2, m3, b3, view, own, sign1, sign3);
      } else {
        SplitSwap(m1, m2, m3);
        SplitVoted(m2, b2, m1, m3, b3, view, own, sign2, sign3);
        SplitSwap(b2, m1, b3);
      }
    }

    /** The NEWVIEW message of a view, if it has an M3 signature: its counts tell whether an M1 vote was collected. */
    method NewViewMessage(view: View) returns (nv: Option<NewView>)
      requires Valid()
      ensures nv == None <==> Signers(m3, view) == {}
      ensures nv.Some? ==> Reports(committee, m2, m3, view, nv.value)
      ensures nv.Some? && Count(nv.value.m3) > 0 ==>
        (nv.value.m2.None? || Count(nv.value.m3) > Count(nv.value.m2.value)
         <==> exists i :: 0 <= i < |committee| && committee[i] in Signers(m1, view))
    {
      assert BallotOkAt(committee, m2, view) && BallotOkAt(committee, m3, view) && SplitAt(m1, m2, m3, view);
      if |Of(m3.sigs, view)| == 0 { return None; }
      var m2Bits := if |Of(m2.sigs, view)| > 0 then Some(m2.bitmaps[view]) else None;
      nv := Some(NewView(m2Bits, m3.bitmaps[view]));
      if Count(nv.value.m3) > 0 { CountsTellM1(committee, m1, m2, m3, view, nv.value); }
    }

    /** From `v` to `v'` this node's own vote was collected and then, unless that was refused with `error`, the
        sender's. */
    ghost predicate Gathers(v: Votes, v': Votes, m: Message, keys: seq<Key>, prepared: Option<seq<nat>>,
                            error: Option<Error>) {
      var own, sender := Cast(index, v.m3, m.view, keys), if error == None then {m.sender} else {};
      && (error == None <==>
           m.single && Checked(m) == None && m.sender !in Signers(v.m3, m.view) && m.sender !in own)
      && Collects(v.m3, v'.m3, m.view, own, sign3, sender, m.viewSig)
      && Collects(v.m1, v'.m1, m.view, if prepared.Some? then own else {}, sign1, if Prepared(m) then sender else {},
                  m.sig)
      && Collects(v.m2, v'.m2, m.view, if prepared.Some? then {} else own, sign2, if Prepared(m) then {} else sender,
                  m.sig)
      && v'.payload == if v.payload != [] then v.payload
                       else if prepared.Some? && !SomeVoted(v.m3, m.view, keys) then prepared.value
                       else if error == None && Prepared(m) then m.payload else []
    }

    lemma InitsEach(v: Votes, v': Votes, view: View, keys: seq<Key>, prepared: Option<seq<nat>>)
      requires Inits(v, v', view, keys, prepared)
      ensures var own := Cast(index, v.m3, view, keys);
        && Voted(v.m3, v'.m3, view, own, sign3)
        && Voted(v.m1, v'.m1, view, if prepared.Some? then own else {}, sign1)
        && Voted(v.m2, v'.m2, view, if prepared.Some? then {} else own, sign2)
    {
      assert Voted(v.m1, v.m1, view, {}, sign1) && Voted(v.m2, v.m2, view, {}, sign2);
      assert Voted(v.m3, v.m3, view, {}, sign3);
    }

    lemma ReceivesEach(v: Votes, v': Votes, m: Message, error: Option<Error>)
      requires Receives(v, v', m, error)
      ensures var sender := if error == None then {m.sender} else {};
        && Voted(v.m3, v'.m3, m.view, sender, k => m.viewSig)
        && Voted(v.m1, v'.m1, m.view, if Prepared(m) then sender else {}, k => m.sig)
        && Voted(v.m2, v'.m2, m.view, if Prepared(m) then {} else sender, k => m.sig)
    {
      assert Voted(v.m1, v.m1, m.view, {}, k => m.sig) && Voted(v.m2, v.m2, m.view, {}, k => m.sig);
      assert Voted(v.m3, v.m3, m.view, {}, k => m.viewSig);
    }

    /** The payload is the first prepared one since the reset. */
    lemma FirstPayload(v: Votes, v1: Votes, v': Votes, m: Message, keys: seq<Key>, prepared: Option<seq<nat>>,
                       error: Option<Error>)
      requires Inits(v, v1, m.view, keys, prepared) && Receives(v1, v', m, error)
      requires prepared.Some? ==> prepared.value != []
      ensures v'.payload == if v.payload != [] then v.payload
                            else if prepared.Some? && !SomeVoted(v.m3, m.view, keys) then prepared.value
                            else if error == None && Prepared(m) then m.payload else []
    {
    }

    /** The three ballots gain this node's votes and then the sender's. */
    lemma VotesEach(v: Votes, v1: Votes, v2: Votes, v': Votes, m: Message, keys: seq<Key>, prepared: Option<seq<nat>>,
                    error: Option<Error>)
      requires v1.m1.sigs == v.m1.sigs && v1.m2.sigs == v.m2.sigs && v1.m3.sigs == v.m3.sigs
      requires Inits(v1, v2, m.view, keys, prepared) && Receives(v2, v', m, error)
      ensures var own, sender := Cast(index, v1.m3, m.view, keys), if error == None then {m.sender} else {};
        && Collects(v.m3, v'.m3, m.view, own, sign3, sender, m.viewSig)
        && Collects(v.m1, v'.m1, m.view, if prepared.Some? then own else {}, sign1, if Prepared(m) then sender else {},
                    m.sig)
        && Collects(v.m2, v'.m2, m.view, if prepared.Some? then {} else own, sign2, if Prepared(m) then {} else sender,
                    m.sig)
      ensures Signers(v2.m3, m.view) == Signers(v1.m3, m.view) + Cast(index, v1.m3, m.view, keys)
    {
      var own, sender := Cast(index, v1.m3, m.view, keys), if error == None then {m.sender} else {};
      InitsEach(v1, v2, m.view, keys, prepared);
      ReceivesEach(v2, v', m, error);
      VotedTwice(v.m3, v1.m3, v2.m3, v'.m3, m.view, own, sign3, sender, m.viewSig);
      VotedTwice(v.m1, v1.m1, v2.m1, v'.m1, m.view, if prepared.Some? then own else {}, sign1,
                 if Prepared(m) then sender else {}, m.sig);
      VotedTwice(v.m2, v1.m2, v2.m2, v'.m2, m.view, if prepared.Some? then {} else own, sign2,
                 if Prepared(m) then {} else sender, m.sig);
    }

    lemma GathersBoth(v: Votes, v1: Votes, v2: Votes, v': Votes, m: Message, keys: seq<Key>,
                      prepared: Option<seq<nat>>, error: Option<Error>)
      requires v1.m1.sigs == v.m1.sigs && v1.m2.sigs == v.m2.sigs && v1.m3.sigs == v.m3.sigs && v1.payload == v.payload
      requires Inits(v1, v2, m.view, keys, prepared) && Receives(v2, v', m, error)
      requires prepared.Some? ==> prepared.value != []
      requires error == None <==> m.single && m.sender !in Signers(v2.m3, m.view) && Checked(m) == None
      ensures Gathers(v, v', m, keys, prepared, error)
    {
      SomeVotedSame(v.m3, v1.m3, m.view, keys, index);
      FirstPayload(v1, v2, v', m, keys, prepared, error);
      VotesEach(v, v1, v2, v', m, keys, prepared, error);
    }

    /** This node's own vote, then the sender's. */
    method Collect(m: Message, keys: seq<Key>, prepared: Option<seq<nat>>) returns (error: Option<Error>)
      requires Valid() && (prepared.Some? ==> |prepared.value| >= 32)
      modifies this
      ensures Valid() && error != Some(DupM1) && error != Some(DupM2)
      ensures Gathers(old(State()), State(), m, keys, prepared, error)
      ensures m.sender in Signers(m3, m.view) <==>
        error == None || m.sender in old(Signers(m3, m.view)) || m.sender in old(Cast(index, m3, m.view, keys))
    {
      ghost var v := State();
      AddViewIDKeyIfNotExist(m.view);
      ghost var v1 := State();
      InitPayload(m.view, keys, prepared);
      ghost var v2 := State();
      error := ProcessViewChangeMsg(m);
      GathersBoth(v, v1, v2, State(), m, keys, prepared, error);
    }

    /** onViewChange at the new leader: collects its own vote and the sender's, and once they bring the M3 quorum it
        resumes with the first prepared payload since the reset, or proposes afresh if there is none; then every vote
        collected was NIL. */
    method OnViewChange(m: Message, keys: seq<Key>, prepared: Option<seq<nat>>, sanityOk: bool, viewChanging: bool,
                        quorum: seq<bool> -> bool) returns (d: Decision, error: Option<Error>)
      requires Valid() && (prepared.Some? ==> |prepared.value| >= 32)
      modifies this
      ensures Valid()
      ensures old(Reached(m3, m.view, quorum)) || !sanityOk ==> d == Wait && unchanged(this)
      ensures !old(Reached(m3, m.view, quorum)) && sanityOk ==>
        && Gathers(old(State()), State(), m, keys, prepared, error)
        && (d != Wait <==> error == None && viewChanging && Reached(m3, m.view, quorum))
      ensures d == FreshProposal ==> m1Payload == [] && NoVotes(m1) && forall v :: Signers(m2, v) == Signers(m3, v)
      ensures d.Resume? ==> d.payload == m1Payload != []
    {
      d, error := Wait, None;
      if m.view in m3.bitmaps && quorum(m3.bitmaps[m.view]) { return; }
      if !sanityOk { return; }
      error := Collect(m, keys, prepared);
      if error != None { return; }
      if m.view in m3.bitmaps && quorum(m3.bitmaps[m.view]) && viewChanging {
        d := if m1Payload == [] then FreshProposal else Resume(m1Payload);
        if m1Payload == [] { AllNil(m1, m2, m3); }
      }
    }

    /** What one call does to the votes collected. */
    ghost predicate Took(v: Votes, v': Votes, step: Step, error: Option<Error>) {
      match step
      case Init(view, keys, prepared) => error == None && Inits(v, v', view, keys, prepared)
      case AddView(_) =>
        && error == None && v'.payload == v.payload
        && v'.m1.sigs == v.m1.sigs && v'.m2.sigs == v.m2.sigs && v'.m3.sigs == v.m3.sigs
      case Receive(m) =>
        && Receives(v, v', m, error)
        && error == if !m.single then Some(IncorrectSender)
                    else if m.sender in Signers(v.m3, m.view) then Some(DupM3) else Checked(m)
    }

    method Do(step: Step) returns (error: Option<Error>)
      requires Valid() && StepOk(step)
      modifies this
      ensures Valid() && Took(old(State()), State(), step, error)
    {
      error := None;
      match step
      case Init(view, keys, prepared) => InitPayload(view, keys, prepared);
      case AddView(view) => AddViewIDKeyIfNotExist(view);
      case Receive(m) => error := ProcessViewChangeMsg(m);
    }

    ghost predicate TookAt(states: seq<Votes>, steps: seq<Step>, errors: seq<Option<Error>>, i: nat) {
      && i < |steps| && i < |errors| && i + 1 < |states|
      && Took(states[i], states[i + 1], steps[i], errors[i])
    }

    /** Any sequence of calls keeps the store sound, each call does to the votes what it says, and none reports a
        duplicate M1 or M2 vote. */
    method Run(steps: seq<Step>) returns (errors: seq<Option<Error>>, ghost states: seq<Votes>)
      requires Valid() && forall i :: 0 <= i < |steps| ==> StepOk(steps[i])
      modifies this
      ensures Valid() && |errors| == |steps| && |states| == |steps| + 1
      ensures states[0] == old(State()) && states[|steps|] == State()
      ensures forall i :: 0 <= i < |steps| ==> TookAt(states, steps, errors, i)
      ensures Some(DupM1) !in errors && Some(DupM2) !in errors
    {
      errors, states := [], [State()];
      for i := 0 to |steps|
        invariant Valid() && |errors| == i && |states| == i + 1 && states[0] == old(State()) && states[i] == State()
        invariant forall j :: 0 <= j < i ==> TookAt(states, steps, errors, j)
        invariant Some(DupM1) !in errors && Some(DupM2) !in errors
      {
        assert StepOk(steps[i]);
        ghost var was, before := states, errors;
        var error := Do(steps[i]);
        errors, states := errors + [error], states + [State()];
        forall j | 0 <= j < i + 1 ensures TookAt(states, steps, errors, j) {
          if j < i { assert TookAt(was, steps, before, j); }
        }
      }
    }
  }

  lemma AllNil(m1: Ballot, m2: Ballot, m3: Ballot)
    requires Split(m1, m2, m3) && NoVotes(m1)
    ensures forall v :: Signers(m2, v) == Signers(m3, v)
  {
    forall v ensures Signers(m2, v) == Signers(m3, v) {
      assert SplitAt(m1, m2, m3, v) && Signers(m1, v) == {};
    }
  }

  lemma SplitSame(m1: Ballot, m2: Ballot, m3: Ballot, b1: Ballot, b2: Ballot, b3: Ballot)
    requires Split(m1, m2, m3) && b1.sigs == m1.sigs && b2.sigs == m2.sigs && b3.sigs == m3.sigs
    ensures Split(b1, b2, b3)
  {
    forall v ensures SplitAt(b1, b2, b3, v) {
      assert SplitAt(m1, m2, m3, v);
    }
  }
}
