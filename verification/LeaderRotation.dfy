/** core/blockchain_leader_rotation.go and rotateLeader of consensus/consensus_v2.go: how many blocks in a row the
    current leader has produced, and who leads next. */
module LeaderRotation {
  import opened Common

  type Key = nat

  /** A header: the leader's key, if it can be read from the coinbase, the epoch and the bits of the last commit. */
  datatype Header = Header(leader: Option<Key>, epoch: nat, bitmap: seq<bool>)

  datatype Meta = Meta(pub: Option<Key>, epoch: nat, count: nat)

  type Chain = seq<Header>

  const NoMeta := Meta(None, 0, 0)

  predicate Same(a: Header, b: Header) { a.leader == b.leader && a.epoch == b.epoch }

  /** The last `count` headers share leader and epoch. */
  ghost predicate InRow(chain: Chain, count: nat) {
    && 1 <= count <= |chain|
    && forall i :: |chain| - count <= i < |chain| ==> Same(chain[i], chain[|chain| - 1])
  }

  /** And the one before, if there is one, does not: the longest such run. */
  ghost predicate LongestRun(chain: Chain, count: nat) {
    && InRow(chain, count)
    && (count < |chain| ==> !Same(chain[|chain| - count - 1], chain[|chain| - 1]))
  }

  /** The meta describes the head of the chain. */
  ghost predicate Matches(chain: Chain, meta: Meta) {
    && chain != [] && chain[|chain| - 1].leader.Some?
    && meta.pub == chain[|chain| - 1].leader && meta.epoch == chain[|chain| - 1].epoch
  }

  ghost predicate Exact(chain: Chain, meta: Meta) {
    Matches(chain, meta) && LongestRun(chain, meta.count)
  }

  /** The count is no more than the run at the head. */
  ghost predicate AtMost(chain: Chain, meta: Meta) {
    Matches(chain, meta) && InRow(chain, meta.count)
  }

  /** processRotationMeta. */
  function ProcessRotationMeta(epoch: nat, leader: Key, s: Meta): Meta {
    Meta(Some(leader), epoch, if s.pub == Some(leader) && s.epoch == epoch then s.count + 1 else 1)
  }

  /** From an exact meta the next header gives an exact meta. */
  lemma NextExact(chain: Chain, h: Header, s: Meta)
    requires h.leader.Some? && chain != []
    requires Exact(chain, s) || (!Same(chain[|chain| - 1], h) && (s.pub != h.leader || s.epoch != h.epoch))
    ensures Exact(chain + [h], ProcessRotationMeta(h.epoch, h.leader.value, s))
  {
  }

  lemma NextAtMost(chain: Chain, h: Header, s: Meta)
    requires h.leader.Some?
    requires AtMost(chain, s) || s.pub != h.leader || s.epoch != h.epoch
    ensures AtMost(chain + [h], ProcessRotationMeta(h.epoch, h.leader.value, s))
  {
  }

  /** Later headers are never of an earlier epoch. */
  predicate EpochsGrow(chain: Chain) {
    forall i, j :: 0 <= i < j < |chain| ==> chain[i].epoch <= chain[j].epoch
  }

  /** Blocks of epoch 0 are not counted; from epoch 1 on the meta is exact. */
  ghost predicate Tracked(chain: Chain, meta: Meta) {
    && chain != []
    && if chain[|chain| - 1].epoch == 0 then meta.epoch == 0 else Exact(chain, meta)
  }

  /** What holds whether or not the meta was rebuilt: it is empty, or never more than the run it describes, which
      ends at the head or in epoch 0. */
  ghost predicate Sound(chain: Chain, meta: Meta) {
    && chain != []
    && (meta.pub == None ==> meta == NoMeta)
    && (meta.pub.Some? ==> SoundAt(chain, meta))
  }

  ghost predicate SoundAt(chain: Chain, meta: Meta) {
    exists p :: 0 < p <= |chain| && AtMost(chain[..p], meta) && (p == |chain| || chain[|chain| - 1].epoch == 0)
  }

  lemma SoundNow(chain: Chain, meta: Meta)
    requires AtMost(chain, meta)
    ensures Sound(chain, meta)
  {
    assert chain[..|chain|] == chain;
  }

  /** saveLeaderRotationMeta for one more header, or the header of epoch 0 that is passed over. */
  lemma Advance(chain: Chain, h: Header, s: Meta)
    requires EpochsGrow(chain + [h]) && (h.epoch > 0 ==> h.leader.Some?) && Sound(chain, s)
    ensures var s' := if h.epoch > 0 then ProcessRotationMeta(h.epoch, h.leader.value, s) else s;
      Sound(chain + [h], s') && (Tracked(chain, s) ==> Tracked(chain + [h], s'))
  {
    var next := chain + [h];
    assert next[|chain| - 1].epoch <= next[|chain|].epoch;
    if h.epoch > 0 {
      var s' := ProcessRotationMeta(h.epoch, h.leader.value, s);
      if s.pub.Some? {
        var p :| 0 < p <= |chain| && AtMost(chain[..p], s) && (p == |chain| || chain[|chain| - 1].epoch == 0);
        assert p == |chain| ==> chain[..p] == chain;
        if p < |chain| { assert chain[p - 1].epoch == 0 by { assert next[p - 1].epoch <= next[|chain| - 1].epoch; } }
      }
      NextAtMost(chain, h, s);
      SoundNow(next, s');
      if Tracked(chain, s) { NextExact(chain, h, s); }
    } else if s.pub.Some? {
      var p :| 0 < p <= |chain| && AtMost(chain[..p], s) && (p == |chain| || chain[|chain| - 1].epoch == 0);
      assert next[..p] == chain[..p];
    }
  }

  /** The last four headers are in the epoch of the head. */
  ghost predicate FourInEpoch(chain: Chain) {
    && |chain| >= 4
    && forall i :: |chain| - 4 <= i < |chain| ==> chain[i].epoch == chain[|chain| - 1].epoch
  }

  lemma CountGivesFour(chain: Chain, meta: Meta)
    requires EpochsGrow(chain) && Sound(chain, meta) && meta.count >= 4
    ensures FourInEpoch(chain)
  {
    var p :| 0 < p <= |chain| && AtMost(chain[..p], meta) && (p == |chain| || chain[|chain| - 1].epoch == 0);
    var n := |chain|;
    forall i | n - 4 <= i < n ensures chain[i].epoch == chain[n - 1].epoch {
      if p == n {
        assert chain[..p] == chain;
        assert Same(chain[i], chain[n - 1]);
      } else if i < n - 1 {
        assert chain[i].epoch <= chain[n - 1].epoch;
      }
    }
  }

  // ---------- starting without a rebuild ----------

  /** All headers from number `from` on have the leader and epoch of the one before. */
  ghost predicate Continues(chain: Chain, from: nat) {
    0 < from <= |chain| && forall i :: from <= i < |chain| ==> Same(chain[i], chain[from - 1])
  }

  /** What the meta says of a chain whose first `uncounted` headers it never saw, with `initial` the meta at startup. */
  ghost predicate Counted(chain: Chain, meta: Meta, uncounted: nat, initial: Meta) {
    var ok :=
      && chain != [] && uncounted <= |chain|
      && (uncounted == 0 ==> Tracked(chain, meta))
      && (uncounted > 0 ==> chain[uncounted - 1].epoch > 0)
      && (0 < uncounted == |chain| ==> meta == NoMeta)
      && (0 < uncounted < |chain| ==> Exact(chain[uncounted..], meta))
      && (chain[|chain| - 1].epoch == 0 ==> meta == initial);
    ok
  }

  lemma CountedNext(chain: Chain, h: Header, s: Meta, uncounted: nat, initial: Meta)
    requires EpochsGrow(chain + [h]) && (h.epoch > 0 ==> h.leader.Some?) && Sound(chain, s)
    requires Counted(chain, s, uncounted, initial)
    ensures var s' := if h.epoch > 0 then ProcessRotationMeta(h.epoch, h.leader.value, s) else s;
      Sound(chain + [h], s') && Counted(chain + [h], s', uncounted, initial)
  {
    var next := chain + [h];
    Advance(chain, h, s);
    assert next[|chain| - 1].epoch <= next[|chain|].epoch;
    if uncounted > 0 {
      if uncounted < |chain| {
        assert next[uncounted - 1].epoch <= next[|chain|].epoch;
        NextExact(chain[uncounted..], h, s);
        assert next[uncounted..] == chain[uncounted..] + [h];
      } else {
        assert next[uncounted..] == [h];
      }
    }
  }

  /** Exactly when a meta that never saw the first headers is exact: some header it saw differs from the last it did
      not see. */
  lemma ExactAfterGap(chain: Chain, meta: Meta, uncounted: nat)
    requires 0 < uncounted < |chain| && Exact(chain[uncounted..], meta)
    ensures Exact(chain, meta) <==> !Continues(chain, uncounted)
  {
    var seen := chain[uncounted..];
    var n, c := |chain|, meta.count;
    assert seen[|seen| - 1] == chain[n - 1];
    forall i | n - c <= i < n ensures Same(chain[i], chain[n - 1]) {
      assert Same(seen[i - uncounted], seen[|seen| - 1]);
    }
    if c < |seen| { assert seen[|seen| - c - 1] == chain[n - c - 1]; }
    if !Continues(chain, uncounted) && c == |seen| {
      var i :| uncounted <= i < n && !Same(chain[i], chain[uncounted - 1]);
      assert Same(chain[i], chain[n - 1]);
    }
  }

  // ---------- rebuilding at startup ----------

  /** The longest run at the head starts right after header `i`. */
  ghost predicate RunStartsAfter(chain: Chain, i: int) {
    && 0 <= i < |chain| - 1 && chain[i].leader.Some? && chain[|chain| - 1].leader.Some?
    && !Same(chain[i], chain[|chain| - 1])
    && forall j :: i < j < |chain| ==> Same(chain[j], chain[|chain| - 1])
  }

  /** Replays the headers from `i` up to the head. */
  method Replay(chain: Chain, i: nat, start: Meta) returns (s: Meta)
    requires RunStartsAfter(chain, i)
    ensures Exact(chain, s)
  {
    s := ProcessRotationMeta(chain[i].epoch, chain[i].leader.value, start);
    for j := i + 1 to |chain|
      invariant j == i + 1 ==> s.pub == chain[i].leader && s.epoch == chain[i].epoch
      invariant j > i + 1 ==> Exact(chain[..j], s)
    {
      assert Same(chain[j], chain[|chain| - 1]);
      assert chain[..j + 1] == chain[..j] + [chain[j]];
      NextExact(chain[..j], chain[j], s);
      s := ProcessRotationMeta(chain[j].epoch, chain[j].leader.value, s);
    }
    assert chain[..|chain|] == chain;
  }

  /** buildLeaderRotationMeta: walks down to the first header of another leader or epoch and replays from there. When
      there is none the walk runs past genesis and fails. */
  method Build(chain: Chain, active: bool, start: Meta) returns (ok: bool, s: Meta)
    requires chain != []
    ensures active ==> (ok <==> exists i :: RunStartsAfter(chain, i))
    ensures active && ok ==> Exact(chain, s)
    ensures !active || !ok ==> s == start && (ok || active)
  {
    s := start;
    if !active { return true, s; }
    var n := |chain| - 1;
    if n == 0 || chain[n].leader == None { return false, s; }
    var i := n - 1;
    while i >= 0
      invariant -1 <= i < n
      invariant forall j :: i < j <= n ==> Same(chain[j], chain[n])
    {
      if chain[i].leader == None { return false, s; }
      if !Same(chain[i], chain[n]) {
        assert RunStartsAfter(chain, i);
        s := Replay(chain, i, start);
        return true, s;
      }
      i := i - 1;
    }
    ok := false;
  }

  // ---------- choosing the next leader ----------

  /** The commit bitmap has the byte length of the committee's mask. */
  predicate Fits(bitmap: seq<bool>, members: nat) { |bitmap| == 8 * ((members + 7) / 8) }

  /** A mask has one bit for each member, filled up to whole bytes. */
  lemma FitsBytes(bitmap: seq<bool>, members: nat)
    ensures Fits(bitmap, members) <==> |bitmap| % 8 == 0 && members <= |bitmap| < members + 8
  {
  }

  /** SetMask: flips the bits that differ, one committee member at a time. */
  method SetMask(mask: seq<bool>, bitmap: seq<bool>, members: nat) returns (ok: bool, mask': seq<bool>)
    requires Fits(mask, members)
    ensures ok == Fits(bitmap, members) && Fits(mask', members)
    ensures ok ==> forall i :: 0 <= i < members ==> mask'[i] == bitmap[i]
  {
    mask' := mask;
    ok := |bitmap| == |mask|;
    if !ok { return; }
    for i := 0 to members
      invariant Fits(mask', members) && forall j :: 0 <= j < i ==> mask'[j] == bitmap[j]
    {
      if !mask'[i] && bitmap[i] { mask' := mask'[i := true]; }
      if mask'[i] && !bitmap[i] { mask' := mask'[i := false]; }
    }
  }

  /** Member `k` signed the commit carried by header `h`. */
  ghost predicate Enabled(h: Header, members: seq<Key>, k: Key) {
    Fits(h.bitmap, |members|) && exists i :: 0 <= i < |members| && members[i] == k && h.bitmap[i]
  }

  method IndexOf(members: seq<Key>, k: Key) returns (i: int)
    ensures -1 <= i < |members| && (i >= 0 ==> members[i] == k)
    ensures i < 0 ==> k !in members
  {
    i := |members| - 1;
    while i >= 0 && members[i] != k
      invariant -1 <= i < |members| && forall j :: i < j < |members| ==> members[j] != k
    {
      i := i - 1;
    }
  }

  /** Member `k` signed none of the last four commits. */
  ghost predicate Silent(chain: Chain, members: seq<Key>, k: Key) {
    |chain| >= 4 && forall i :: |chain| - 4 <= i < |chain| ==> !Enabled(chain[i], members, k)
  }

  ghost predicate AllFit(chain: Chain, members: seq<Key>) {
    |chain| >= 4 && forall i :: |chain| - 4 <= i < |chain| ==> Fits(chain[i].bitmap, |members|)
  }

  datatype Verdict = Failed | Skips | Signs

  /** Whether the candidate signed one commit; the mask is reused from header to header. */
  method Check(h: Header, members: seq<Key>, next: Key, mask: seq<bool>)
    returns (ok: bool, signed: bool, mask': seq<bool>)
    requires Fits(mask, |members|) && NoDuplicates(members)
    ensures Fits(mask', |members|) && (ok <==> Fits(h.bitmap, |members|) && next in members)
    ensures ok ==> signed == Enabled(h, members, next)
  {
    signed := false;
    ok, mask' := SetMask(mask, h.bitmap, |members|);
    if !ok { return; }
    var k := IndexOf(members, next);
    ok := k >= 0;
    if ok { signed := mask'[k]; }
  }

  /** How many of the last four commits the candidate missed; headers of other epochs end the count. */
  method Aliveness(chain: Chain, members: seq<Key>, next: Key) returns (v: Verdict)
    requires FourInEpoch(chain) && NoDuplicates(members)
    ensures v == Failed <==> next !in members || !AllFit(chain, members)
    ensures v == Skips ==> Silent(chain, members, next)
    ensures v == Signs ==> !Silent(chain, members, next)
  {
    var n := |chain|;
    var mask := seq(8 * ((|members| + 7) / 8), i => false);
    var skipped := 0;
    for i := 0 to 4
      invariant Fits(mask, |members|) && 0 <= skipped <= i
      invariant forall j :: n - i <= j < n ==> Fits(chain[j].bitmap, |members|)
      invariant i > 0 ==> next in members
      invariant skipped == i <==> forall j :: n - i <= j < n ==> !Enabled(chain[j], members, next)
    {
      var header := chain[n - 1 - i];
      if header.epoch != chain[n - 1].epoch { break; }
      var ok, signed;
      ok, signed, mask := Check(header, members, next, mask);
      if !ok { return Failed; }
      if !signed { skipped := skipped + 1; }
    }
    v := if skipped >= 4 then Skips else Signs;
  }

  // ---------- the chain ----------

  /** What rotateLeader reads besides the chain: the committee's slot count (none when the shard state cannot be
      read), the schedule, the decider's candidates by offset and its members. */
  datatype Setting = Setting(slots: Option<nat>, blocksPerEpoch: nat, candidate: nat -> Option<Key>, members: seq<Key>)

  /** Blocks the leader may produce in a row. */
  function Quota(slots: nat, blocksPerEpoch: nat): nat
    requires slots > 0
  {
    var share := blocksPerEpoch / slots;
    if share < 4 then 4 else share
  }

  /** The leader may produce its share of the epoch's blocks in a row, and four in any case. */
  lemma QuotaIsShare(slots: nat, blocksPerEpoch: nat)
    requires slots > 0
    ensures forall n: nat :: n <= Quota(slots, blocksPerEpoch) <==> n <= 4 || n * slots <= blocksPerEpoch
  {
    var share := blocksPerEpoch / slots;
    assert share * slots <= blocksPerEpoch < (share + 1) * slots;
    forall n: nat ensures n <= share <==> n * slots <= blocksPerEpoch { QuotientIs(slots, blocksPerEpoch, share, n); }
  }

  ghost predicate Due(chain: Chain, meta: Meta, epoch: nat, leader: Key, st: Setting) {
    && chain != [] && epoch == chain[|chain| - 1].epoch
    && st.slots.Some? && st.slots.value > 0 && st.blocksPerEpoch > 0
    && meta.pub == Some(leader) && meta.count >= Quota(st.slots.value, st.blocksPerEpoch)
  }

  /** The candidate at `offset` is the first that is not silent. */
  ghost predicate Chosen(chain: Chain, st: Setting, offset: nat, key: Key) {
    && 1 <= offset && st.candidate(offset) == Some(key) && key in st.members && !Silent(chain, st.members, key)
    && forall o :: 1 <= o < offset ==> Passed(chain, st, o)
  }

  ghost predicate Passed(chain: Chain, st: Setting, o: nat) {
    st.candidate(o).Some? && Silent(chain, st.members, st.candidate(o).value)
  }

  /** No candidate can be chosen: one cannot be judged after all before it were passed over, or all were. */
  ghost predicate NoneChosen(chain: Chain, st: Setting) {
    exists offset :: 1 <= offset && (forall o :: 1 <= o < offset ==> Passed(chain, st, o))
      && Stuck(chain, st, offset)
  }

  ghost predicate Stuck(chain: Chain, st: Setting, offset: nat) {
    || (st.slots.Some? && offset == st.slots.value + 1)
    || st.candidate(offset) == None
    || (st.candidate(offset).Some? && (st.candidate(offset).value !in st.members || !AllFit(chain, st.members)))
  }

  /** The selection loop. */
  method Select(chain: Chain, st: Setting, fallback: Key) returns (rotated: bool, key: Key)
    requires FourInEpoch(chain) && NoDuplicates(st.members) && st.slots.Some?
    ensures rotated ==> exists offset :: Chosen(chain, st, offset, key)
    ensures !rotated ==> key == fallback && NoneChosen(chain, st)
  {
    var offset := 1;
    for i := 0 to st.slots.value
      invariant offset == i + 1 && forall o :: 1 <= o < offset ==> Passed(chain, st, o)
    {
      var next := st.candidate(offset);
      if next == None {
        assert Stuck(chain, st, offset);
        return false, fallback;
      }
      var v := Aliveness(chain, st.members, next.value);
      if v == Failed {
        assert Stuck(chain, st, offset);
        return false, fallback;
      }
      if v == Signs {
        assert Chosen(chain, st, offset, next.value);
        return true, next.value;
      }
      assert Passed(chain, st, offset);
      offset := offset + 1;
    }
    assert Stuck(chain, st, offset);
    return false, fallback;
  }

  /** Every leader the meta asks for can be read. */
  ghost predicate LeadersKnown(blocks: seq<Header>) {
    forall i :: 0 <= i < |blocks| && blocks[i].epoch > 0 ==> blocks[i].leader.Some?
  }

  /** All insertions in a row. */
  ghost function Joined(inserts: seq<seq<Header>>): seq<Header> {
    if inserts == [] then [] else Joined(inserts[..|inserts| - 1]) + inserts[|inserts| - 1]
  }

  lemma {:induction false} JoinedPrefix(inserts: seq<seq<Header>>, n: nat)
    requires n <= |inserts|
    ensures Joined(inserts[..n]) <= Joined(inserts)
    decreases |inserts|
  {
    if n == |inserts| {
      assert inserts[..n] == inserts;
    } else {
      JoinedPrefix(inserts[..|inserts| - 1], n);
      assert inserts[..|inserts| - 1][..n] == inserts[..n];
    }
  }

  /** The blocks can follow the chain. */
  ghost predicate Acceptable(chain: Chain, blocks: seq<Header>) { EpochsGrow(chain + blocks) && LeadersKnown(blocks) }

  lemma AcceptableMore(chain: Chain, blocks: seq<Header>, more: seq<Header>)
    ensures Acceptable(chain, blocks + more) <==>
      Acceptable(chain, blocks) && EpochsGrow(chain + blocks + more) && LeadersKnown(more)
  {
    var all, some := chain + (blocks + more), chain + blocks;
    assert all == chain + blocks + more && forall i :: 0 <= i < |some| ==> some[i] == all[i];
    assert forall i :: 0 <= i < |blocks| ==> (blocks + more)[i] == blocks[i];
    assert forall i :: 0 <= i < |more| ==> (blocks + more)[|blocks| + i] == more[i];
  }

  /** If all insertions can follow the chain, so can the first of them. */
  lemma EarlierInserts(chain: Chain, inserts: seq<seq<Header>>, n: nat)
    requires n <= |inserts| && Acceptable(chain, Joined(inserts))
    ensures Acceptable(chain, Joined(inserts[..n]))
  {
    JoinedPrefix(inserts, n);
    var all, some := Joined(inserts), Joined(inserts[..n]);
    assert some + all[|some|..] == all;
    AcceptableMore(chain, some, all[|some|..]);
  }

  lemma JoinedNext(inserts: seq<seq<Header>>, i: nat)
    requires i < |inserts|
    ensures Joined(inserts[..i + 1]) == Joined(inserts[..i]) + inserts[i]
  {
    assert inserts[..i + 1][..i] == inserts[..i];
  }

  lemma Associates(a: Chain, b: Chain, c: Chain)
    ensures a + b + c == a + (b + c)
  {
  }

  lemma NextInsert(chain: Chain, inserts: seq<seq<Header>>, i: nat)
    requires i < |inserts| && Acceptable(chain, Joined(inserts[..i]))
    ensures chain + Joined(inserts[..i]) + inserts[i] == chain + Joined(inserts[..i + 1])
    ensures Acceptable(chain, Joined(inserts[..i + 1])) <==>
      EpochsGrow(chain + Joined(inserts[..i]) + inserts[i]) && LeadersKnown(inserts[i])
    ensures Acceptable(chain, Joined(inserts)) ==> Acceptable(chain, Joined(inserts[..i + 1]))
  {
    JoinedNext(inserts, i);
    Associates(chain, Joined(inserts[..i]), inserts[i]);
    AcceptableMore(chain, Joined(inserts[..i]), inserts[i]);
    if Acceptable(chain, Joined(inserts)) { EarlierInserts(chain, inserts, i + 1); }
  }

  /** Saves the meta for each block past epoch 0; stops when a leader cannot be read. */
  method SaveAll(chain: Chain, blocks: seq<Header>, start: Meta, ghost uncounted: nat, ghost initial: Meta)
    returns (ok: bool, s: Meta)
    requires Sound(chain, start) && EpochsGrow(chain + blocks) && Counted(chain, start, uncounted, initial)
    ensures ok <==> LeadersKnown(blocks)
    ensures ok ==> Sound(chain + blocks, s) && Counted(chain + blocks, s, uncounted, initial)
  {
    s := start;
    assert chain + blocks[..0] == chain;
    for i := 0 to |blocks|
      invariant forall j :: 0 <= j < i && blocks[j].epoch > 0 ==> blocks[j].leader.Some?
      invariant Sound(chain + blocks[..i], s) && Counted(chain + blocks[..i], s, uncounted, initial)
    {
      var h := blocks[i];
      if h.epoch > 0 && h.leader == None { return false, s; }
      Extend(chain, blocks, i);
      CountedNext(chain + blocks[..i], h, s, uncounted, initial);
      if h.epoch > 0 { s := ProcessRotationMeta(h.epoch, h.leader.value, s); }
    }
    assert blocks[..|blocks|] == blocks;
    ok := true;
  }

  lemma Extend(chain: Chain, blocks: seq<Header>, i: nat)
    requires i < |blocks| && EpochsGrow(chain + blocks)
    ensures chain + blocks[..i + 1] == chain + blocks[..i] + [blocks[i]]
    ensures EpochsGrow(chain + blocks[..i] + [blocks[i]])
  {
    var next := chain + blocks[..i] + [blocks[i]];
    assert next == (chain + blocks)[..|chain| + i + 1];
  }

  class Blockchain {
    var chain: Chain
    var meta: Meta
    /** How many headers the meta never saw, because startup did not rebuild it, and the meta at startup. */
    ghost const uncounted: nat
    ghost const initial: Meta

    /** Epochs never fall along the chain, and the meta never claims more than the chain shows. */
    ghost predicate Valid()
      reads this
    {
      EpochsGrow(chain) && Sound(chain, meta) && Counted(chain, meta, uncounted, initial)
    }

    constructor (stored: Chain, meta: Meta, ghost uncounted: nat)
      requires EpochsGrow(stored) && Sound(stored, meta) && Counted(stored, meta, uncounted, meta)
      ensures Valid() && chain == stored && this.meta == initial == meta && this.uncounted == uncounted
    {
      chain, this.meta, this.uncounted, initial := stored, meta, uncounted, meta;
    }

    /** Startup: loads the chain and, if rotation is active, rebuilds the meta; without one there is no blockchain. */
    static method Open(stored: Chain, active: bool) returns (bc: Blockchain?)
      requires stored != [] && EpochsGrow(stored)
      ensures bc == null <==> active && !exists i :: RunStartsAfter(stored, i)
      ensures bc != null ==> fresh(bc) && bc.Valid() && bc.chain == stored
      ensures bc != null && active ==> Exact(bc.chain, bc.meta) && bc.uncounted == 0
      ensures bc != null && !active ==>
        bc.meta == NoMeta && bc.uncounted == if stored[|stored| - 1].epoch == 0 then 0 else |stored|
    {
      var ok, s := Build(stored, active, NoMeta);
      if !ok { return null; }
      ghost var uncounted := if active || stored[|stored| - 1].epoch == 0 then 0 else |stored|;
      if active { SoundNow(stored, s); }
      bc := new Blockchain(stored, s, uncounted);
    }

    /** InsertChain: appends blocks and counts those past epoch 0. If the meta saw every header it is exact at every
        head past epoch 0; if not, it is exact exactly when some header it saw differs from the last it did not see.
        In epoch 0 it stays as it was at startup. */
    method InsertChain(blocks: seq<Header>) returns (ok: bool)
      requires Valid() && EpochsGrow(chain + blocks)
      modifies this
      ensures chain == old(chain) + blocks
      ensures ok <==> LeadersKnown(blocks)
      ensures ok ==> Valid() && Precise()
    {
      var before := chain;
      chain := chain + blocks;
      var s;
      ok, s := SaveAll(before, blocks, meta, uncounted, initial);
      meta := s;
      if ok { PreciseNow(); }
    }

    /** Exactly when the meta is exact. */
    ghost predicate Precise()
      reads this
    {
      && chain != [] && uncounted <= |chain|
      && (chain[|chain| - 1].epoch == 0 ==> meta == initial)
      && (chain[|chain| - 1].epoch > 0 && uncounted == 0 ==> Exact(chain, meta))
      && (0 < uncounted == |chain| ==> !Exact(chain, meta))
      && (0 < uncounted < |chain| ==> (Exact(chain, meta) <==> !Continues(chain, uncounted)))
    }

    lemma PreciseNow()
      requires Valid()
      ensures Precise()
    {
      if 0 < uncounted < |chain| { ExactAfterGap(chain, meta, uncounted); }
    }

    /** Any sequence of insertions after startup; the first that fails ends it. */
    method Run(inserts: seq<seq<Header>>) returns (ok: bool)
      requires Valid()
      modifies this
      ensures ok <==> Acceptable(old(chain), Joined(inserts))
      ensures ok ==> chain == old(chain) + Joined(inserts) && Valid() && Precise()
    {
      ghost var start := chain;
      assert Joined(inserts[..0]) == [] && start + [] == start;
      for i := 0 to |inserts|
        invariant Valid() && chain == start + Joined(inserts[..i]) && Acceptable(start, Joined(inserts[..i]))
      {
        NextInsert(start, inserts, i);
        if !EpochsGrow(chain + inserts[i]) { return false; }
        var inserted := InsertChain(inserts[i]);
        if !inserted { return false; }
      }
      assert inserts[..|inserts|] == inserts;
      ok := true;
      PreciseNow();
    }

    /** rotateLeader: a rotation happens only with four headers of the current epoch behind it, and goes to the first
        candidate that signed one of them. */
    method RotateLeader(epoch: nat, leader: Key, fallback: Key, st: Setting) returns (rotated: bool, key: Key)
      requires Valid() && NoDuplicates(st.members)
      ensures Due(chain, meta, epoch, leader, st) ==> FourInEpoch(chain)
      ensures rotated ==> Due(chain, meta, epoch, leader, st) && exists offset :: Chosen(chain, st, offset, key)
      ensures rotated ==> exists i :: |chain| - 4 <= i < |chain| && 0 <= i && Enabled(chain[i], st.members, key)
      ensures !rotated ==> key == fallback && (!Due(chain, meta, epoch, leader, st) || NoneChosen(chain, st))
    {
      if epoch != chain[|chain| - 1].epoch || st.slots == None || st.blocksPerEpoch == 0 || st.slots.value == 0
      { return false, fallback; }
      if meta.pub != Some(leader) { return false, fallback; }
      if meta.count < Quota(st.slots.value, st.blocksPerEpoch) { return false, fallback; }
      CountGivesFour(chain, meta);
      rotated, key := Select(chain, st, fallback);
    }
  }

  /** Restarted in epoch 1 with rotation not active, then one more block of the same leader: one block is counted of the
      two in a row. */
  method CountFallsShort(k: Key) returns (bc: Blockchain)
    ensures bc.chain == [Header(Some(k), 0, []), Header(Some(k), 1, []), Header(Some(k), 1, [])]
    ensures LongestRun(bc.chain, 2) && bc.meta == Meta(Some(k), 1, 1) && !Exact(bc.chain, bc.meta)
  {
    var genesis, h := Header(Some(k), 0, []), Header(Some(k), 1, []);
    bc := Blockchain.Open([genesis, h], false);
    var ok := bc.InsertChain([h]);
    assert bc.chain[2..] == [h];
    assert Continues(bc.chain, 2);
  }
}
