/** core/chain_indexer.go: the heads of the sections indexed so far, and the chain they lie on. */
module Sections {
  type Hash = nat

  /** The zero hash: the parent of genesis, and what a missing section head reads as. */
  const Zero: Hash := 0

  datatype Header = Header(number: nat, hash: Hash, parent: Hash)

  type Heads = map<nat, Hash>

  // ---------- parent-linked paths ----------

  /** `path` runs from the child of `from`, numbered `start`, up to the header with hash `to`. */
  ghost predicate Path(from: Hash, start: nat, path: seq<Header>, to: Hash) {
    && (forall i :: 0 <= i < |path| ==> path[i].number == start + i && path[i].hash != Zero)
    && (forall i :: 0 < i < |path| ==> path[i].parent == path[i - 1].hash)
    && (if path == [] then from == to else path[0].parent == from && path[|path| - 1].hash == to)
  }

  lemma PathSnoc(from: Hash, start: nat, path: seq<Header>, to: Hash, h: Header)
    requires Path(from, start, path, to) && h.parent == to && h.number == start + |path| && h.hash != Zero
    ensures Path(from, start, path + [h], h.hash)
  {
  }

  lemma PathJoin(a: Hash, start: nat, p: seq<Header>, b: Hash, q: seq<Header>, c: Hash)
    requires Path(a, start, p, b) && Path(b, start + |p|, q, c)
    ensures Path(a, start, p + q, c)
  {
    var r := p + q;
    forall i | 0 < i < |r| ensures r[i].parent == r[i - 1].hash {
      if i == |p| { assert r[i] == q[0]; }
    }
  }

  /** The head before a section: the zero hash before the first. */
  function Before(heads: Heads, section: nat): Hash {
    if section > 0 && section - 1 in heads then heads[section - 1] else Zero
  }

  /** The head of `section` is reached from the one before by exactly `size` headers. */
  ghost predicate Joined(heads: Heads, size: nat, section: nat) {
    && section in heads && heads[section] != Zero
    && exists path :: |path| == size && Path(Before(heads, section), section * size, path, heads[section])
  }

  /** Heads are present exactly below `stored`, each joined to the one before. */
  ghost predicate Contiguous(heads: Heads, size: nat, stored: nat) {
    && (forall s :: s in heads <==> 0 <= s < stored)
    && (forall s :: 0 <= s < stored ==> Joined(heads, size, s))
  }

  /** The stored heads lie on one chain from genesis. */
  lemma {:induction false} WholePath(heads: Heads, size: nat, stored: nat, section: nat) returns (path: seq<Header>)
    requires Contiguous(heads, size, stored) && section < stored
    ensures |path| == (section + 1) * size && Path(Zero, 0, path, heads[section])
  {
    assert Joined(heads, size, section);
    var last :| |last| == size && Path(Before(heads, section), section * size, last, heads[section]);
    if section == 0 {
      path := last;
    } else {
      var first := WholePath(heads, size, stored, section - 1);
      assert section - 1 in heads;
      path := first + last;
      PathJoin(Zero, 0, first, heads[section - 1], last, heads[section]);
    }
  }

  lemma ContiguousShrinks(heads: Heads, size: nat, stored: nat)
    requires Contiguous(heads, size, stored) && stored > 0
    ensures Contiguous(heads - {stored - 1}, size, stored - 1)
  {
    var heads' := heads - {stored - 1};
    forall s | 0 <= s < stored - 1 ensures Joined(heads', size, s) {
      assert Joined(heads, size, s);
      assert Before(heads', s) == Before(heads, s);
    }
  }

  lemma ContiguousGrows(heads: Heads, size: nat, stored: nat, head: Hash, path: seq<Header>)
    requires Contiguous(heads, size, stored) && |path| == size && head != Zero
    requires Path(Before(heads, stored), stored * size, path, head)
    ensures Contiguous(heads[stored := head], size, stored + 1)
  {
    var heads' := heads[stored := head];
    forall s | 0 <= s < stored + 1 ensures Joined(heads', size, s) {
      assert Before(heads', s) == Before(heads, s);
      if s < stored { assert Joined(heads, size, s); }
    }
  }
}

/** setValidSections of core/chain_indexer.go, step by step. A reorganisation runs it under the lock; after a failed
    backend reset it runs without the lock, so the two can interleave. */
module Removal {
  import opened Sections

  const MaxUint64: nat := 0xffff_ffff_ffff_ffff

  /** The stored heads, the cached number of sections, the number in the index database, and whether the cached number
      has wrapped around below zero. */
  datatype Store = Store(heads: Heads, stored: nat, count: nat, wrapped: bool)

  /** The next step: write the number, compare the cached one, decrement it, delete the head at it, or assign it at the
      end. */
  datatype Pc = Count | Compare | Decrement | Delete | Assign | Done

  datatype Remover = Remover(target: nat, pc: Pc)

  const Idle := Remover(0, Done)

  function Move(s: Store, r: Remover): (Store, Remover) {
    match r.pc
    case Count => (s.(count := r.target), r.(pc := Compare))
    case Compare => (s, r.(pc := if s.stored > r.target then Decrement else Assign))
    case Decrement =>
      (if s.stored > 0 then s.(stored := s.stored - 1) else s.(stored := MaxUint64, wrapped := true), r.(pc := Delete))
    case Delete => (s.(heads := s.heads - {s.stored}), r.(pc := Compare))
    case Assign => (s.(stored := r.target), r.(pc := Done))
    case Done => (s, r)
  }

  // ---------- one removal by itself ----------

  ghost predicate Quiet(s: Store, size: nat) {
    Contiguous(s.heads, size, s.stored) && s.count == s.stored && !s.wrapped
  }

  /** A removal that nothing else interferes with. */
  ghost predicate Alone(s: Store, size: nat, r: Remover) {
    && Contiguous(s.heads, size, if r.pc == Delete then s.stored + 1 else s.stored)
    && r.target <= s.stored && !s.wrapped
    && (r.pc == Decrement ==> r.target < s.stored)
    && (r.pc == Assign || r.pc == Done ==> s.stored == r.target)
    && (r.pc != Count ==> s.count == r.target)
  }

  lemma MoveAlone(s: Store, size: nat, r: Remover)
    requires Alone(s, size, r)
    ensures Alone(Move(s, r).0, size, Move(s, r).1) && Move(s, r).0.stored <= s.stored
  {
    if r.pc == Delete { ContiguousShrinks(s.heads, size, s.stored + 1); }
  }

  /** The removal is not about to decrement below its target. */
  predicate Steady(s: Store, r: Remover) { r.pc == Decrement ==> s.stored > r.target }

  ghost function Steps(s: Store, r: Remover): nat {
    match r.pc
    case Count => 3 * s.stored + 4
    case Compare => 3 * s.stored + 3
    case Decrement => 3 * s.stored + 2
    case Delete => 3 * s.stored + 4
    case Assign => 1
    case Done => 0
  }

  /** All the steps of one removal, in a row. */
  ghost function RunOut(s: Store, r: Remover): Store
    requires Steady(s, r)
    decreases Steps(s, r)
  {
    if r.pc == Done then s else RunOut(Move(s, r).0, Move(s, r).1)
  }

  /** By itself a removal deletes exactly the heads from the target on. */
  lemma {:induction false} RemovesExactly(s: Store, size: nat, r: Remover)
    requires Alone(s, size, r)
    ensures RunOut(s, r).stored == r.target && Quiet(RunOut(s, r), size)
    ensures forall k :: 0 <= k < r.target ==>
      k in s.heads && k in RunOut(s, r).heads && RunOut(s, r).heads[k] == s.heads[k]
    decreases Steps(s, r)
  {
    if r.pc != Done {
      MoveAlone(s, size, r);
      RemovesExactly(Move(s, r).0, size, Move(s, r).1);
    }
  }

  // ---------- two removals ----------

  /** The store, the unlocked removal after a failed reset, and the removal of a reorganisation. */
  datatype World = World(s: Store, reset: Remover, reorg: Remover)

  function Who(w: World, unlocked: bool): Remover { if unlocked then w.reset else w.reorg }

  function Turn(w: World, unlocked: bool): World {
    var (s, r) := Move(w.s, Who(w, unlocked));
    if unlocked then World(s, r, w.reorg) else World(s, w.reset, r)
  }

  /** An interleaving: whose turn it is at each step. */
  function Play(w: World, schedule: seq<bool>): World
    decreases |schedule|
  {
    if schedule == [] then w else Play(Turn(w, schedule[0]), schedule[1..])
  }

  predicate Ended(w: World) { w.reset.pc == Done && w.reorg.pc == Done }

  predicate Overlapping(w: World) { w.reset.pc != Done && w.reorg.pc != Done }

  /** With the counter at zero and nothing to keep, two removals do not get in each other's way. */
  predicate Harmless(w: World) { w.reorg.target == 0 && w.s.stored == 0 }

  /** Two removals down to nothing with the counter there already: at most one head is still to be deleted. */
  ghost predicate Together(w: World, size: nat) {
    && w.reset.target == w.reorg.target == 0 && w.s.stored == 0 && !w.s.wrapped
    && w.reset.pc != Decrement && w.reorg.pc != Decrement && !(w.reset.pc == w.reorg.pc == Delete)
    && Contiguous(w.s.heads, size, if w.reset.pc == Delete || w.reorg.pc == Delete then 1 else 0)
    && (w.reset.pc != Count || w.reorg.pc != Count ==> w.s.count == 0)
  }

  /** No removal, one, or two harmless ones. */
  ghost predicate Sound(w: World, size: nat) {
    if w.reset.pc == Done then
      if w.reorg.pc == Done then Quiet(w.s, size) else Alone(w.s, size, w.reorg)
    else w.reset.target == 0 && if w.reorg.pc == Done then Alone(w.s, size, w.reset) else Together(w, size)
  }

  lemma TurnSound(w: World, size: nat, unlocked: bool)
    requires Sound(w, size)
    ensures Sound(Turn(w, unlocked), size) && Turn(w, unlocked).s.stored <= w.s.stored
  {
    if w.reorg.pc == Done {
      if unlocked && w.reset.pc != Done { MoveAlone(w.s, size, w.reset); }
    } else if w.reset.pc == Done {
      if !unlocked { MoveAlone(w.s, size, w.reorg); }
    } else if Who(w, unlocked).pc == Delete {
      ContiguousShrinks(w.s.heads, size, 1);
    }
  }

  lemma {:induction false} PlaySound(w: World, size: nat, schedule: seq<bool>)
    requires Sound(w, size)
    ensures Sound(Play(w, schedule), size)
    decreases |schedule|
  {
    if schedule != [] {
      TurnSound(w, size, schedule[0]);
      PlaySound(Turn(w, schedule[0]), size, schedule[1..]);
    }
  }

  lemma SoundStays(w: World, size: nat)
    requires Sound(w, size)
    ensures !w.s.wrapped && (Ended(w) ==> Contiguous(w.s.heads, size, w.s.stored))
  {
  }

  /** The second of two removals is about to make its first step. */
  ghost predicate Begun(w: World, size: nat) {
    && w.reset.target == 0 && Overlapping(w)
    && (|| (w.reset.pc == Count && Alone(w.s, size, w.reorg))
        || (w.reorg.pc == Count && Alone(w.s, size, w.reset) && w.reorg.target < w.s.stored))
  }

  /** The counter has not wrapped, and if both removals have ended the heads are contiguous. */
  ghost predicate GoesWell(w: World, size: nat, schedule: seq<bool>) {
    var e := Play(w, schedule);
    !e.s.wrapped && (Ended(e) ==> Contiguous(e.s.heads, size, e.s.stored))
  }

  ghost predicate AlwaysGoesWell(w: World, size: nat) {
    forall schedule :: GoesWell(w, size, schedule)
  }

  lemma {:induction false} PlayOn(w: World, first: seq<bool>, second: seq<bool>)
    ensures Play(w, first + second) == Play(Play(w, first), second)
    decreases |first|
  {
    if first == [] {
      assert first + second == second;
    } else {
      assert (first + second)[1..] == first[1..] + second;
      PlayOn(Turn(w, first[0]), first[1..], second);
    }
  }

  lemma OneTurn(w: World, x: bool, rest: seq<bool>) returns (schedule: seq<bool>)
    ensures Play(w, schedule) == Play(Turn(w, x), rest)
  {
    schedule := [x] + rest;
    assert schedule[1..] == rest;
  }

  /** One of the two runs to its end. */
  lemma {:induction false} PlayOut(w: World, unlocked: bool) returns (schedule: seq<bool>)
    requires Steady(w.s, Who(w, unlocked))
    ensures var r := Who(w, unlocked).(pc := Done);
      Play(w, schedule) == if unlocked then World(RunOut(w.s, w.reset), r, w.reorg)
                           else World(RunOut(w.s, w.reorg), w.reset, r)
    decreases Steps(w.s, Who(w, unlocked))
  {
    if Who(w, unlocked).pc == Done {
      schedule := [];
    } else {
      var rest := PlayOut(Turn(w, unlocked), unlocked);
      schedule := OneTurn(w, unlocked, rest);
    }
  }

  lemma {:induction false} RunOutOnly(s: Store, r: Remover)
    requires Steady(s, r)
    ensures r.pc != Done ==> RunOut(s, r).stored == r.target
    ensures RunOut(s, r).heads.Keys <= s.heads.Keys
    decreases Steps(s, r)
  {
    if r.pc != Done { RunOutOnly(Move(s, r).0, Move(s, r).1); }
  }

  /** A removal down to nothing deletes the head of section 0. */
  lemma {:induction false} RunOutEmpties(s: Store, r: Remover)
    requires Steady(s, r) && r.target == 0 && r.pc != Assign && r.pc != Done && (r.pc == Delete || s.stored > 0)
    ensures 0 !in RunOut(s, r).heads
    decreases Steps(s, r)
  {
    var (s', r') := Move(s, r);
    if r.pc == Delete && s.stored == 0 {
      RunOutOnly(s', r');
    } else {
      RunOutEmpties(s', r');
    }
  }

  /** A head above the counter is out of a removal's reach. */
  lemma {:induction false} RunOutMisses(s: Store, r: Remover, v: nat)
    requires Steady(s, r) && v in s.heads && s.stored <= v && (r.pc == Delete ==> s.stored < v) && r.target <= v
    ensures v in RunOut(s, r).heads
    decreases Steps(s, r)
  {
    if r.pc != Done { RunOutMisses(Move(s, r).0, Move(s, r).1, v); }
  }

  /** The reset runs to its end. Then the reorganisation, if it was about to decrement, takes the counter below zero;
      else its last step claims sections that are gone. */
  lemma ResetWithin(w: World, size: nat) returns (schedule: seq<bool>)
    requires Begun(w, size) && w.reorg.target > 0
    ensures var e := Play(w, schedule);
      e.s.wrapped || (Ended(e) && e.s.stored == w.reorg.target && 0 !in e.s.heads)
  {
    var first := PlayOut(w, true);
    var mid := Play(w, first);
    RunOutEmpties(w.s, w.reset);
    RunOutOnly(w.s, w.reset);
    if w.reorg.pc == Decrement {
      var second := OneTurn(mid, false, []);
      PlayOn(w, first, second);
      schedule := first + second;
    } else {
      var second := PlayOut(mid, false);
      PlayOn(w, first, second);
      RunOutOnly(mid.s, mid.reorg);
      schedule := first + second;
    }
  }

  /** Both decrement before either deletes: the head in between is left behind. */
  lemma Overtaken(w: World, unlocked: bool) returns (schedule: seq<bool>)
    requires w.reset.target == w.reorg.target == 0 && w.s.stored > 0 && w.s.stored in w.s.heads
    requires Who(w, unlocked).pc == Delete && Who(w, !unlocked).pc == Decrement
    ensures var e := Play(w, schedule); Ended(e) && e.s.stored == 0 && w.s.stored in e.s.heads
  {
    var v := w.s.stored;
    var w1 := Turn(w, !unlocked);
    var w2 := Turn(w1, !unlocked);
    var w3 := Turn(w2, unlocked);
    assert v in w3.s.heads && w3.s.stored < v && w3.reset.pc == w3.reorg.pc == Compare;
    var first := PlayOut(w3, true);
    var w4 := Play(w3, first);
    RunOutMisses(w3.s, w3.reset, v);
    RunOutOnly(w3.s, w3.reset);
    var second := PlayOut(w4, false);
    RunOutMisses(w4.s, w4.reorg, v);
    RunOutOnly(w4.s, w4.reorg);
    PlayOn(w3, first, second);
    schedule := OneTurn(w2, unlocked, first + second);
    schedule := OneTurn(w1, !unlocked, schedule);
    schedule := OneTurn(w, !unlocked, schedule);
  }

  /** From the start of an overlap of two removals down to nothing, with the counter above zero: both pass the
      comparison, and then the counter wraps or a head is left behind. */
  lemma {:induction false} BothPass(w: World, size: nat, unlocked: bool) returns (schedule: seq<bool>)
    requires w.reset.target == w.reorg.target == 0 && w.s.stored > 0
    requires Who(w, !unlocked).pc in {Count, Compare, Decrement}
    requires Alone(w.s, size, Who(w, unlocked)) && Who(w, unlocked).pc != Done
    ensures var e := Play(w, schedule);
      e.s.wrapped || (Ended(e) && e.s.stored == 0 && exists v :: v > 0 && v in e.s.heads)
    decreases Steps(w.s, Who(w, unlocked)) + Steps(w.s, Who(w, !unlocked))
  {
    var r := Who(w, unlocked);
    if Who(w, !unlocked).pc != Decrement {
      var rest := BothPass(Turn(w, !unlocked), size, unlocked);
      schedule := OneTurn(w, !unlocked, rest);
    } else if r.pc == Delete {
      schedule := Overtaken(w, unlocked);
      assert w.s.stored in Play(w, schedule).s.heads;
    } else if r.pc == Decrement && w.s.stored == 1 {
      schedule := OneTurn(Turn(w, unlocked), !unlocked, []);
      schedule := OneTurn(w, unlocked, schedule);
    } else {
      MoveAlone(w.s, size, r);
      var rest := BothPass(Turn(w, unlocked), size, unlocked);
      schedule := OneTurn(w, unlocked, rest);
    }
  }

  /** Exactly when an overlap of the unlocked removal with that of a reorganisation goes well in every interleaving: the
      reorganisation keeps no section and the counter is at zero already when the second removal starts. */
  lemma OverlapExact(w: World, size: nat)
    requires Begun(w, size)
    ensures AlwaysGoesWell(w, size) <==> Harmless(w)
  {
    if Harmless(w) {
      assert Sound(w, size);
      forall schedule ensures GoesWell(w, size, schedule) {
        PlaySound(w, size, schedule);
        SoundStays(Play(w, schedule), size);
      }
    } else if w.reorg.target > 0 {
      var schedule := ResetWithin(w, size);
      assert !GoesWell(w, size, schedule);
    } else {
      var schedule := BothPass(w, size, w.reset.pc != Count);
      assert !GoesWell(w, size, schedule);
    }
  }

  // ---------- two schedules ----------

  /** Two sections are stored; a reorganisation has found that it keeps one. The reset then removes both, and the
      reorganisation ends with one section counted and no head stored. */
  lemma ResetInsideReorg(h0: Hash, h1: Hash)
    ensures
      var w := World(Store(map[0 := h0, 1 := h1], 2, 2, false), Remover(0, Count), Remover(1, Count));
      var whole := [true, true, true, true, true, true, true, true, true];
      var e := Play(w, whole + [false, false, false]);
      Ended(e) && e.s.stored == 1 && e.s.heads == map[] && e.s.count == 1
  {
    var w := World(Store(map[0 := h0, 1 := h1], 2, 2, false), Remover(0, Count), Remover(1, Count));
    var whole := [true, true, true, true, true, true, true, true, true];
    var schedule := whole + [false, false, false];
    var w3 := Turn(Turn(Turn(w, true), true), true);
    assert w3 == World(Store(map[0 := h0, 1 := h1], 1, 0, false), Remover(0, Delete), Remover(1, Count));
    var w6 := Turn(Turn(Turn(w3, true), true), true);
    assert w6 == World(Store(map[0 := h0], 0, 0, false), Remover(0, Delete), Remover(1, Count));
    var w9 := Turn(Turn(Turn(w6, true), true), true);
    assert w9 == World(Store(map[], 0, 0, false), Remover(0, Done), Remover(1, Count));
    PlayThree(w, schedule);
    PlayThree(w3, schedule[3..]);
    PlayThree(w6, schedule[6..]);
    PlayThree(w9, schedule[9..]);
    assert schedule[3..][3..] == schedule[6..] && schedule[6..][3..] == schedule[9..] && schedule[9..][3..] == [];
  }

  /** One section is stored and the reorganisation keeps none. Both pass the comparison before either decrements: the
      counter wraps, with the head still there. */
  lemma BothCompareFirst(h0: Hash)
    ensures
      var w := World(Store(map[0 := h0], 1, 1, false), Remover(0, Count), Remover(0, Count));
      var e := Play(w, [true, false, true, false, true, false]);
      e.s.wrapped && e.s.stored == MaxUint64 && 0 in e.s.heads
  {
    var w := World(Store(map[0 := h0], 1, 1, false), Remover(0, Count), Remover(0, Count));
    var schedule := [true, false, true, false, true, false];
    var w3 := Turn(Turn(Turn(w, true), false), true);
    assert w3 == World(Store(map[0 := h0], 1, 0, false), Remover(0, Decrement), Remover(0, Compare));
    PlayThree(w, schedule);
    PlayThree(w3, schedule[3..]);
    assert schedule[3..][3..] == [];
  }

  lemma PlayThree(w: World, schedule: seq<bool>)
    requires |schedule| >= 3
    ensures Play(w, schedule) == Play(Turn(Turn(Turn(w, schedule[0]), schedule[1]), schedule[2]), schedule[3..])
  {
    assert schedule[1..][1..] == schedule[2..] && schedule[2..][1..] == schedule[3..];
    var w1 := Turn(w, schedule[0]);
    assert Play(w1, schedule[1..]) == Play(Turn(w1, schedule[1]), schedule[2..]);
  }
}

/** core/chain_indexer.go: sections of a fixed number of headers are indexed one by one, while the chain may be
    reorganised between any two steps. */
module ChainIndexer {
  import opened Common
  import opened Sections
  import opened Removal

  /** A section being processed outside the lock: what was read under it, and the headers seen since. */
  datatype Job = Job(section: nat, oldHead: Hash, lastHead: Hash, seen: seq<Header>, failed: bool)

  ghost predicate JobOk(j: Job, size: nat, s: Store) {
    && s.stored <= j.section && |j.seen| <= size && (s.stored == j.section ==> j.oldHead == Before(s.heads, j.section))
    && (j.oldHead == Zero <==> j.section == 0)
    && Path(j.oldHead, j.section * size, j.seen, j.lastHead)
  }

  /** What can happen next: a head event, or one step of a removal, or one of the update loop, or the chain database
      replacing all headers from number `keep` on. */
  datatype Step =
    | Rewrite(keep: nat, more: seq<Header>)
    | NewHead(head: nat, reorg: bool)
    | Reorg
    | Begin
    | ResetFails
    | Reset
    | Process(found: Option<Header>, backendOk: bool)
    | Finish(commitOk: bool)

  /** Between the two worlds the removals began to overlap, with sections still counted or to be kept. */
  predicate Exposes(w: World, w': World) { !Overlapping(w) && Overlapping(w') && !Harmless(w') }

  /** The beginning of an overlap from which some interleaving wraps the counter or ends with heads that are not
      contiguous. */
  ghost predicate Trapped(w: World, size: nat) { Begun(w, size) && !AlwaysGoesWell(w, size) }

  // ---------- every step as a function ----------

  datatype Setup = Setup(size: nat, confirms: nat)

  /** Everything the indexer holds. */
  datatype Snapshot = Snapshot(world: World, known: nat, cascaded: int, job: Option<Job>)

  function Lower(a: int, b: int): int { if a < b then a else b }

  /** The step can be taken now: the lock and the processing goroutine allow it. */
  predicate EnabledIn(c: Setup, n: Snapshot, step: Step) {
    match step
    case Rewrite(_, _) => true
    case NewHead(_, _) => n.world.reorg.pc == Done
    case Reorg => n.world.reorg.pc != Done
    case Begin => n.job == None && n.world.reorg.pc == Done
    case ResetFails => n.job.Some? && n.job.value.seen == [] && !n.job.value.failed && n.world.reset.pc == Done
    case Reset => n.world.reset.pc != Done && n.job.Some?
    case Process(found, _) =>
      && n.job.Some? && !n.job.value.failed && |n.job.value.seen| < c.size && n.world.reset.pc == Done
      && (found.Some? ==>
           && found.value.number == n.job.value.section * c.size + |n.job.value.seen| && found.value.hash != Zero)
    case Finish(_) =>
      n.job.Some? && (n.job.value.failed || |n.job.value.seen| == c.size) && Ended(n.world)
  }

  /** A new head announces exactly the sections all of whose headers have enough confirmations, and takes none back. */
  ghost predicate Announces(size: nat, confirms: nat, head: nat, known: nat, known': nat) {
    && known <= known'
    && forall k :: k > known ==> (k <= known' <==> k * size + confirms <= head + 1)
  }

  /** After a reorganisation exactly the sections that end at or below the header it kept are still known. */
  ghost predicate Reverts(size: nat, head: nat, known: nat, known': nat) {
    forall k :: 0 < k ==> (k <= known' <==> k <= known && k * size <= head)
  }

  /** The removal of a reorganisation that keeps header `head` starts from the section that header lies in, unless
      nothing is stored from there on. */
  ghost predicate Aims(size: nat, head: nat, stored: nat, r: Remover) {
    if r.pc == Done then stored * size <= head
    else r.target < stored && r.target * size <= head < (r.target + 1) * size
  }

  /** The section that a header number lies in. */
  lemma Reaches(size: nat, head: nat)
    requires size > 0
    ensures head / size * size <= head < (head / size + 1) * size
  {
  }

  lemma LiesBelow(size: nat, head: nat, reached: nat, section: nat)
    requires size > 0 && reached == head / size
    ensures section < reached <==> (section + 1) * size <= head
  {
    Reaches(size, head);
    QuotientIs(size, head, reached, section + 1);
  }

  /** The children are told of no more than the indexer keeps, and lose no section that it keeps. */
  ghost predicate Cascades(size: nat, head: nat, cascaded: int, cascaded': int) {
    cascaded' <= cascaded && cascaded' <= head && (cascaded' == cascaded || head < cascaded' + size)
  }

  lemma HeadBounds(size: nat, confirms: nat, head: nat, known: nat, stored: nat)
    requires size > 0
    ensures var sections := if head >= confirms then (head + 1 - confirms) / size else 0;
      Announces(size, confirms, head, known, if sections > known then sections else known)
    ensures Reverts(size, head, known, if head / size < known then head / size else known)
    ensures Aims(size, head, stored, if head / size < stored then Remover(head / size, Count) else Idle)
    ensures head / size * size <= head < head / size * size + size
  {
    var q := head / size;
    Reaches(size, head);
    forall k: nat ensures k * size <= head <==> k <= q { QuotientIs(size, head, q, k); }
    if head >= confirms {
      var done := (head + 1 - confirms) / size;
      Reaches(size, head + 1 - confirms);
      forall k: nat ensures k * size <= head + 1 - confirms <==> k <= done {
        QuotientIs(size, head + 1 - confirms, done, k);
      }
    } else {
      forall k: nat | k > 0 ensures k * size + confirms > head + 1 { TimesGrows(size, 1, k); }
    }
  }

  /** What a head event does: a reorganisation starts to remove the sections it reaches into. */
  function AfterHead(c: Setup, n: Snapshot, head: nat, reorg: bool): Snapshot
    requires c.size > 0
  {
    var reached := head / c.size;
    if !reorg then
      var sections := if head >= c.confirms then (head + 1 - c.confirms) / c.size else 0;
      if sections > n.known then n.(known := sections) else n
    else
      var n1 := if reached < n.known then n.(known := reached) else n;
      if reached < n.world.s.stored then n1.(world := n.world.(reorg := Remover(reached, Count)))
      else n1.(cascaded := Lower(reached * c.size, n.cascaded))
  }

  /** The next header of a section, or its failure. */
  function AfterHeader(j: Job, found: Option<Header>, backendOk: bool): Job {
    if found == None || found.value.parent != j.lastHead || !backendOk then j.(failed := true)
    else j.(lastHead := found.value.hash, seen := j.seen + [found.value])
  }

  /** setSectionHead, then setValidSections one above it. */
  function WithHead(s: Store, section: nat, head: Hash): Store {
    var heads := s.heads - set k | k in s.heads && section < k < s.stored;
    Store(heads[section := head], section + 1, section + 1, s.wrapped)
  }

  /** The end of a section: stored if nothing failed and the head before it is unchanged. */
  function AfterSection(c: Setup, n: Snapshot, j: Job, commitOk: bool): Snapshot {
    var s := n.world.s;
    if !j.failed && commitOk && j.oldHead == Before(s.heads, j.section) then
      n.(world := n.world.(s := WithHead(s, j.section, j.lastHead)),
         cascaded := (j.section + 1) * c.size - 1, job := None)
    else n.(known := s.stored, job := None)
  }

  lemma WithHeadGrows(s: Store, size: nat, section: nat, head: Hash, path: seq<Header>)
    requires Quiet(s, size) && s.stored == section && |path| == size && head != Zero
    requires Path(Before(s.heads, section), section * size, path, head)
    ensures Quiet(WithHead(s, section, head), size) && WithHead(s, section, head).heads == s.heads[section := head]
  {
    assert (set k | k in s.heads && section < k < s.stored) == {};
    assert s.heads - {} == s.heads;
    ContiguousGrows(s.heads, size, section, head, path);
  }

  /** A new head announces sections; a reorganisation takes back what it reaches into and starts a removal there, or
      lowers the children's head at once. */
  ghost predicate HeadTold(c: Setup, n: Snapshot, n': Snapshot, head: nat, reorg: bool) {
    var ok :=
      if !reorg then Announces(c.size, c.confirms, head, n.known, n'.known) && n' == n.(known := n'.known)
      else
        && Reverts(c.size, head, n.known, n'.known) && Aims(c.size, head, n.world.s.stored, n'.world.reorg)
        && (n'.world.reorg.pc == Done ==> Cascades(c.size, head, n.cascaded, n'.cascaded))
        && n'.world.s == n.world.s && n'.world.reset == n.world.reset && n'.job == n.job;
    ok
  }

  lemma HeadTells(c: Setup, n: Snapshot, head: nat, reorg: bool)
    requires c.size > 0 && n.world.reorg.pc == Done
    ensures HeadTold(c, n, AfterHead(c, n, head, reorg), head, reorg)
  {
    HeadBounds(c.size, c.confirms, head, n.known, n.world.s.stored);
  }

  /** What a step does; one that cannot be taken does nothing. */
  function Next(c: Setup, n: Snapshot, step: Step): Snapshot
    requires c.size > 0
  {
    if !EnabledIn(c, n, step) then n else
      match step
      case Rewrite(_, _) => n
      case NewHead(head, reorg) => AfterHead(c, n, head, reorg)
      case Reorg =>
        var w := Turn(n.world, false);
        n.(world := w,
           cascaded := if w.reorg.pc == Done then Lower(w.reorg.target * c.size, n.cascaded) else n.cascaded)
      case Begin =>
        var before := Before(n.world.s.heads, n.world.s.stored);
        if n.known > n.world.s.stored then n.(job := Some(Job(n.world.s.stored, before, before, [], false))) else n
      case ResetFails => n.(world := n.world.(reset := Remover(0, Count)))
      case Reset =>
        var w := Turn(n.world, true);
        n.(world := w, job := Some(n.job.value.(failed := w.reset.pc == Done)))
      case Process(found, backendOk) => n.(job := Some(AfterHeader(n.job.value, found, backendOk)))
      case Finish(commitOk) => AfterSection(c, n, n.job.value, commitOk)
  }

  /** The snapshots before and after each of the steps. */
  ghost predicate History(c: Setup, snaps: seq<Snapshot>, steps: seq<Step>)
    requires c.size > 0
  {
    && |snaps| == |steps| + 1
    && forall i :: 0 <= i < |steps| ==> HistoryAt(c, snaps, steps, i)
  }

  ghost predicate HistoryAt(c: Setup, snaps: seq<Snapshot>, steps: seq<Step>, i: nat)
    requires c.size > 0
  {
    i < |steps| && i + 1 < |snaps| && snaps[i + 1] == Next(c, snaps[i], steps[i])
  }

  /** Step `first` begins an overlap from which some interleaving breaks the heads. */
  ghost predicate MeetsOverlap(snaps: seq<Snapshot>, first: nat, size: nat) {
    var ok :=
      && first + 1 < |snaps| && Exposes(snaps[first].world, snaps[first + 1].world)
      && Trapped(snaps[first + 1].world, size);
    ok
  }

  /** Somewhere along the way an overlap was exposed. */
  ghost predicate ExposedAlong(snaps: seq<Snapshot>) {
    exists i :: 0 <= i < |snaps| - 1 && Exposes(snaps[i].world, snaps[i + 1].world)
  }

  lemma AlongSnoc(snaps: seq<Snapshot>, n: Snapshot)
    requires snaps != []
    ensures ExposedAlong(snaps + [n]) <==> ExposedAlong(snaps) || Exposes(snaps[|snaps| - 1].world, n.world)
  {
    var snaps' := snaps + [n];
    if i :| 0 <= i < |snaps| - 1 && Exposes(snaps[i].world, snaps[i + 1].world) {
      assert Exposes(snaps'[i].world, snaps'[i + 1].world);
    }
    if Exposes(snaps[|snaps| - 1].world, n.world) {
      assert Exposes(snaps'[|snaps| - 1].world, snaps'[|snaps|].world);
    }
    if i :| 0 <= i < |snaps'| - 1 && Exposes(snaps'[i].world, snaps'[i + 1].world) {
      if i < |snaps| - 1 { assert Exposes(snaps[i].world, snaps[i + 1].world); }
    }
  }

  lemma HistorySnoc(c: Setup, snaps: seq<Snapshot>, steps: seq<Step>, k: nat, n: Snapshot)
    requires c.size > 0 && k < |steps| && |snaps| == k + 1 && n == Next(c, snaps[k], steps[k])
    requires forall i :: 0 <= i < k ==> HistoryAt(c, snaps, steps, i)
    ensures forall i :: 0 <= i < k + 1 ==> HistoryAt(c, snaps + [n], steps, i)
  {
    forall i | 0 <= i < k + 1 ensures HistoryAt(c, snaps + [n], steps, i) {
      if i < k { assert HistoryAt(c, snaps, steps, i); }
    }
  }

  predicate Reorganises(step: Step) { step.NewHead? && step.reorg }

  ghost predicate NoReset(steps: seq<Step>) { forall i :: 0 <= i < |steps| ==> !steps[i].ResetFails? }

  ghost predicate NoReorg(steps: seq<Step>) { forall i :: 0 <= i < |steps| ==> !Reorganises(steps[i]) }

  /** Without a failed reset, or without a reorganisation, no overlap is exposed. */
  lemma {:induction false} NeverExposed(c: Setup, snaps: seq<Snapshot>, steps: seq<Step>)
    requires c.size > 0 && History(c, snaps, steps) && Ended(snaps[0].world) && (NoReset(steps) || NoReorg(steps))
    ensures !ExposedAlong(snaps)
    ensures NoReset(steps) ==> snaps[|steps|].world.reset.pc == Done
    ensures NoReorg(steps) ==> snaps[|steps|].world.reorg.pc == Done
    decreases |steps|
  {
    if steps != [] {
      var k := |steps| - 1;
      var init, before := snaps[..|steps|], steps[..k];
      forall i | 0 <= i < k ensures HistoryAt(c, init, before, i) { assert HistoryAt(c, snaps, steps, i); }
      NeverExposed(c, init, before);
      assert HistoryAt(c, snaps, steps, k);
      AlongSnoc(init, snaps[|steps|]);
      assert init + [snaps[|steps|]] == snaps;
    }
  }

  // ---------- the canonical chain ----------

  /** The canonical chain in the database; the number from which on a reorganisation has replaced headers that the
      indexer has not been told of, if there is one; and the highest head it has been told of. */
  datatype View = View(chain: seq<Header>, limit: Option<nat>, top: nat)

  function HeaderAt(v: View, number: nat): Option<Header> {
    if number < |v.chain| then Some(v.chain[number]) else None
  }

  /** The `end` lowest headers are not affected by a reorganisation still to be told of. */
  predicate Covered(v: View, end: nat) { v.limit == None || end <= v.limit.value }

  /** What a step does to the view: once told of a reorganisation at or below every one that was still to be told of,
      the indexer is up to date. */
  function Shown(c: Setup, n: Snapshot, v: View, step: Step): View {
    if !EnabledIn(c, n, step) then v else
      match step
      case Rewrite(keep, more) =>
        if keep > |v.chain| then v
        else View(v.chain[..keep] + more,
                  if keep == |v.chain| || !Covered(v, keep) then v.limit else Some(keep), v.top)
      case NewHead(head, reorg) =>
        if reorg then v.(limit := if Covered(v, head + 1) then None else v.limit)
        else v.(top := if v.top < head then head else v.top)
      case _ => v
  }

  /** The headers of a section are read from the canonical chain. */
  predicate Reads(c: Setup, n: Snapshot, v: View, step: Step) {
    step.Process? && EnabledIn(c, n, step) ==>
      step.found == HeaderAt(v, n.job.value.section * c.size + |n.job.value.seen|)
  }

  /** `h` is the hash of the last header of section `section` on the canonical chain. */
  predicate OnChain(c: Setup, v: View, section: nat, h: Hash) {
    var end := (section + 1) * c.size;
    0 < end <= |v.chain| && v.chain[end - 1].hash == h
  }

  ghost predicate HeadFaithful(c: Setup, n: Snapshot, v: View, section: nat) {
    && section in n.world.s.heads && (n.world.reorg.pc != Done ==> section < n.world.reorg.target)
    && Covered(v, (section + 1) * c.size)
    ==> OnChain(c, v, section, n.world.s.heads[section])
  }

  /** All headers of the next section have been read, and it has not failed so far. */
  predicate Complete(c: Setup, n: Snapshot) {
    && n.job.Some? && !n.job.value.failed && |n.job.value.seen| == c.size && n.job.value.section == n.world.s.stored
    && n.world.reorg.pc == Done
  }

  predicate JobFaithful(c: Setup, n: Snapshot, v: View) {
    Complete(c, n) && Covered(v, (n.job.value.section + 1) * c.size) ==>
      OnChain(c, v, n.job.value.section, n.job.value.lastHead)
  }

  /** Every stored head that no reorganisation still has to remove is that of the canonical chain, and so is the one
      about to be stored. */
  ghost predicate Faithful(c: Setup, n: Snapshot, v: View) {
    && (n.world.reset.pc == Done ==> forall section :: HeadFaithful(c, n, v, section))
    && JobFaithful(c, n, v)
  }

  /** No overlap of removals has been exposed: the removals are sound, and a reorganisation reaches below the section
      under way. */
  ghost predicate Orderly(c: Setup, n: Snapshot) {
    var ok :=
      && c.size > 0 && Sound(n.world, c.size) && (n.job.Some? ==> JobOk(n.job.value, c.size, n.world.s))
      && (n.job.Some? && n.world.reorg.pc != Done ==> n.world.reorg.target < n.job.value.section)
      && (n.world.reset.pc != Done ==> n.job.Some? && n.job.value.seen == []);
    ok
  }

  /** The indexer is told of a reorganisation inside the very section whose headers it has just read, and they are no
      longer canonical. */
  predicate Slips(c: Setup, n: Snapshot, v: View, step: Step)
    requires c.size > 0
  {
    && step.NewHead? && step.reorg && EnabledIn(c, n, step) && Covered(v, step.head + 1) && Complete(c, n)
    && step.head / c.size == n.job.value.section && !OnChain(c, v, n.job.value.section, n.job.value.lastHead)
  }

  lemma RewriteFaithful(c: Setup, n: Snapshot, v: View, step: Step)
    requires Orderly(c, n) && Faithful(c, n, v) && step.Rewrite?
    ensures Faithful(c, n, Shown(c, n, v, step))
  {
    var v' := Shown(c, n, v, step);
    forall section | n.world.reset.pc == Done ensures HeadFaithful(c, n, v', section) {
      assert HeadFaithful(c, n, v, section);
    }
  }

  /** The heads that a reorganisation leaves are canonical. */
  lemma HeadsKept(c: Setup, n: Snapshot, v: View, step: Step, section: nat)
    requires Orderly(c, n) && HeadFaithful(c, n, v, section) && step.NewHead? && EnabledIn(c, n, step)
    requires n.world.reset.pc == Done
    ensures HeadFaithful(c, Next(c, n, step), Shown(c, n, v, step), section)
  {
    LiesBelow(c.size, step.head, step.head / c.size, section);
  }

  lemma JobToldHead(c: Setup, n: Snapshot, v: View, step: Step)
    requires Orderly(c, n) && JobFaithful(c, n, v) && step.NewHead? && !step.reorg && EnabledIn(c, n, step)
    ensures JobFaithful(c, Next(c, n, step), Shown(c, n, v, step))
  {
  }

  lemma JobKept(c: Setup, n: Snapshot, v: View, step: Step)
    requires Orderly(c, n) && JobFaithful(c, n, v) && step.NewHead? && EnabledIn(c, n, step)
    ensures JobFaithful(c, Next(c, n, step), Shown(c, n, v, step)) <==> !Slips(c, n, v, step)
  {
    if !step.reorg {
      JobToldHead(c, n, v, step);
    } else if Complete(c, n) {
      LiesBelow(c.size, step.head, step.head / c.size, n.job.value.section);
    }
  }

  /** Told of a reorganisation, the indexer stays right exactly unless that slips through. */
  lemma HeadFaithfulExactly(c: Setup, n: Snapshot, v: View, step: Step)
    requires Orderly(c, n) && Faithful(c, n, v) && step.NewHead? && EnabledIn(c, n, step)
    ensures Faithful(c, Next(c, n, step), Shown(c, n, v, step)) <==> !Slips(c, n, v, step)
  {
    var n', v' := Next(c, n, step), Shown(c, n, v, step);
    assert n'.world.reset == n.world.reset;
    forall section | n.world.reset.pc == Done ensures HeadFaithful(c, n', v', section) {
      assert HeadFaithful(c, n, v, section);
      HeadsKept(c, n, v, step, section);
    }
    JobKept(c, n, v, step);
  }

  lemma ReorgFaithful(c: Setup, n: Snapshot, v: View, step: Step)
    requires Orderly(c, n) && Faithful(c, n, v) && step.Reorg? && EnabledIn(c, n, step) && Orderly(c, Next(c, n, step))
    ensures Faithful(c, Next(c, n, step), v)
  {
    var n' := Next(c, n, step);
    forall section | n'.world.reset.pc == Done ensures HeadFaithful(c, n', v, section) {
      assert HeadFaithful(c, n, v, section);
    }
  }

  lemma ResetFaithful(c: Setup, n: Snapshot, v: View, step: Step)
    requires Orderly(c, n) && Faithful(c, n, v) && step.Reset? && EnabledIn(c, n, step) && Orderly(c, Next(c, n, step))
    ensures Faithful(c, Next(c, n, step), v)
  {
    var n' := Next(c, n, step);
    forall section | n'.world.reset.pc == Done ensures HeadFaithful(c, n', v, section) {
    }
  }

  lemma ProcessFaithful(c: Setup, n: Snapshot, v: View, step: Step)
    requires Orderly(c, n) && Faithful(c, n, v) && step.Process? && EnabledIn(c, n, step) && Reads(c, n, v, step)
    ensures Faithful(c, Next(c, n, step), v)
  {
    var n' := Next(c, n, step);
    forall section | n'.world.reset.pc == Done ensures HeadFaithful(c, n', v, section) {
      assert HeadFaithful(c, n, v, section);
    }
    assert (n.job.value.section + 1) * c.size == n.job.value.section * c.size + c.size;
  }

  lemma FinishFaithful(c: Setup, n: Snapshot, v: View, step: Step)
    requires Orderly(c, n) && Faithful(c, n, v) && step.Finish? && EnabledIn(c, n, step)
    ensures Faithful(c, Next(c, n, step), v)
  {
    var n' := Next(c, n, step);
    forall section | n'.world.reset.pc == Done ensures HeadFaithful(c, n', v, section) {
      assert HeadFaithful(c, n, v, section);
    }
  }

  /** Whatever the step, the indexer stays right unless a reorganisation slips through. */
  lemma NextFaithful(c: Setup, n: Snapshot, v: View, step: Step)
    requires Orderly(c, n) && Faithful(c, n, v) && Orderly(c, Next(c, n, step)) && Reads(c, n, v, step)
    ensures Faithful(c, Next(c, n, step), Shown(c, n, v, step)) <==> !Slips(c, n, v, step)
  {
    if EnabledIn(c, n, step) {
      match step
      case Rewrite(_, _) => RewriteFaithful(c, n, v, step);
      case NewHead(_, _) => HeadFaithfulExactly(c, n, v, step);
      case Reorg => ReorgFaithful(c, n, v, step);
      case Begin =>
        forall section ensures HeadFaithful(c, n, v, section) ==> HeadFaithful(c, Next(c, n, step), v, section) {}
      case ResetFails =>
      case Reset => ResetFaithful(c, n, v, step);
      case Process(_, _) => ProcessFaithful(c, n, v, step);
      case Finish(_) => FinishFaithful(c, n, v, step);
    }
  }

  /** The views before and after each of the steps. */
  ghost predicate ShownAt(c: Setup, snaps: seq<Snapshot>, views: seq<View>, steps: seq<Step>, i: nat) {
    i < |steps| && i < |snaps| && i + 1 < |views| && views[i + 1] == Shown(c, snaps[i], views[i], steps[i])
  }

  ghost predicate ReadsAt(c: Setup, snaps: seq<Snapshot>, views: seq<View>, steps: seq<Step>, i: nat) {
    i < |steps| && i < |snaps| && i < |views| && Reads(c, snaps[i], views[i], steps[i])
  }

  ghost predicate SlipsAt(c: Setup, snaps: seq<Snapshot>, views: seq<View>, steps: seq<Step>, i: nat)
    requires c.size > 0
  {
    i < |steps| && i < |snaps| && i < |views| && Slips(c, snaps[i], views[i], steps[i])
  }

  ghost predicate OrderlyAlong(c: Setup, snaps: seq<Snapshot>) {
    forall i :: 0 <= i < |snaps| ==> Orderly(c, snaps[i])
  }

  /** A run of the indexer against a chain database that changes all the while. */
  ghost predicate Watched(c: Setup, snaps: seq<Snapshot>, views: seq<View>, steps: seq<Step>)
    requires c.size > 0
  {
    && History(c, snaps, steps) && |views| == |snaps| && OrderlyAlong(c, snaps)
    && forall i :: 0 <= i < |steps| ==> ShownAt(c, snaps, views, steps, i) && ReadsAt(c, snaps, views, steps, i)
  }

  /** Over any run in which none slips through the indexer stays right. */
  lemma {:induction false} FaithfulRun(c: Setup, snaps: seq<Snapshot>, views: seq<View>, steps: seq<Step>, k: nat)
    requires c.size > 0 && Watched(c, snaps, views, steps) && Faithful(c, snaps[0], views[0]) && k <= |steps|
    requires forall i :: 0 <= i < k ==> !SlipsAt(c, snaps, views, steps, i)
    ensures Faithful(c, snaps[k], views[k])
  {
    if k > 0 {
      FaithfulRun(c, snaps, views, steps, k - 1);
      assert HistoryAt(c, snaps, steps, k - 1) && ShownAt(c, snaps, views, steps, k - 1);
      assert ReadsAt(c, snaps, views, steps, k - 1) && !SlipsAt(c, snaps, views, steps, k - 1);
      NextFaithful(c, snaps[k - 1], views[k - 1], steps[k - 1]);
    }
  }

  /** With no removal under way and no reorganisation still to be told of, every stored head is the hash of the last
      header of its section on the canonical chain. */
  ghost predicate Canonical(c: Setup, n: Snapshot, v: View) {
    forall section :: 0 <= section < n.world.s.stored ==>
      section in n.world.s.heads && OnChain(c, v, section, n.world.s.heads[section])
  }

  lemma FaithfulCanonical(c: Setup, n: Snapshot, v: View)
    requires Orderly(c, n) && Faithful(c, n, v) && Ended(n.world) && v.limit == None
    ensures Canonical(c, n, v)
  {
    forall section | 0 <= section < n.world.s.stored
      ensures section in n.world.s.heads && OnChain(c, v, section, n.world.s.heads[section])
    {
      assert HeadFaithful(c, n, v, section);
    }
  }

  /** What slips through is stored by the next step of the update loop, with nothing left to tell the indexer of it. */
  lemma SlipStores(c: Setup, n: Snapshot, v: View, step: Step)
    requires Orderly(c, n) && Slips(c, n, v, step)
    ensures var n' := Next(c, Next(c, n, step), Finish(true));
      var v' := Shown(c, n, v, step);
      Ended(n'.world) && v'.limit == None && v'.chain == v.chain && !Canonical(c, n', v')
  {
    var n1 := Next(c, n, step);
    var section := n.job.value.section;
    assert n1.world == n.world && n1.job == n.job;
    var n' := Next(c, n1, Finish(true));
    assert section < n'.world.s.stored && n'.world.s.heads[section] == n.job.value.lastHead;
  }

  /** Sections of two headers and no confirmations: header 1 is replaced by `other` once both have been read. The
      indexer is told, and then stores the head of the old header. */
  lemma SlipsThrough(h0: Header, h1: Header, other: Header)
    requires h0 == Header(0, h0.hash, Zero) && h1 == Header(1, h1.hash, h0.hash)
    requires other == Header(1, other.hash, h0.hash)
    requires h0.hash != Zero && h1.hash != Zero && other.hash != h1.hash
    ensures var c := Setup(2, 0);
      var n := Snapshot(World(Store(map[], 0, 0, false), Idle, Idle), 0, 0, None);
      var v := View([h0, h1], None, 0);
      var read := Next(c, Next(c, Next(c, Next(c, n, NewHead(1, false)), Begin), Process(Some(h0), true)),
                       Process(Some(h1), true));
      var told := Next(c, read, NewHead(0, true));
      var v' := Shown(c, read, Shown(c, n, v, Rewrite(1, [other])), NewHead(0, true));
      var n' := Next(c, told, Finish(true));
      v' == View([h0, other], None, 0) && n'.world.s.stored == 1 && Ended(n'.world) && !Canonical(c, n', v')
  {
    var c := Setup(2, 0);
    var n := Snapshot(World(Store(map[], 0, 0, false), Idle, Idle), 0, 0, None);
    var n1 := Next(c, n, NewHead(1, false));
    assert n1 == n.(known := 1);
    var n2 := Next(c, n1, Begin);
    assert n2 == n1.(job := Some(Job(0, Zero, Zero, [], false)));
    var n3 := Next(c, n2, Process(Some(h0), true));
    assert [] + [h0] == [h0] && [h0] + [h1] == [h0, h1];
    assert n3 == n1.(job := Some(Job(0, Zero, h0.hash, [h0], false)));
    var read := Next(c, n3, Process(Some(h1), true));
    assert read == n1.(job := Some(Job(0, Zero, h1.hash, [h0, h1], false)));
    assert [h0, h1][..1] + [other] == [h0, other];
    var told := Next(c, read, NewHead(0, true));
    assert told == read.(known := 0);
    var n' := Next(c, told, Finish(true));
    assert n'.world.s.heads[0] == h1.hash;
  }

  // ---------- confirmations ----------

  /** No reorganisation replaces a header with more than the required confirmations. */
  predicate Shallow(c: Setup, n: Snapshot, v: View, step: Step) {
    step.NewHead? && step.reorg && EnabledIn(c, n, step) ==> v.top <= step.head + c.confirms
  }

  /** What is known and what is under way has the required confirmations. */
  predicate Confirmed(c: Setup, n: Snapshot, v: View) {
    && (n.known == 0 || n.known * c.size + c.confirms <= v.top + 1)
    && (n.job.Some? ==> (n.job.value.section + 1) * c.size + c.confirms <= v.top + 1)
  }

  /** What is announced is confirmed, and what a reorganisation leaves was. */
  lemma KnownConfirmed(c: Setup, n: Snapshot, head: nat, reorg: bool, top: nat)
    requires c.size > 0 && (n.known == 0 || n.known * c.size + c.confirms <= top + 1)
    ensures var known := AfterHead(c, n, head, reorg).known;
      var top' := if !reorg && top < head then head else top;
      known == 0 || known * c.size + c.confirms <= top' + 1
  {
    if reorg {
      if head / c.size < n.known { TimesGrows(c.size, head / c.size, n.known); }
    } else if head >= c.confirms {
      Reaches(c.size, head + 1 - c.confirms);
    }
  }

  lemma HeadConfirmed(c: Setup, n: Snapshot, v: View, step: Step)
    requires Orderly(c, n) && Confirmed(c, n, v) && step.NewHead? && EnabledIn(c, n, step)
    ensures Confirmed(c, Next(c, n, step), Shown(c, n, v, step))
  {
    KnownConfirmed(c, n, step.head, step.reorg, v.top);
  }

  lemma BeginConfirmed(c: Setup, n: Snapshot, v: View)
    requires Orderly(c, n) && Confirmed(c, n, v) && EnabledIn(c, n, Begin)
    ensures Confirmed(c, Next(c, n, Begin), v)
  {
    if n.world.s.stored < n.known { TimesGrows(c.size, n.world.s.stored, n.known); }
  }

  lemma FinishConfirmed(c: Setup, n: Snapshot, v: View, step: Step)
    requires Orderly(c, n) && Confirmed(c, n, v) && step.Finish? && EnabledIn(c, n, step)
    ensures Confirmed(c, Next(c, n, step), v)
  {
    TimesGrows(c.size, n.world.s.stored, n.job.value.section);
    TimesGrows(c.size, n.job.value.section, n.job.value.section + 1);
  }

  lemma NextConfirmed(c: Setup, n: Snapshot, v: View, step: Step)
    requires Orderly(c, n) && Confirmed(c, n, v)
    ensures Confirmed(c, Next(c, n, step), Shown(c, n, v, step))
  {
    if EnabledIn(c, n, step) {
      if step.NewHead? { HeadConfirmed(c, n, v, step); }
      if step.Begin? { BeginConfirmed(c, n, v); }
      if step.Finish? { FinishConfirmed(c, n, v, step); }
    }
  }

  /** A reorganisation that is not too deep never slips through. */
  lemma ShallowKeeps(c: Setup, n: Snapshot, v: View, step: Step)
    requires Orderly(c, n) && Faithful(c, n, v) && Confirmed(c, n, v) && Shallow(c, n, v, step)
    ensures !Slips(c, n, v, step)
  {
    if step.NewHead? { Reaches(c.size, step.head); }
  }

  ghost predicate ShallowAt(c: Setup, snaps: seq<Snapshot>, views: seq<View>, steps: seq<Step>, i: nat) {
    i < |steps| && i < |snaps| && i < |views| && Shallow(c, snaps[i], views[i], steps[i])
  }

  /** Over any run in which no reorganisation replaces a header with more than the required confirmations, the indexer
      stays right. */
  lemma {:induction false} ShallowRun(c: Setup, snaps: seq<Snapshot>, views: seq<View>, steps: seq<Step>, k: nat)
    requires c.size > 0 && Watched(c, snaps, views, steps) && k <= |steps|
    requires Faithful(c, snaps[0], views[0]) && Confirmed(c, snaps[0], views[0])
    requires forall i :: 0 <= i < k ==> ShallowAt(c, snaps, views, steps, i)
    ensures Faithful(c, snaps[k], views[k]) && Confirmed(c, snaps[k], views[k])
  {
    if k > 0 {
      ShallowRun(c, snaps, views, steps, k - 1);
      assert HistoryAt(c, snaps, steps, k - 1) && ShownAt(c, snaps, views, steps, k - 1);
      assert ReadsAt(c, snaps, views, steps, k - 1) && ShallowAt(c, snaps, views, steps, k - 1);
      ShallowKeeps(c, snaps[k - 1], views[k - 1], steps[k - 1]);
      NextFaithful(c, snaps[k - 1], views[k - 1], steps[k - 1]);
      NextConfirmed(c, snaps[k - 1], views[k - 1], steps[k - 1]);
    }
  }

  class Indexer {
    const sectionSize: nat
    const confirmsReq: nat
    /** Stored heads, storedSections and the number in the database. */
    var store: Store
    var knownSections: nat
    var cascadedHead: int
    var job: Option<Job>
    /** The removal after a failed reset, without the lock, and that of a reorganisation, which holds the lock. */
    var reset: Remover
    var reorg: Remover
    /** The two have overlapped in a way that some interleaving does not survive. */
    ghost var exposed: bool

    ghost predicate Valid()
      reads this
    {
      && sectionSize > 0 && reset.target == 0
      && (reset.pc != Done ==> job.Some? && !job.value.failed && job.value.seen == [])
      && (!exposed ==>
           && Sound(Removals(), sectionSize)
           && (job.Some? ==> JobOk(job.value, sectionSize, store))
           && (job.Some? && reorg.pc != Done ==> reorg.target < job.value.section))
    }

    function Removals(): World
      reads this
    {
      World(store, reset, reorg)
    }

    function Sizes(): Setup
      reads this
    {
      Setup(sectionSize, confirmsReq)
    }

    function Snap(): Snapshot
      reads this
    {
      Snapshot(Removals(), knownSections, cascadedHead, job)
    }

    /** No removal is under way and none has been exposed: the heads are contiguous. */
    ghost predicate Settled()
      reads this
    {
      !exposed && reset.pc == Done && reorg.pc == Done
    }

    /** Starts from what the index database holds. */
    constructor (sectionSize: nat, confirmsReq: nat, heads: Heads, stored: nat)
      requires sectionSize > 0 && Contiguous(heads, sectionSize, stored)
      ensures Valid() && Settled() && store == Store(heads, stored, stored, false) && job == None && knownSections == 0
      ensures this.sectionSize == sectionSize && this.confirmsReq == confirmsReq
    {
      this.sectionSize, this.confirmsReq := sectionSize, confirmsReq;
      store, knownSections, cascadedHead, job := Store(heads, stored, stored, false), 0, 0, None;
      reset, reorg, exposed := Idle, Idle, false;
    }

    /** newHead, with the lock. */
    method NewHeadEvent(head: nat, reorganised: bool)
      requires Valid() && reorg.pc == Done
      modifies this`knownSections, this`cascadedHead, this`reorg, this`exposed
      ensures Valid() && Snap() == AfterHead(Sizes(), old(Snap()), head, reorganised)
      ensures exposed <==> old(exposed) || Exposes(old(Removals()), Removals())
      ensures exposed && !old(exposed) ==> Trapped(Removals(), sectionSize)
      ensures HeadTold(Sizes(), old(Snap()), Snap(), head, reorganised)
    {
      HeadTells(Sizes(), Snap(), head, reorganised);
      if !reorganised {
        if head >= confirmsReq {
          var sections := (head + 1 - confirmsReq) / sectionSize;
          if sections > knownSections { knownSections := sections; }
        }
        return;
      }
      var known := head / sectionSize;
      if known < knownSections { knownSections := known; }
      if known < store.stored {
        reorg := Remover(known, Count);
        if reset.pc != Done && !exposed {
          OverlapExact(Removals(), sectionSize);
          exposed := true;
        }
      } else if known * sectionSize < cascadedHead {
        cascadedHead := known * sectionSize;
      }
    }

    /** One step of the removal of a reorganisation; at its end the children's head is lowered and the lock released. */
    method ReorgStep()
      requires Valid() && reorg.pc != Done
      modifies this`store, this`reorg, this`cascadedHead
      ensures Valid() && Removals() == Turn(old(Removals()), false)
      ensures cascadedHead ==
        if reorg.pc == Done then Lower(reorg.target * sectionSize, old(cascadedHead)) else old(cascadedHead)
    {
      if !exposed { TurnSound(Removals(), sectionSize, false); }
      var (s, r) := Move(store, reorg);
      store, reorg := s, r;
      if reorg.pc == Done && reorg.target * sectionSize < cascadedHead { cascadedHead := reorg.target * sectionSize; }
    }

    /** The update loop takes up the next section and releases the lock. */
    method BeginSection()
      requires Valid() && job == None && reorg.pc == Done
      modifies this`job
      ensures Valid()
      ensures job.Some? <==> knownSections > store.stored
      ensures job.Some? ==>
        var before := Before(store.heads, store.stored); job.value == Job(store.stored, before, before, [], false)
    {
      if knownSections > store.stored {
        if !exposed && store.stored > 0 { assert Joined(store.heads, sectionSize, store.stored - 1); }
        var before := Before(store.heads, store.stored);
        job := Some(Job(store.stored, before, before, [], false));
      }
    }

    /** The backend cannot be reset: everything stored starts to be discarded, without the lock. */
    method ResetFailure()
      requires Valid() && job.Some? && job.value.seen == [] && !job.value.failed && reset.pc == Done
      modifies this`reset, this`exposed
      ensures Valid() && reset == Remover(0, Count)
      ensures exposed <==> old(exposed) || Exposes(old(Removals()), Removals())
      ensures exposed && !old(exposed) ==> Trapped(Removals(), sectionSize)
    {
      reset := Remover(0, Count);
      if reorg.pc != Done && !exposed {
        OverlapExact(Removals(), sectionSize);
        exposed := !Harmless(Removals());
      }
    }

    /** One step of the removal after a failed reset; at its end the section has failed. */
    method ResetStep()
      requires Valid() && reset.pc != Done
      modifies this`store, this`reset, this`job
      ensures Valid() && Removals() == Turn(old(Removals()), true)
      ensures job == Some(old(job.value).(failed := reset.pc == Done))
    {
      if !exposed { TurnSound(Removals(), sectionSize, true); }
      var (s, r) := Move(store, reset);
      store, reset := s, r;
      job := Some(job.value.(failed := reset.pc == Done));
    }

    /** The next header of the section, as the chain database has it at that moment. */
    method ProcessHeader(found: Option<Header>, backendOk: bool)
      requires Valid() && job.Some? && !job.value.failed && |job.value.seen| < sectionSize && reset.pc == Done
      requires found.Some? ==>
        && found.value.number == job.value.section * sectionSize + |job.value.seen| && found.value.hash != Zero
      modifies this`job
      ensures Valid() && job == Some(AfterHeader(old(job.value), found, backendOk))
    {
      var j := job.value;
      if found == None || found.value.parent != j.lastHead || !backendOk {
        job := Some(j.(failed := true));
        return;
      }
      if !exposed { PathSnoc(j.oldHead, j.section * sectionSize, j.seen, j.lastHead, found.value); }
      job := Some(j.(lastHead := found.value.hash, seen := j.seen + [found.value]));
    }

    /** Under the lock again: the section is stored if nothing failed and the head before it is unchanged, and then it
        is the next section. */
    method FinishSection(commitOk: bool) returns (done: bool)
      requires Valid() && job.Some? && (job.value.failed || |job.value.seen| == sectionSize)
      requires reset.pc == Done && reorg.pc == Done
      modifies this`store, this`knownSections, this`cascadedHead, this`job
      ensures Valid() && Snap() == AfterSection(Sizes(), old(Snap()), old(job.value), commitOk)
      ensures done <==>
        !old(job.value.failed) && commitOk && old(job.value.oldHead == Before(store.heads, job.value.section))
      ensures job == None && (!done ==> store == old(store) && knownSections == store.stored)
      ensures done && !exposed ==>
        && old(store.stored == job.value.section && job.value.section !in store.heads)
        && store.heads == old(store.heads[store.stored := job.value.lastHead])
        && store.count == store.stored == old(store.stored) + 1 && cascadedHead == store.stored * sectionSize - 1
    {
      var j := job.value;
      done := !j.failed && commitOk && j.oldHead == Before(store.heads, j.section);
      if done {
        if !exposed { WithHeadGrows(store, sectionSize, j.section, j.lastHead, j.seen); }
        store := WithHead(store, j.section, j.lastHead);
        cascadedHead := store.stored * sectionSize - 1;
      } else {
        knownSections := store.stored;
      }
      job := None;
    }

    /** Every interleaving of the steps, skipping those that cannot be taken. The heads are contiguous whenever no
        removal is under way, unless somewhere along the way the two removals began to overlap with sections still
        counted or to be kept; and from there some interleaving breaks them. Without a failed reset that never
        happens. */
    method Run(steps: seq<Step>) returns (ghost snaps: seq<Snapshot>, ghost first: nat)
      requires Valid()
      modifies this
      ensures Valid() && History(Sizes(), snaps, steps) && snaps[0] == old(Snap()) && snaps[|steps|] == Snap()
      ensures exposed <==> old(exposed) || ExposedAlong(snaps)
      ensures exposed && !old(exposed) ==> MeetsOverlap(snaps, first, sectionSize)
      ensures !exposed ==> OrderlyAlong(Sizes(), snaps)
      ensures Settled() ==> Contiguous(store.heads, sectionSize, store.stored) && store.count == store.stored
      ensures old(Settled()) && NoReset(steps) ==> !exposed && reset.pc == Done
      ensures old(Settled()) && NoReorg(steps) ==> !exposed && reorg.pc == Done
    {
      snaps, first := [Snap()], 0;
      for i := 0 to |steps|
        invariant Valid() && |snaps| == i + 1 && snaps[0] == old(Snap()) && snaps[i] == Snap()
        invariant forall j :: 0 <= j < i ==> HistoryAt(Sizes(), snaps, steps, j)
        invariant exposed <==> old(exposed) || ExposedAlong(snaps)
        invariant !exposed ==> OrderlyAlong(Sizes(), snaps)
        invariant exposed && !old(exposed) ==> MeetsOverlap(snaps, first, sectionSize)
      {
        ghost var before, was := snaps, exposed;
        if EnabledIn(Sizes(), Snap(), steps[i]) { Do(steps[i]); }
        snaps := snaps + [Snap()];
        if exposed && !was { first := i; }
        AlongSnoc(before, Snap());
        HistorySnoc(Sizes(), before, steps, i, Snap());
      }
      if old(Settled()) && (NoReset(steps) || NoReorg(steps)) { NeverExposed(Sizes(), snaps, steps); }
    }

    /** One step that can be taken. */
    method Do(step: Step)
      requires Valid() && EnabledIn(Sizes(), Snap(), step)
      modifies this
      ensures Valid() && Snap() == Next(Sizes(), old(Snap()), step)
      ensures exposed <==> old(exposed) || Exposes(old(Removals()), Removals())
      ensures exposed && !old(exposed) ==> Trapped(Removals(), sectionSize)
    {
      match step
      case Rewrite(_, _) =>
      case NewHead(head, reorganised) => NewHeadEvent(head, reorganised);
      case Reorg => ReorgStep();
      case Begin => BeginSection();
      case ResetFails => ResetFailure();
      case Reset => ResetStep();
      case Process(found, ok) => ProcessHeader(found, ok);
      case Finish(ok) => var done := FinishSection(ok);
    }

    /** Sections: the stored heads are on one chain from genesis, one for every `sectionSize` headers. */
    lemma HeadsOnOneChain(section: nat) returns (path: seq<Header>)
      requires Valid() && Settled() && section < store.stored
      ensures |path| == (section + 1) * sectionSize && section in store.heads
      ensures Path(Zero, 0, path, store.heads[section])
    {
      path := WholePath(store.heads, sectionSize, store.stored, section);
    }
  }
}
