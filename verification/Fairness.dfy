/** The allowance arithmetic behind the spam equalisation of core/tx_pool.go: capping every remote account
    at one common level, as water fills a vessel. */
module Fairness {
  import opened Transactions

  type Lengths = map<Address, nat>

  /** One unit per transaction: the pairs of an account and a position in its list. */
  ghost function Units(m: Lengths): set<(Address, nat)> {
    set a, i | a in m && 0 <= i < m[a] :: (a, i)
  }

  ghost function Sum(m: Lengths): nat { |Units(m)| }

  ghost function Column(a: Address, k: nat): set<(Address, nat)> {
    set i | 0 <= i < k :: (a, i)
  }

  lemma {:induction false} ColumnSize(a: Address, k: nat)
    ensures |Column(a, k)| == k
  {
    if k > 0 {
      ColumnSize(a, k - 1);
      assert Column(a, k) == Column(a, k - 1) + {(a, k - 1)};
    }
  }

  lemma SumSplit(m: Lengths, a: Address)
    requires a in m
    ensures Sum(m) == m[a] + Sum(m - {a})
  {
    ColumnSize(a, m[a]);
    assert Units(m) == Units(m - {a}) + Column(a, m[a]);
    assert Units(m - {a}) !! Column(a, m[a]);
  }

  lemma SumUpdate(m: Lengths, a: Address, v: nat)
    requires a in m
    ensures Sum(m[a := v]) + m[a] == Sum(m) + v
  {
    SumSplit(m, a);
    SumSplit(m[a := v], a);
    assert m[a := v] - {a} == m - {a};
  }

  lemma SumMonotone(m: Lengths, k: Lengths)
    requires forall a :: a in m ==> a in k && m[a] <= k[a]
    ensures Sum(m) <= Sum(k)
  {
    assert Units(m) <= Units(k);
    assert Units(k) == Units(m) + (Units(k) - Units(m));
  }

  lemma MemberBelowSum(m: Lengths, a: Address)
    requires a in m
    ensures m[a] <= Sum(m)
  {
    SumSplit(m, a);
  }

  /** Every remote account capped at `level`. */
  ghost function Level(m: Lengths, locals: set<Address>, level: nat): Lengths {
    map a | a in m :: if a in locals || m[a] <= level then m[a] else level
  }

  /** The outcome the equaliser owes: one level at or above the guaranteed slots, which meets the limit or
      is the guarantee itself, and one step higher would not have met the limit. */
  ghost predicate Fair(was: Lengths, now: Lengths, locals: set<Address>, slots: nat, limit: nat, level: nat) {
    && level >= slots
    && now == Level(was, locals, level)
    && (Sum(now) <= limit || level == slots)
    && (now != was ==> Sum(Level(was, locals, level + 1)) > limit)
  }

  lemma LevelMonotone(m: Lengths, locals: set<Address>, low: nat, high: nat)
    requires low <= high
    ensures Sum(Level(m, locals, low)) <= Sum(Level(m, locals, high))
  {
    SumMonotone(Level(m, locals, low), Level(m, locals, high));
  }

  /** No higher level would have met the limit. */
  lemma FairIsLargest(was: Lengths, now: Lengths, locals: set<Address>, slots: nat, limit: nat, level: nat, higher: nat)
    requires Fair(was, now, locals, slots, limit, level) && now != was && level < higher
    ensures Sum(Level(was, locals, higher)) > limit
  {
    LevelMonotone(was, locals, level + 1, higher);
  }

  /** The outcome is unique: it cannot depend on the order in which equal offenders are met. */
  lemma FairIsUnique(was: Lengths, x: Lengths, y: Lengths, locals: set<Address>, slots: nat, limit: nat, i: nat, j: nat)
    requires Fair(was, x, locals, slots, limit, i) && Fair(was, y, locals, slots, limit, j)
    ensures x == y
  {
    if i < j { FairOrdered(was, x, y, locals, slots, limit, i, j); }
    if j < i { FairOrdered(was, y, x, locals, slots, limit, j, i); }
  }

  lemma FairOrdered(was: Lengths, x: Lengths, y: Lengths, locals: set<Address>, slots: nat, limit: nat, i: nat, j: nat)
    requires Fair(was, x, locals, slots, limit, i) && Fair(was, y, locals, slots, limit, j) && i < j
    ensures x == y
  {
    if x != was {
      FairIsLargest(was, x, locals, slots, limit, i, j);
      assert false;
    }
    forall a | a in was ensures y[a] == was[a] { assert x[a] == was[a]; }
  }

  // ---------- one pass ----------

  ghost function Decremented(m: Lengths, who: set<Address>): Lengths {
    map a | a in m :: if a in who && m[a] > 0 then m[a] - 1 else m[a]
  }

  lemma {:induction false} DecrementedSum(m: Lengths, who: set<Address>)
    requires forall a :: a in who ==> a in m && m[a] > 0
    ensures Sum(m) == Sum(Decremented(m, who)) + |who|
    decreases who
  {
    if who == {} {
      assert Decremented(m, who) == m;
    } else {
      var a :| a in who;
      var rest := who - {a};
      DecrementedSum(m, rest);
      SumUpdate(Decremented(m, rest), a, m[a] - 1);
      assert Decremented(m, who) == Decremented(m, rest)[a := m[a] - 1];
    }
  }

  /** Lowering exactly the accounts at or above the level lowers the level by one. */
  lemma LevelDown(m: Lengths, locals: set<Address>, level: nat, who: set<Address>)
    requires level > 0 && forall a :: a in who <==> a in m && a !in locals && m[a] >= level
    ensures Decremented(Level(m, locals, level), who) == Level(m, locals, level - 1)
    ensures Sum(Level(m, locals, level)) == Sum(Level(m, locals, level - 1)) + |who|
  {
    DecrementedSum(Level(m, locals, level), who);
    assert Decremented(Level(m, locals, level), who) == Level(m, locals, level - 1);
  }

  // ---------- lists of offenders ----------

  /** `s` names the members of `who`, once each. */
  ghost predicate Enumerates(s: seq<Address>, who: set<Address>) {
    && |s| == |who|
    && (forall i :: 0 <= i < |s| ==> s[i] in who)
    && (forall i, j :: 0 <= i < j < |s| ==> s[i] != s[j])
  }

  lemma EnumeratesMore(s: seq<Address>, who: set<Address>, a: Address)
    requires Enumerates(s, who) && a !in who
    ensures Enumerates(s + [a], who + {a})
  {
  }

  /** The accounts of `s` can give up one transaction each, in turn, and keep at least one. */
  ghost predicate Lowerable(m: Lengths, s: seq<Address>) {
    s == [] || (s[0] in m && m[s[0]] >= 2 && Lowerable(m[s[0] := m[s[0]] - 1], s[1..]))
  }

  /** The lengths after they have. */
  ghost function After(m: Lengths, s: seq<Address>): Lengths
    requires Lowerable(m, s)
  {
    if s == [] then m else After(m[s[0] := m[s[0]] - 1], s[1..])
  }

  lemma {:induction false} AfterIsDecremented(m: Lengths, s: seq<Address>, who: set<Address>)
    requires Enumerates(s, who) && forall a :: a in who ==> a in m && m[a] >= 2
    ensures Lowerable(m, s) && After(m, s) == Decremented(m, who)
    decreases |s|
  {
    if s == [] {
      assert Decremented(m, who) == m;
    } else {
      var m' := m[s[0] := m[s[0]] - 1];
      EnumeratesRest(s, who);
      AfterIsDecremented(m', s[1..], who - {s[0]});
      assert Decremented(m', who - {s[0]}) == Decremented(m, who);
    }
  }

  lemma EnumeratesRest(s: seq<Address>, who: set<Address>)
    requires Enumerates(s, who) && s != []
    ensures Enumerates(s[1..], who - {s[0]})
  {
  }

  // ---------- the order in which offenders are met ----------

  /** The accounts the equaliser may touch. */
  ghost predicate Spam(m: Lengths, locals: set<Address>, slots: nat, a: Address) {
    a in m && a !in locals && m[a] > slots
  }

  ghost predicate MeetAt(m: Lengths, locals: set<Address>, slots: nat, met: set<Address>, spammers: set<Address>,
                         floor: nat, a: Address) {
    && (a in met || a in spammers <==> Spam(m, locals, slots, a))
    && (a in met ==> a !in spammers && floor <= m[a])
    && (a in spammers && met != {} ==> m[a] <= floor)
  }

  /** Offenders met so far, biggest first, the smallest of them of length `floor`, and the spammers still
      waiting; `level` is the cap so far. */
  ghost predicate Meeting(m: Lengths, locals: set<Address>, slots: nat, limit: nat,
                          met: set<Address>, spammers: set<Address>, floor: nat, level: nat, count: nat)
  {
    var ok :=
      && level > slots
      && (forall a :: MeetAt(m, locals, slots, met, spammers, floor, a))
      && (met != {} ==> floor <= level && (count > limit ==> level == floor))
      && (met == {} ==> Level(m, locals, level) == m)
      && count == Sum(Level(m, locals, level))
      && (Level(m, locals, level) != m ==> Sum(Level(m, locals, level + 1)) > limit);
    ok
  }

  lemma MeetingStart(m: Lengths, locals: set<Address>, slots: nat, limit: nat, spammers: set<Address>)
    returns (level: nat)
    requires forall a :: a in spammers <==> Spam(m, locals, slots, a)
    ensures Level(m, locals, level) == m && Meeting(m, locals, slots, limit, {}, spammers, 0, level, Sum(m))
  {
    level := Sum(m) + slots + 1;
    forall a | a in m ensures m[a] <= Sum(m) { MemberBelowSum(m, a); }
    assert Level(m, locals, level) == m;
  }

  ghost predicate LowerAt(m: Lengths, locals: set<Address>, slots: nat,
                          met: set<Address>, next: Address, spammers: set<Address>, level: nat, a: Address)
    requires next in m
  {
    && (a in met || a == next || a in spammers <==> Spam(m, locals, slots, a))
    && (a in met ==> a !in spammers && a != next && level <= m[a])
    && (a in spammers ==> a != next && m[a] <= m[next])
  }

  /** While the offenders met are being lowered towards the next one. */
  ghost predicate Lowering(m: Lengths, locals: set<Address>, slots: nat, limit: nat,
                           met: set<Address>, next: Address, spammers: set<Address>, level: nat, count: nat)
  {
    var ok :=
      && met != {} && next in m && next !in locals && slots < m[next] <= level
      && (forall a :: LowerAt(m, locals, slots, met, next, spammers, level, a))
      && count == Sum(Level(m, locals, level))
      && (Level(m, locals, level) != m ==> Sum(Level(m, locals, level + 1)) > limit);
    ok
  }

  /** Meeting the first offender: nothing to lower yet. */
  lemma MeetFirst(m: Lengths, locals: set<Address>, slots: nat, limit: nat, spammers: set<Address>, floor: nat,
                  level: nat, count: nat, next: Address)
    requires Meeting(m, locals, slots, limit, {}, spammers, floor, level, count)
    requires next in spammers && next in m && forall a :: a in spammers ==> a in m && m[a] <= m[next]
    ensures Level(m, locals, level) == Level(m, locals, m[next])
    ensures Meeting(m, locals, slots, limit, {next}, spammers - {next}, m[next], m[next], count)
  {
    forall a | a in m && a !in locals ensures m[a] <= m[next] {
      assert MeetAt(m, locals, slots, {}, spammers, floor, a);
    }
    assert Level(m, locals, m[next]) == m;
    assert MeetAt(m, locals, slots, {}, spammers, floor, next);
    var rest := spammers - {next};
    forall a ensures MeetAt(m, locals, slots, {next}, rest, m[next], a) {
      assert MeetAt(m, locals, slots, {}, spammers, floor, a);
    }
  }

  lemma MeetNext(m: Lengths, locals: set<Address>, slots: nat, limit: nat,
                 met: set<Address>, spammers: set<Address>, floor: nat, level: nat, count: nat, next: Address)
    requires Meeting(m, locals, slots, limit, met, spammers, floor, level, count) && met != {} && count > limit
    requires next in spammers && next in m && forall a :: a in spammers ==> a in m && m[a] <= m[next]
    ensures Lowering(m, locals, slots, limit, met, next, spammers - {next}, level, count)
  {
    assert MeetAt(m, locals, slots, met, spammers, floor, next);
    var rest := spammers - {next};
    forall a ensures LowerAt(m, locals, slots, met, next, rest, level, a) {
      assert MeetAt(m, locals, slots, met, spammers, floor, a);
    }
  }

  /** One pass over the offenders above the next one. */
  lemma LowerOnce(m: Lengths, locals: set<Address>, slots: nat, limit: nat,
                  met: set<Address>, next: Address, spammers: set<Address>, level: nat, count: nat)
    requires Lowering(m, locals, slots, limit, met, next, spammers, level, count) && count > limit && level > m[next]
    ensures Decremented(Level(m, locals, level), met) == Level(m, locals, level - 1)
    ensures count >= |met| && Lowering(m, locals, slots, limit, met, next, spammers, level - 1, count - |met|)
  {
    forall a ensures a in met <==> a in m && a !in locals && m[a] >= level {
      assert LowerAt(m, locals, slots, met, next, spammers, level, a);
    }
    LevelDown(m, locals, level, met);
    var lower := level - 1;
    forall a ensures LowerAt(m, locals, slots, met, next, spammers, lower, a) {
      assert LowerAt(m, locals, slots, met, next, spammers, level, a);
    }
  }

  /** The same pass, account by account in the order of `s`. */
  lemma PassInOrder(m: Lengths, locals: set<Address>, slots: nat, limit: nat, s: seq<Address>,
                    met: set<Address>, next: Address, spammers: set<Address>, level: nat, count: nat)
    requires Lowering(m, locals, slots, limit, met, next, spammers, level, count) && count > limit && level > m[next]
    requires Enumerates(s, met) && slots >= 1
    ensures Lowerable(Level(m, locals, level), s) && After(Level(m, locals, level), s) == Level(m, locals, level - 1)
    ensures count >= |s| && Lowering(m, locals, slots, limit, met, next, spammers, level - 1, count - |s|)
  {
    LowerOnce(m, locals, slots, limit, met, next, spammers, level, count);
    LoweringReads(m, locals, slots, limit, met, next, spammers, level, count);
    AfterIsDecremented(Level(m, locals, level), s, met);
  }

  lemma LoweringDone(m: Lengths, locals: set<Address>, slots: nat, limit: nat,
                     met: set<Address>, next: Address, spammers: set<Address>, level: nat, count: nat)
    requires Lowering(m, locals, slots, limit, met, next, spammers, level, count)
    requires count <= limit || level <= m[next]
    ensures Meeting(m, locals, slots, limit, met + {next}, spammers, m[next], level, count)
  {
    var more := met + {next};
    forall a ensures MeetAt(m, locals, slots, more, spammers, m[next], a) {
      assert LowerAt(m, locals, slots, met, next, spammers, level, a);
    }
  }

  /** The lengths the equaliser reads: offenders stand at the level, the next one is untouched. */
  lemma LoweringReads(m: Lengths, locals: set<Address>, slots: nat, limit: nat,
                      met: set<Address>, next: Address, spammers: set<Address>, level: nat, count: nat)
    requires Lowering(m, locals, slots, limit, met, next, spammers, level, count)
    ensures next in Level(m, locals, level) && Level(m, locals, level)[next] == m[next] && level > slots
    ensures forall a :: a in met ==> a in Level(m, locals, level) && Level(m, locals, level)[a] == level
  {
    forall a | a in met ensures a in Level(m, locals, level) && Level(m, locals, level)[a] == level {
      assert LowerAt(m, locals, slots, met, next, spammers, level, a);
    }
  }

  /** The last phase: every offender has been met, and all of them stand at the level. */
  ghost predicate DrainAt(m: Lengths, locals: set<Address>, slots: nat, met: set<Address>, level: nat, a: Address) {
    (a in met <==> Spam(m, locals, slots, a)) && (a in met ==> level <= m[a])
  }

  ghost predicate Draining(m: Lengths, locals: set<Address>, slots: nat, limit: nat, met: set<Address>, level: nat,
                           count: nat) {
    var ok :=
      && level >= slots && met != {}
      && (forall a :: DrainAt(m, locals, slots, met, level, a))
      && count == Sum(Level(m, locals, level))
      && (Level(m, locals, level) != m ==> Sum(Level(m, locals, level + 1)) > limit);
    ok
  }

  lemma DrainOnce(m: Lengths, locals: set<Address>, slots: nat, limit: nat, met: set<Address>, level: nat, count: nat)
    requires Draining(m, locals, slots, limit, met, level, count) && count > limit && level > slots
    ensures Decremented(Level(m, locals, level), met) == Level(m, locals, level - 1)
    ensures count >= |met| && Draining(m, locals, slots, limit, met, level - 1, count - |met|)
  {
    forall a ensures a in met <==> a in m && a !in locals && m[a] >= level {
      assert DrainAt(m, locals, slots, met, level, a);
    }
    LevelDown(m, locals, level, met);
    var lower := level - 1;
    forall a ensures DrainAt(m, locals, slots, met, lower, a) { assert DrainAt(m, locals, slots, met, level, a); }
  }

  lemma DrainingReads(m: Lengths, locals: set<Address>, slots: nat, limit: nat, met: set<Address>, level: nat,
                      count: nat)
    requires Draining(m, locals, slots, limit, met, level, count)
    ensures forall a :: a in met ==> a in Level(m, locals, level) && Level(m, locals, level)[a] == level
  {
    forall a | a in met ensures a in Level(m, locals, level) && Level(m, locals, level)[a] == level {
      assert DrainAt(m, locals, slots, met, level, a);
    }
  }

  lemma DrainStart(m: Lengths, locals: set<Address>, slots: nat, limit: nat, met: set<Address>, floor: nat,
                   level: nat, count: nat)
    requires Meeting(m, locals, slots, limit, met, {}, floor, level, count) && count > limit && met != {}
    ensures Draining(m, locals, slots, limit, met, level, count)
  {
    forall a ensures DrainAt(m, locals, slots, met, level, a) { assert MeetAt(m, locals, slots, met, {}, floor, a); }
  }

  /** Nobody exceeds the guarantee: the guarantee itself is the level. */
  lemma NobodyToLower(m: Lengths, locals: set<Address>, slots: nat, limit: nat, floor: nat, level: nat, count: nat)
    requires Meeting(m, locals, slots, limit, {}, {}, floor, level, count)
    ensures Fair(m, m, locals, slots, limit, slots) && Level(m, locals, level) == m
  {
    forall a | a in m && a !in locals ensures m[a] <= slots { assert MeetAt(m, locals, slots, {}, {}, floor, a); }
    assert Level(m, locals, slots) == m;
  }

  lemma SpammersKnown(m: Lengths, locals: set<Address>, slots: nat, limit: nat,
                      met: set<Address>, spammers: set<Address>, floor: nat, level: nat, count: nat)
    requires Meeting(m, locals, slots, limit, met, spammers, floor, level, count)
    ensures forall a :: a in spammers ==> a in m
  {
    forall a | a in spammers ensures a in m { assert MeetAt(m, locals, slots, met, spammers, floor, a); }
  }

  lemma SumEmpty(m: Lengths)
    requires m.Keys == {}
    ensures Sum(m) == 0
  {
    assert Units(m) == {};
  }

  lemma DrainInOrder(m: Lengths, locals: set<Address>, slots: nat, limit: nat, s: seq<Address>,
                     met: set<Address>, level: nat, count: nat)
    requires Draining(m, locals, slots, limit, met, level, count) && count > limit && level > slots
    requires Enumerates(s, met) && slots >= 1
    ensures Lowerable(Level(m, locals, level), s) && After(Level(m, locals, level), s) == Level(m, locals, level - 1)
    ensures count >= |s| && Draining(m, locals, slots, limit, met, level - 1, count - |s|)
  {
    DrainOnce(m, locals, slots, limit, met, level, count);
    DrainingReads(m, locals, slots, limit, met, level, count);
    AfterIsDecremented(Level(m, locals, level), s, met);
  }
}
