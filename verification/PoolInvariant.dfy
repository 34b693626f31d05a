/** What every interleaving keeps: the accounting of slots and the exclusive lease of sessions. */
module PoolInvariant {
  import opened Wrappers
  import opened PoolModel

  ghost predicate CallOk(s: System, c: Call) {
    match c
    case Entering(p, _) => p < |s.pools|
    case Blocked(p) => p < |s.pools|
    case Woken(p) => p < |s.pools|
    case Creating(p) => p < |s.pools|
    case Leased(p, x) => p < |s.pools| && x < |s.home| && s.home[x] == Some(p)
    case CreatingAlone => true
    case LeasedAlone(x) => x < |s.home| && s.home[x] == None
    case Ended => true
  }

  /** A reserved slot is a session in the idle list, a session on loan, or one being opened. */
  ghost predicate Accounted(s: System, p: nat)
    requires p < |s.pools|
  {
    && s.pools[p].total == |s.pools[p].idle| + Count(s.calls, LeasedFrom(p)) + Count(s.calls, CreatingOn(p))
    && s.pools[p].total <= s.pools[p].limit
    && DEFAULT_LIMIT <= s.pools[p].limit
  }

  ghost predicate IdleAtHome(s: System, p: nat)
    requires p < |s.pools|
  {
    forall x :: x in s.pools[p].idle ==> x < |s.home| && s.home[x] == Some(p)
  }

  ghost predicate Placed(s: System, x: nat)
    requires x < |s.home|
  {
    match s.home[x]
    case Some(p) => p < |s.pools| && Occurs(s.pools[p].idle, x) + Count(s.calls, HolderOf(x)) == 1
    case None => Count(s.calls, HolderOf(x)) <= 1
  }

  ghost predicate TableOk(s: System) {
    forall k :: k in s.table ==> s.table[k] < |s.pools|
  }

  ghost predicate Inv(s: System) {
    && TableOk(s)
    && (forall i :: 0 <= i < |s.calls| ==> CallOk(s, s.calls[i]))
    && (forall p :: 0 <= p < |s.pools| ==> Accounted(s, p))
    && (forall p :: 0 <= p < |s.pools| ==> IdleAtHome(s, p))
    && (forall x :: 0 <= x < |s.home| ==> Placed(s, x))
  }

  // ------------------------------------------------------------ effect of one call changing

  /** How the counts of one tag move when call `i` becomes `c`. */
  lemma CallChanged(s: System, i: nat, c: Call, t: Tag)
    requires i < |s.calls|
    ensures Count(s.calls[i := c], t) == Count(s.calls, t) - Bit(Matches(s.calls[i], t)) + Bit(Matches(c, t))
  {
    CountUpdate(s.calls, i, c, t);
  }

  /** A session nobody has ever opened is held by nobody. */
  lemma FreshSession(s: System)
    requires Inv(s)
    ensures Count(s.calls, HolderOf(|s.home|)) == 0
  {
    CountZero(s.calls, HolderOf(|s.home|));
  }

  lemma WakeCounts(s: System, wake: Option<nat>, t: Tag)
    requires wake.Some? ==> wake.value < |s.calls| && s.calls[wake.value].Blocked?
    requires t.LeasedFrom? || t.CreatingOn? || t.HolderOf?
    ensures Count(Wake(s.calls, wake), t) == Count(s.calls, t)
  {
    if wake.Some? {
      CountUpdate(s.calls, wake.value, Woken(s.calls[wake.value].pool), t);
    }
  }

  /** Waking somebody touches no count the invariant speaks of. */
  lemma WakeKeepsInv(s: System, wake: Option<nat>)
    requires Inv(s)
    requires wake.Some? ==> wake.value < |s.calls| && s.calls[wake.value].Blocked?
    ensures Inv(s.(calls := Wake(s.calls, wake)))
  {
    var s' := s.(calls := Wake(s.calls, wake));
    forall p | 0 <= p < |s.pools| ensures Accounted(s', p) {
      assert Accounted(s, p);
      WakeCounts(s, wake, LeasedFrom(p));
      WakeCounts(s, wake, CreatingOn(p));
    }
    forall p | 0 <= p < |s.pools| ensures IdleAtHome(s', p) { assert IdleAtHome(s, p); }
    forall x | 0 <= x < |s.home| ensures Placed(s', x) {
      assert Placed(s, x);
      WakeCounts(s, wake, HolderOf(x));
    }
    forall i | 0 <= i < |s'.calls| ensures CallOk(s', s'.calls[i]) { assert CallOk(s, s.calls[i]); }
  }

  /** A change of one pool and one call that moves the counts consistently keeps the invariant. */
  lemma LocalChange(s: System, i: nat, p: nat, pool: Pool, next: Call)
    requires Inv(s) && i < |s.calls| && p < |s.pools|
    requires CallOk(s, next)
    requires forall q :: 0 <= q < |s.pools| && q != p ==>
                           Bit(Matches(next, LeasedFrom(q))) + Bit(Matches(next, CreatingOn(q)))
                           == Bit(Matches(s.calls[i], LeasedFrom(q))) + Bit(Matches(s.calls[i], CreatingOn(q)))
    requires pool.total - |pool.idle| - Bit(Matches(next, LeasedFrom(p))) - Bit(Matches(next, CreatingOn(p)))
             == s.pools[p].total - |s.pools[p].idle|
                - Bit(Matches(s.calls[i], LeasedFrom(p))) - Bit(Matches(s.calls[i], CreatingOn(p)))
    requires pool.total <= pool.limit && DEFAULT_LIMIT <= pool.limit
    requires forall x :: x in pool.idle ==> x < |s.home| && s.home[x] == Some(p)
    requires forall x :: 0 <= x < |s.home| ==>
                           Bit(Matches(next, HolderOf(x))) + Occurs(pool.idle, x)
                           == Bit(Matches(s.calls[i], HolderOf(x))) + Occurs(s.pools[p].idle, x)
    ensures Inv(s.(pools := s.pools[p := pool], calls := s.calls[i := next]))
  {
    var s' := s.(pools := s.pools[p := pool], calls := s.calls[i := next]);
    assert TableOk(s');
    forall j | 0 <= j < |s'.calls| ensures CallOk(s', s'.calls[j]) {
      assert CallOk(s, s.calls[j]);
    }
    forall q | 0 <= q < |s'.pools| ensures Accounted(s', q) {
      assert Accounted(s, q);
      CallChanged(s, i, next, LeasedFrom(q));
      CallChanged(s, i, next, CreatingOn(q));
    }
    forall q | 0 <= q < |s'.pools| ensures IdleAtHome(s', q) { assert IdleAtHome(s, q); }
    assert IdleAtHome(s, p);
    forall x | 0 <= x < |s'.home| ensures Placed(s', x) {
      assert Placed(s, x);
      CallChanged(s, i, next, HolderOf(x));
      if s.home[x] != Some(p) {
        OccursZero(pool.idle, x);
        OccursZero(s.pools[p].idle, x);
      }
    }
  }

  lemma TakeKeepsInv(s: System, i: nat, p: nat, pool: Pool, c: nat)
    requires Inv(s) && i < |s.calls| && p < |s.pools|
    requires s.calls[i].Entering? || s.calls[i].Woken?
    requires s.pools[p].idle == pool.idle + [c]
    requires pool.total == s.pools[p].total && s.pools[p].limit <= pool.limit
    ensures Inv(s.(pools := s.pools[p := pool], calls := s.calls[i := Leased(p, c)]))
  {
    assert Accounted(s, p) && IdleAtHome(s, p);
    forall x: nat ensures Occurs(s.pools[p].idle, x) == Occurs(pool.idle, x) + Bit(x == c) {
      OccursAppend(pool.idle, c, x);
    }
    assert c in s.pools[p].idle;
    assert forall x :: x in pool.idle ==> x in s.pools[p].idle;
    LocalChange(s, i, p, pool, Leased(p, c));
  }

  lemma RunLoopKeepsInv(s: System, i: nat, p: nat, pool: Pool)
    requires Inv(s) && i < |s.calls| && p < |s.pools|
    requires s.calls[i].Entering? || s.calls[i].Woken?
    requires pool.idle == s.pools[p].idle && pool.total == s.pools[p].total && s.pools[p].limit <= pool.limit
    ensures Inv(RunLoop(s, i, p, pool))
  {
    assert Accounted(s, p) && IdleAtHome(s, p);
    if pool.idle != [] {
      TakeKeepsInv(s, i, p, LoopBody(pool).0, pool.idle[|pool.idle| - 1]);
    } else if pool.total < pool.limit {
      LocalChange(s, i, p, LoopBody(pool).0, Creating(p));
    } else {
      LocalChange(s, i, p, pool, Blocked(p));
    }
  }

  lemma OpenedKeepsInv(s: System, i: nat, home: Option<nat>, next: Call)
    requires Inv(s) && i < |s.calls|
    requires home.Some? ==> s.calls[i] == Creating(home.value) && next == Leased(home.value, |s.home|)
    requires home.None? ==> s.calls[i] == CreatingAlone && next == LeasedAlone(|s.home|)
    ensures Inv(s.(calls := s.calls[i := next], home := s.home + [home]))
  {
    var s' := s.(calls := s.calls[i := next], home := s.home + [home]);
    FreshSession(s);
    assert CallOk(s, s.calls[i]);
    forall j | 0 <= j < |s'.calls| ensures CallOk(s', s'.calls[j]) { assert CallOk(s, s.calls[j]); }
    forall q | 0 <= q < |s'.pools| ensures Accounted(s', q) && IdleAtHome(s', q) {
      assert Accounted(s, q) && IdleAtHome(s, q);
      CallChanged(s, i, next, LeasedFrom(q));
      CallChanged(s, i, next, CreatingOn(q));
    }
    forall x | 0 <= x < |s'.home| ensures Placed(s', x) {
      CallChanged(s, i, next, HolderOf(x));
      if x < |s.home| {
        assert Placed(s, x);
      } else if home.Some? {
        assert IdleAtHome(s, home.value);
        OccursZero(s.pools[home.value].idle, x);
      }
    }
  }

  lemma AppendKeepsInv(s: System, c: Call)
    requires Inv(s) && CallOk(s, c) && !c.Creating? && !c.Leased? && !c.LeasedAlone?
    ensures Inv(s.(calls := s.calls + [c]))
  {
    var s' := s.(calls := s.calls + [c]);
    forall j | 0 <= j < |s'.calls| ensures CallOk(s', s'.calls[j]) {
      if j < |s.calls| { assert CallOk(s, s.calls[j]); }
    }
    forall q | 0 <= q < |s'.pools| ensures Accounted(s', q) && IdleAtHome(s', q) {
      assert Accounted(s, q) && IdleAtHome(s, q);
      CountAppend(s.calls, c, LeasedFrom(q));
      CountAppend(s.calls, c, CreatingOn(q));
    }
    forall x | 0 <= x < |s'.home| ensures Placed(s', x) {
      assert Placed(s, x);
      CountAppend(s.calls, c, HolderOf(x));
    }
  }

  /** A new pool starts with nothing idle, nothing reserved and no call pointing at it. */
  lemma NewPoolKeepsInv(s: System, conn: string)
    requires Inv(s)
    ensures Inv(s.(pools := s.pools + [NEW_POOL], table := s.table[conn := |s.pools|]))
  {
    var n := |s.pools|;
    var s' := s.(pools := s.pools + [NEW_POOL], table := s.table[conn := n]);
    forall j | 0 <= j < |s'.calls| ensures CallOk(s', s'.calls[j]) { assert CallOk(s, s.calls[j]); }
    forall q | 0 <= q < |s'.pools| ensures Accounted(s', q) && IdleAtHome(s', q) {
      if q < n {
        assert Accounted(s, q) && IdleAtHome(s, q);
      } else {
        assert forall j :: 0 <= j < |s.calls| ==> CallOk(s, s.calls[j]);
        CountZero(s.calls, LeasedFrom(q));
        CountZero(s.calls, CreatingOn(q));
      }
    }
    forall x | 0 <= x < |s'.home| ensures Placed(s', x) { assert Placed(s, x); }
  }

  /** A call that holds nothing may end or be woken without touching anything else. */
  lemma IdleCallKeepsInv(s: System, i: nat, next: Call)
    requires Inv(s) && i < |s.calls| && CallOk(s, next)
    requires next.Ended? || next.Woken?
    requires s.calls[i].Blocked? || s.calls[i].Woken? || s.calls[i].CreatingAlone? || s.calls[i].LeasedAlone?
    ensures Inv(s.(calls := s.calls[i := next]))
  {
    var s' := s.(calls := s.calls[i := next]);
    forall j | 0 <= j < |s'.calls| ensures CallOk(s', s'.calls[j]) { assert CallOk(s, s.calls[j]); }
    forall q | 0 <= q < |s'.pools| ensures Accounted(s', q) && IdleAtHome(s', q) {
      assert Accounted(s, q) && IdleAtHome(s, q);
      CallChanged(s, i, next, LeasedFrom(q));
      CallChanged(s, i, next, CreatingOn(q));
    }
    forall x | 0 <= x < |s'.home| ensures Placed(s', x) {
      assert Placed(s, x) && CallOk(s, s.calls[i]);
      CallChanged(s, i, next, HolderOf(x));
    }
  }

  lemma LookupKeepsInv(s: System, conn: string, want: nat)
    requires Inv(s)
    ensures Inv(Step(s, Lookup(conn, want)))
  {
    if conn in s.table {
      AppendKeepsInv(s, Entering(s.table[conn], want));
    } else {
      NewPoolKeepsInv(s, conn);
      AppendKeepsInv(s.(pools := s.pools + [NEW_POOL], table := s.table[conn := |s.pools|]),
                     Entering(|s.pools|, want));
    }
  }

  lemma CreateFailedKeepsInv(s: System, i: nat, w: Option<nat>)
    requires Inv(s) && Enabled(s, CreateFailed(i, w))
    ensures Inv(Step(s, CreateFailed(i, w)))
  {
    var p := s.calls[i].pool;
    WakeKeepsInv(s, w);
    var s1 := s.(calls := Wake(s.calls, w));
    assert s1.calls[i] == Creating(p);
    assert Accounted(s1, p) && IdleAtHome(s1, p);
    LocalChange(s1, i, p, RollBack(s.pools[p]), Ended);
  }

  lemma ReleaseKeepsInv(s: System, i: nat, w: Option<nat>)
    requires Inv(s) && Enabled(s, Release(i, w))
    ensures Inv(Step(s, Release(i, w)))
  {
    var p, c := s.calls[i].pool, s.calls[i].ctx;
    assert CallOk(s, s.calls[i]);
    WakeKeepsInv(s, w);
    var s1 := s.(calls := Wake(s.calls, w));
    assert s1.calls[i] == Leased(p, c);
    assert Accounted(s1, p) && IdleAtHome(s1, p);
    var pool' := GiveBack(s.pools[p], c);
    forall x: nat ensures Occurs(pool'.idle, x) == Occurs(s.pools[p].idle, x) + Bit(x == c) {
      OccursAppend(s.pools[p].idle, c, x);
    }
    LocalChange(s1, i, p, pool', Ended);
  }

  lemma ClearKeepsInv(s: System)
    requires Inv(s)
    ensures Inv(s.(table := map[]))
  {
    var s' := s.(table := map[]);
    forall q | 0 <= q < |s'.pools| ensures Accounted(s', q) && IdleAtHome(s', q) {
      assert Accounted(s, q) && IdleAtHome(s, q);
    }
    forall x | 0 <= x < |s'.home| ensures Placed(s', x) { assert Placed(s, x); }
    forall j | 0 <= j < |s'.calls| ensures CallOk(s', s'.calls[j]) { assert CallOk(s, s.calls[j]); }
  }

  /** The invariant is inductive: every enabled action keeps it. */
  lemma StepKeepsInv(s: System, a: Action)
    requires Inv(s) && Enabled(s, a)
    ensures Inv(Step(s, a))
  {
    match a
    case Lookup(conn, want) => LookupKeepsInv(s, conn, want);
    case Enter(i) =>
      var p := s.calls[i].pool;
      RunLoopKeepsInv(s, i, p, RaiseLimit(s.pools[p], s.calls[i].want));
    case Rerun(i) =>
      var p := s.calls[i].pool;
      RunLoopKeepsInv(s, i, p, s.pools[p]);
    case Created(i) =>
      OpenedKeepsInv(s, i, Some(s.calls[i].pool), Leased(s.calls[i].pool, |s.home|));
    case CreateFailed(i, w) => CreateFailedKeepsInv(s, i, w);
    case Release(i, w) => ReleaseKeepsInv(s, i, w);
    case Spurious(i) =>
      assert CallOk(s, s.calls[i]);
      IdleCallKeepsInv(s, i, Woken(s.calls[i].pool));
    case TimeOut(i) => IdleCallKeepsInv(s, i, Ended);
    case Clear => ClearKeepsInv(s);
    case OpenAlone => AppendKeepsInv(s, CreatingAlone);
    case CreatedAlone(i) => OpenedKeepsInv(s, i, None, LeasedAlone(|s.home|));
    case AloneFailed(i) => IdleCallKeepsInv(s, i, Ended);
    case CloseAlone(i) => IdleCallKeepsInv(s, i, Ended);
  }

  lemma {:induction false} RunKeepsInv(s: System, actions: seq<Action>)
    requires Inv(s) && IsRun(s, actions)
    ensures Inv(After(s, actions))
    decreases |actions|
  {
    if actions != [] {
      StepKeepsInv(s, actions[0]);
      RunKeepsInv(Step(s, actions[0]), actions[1..]);
    }
  }

  // ------------------------------------------------------------ main results

  /** Slot accounting, in every state every interleaving can reach, for every pool object. */
  lemma AccountingAlways(actions: seq<Action>, p: nat)
    requires IsRun(INITIAL, actions) && p < |After(INITIAL, actions).pools|
    ensures var s := After(INITIAL, actions);
            && s.pools[p].total == |s.pools[p].idle| + Count(s.calls, LeasedFrom(p)) + Count(s.calls, CreatingOn(p))
            && s.pools[p].total <= s.pools[p].limit
  {
    RunKeepsInv(INITIAL, actions);
    assert Accounted(After(INITIAL, actions), p);
  }

  /** `notify_one` always has an outcome. */
  lemma SomeWake(s: System, p: nat) returns (wake: Option<nat>)
    ensures ValidWake(s, p, wake)
  {
    if i :| 0 <= i < |s.calls| && s.calls[i] == Blocked(p) {
      wake := Some(i);
    } else {
      wake := None;
    }
  }

  /** Nothing bars the end of what a call began: in every reachable state a session being opened
      can fail, giving its slot back (the count is not yet zero), and one on loan can be returned. */
  lemma AlwaysFinishes(actions: seq<Action>, i: nat)
    requires IsRun(INITIAL, actions) && i < |After(INITIAL, actions).calls|
    ensures var s := After(INITIAL, actions);
            && (s.calls[i].Creating? ==> exists w :: Enabled(s, CreateFailed(i, w)))
            && (s.calls[i].Leased? ==> exists w :: Enabled(s, Release(i, w)))
  {
    RunKeepsInv(INITIAL, actions);
    var s := After(INITIAL, actions);
    assert CallOk(s, s.calls[i]);
    if s.calls[i].Creating? {
      var p := s.calls[i].pool;
      assert Accounted(s, p) && Matches(s.calls[i], CreatingOn(p));
      CountZero(s.calls, CreatingOn(p));
      var w := SomeWake(s, p);
      assert Enabled(s, CreateFailed(i, w));
    } else if s.calls[i].Leased? {
      var w := SomeWake(s, s.calls[i].pool);
      assert Enabled(s, Release(i, w));
    }
  }

  /** A pool object is never lost and its limit never goes down. */
  lemma {:induction false} LimitNeverDecreases(s: System, actions: seq<Action>, p: nat)
    requires IsRun(s, actions) && p < |s.pools|
    ensures p < |After(s, actions).pools|
    ensures s.pools[p].limit <= After(s, actions).pools[p].limit
    decreases |actions|
  {
    if actions != [] {
      LimitNeverDecreases(Step(s, actions[0]), actions[1..], p);
    }
  }

  /** Where a session of pool `p` is: once in the idle list of `p` and with nobody ... */
  ghost predicate OnlyIdle(s: System, p: nat, x: nat) {
    && p < |s.pools|
    && (exists k :: 0 <= k < |s.pools[p].idle| && s.pools[p].idle[k] == x
                    && forall j :: 0 <= j < |s.pools[p].idle| && j != k ==> s.pools[p].idle[j] != x)
    && (forall i :: 0 <= i < |s.calls| ==> !Matches(s.calls[i], HolderOf(x)))
  }

  /** ... or with exactly one live handle of `p` and not in the idle list. */
  ghost predicate OnlyLeased(s: System, p: nat, x: nat) {
    && p < |s.pools|
    && x !in s.pools[p].idle
    && (exists i :: 0 <= i < |s.calls| && s.calls[i] == Leased(p, x)
                    && forall j :: 0 <= j < |s.calls| && j != i ==> !Matches(s.calls[j], HolderOf(x)))
  }

  /** Exclusive lease: in every reachable state each pooled session ever opened is in exactly
      one place, that place belongs to the pool it was opened for, and no other pool has it.
      `Clear` is one of the actions, so this covers releases after a clear. */
  lemma ExclusiveLease(actions: seq<Action>, x: nat)
    requires IsRun(INITIAL, actions)
    requires x < |After(INITIAL, actions).home| && After(INITIAL, actions).home[x].Some?
    ensures var s := After(INITIAL, actions);
            var p := s.home[x].value;
            && p < |s.pools|
            && OnlyIdle(s, p, x) != OnlyLeased(s, p, x)
            && (forall q :: 0 <= q < |s.pools| && q != p ==> x !in s.pools[q].idle)
  {
    RunKeepsInv(INITIAL, actions);
    var s := After(INITIAL, actions);
    assert Placed(s, x);
    var p := s.home[x].value;
    forall q | 0 <= q < |s.pools| && q != p ensures x !in s.pools[q].idle { assert IdleAtHome(s, q); }
    if Occurs(s.pools[p].idle, x) == 1 {
      var k := OccursOne(s.pools[p].idle, x);
      CountZero(s.calls, HolderOf(x));
      assert OnlyIdle(s, p, x);
      assert x in s.pools[p].idle;
    } else {
      var i := CountOne(s.calls, HolderOf(x));
      OccursZero(s.pools[p].idle, x);
      assert CallOk(s, s.calls[i]);
      assert s.calls[i] == Leased(p, x);
      assert OnlyLeased(s, p, x);
      assert Matches(s.calls[i], HolderOf(x));
    }
  }

  /** The home of a session is fixed when it is opened, whatever happens later. */
  lemma {:induction false} HomeNeverChanges(s: System, actions: seq<Action>)
    requires IsRun(s, actions)
    ensures s.home <= After(s, actions).home
    decreases |actions|
  {
    if actions != [] {
      HomeNeverChanges(Step(s, actions[0]), actions[1..]);
    }
  }
}
