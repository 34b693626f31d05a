/** When does the condition variable of a pool lose a wakeup?

    `NoLostWakeup` says that whenever a call is blocked on a pool, enough other calls have been
    woken, but have not run yet, to use up every unit that is free.  It is shown to hold all the
    way through a run exactly when each action of the run passes `Harmless`, a test on the state
    before the action.  Only two actions can fail the test: entering with a limit above the one
    in force, and timing out after having been notified. */
module PoolWakeups {
  import opened Wrappers
  import opened PoolModel
  import opened PoolInvariant

  ghost predicate Served(s: System, p: nat)
    requires p < |s.pools|
  {
    Count(s.calls, BlockedOn(p)) > 0 ==> Count(s.calls, WokenOn(p)) >= FreeUnits(s.pools[p])
  }

  ghost predicate NoLostWakeup(s: System) {
    forall p :: 0 <= p < |s.pools| ==> Served(s, p)
  }

  /** How many units the calls already woken leave over (negative: units nobody was woken for). */
  ghost function Slack(s: System, p: nat): int
    requires p < |s.pools|
  {
    Count(s.calls, WokenOn(p)) - FreeUnits(s.pools[p])
  }

  ghost predicate Harmless(s: System, a: Action)
    requires Inv(s) && Enabled(s, a)
  {
    match a
    case Enter(i) =>
      assert CallOk(s, s.calls[i]);
      var p := s.calls[i].pool;
      Count(s.calls, BlockedOn(p)) == 0 || s.calls[i].want <= s.pools[p].limit + 1 + Slack(s, p)
    case TimeOut(i) =>
      assert CallOk(s, s.calls[i]);
      s.calls[i].Blocked? || Count(s.calls, BlockedOn(s.calls[i].pool)) == 0 || Slack(s, s.calls[i].pool) > 0
    case _ => true
  }

  /** Both counts, after call `i` becomes `c`. */
  lemma WaitersChanged(s: System, i: nat, c: Call, p: nat)
    requires i < |s.calls|
    ensures Count(s.calls[i := c], BlockedOn(p))
            == Count(s.calls, BlockedOn(p)) - Bit(s.calls[i] == Blocked(p)) + Bit(c == Blocked(p))
    ensures Count(s.calls[i := c], WokenOn(p))
            == Count(s.calls, WokenOn(p)) - Bit(s.calls[i] == Woken(p)) + Bit(c == Woken(p))
  {
    CountUpdate(s.calls, i, c, BlockedOn(p));
    CountUpdate(s.calls, i, c, WokenOn(p));
  }

  /** What `notify_one` does to the waiters of `p`, when call `i` of `p` then ends. */
  lemma NotifyMoves(s: System, i: nat, p: nat, wake: Option<nat>, q: nat)
    requires i < |s.calls| && (s.calls[i].Creating? || s.calls[i].Leased?)
    requires ValidWake(s, p, wake)
    ensures var calls' := Wake(s.calls, wake)[i := Ended];
            var moved := Bit(q == p && Count(s.calls, BlockedOn(p)) > 0);
            && Count(calls', BlockedOn(q)) == Count(s.calls, BlockedOn(q)) - moved
            && Count(calls', WokenOn(q)) == Count(s.calls, WokenOn(q)) + moved
  {
    CountZero(s.calls, BlockedOn(p));
    match wake {
      case Some(w) =>
        WaitersChanged(s, w, Woken(p), q);
        WaitersChanged(s.(calls := Wake(s.calls, wake)), i, Ended, q);
        assert Matches(s.calls[w], BlockedOn(p));
      case None =>
        WaitersChanged(s, i, Ended, q);
    }
  }

  lemma RunLoopMoves(s: System, i: nat, p: nat, pool: Pool, q: nat)
    requires i < |s.calls| && p < |s.pools| && (s.calls[i].Entering? || s.calls[i] == Woken(p))
    requires q < |s.pools|
    requires pool.total <= pool.limit
    ensures var s' := RunLoop(s, i, p, pool);
            var gets := FreeUnits(pool) > 0;
            && Count(s'.calls, BlockedOn(q)) == Count(s.calls, BlockedOn(q)) + Bit(q == p && !gets)
            && Count(s'.calls, WokenOn(q)) == Count(s.calls, WokenOn(q)) - Bit(s.calls[i] == Woken(q))
            && FreeUnits(s'.pools[q]) == if q == p then FreeUnits(pool) - Bit(gets) else FreeUnits(s.pools[q])
  {
    var next := RunLoop(s, i, p, pool).calls[i];
    WaitersChanged(s, i, next, q);
  }

  lemma EnterServed(s: System, i: nat, q: nat)
    requires Inv(s) && Enabled(s, Enter(i)) && NoLostWakeup(s) && q < |s.pools|
    ensures Served(Step(s, Enter(i)), q) <==> (q == s.calls[i].pool ==> Harmless(s, Enter(i)))
  {
    var p := s.calls[i].pool;
    assert Accounted(s, p) && Served(s, p) && Served(s, q);
    RunLoopMoves(s, i, p, RaiseLimit(s.pools[p], s.calls[i].want), q);
  }

  lemma RerunServed(s: System, i: nat, q: nat)
    requires Inv(s) && Enabled(s, Rerun(i)) && NoLostWakeup(s) && q < |s.pools|
    ensures Served(Step(s, Rerun(i)), q)
  {
    var p := s.calls[i].pool;
    assert Accounted(s, p) && Served(s, p) && Served(s, q);
    CountZero(s.calls, WokenOn(p));
    assert Matches(s.calls[i], WokenOn(p));
    RunLoopMoves(s, i, p, s.pools[p], q);
  }

  lemma TimeOutServed(s: System, i: nat, q: nat)
    requires Inv(s) && Enabled(s, TimeOut(i)) && NoLostWakeup(s) && q < |s.pools|
    ensures Served(Step(s, TimeOut(i)), q) <==> (q == s.calls[i].pool ==> Harmless(s, TimeOut(i)))
  {
    assert Served(s, q);
    WaitersChanged(s, i, Ended, q);
    CountZero(s.calls, BlockedOn(q));
  }

  /** Every other action leaves each pool served. */
  lemma OthersServed(s: System, a: Action, q: nat)
    requires Inv(s) && Enabled(s, a) && NoLostWakeup(s) && q < |s.pools|
    requires !a.Lookup? && !a.Enter? && !a.Rerun? && !a.TimeOut?
    ensures q < |Step(s, a).pools| && Served(Step(s, a), q)
  {
    assert Served(s, q);
    match a
    case CreateFailed(i, w) => NotifyMoves(s, i, s.calls[i].pool, w, q);
    case Release(i, w) => NotifyMoves(s, i, s.calls[i].pool, w, q);
    case Created(i) => WaitersChanged(s, i, Leased(s.calls[i].pool, |s.home|), q);
    case Spurious(i) =>
      WaitersChanged(s, i, Woken(s.calls[i].pool), q);
      CountZero(s.calls, BlockedOn(q));
    case Clear =>
    case OpenAlone =>
      CountAppend(s.calls, CreatingAlone, BlockedOn(q));
      CountAppend(s.calls, CreatingAlone, WokenOn(q));
    case CreatedAlone(i) => WaitersChanged(s, i, LeasedAlone(|s.home|), q);
    case AloneFailed(i) => WaitersChanged(s, i, Ended, q);
    case CloseAlone(i) => WaitersChanged(s, i, Ended, q);
  }

  lemma LookupServed(s: System, conn: string, want: nat)
    requires Inv(s) && NoLostWakeup(s)
    ensures NoLostWakeup(Step(s, Lookup(conn, want)))
  {
    var s' := Step(s, Lookup(conn, want));
    var c := s'.calls[|s.calls|];
    forall q | 0 <= q < |s'.pools| ensures Served(s', q) {
      CountAppend(s.calls, c, BlockedOn(q));
      CountAppend(s.calls, c, WokenOn(q));
      if q < |s.pools| {
        assert Served(s, q);
      } else {
        assert forall j :: 0 <= j < |s.calls| ==> CallOk(s, s.calls[j]);
        CountZero(s.calls, BlockedOn(q));
      }
    }
  }

  /** One action, exactly: no wakeup is lost if and only if the action passes the test. */
  lemma StepServedIff(s: System, a: Action)
    requires Inv(s) && Enabled(s, a) && NoLostWakeup(s)
    ensures NoLostWakeup(Step(s, a)) <==> Harmless(s, a)
  {
    match a
    case Lookup(conn, want) => LookupServed(s, conn, want);
    case Enter(i) =>
      assert |Step(s, a).pools| == |s.pools|;
      forall q | 0 <= q < |s.pools|
        ensures Served(Step(s, a), q) <==> (q == s.calls[i].pool ==> Harmless(s, a))
      { EnterServed(s, i, q); }
      EnterServed(s, i, s.calls[i].pool);
    case TimeOut(i) =>
      assert CallOk(s, s.calls[i]) && |Step(s, a).pools| == |s.pools|;
      forall q | 0 <= q < |s.pools|
        ensures Served(Step(s, a), q) <==> (q == s.calls[i].pool ==> Harmless(s, a))
      { TimeOutServed(s, i, q); }
      TimeOutServed(s, i, s.calls[i].pool);
    case Rerun(i) =>
      forall q | 0 <= q < |s.pools| ensures Served(Step(s, a), q) { RerunServed(s, i, q); }
    case _ =>
      forall q | 0 <= q < |s.pools| ensures Served(Step(s, a), q) { OthersServed(s, a, q); }
  }

  // ------------------------------------------------------------ main results

  /** No wakeup is lost in the start state or after any number of the actions. */
  ghost predicate NeverLost(s: System, actions: seq<Action>)
    requires IsRun(s, actions)
    decreases |actions|
  {
    NoLostWakeup(s) && (actions != [] ==> NeverLost(Step(s, actions[0]), actions[1..]))
  }

  ghost predicate AllHarmless(s: System, actions: seq<Action>)
    requires Inv(s) && IsRun(s, actions)
    decreases |actions|
  {
    actions == [] ||
    (Harmless(s, actions[0]) && (StepKeepsInv(s, actions[0]); AllHarmless(Step(s, actions[0]), actions[1..])))
  }

  lemma {:induction false} NeverLostIff(s: System, actions: seq<Action>)
    requires Inv(s) && IsRun(s, actions) && NoLostWakeup(s)
    ensures NeverLost(s, actions) <==> AllHarmless(s, actions)
    decreases |actions|
  {
    if actions != [] {
      StepServedIff(s, actions[0]);
      StepKeepsInv(s, actions[0]);
      if Harmless(s, actions[0]) {
        NeverLostIff(Step(s, actions[0]), actions[1..]);
      }
    }
  }

  /** No lost wakeup, over every interleaving: it holds throughout the run if and only if no
      action of the run enters with too high a limit or times out after being notified while
      others wait for the unit it was notified of. */
  lemma NoLostWakeupIff(actions: seq<Action>)
    requires IsRun(INITIAL, actions)
    ensures NeverLost(INITIAL, actions) <==> AllHarmless(INITIAL, actions)
  {
    NeverLostIff(INITIAL, actions);
  }

  /** A run that never raises a limit in force and times out only calls not yet notified. */
  predicate Calm(s: System, actions: seq<Action>)
    requires IsRun(s, actions)
    decreases |actions|
  {
    actions == [] ||
    (&& (match actions[0]
         case Enter(i) => s.calls[i].want <= s.pools[s.calls[i].pool].limit
         case TimeOut(i) => s.calls[i].Blocked?
         case _ => true)
     && Calm(Step(s, actions[0]), actions[1..]))
  }

  lemma {:induction false} CalmIsHarmless(s: System, actions: seq<Action>)
    requires Inv(s) && NoLostWakeup(s) && IsRun(s, actions) && Calm(s, actions)
    ensures NeverLost(s, actions)
    decreases |actions|
  {
    if actions != [] {
      var a := actions[0];
      if a.Enter? {
        assert Served(s, s.calls[a.call].pool);
      }
      StepServedIff(s, a);
      StepKeepsInv(s, a);
      CalmIsHarmless(Step(s, a), actions[1..]);
    }
  }

  /** The case the pool is built for: with the limits unchanged, no wakeup is ever lost. */
  lemma CalmRunsLoseNothing(actions: seq<Action>)
    requires IsRun(INITIAL, actions) && Calm(INITIAL, actions)
    ensures NeverLost(INITIAL, actions)
  {
    CalmIsHarmless(INITIAL, actions);
  }

  /** While a call waits and nobody has been woken for its pool, nothing of the pool lies unused:
      every slot is a session on loan or one being opened, and there is at least one. */
  lemma WaitingMeansAllInUse(actions: seq<Action>, p: nat)
    requires IsRun(INITIAL, actions) && p < |After(INITIAL, actions).pools|
    requires NoLostWakeup(After(INITIAL, actions))
    requires Count(After(INITIAL, actions).calls, BlockedOn(p)) > 0
    requires Count(After(INITIAL, actions).calls, WokenOn(p)) == 0
    ensures var s := After(INITIAL, actions);
            && s.pools[p].idle == [] && s.pools[p].total == s.pools[p].limit
            && Count(s.calls, LeasedFrom(p)) + Count(s.calls, CreatingOn(p)) == s.pools[p].limit > 0
  {
    RunKeepsInv(INITIAL, actions);
    assert Accounted(After(INITIAL, actions), p) && Served(After(INITIAL, actions), p);
  }

  /** Sessions on loan and sessions being opened. */
  ghost function InUse(s: System, p: nat): nat {
    Count(s.calls, LeasedFrom(p)) + Count(s.calls, CreatingOn(p))
  }

  /** A call that times out does not look at the pool again.  It leaves an idle session or a free
      slot behind if and only if, before it timed out, fewer sessions were on loan or being opened
      than the limit allows. */
  lemma TimeOutLeavesAUnitIff(actions: seq<Action>, i: nat)
    requires IsRun(INITIAL, actions) && Enabled(After(INITIAL, actions), TimeOut(i))
    ensures var s := After(INITIAL, actions);
            var s' := Step(s, TimeOut(i));
            var p := s.calls[i].pool;
            && p < |s'.pools|
            && (s'.pools[p].idle != [] || s'.pools[p].total < s'.pools[p].limit <==> InUse(s, p) < s.pools[p].limit)
  {
    RunKeepsInv(INITIAL, actions);
    var s := After(INITIAL, actions);
    assert CallOk(s, s.calls[i]);
    assert Accounted(s, s.calls[i].pool);
  }

  /** If no wakeup was lost and the call was not notified, every unit it leaves behind is spoken
      for: as many calls have been woken and will run. */
  lemma UnitsLeftAreSpokenFor(actions: seq<Action>, i: nat)
    requires IsRun(INITIAL, actions) && Enabled(After(INITIAL, actions), TimeOut(i))
    requires NoLostWakeup(After(INITIAL, actions)) && After(INITIAL, actions).calls[i].Blocked?
    ensures var s := After(INITIAL, actions);
            var s' := Step(s, TimeOut(i));
            var p := s.calls[i].pool;
            p < |s'.pools| && FreeUnits(s'.pools[p]) <= Count(s'.calls, WokenOn(p))
  {
    RunKeepsInv(INITIAL, actions);
    var s := After(INITIAL, actions);
    var p := s.calls[i].pool;
    assert CallOk(s, s.calls[i]) && Served(s, p);
    CountZero(s.calls, BlockedOn(p));
    assert Matches(s.calls[i], BlockedOn(p));
    WaitersChanged(s, i, Ended, p);
  }

  // ------------------------------------------------------------ the two ways to lose one

  /** `n` handles of one pool are out and nothing else is going on. */
  function Saturated(n: nat): System {
    System([Pool([], n, DEFAULT_LIMIT)], map["db" := 0],
           seq(n, i requires 0 <= i < n => Leased(0, i)), seq(n, i requires 0 <= i < n => Some(0)))
  }

  /** A calm run from `s` to `t`. */
  ghost predicate Reaches(s: System, actions: seq<Action>, t: System) {
    IsRun(s, actions) && Calm(s, actions) && After(s, actions) == t
  }

  lemma {:induction false} ReachesAppend(s: System, xs: seq<Action>, t: System, ys: seq<Action>, u: System)
    requires Reaches(s, xs, t) && Reaches(t, ys, u)
    ensures Reaches(s, xs + ys, u)
    decreases |xs|
  {
    if xs == [] {
      assert xs + ys == ys;
    } else {
      assert (xs + ys)[1..] == xs[1..] + ys;
      ReachesAppend(Step(s, xs[0]), xs[1..], t, ys, u);
    }
  }

  /** One action that raises no limit and is no timeout. */
  lemma ReachesOne(s: System, a: Action)
    requires Enabled(s, a) && !a.TimeOut?
    requires a.Enter? ==> s.calls[a.call].want <= s.pools[s.calls[a.call].pool].limit
    ensures Reaches(s, [a], Step(s, a))
  {
    assert [a][1..] == [];
    assert After(Step(s, a), []) == Step(s, a);
  }

  lemma Extend(s: System, xs: seq<Action>, t: System, a: Action) returns (u: System)
    requires Reaches(s, xs, t) && Enabled(t, a) && !a.TimeOut?
    requires a.Enter? ==> t.calls[a.call].want <= t.pools[t.calls[a.call].pool].limit
    ensures u == Step(t, a) && Reaches(s, xs + [a], u)
  {
    u := Step(t, a);
    ReachesOne(t, a);
    ReachesAppend(s, xs, t, [a], u);
  }

  lemma {:induction false} ReachSaturated(n: nat) returns (acts: seq<Action>)
    requires 1 <= n <= DEFAULT_LIMIT
    ensures Reaches(INITIAL, acts, Saturated(n))
  {
    var s: System;
    if n == 1 {
      acts, s := [], INITIAL;
      assert Reaches(INITIAL, [], INITIAL);
    } else {
      acts := ReachSaturated(n - 1);
      s := Saturated(n - 1);
    }
    var s1 := Extend(INITIAL, acts, s, Lookup("db", 8));
    assert s1.calls[n - 1] == Entering(0, 8) && s1.pools == [Pool([], n - 1, 8)];
    var s2 := Extend(INITIAL, acts + [Lookup("db", 8)], s1, Enter(n - 1));
    assert s2.calls[n - 1] == Creating(0) && s2.pools == [Pool([], n, 8)];
    var s3 := Extend(INITIAL, acts + [Lookup("db", 8)] + [Enter(n - 1)], s2, Created(n - 1));
    acts := acts + [Lookup("db", 8)] + [Enter(n - 1)] + [Created(n - 1)];
    assert s3.calls == Saturated(n).calls && s3.home == Saturated(n).home && s3.pools == Saturated(n).pools;
    assert s3.table == Saturated(n).table;
  }

  /** Two more calls find everything taken and block. */
  lemma BlockTwo() returns (acts: seq<Action>, s: System)
    ensures Reaches(INITIAL, acts, s)
    ensures s.pools == [Pool([], 8, 8)] && |s.calls| == 10 && s.table == map["db" := 0]
    ensures forall i :: 0 <= i < 8 ==> s.calls[i] == Leased(0, i)
    ensures s.calls[8] == Blocked(0) && s.calls[9] == Blocked(0)
  {
    acts := ReachSaturated(8);
    s := Saturated(8);
    s := Extend(INITIAL, acts, s, Lookup("db", 8));
    acts := acts + [Lookup("db", 8)];
    assert s.calls[8] == Entering(0, 8);
    s := Extend(INITIAL, acts, s, Enter(8));
    acts := acts + [Enter(8)];
    s := Extend(INITIAL, acts, s, Lookup("db", 8));
    acts := acts + [Lookup("db", 8)];
    assert s.calls[9] == Entering(0, 8);
    s := Extend(INITIAL, acts, s, Enter(9));
    acts := acts + [Enter(9)];
  }

  lemma CountWaiters(s: System, p: nat, i: nat)
    requires i < |s.calls| && s.calls[i] == Blocked(p)
    requires forall j :: 0 <= j < |s.calls| ==> s.calls[j] != Woken(p)
    ensures Count(s.calls, BlockedOn(p)) > 0 && Count(s.calls, WokenOn(p)) == 0
  {
    CountZero(s.calls, BlockedOn(p));
    CountZero(s.calls, WokenOn(p));
    assert Matches(s.calls[i], BlockedOn(p));
  }

  /** After a run that lost nothing, call `i` enters with a limit above the one in force; then the
      pool has a free slot, a call is blocked on it, and nobody has been woken. */
  ghost predicate RaiseLoses(acts: seq<Action>, i: nat) {
    && IsRun(INITIAL, acts) && NeverLost(INITIAL, acts)
    && var s := After(INITIAL, acts);
       && Enabled(s, Enter(i))
       && var p := s.calls[i].pool;
          && s.calls[i].want > s.pools[p].limit
          && var s' := Step(s, Enter(i));
             && s'.pools[p].total < s'.pools[p].limit
             && Count(s'.calls, BlockedOn(p)) > 0 && Count(s'.calls, WokenOn(p)) == 0
  }

  lemma RaisingTheLimitLosesWakeups()
    ensures exists acts, i :: RaiseLoses(acts, i)
  {
    var acts, s := BlockTwo();
    var s1 := Extend(INITIAL, acts, s, Lookup("db", 10));
    acts := acts + [Lookup("db", 10)];
    CalmRunsLoseNothing(acts);
    assert s1.calls[10] == Entering(0, 10) && s1.calls[8] == Blocked(0);
    var s2 := Step(s1, Enter(10));
    assert s2.pools[0] == Pool([], 9, 10) && s2.calls[8] == Blocked(0);
    CountWaiters(s2, 0, 8);
    assert RaiseLoses(acts, 10);
  }

  /** After a run that lost nothing, call `i`, which has been notified, reports a timeout; then the
      pool has an idle session, another call is blocked on it, and nobody else has been woken. */
  ghost predicate LateTimeOutLoses(acts: seq<Action>, i: nat) {
    && IsRun(INITIAL, acts) && NeverLost(INITIAL, acts)
    && var s := After(INITIAL, acts);
       && Enabled(s, TimeOut(i)) && s.calls[i].Woken? && s.calls[i].pool < |s.pools|
       && var p := s.calls[i].pool;
          && var s' := Step(s, TimeOut(i));
             && s'.pools[p].idle != []
             && Count(s'.calls, BlockedOn(p)) > 0 && Count(s'.calls, WokenOn(p)) == 0
  }

  lemma LateTimeOutLosesWakeups()
    ensures exists acts, i :: LateTimeOutLoses(acts, i)
  {
    var acts, s := BlockTwo();
    assert s.calls[0] == Leased(0, 0);
    var s1 := Extend(INITIAL, acts, s, Release(0, Some(8)));
    acts := acts + [Release(0, Some(8))];
    CalmRunsLoseNothing(acts);
    assert s1.calls[8] == Woken(0) && s1.pools[0] == Pool([0], 8, 8);
    var s2 := Step(s1, TimeOut(8));
    assert s2.calls[9] == Blocked(0);
    CountWaiters(s2, 0, 9);
    assert LateTimeOutLoses(acts, 8);
  }

  lemma {:induction false} RunSnoc(s: System, xs: seq<Action>, a: Action)
    requires IsRun(s, xs) && Enabled(After(s, xs), a)
    ensures IsRun(s, xs + [a]) && After(s, xs + [a]) == Step(After(s, xs), a)
    decreases |xs|
  {
    if xs == [] {
      assert xs + [a] == [a] && [a][1..] == [];
      assert After(Step(s, a), []) == Step(s, a);
    } else {
      assert (xs + [a])[1..] == xs[1..] + [a];
      RunSnoc(Step(s, xs[0]), xs[1..], a);
    }
  }

  /** A blocked call, not notified, times out on a pool that has a free slot and nobody woken. */
  ghost predicate TimesOutBesideASlot(acts: seq<Action>, i: nat) {
    && IsRun(INITIAL, acts)
    && var s := After(INITIAL, acts);
       && Enabled(s, TimeOut(i)) && s.calls[i].Blocked? && s.calls[i].pool < |s.pools|
       && var p := s.calls[i].pool;
          && var s' := Step(s, TimeOut(i));
             s'.pools[p].total < s'.pools[p].limit && Count(s'.calls, WokenOn(p)) == 0
  }

  lemma TimeOutsCanIgnoreASlot()
    ensures exists acts, i :: TimesOutBesideASlot(acts, i)
  {
    var acts, s := BlockTwo();
    var s1 := Extend(INITIAL, acts, s, Lookup("db", 10));
    acts := acts + [Lookup("db", 10)];
    assert s1.calls[10] == Entering(0, 10) && s1.calls[8] == Blocked(0) && s1.calls[9] == Blocked(0);
    RunSnoc(INITIAL, acts, Enter(10));
    acts := acts + [Enter(10)];
    var s2 := After(INITIAL, acts);
    assert s2.pools[0] == Pool([], 9, 10) && s2.calls[8] == Blocked(0) && s2.calls[9] == Blocked(0);
    var s3 := Step(s2, TimeOut(8));
    CountWaiters(s3, 0, 9);
    assert TimesOutBesideASlot(acts, 8);
  }
}
