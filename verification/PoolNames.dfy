/** Which pool a connection string gets (src/oracle_connection_manager.cpp:113-122): over every
    interleaving a string's calls use pools created for that string, and no other string's. */
module PoolNames {
  import opened Wrappers
  import opened PoolModel
  import opened PoolInvariant

  // ---------------------------------------------------------------- one action

  /** A lookup: the new call has the pool the table has for its string, which is a new and empty
      one if the table had none; nothing else changes. */
  lemma LookupGives(s: System, conn: string, want: nat)
    ensures var s' := Step(s, Lookup(conn, want));
            && conn in s'.table
            && s'.calls == s.calls + [Entering(s'.table[conn], want)]
            && (forall k :: k != conn ==> (k in s'.table <==> k in s.table) && (k in s.table ==> s'.table[k] == s.table[k]))
            && s'.home == s.home
            && (conn in s.table ==> s'.table[conn] == s.table[conn] && s'.pools == s.pools)
            && (conn !in s.table ==> s'.table[conn] == |s.pools| && s'.pools == s.pools + [NEW_POOL])
  {
  }

  /** Clear empties the table and leaves pools, calls and sessions alone; nothing but Clear and
      Lookup touches the table. */
  lemma TableChanges(s: System, a: Action)
    requires Enabled(s, a)
    ensures a == Clear ==> Step(s, a) == System(s.pools, map[], s.calls, s.home)
    ensures a != Clear && !a.Lookup? ==> Step(s, a).table == s.table
  {
  }

  /** Until the next Clear a string keeps its pool. */
  lemma {:induction false} PoolKept(s: System, actions: seq<Action>, conn: string)
    requires IsRun(s, actions) && conn in s.table && Clear !in actions
    ensures conn in After(s, actions).table && After(s, actions).table[conn] == s.table[conn]
    decreases |actions|
  {
    if actions != [] {
      PoolKept(Step(s, actions[0]), actions[1..], conn);
    }
  }

  // ---------------------------------------------------------------- whole runs

  /** What a run was asked for: the string of every call (none for calls without caching), and the
      string each pool was first handed out for. */
  datatype Labels = Labels(calls: seq<Option<string>>, pools: seq<string>)

  /** One action: a lookup adds a call under its string, and labels the pool if there is a new one. */
  function Label(l: Labels, a: Action, newPool: bool): Labels {
    match a
    case Lookup(conn, _) => Labels(l.calls + [Some(conn)], if newPool then l.pools + [conn] else l.pools)
    case OpenAlone => Labels(l.calls + [None], l.pools)
    case _ => l
  }

  function LabelAll(l: Labels, s: System, actions: seq<Action>): Labels
    requires IsRun(s, actions)
    decreases |actions|
  {
    if actions == [] then l
    else
      var s' := Step(s, actions[0]);
      LabelAll(Label(l, actions[0], |s'.pools| > |s.pools|), s', actions[1..])
  }

  /** The pool a call is at, if it is at one. */
  function PoolOf(c: Call): Option<nat> {
    match c
    case Entering(p, _) => Some(p)
    case Blocked(p) => Some(p)
    case Woken(p) => Some(p)
    case Creating(p) => Some(p)
    case Leased(p, _) => Some(p)
    case CreatingAlone => None
    case LeasedAlone(_) => None
    case Ended => None
  }

  /** Table entries and calls agree with the labels of the pools they name. */
  ghost predicate Labelled(s: System, l: Labels) {
    && |l.calls| == |s.calls| && |l.pools| == |s.pools|
    && (forall k :: k in s.table ==> s.table[k] < |l.pools| && l.pools[s.table[k]] == k)
    && (forall i :: 0 <= i < |s.calls| && PoolOf(s.calls[i]).Some? ==>
          && PoolOf(s.calls[i]).value < |l.pools|
          && l.calls[i] == Some(l.pools[PoolOf(s.calls[i]).value]))
  }

  lemma StepLabelled(s: System, l: Labels, a: Action)
    requires Labelled(s, l) && Enabled(s, a)
    ensures Labelled(Step(s, a), Label(l, a, |Step(s, a).pools| > |s.pools|))
  {
    var s' := Step(s, a);
    forall i | 0 <= i < |s.calls| && PoolOf(s'.calls[i]).Some?
      ensures PoolOf(s'.calls[i]) == PoolOf(s.calls[i])
    {
    }
  }

  lemma {:induction false} RunLabelled(s: System, l: Labels, actions: seq<Action>)
    requires Labelled(s, l) && IsRun(s, actions)
    ensures Labelled(After(s, actions), LabelAll(l, s, actions))
    decreases |actions|
  {
    if actions != [] {
      var s' := Step(s, actions[0]);
      StepLabelled(s, l, actions[0]);
      RunLabelled(s', Label(l, actions[0], |s'.pools| > |s.pools|), actions[1..]);
    }
  }

  /** The labels of a run from the start. */
  function RunLabels(actions: seq<Action>): Labels
    requires IsRun(INITIAL, actions)
  {
    LabelAll(Labels([], []), INITIAL, actions)
  }

  /** No two connection strings share a pool, in any reachable state. */
  lemma PoolsAreNotShared(actions: seq<Action>, j: string, k: string)
    requires IsRun(INITIAL, actions)
    requires j in After(INITIAL, actions).table && k in After(INITIAL, actions).table && j != k
    ensures After(INITIAL, actions).table[j] != After(INITIAL, actions).table[k]
  {
    RunLabelled(INITIAL, Labels([], []), actions);
  }

  /** Over all runs: a session on loan was opened for a pool that was created for the connection
      string its call came in with; and a pool a string has in the table was created for it. */
  lemma LeasedForItsString(actions: seq<Action>, i: nat)
    requires IsRun(INITIAL, actions) && i < |After(INITIAL, actions).calls| && After(INITIAL, actions).calls[i].Leased?
    ensures var s, l := After(INITIAL, actions), RunLabels(actions);
            && |l.calls| == |s.calls| && |l.pools| == |s.pools|
            && s.calls[i].ctx < |s.home| && s.home[s.calls[i].ctx].Some?
            && var p := s.home[s.calls[i].ctx].value;
               p < |l.pools| && l.calls[i] == Some(l.pools[p])
  {
    RunKeepsInv(INITIAL, actions);
    RunLabelled(INITIAL, Labels([], []), actions);
    assert CallOk(After(INITIAL, actions), After(INITIAL, actions).calls[i]);
  }

  /** A session that two calls are given, one after the other, was asked for under one string. */
  lemma SameSessionSameString(actions: seq<Action>, more: seq<Action>, i: nat, j: nat)
    requires IsRun(INITIAL, actions) && IsRun(After(INITIAL, actions), more)
    requires i < |After(INITIAL, actions).calls| && After(INITIAL, actions).calls[i].Leased?
    requires j < |After(After(INITIAL, actions), more).calls| && After(After(INITIAL, actions), more).calls[j].Leased?
    requires After(INITIAL, actions).calls[i].ctx == After(After(INITIAL, actions), more).calls[j].ctx
    ensures IsRun(INITIAL, actions + more)
    ensures i < |RunLabels(actions + more).calls| && j < |RunLabels(actions + more).calls|
    ensures RunLabels(actions + more).calls[i] == RunLabels(actions + more).calls[j]
  {
    var s, t := After(INITIAL, actions), After(After(INITIAL, actions), more);
    RunAppend(INITIAL, Labels([], []), actions, more);
    RunKeepsInv(INITIAL, actions);
    RunKeepsInv(s, more);
    var l, l' := RunLabels(actions), RunLabels(actions + more);
    RunLabelled(INITIAL, Labels([], []), actions);
    RunLabelled(INITIAL, Labels([], []), actions + more);
    LabelsGrow(l, s, more);
    assert CallOk(s, s.calls[i]) && CallOk(t, t.calls[j]);
    HomeNeverChanges(s, more);
  }

  lemma {:induction false} RunAppend(s: System, l: Labels, xs: seq<Action>, ys: seq<Action>)
    requires IsRun(s, xs) && IsRun(After(s, xs), ys)
    ensures IsRun(s, xs + ys) && After(s, xs + ys) == After(After(s, xs), ys)
    ensures LabelAll(l, s, xs + ys) == LabelAll(LabelAll(l, s, xs), After(s, xs), ys)
    decreases |xs|
  {
    if xs == [] {
      assert xs + ys == ys;
    } else {
      assert (xs + ys)[1..] == xs[1..] + ys;
      var s' := Step(s, xs[0]);
      RunAppend(s', Label(l, xs[0], |s'.pools| > |s.pools|), xs[1..], ys);
    }
  }

  lemma {:induction false} LabelsGrow(l: Labels, s: System, actions: seq<Action>)
    requires IsRun(s, actions)
    ensures l.calls <= LabelAll(l, s, actions).calls && l.pools <= LabelAll(l, s, actions).pools
    decreases |actions|
  {
    if actions != [] {
      var s' := Step(s, actions[0]);
      LabelsGrow(Label(l, actions[0], |s'.pools| > |s.pools|), s', actions[1..]);
    }
  }

  // ---------------------------------------------------------------- calls without caching

  /** A handle without a pool has its session to itself: it is in no idle list, no other call has
      it, and it belongs to no pool. */
  lemma StandaloneIsAlone(actions: seq<Action>, i: nat)
    requires IsRun(INITIAL, actions) && i < |After(INITIAL, actions).calls| && After(INITIAL, actions).calls[i].LeasedAlone?
    ensures var s := After(INITIAL, actions);
            var x := s.calls[i].ctx;
            && x < |s.home| && s.home[x] == None
            && (forall p :: 0 <= p < |s.pools| ==> x !in s.pools[p].idle)
            && (forall j :: 0 <= j < |s.calls| && j != i ==> !Matches(s.calls[j], HolderOf(x)))
  {
    RunKeepsInv(INITIAL, actions);
    var s := After(INITIAL, actions);
    var x := s.calls[i].ctx;
    assert CallOk(s, s.calls[i]) && Placed(s, x) && Matches(s.calls[i], HolderOf(x));
    forall p | 0 <= p < |s.pools| ensures x !in s.pools[p].idle { assert IdleAtHome(s, p); }
    CountZero(s.calls, HolderOf(x));
    var k := CountOne(s.calls, HolderOf(x));
    assert k == i;
  }

  // ---------------------------------------------------------------- the limit

  /** The largest limit the calls that entered pool `p` so far have asked for, and the default. */
  function Asked(s: System, actions: seq<Action>, p: nat): nat
    requires IsRun(s, actions)
    decreases |actions|
  {
    if actions == [] then 0
    else
      var rest := Asked(Step(s, actions[0]), actions[1..], p);
      match actions[0]
      case Enter(i) => if s.calls[i].pool == p && s.calls[i].want > rest then s.calls[i].want else rest
      case _ => rest
  }

  lemma {:induction false} LimitIsAsked(s: System, actions: seq<Action>, p: nat)
    requires IsRun(s, actions) && p < |s.pools|
    ensures p < |After(s, actions).pools|
    ensures var asked, limit := Asked(s, actions, p), s.pools[p].limit;
            After(s, actions).pools[p].limit == if asked > limit then asked else limit
    decreases |actions|
  {
    if actions != [] {
      LimitIsAsked(Step(s, actions[0]), actions[1..], p);
    }
  }
}
