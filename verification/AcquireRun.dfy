/** The loop of `Acquire` as a run of the interleaving model (src/oracle_connection_manager.cpp:124-158):
    what the loop does to a pool, among whatever other calls do meanwhile, is what the actions of one
    call do in `PoolModel`, so everything proved about runs is about the loop. */
module AcquireRun {
  import opened Wrappers
  import opened PoolModel
  import opened PoolInvariant
  import opened ConnectionManager

  // ---------------------------------------------------------------- other calls

  /** What an action does to pool `p`, as events. */
  function EventOf(s: System, p: nat, a: Action): seq<Event>
    requires Enabled(s, a)
  {
    match a
    case Enter(i) => if s.calls[i].pool == p then [OtherEnters(s.calls[i].want)] else []
    case Rerun(i) => if s.calls[i].pool == p then [OtherEnters(0)] else []
    case CreateFailed(i, _) => if s.calls[i].pool == p then [OtherRollsBack] else []
    case Release(i, _) => if s.calls[i].pool == p then [OtherReturns(s.calls[i].ctx)] else []
    case _ => []
  }

  function EventsOf(s: System, p: nat, actions: seq<Action>): seq<Event>
    requires IsRun(s, actions)
    decreases |actions|
  {
    if actions == [] then [] else EventOf(s, p, actions[0]) + EventsOf(Step(s, actions[0]), p, actions[1..])
  }

  lemma ApplyBoth(p: Pool, e: seq<Event>, es: seq<Event>)
    requires |e| <= 1
    ensures ApplyAll(p, e + es) == ApplyAll(ApplyAll(p, e), es)
  {
    if e == [] {
      assert e + es == es;
    } else {
      assert (e + es)[1..] == es && e[1..] == [];
      assert ApplyAll(Apply(p, e[0]), []) == Apply(p, e[0]);
    }
  }

  lemma OneEvent(s: System, p: nat, a: Action)
    requires Enabled(s, a) && p < |s.pools|
    ensures p < |Step(s, a).pools|
    ensures Step(s, a).pools[p] == ApplyAll(s.pools[p], EventOf(s, p, a))
  {
    var es := EventOf(s, p, a);
    if es != [] {
      assert es[1..] == [];
      assert ApplyAll(Apply(s.pools[p], es[0]), []) == Apply(s.pools[p], es[0]);
    }
  }

  /** A pool after some actions is the pool after their events. */
  lemma {:induction false} EventsAgree(s: System, p: nat, actions: seq<Action>)
    requires IsRun(s, actions) && p < |s.pools|
    ensures p < |After(s, actions).pools|
    ensures After(s, actions).pools[p] == ApplyAll(s.pools[p], EventsOf(s, p, actions))
    decreases |actions|
  {
    if actions != [] {
      OneEvent(s, p, actions[0]);
      EventsAgree(Step(s, actions[0]), p, actions[1..]);
      ApplyBoth(s.pools[p], EventOf(s, p, actions[0]), EventsOf(Step(s, actions[0]), p, actions[1..]));
    }
  }

  // ---------------------------------------------------------------- the call itself

  /** What others do during each wait that a wakeup ends, during the wait that times out, and while a
      session is opened; whether opening works, and whom giving the slot back wakes if not. */
  datatype Env = Env(waits: seq<seq<Action>>, last: seq<Action>, during: seq<Action>, opens: bool, wake: Option<nat>)

  /** Call `i` is about to look at pool `p`: it enters, or a wait has ended. */
  predicate Looking(s: System, i: nat, p: nat) {
    && i < |s.calls| && p < |s.pools|
    && (s.calls[i] == Woken(p) || (s.calls[i].Entering? && s.calls[i].pool == p))
  }

  function Look(s: System, i: nat, p: nat): Action
    requires Looking(s, i, p)
  {
    if s.calls[i].Entering? then Enter(i) else Rerun(i)
  }

  /** The pool the loop body runs on: a call that enters raises the limit first. */
  function Seen(s: System, i: nat, p: nat): Pool
    requires Looking(s, i, p)
  {
    if s.calls[i].Entering? then RaiseLimit(s.pools[p], s.calls[i].want) else s.pools[p]
  }

  /** Others can do all this while the call waits or opens a session, and it is woken where it has
      to be. */
  ghost predicate Feasible(s: System, i: nat, p: nat, env: Env)
    decreases |env.waits|
  {
    Looking(s, i, p) &&
    var s1 := Step(s, Look(s, i, p));
    match LoopBody(Seen(s, i, p)).1
    case Take(_) => true
    case Reserve =>
      && IsRun(s1, env.during)
      && var s2 := After(s1, env.during);
         && i < |s2.calls| && s2.calls[i] == Creating(p) && p < |s2.pools|
         && (!env.opens ==> Enabled(s2, CreateFailed(i, env.wake)))
    case Wait =>
      if env.waits == [] then
        && IsRun(s1, env.last)
        && var s2 := After(s1, env.last);
           i < |s2.calls| && p < |s2.pools| && (s2.calls[i] == Blocked(p) || s2.calls[i] == Woken(p))
      else
        && IsRun(s1, env.waits[0])
        && var s2 := After(s1, env.waits[0]);
           i < |s2.calls| && s2.calls[i] == Woken(p) && Feasible(s2, i, p, env.(waits := env.waits[1..]))
  }

  /** All actions, the call's own and the others', in the order in which they happen. */
  ghost function RunOf(s: System, i: nat, p: nat, env: Env): seq<Action>
    requires Feasible(s, i, p, env)
    decreases |env.waits|
  {
    var s1 := Step(s, Look(s, i, p));
    [Look(s, i, p)] +
    match LoopBody(Seen(s, i, p)).1
    case Take(_) => []
    case Reserve => env.during + [if env.opens then Created(i) else CreateFailed(i, env.wake)]
    case Wait =>
      if env.waits == [] then env.last + [TimeOut(i)]
      else env.waits[0] + RunOf(After(s1, env.waits[0]), i, p, env.(waits := env.waits[1..]))
  }

  /** What the loop is told of it: events on its pool, and the session if one is opened. */
  datatype Told = Told(waits: seq<seq<Event>>, last: seq<Event>, during: seq<Event>, session: Option<nat>)

  ghost function ToldOf(s: System, i: nat, p: nat, env: Env): Told
    requires Feasible(s, i, p, env)
    decreases |env.waits|
  {
    var s1 := Step(s, Look(s, i, p));
    match LoopBody(Seen(s, i, p)).1
    case Take(_) => Told([], [], [], None)
    case Reserve =>
      Told([], [], EventsOf(s1, p, env.during), if env.opens then Some(|After(s1, env.during).home|) else None)
    case Wait =>
      if env.waits == [] then Told([], EventsOf(s1, p, env.last), [], None)
      else
        var rest := ToldOf(After(s1, env.waits[0]), i, p, env.(waits := env.waits[1..]));
        rest.(waits := [EventsOf(s1, p, env.waits[0])] + rest.waits)
  }

  /** The result of the loop, as the state of the call. */
  predicate Shows(c: Call, p: nat, r: AcquireResult) {
    match r
    case Handle(ctx) => c == Leased(p, ctx)
    case TimedOut => c == Ended
    case ConnectFailed => c == Ended
  }

  /** After `actions` call `i` and pool `p` are as the loop leaves them. */
  ghost predicate LeavesAs(s: System, actions: seq<Action>, i: nat, p: nat, end: (Pool, AcquireResult)) {
    && IsRun(s, actions)
    && var t := After(s, actions);
       i < |t.calls| && p < |t.pools| && t.pools[p] == end.0 && Shows(t.calls[i], p, end.1)
  }

  lemma {:induction false} RunsAppend(s: System, xs: seq<Action>, ys: seq<Action>)
    requires IsRun(s, xs) && IsRun(After(s, xs), ys)
    ensures IsRun(s, xs + ys) && After(s, xs + ys) == After(After(s, xs), ys)
    decreases |xs|
  {
    if xs == [] {
      assert xs + ys == ys;
    } else {
      assert (xs + ys)[1..] == xs[1..] + ys;
      RunsAppend(Step(s, xs[0]), xs[1..], ys);
    }
  }

  lemma RunsCons(s: System, a: Action, ys: seq<Action>)
    requires Enabled(s, a) && IsRun(Step(s, a), ys)
    ensures IsRun(s, [a] + ys) && After(s, [a] + ys) == After(Step(s, a), ys)
  {
    assert ([a] + ys)[1..] == ys;
  }

  lemma RunOne(s: System, xs: seq<Action>)
    requires |xs| == 1 && Enabled(s, xs[0])
    ensures IsRun(s, xs) && After(s, xs) == Step(s, xs[0])
  {
    assert xs[1..] == [];
    assert After(Step(s, xs[0]), xs[1..]) == Step(s, xs[0]);
  }

  /** One action, what others do then, and one last action. */
  lemma RunsThen(s: System, a: Action, xs: seq<Action>, b: Action)
    requires Enabled(s, a) && IsRun(Step(s, a), xs) && Enabled(After(Step(s, a), xs), b)
    ensures IsRun(s, [a] + (xs + [b])) && After(s, [a] + (xs + [b])) == Step(After(Step(s, a), xs), b)
  {
    var t := After(Step(s, a), xs);
    RunOne(t, [b]);
    RunsAppend(Step(s, a), xs, [b]);
    RunsCons(s, a, xs + [b]);
  }

  /** A call that finds an idle session. */
  lemma TakeRuns(s: System, i: nat, p: nat, env: Env)
    requires Feasible(s, i, p, env) && LoopBody(Seen(s, i, p)).1.Take?
    ensures var told := ToldOf(s, i, p, env);
            LeavesAs(s, RunOf(s, i, p, env), i, p, AcquireLoop(Seen(s, i, p), told.waits, told.last, told.during, told.session))
  {
    var a := Look(s, i, p);
    RunsCons(s, a, []);
    assert [a] + [] == [a];
    assert After(Step(s, a), []) == Step(s, a);
  }

  lemma ReserveRuns(s: System, i: nat, p: nat, env: Env)
    requires Feasible(s, i, p, env) && LoopBody(Seen(s, i, p)).1.Reserve?
    ensures var told := ToldOf(s, i, p, env);
            LeavesAs(s, RunOf(s, i, p, env), i, p, AcquireLoop(Seen(s, i, p), told.waits, told.last, told.during, told.session))
  {
    var a := Look(s, i, p);
    var s1 := Step(s, a);
    EventsAgree(s1, p, env.during);
    RunsThen(s, a, env.during, if env.opens then Created(i) else CreateFailed(i, env.wake));
  }

  lemma TimeOutRuns(s: System, i: nat, p: nat, env: Env)
    requires Feasible(s, i, p, env) && LoopBody(Seen(s, i, p)).1.Wait? && env.waits == []
    ensures var told := ToldOf(s, i, p, env);
            LeavesAs(s, RunOf(s, i, p, env), i, p, AcquireLoop(Seen(s, i, p), told.waits, told.last, told.during, told.session))
  {
    var a := Look(s, i, p);
    EventsAgree(Step(s, a), p, env.last);
    RunsThen(s, a, env.last, TimeOut(i));
  }

  /** The loop is a run: for any interleaving of other calls with it, the model's actions in that
      order leave its pool, and end the call, as the loop does. */
  lemma {:induction false} AcquireIsARun(s: System, i: nat, p: nat, env: Env)
    requires Feasible(s, i, p, env)
    ensures var told := ToldOf(s, i, p, env);
            LeavesAs(s, RunOf(s, i, p, env), i, p, AcquireLoop(Seen(s, i, p), told.waits, told.last, told.during, told.session))
    decreases |env.waits|
  {
    var o := LoopBody(Seen(s, i, p)).1;
    if o.Take? {
      TakeRuns(s, i, p, env);
    } else if o.Reserve? {
      ReserveRuns(s, i, p, env);
    } else if env.waits == [] {
      TimeOutRuns(s, i, p, env);
    } else {
      WaitRuns(s, i, p, env);
    }
  }

  lemma WaitRuns(s: System, i: nat, p: nat, env: Env)
    requires Feasible(s, i, p, env) && LoopBody(Seen(s, i, p)).1.Wait? && env.waits != []
    ensures var told := ToldOf(s, i, p, env);
            LeavesAs(s, RunOf(s, i, p, env), i, p, AcquireLoop(Seen(s, i, p), told.waits, told.last, told.during, told.session))
    decreases |env.waits|, 0
  {
    var a := Look(s, i, p);
    var s1 := Step(s, a);
    var s2, env' := After(s1, env.waits[0]), env.(waits := env.waits[1..]);
    EventsAgree(s1, p, env.waits[0]);
    AcquireIsARun(s2, i, p, env');
    var rest, told' := RunOf(s2, i, p, env'), ToldOf(s2, i, p, env');
    RunsAppend(s1, env.waits[0], rest);
    RunsCons(s, a, env.waits[0] + rest);
    var told := ToldOf(s, i, p, env);
    assert told.waits[0] == EventsOf(s1, p, env.waits[0]) && told.waits[1..] == told'.waits;
    assert s1.pools[p] == Seen(s, i, p);
    assert Seen(s2, i, p) == ApplyAll(s1.pools[p], told.waits[0]);
  }

  /** So in any reachable state, however the loop is interleaved with other calls: the session it
      hands out is in no idle list of any pool, no other call has it, and its home is this pool. */
  lemma AcquiredExclusively(actions: seq<Action>, i: nat, p: nat, env: Env)
    requires IsRun(INITIAL, actions) && Feasible(After(INITIAL, actions), i, p, env)
    ensures var s := After(INITIAL, actions);
            var told := ToldOf(s, i, p, env);
            var r := AcquireLoop(Seen(s, i, p), told.waits, told.last, told.during, told.session).1;
            && IsRun(s, RunOf(s, i, p, env))
            && var t := After(s, RunOf(s, i, p, env));
               r.Handle? ==>
                 && r.ctx < |t.home| && t.home[r.ctx] == Some(p)
                 && (forall q :: 0 <= q < |t.pools| ==> r.ctx !in t.pools[q].idle)
                 && (forall j :: 0 <= j < |t.calls| && j != i ==> !Matches(t.calls[j], HolderOf(r.ctx)))
  {
    var s := After(INITIAL, actions);
    AcquireIsARun(s, i, p, env);
    RunKeepsInv(INITIAL, actions);
    RunKeepsInv(s, RunOf(s, i, p, env));
    var t, told := After(s, RunOf(s, i, p, env)), ToldOf(s, i, p, env);
    var r := AcquireLoop(Seen(s, i, p), told.waits, told.last, told.during, told.session).1;
    if r.Handle? {
      HeldAlone(t, i, p, r.ctx);
    }
  }

  lemma HeldAlone(t: System, i: nat, p: nat, x: nat)
    requires Inv(t) && i < |t.calls| && t.calls[i] == Leased(p, x)
    ensures x < |t.home| && t.home[x] == Some(p)
    ensures forall q :: 0 <= q < |t.pools| ==> x !in t.pools[q].idle
    ensures forall j :: 0 <= j < |t.calls| && j != i ==> !Matches(t.calls[j], HolderOf(x))
  {
    assert CallOk(t, t.calls[i]) && Placed(t, x) && Matches(t.calls[i], HolderOf(x));
    CountZero(t.calls, HolderOf(x));
    OccursZero(t.pools[p].idle, x);
    var k := CountOne(t.calls, HolderOf(x));
    assert k == i;
    forall q | 0 <= q < |t.pools| ensures x !in t.pools[q].idle { assert IdleAtHome(t, q); }
  }
}
