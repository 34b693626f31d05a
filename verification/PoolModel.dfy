/** The session pools of src/oracle_connection_manager.cpp as a system of interleaved atomic steps.

    A `Pool` is one OracleConnectionPool object.  Pools are named by their position in
    `System.pools` and are never removed from it: `Clear` only empties the table that maps
    connection strings to pools, so handles and waiters keep the pool they already point to.

    A `Call` is one invocation of `Acquire` followed through to the death of the handle it
    returned.  Every critical section of the code is one `Action`, so a sequence of enabled
    actions is one interleaving. */
module PoolModel {

  import opened Wrappers

  // ---------------------------------------------------------------- one pool

  datatype Pool = Pool(idle: seq<nat>, total: nat, limit: nat)

  const DEFAULT_LIMIT: nat := 8

  const NEW_POOL: Pool := Pool([], 0, DEFAULT_LIMIT)

  /** Sessions a caller could get without waiting: idle ones, and slots not yet reserved. */
  function FreeUnits(p: Pool): int {
    |p.idle| + p.limit - p.total
  }

  function RaiseLimit(p: Pool, want: nat): Pool {
    if want > p.limit then p.(limit := want) else p
  }

  datatype Outcome = Take(ctx: nat) | Reserve | Wait

  /** One pass of the loop in `Acquire`, up to the point where the lock is given up. */
  function LoopBody(p: Pool): (Pool, Outcome) {
    if p.idle != [] then
      var last := |p.idle| - 1;
      (p.(idle := p.idle[..last]), Take(p.idle[last]))
    else if p.total < p.limit then
      (p.(total := p.total + 1), Reserve)
    else
      (p, Wait)
  }

  function RollBack(p: Pool): Pool
    requires p.total > 0
  {
    p.(total := p.total - 1)
  }

  function GiveBack(p: Pool, ctx: nat): Pool {
    p.(idle := p.idle + [ctx])
  }

  // ---------------------------------------------------------------- the system

  datatype Call =
    | Entering(pool: nat, want: nat)    // has its pool, has not locked it yet
    | Blocked(pool: nat)                // waiting on the condition variable
    | Woken(pool: nat)                  // notified (or spuriously woken), not yet running
    | Creating(pool: nat)               // holds a reserved slot, opening a session
    | Leased(pool: nat, ctx: nat)       // returned a handle that is still alive
    | CreatingAlone                     // caching off: opening a session
    | LeasedAlone(ctx: nat)             // caching off: live handle without a pool
    | Ended                             // thrown, or handle destroyed

  /** `home` remembers, for each session ever opened, the pool it was opened for. */
  datatype System = System(
    pools: seq<Pool>,
    table: map<string, nat>,
    calls: seq<Call>,
    home: seq<Option<nat>>)

  const INITIAL: System := System([], map[], [], [])

  datatype Action =
    | Lookup(conn: string, want: nat)
    | Enter(call: nat)
    | Rerun(call: nat)
    | Created(call: nat)
    | CreateFailed(call: nat, wake: Option<nat>)
    | Release(call: nat, wake: Option<nat>)
    | Spurious(call: nat)
    | TimeOut(call: nat)
    | Clear
    | OpenAlone
    | CreatedAlone(call: nat)
    | AloneFailed(call: nat)
    | CloseAlone(call: nat)

  /** `notify_one` wakes one blocked call of the pool if there is one. */
  predicate ValidWake(s: System, p: nat, wake: Option<nat>) {
    match wake
    case Some(w) => w < |s.calls| && s.calls[w] == Blocked(p)
    case None => forall i :: 0 <= i < |s.calls| ==> s.calls[i] != Blocked(p)
  }

  predicate Enabled(s: System, a: Action) {
    match a
    case Lookup(_, _) => true
    case Enter(i) => i < |s.calls| && s.calls[i].Entering? && s.calls[i].pool < |s.pools|
    case Rerun(i) => i < |s.calls| && s.calls[i].Woken? && s.calls[i].pool < |s.pools|
    case Created(i) => i < |s.calls| && s.calls[i].Creating?
    case CreateFailed(i, w) =>
      && i < |s.calls| && s.calls[i].Creating?
      && s.calls[i].pool < |s.pools| && s.pools[s.calls[i].pool].total > 0
      && ValidWake(s, s.calls[i].pool, w)
    case Release(i, w) =>
      && i < |s.calls| && s.calls[i].Leased? && s.calls[i].pool < |s.pools|
      && ValidWake(s, s.calls[i].pool, w)
    case Spurious(i) => i < |s.calls| && s.calls[i].Blocked?
    case TimeOut(i) => i < |s.calls| && (s.calls[i].Blocked? || s.calls[i].Woken?)
    case Clear => true
    case OpenAlone => true
    case CreatedAlone(i) => i < |s.calls| && s.calls[i].CreatingAlone?
    case AloneFailed(i) => i < |s.calls| && s.calls[i].CreatingAlone?
    case CloseAlone(i) => i < |s.calls| && s.calls[i].LeasedAlone?
  }

  function Wake(calls: seq<Call>, wake: Option<nat>): seq<Call>
    requires wake.Some? ==> wake.value < |calls| && calls[wake.value].Blocked?
  {
    match wake
    case Some(w) => calls[w := Woken(calls[w].pool)]
    case None => calls
  }

  /** The call at `i` runs the loop body on pool `p`, whose current contents are `pool`. */
  function RunLoop(s: System, i: nat, p: nat, pool: Pool): System
    requires i < |s.calls| && p < |s.pools|
  {
    var (pool', o) := LoopBody(pool);
    var next := match o
      case Take(c) => Leased(p, c)
      case Reserve => Creating(p)
      case Wait => Blocked(p);
    s.(pools := s.pools[p := pool'], calls := s.calls[i := next])
  }

  function Step(s: System, a: Action): System
    requires Enabled(s, a)
  {
    match a
    case Lookup(conn, want) =>
      if conn in s.table then
        s.(calls := s.calls + [Entering(s.table[conn], want)])
      else
        s.(pools := s.pools + [NEW_POOL],
           table := s.table[conn := |s.pools|],
           calls := s.calls + [Entering(|s.pools|, want)])
    case Enter(i) =>
      var p := s.calls[i].pool;
      RunLoop(s, i, p, RaiseLimit(s.pools[p], s.calls[i].want))
    case Rerun(i) =>
      var p := s.calls[i].pool;
      RunLoop(s, i, p, s.pools[p])
    case Created(i) =>
      var p := s.calls[i].pool;
      s.(calls := s.calls[i := Leased(p, |s.home|)], home := s.home + [Some(p)])
    case CreateFailed(i, w) =>
      var p := s.calls[i].pool;
      s.(pools := s.pools[p := RollBack(s.pools[p])], calls := Wake(s.calls, w)[i := Ended])
    case Release(i, w) =>
      var p := s.calls[i].pool;
      s.(pools := s.pools[p := GiveBack(s.pools[p], s.calls[i].ctx)], calls := Wake(s.calls, w)[i := Ended])
    case Spurious(i) => s.(calls := s.calls[i := Woken(s.calls[i].pool)])
    case TimeOut(i) => s.(calls := s.calls[i := Ended])
    case Clear => s.(table := map[])
    case OpenAlone => s.(calls := s.calls + [CreatingAlone])
    case CreatedAlone(i) => s.(calls := s.calls[i := LeasedAlone(|s.home|)], home := s.home + [None])
    case AloneFailed(i) => s.(calls := s.calls[i := Ended])
    case CloseAlone(i) => s.(calls := s.calls[i := Ended])
  }

  /** Every action of the sequence is enabled where it is taken. */
  predicate IsRun(s: System, actions: seq<Action>)
    decreases |actions|
  {
    actions == [] || (Enabled(s, actions[0]) && IsRun(Step(s, actions[0]), actions[1..]))
  }

  function After(s: System, actions: seq<Action>): System
    requires IsRun(s, actions)
    decreases |actions|
  {
    if actions == [] then s else After(Step(s, actions[0]), actions[1..])
  }

  // ---------------------------------------------------------------- counting calls

  datatype Tag =
    | BlockedOn(pool: nat)
    | WokenOn(pool: nat)
    | CreatingOn(pool: nat)
    | LeasedFrom(pool: nat)
    | HolderOf(ctx: nat)

  predicate Matches(c: Call, t: Tag) {
    match t
    case BlockedOn(p) => c == Blocked(p)
    case WokenOn(p) => c == Woken(p)
    case CreatingOn(p) => c == Creating(p)
    case LeasedFrom(p) => c.Leased? && c.pool == p
    case HolderOf(x) => (c.Leased? || c.LeasedAlone?) && c.ctx == x
  }

  function Count(calls: seq<Call>, t: Tag): nat {
    if calls == [] then 0
    else Count(calls[..|calls| - 1], t) + if Matches(calls[|calls| - 1], t) then 1 else 0
  }

  function Occurs(xs: seq<nat>, x: nat): nat {
    if xs == [] then 0
    else Occurs(xs[..|xs| - 1], x) + if xs[|xs| - 1] == x then 1 else 0
  }

  function Bit(b: bool): nat { if b then 1 else 0 }

  lemma {:induction false} CountUpdate(calls: seq<Call>, i: nat, c: Call, t: Tag)
    requires i < |calls|
    ensures Count(calls[i := c], t) == Count(calls, t) - Bit(Matches(calls[i], t)) + Bit(Matches(c, t))
  {
    var n := |calls| - 1;
    if i == n {
      assert calls[i := c][..n] == calls[..n];
    } else {
      assert calls[i := c][..n] == calls[..n][i := c];
      CountUpdate(calls[..n], i, c, t);
    }
  }

  lemma CountAppend(calls: seq<Call>, c: Call, t: Tag)
    ensures Count(calls + [c], t) == Count(calls, t) + Bit(Matches(c, t))
  {
    assert (calls + [c])[..|calls|] == calls;
  }

  lemma {:induction false} CountZero(calls: seq<Call>, t: Tag)
    ensures Count(calls, t) == 0 <==> forall i :: 0 <= i < |calls| ==> !Matches(calls[i], t)
  {
    if calls != [] {
      CountZero(calls[..|calls| - 1], t);
      assert forall i :: 0 <= i < |calls| - 1 ==> calls[i] == calls[..|calls| - 1][i];
    }
  }

  /** A count of one means one position and no other. */
  lemma {:induction false} CountOne(calls: seq<Call>, t: Tag) returns (k: nat)
    requires Count(calls, t) == 1
    ensures k < |calls| && Matches(calls[k], t)
    ensures forall i :: 0 <= i < |calls| && i != k ==> !Matches(calls[i], t)
  {
    var n := |calls| - 1;
    if Matches(calls[n], t) {
      CountZero(calls[..n], t);
      k := n;
      assert forall i :: 0 <= i < n ==> calls[i] == calls[..n][i];
    } else {
      k := CountOne(calls[..n], t);
      assert forall i :: 0 <= i < n ==> calls[i] == calls[..n][i];
    }
  }

  lemma OccursAppend(xs: seq<nat>, y: nat, x: nat)
    ensures Occurs(xs + [y], x) == Occurs(xs, x) + Bit(x == y)
  {
    assert (xs + [y])[..|xs|] == xs;
  }

  lemma {:induction false} OccursZero(xs: seq<nat>, x: nat)
    ensures Occurs(xs, x) == 0 <==> x !in xs
  {
    if xs != [] {
      OccursZero(xs[..|xs| - 1], x);
      assert xs == xs[..|xs| - 1] + [xs[|xs| - 1]];
    }
  }

  lemma {:induction false} OccursOne(xs: seq<nat>, x: nat) returns (k: nat)
    requires Occurs(xs, x) == 1
    ensures k < |xs| && xs[k] == x
    ensures forall i :: 0 <= i < |xs| && i != k ==> xs[i] != x
  {
    var n := |xs| - 1;
    if xs[n] == x {
      OccursZero(xs[..n], x);
      k := n;
      assert forall i :: 0 <= i < n ==> xs[i] == xs[..n][i];
    } else {
      k := OccursOne(xs[..n], x);
      assert forall i :: 0 <= i < n ==> xs[i] == xs[..n][i];
    }
  }
}
