/** The objects of src/oracle_connection_manager.cpp, updated in place.  Each critical section is
    proved against the function that `PoolModel` uses for the same section, so what is proved
    there about all interleavings is about this code. */
module ConnectionManager {
  import opened Wrappers
  import opened PoolModel

  class OracleConnectionPool {
    var idle: seq<nat>
    var total: nat
    var limit: nat

    ghost function View(): Pool
      reads this
    {
      Pool(idle, total, limit)
    }

    constructor ()
      ensures View() == NEW_POOL
    {
      idle, total, limit := [], 0, DEFAULT_LIMIT;
    }

    method Raise(want: nat)
      modifies this
      ensures View() == RaiseLimit(old(View()), want)
    {
      if want > limit {
        limit := want;
      }
    }

    method TryAcquire() returns (o: Outcome)
      modifies this
      ensures (View(), o) == LoopBody(old(View()))
    {
      if |idle| > 0 {
        o := Take(idle[|idle| - 1]);
        idle := idle[..|idle| - 1];
      } else if total < limit {
        total := total + 1;
        o := Reserve;
      } else {
        o := Wait;
      }
    }

    method RollBackReservation()
      requires total > 0
      modifies this
      ensures View() == RollBack(old(View()))
    {
      total := total - 1;
    }

    method PushIdle(ctx: nat)
      modifies this
      ensures View() == GiveBack(old(View()), ctx)
    {
      idle := idle + [ctx];
    }
  }

  // ---------------------------------------------------------------- one call of Acquire

  /** What other calls may do to a pool while this one does not hold the lock. */
  datatype Event = OtherEnters(want: nat) | OtherRollsBack | OtherReturns(ctx: nat)

  function Apply(p: Pool, e: Event): Pool {
    match e
    case OtherEnters(want) => LoopBody(RaiseLimit(p, want)).0
    case OtherRollsBack => if p.total > 0 then RollBack(p) else p
    case OtherReturns(c) => GiveBack(p, c)
  }

  function ApplyAll(p: Pool, es: seq<Event>): Pool
    decreases |es|
  {
    if es == [] then p else ApplyAll(Apply(p, es[0]), es[1..])
  }

  method Interfere(pool: OracleConnectionPool, es: seq<Event>)
    modifies pool
    ensures pool.View() == ApplyAll(old(pool.View()), es)
  {
    ghost var start := pool.View();
    for i := 0 to |es|
      invariant ApplyAll(start, es) == ApplyAll(pool.View(), es[i..])
    {
      assert es[i..][0] == es[i] && es[i..][1..] == es[i + 1..];
      match es[i]
      case OtherEnters(want) =>
        pool.Raise(want);
        var _ := pool.TryAcquire();
      case OtherRollsBack =>
        if pool.total > 0 {
          pool.RollBackReservation();
        }
      case OtherReturns(c) =>
        pool.PushIdle(c);
    }
  }

  datatype AcquireResult = Handle(ctx: nat) | TimedOut | ConnectFailed

  /** The loop of `Acquire` on values.  `waits[k]` is what happens to the pool during the k-th wait
      that ends with a wakeup, `last` what happens during the wait that times out: a wait gives up
      the lock, and a timeout throws without looking at the pool again.  `during` is what happens
      while a session is being opened, and `session` is the session, if opening it works. */
  function AcquireLoop(p: Pool, waits: seq<seq<Event>>, last: seq<Event>, during: seq<Event>, session: Option<nat>)
    : (r: (Pool, AcquireResult))
    decreases |waits|
  {
    var (p', o) := LoopBody(p);
    match o
    case Take(c) => (p', Handle(c))
    case Reserve =>
      var q := ApplyAll(p', during);
      if session.Some? then (q, Handle(session.value))
      else if q.total > 0 then (RollBack(q), ConnectFailed)
      else (q, ConnectFailed)
    case Wait =>
      if waits == [] then (ApplyAll(p', last), TimedOut)
      else AcquireLoop(ApplyAll(p', waits[0]), waits[1..], last, during, session)
  }

  predicate NothingFree(p: Pool) {
    p.idle == [] && p.total >= p.limit
  }

  /** The pool as the call finds it when it looks for the `k`-th time, if it waited every time before. */
  function LookAt(p: Pool, waits: seq<seq<Event>>, k: nat): Pool
    requires k <= |waits|
  {
    if k == 0 then p else ApplyAll(LookAt(p, waits, k - 1), waits[k - 1])
  }

  /** How a call ends that last looked at pool `q`, leaving `p`.  An idle session is taken out of the
      list, the newest one; a slot is reserved only if there is none, and given back if the session
      cannot be opened; a timeout changes nothing itself. */
  ghost predicate EndsFrom(q: Pool, last: seq<Event>, during: seq<Event>, session: Option<nat>, p: Pool, r: AcquireResult) {
    match r
    case Handle(c) =>
      if q.idle != [] then p.idle + [c] == q.idle && p.total == q.total && p.limit == q.limit
      else q.total < q.limit && session == Some(c) && p == ApplyAll(Pool([], q.total + 1, q.limit), during)
    case ConnectFailed =>
      && q.idle == [] && q.total < q.limit && session == None
      && var held := ApplyAll(Pool([], q.total + 1, q.limit), during);
         p.idle == held.idle && p.limit == held.limit && (held.total > 0 ==> p.total + 1 == held.total)
    case TimedOut => NothingFree(q) && p == ApplyAll(q, last)
  }

  /** It found nothing free `k` times, and ended as it looked the next time. */
  ghost predicate EndsAtLook(p: Pool, waits: seq<seq<Event>>, last: seq<Event>, during: seq<Event>, session: Option<nat>,
                             p': Pool, r: AcquireResult, k: nat)
  {
    && k <= |waits|
    && (forall j :: 0 <= j < k ==> NothingFree(LookAt(p, waits, j)))
    && (r == TimedOut <==> NothingFree(LookAt(p, waits, k)))
    && (r == TimedOut ==> k == |waits|)
    && EndsFrom(LookAt(p, waits, k), last, during, session, p', r)
  }

  ghost predicate Ends(p: Pool, waits: seq<seq<Event>>, last: seq<Event>, during: seq<Event>, session: Option<nat>,
                       end: (Pool, AcquireResult))
  {
    exists k: nat :: EndsAtLook(p, waits, last, during, session, end.0, end.1, k)
  }

  lemma {:induction false} LookAtRest(p: Pool, waits: seq<seq<Event>>, k: nat)
    requires k < |waits|
    ensures LookAt(ApplyAll(p, waits[0]), waits[1..], k) == LookAt(p, waits, k + 1)
  {
    if k > 0 {
      LookAtRest(p, waits, k - 1);
    }
  }

  lemma EndsNow(p: Pool, waits: seq<seq<Event>>, last: seq<Event>, during: seq<Event>, session: Option<nat>)
    requires !NothingFree(p) || waits == []
    ensures var (p', r) := AcquireLoop(p, waits, last, during, session);
            EndsAtLook(p, waits, last, during, session, p', r, 0)
  {
    if p.idle == [] {
      assert p == Pool([], p.total, p.limit);
    } else {
      assert p.idle[..|p.idle| - 1] + [p.idle[|p.idle| - 1]] == p.idle;
    }
  }

  lemma EndsLater(p: Pool, waits: seq<seq<Event>>, last: seq<Event>, during: seq<Event>, session: Option<nat>,
                  p': Pool, r: AcquireResult, k: nat)
    requires NothingFree(p) && waits != []
    requires EndsAtLook(ApplyAll(p, waits[0]), waits[1..], last, during, session, p', r, k)
    ensures EndsAtLook(p, waits, last, during, session, p', r, k + 1)
  {
    LookAtRest(p, waits, k);
    forall j | 0 <= j < k + 1 ensures NothingFree(LookAt(p, waits, j)) {
      if j > 0 {
        LookAtRest(p, waits, j - 1);
      }
    }
  }

  /** However it ends, and whatever others did while it waited or opened a session: the result and
      the pool follow from the pool at its last look. */
  lemma {:induction false} EndsAsItLooked(p: Pool, waits: seq<seq<Event>>, last: seq<Event>, during: seq<Event>, session: Option<nat>)
    ensures Ends(p, waits, last, during, session, AcquireLoop(p, waits, last, during, session))
    decreases |waits|
  {
    var end := AcquireLoop(p, waits, last, during, session);
    if NothingFree(p) && waits != [] {
      EndsAsItLooked(ApplyAll(p, waits[0]), waits[1..], last, during, session);
      assert end == AcquireLoop(ApplyAll(p, waits[0]), waits[1..], last, during, session);
      var k: nat :| EndsAtLook(ApplyAll(p, waits[0]), waits[1..], last, during, session, end.0, end.1, k);
      EndsLater(p, waits, last, during, session, end.0, end.1, k);
    } else {
      EndsNow(p, waits, last, during, session);
    }
  }

  lemma {:induction false} ApplyLast(p: Pool, es: seq<Event>, e: Event)
    ensures ApplyAll(p, es + [e]) == Apply(ApplyAll(p, es), e)
    decreases |es|
  {
    if es == [] {
      assert es + [e] == [e] && [e][1..] == [];
      assert ApplyAll(Apply(p, e), []) == Apply(p, e);
    } else {
      assert (es + [e])[1..] == es[1..] + [e];
      ApplyLast(Apply(p, es[0]), es[1..], e);
    }
  }

  /** A session that comes back last during the last wait is left lying beside the timeout. */
  lemma TimeOutBesideASession(p: Pool, last: seq<Event>, c: nat, during: seq<Event>, session: Option<nat>)
    requires NothingFree(p)
    ensures var (q, r) := AcquireLoop(p, [], last + [OtherReturns(c)], during, session);
            r == TimedOut && q == GiveBack(ApplyAll(p, last), c) && c in q.idle
  {
    ApplyLast(p, last, OtherReturns(c));
  }

  /** Undisturbed, a call takes the newest idle session, or pays for a new one with one slot, or
      leaves the pool as it found it; a session that could not be opened costs no slot. */
  lemma UndisturbedAcquire(p: Pool, session: Option<nat>)
    ensures var (q, r) := AcquireLoop(p, [], [], [], session);
            match r
            case Handle(c) =>
              q.limit == p.limit &&
              if p.idle != [] then q.idle + [c] == p.idle && q.total == p.total
              else session == Some(c) && q.idle == [] && q.total == p.total + 1 && q.total <= q.limit
            case ConnectFailed => session == None && q == p && p.idle == [] && p.total < p.limit
            case TimedOut => q == p && NothingFree(p)
  {
  }

  /** Giving a session back undoes taking it: an undisturbed call and the end of its handle leave a
      pool that had an idle session as it was, and add the new session to one that had not; the
      next call is then served without opening one. */
  lemma ReturnUndoesAcquire(p: Pool, session: Option<nat>, next: Option<nat>)
    requires AcquireLoop(p, [], [], [], session).1.Handle?
    ensures var (q, r) := AcquireLoop(p, [], [], [], session);
            var back := GiveBack(q, r.ctx);
            && back == (if p.idle != [] then p else Pool([r.ctx], p.total + 1, p.limit))
            && AcquireLoop(back, [], [], [], next) == (q, r)
  {
    UndisturbedAcquire(p, session);
    var (q, r) := AcquireLoop(p, [], [], [], session);
    UndisturbedAcquire(GiveBack(q, r.ctx), next);
    assert (q.idle + [r.ctx])[..|q.idle|] == q.idle;
  }

  method Acquire(pool: OracleConnectionPool, want: nat, waits: seq<seq<Event>>, last: seq<Event>, during: seq<Event>,
                 session: Option<nat>)
    returns (r: AcquireResult)
    modifies pool
    ensures (pool.View(), r) == AcquireLoop(RaiseLimit(old(pool.View()), want), waits, last, during, session)
    ensures Ends(RaiseLimit(old(pool.View()), want), waits, last, during, session, (pool.View(), r))
  {
    pool.Raise(want);
    ghost var start := pool.View();
    EndsAsItLooked(start, waits, last, during, session);
    var k := 0;
    while true
      invariant k <= |waits|
      invariant AcquireLoop(start, waits, last, during, session)
                == AcquireLoop(pool.View(), waits[k..], last, during, session)
      decreases |waits| - k
    {
      var o := pool.TryAcquire();
      match o
      case Take(c) =>
        return Handle(c);
      case Reserve =>
        Interfere(pool, during);
        if session.Some? {
          return Handle(session.value);
        }
        if pool.total > 0 {
          pool.RollBackReservation();
        }
        return ConnectFailed;
      case Wait =>
        if k == |waits| {
          Interfere(pool, last);
          return TimedOut;
        }
        assert waits[k..][0] == waits[k] && waits[k..][1..] == waits[k + 1..];
        Interfere(pool, waits[k]);
        k := k + 1;
    }
  }

  // ---------------------------------------------------------------- handles and the manager

  class OracleConnectionHandle {
    var pool: OracleConnectionPool?
    var ctx: Option<nat>

    constructor (pool: OracleConnectionPool?, ctx: Option<nat>)
      ensures this.pool == pool && this.ctx == ctx
    {
      this.pool, this.ctx := pool, ctx;
    }

    /** The destructor: a pooled session goes back to the very pool object it came from. */
    method Destroy()
      modifies this, pool
      ensures ctx == None && pool == old(pool)
      ensures old(pool) != null && old(ctx).Some? ==> pool.View() == GiveBack(old(pool.View()), old(ctx).value)
      ensures old(pool) != null && old(ctx).None? ==> pool.View() == old(pool.View())
    {
      if pool != null && ctx.Some? {
        pool.PushIdle(ctx.value);
      }
      ctx := None;
    }
  }

  class OracleConnectionManager {
    var pools: map<string, OracleConnectionPool>

    constructor ()
      ensures pools == map[]
    {
      pools := map[];
    }

    method PoolFor(conn: string) returns (pool: OracleConnectionPool)
      modifies this
      ensures conn in old(pools) ==> pool == old(pools)[conn] && pools == old(pools)
      ensures conn !in old(pools) ==> fresh(pool) && pool.View() == NEW_POOL && pools == old(pools)[conn := pool]
    {
      if conn in pools {
        pool := pools[conn];
      } else {
        pool := new OracleConnectionPool();
        pools := pools[conn := pool];
      }
    }

    /** Drops the table only; the frame says that no pool object is touched. */
    method Clear()
      modifies this
      ensures pools == map[]
    {
      pools := map[];
    }

    /** A handle that outlives a `Clear` returns its session to its old pool, not to the new pool
        that the same connection string is given afterwards. */
    method ReleaseAfterClear(handle: OracleConnectionHandle, conn: string) returns (newPool: OracleConnectionPool)
      requires handle.pool != null && handle.ctx.Some?
      modifies this, handle, handle.pool
      ensures handle.pool == old(handle.pool) && newPool != handle.pool
      ensures handle.pool.View() == GiveBack(old(handle.pool.View()), old(handle.ctx).value)
      ensures newPool.View() == NEW_POOL && pools == map[conn := newPool]
    {
      Clear();
      newPool := PoolFor(conn);
      handle.Destroy();
    }
  }
}
