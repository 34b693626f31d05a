/** Rows, filter conjuncts and their meaning under SQL's three-valued logic, shared by DuckDB
    (which evaluates conjuncts on scan output) and Oracle (which evaluates WHERE clauses).
    Values are abstract: `V` with a comparison `cmp`; a cell is a value or NULL. */
module Relational {
  import opened Wrappers

  datatype Truth = True | False | Unknown

  function And(a: Truth, b: Truth): Truth {
    if a == False || b == False then False
    else if a == True && b == True then True
    else Unknown
  }

  /** The conjunction c1 AND c2 AND ... of a WHERE clause; an empty one lets every row pass. */
  function AndAll(ts: seq<Truth>): Truth {
    if ts == [] then True else And(ts[0], AndAll(ts[1..]))
  }

  lemma {:induction false} AndAllTrue(ts: seq<Truth>)
    ensures AndAll(ts) == True <==> forall i :: 0 <= i < |ts| ==> ts[i] == True
  {
    if ts != [] {
      AndAllTrue(ts[1..]);
      assert forall i :: 1 <= i < |ts| ==> ts[i] == ts[1..][i - 1];
    }
  }

  datatype Sign = Below | Same | Above

  function Flip(s: Sign): Sign {
    match s
    case Below => Above
    case Same => Same
    case Above => Below
  }

  ghost predicate Antisymmetric<V(!new)>(cmp: (V, V) -> Sign) {
    forall a, b :: cmp(a, b) == Flip(cmp(b, a))
  }

  /** The comparison operators of DuckDB expressions. */
  datatype CompareOp = Equal | LessThan | GreaterThan | LessOrEqual | GreaterOrEqual
                     | NotEqual | DistinctFrom | NotDistinctFrom

  predicate HoldsFor(op: CompareOp, s: Sign) {
    match op
    case Equal => s == Same
    case LessThan => s == Below
    case GreaterThan => s == Above
    case LessOrEqual => s != Above
    case GreaterOrEqual => s != Below
    case NotEqual => s != Same
    case DistinctFrom => s != Same
    case NotDistinctFrom => s == Same
  }

  function Compare<V>(cmp: (V, V) -> Sign, op: CompareOp, a: Option<V>, b: Option<V>): Truth {
    if a.Some? && b.Some? then
      if HoldsFor(op, cmp(a.value, b.value)) then True else False
    else if op == DistinctFrom then
      if a.None? && b.None? then False else True
    else if op == NotDistinctFrom then
      if a.None? && b.None? then True else False
    else Unknown
  }

  // ---------------------------------------------------------------- conjuncts

  /** An operand, as far as the extension looks into it.  Columns are positions in the scan's
      column list; `bound` tells the two kinds of column reference apart. */
  datatype Scalar<!V> =
    | ColumnRef(bound: bool, index: nat)
    | Constant(value: Option<V>)
    | Computed(cols: set<nat>, fn: map<nat, Option<V>> -> Option<V>)

  datatype Cond<!V> =
    | Comparison(op: CompareOp, left: Scalar<V>, right: Scalar<V>)
    | IsNullTest(children: seq<Scalar<V>>)
    | OtherCond(condReads: set<nat>, condFn: map<nat, Option<V>> -> Truth)

  function Restrict<V>(env: map<nat, Option<V>>, cols: set<nat>): map<nat, Option<V>> {
    map i | i in cols && i in env :: env[i]
  }

  function Lookup<V>(env: map<nat, Option<V>>, i: nat): Option<V> {
    if i in env then env[i] else None
  }

  function EvalScalar<V>(e: Scalar<V>, env: map<nat, Option<V>>): Option<V> {
    match e
    case ColumnRef(_, i) => Lookup(env, i)
    case Constant(v) => v
    case Computed(cols, fn) => fn(Restrict(env, cols))
  }

  function Eval<V>(cmp: (V, V) -> Sign, c: Cond<V>, env: map<nat, Option<V>>): Truth {
    match c
    case Comparison(op, l, r) => Compare(cmp, op, EvalScalar(l, env), EvalScalar(r, env))
    case IsNullTest(children) =>
      if |children| != 1 then Unknown
      else if EvalScalar(children[0], env).None? then True else False
    case OtherCond(cols, fn) => fn(Restrict(env, cols))
  }

  function ScalarReads<V>(e: Scalar<V>): set<nat> {
    match e
    case ColumnRef(_, i) => {i}
    case Constant(_) => {}
    case Computed(cols, _) => cols
  }

  function Reads<V>(c: Cond<V>): set<nat> {
    match c
    case Comparison(_, l, r) => ScalarReads(l) + ScalarReads(r)
    case IsNullTest(children) => if |children| == 1 then ScalarReads(children[0]) else {}
    case OtherCond(cols, _) => cols
  }

  ghost predicate AgreeOn<V>(a: map<nat, Option<V>>, b: map<nat, Option<V>>, cols: set<nat>) {
    forall i :: i in cols ==> (i in a <==> i in b) && (i in a ==> a[i] == b[i])
  }

  lemma ScalarAgrees<V>(e: Scalar<V>, a: map<nat, Option<V>>, b: map<nat, Option<V>>)
    requires AgreeOn(a, b, ScalarReads(e))
    ensures EvalScalar(e, a) == EvalScalar(e, b)
  {
    if e.Computed? {
      assert Restrict(a, e.cols) == Restrict(b, e.cols);
    }
  }

  /** A conjunct depends only on the columns it reads. */
  lemma EvalAgrees<V>(cmp: (V, V) -> Sign, c: Cond<V>, a: map<nat, Option<V>>, b: map<nat, Option<V>>)
    requires AgreeOn(a, b, Reads(c))
    ensures Eval(cmp, c, a) == Eval(cmp, c, b)
  {
    match c
    case Comparison(_, l, r) =>
      ScalarAgrees(l, a, b);
      ScalarAgrees(r, a, b);
    case IsNullTest(children) =>
      if |children| == 1 {
        ScalarAgrees(children[0], a, b);
      }
    case OtherCond(cols, _) =>
      assert Restrict(a, cols) == Restrict(b, cols);
  }

  function EvalAll<V>(cmp: (V, V) -> Sign, cs: seq<Cond<V>>, env: map<nat, Option<V>>): (ts: seq<Truth>)
    ensures |ts| == |cs|
    ensures forall i :: 0 <= i < |cs| ==> ts[i] == Eval(cmp, cs[i], env)
  {
    if cs == [] then [] else [Eval(cmp, cs[0], env)] + EvalAll(cmp, cs[1..], env)
  }

  predicate Passes<V>(cmp: (V, V) -> Sign, cs: seq<Cond<V>>, env: map<nat, Option<V>>) {
    AndAll(EvalAll(cmp, cs, env)) == True
  }

  lemma PassesIff<V>(cmp: (V, V) -> Sign, cs: seq<Cond<V>>, env: map<nat, Option<V>>)
    ensures Passes(cmp, cs, env) <==> forall i :: 0 <= i < |cs| ==> Eval(cmp, cs[i], env) == True
  {
    AndAllTrue(EvalAll(cmp, cs, env));
  }

  // ---------------------------------------------------------------- rows

  function RowEnv<V>(row: seq<Option<V>>): map<nat, Option<V>> {
    map i: nat | i < |row| :: row[i]
  }

  function Project<V>(row: seq<Option<V>>, ids: seq<nat>): (out: seq<Option<V>>)
    ensures |out| == |ids|
    ensures forall k :: 0 <= k < |ids| ==> out[k] == Lookup(RowEnv(row), ids[k])
  {
    seq(|ids|, k requires 0 <= k < |ids| => Lookup(RowEnv(row), ids[k]))
  }

  function ProjectAll<V>(rows: seq<seq<Option<V>>>, ids: seq<nat>): seq<seq<Option<V>>> {
    if rows == [] then [] else [Project(rows[0], ids)] + ProjectAll(rows[1..], ids)
  }

  /** The rows of a relation that satisfy every conjunct, in order. */
  function Keep<V>(cmp: (V, V) -> Sign, cs: seq<Cond<V>>, rows: seq<seq<Option<V>>>): seq<seq<Option<V>>> {
    if rows == [] then []
    else (if Passes(cmp, cs, RowEnv(rows[0])) then [rows[0]] else []) + Keep(cmp, cs, rows[1..])
  }

  /** First position of `x`, or the length when it is absent. */
  function IndexOf<T(==)>(xs: seq<T>, x: T): (k: nat)
    ensures k <= |xs|
    ensures k < |xs| ==> xs[k] == x
    ensures forall j :: 0 <= j < k ==> xs[j] != x
    ensures k < |xs| <==> x in xs
  {
    if xs == [] then 0 else if xs[0] == x then 0 else 1 + IndexOf(xs[1..], x)
  }

  /** A scan output row for the table columns `ids`, seen as an environment for conjuncts. */
  function ScanEnv<V>(ids: seq<nat>, out: seq<Option<V>>): map<nat, Option<V>> {
    map i | i in ids && IndexOf(ids, i) < |out| :: out[IndexOf(ids, i)]
  }

  /** DuckDB's own filter above the scan. */
  function KeepScanned<V>(cmp: (V, V) -> Sign, cs: seq<Cond<V>>, ids: seq<nat>, outs: seq<seq<Option<V>>>)
    : seq<seq<Option<V>>>
  {
    if outs == [] then []
    else (if Passes(cmp, cs, ScanEnv(ids, outs[0])) then [outs[0]] else []) + KeepScanned(cmp, cs, ids, outs[1..])
  }
}
