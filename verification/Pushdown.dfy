/** Filter and projection pushdown (src/oracle_extension.cpp:887-1121): conjuncts that compare a
    column with a constant, or test a column for NULL, move into the WHERE clause of the remote
    query; the others stay with DuckDB.  Proved to preserve the meaning of the whole query. */
module Pushdown {
  import opened Wrappers
  import opened Sequences
  import opened Relational

  const INVALID_INDEX: nat := 0xFFFF_FFFF_FFFF_FFFF

  /** One clause of the generated WHERE: a quoted column name, an operator, a printed constant. */
  datatype Clause<V> =
    | CompareClause(column: string, op: CompareOp, constant: Option<V>)
    | NullClause(column: string)

  /** The remote statement: the query as bound, or SELECT columns FROM (base) WHERE clauses. */
  datatype Query<V> = Base | Select(columns: seq<string>, clauses: seq<Clause<V>>)

  datatype RemoteResult<V> = Rows(rows: seq<seq<Option<V>>>) | SqlError

  // ---------------------------------------------------------------- what Oracle does with it

  function Field<V>(names: seq<string>, row: seq<Option<V>>, column: string): Option<V> {
    Lookup(RowEnv(row), IndexOf(names, column))
  }

  function EvalClause<V>(cmp: (V, V) -> Sign, names: seq<string>, c: Clause<V>, row: seq<Option<V>>): Truth {
    match c
    case CompareClause(column, op, v) => Compare(cmp, op, Field(names, row, column), v)
    case NullClause(column) => if Field(names, row, column).None? then True else False
  }

  function EvalClauses<V>(cmp: (V, V) -> Sign, names: seq<string>, cs: seq<Clause<V>>, row: seq<Option<V>>)
    : (ts: seq<Truth>)
    ensures |ts| == |cs|
    ensures forall i :: 0 <= i < |cs| ==> ts[i] == EvalClause(cmp, names, cs[i], row)
  {
    if cs == [] then [] else [EvalClause(cmp, names, cs[0], row)] + EvalClauses(cmp, names, cs[1..], row)
  }

  function Where<V>(cmp: (V, V) -> Sign, names: seq<string>, cs: seq<Clause<V>>, rows: seq<seq<Option<V>>>)
    : seq<seq<Option<V>>>
  {
    if rows == [] then []
    else (if AndAll(EvalClauses(cmp, names, cs, rows[0])) == True then [rows[0]] else [])
         + Where(cmp, names, cs, rows[1..])
  }

  function SelectList<V>(names: seq<string>, columns: seq<string>, rows: seq<seq<Option<V>>>): seq<seq<Option<V>>> {
    if rows == [] then []
    else [seq(|columns|, k requires 0 <= k < |columns| => Field(names, rows[0], columns[k]))]
         + SelectList(names, columns, rows[1..])
  }

  function ClauseColumn<V>(c: Clause<V>): string {
    c.column
  }

  /** An empty select list or an unknown column is an error; otherwise filter, then project. */
  function RunRemote<V>(cmp: (V, V) -> Sign, names: seq<string>, rows: seq<seq<Option<V>>>, q: Query<V>)
    : RemoteResult<V>
  {
    match q
    case Base => Rows(rows)
    case Select(columns, clauses) =>
      if columns == [] || (exists c :: c in columns && c !in names)
         || (exists i :: 0 <= i < |clauses| && ClauseColumn(clauses[i]) !in names) then SqlError
      else Rows(SelectList(names, columns, Where(cmp, names, clauses, rows)))
  }

  // ---------------------------------------------------------------- extraction of one conjunct

  function FlipOp(op: CompareOp): CompareOp {
    match op
    case GreaterThan => LessThan
    case GreaterOrEqual => LessOrEqual
    case LessThan => GreaterThan
    case LessOrEqual => GreaterOrEqual
    case _ => op
  }

  /** Turning the operands round and flipping the operator changes nothing. */
  lemma FlipPreserves<V(!new)>(cmp: (V, V) -> Sign, op: CompareOp, a: Option<V>, b: Option<V>)
    requires Antisymmetric(cmp)
    ensures Compare(cmp, op, a, b) == Compare(cmp, FlipOp(op), b, a)
  {
    if a.Some? && b.Some? {
      assert cmp(a.value, b.value) == Flip(cmp(b.value, a.value));
    }
  }

  function TryExtractComparison<V>(c: Cond<V>, names: seq<string>): Option<Clause<V>> {
    if !c.Comparison? || c.op.NotEqual? || c.op.DistinctFrom? || c.op.NotDistinctFrom? then None
    else if c.left.ColumnRef? && c.right.Constant? then
      ComparisonClause(c.left.index, c.op, c.right.value, names)
    else if c.right.ColumnRef? && c.left.Constant? then
      ComparisonClause(c.right.index, FlipOp(c.op), c.left.value, names)
    else None
  }

  function ComparisonClause<V>(index: nat, op: CompareOp, v: Option<V>, names: seq<string>): Option<Clause<V>> {
    if index == INVALID_INDEX || index >= |names| then None
    else Some(CompareClause(names[index], op, v))
  }

  function TryExtractIsNull<V>(c: Cond<V>, names: seq<string>): Option<Clause<V>> {
    if !c.IsNullTest? || |c.children| != 1 || !c.children[0].ColumnRef? then None
    else
      var index := c.children[0].index;
      if index == INVALID_INDEX || index >= |names| then None else Some(NullClause(names[index]))
  }

  function Extract<V>(c: Cond<V>, names: seq<string>): Option<Clause<V>> {
    var cl := TryExtractComparison(c, names);
    if cl.Some? then cl else TryExtractIsNull(c, names)
  }

  predicate Distinct(names: seq<string>) {
    forall i, j :: 0 <= i < j < |names| ==> names[i] != names[j]
  }

  lemma IndexOfDistinct(names: seq<string>, i: nat)
    requires Distinct(names) && i < |names|
    ensures IndexOf(names, names[i]) == i
  {
  }

  /** An extracted clause is TRUE, FALSE or UNKNOWN exactly as the conjunct it came from, NULL
      cells and NULL constants included. */
  lemma ExtractPreserves<V(!new)>(cmp: (V, V) -> Sign, c: Cond<V>, names: seq<string>, row: seq<Option<V>>)
    requires Antisymmetric(cmp) && Distinct(names)
    requires Extract(c, names).Some?
    ensures EvalClause(cmp, names, Extract(c, names).value, row) == Eval(cmp, c, RowEnv(row))
    ensures ClauseColumn(Extract(c, names).value) in names
  {
    if c.Comparison? {
      if c.left.ColumnRef? && c.right.Constant? {
        IndexOfDistinct(names, c.left.index);
      } else {
        IndexOfDistinct(names, c.right.index);
        FlipPreserves(cmp, c.op, c.left.value, Lookup(RowEnv(row), c.right.index));
      }
    } else {
      IndexOfDistinct(names, c.children[0].index);
    }
  }

  // ---------------------------------------------------------------- the whole rewrite

  function Clauses<V>(cs: seq<Cond<V>>, names: seq<string>): seq<Clause<V>> {
    if cs == [] then []
    else
      var init := Clauses(cs[..|cs| - 1], names);
      match Extract(cs[|cs| - 1], names)
      case Some(cl) => init + [cl]
      case None => init
  }

  function Remaining<V>(cs: seq<Cond<V>>, names: seq<string>): seq<Cond<V>> {
    if cs == [] then []
    else
      var init := Remaining(cs[..|cs| - 1], names);
      if Extract(cs[|cs| - 1], names).Some? then init else init + [cs[|cs| - 1]]
  }

  /** What pushdown is for: a comparison, by one of five operators and either way round, of a
      column with a constant, or IS NULL of a column; the column must be one of the scan's. */
  predicate Pushable<V>(c: Cond<V>, n: nat) {
    match c
    case Comparison(op, l, r) =>
      && op in {Equal, LessThan, GreaterThan, LessOrEqual, GreaterOrEqual}
      && ((l.ColumnRef? && r.Constant? && l.index < n) || (r.ColumnRef? && l.Constant? && r.index < n))
    case IsNullTest(children) => |children| == 1 && children[0].ColumnRef? && children[0].index < n
    case OtherCond(_, _) => false
  }

  /** The conjuncts that are pushable, or those that are not, in their order. */
  function Part<V>(cs: seq<Cond<V>>, n: nat, pushable: bool): seq<Cond<V>> {
    if cs == [] then []
    else
      var init := Part(cs[..|cs| - 1], n, pushable);
      if Pushable(cs[|cs| - 1], n) == pushable then init + [cs[|cs| - 1]] else init
  }

  /** DuckDB keeps exactly the conjuncts that cannot be pushed, in their order; the others are sent,
      one clause each and in their order. */
  lemma {:induction false} PushesEverythingPushable<V>(cs: seq<Cond<V>>, names: seq<string>)
    requires |names| <= INVALID_INDEX
    ensures Remaining(cs, names) == Part(cs, |names|, false)
    ensures |Clauses(cs, names)| == |Part(cs, |names|, true)|
    ensures forall k :: 0 <= k < |Clauses(cs, names)| ==>
      Extract(Part(cs, |names|, true)[k], names) == Some(Clauses(cs, names)[k])
  {
    if cs != [] {
      PushesEverythingPushable(cs[..|cs| - 1], names);
      var last := cs[|cs| - 1];
      assert Extract(last, names).Some? <==> Pushable(last, |names|);
    }
  }

  /** Their order is that of the list they are part of. */
  lemma {:induction false} PartSplits<V>(first: seq<Cond<V>>, second: seq<Cond<V>>, n: nat, pushable: bool)
    ensures Part(first + second, n, pushable) == Part(first, n, pushable) + Part(second, n, pushable)
    ensures |Part(second, n, pushable)| <= |second|
    ensures forall c :: c in Part(second, n, pushable) <==> c in second && Pushable(c, n) == pushable
  {
    if second == [] {
      Neutral(first);
      Neutral(Part(first, n, pushable));
    } else {
      var last := |second| - 1;
      InitOfAppend(first, second);
      PartSplits(first, second[..last], n, pushable);
      Associative(Part(first, n, pushable), Part(second[..last], n, pushable), [second[last]]);
    }
  }

  /** The projection ids that are in range, or every column when none are given. */
  function InRange(ids: seq<nat>, n: nat): seq<nat> {
    if ids == [] then []
    else
      var init := InRange(ids[..|ids| - 1], n);
      if ids[|ids| - 1] >= n then init else init + [ids[|ids| - 1]]
  }

  function Projected(ids: seq<nat>, n: nat): seq<nat> {
    if ids == [] then seq(n, i => i) else InRange(ids, n)
  }

  lemma {:induction false} InRangeBelow(ids: seq<nat>, n: nat)
    ensures forall k :: 0 <= k < |InRange(ids, n)| ==> InRange(ids, n)[k] < n
    ensures forall i :: i in InRange(ids, n) <==> i in ids && i < n
  {
    if ids != [] {
      InRangeBelow(ids[..|ids| - 1], n);
      assert ids == ids[..|ids| - 1] + [ids[|ids| - 1]];
    }
  }

  /** The columns are selected in the order in which their ids are given, repeated ones repeatedly. */
  lemma {:induction false} InRangeSplits(first: seq<nat>, second: seq<nat>, n: nat)
    ensures InRange(first + second, n) == InRange(first, n) + InRange(second, n)
    ensures |InRange(second, n)| <= |second|
    ensures (forall k :: 0 <= k < |second| ==> second[k] < n) ==> InRange(second, n) == second
  {
    if second == [] {
      Neutral(first);
      Neutral(InRange(first, n));
    } else {
      var last := |second| - 1;
      InitOfAppend(first, second);
      InRangeSplits(first, second[..last], n);
      Associative(InRange(first, n), InRange(second[..last], n), [second[last]]);
    }
  }

  lemma ProjectedBelow(ids: seq<nat>, n: nat)
    ensures forall k :: 0 <= k < |Projected(ids, n)| ==> Projected(ids, n)[k] < n
  {
    InRangeBelow(ids, n);
  }

  function Gather<T>(xs: seq<T>, ids: seq<nat>): (r: seq<T>)
    requires forall k :: 0 <= k < |ids| ==> ids[k] < |xs|
    ensures |r| == |ids|
    ensures forall k :: 0 <= k < |ids| ==> r[k] == xs[ids[k]]
  {
    seq(|ids|, k requires 0 <= k < |ids| => xs[ids[k]])
  }

  /** The fields of OracleBindData that pushdown reads and writes. */
  datatype Bind<V> = Bind(
    enablePushdown: bool,
    query: Query<V>,
    columnNames: seq<string>,
    ociTypes: seq<nat>,
    ociSizes: seq<nat>,
    originalNames: seq<string>,
    originalTypes: seq<string>)

  /** The vectors that describe the columns of the original query are parallel. */
  ghost predicate Parallel<V>(b: Bind<V>) {
    |b.ociTypes| == |b.ociSizes| == |b.originalTypes| == |b.originalNames|
  }

  /** As OracleBindInternal leaves it: nothing pushed yet, column names distinct. */
  ghost predicate FreshBind<V(!new)>(b: Bind<V>) {
    Parallel(b) && b.query == Base && b.columnNames == b.originalNames && Distinct(b.originalNames)
  }

  function PushBind<V>(b: Bind<V>, ids: seq<nat>, cs: seq<Cond<V>>): Bind<V>
    requires |b.ociTypes| == |b.ociSizes| == |b.originalTypes| == |b.originalNames|
  {
    if !b.enablePushdown then b
    else
      var cols := Projected(ids, |b.originalNames|);
      ProjectedBelow(ids, |b.originalNames|);
      b.(query := Select(Gather(b.originalNames, cols), Clauses(cs, b.columnNames)),
         columnNames := Gather(b.originalNames, cols),
         ociTypes := Gather(b.ociTypes, cols),
         ociSizes := Gather(b.ociSizes, cols))
  }

  function PushRemaining<V>(b: Bind<V>, cs: seq<Cond<V>>): seq<Cond<V>> {
    if b.enablePushdown then Remaining(cs, b.columnNames) else cs
  }

  /** The table columns a bind selects after pushdown. */
  function Selected<V>(b: Bind<V>, ids: seq<nat>): seq<nat> {
    if b.enablePushdown then Projected(ids, |b.originalNames|) else seq(|b.originalNames|, i => i)
  }

  lemma PassesSnoc<V>(cmp: (V, V) -> Sign, pre: seq<Cond<V>>, last: Cond<V>, env: map<nat, Option<V>>)
    ensures Passes(cmp, pre + [last], env) <==> Passes(cmp, pre, env) && Eval(cmp, last, env) == True
  {
    PassesIff(cmp, pre, env);
    PassesIff(cmp, pre + [last], env);
    assert (pre + [last])[|pre|] == last;
    assert forall i :: 0 <= i < |pre| ==> (pre + [last])[i] == pre[i];
  }

  lemma HoldsSnoc<V>(cmp: (V, V) -> Sign, names: seq<string>, pre: seq<Clause<V>>, last: Clause<V>, row: seq<Option<V>>)
    ensures AndAll(EvalClauses(cmp, names, pre + [last], row)) == True
            <==> AndAll(EvalClauses(cmp, names, pre, row)) == True && EvalClause(cmp, names, last, row) == True
  {
    AndAllTrue(EvalClauses(cmp, names, pre, row));
    AndAllTrue(EvalClauses(cmp, names, pre + [last], row));
    assert (pre + [last])[|pre|] == last;
    assert forall i :: 0 <= i < |pre| ==> (pre + [last])[i] == pre[i];
  }

  /** The clauses and the conjuncts left over, between them, are the original conjunction. */
  lemma {:induction false} SplitPreserves<V(!new)>(cmp: (V, V) -> Sign, cs: seq<Cond<V>>, names: seq<string>, row: seq<Option<V>>)
    requires Antisymmetric(cmp) && Distinct(names)
    ensures Passes(cmp, cs, RowEnv(row))
            <==> AndAll(EvalClauses(cmp, names, Clauses(cs, names), row)) == True
                 && Passes(cmp, Remaining(cs, names), RowEnv(row))
  {
    if cs != [] {
      var init, last := cs[..|cs| - 1], cs[|cs| - 1];
      SplitPreserves(cmp, init, names, row);
      assert cs == init + [last];
      PassesSnoc(cmp, init, last, RowEnv(row));
      if Extract(last, names).Some? {
        ExtractPreserves(cmp, last, names, row);
        HoldsSnoc(cmp, names, Clauses(init, names), Extract(last, names).value, row);
      } else {
        PassesSnoc(cmp, Remaining(init, names), last, RowEnv(row));
      }
    }
  }

  lemma {:induction false} ClausesInNames<V>(cs: seq<Cond<V>>, names: seq<string>)
    ensures forall i :: 0 <= i < |Clauses(cs, names)| ==> ClauseColumn(Clauses(cs, names)[i]) in names
  {
    if cs != [] {
      ClausesInNames(cs[..|cs| - 1], names);
    }
  }

  /** A projected row shows a conjunct the same cells as the full row, as long as every table
      column the conjunct used is among the projected ones. */
  lemma ProjectedEnvAgrees<V>(row: seq<Option<V>>, ids: seq<nat>, used: set<nat>)
    requires forall i :: i in ids ==> i < |row|
    requires forall i :: i in used && i < |row| ==> i in ids
    ensures AgreeOn(RowEnv(row), ScanEnv(ids, Project(row, ids)), used)
  {
  }

  ghost predicate Covers<V>(ids: seq<nat>, n: nat, cs: seq<Cond<V>>) {
    forall k :: 0 <= k < |cs| ==> forall i :: i in Reads(cs[k]) && i < n ==> i in ids
  }

  ghost predicate Rectangular<V>(rows: seq<seq<Option<V>>>, n: nat) {
    forall k :: 0 <= k < |rows| ==> |rows[k]| == n
  }

  lemma PassesOnProjection<V>(cmp: (V, V) -> Sign, cs: seq<Cond<V>>, row: seq<Option<V>>, ids: seq<nat>)
    requires forall i :: i in ids ==> i < |row|
    requires Covers(ids, |row|, cs)
    ensures Passes(cmp, cs, RowEnv(row)) <==> Passes(cmp, cs, ScanEnv(ids, Project(row, ids)))
  {
    var a, b := RowEnv(row), ScanEnv(ids, Project(row, ids));
    PassesIff(cmp, cs, a);
    PassesIff(cmp, cs, b);
    forall k | 0 <= k < |cs| ensures Eval(cmp, cs[k], a) == Eval(cmp, cs[k], b) {
      ProjectedEnvAgrees(row, ids, Reads(cs[k]));
      EvalAgrees(cmp, cs[k], a, b);
    }
  }

  lemma ProjectCons<V>(row: seq<Option<V>>, rest: seq<seq<Option<V>>>, ids: seq<nat>)
    ensures ProjectAll([row] + rest, ids) == [Project(row, ids)] + ProjectAll(rest, ids)
  {
    assert ([row] + rest)[1..] == rest;
  }

  lemma KeepScannedCons<V>(cmp: (V, V) -> Sign, cs: seq<Cond<V>>, ids: seq<nat>, out: seq<Option<V>>, rest: seq<seq<Option<V>>>)
    ensures KeepScanned(cmp, cs, ids, [out] + rest)
            == (if Passes(cmp, cs, ScanEnv(ids, out)) then [out] else []) + KeepScanned(cmp, cs, ids, rest)
  {
    assert ([out] + rest)[1..] == rest;
  }

  /** Filtering remotely by the clauses, projecting, and filtering locally by the rest is the
      same as filtering by everything and then projecting: same rows, same order. */
  lemma {:induction false} RewritePreserves<V(!new)>(cmp: (V, V) -> Sign, cs: seq<Cond<V>>, names: seq<string>,
                                                     ids: seq<nat>, rows: seq<seq<Option<V>>>)
    requires Antisymmetric(cmp) && Distinct(names) && Rectangular(rows, |names|)
    requires forall i :: i in ids ==> i < |names|
    requires Covers(ids, |names|, Remaining(cs, names))
    ensures KeepScanned(cmp, Remaining(cs, names), ids, ProjectAll(Where(cmp, names, Clauses(cs, names), rows), ids))
            == ProjectAll(Keep(cmp, cs, rows), ids)
  {
    if rows != [] {
      var row, rest := rows[0], rows[1..];
      var rem, cls := Remaining(cs, names), Clauses(cs, names);
      RewritePreserves(cmp, cs, names, ids, rest);
      SplitPreserves(cmp, cs, names, row);
      PassesOnProjection(cmp, rem, row, ids);
      var sent, kept := Where(cmp, names, cls, rest), Keep(cmp, cs, rest);
      if AndAll(EvalClauses(cmp, names, cls, row)) == True {
        ProjectCons(row, sent, ids);
        KeepScannedCons(cmp, rem, ids, Project(row, ids), ProjectAll(sent, ids));
      } else {
        assert Where(cmp, names, cls, rows) == sent;
      }
      if Passes(cmp, cs, RowEnv(row)) {
        ProjectCons(row, kept, ids);
      } else {
        assert Keep(cmp, cs, rows) == kept;
      }
    }
  }

  /** Selecting columns by name is projecting to their positions. */
  lemma {:induction false} SelectIsProject<V>(names: seq<string>, ids: seq<nat>, rows: seq<seq<Option<V>>>)
    requires Distinct(names) && forall k :: 0 <= k < |ids| ==> ids[k] < |names|
    ensures SelectList(names, Gather(names, ids), rows) == ProjectAll(rows, ids)
  {
    if rows != [] {
      SelectIsProject(names, ids, rows[1..]);
      var columns := Gather(names, ids);
      forall k | 0 <= k < |ids| ensures Field(names, rows[0], columns[k]) == Project(rows[0], ids)[k] {
        IndexOfDistinct(names, ids[k]);
      }
      assert seq(|columns|, k requires 0 <= k < |columns| => Field(names, rows[0], columns[k])) == Project(rows[0], ids);
    }
  }

  lemma {:induction false} WhereRectangular<V>(cmp: (V, V) -> Sign, names: seq<string>, cls: seq<Clause<V>>, rows: seq<seq<Option<V>>>)
    requires Rectangular(rows, |names|)
    ensures Rectangular(Where(cmp, names, cls, rows), |names|)
  {
    if rows != [] {
      assert Rectangular(rows[1..], |names|);
      WhereRectangular(cmp, names, cls, rows[1..]);
    }
  }

  lemma {:induction false} ProjectIdentity<V>(rows: seq<seq<Option<V>>>, n: nat)
    requires Rectangular(rows, n)
    ensures ProjectAll(rows, seq(n, i => i)) == rows
  {
    if rows != [] {
      assert Rectangular(rows[1..], n);
      ProjectIdentity(rows[1..], n);
      assert Project(rows[0], seq(n, i => i)) == rows[0];
    }
  }

  lemma {:induction false} WhereNothing<V>(cmp: (V, V) -> Sign, names: seq<string>, rows: seq<seq<Option<V>>>)
    ensures Where(cmp, names, [], rows) == rows
  {
    if rows != [] {
      WhereNothing(cmp, names, rows[1..]);
    }
  }

  /** The clauses a bind sends to Oracle. */
  function SentClauses<V>(b: Bind<V>, cs: seq<Cond<V>>): seq<Clause<V>> {
    if b.enablePushdown then Clauses(cs, b.columnNames) else []
  }

  /** What the remote query of a freshly bound scan returns after pushdown. */
  lemma RemoteRows<V(!new)>(cmp: (V, V) -> Sign, b: Bind<V>, ids: seq<nat>, cs: seq<Cond<V>>, rows: seq<seq<Option<V>>>)
    requires Antisymmetric(cmp) && FreshBind(b) && Rectangular(rows, |b.originalNames|)
    requires Selected(b, ids) != []
    ensures forall k :: 0 <= k < |Selected(b, ids)| ==> Selected(b, ids)[k] < |b.originalNames|
    ensures RunRemote(cmp, b.originalNames, rows, PushBind(b, ids, cs).query)
            == Rows(ProjectAll(Where(cmp, b.originalNames, SentClauses(b, cs), rows), Selected(b, ids)))
    ensures PushBind(b, ids, cs).columnNames == Gather(b.originalNames, Selected(b, ids))
  {
    var names, sel := b.originalNames, Selected(b, ids);
    ProjectedBelow(ids, |names|);
    ProjectedBelow([], |names|);
    if b.enablePushdown {
      ClausesInNames(cs, names);
      SelectIsProject(names, sel, Where(cmp, names, Clauses(cs, names), rows));
      var columns := Gather(names, sel);
      assert columns[0] == names[sel[0]];
    } else {
      WhereNothing(cmp, names, rows);
      ProjectIdentity(rows, |names|);
      assert Gather(names, sel) == names;
    }
  }

  /** With pushdown off every conjunct is kept by DuckDB. */
  lemma {:induction false} KeepOnProjection<V(!new)>(cmp: (V, V) -> Sign, cs: seq<Cond<V>>, n: nat, ids: seq<nat>, rows: seq<seq<Option<V>>>)
    requires Rectangular(rows, n) && (forall i :: i in ids ==> i < n) && Covers(ids, n, cs)
    ensures KeepScanned(cmp, cs, ids, ProjectAll(rows, ids)) == ProjectAll(Keep(cmp, cs, rows), ids)
  {
    if rows != [] {
      assert Rectangular(rows[1..], n);
      KeepOnProjection(cmp, cs, n, ids, rows[1..]);
      PassesOnProjection(cmp, cs, rows[0], ids);
      KeepScannedCons(cmp, cs, ids, Project(rows[0], ids), ProjectAll(rows[1..], ids));
      var kept := Keep(cmp, cs, rows[1..]);
      if Passes(cmp, cs, RowEnv(rows[0])) {
        ProjectCons(rows[0], kept, ids);
      } else {
        assert Keep(cmp, cs, rows) == kept;
      }
    }
  }

  /** The same statement whichever columns `ids` the scan finally hands up. */
  lemma PushedRowsFiltered<V(!new)>(cmp: (V, V) -> Sign, b: Bind<V>, cs: seq<Cond<V>>, ids: seq<nat>, rows: seq<seq<Option<V>>>)
    requires Antisymmetric(cmp) && FreshBind(b) && Rectangular(rows, |b.originalNames|)
    requires forall i :: i in ids ==> i < |b.originalNames|
    requires Covers(ids, |b.originalNames|, PushRemaining(b, cs))
    ensures KeepScanned(cmp, PushRemaining(b, cs), ids,
                        ProjectAll(Where(cmp, b.originalNames, SentClauses(b, cs), rows), ids))
            == ProjectAll(Keep(cmp, cs, rows), ids)
  {
    if b.enablePushdown {
      RewritePreserves(cmp, cs, b.originalNames, ids, rows);
    } else {
      WhereNothing(cmp, b.originalNames, rows);
      KeepOnProjection(cmp, cs, |b.originalNames|, ids, rows);
    }
  }

  /** Pushdown preserves meaning: the rewritten query, run remotely, then filtered by the
      conjuncts that stayed with DuckDB, is the base query filtered by all conjuncts and
      projected.  The WHERE clause may use columns that are not projected; the conjuncts that
      stayed must find their columns in the projection. */
  lemma PushdownPreservesMeaning<V(!new)>(cmp: (V, V) -> Sign, b: Bind<V>, ids: seq<nat>, cs: seq<Cond<V>>, rows: seq<seq<Option<V>>>)
    requires Antisymmetric(cmp) && FreshBind(b) && Rectangular(rows, |b.originalNames|)
    requires Selected(b, ids) != []
    requires Covers(Selected(b, ids), |b.originalNames|, PushRemaining(b, cs))
    ensures var remote := RunRemote(cmp, b.originalNames, rows, PushBind(b, ids, cs).query);
            && remote.Rows?
            && KeepScanned(cmp, PushRemaining(b, cs), Selected(b, ids), remote.rows)
               == ProjectAll(Keep(cmp, cs, rows), Selected(b, ids))
  {
    RemoteRows(cmp, b, ids, cs, rows);
    PushedRowsFiltered(cmp, b, cs, Selected(b, ids), rows);
  }

  /** The remote query is rejected exactly when projection ids are given and all of them are out
      of range, or when there is no column at all. */
  lemma RejectedIff<V(!new)>(cmp: (V, V) -> Sign, b: Bind<V>, ids: seq<nat>, cs: seq<Cond<V>>, rows: seq<seq<Option<V>>>)
    requires Antisymmetric(cmp) && FreshBind(b) && b.enablePushdown && Rectangular(rows, |b.originalNames|)
    ensures RunRemote(cmp, b.originalNames, rows, PushBind(b, ids, cs).query) == SqlError
            <==> |b.originalNames| == 0 || (ids != [] && forall i :: i in ids ==> i >= |b.originalNames|)
  {
    InRangeBelow(ids, |b.originalNames|);
    if Selected(b, ids) == [] {
      if ids != [] {
        assert forall i :: i in ids ==> i !in InRange(ids, |b.originalNames|);
      }
    } else {
      RemoteRows(cmp, b, ids, cs, rows);
      assert Selected(b, ids)[0] < |b.originalNames|;
      if ids != [] {
        assert Selected(b, ids)[0] in InRange(ids, |b.originalNames|);
      }
    }
  }
}
