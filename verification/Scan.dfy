/** The scan behind the pushed-down query: the mapping from requested columns to fetched columns
    (src/oracle_extension.cpp:472-523) and the chunked cursor loop (737-885). */
module Scan {
  import opened Wrappers
  import opened Relational
  import opened Pushdown

  const STANDARD_VECTOR_SIZE: nat := 2048

  /** An output cell that the fetch loop skips keeps whatever was there. */
  datatype OutCell<V> = Untouched | Filled(cell: Option<V>)

  // ---------------------------------------------------------------- column mapping

  /** The first fetched column with the name of table column `id`; position `i` as the fallback. */
  function MapOne(original: seq<string>, fetched: seq<string>, id: nat, i: nat): nat {
    if id < |original| && original[id] in fetched then IndexOf(fetched, original[id]) else i
  }

  function MapColumns(original: seq<string>, fetched: seq<string>, ids: seq<nat>): (m: seq<nat>)
    ensures |m| == |ids|
    ensures forall i :: 0 <= i < |ids| ==> m[i] == MapOne(original, fetched, ids[i], i)
  {
    seq(|ids|, i requires 0 <= i < |ids| => MapOne(original, fetched, ids[i], i))
  }

  /** `column_ids` if there are any, else `projection_ids` if there are any, else no mapping. */
  function Mapping(original: seq<string>, fetched: seq<string>, columnIds: seq<nat>, projectionIds: seq<nat>): seq<nat> {
    if columnIds != [] then MapColumns(original, fetched, columnIds)
    else MapColumns(original, fetched, projectionIds)
  }

  method FindColumns(original: seq<string>, fetched: seq<string>, ids: seq<nat>) returns (mapping: seq<nat>)
    ensures mapping == MapColumns(original, fetched, ids)
  {
    mapping := [];
    for i := 0 to |ids|
      invariant |mapping| == i
      invariant forall k :: 0 <= k < i ==> mapping[k] == MapOne(original, fetched, ids[k], k)
    {
      var target := i;
      var col_idx := ids[i];
      if col_idx < |original| {
        var name := original[col_idx];
        var j := 0;
        while j < |fetched|
          invariant j <= |fetched|
          invariant forall k :: 0 <= k < j ==> fetched[k] != name
          invariant target == i
        {
          if fetched[j] == name {
            target := j;
            break;
          }
          j := j + 1;
        }
        assert j < |fetched| ==> IndexOf(fetched, name) == j;
      }
      mapping := mapping + [target];
    }
  }

  method MappingFor(original: seq<string>, fetched: seq<string>, columnIds: seq<nat>, projectionIds: seq<nat>)
    returns (mapping: seq<nat>)
    ensures mapping == Mapping(original, fetched, columnIds, projectionIds)
  {
    mapping := [];
    if |columnIds| > 0 {
      mapping := FindColumns(original, fetched, columnIds);
    } else if |projectionIds| > 0 {
      mapping := FindColumns(original, fetched, projectionIds);
    }
  }

  // ---------------------------------------------------------------- the cursor and the fetch loop

  /** A scan in progress: the statement's result rows, how many of them have been fetched, how
      often it was executed, and the flags of OracleScanState. */
  datatype ScanView<V> = ScanView(
    rows: seq<seq<Option<V>>>,
    pos: nat,
    executions: nat,
    mapping: seq<nat>,
    fetchedColumns: nat,
    outputColumns: nat,
    executed: bool,
    finished: bool)

  predicate ValidView<V>(s: ScanView<V>) {
    s.pos <= |s.rows| && (!s.executed ==> s.pos == 0)
  }

  function BufferIndex(mapping: seq<nat>, col: nat): nat {
    if col < |mapping| then mapping[col] else col
  }

  /** One output row: column `col` comes from buffer `BufferIndex(mapping, col)`, if it exists. */
  function OutRow<V>(mapping: seq<nat>, fetchedColumns: nat, outputColumns: nat, row: seq<Option<V>>): (out: seq<OutCell<V>>)
    ensures |out| == outputColumns
  {
    seq(outputColumns, col requires 0 <= col < outputColumns =>
        var k := BufferIndex(mapping, col);
        if k >= fetchedColumns || k >= |row| then Untouched else Filled(row[k]))
  }

  function OutRows<V>(mapping: seq<nat>, fetchedColumns: nat, outputColumns: nat, rows: seq<seq<Option<V>>>)
    : (outs: seq<seq<OutCell<V>>>)
    ensures |outs| == |rows|
    ensures forall r :: 0 <= r < |rows| ==> outs[r] == OutRow(mapping, fetchedColumns, outputColumns, rows[r])
  {
    seq(|rows|, r requires 0 <= r < |rows| => OutRow(mapping, fetchedColumns, outputColumns, rows[r]))
  }

  function Min(a: nat, b: nat): nat { if a < b then a else b }

  /** Where a fetch of one vector's worth of rows leaves the cursor. */
  function FetchEnd<V>(s: ScanView<V>): nat {
    Min(s.pos + STANDARD_VECTOR_SIZE, |s.rows|)
  }

  /** One call of OracleQueryFunction. */
  function QueryStep<V>(s: ScanView<V>): (ScanView<V>, seq<seq<OutCell<V>>>)
    requires ValidView(s)
  {
    if s.finished then (s, [])
    else
      var end := FetchEnd(s);
      var noData := end - s.pos < STANDARD_VECTOR_SIZE;
      (s.(pos := end, executed := true, executions := if s.executed then s.executions else s.executions + 1,
          finished := noData),
       OutRows(s.mapping, s.fetchedColumns, s.outputColumns, s.rows[s.pos..end]))
  }

  /** The contract of the OCI statement handle: rows come in order, at most `n` a time, and NO_DATA
      is reported exactly when fewer than `n` were left. */
  class OciStatement<V> {
    const rows: seq<seq<Option<V>>>
    var pos: nat
    var executions: nat

    constructor (rows: seq<seq<Option<V>>>)
      ensures this.rows == rows && pos == 0 && executions == 0
    {
      this.rows, pos, executions := rows, 0, 0;
    }

    method Execute()
      modifies this
      ensures pos == 0 && executions == old(executions) + 1
    {
      pos, executions := 0, executions + 1;
    }

    method Fetch(n: nat) returns (fetched: seq<seq<Option<V>>>, noData: bool)
      requires pos <= |rows|
      modifies this`pos
      ensures old(pos) <= pos <= |rows| && fetched == rows[old(pos)..pos]
      ensures |fetched| == Min(n, |rows| - old(pos))
      ensures noData <==> |rows| - old(pos) < n
    {
      var end := if |rows| - pos < n then |rows| else pos + n;
      noData := |rows| - pos < n;
      fetched := rows[pos..end];
      pos := end;
    }
  }

  function InitView<V>(original: seq<string>, fetched: seq<string>, columnIds: seq<nat>, projectionIds: seq<nat>,
                       rows: seq<seq<Option<V>>>, outputColumns: nat): ScanView<V> {
    ScanView(rows, 0, 0, Mapping(original, fetched, columnIds, projectionIds), |fetched|, outputColumns, false, false)
  }

  // ---------------------------------------------------------------- repeated calls

  /** The state after `k` calls, and all the rows those calls returned. */
  function Drain<V>(s: ScanView<V>, k: nat): (r: (ScanView<V>, seq<seq<OutCell<V>>>))
    requires ValidView(s)
    ensures ValidView(r.0)
  {
    if k == 0 then (s, [])
    else
      var (s1, out) := Drain(s, k - 1);
      var (s2, chunk) := QueryStep(s1);
      (s2, out + chunk)
  }

  ghost predicate Started<V>(s: ScanView<V>) {
    s.pos == 0 && !s.executed && !s.finished && s.executions == 0
  }

  function Done<V>(s: ScanView<V>, k: nat): (d: nat)
    ensures d <= |s.rows|
  {
    Min(k * STANDARD_VECTOR_SIZE, |s.rows|)
  }

  /** The state that a scan started as `s` is in after `k` calls. */
  function AfterCalls<V>(s: ScanView<V>, k: nat): ScanView<V> {
    s.(pos := Done(s, k), executed := k > 0, executions := Min(k, 1), finished := k * STANDARD_VECTOR_SIZE > |s.rows|)
  }

  function Emitted<V>(s: ScanView<V>, from: nat, to: nat): seq<seq<OutCell<V>>>
    requires from <= to <= |s.rows|
  {
    OutRows(s.mapping, s.fetchedColumns, s.outputColumns, s.rows[from..to])
  }

  lemma EmittedConcat<V>(s: ScanView<V>, mid: nat, to: nat)
    requires mid <= to <= |s.rows|
    ensures Emitted(s, 0, mid) + Emitted(s, mid, to) == Emitted(s, 0, to)
  {
  }

  lemma OneCall<V>(s: ScanView<V>, k: nat)
    requires Started(s)
    ensures ValidView(AfterCalls(s, k)) && Done(s, k) <= Done(s, k + 1)
    ensures QueryStep(AfterCalls(s, k)) == (AfterCalls(s, k + 1), Emitted(s, Done(s, k), Done(s, k + 1)))
  {
    if AfterCalls(s, k).finished {
      assert s.rows[|s.rows|..|s.rows|] == [];
    }
  }

  /** After `k` calls exactly the first k * 2048 rows have come out, each once, in order; the
      statement ran once; and the scan is finished exactly when a call came back short. */
  lemma {:induction false} DrainState<V>(s: ScanView<V>, k: nat)
    requires Started(s)
    ensures Drain(s, k) == (AfterCalls(s, k), Emitted(s, 0, Done(s, k)))
  {
    if k > 0 {
      DrainState(s, k - 1);
      OneCall(s, k - 1);
      EmittedConcat(s, Done(s, k - 1), Done(s, k));
    }
  }

  /** Conservation and termination: once enough calls were made everything is out, exactly once
      and in order, from a single execution, and further calls return nothing. */
  lemma ScanDeliversEverything<V>(s: ScanView<V>, k: nat)
    requires Started(s) && k * STANDARD_VECTOR_SIZE > |s.rows|
    ensures Drain(s, k).1 == OutRows(s.mapping, s.fetchedColumns, s.outputColumns, s.rows)
    ensures Drain(s, k).0.finished && Drain(s, k).0.executions == 1
    ensures QueryStep(Drain(s, k).0) == (Drain(s, k).0, [])
  {
    DrainState(s, k);
    assert s.rows[0..|s.rows|] == s.rows;
  }

  /** DuckDB stops at the first empty chunk.  It never comes early: a call returns no rows if and
      only if all rows are already out (also when their number is a multiple of 2048). */
  lemma EmptyChunkIff<V>(s: ScanView<V>, k: nat)
    requires Started(s)
    ensures QueryStep(Drain(s, k).0).1 == [] <==> |Drain(s, k).1| == |s.rows|
  {
    DrainState(s, k);
  }

  // ---------------------------------------------------------------- the mapping is right

  /** No fallback: a requested column that is among the fetched ones is mapped to its own buffer,
      however many other columns the query returns. */
  lemma MappingFindsColumns(original: seq<string>, selected: seq<nat>, ids: seq<nat>, i: nat)
    requires Distinct(original) && i < |ids|
    requires forall k :: 0 <= k < |selected| ==> selected[k] < |original|
    requires ids[i] in selected
    ensures MapColumns(original, Gather(original, selected), ids)[i] == IndexOf(selected, ids[i])
  {
    var fetched := Gather(original, selected);
    var k0 := IndexOf(selected, ids[i]);
    var k1 := IndexOf(fetched, original[ids[i]]);
    assert fetched[k0] == original[ids[i]];
    assert selected[k1] == ids[i];
  }

  function AllFilled<V>(row: seq<Option<V>>): (out: seq<OutCell<V>>)
    ensures |out| == |row|
    ensures forall k :: 0 <= k < |row| ==> out[k] == Filled(row[k])
  {
    seq(|row|, k requires 0 <= k < |row| => Filled(row[k]))
  }

  function FillAll<V>(rows: seq<seq<Option<V>>>): (outs: seq<seq<OutCell<V>>>)
    ensures |outs| == |rows|
    ensures forall r :: 0 <= r < |rows| ==> outs[r] == AllFilled(rows[r])
  {
    seq(|rows|, r requires 0 <= r < |rows| => AllFilled(rows[r]))
  }

  lemma {:induction false} ProjectAllAt<V>(rows: seq<seq<Option<V>>>, ids: seq<nat>)
    ensures |ProjectAll(rows, ids)| == |rows|
    ensures forall r :: 0 <= r < |rows| ==> ProjectAll(rows, ids)[r] == Project(rows[r], ids)
  {
    if rows != [] {
      ProjectAllAt(rows[1..], ids);
      assert forall r :: 1 <= r < |rows| ==> rows[r] == rows[1..][r - 1];
    }
  }

  /** The requested columns of a row that holds the selected ones. */
  function Pick<V>(selected: seq<nat>, ids: seq<nat>, row: seq<Option<V>>): (out: seq<Option<V>>)
    ensures |out| == |ids|
    ensures forall i :: 0 <= i < |ids| ==> out[i] == Lookup(RowEnv(row), IndexOf(selected, ids[i]))
  {
    seq(|ids|, i requires 0 <= i < |ids| => Lookup(RowEnv(row), IndexOf(selected, ids[i])))
  }

  function PickAll<V>(selected: seq<nat>, ids: seq<nat>, rows: seq<seq<Option<V>>>): (outs: seq<seq<Option<V>>>)
    ensures |outs| == |rows|
    ensures forall r :: 0 <= r < |rows| ==> outs[r] == Pick(selected, ids, rows[r])
  {
    seq(|rows|, r requires 0 <= r < |rows| => Pick(selected, ids, rows[r]))
  }

  /** The fetch loop hands up exactly the requested columns of the rows it is given. */
  lemma MappedRowsArePicked<V>(original: seq<string>, selected: seq<nat>, ids: seq<nat>, rows: seq<seq<Option<V>>>)
    requires Distinct(original) && Rectangular(rows, |selected|)
    requires forall k :: 0 <= k < |selected| ==> selected[k] < |original|
    requires forall i :: i in ids ==> i in selected
    ensures OutRows(MapColumns(original, Gather(original, selected), ids), |selected|, |ids|, rows)
            == FillAll(PickAll(selected, ids, rows))
  {
    var m := MapColumns(original, Gather(original, selected), ids);
    forall r | 0 <= r < |rows|
      ensures OutRow(m, |selected|, |ids|, rows[r]) == AllFilled(Pick(selected, ids, rows[r]))
    {
      forall i | 0 <= i < |ids|
        ensures OutRow(m, |selected|, |ids|, rows[r])[i] == AllFilled(Pick(selected, ids, rows[r]))[i]
      {
        MappingFindsColumns(original, selected, ids, i);
      }
    }
  }

  /** Without column ids the projection ids are what is requested, and without either the columns
      come out as they were fetched. */
  lemma WithoutColumnIds<V>(original: seq<string>, selected: seq<nat>, ids: seq<nat>, rows: seq<seq<Option<V>>>)
    requires Distinct(original) && Rectangular(rows, |selected|)
    requires forall k :: 0 <= k < |selected| ==> selected[k] < |original|
    requires forall i :: i in ids ==> i in selected
    ensures var fetched := Gather(original, selected);
            && OutRows(Mapping(original, fetched, [], ids), |selected|, |ids|, rows) == FillAll(PickAll(selected, ids, rows))
            && OutRows(Mapping(original, fetched, [], []), |selected|, |selected|, rows) == FillAll(rows)
  {
    var fetched := Gather(original, selected);
    MappedRowsArePicked(original, selected, ids, rows);
    var m := Mapping(original, fetched, [], []);
    forall r | 0 <= r < |rows| ensures OutRow(m, |selected|, |selected|, rows[r]) == AllFilled(rows[r]) {
      assert |rows[r]| == |selected|;
    }
  }

  /** A requested column that was not fetched takes the fetched column at its own position, if there
      is one, and otherwise none. */
  lemma NotFetchedTakesPosition<V>(original: seq<string>, fetched: seq<string>, ids: seq<nat>, row: seq<Option<V>>, i: nat)
    requires i < |ids| && |row| == |fetched|
    requires ids[i] >= |original| || original[ids[i]] !in fetched
    ensures OutRow(MapColumns(original, fetched, ids), |fetched|, |ids|, row)[i]
            == if i < |fetched| then Filled(row[i]) else Untouched
  {
  }

  /** Selecting and then picking is projecting to the requested columns straight away. */
  lemma PickedIsProjected<V>(selected: seq<nat>, ids: seq<nat>, rows: seq<seq<Option<V>>>)
    requires forall i :: i in ids ==> i in selected
    ensures PickAll(selected, ids, ProjectAll(rows, selected)) == ProjectAll(rows, ids)
  {
    ProjectAllAt(rows, selected);
    ProjectAllAt(rows, ids);
    forall r | 0 <= r < |rows| ensures Pick(selected, ids, Project(rows[r], selected)) == Project(rows[r], ids) {
    }
  }

  /** End to end: bind, push down, map, fetch in chunks until done, and let DuckDB apply the
      conjuncts it kept.  `delivered` is what OCI puts into the buffers for the remote rows; as
      long as it leaves the requested columns as they are, the result is the base query filtered
      by all conjuncts and projected to the requested columns: same rows, same order, every cell
      filled. */
  lemma ScanReturnsTheQuery<V(!new)>(cmp: (V, V) -> Sign, b: Bind<V>, ids: seq<nat>, cs: seq<Cond<V>>,
                                     rows: seq<seq<Option<V>>>, delivered: seq<seq<Option<V>>>, columnIds: seq<nat>, k: nat)
    requires Antisymmetric(cmp) && FreshBind(b) && Rectangular(rows, |b.originalNames|)
    requires columnIds != [] && forall i :: i in columnIds ==> i in Selected(b, ids)
    requires Covers(columnIds, |b.originalNames|, PushRemaining(b, cs))
    requires Rectangular(delivered, |Selected(b, ids)|) && k * STANDARD_VECTOR_SIZE > |delivered|
    requires var remote := RunRemote(cmp, b.originalNames, rows, PushBind(b, ids, cs).query);
             remote.Rows? ==> PickAll(Selected(b, ids), columnIds, delivered) == PickAll(Selected(b, ids), columnIds, remote.rows)
    ensures RunRemote(cmp, b.originalNames, rows, PushBind(b, ids, cs).query).Rows?
    ensures var b' := PushBind(b, ids, cs);
            var scan := InitView(b'.originalNames, b'.columnNames, columnIds, ids, delivered, |columnIds|);
            var outs := PickAll(Selected(b, ids), columnIds, delivered);
            && Drain(scan, k).1 == FillAll(outs)
            && Drain(scan, k).0.finished
            && KeepScanned(cmp, PushRemaining(b, cs), columnIds, outs) == ProjectAll(Keep(cmp, cs, rows), columnIds)
  {
    var b' := PushBind(b, ids, cs);
    var sel := Selected(b, ids);
    assert columnIds[0] in sel;
    RemoteRows(cmp, b, ids, cs, rows);
    var scan := InitView(b'.originalNames, b'.columnNames, columnIds, ids, delivered, |columnIds|);
    ScanDeliversEverything(scan, k);
    MappedRowsArePicked(b.originalNames, sel, columnIds, delivered);
    PickedIsProjected(sel, columnIds, Where(cmp, b.originalNames, SentClauses(b, cs), rows));
    PushedRowsFiltered(cmp, b, cs, columnIds, rows);
  }

  lemma {:induction false} WhereShrinks<V>(cmp: (V, V) -> Sign, names: seq<string>, cls: seq<Clause<V>>, rows: seq<seq<Option<V>>>)
    ensures |Where(cmp, names, cls, rows)| <= |rows|
  {
    if rows != [] {
      WhereShrinks(cmp, names, cls, rows[1..]);
    }
  }
}
