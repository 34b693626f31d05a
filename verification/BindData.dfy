/** OracleBindData, the object that bind fills and pushdown rewrites in place. */
module BindData {
  import opened Wrappers
  import opened Relational
  import opened Pushdown

  /** One column as OCI describes it: its name, OCI type code, character length and DuckDB type. */
  datatype ColumnInfo = ColumnInfo(name: string, ociType: nat, charLen: nat, duckType: string)

  /** The declared length, or 4000 where OCI reports none. */
  predicate SizedFor(size: nat, c: ColumnInfo) {
    size > 0 && (c.charLen > 0 ==> size == c.charLen) && (c.charLen == 0 ==> size == 4000)
  }

  /** Names, OCI types, sizes and DuckDB types all describe column k at position k. */
  ghost predicate Describes<V>(b: Bind<V>, cols: seq<ColumnInfo>) {
    && |b.originalNames| == |b.columnNames| == |b.ociTypes| == |b.ociSizes| == |b.originalTypes| == |cols|
    && forall k :: 0 <= k < |cols| ==>
         && b.originalNames[k] == b.columnNames[k] == cols[k].name
         && b.ociTypes[k] == cols[k].ociType
         && SizedFor(b.ociSizes[k], cols[k])
         && b.originalTypes[k] == cols[k].duckType
  }

  /** The DuckDB types of the columns a bind selects. */
  function ScanTypes<V>(b: Bind<V>, ids: seq<nat>): (types: seq<string>)
    requires |b.ociTypes| == |b.ociSizes| == |b.originalTypes| == |b.originalNames|
    ensures |types| == |Selected(b, ids)|
    ensures forall k :: 0 <= k < |types| ==>
      Selected(b, ids)[k] < |b.originalTypes| && types[k] == b.originalTypes[Selected(b, ids)[k]]
  {
    ProjectedBelow(ids, |b.originalNames|);
    Gather(b.originalTypes, Selected(b, ids))
  }

  /** Pushdown keeps them parallel: fetched column k has the name, the OCI type and the size of the
      k-th selected column, and the scan node is given its DuckDB type. */
  lemma PushKeepsDescription<V>(b: Bind<V>, cols: seq<ColumnInfo>, ids: seq<nat>, cs: seq<Cond<V>>)
    requires Describes(b, cols)
    ensures var b' := PushBind(b, ids, cs);
            var sel := Selected(b, ids);
            && |b'.columnNames| == |b'.ociTypes| == |b'.ociSizes| == |ScanTypes(b, ids)| == |sel|
            && forall k :: 0 <= k < |sel| ==>
                 && sel[k] < |cols|
                 && b'.columnNames[k] == cols[sel[k]].name
                 && b'.ociTypes[k] == cols[sel[k]].ociType
                 && SizedFor(b'.ociSizes[k], cols[sel[k]])
                 && ScanTypes(b, ids)[k] == cols[sel[k]].duckType
  {
    ProjectedBelow(ids, |cols|);
  }

  class OracleBindData<V> {
    var enable_pushdown: bool
    var query: Query<V>
    var column_names: seq<string>
    var oci_types: seq<nat>
    var oci_sizes: seq<nat>
    var original_names: seq<string>
    var original_types: seq<string>

    ghost function View(): Bind<V>
      reads this
    {
      Bind(enable_pushdown, query, column_names, oci_types, oci_sizes, original_names, original_types)
    }

    /** The describe loop of OracleBindInternal. */
    constructor (enable: bool, cols: seq<ColumnInfo>)
      ensures Describes(View(), cols) && Parallel(View())
      ensures View().query == Base && View().enablePushdown == enable
    {
      enable_pushdown, query := enable, Base;
      column_names, oci_types, oci_sizes, original_names, original_types := [], [], [], [], [];
      new;
      var names, types := [], [];
      for i := 0 to |cols|
        invariant enable_pushdown == enable && query == Base
        invariant |names| == |types| == |column_names| == |oci_types| == |oci_sizes| == i
        invariant forall k :: 0 <= k < i ==>
                    && names[k] == column_names[k] == cols[k].name
                    && types[k] == cols[k].duckType
                    && oci_types[k] == cols[k].ociType
                    && SizedFor(oci_sizes[k], cols[k])
      {
        names := names + [cols[i].name];
        column_names := column_names + [cols[i].name];
        oci_types := oci_types + [cols[i].ociType];
        oci_sizes := oci_sizes + [if cols[i].charLen > 0 then cols[i].charLen else 4000];
        types := types + [cols[i].duckType];
      }
      original_types, original_names := types, names;
    }

    /** OraclePushdownComplexFilter.  `scan` is what it stores into the scan node's own names and
        types when projection ids are given. */
    method PushdownComplexFilter(projection_ids: seq<nat>, expressions: seq<Cond<V>>)
      returns (remaining: seq<Cond<V>>, scan: Option<(seq<string>, seq<string>)>)
      requires Parallel(View())
      modifies this
      ensures View() == PushBind(old(View()), projection_ids, expressions)
      ensures remaining == PushRemaining(old(View()), expressions)
      ensures enable_pushdown ==> |column_names| == |oci_types| == |oci_sizes|
      ensures scan.Some? <==> enable_pushdown && projection_ids != []
      ensures scan.Some? ==> scan.value == (column_names, ScanTypes(old(View()), projection_ids))
    {
      scan := None;
      if !enable_pushdown {
        return expressions, None;
      }
      remaining := [];
      var clauses: seq<Clause<V>> := [];
      for i := 0 to |expressions|
        invariant clauses == Clauses(expressions[..i], column_names)
        invariant remaining == Remaining(expressions[..i], column_names)
        invariant View() == old(View())
      {
        assert expressions[..i + 1][..i] == expressions[..i];
        var clause := Extract(expressions[i], column_names);
        if clause.Some? {
          clauses := clauses + [clause.value];
        } else {
          remaining := remaining + [expressions[i]];
        }
      }
      assert expressions[..|expressions|] == expressions;

      var projected_names := original_names;
      var projected_types := original_types;
      var projected_oci_types := oci_types;
      var projected_oci_sizes := oci_sizes;
      ghost var cols := Projected(projection_ids, |original_names|);
      ProjectedBelow(projection_ids, |original_names|);
      if projection_ids != [] {
        projected_names, projected_types, projected_oci_types, projected_oci_sizes := [], [], [], [];
        for i := 0 to |projection_ids|
          invariant View() == old(View())
          invariant forall k :: 0 <= k < |InRange(projection_ids[..i], |original_names|)| ==>
                      InRange(projection_ids[..i], |original_names|)[k] < |original_names|
          invariant projected_names == Gather(original_names, InRange(projection_ids[..i], |original_names|))
          invariant projected_types == Gather(original_types, InRange(projection_ids[..i], |original_names|))
          invariant projected_oci_types == Gather(oci_types, InRange(projection_ids[..i], |original_names|))
          invariant projected_oci_sizes == Gather(oci_sizes, InRange(projection_ids[..i], |original_names|))
        {
          assert projection_ids[..i + 1][..i] == projection_ids[..i];
          var idx := projection_ids[i];
          if idx < |original_names| {
            projected_names := projected_names + [original_names[idx]];
            projected_types := projected_types + [original_types[idx]];
            projected_oci_types := projected_oci_types + [oci_types[idx]];
            projected_oci_sizes := projected_oci_sizes + [oci_sizes[idx]];
          }
        }
        assert projection_ids[..|projection_ids|] == projection_ids;
        scan := Some((projected_names, projected_types));
      }
      assert projected_names == Gather(original_names, cols);
      assert projected_oci_types == Gather(oci_types, cols);
      assert projected_oci_sizes == Gather(oci_sizes, cols);
      column_names := projected_names;
      oci_types := projected_oci_types;
      oci_sizes := projected_oci_sizes;
      query := Select(projected_names, clauses);
    }
  }
}
