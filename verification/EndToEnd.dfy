/** The scan as one program: push down, initialise, fetch through the byte buffers until done. */
module EndToEnd {
  import opened Wrappers
  import opened Relational
  import opened Pushdown
  import opened BindData
  import opened Scan
  import opened Strided
  import opened FetchBuffers

  type Bytes = seq<Byte>

  /** The external type that each selected column calls for. */
  function Own(b: Bind<Bytes>, ids: seq<nat>): (own: seq<string>)
    requires Parallel(b)
    ensures |own| == |Selected(b, ids)|
    ensures forall k :: 0 <= k < |own| ==>
      Selected(b, ids)[k] < |b.originalTypes| && own[k] == TypeFor(b.originalTypes[Selected(b, ids)[k]])
  {
    ProjectedBelow(ids, |b.originalNames|);
    var types := Gather(b.originalTypes, Selected(b, ids));
    seq(|types|, k requires 0 <= k < |types| => TypeFor(types[k]))
  }

  function LayoutOf(b: Bind<Bytes>): Layout {
    Layout(b.ociSizes, b.ociTypes, b.originalTypes)
  }

  /** A table column is requested by its position, and among the columns the statement selects. */
  ghost predicate Requests(b: Bind<Bytes>, ids: seq<nat>, columnIds: seq<nat>) {
    FreshBind(b) && columnIds != [] && Selected(b, ids) != [] && forall i :: i in columnIds ==> i in Selected(b, ids)
  }

  /** The remote rows of a bind after pushdown, or none if the statement is rejected. */
  function RemoteRowsOf(cmp: (Bytes, Bytes) -> Sign, names: seq<string>, rows: seq<seq<Cell>>, q: Query<Bytes>): seq<seq<Cell>> {
    match RunRemote(cmp, names, rows, q)
    case Rows(rs) => rs
    case SqlError => []
  }

  lemma RemoteShape(cmp: (Bytes, Bytes) -> Sign, b: Bind<Bytes>, ids: seq<nat>, cs: seq<Cond<Bytes>>, rows: seq<seq<Cell>>)
    requires Antisymmetric(cmp) && FreshBind(b) && Rectangular(rows, |b.originalNames|) && Selected(b, ids) != []
    ensures |RemoteRowsOf(cmp, b.originalNames, rows, PushBind(b, ids, cs).query)| <= |rows|
    ensures Rectangular(RemoteRowsOf(cmp, b.originalNames, rows, PushBind(b, ids, cs).query), |Selected(b, ids)|)
  {
    RemoteRows(cmp, b, ids, cs, rows);
    var sent := Where(cmp, b.originalNames, SentClauses(b, cs), rows);
    WhereShrinks(cmp, b.originalNames, SentClauses(b, cs), rows);
    ProjectAllAt(sent, Selected(b, ids));
  }

  /** The remote rows as they arrive in the buffers of the pushed-down statement. */
  ghost function Arrived(cmp: (Bytes, Bytes) -> Sign, conv: Conversion, b: Bind<Bytes>, ids: seq<nat>, cs: seq<Cond<Bytes>>,
                         rows: seq<seq<Cell>>): (out: seq<seq<Cell>>)
    requires Antisymmetric(cmp) && FreshBind(b) && Rectangular(rows, |b.originalNames|) && Selected(b, ids) != []
    ensures |out| <= |rows| && Rectangular(out, |Selected(b, ids)|)
  {
    var b' := PushBind(b, ids, cs);
    RemoteShape(cmp, b, ids, cs, rows);
    DeliverRows(conv, Own(b, ids), External(LayoutOf(b')), RemoteRowsOf(cmp, b.originalNames, rows, b'.query))
  }

  /** An input of the scan: a table, the filter conjuncts above it, and values that fit. */
  ghost predicate Input(cmp: (Bytes, Bytes) -> Sign, conv: Conversion, b: Bind<Bytes>, ids: seq<nat>, columnIds: seq<nat>,
                        cs: seq<Cond<Bytes>>, rows: seq<seq<Cell>>)
    requires Antisymmetric(cmp) && Requests(b, ids, columnIds)
  {
    && Rectangular(rows, |b.originalNames|)
    && Covers(columnIds, |b.originalNames|, PushRemaining(b, cs))
    && Deliverable(Arrived(cmp, conv, b, ids, cs, rows), LayoutOf(PushBind(b, ids, cs)))
  }

  /** The requested columns of what arrives, filtered by the conjuncts left to DuckDB, are the base
      query filtered by all conjuncts and projected. */
  ghost predicate IsTheQuery(cmp: (Bytes, Bytes) -> Sign, conv: Conversion, b: Bind<Bytes>, ids: seq<nat>, columnIds: seq<nat>,
                             cs: seq<Cond<Bytes>>, rows: seq<seq<Cell>>)
    requires Antisymmetric(cmp) && Requests(b, ids, columnIds) && Input(cmp, conv, b, ids, columnIds, cs, rows)
  {
    KeepScanned(cmp, PushRemaining(b, cs), columnIds, PickAll(Selected(b, ids), columnIds, Arrived(cmp, conv, b, ids, cs, rows)))
    == ProjectAll(Keep(cmp, cs, rows), columnIds)
  }

  /** Table column `i` sits in the result at the position of a BLOB exactly if it is one itself. */
  predicate LinesUp(b: Bind<Bytes>, ids: seq<nat>, i: nat)
    requires i < |b.originalTypes|
  {
    var k := IndexOf(Selected(b, ids), i);
    (k < |b.originalTypes| && b.originalTypes[k] == "BLOB") <==> b.originalTypes[i] == "BLOB"
  }

  predicate TypesLineUp(b: Bind<Bytes>, ids: seq<nat>, columnIds: seq<nat>) {
    forall i :: i in columnIds && i < |b.originalTypes| ==> LinesUp(b, ids, i)
  }

  /** The external type that requested column `i` is defined with. */
  function DefinedAs(b: Bind<Bytes>, ids: seq<nat>, i: nat): string
    requires Parallel(b)
  {
    DefineType(b.originalTypes, PushBind(b, ids, []).ociTypes, IndexOf(Selected(b, ids), i))
  }

  /** One requested column: its define carries its own type exactly when the types line up. */
  lemma DefinedAsItself(b: Bind<Bytes>, ids: seq<nat>, cs: seq<Cond<Bytes>>, i: nat)
    requires FreshBind(b) && i in Selected(b, ids)
    ensures var k := IndexOf(Selected(b, ids), i);
            && i < |b.originalTypes|
            && |External(LayoutOf(PushBind(b, ids, cs)))| == |Selected(b, ids)|
            && External(LayoutOf(PushBind(b, ids, cs)))[k] == DefinedAs(b, ids, i)
            && (Own(b, ids)[k] == DefinedAs(b, ids, i) <==> LinesUp(b, ids, i))
  {
    ProjectedBelow(ids, |b.originalNames|);
  }

  /** What OCI does to a value defined as `external` never shows ... */
  ghost predicate Harmless(conv: Conversion, external: string) {
    forall v :: conv(external, v) == v
  }

  /** ... or shows on some value that every slot has room for, before and after. */
  ghost predicate Shows(conv: Conversion, external: string) {
    exists v :: Short(conv, external, v) && conv(external, v) != v
  }

  predicate Short(conv: Conversion, external: string, v: Bytes) {
    |v| < 4000 && |conv(external, v)| < 4000
  }

  /** Every requested column is defined with its own type, or with one that does it no harm. */
  ghost predicate Intact(conv: Conversion, b: Bind<Bytes>, ids: seq<nat>, columnIds: seq<nat>)
    requires Parallel(b)
  {
    forall i :: i in columnIds && i < |b.originalTypes| ==> LinesUp(b, ids, i) || Harmless(conv, DefinedAs(b, ids, i))
  }

  lemma PickedAsIs(conv: Conversion, own: seq<string>, external: seq<string>, selected: seq<nat>, ids: seq<nat>, row: seq<Cell>)
    requires |own| == |external| == |row| == |selected|
    requires forall i :: i in ids ==>
      i in selected && var k := IndexOf(selected, i); own[k] == external[k] || Harmless(conv, external[k])
    ensures Pick(selected, ids, DeliverRow(conv, own, external, row)) == Pick(selected, ids, row)
  {
    forall j | 0 <= j < |ids|
      ensures Pick(selected, ids, DeliverRow(conv, own, external, row))[j] == Pick(selected, ids, row)[j]
    {
      assert ids[j] in selected;
    }
  }

  /** Intact columns arrive as Oracle has them. */
  lemma ArrivesAsIs(cmp: (Bytes, Bytes) -> Sign, conv: Conversion, b: Bind<Bytes>, ids: seq<nat>, columnIds: seq<nat>,
                    cs: seq<Cond<Bytes>>, rows: seq<seq<Cell>>)
    requires Antisymmetric(cmp) && Requests(b, ids, columnIds)
    requires Rectangular(rows, |b.originalNames|) && Intact(conv, b, ids, columnIds)
    ensures PickAll(Selected(b, ids), columnIds, Arrived(cmp, conv, b, ids, cs, rows))
            == PickAll(Selected(b, ids), columnIds, RemoteRowsOf(cmp, b.originalNames, rows, PushBind(b, ids, cs).query))
  {
    var sel, remote := Selected(b, ids), RemoteRowsOf(cmp, b.originalNames, rows, PushBind(b, ids, cs).query);
    var own, external := Own(b, ids), External(LayoutOf(PushBind(b, ids, cs)));
    RemoteShape(cmp, b, ids, cs, rows);
    forall i | i in columnIds
      ensures var k := IndexOf(sel, i); own[k] == external[k] || Harmless(conv, external[k])
    {
      DefinedAsItself(b, ids, cs, i);
    }
    forall r | 0 <= r < |remote|
      ensures Pick(sel, columnIds, DeliverRow(conv, own, external, remote[r])) == Pick(sel, columnIds, remote[r])
    {
      PickedAsIs(conv, own, external, sel, columnIds, remote[r]);
    }
  }

  lemma IntactIsTheQuery(cmp: (Bytes, Bytes) -> Sign, conv: Conversion, b: Bind<Bytes>, ids: seq<nat>, columnIds: seq<nat>,
                         cs: seq<Cond<Bytes>>, rows: seq<seq<Cell>>)
    requires Antisymmetric(cmp) && Requests(b, ids, columnIds) && Intact(conv, b, ids, columnIds)
    requires Input(cmp, conv, b, ids, columnIds, cs, rows)
    ensures IsTheQuery(cmp, conv, b, ids, columnIds, cs, rows)
  {
    var arrived := Arrived(cmp, conv, b, ids, cs, rows);
    ArrivesAsIs(cmp, conv, b, ids, columnIds, cs, rows);
    ScanReturnsTheQuery(cmp, b, ids, cs, rows, arrived, columnIds, |arrived| + 1);
  }

  // ---------------------------------------------------------------- and where they do not line up

  /** A table of one row that is empty but for the value `v` in column `i`, scanned unfiltered. */
  ghost predicate Lonely(rows: seq<seq<Cell>>, cs: seq<Cond<Bytes>>, n: nat, i: nat, v: Bytes) {
    && |cs| == 0 && |rows| == 1 && Rectangular(rows, n)
    && forall c :: 0 <= c < |rows[0]| ==> rows[0][c] == if c == i then Some(v) else None
  }

  /** What the remote statement returns of it. */
  lemma LonelyRemote(cmp: (Bytes, Bytes) -> Sign, b: Bind<Bytes>, ids: seq<nat>, cs: seq<Cond<Bytes>>, rows: seq<seq<Cell>>,
                     i: nat, v: Bytes)
    requires Antisymmetric(cmp) && FreshBind(b) && Selected(b, ids) != []
    requires Lonely(rows, cs, |b.originalNames|, i, v)
    ensures RemoteRowsOf(cmp, b.originalNames, rows, PushBind(b, ids, cs).query) == [Project(rows[0], Selected(b, ids))]
  {
    RemoteRows(cmp, b, ids, cs, rows);
    WhereNothing(cmp, b.originalNames, rows);
    assert SentClauses(b, cs) == [];
  }

  /** Its value arrives converted if the column's type does not line up. */
  lemma LonelyArrives(cmp: (Bytes, Bytes) -> Sign, conv: Conversion, b: Bind<Bytes>, ids: seq<nat>, cs: seq<Cond<Bytes>>,
                      rows: seq<seq<Cell>>, i: nat, v: Bytes)
    requires Antisymmetric(cmp) && FreshBind(b) && Selected(b, ids) != []
    requires i in Selected(b, ids) && i < |b.originalTypes| && !LinesUp(b, ids, i)
    requires Lonely(rows, cs, |b.originalNames|, i, v)
    ensures var arrived := Arrived(cmp, conv, b, ids, cs, rows);
            && |arrived| == 1 && |arrived[0]| == |Selected(b, ids)|
            && arrived[0][IndexOf(Selected(b, ids), i)] == Some(conv(DefinedAs(b, ids, i), v))
  {
    DefinedAsItself(b, ids, cs, i);
    LonelyRemote(cmp, b, ids, cs, rows, i, v);
    assert Project(rows[0], Selected(b, ids))[IndexOf(Selected(b, ids), i)] == Some(v);
  }

  /** All of it fits. */
  lemma LonelyFits(cmp: (Bytes, Bytes) -> Sign, conv: Conversion, b: Bind<Bytes>, ids: seq<nat>, cs: seq<Cond<Bytes>>,
                   rows: seq<seq<Cell>>, i: nat, v: Bytes)
    requires Antisymmetric(cmp) && FreshBind(b) && Selected(b, ids) != []
    requires i in Selected(b, ids) && i < |b.originalTypes| && !LinesUp(b, ids, i)
    requires Lonely(rows, cs, |b.originalNames|, i, v) && Short(conv, DefinedAs(b, ids, i), v)
    ensures Deliverable(Arrived(cmp, conv, b, ids, cs, rows), LayoutOf(PushBind(b, ids, cs)))
  {
    var sel, external := Selected(b, ids), External(LayoutOf(PushBind(b, ids, cs)));
    var arrived: seq<seq<Cell>> := Arrived(cmp, conv, b, ids, cs, rows);
    DefinedAsItself(b, ids, cs, i);
    LonelyRemote(cmp, b, ids, cs, rows, i, v);
    forall c: nat | 0 <= c < |sel| && arrived[0][c].Some? ensures |arrived[0][c].value| < 4000 {
      assert Project(rows[0], sel)[c] == Some(v) && sel[c] == i;
      OnlyOther(b, ids, cs, c, i);
    }
    ShortFits(arrived, LayoutOf(PushBind(b, ids, cs)));
  }

  /** Wherever else the column is selected, it has the same type or its own. */
  lemma OnlyOther(b: Bind<Bytes>, ids: seq<nat>, cs: seq<Cond<Bytes>>, c: nat, i: nat)
    requires FreshBind(b) && i in Selected(b, ids) && i < |b.originalTypes| && !LinesUp(b, ids, i)
    requires c < |Selected(b, ids)| && Selected(b, ids)[c] == i
    ensures |External(LayoutOf(PushBind(b, ids, cs)))| == |Selected(b, ids)|
    ensures var e := External(LayoutOf(PushBind(b, ids, cs)))[c]; e == Own(b, ids)[c] || e == DefinedAs(b, ids, i)
  {
    DefinedAsItself(b, ids, cs, i);
    DefinedAsEither(b, ids, i);
  }

  lemma DefinedAsEither(b: Bind<Bytes>, ids: seq<nat>, i: nat)
    requires Parallel(b)
    ensures DefinedAs(b, ids, i) == "SQLT_STR" || DefinedAs(b, ids, i) == "SQLT_BIN"
  {
  }

  lemma LonelyInput(cmp: (Bytes, Bytes) -> Sign, conv: Conversion, b: Bind<Bytes>, ids: seq<nat>, columnIds: seq<nat>,
                    cs: seq<Cond<Bytes>>, rows: seq<seq<Cell>>, i: nat, v: Bytes)
    requires Antisymmetric(cmp) && Requests(b, ids, columnIds)
    requires i in columnIds && i < |b.originalTypes| && !LinesUp(b, ids, i)
    requires Lonely(rows, cs, |b.originalNames|, i, v) && Short(conv, DefinedAs(b, ids, i), v)
    ensures Input(cmp, conv, b, ids, columnIds, cs, rows)
  {
    LonelyFits(cmp, conv, b, ids, cs, rows, i, v);
    assert PushRemaining(b, cs) == [];
  }

  ghost predicate Served(cmp: (Bytes, Bytes) -> Sign, conv: Conversion, b: Bind<Bytes>, ids: seq<nat>, columnIds: seq<nat>,
                         cs: seq<Cond<Bytes>>, rows: seq<seq<Cell>>)
    requires Antisymmetric(cmp) && Requests(b, ids, columnIds)
  {
    Input(cmp, conv, b, ids, columnIds, cs, rows) ==> IsTheQuery(cmp, conv, b, ids, columnIds, cs, rows)
  }

  /** A requested column whose type does not line up: any value in it that the conversion changes
      makes the scan wrong, on a table of that one row and without a filter. */
  lemma MisalignedIsNotTheQuery(cmp: (Bytes, Bytes) -> Sign, conv: Conversion, b: Bind<Bytes>, ids: seq<nat>, columnIds: seq<nat>,
                                cs: seq<Cond<Bytes>>, rows: seq<seq<Cell>>, i: nat, v: Bytes)
    requires Antisymmetric(cmp) && Requests(b, ids, columnIds)
    requires i in columnIds && i < |b.originalTypes| && !LinesUp(b, ids, i)
    requires Lonely(rows, cs, |b.originalNames|, i, v) && Short(conv, DefinedAs(b, ids, i), v)
    ensures conv(DefinedAs(b, ids, i), v) != v ==> !Served(cmp, conv, b, ids, columnIds, cs, rows)
  {
    LonelyInput(cmp, conv, b, ids, columnIds, cs, rows, i, v);
    LonelyPicked(cmp, conv, b, ids, columnIds, cs, rows, i, v);
    LonelyExpected(cmp, columnIds, cs, rows, |b.originalNames|, i, v);
  }

  lemma LonelyPicked(cmp: (Bytes, Bytes) -> Sign, conv: Conversion, b: Bind<Bytes>, ids: seq<nat>, columnIds: seq<nat>,
                     cs: seq<Cond<Bytes>>, rows: seq<seq<Cell>>, i: nat, v: Bytes)
    requires Antisymmetric(cmp) && Requests(b, ids, columnIds)
    requires i in columnIds && i < |b.originalTypes| && !LinesUp(b, ids, i)
    requires Lonely(rows, cs, |b.originalNames|, i, v) && Short(conv, DefinedAs(b, ids, i), v)
    ensures var scanned := KeepScanned(cmp, PushRemaining(b, cs), columnIds,
                                       PickAll(Selected(b, ids), columnIds, Arrived(cmp, conv, b, ids, cs, rows)));
            |scanned| == 1 && scanned[0][IndexOf(columnIds, i)] == Some(conv(DefinedAs(b, ids, i), v))
  {
    LonelyArrives(cmp, conv, b, ids, cs, rows, i, v);
    var picked := PickAll(Selected(b, ids), columnIds, Arrived(cmp, conv, b, ids, cs, rows));
    KeepEverything(cmp, PushRemaining(b, cs), columnIds, picked);
    assert picked[0][IndexOf(columnIds, i)] == Some(conv(DefinedAs(b, ids, i), v));
  }

  lemma LonelyExpected(cmp: (Bytes, Bytes) -> Sign, columnIds: seq<nat>, cs: seq<Cond<Bytes>>, rows: seq<seq<Cell>>, n: nat,
                       i: nat, v: Bytes)
    requires Lonely(rows, cs, n, i, v) && i < n && i in columnIds
    ensures var expected := ProjectAll(Keep(cmp, cs, rows), columnIds);
            |expected| == 1 && expected[0][IndexOf(columnIds, i)] == Some(v)
  {
    assert Keep(cmp, cs, rows) == rows;
    ProjectAllAt(rows, columnIds);
  }

  lemma {:induction false} KeepEverything(cmp: (Bytes, Bytes) -> Sign, cs: seq<Cond<Bytes>>, ids: seq<nat>, outs: seq<seq<Cell>>)
    requires |cs| == 0
    ensures KeepScanned(cmp, cs, ids, outs) == outs
  {
    if outs != [] {
      KeepEverything(cmp, cs, ids, outs[1..]);
    }
  }

  /** On every table and under every filter. */
  ghost predicate AlwaysTheQuery(cmp: (Bytes, Bytes) -> Sign, conv: Conversion, b: Bind<Bytes>, ids: seq<nat>, columnIds: seq<nat>)
    requires Antisymmetric(cmp) && Requests(b, ids, columnIds)
  {
    forall cs: seq<Cond<Bytes>>, rows: seq<seq<Cell>> :: Served(cmp, conv, b, ids, columnIds, cs, rows)
  }

  lemma IntactIsAlwaysTheQuery(cmp: (Bytes, Bytes) -> Sign, conv: Conversion, b: Bind<Bytes>, ids: seq<nat>, columnIds: seq<nat>)
    requires Antisymmetric(cmp) && Requests(b, ids, columnIds) && Intact(conv, b, ids, columnIds)
    ensures AlwaysTheQuery(cmp, conv, b, ids, columnIds)
  {
    forall cs: seq<Cond<Bytes>>, rows: seq<seq<Cell>>
      ensures Served(cmp, conv, b, ids, columnIds, cs, rows)
    {
      if Input(cmp, conv, b, ids, columnIds, cs, rows) {
        IntactIsTheQuery(cmp, conv, b, ids, columnIds, cs, rows);
      }
    }
  }

  lemma LonelyTable(n: nat, i: nat, v: Bytes) returns (cs: seq<Cond<Bytes>>, rows: seq<seq<Cell>>)
    ensures Lonely(rows, cs, n, i, v)
  {
    cs, rows := [], [seq(n, c => if c == i then Some(v) else None)];
  }

  lemma MisalignedIsNotAlways(cmp: (Bytes, Bytes) -> Sign, conv: Conversion, b: Bind<Bytes>, ids: seq<nat>, columnIds: seq<nat>,
                              i: nat)
    requires Antisymmetric(cmp) && Requests(b, ids, columnIds)
    requires i in columnIds && i < |b.originalTypes| && !LinesUp(b, ids, i) && Shows(conv, DefinedAs(b, ids, i))
    ensures !AlwaysTheQuery(cmp, conv, b, ids, columnIds)
  {
    var v :| Short(conv, DefinedAs(b, ids, i), v) && conv(DefinedAs(b, ids, i), v) != v;
    var cs, rows := LonelyTable(|b.originalNames|, i, v);
    MisalignedIsNotTheQuery(cmp, conv, b, ids, columnIds, cs, rows, i, v);
  }

  /** The exact condition.  A scan always returns the query if and only if every requested column
      is defined with its own external type, or with the other one where that does no harm. */
  lemma ScanIsTheQueryIff(cmp: (Bytes, Bytes) -> Sign, conv: Conversion, b: Bind<Bytes>, ids: seq<nat>, columnIds: seq<nat>)
    requires Antisymmetric(cmp) && Requests(b, ids, columnIds)
    requires Harmless(conv, "SQLT_STR") || Shows(conv, "SQLT_STR")
    requires Harmless(conv, "SQLT_BIN") || Shows(conv, "SQLT_BIN")
    ensures AlwaysTheQuery(cmp, conv, b, ids, columnIds) <==> Intact(conv, b, ids, columnIds)
  {
    if Intact(conv, b, ids, columnIds) {
      IntactIsAlwaysTheQuery(cmp, conv, b, ids, columnIds);
    } else {
      var i :| i in columnIds && i < |b.originalTypes| && !LinesUp(b, ids, i) && !Harmless(conv, DefinedAs(b, ids, i));
      DefinedAsEither(b, ids, i);
      MisalignedIsNotAlways(cmp, conv, b, ids, columnIds, i);
    }
  }

  /** Where both conversions show, that is: if and only if the types line up. */
  lemma LinedUpIff(cmp: (Bytes, Bytes) -> Sign, conv: Conversion, b: Bind<Bytes>, ids: seq<nat>, columnIds: seq<nat>)
    requires Antisymmetric(cmp) && Requests(b, ids, columnIds)
    requires Shows(conv, "SQLT_STR") && Shows(conv, "SQLT_BIN")
    ensures AlwaysTheQuery(cmp, conv, b, ids, columnIds) <==> TypesLineUp(b, ids, columnIds)
  {
    ScanIsTheQueryIff(cmp, conv, b, ids, columnIds);
    IntactIffLinedUp(conv, b, ids, columnIds);
  }

  lemma IntactIffLinedUp(conv: Conversion, b: Bind<Bytes>, ids: seq<nat>, columnIds: seq<nat>)
    requires Parallel(b) && Shows(conv, "SQLT_STR") && Shows(conv, "SQLT_BIN")
    ensures Intact(conv, b, ids, columnIds) <==> TypesLineUp(b, ids, columnIds)
  {
    ShowsIsHarm(conv, "SQLT_STR");
    ShowsIsHarm(conv, "SQLT_BIN");
    forall i | i in columnIds && i < |b.originalTypes| ensures !Harmless(conv, DefinedAs(b, ids, i)) {
      DefinedAsEither(b, ids, i);
    }
  }

  lemma ShowsIsHarm(conv: Conversion, external: string)
    requires Shows(conv, external)
    ensures !Harmless(conv, external)
  {
  }

  lemma UnprojectedLinesUp(b: Bind<Bytes>, ids: seq<nat>, columnIds: seq<nat>)
    requires FreshBind(b) && (!b.enablePushdown || ids == [])
    ensures TypesLineUp(b, ids, columnIds)
  {
    forall i | i in columnIds && i < |b.originalTypes| ensures IndexOf(Selected(b, ids), i) == i {
      assert Selected(b, ids)[i] == i;
    }
  }

  /** Without pushdown, and with pushdown that projects nothing, a scan returns the query whatever
      the conversions do. */
  lemma UnprojectedIsTheQuery(cmp: (Bytes, Bytes) -> Sign, conv: Conversion, b: Bind<Bytes>, ids: seq<nat>, columnIds: seq<nat>)
    requires Antisymmetric(cmp) && Requests(b, ids, columnIds) && (!b.enablePushdown || ids == [])
    ensures AlwaysTheQuery(cmp, conv, b, ids, columnIds)
  {
    UnprojectedLinesUp(b, ids, columnIds);
    IntactIsAlwaysTheQuery(cmp, conv, b, ids, columnIds);
  }

  /** The names and types of the scan node are, column by column, those of the columns the statement
      selects. */
  ghost predicate NodeAgrees(node: (seq<string>, seq<string>), b: Bind<Bytes>, ids: seq<nat>) {
    && |node.0| == |node.1| == |Selected(b, ids)|
    && forall k :: 0 <= k < |node.0| ==>
         var i := Selected(b, ids)[k];
         i < |b.originalNames| && i < |b.originalTypes| && node.0[k] == b.originalNames[i] && node.1[k] == b.originalTypes[i]
  }

  /** The objects of the extension, run one after the other on a freshly bound scan of `rows`.  The
      requested columns come out as they arrived; where they are intact that is the query. */
  method ScanTable(cmp: (Bytes, Bytes) -> Sign, conv: Conversion, bind: OracleBindData<Bytes>, projectionIds: seq<nat>,
                   expressions: seq<Cond<Bytes>>, columnIds: seq<nat>, rows: seq<seq<Cell>>)
    returns (out: seq<seq<OutCell<Bytes>>>, remaining: seq<Cond<Bytes>>, node: Option<(seq<string>, seq<string>)>)
    requires Antisymmetric(cmp) && Requests(bind.View(), projectionIds, columnIds)
    requires Input(cmp, conv, bind.View(), projectionIds, columnIds, expressions, rows)
    modifies bind
    ensures remaining == PushRemaining(old(bind.View()), expressions)
    ensures node.Some? <==> old(bind.enable_pushdown) && projectionIds != []
    ensures node.Some? ==> NodeAgrees(node.value, old(bind.View()), projectionIds)
    ensures var outs := PickAll(Selected(old(bind.View()), projectionIds), columnIds,
                                Arrived(cmp, conv, old(bind.View()), projectionIds, expressions, rows));
            && out == FillAll(outs)
            && (Intact(conv, old(bind.View()), projectionIds, columnIds) ==>
                  KeepScanned(cmp, remaining, columnIds, outs) == ProjectAll(Keep(cmp, expressions, rows), columnIds))
  {
    ghost var b := bind.View();
    ghost var sel := Selected(b, projectionIds);
    ghost var arrived := Arrived(cmp, conv, b, projectionIds, expressions, rows);
    var own := Own(Bind(bind.enable_pushdown, bind.query, bind.column_names, bind.oci_types, bind.oci_sizes,
                        bind.original_names, bind.original_types), projectionIds);
    remaining, node := bind.PushdownComplexFilter(projectionIds, expressions);
    var remote := RemoteRowsOf(cmp, bind.original_names, rows, bind.query);
    var layout := Layout(bind.oci_sizes, bind.oci_types, bind.original_types);
    assert |bind.column_names| == |own| == |layout.sizes| && Rectangular(remote, |own|) by {
      RemoteRows(cmp, b, projectionIds, expressions, rows);
      RemoteShape(cmp, b, projectionIds, expressions, rows);
    }
    var scan := new OracleScanState(bind.original_names, bind.column_names, layout, columnIds, projectionIds, remote, own, conv);
    out := FetchAll(scan, layout, |columnIds|);
    assert out == FillAll(PickAll(sel, columnIds, arrived)) by {
      RemoteRows(cmp, b, projectionIds, expressions, rows);
      MappedRowsArePicked(b.originalNames, sel, columnIds, arrived);
    }
    if Intact(conv, b, projectionIds, columnIds) {
      IntactIsTheQuery(cmp, conv, b, projectionIds, columnIds, expressions, rows);
    }
  }
}
