/** The define buffers of a scan (src/oracle_extension.cpp:598-669) and reading cells back out of
    them (787-798).  The reader recomputes the stride by dividing the buffer size; OCI was told
    the stride at define time.  Proved to be the same, so every cell reads back as delivered.  A
    column is delivered as it is where it was defined with the external type it calls for, and
    converted by OCI where it was not. */
module FetchBuffers {
  import opened Wrappers
  import opened Relational
  import opened Pushdown
  import opened Scan
  import opened Strided

  const UB4: nat := 0x1_0000_0000

  /** The slot size of a column: four bytes per character in ub4 arithmetic, at least 4000. */
  function DefineSize(ociSize: nat): (r: nat)
    ensures 4000 <= r < UB4
  {
    var size := if ociSize > 0 then (ociSize * 4) % UB4 else 4000;
    if size < 4000 then 4000 else size
  }

  /** Room for data: text gives up the last byte of its slot to the terminating NUL. */
  function Room(slot: nat, external: string): nat {
    if external == "SQLT_STR" && slot > 0 then slot - 1 else slot
  }

  /** Four bytes per character always fit a binary slot if and only if the product fits in a ub4,
      and a text slot if and only if they stay below the minimum size of 4000: a longer text column
      filled with four-byte characters leaves no room for the NUL. */
  lemma CapacityIff(ociSize: nat, external: string)
    ensures Room(DefineSize(ociSize), external) >= 4 * ociSize
            <==> 4 * ociSize < if external == "SQLT_STR" then 4000 else UB4
  {
  }

  /** The stride OCI was told is the stride the reader computes. */
  lemma StrideRecomputed(size: nat)
    ensures (size * STANDARD_VECTOR_SIZE) / STANDARD_VECTOR_SIZE == size
  {
  }

  // ---------------------------------------------------------------- define types

  /** The external type a fetched column is defined with: by its position, not by its name. */
  function DefineType(originalTypes: seq<string>, ociTypes: seq<nat>, col: nat): string {
    if col < |originalTypes| && originalTypes[col] == "BLOB" && col < |ociTypes| then "SQLT_BIN" else "SQLT_STR"
  }

  function TypeFor(duckType: string): string {
    if duckType == "BLOB" then "SQLT_BIN" else "SQLT_STR"
  }

  /** Pushdown shortens the names, types and sizes of the fetched columns but not `original_types`.
      All columns are defined with the type of the column they hold if and only if BLOB columns
      and the positions of BLOB columns in the projection coincide. */
  lemma DefineTypesIff<V(!new)>(b: Bind<V>, ids: seq<nat>, cs: seq<Cond<V>>)
    requires FreshBind(b) && b.enablePushdown
    ensures var b' := PushBind(b, ids, cs);
            var sel := Projected(ids, |b.originalNames|);
            && |b'.ociTypes| == |sel|
            && (forall k :: 0 <= k < |sel| ==> sel[k] < |b.originalTypes|)
            && ((forall k :: 0 <= k < |sel| ==>
                   DefineType(b'.originalTypes, b'.ociTypes, k) == TypeFor(b.originalTypes[sel[k]]))
                <==>
                (forall k :: 0 <= k < |sel| ==>
                   ((k < |b.originalTypes| && b.originalTypes[k] == "BLOB") <==> b.originalTypes[sel[k]] == "BLOB")))
  {
    ProjectedBelow(ids, |b.originalNames|);
    var b', sel := PushBind(b, ids, cs), Projected(ids, |b.originalNames|);
    assert b'.originalTypes == b.originalTypes;
    forall k | 0 <= k < |sel|
      ensures DefineType(b'.originalTypes, b'.ociTypes, k) == TypeFor(b.originalTypes[sel[k]])
              <==> ((k < |b.originalTypes| && b.originalTypes[k] == "BLOB") <==> b.originalTypes[sel[k]] == "BLOB")
    {
    }
  }

  /** It fails: selecting only the second of a VARCHAR and a BLOB column fetches the BLOB as text. */
  lemma DefineTypesCanBeWrong()
    ensures var b: Bind<int> := Bind(true, Base, ["A", "B"], [1, 113], [10, 4000], ["A", "B"], ["VARCHAR", "BLOB"]);
            && FreshBind(b)
            && Projected([1], 2) == [1]
            && DefineType(PushBind(b, [1], []).originalTypes, PushBind(b, [1], []).ociTypes, 0) != TypeFor("BLOB")
  {
  }

  // ---------------------------------------------------------------- what OCI delivers

  /** What OCI makes of a value that is defined with an external type, when that is not the one its
      column calls for. */
  type Conversion = (string, seq<Byte>) -> seq<Byte>

  function DeliverCell(conv: Conversion, own: string, external: string, c: Cell): Cell {
    if own == external || c.None? then c else Some(conv(external, c.value))
  }

  function DeliverColumn(conv: Conversion, own: string, external: string, cells: seq<Cell>): (out: seq<Cell>)
    ensures |out| == |cells|
    ensures forall i :: 0 <= i < |cells| ==> out[i] == DeliverCell(conv, own, external, cells[i])
  {
    seq(|cells|, i requires 0 <= i < |cells| => DeliverCell(conv, own, external, cells[i]))
  }

  function DeliverRow(conv: Conversion, own: seq<string>, external: seq<string>, row: seq<Cell>): (out: seq<Cell>)
    requires |own| == |external| == |row|
    ensures |out| == |row|
    ensures forall c :: 0 <= c < |row| ==> out[c] == DeliverCell(conv, own[c], external[c], row[c])
  {
    seq(|row|, c requires 0 <= c < |row| => DeliverCell(conv, own[c], external[c], row[c]))
  }

  function DeliverRows(conv: Conversion, own: seq<string>, external: seq<string>, rows: seq<seq<Cell>>): (out: seq<seq<Cell>>)
    requires |own| == |external| && Rectangular(rows, |own|)
    ensures |out| == |rows| && Rectangular(out, |own|)
    ensures forall r :: 0 <= r < |rows| ==> out[r] == DeliverRow(conv, own, external, rows[r])
  {
    seq(|rows|, r requires 0 <= r < |rows| => DeliverRow(conv, own, external, rows[r]))
  }

  // ---------------------------------------------------------------- buffers

  /** What OracleInitGlobal reads from the bind object to define the columns. */
  datatype Layout = Layout(sizes: seq<nat>, ociTypes: seq<nat>, originalTypes: seq<string>)

  function External(l: Layout): (types: seq<string>)
    ensures |types| == |l.sizes|
    ensures forall c :: 0 <= c < |types| ==> types[c] == DefineType(l.originalTypes, l.ociTypes, c)
  {
    seq(|l.sizes|, c requires 0 <= c < |l.sizes| => DefineType(l.originalTypes, l.ociTypes, c))
  }

  datatype Define = Define(data: array<Byte>, stride: nat, external: string, ind: array<Sb2>, len: array<Ub2>)

  /** The values of a column fit: each within its slot (less the NUL of text) and a ub2 length. */
  ghost predicate Fits(cells: seq<Cell>, slot: nat, external: string) {
    AtMost(cells, Room(slot, external)) && AtMost(cells, 0xFFFF)
  }

  /** OCI ends every text value with a NUL in its own slot; no slot reads differently for it. */
  method Terminate(data: array<Byte>, ind: array<Sb2>, len: array<Ub2>, stride: nat, cells: seq<Cell>)
    requires |cells| <= ind.Length == len.Length && data.Length == ind.Length * stride && stride > 0
    requires AtMost(cells, stride - 1) && AtMost(cells, 0xFFFF)
    requires Written(data[..], ind[..], len[..], stride, cells, |cells|)
    modifies data
    ensures Written(data[..], ind[..], len[..], stride, cells, |cells|)
  {
    for i := 0 to |cells|
      invariant Written(data[..], ind[..], len[..], stride, cells, |cells|)
    {
      if cells[i].Some? {
        StoredIff(cells[i]);
        assert Readable(data[..], ind[..], len[..], stride, i);
        assert len[i] as nat < stride by {
          assert Slot(data[..], ind[..], len[..], stride, i) == cells[i];
        }
        PutNul(data, ind, len, stride, i, cells);
      }
    }
  }

  method PutNul(data: array<Byte>, ind: array<Sb2>, len: array<Ub2>, stride: nat, i: nat, ghost cells: seq<Cell>)
    requires i < |cells| <= ind.Length == len.Length && data.Length == ind.Length * stride
    requires len[i] as nat < stride
    requires Written(data[..], ind[..], len[..], stride, cells, |cells|)
    modifies data
    ensures Written(data[..], ind[..], len[..], stride, cells, |cells|)
  {
    SlotInside(i, ind.Length, stride, len[i] as nat + 1);
    ghost var before := data[..];
    var at := i * stride + len[i] as nat;
    data[at] := 0;
    forall k | 0 <= k < |cells|
      ensures Readable(data[..], ind[..], len[..], stride, k)
      ensures Slot(data[..], ind[..], len[..], stride, k) == Stored(cells[k])
    {
      assert Readable(before, ind[..], len[..], stride, k);
      if k < i {
        SlotsApart(k, i, stride);
      } else if i < k {
        SlotsApart(i, k, stride);
      }
      var lo, hi := k * stride, k * stride + len[k] as nat;
      assert data[..][lo..hi] == before[lo..hi];
    }
  }

  class ScanBuffers {
    var buffers: seq<array<Byte>>
    var indicators: seq<array<Sb2>>
    var return_lens: seq<array<Ub2>>
    var defines: seq<Define>

    ghost predicate Separate(n: nat)
      reads this
    {
      && |buffers| == |indicators| == |return_lens| == |defines| == n
      && (forall i, j :: 0 <= i < j < n ==> buffers[i] != buffers[j])
      && (forall i, j :: 0 <= i < j < n ==> indicators[i] != indicators[j])
      && (forall i, j :: 0 <= i < j < n ==> return_lens[i] != return_lens[j])
    }

    /** OCI knows the buffer of column `c`, with the stride its size was computed from and the
        external type of its position. */
    ghost predicate Defined(c: nat, l: Layout)
      requires c < |l.sizes| == |buffers| == |indicators| == |return_lens| == |defines|
      reads this
    {
      && defines[c] == Define(buffers[c], DefineSize(l.sizes[c]), External(l)[c], indicators[c], return_lens[c])
      && buffers[c].Length == DefineSize(l.sizes[c]) * STANDARD_VECTOR_SIZE
      && indicators[c].Length == return_lens[c].Length == STANDARD_VECTOR_SIZE
    }

    ghost predicate Valid(l: Layout)
      reads this
    {
      Separate(|l.sizes|) && forall c :: 0 <= c < |l.sizes| ==> Defined(c, l)
    }

    /** The define loop of OracleInitGlobal. */
    constructor (l: Layout)
      ensures Valid(l)
      ensures forall c :: 0 <= c < |l.sizes| ==> fresh(buffers[c])
      ensures forall c :: 0 <= c < |l.sizes| ==> fresh(indicators[c])
      ensures forall c :: 0 <= c < |l.sizes| ==> fresh(return_lens[c])
    {
      var data: seq<array<Byte>>, ind: seq<array<Sb2>>, len: seq<array<Ub2>> := [], [], [];
      var defs: seq<Define> := [];
      for c := 0 to |l.sizes|
        invariant |data| == |ind| == |len| == |defs| == c
        invariant forall k :: 0 <= k < c ==> fresh(data[k]) && fresh(ind[k]) && fresh(len[k])
        invariant forall i, j :: 0 <= i < j < c ==> data[i] != data[j]
        invariant forall i, j :: 0 <= i < j < c ==> ind[i] != ind[j]
        invariant forall i, j :: 0 <= i < j < c ==> len[i] != len[j]
        invariant forall k :: 0 <= k < c ==>
          && defs[k] == Define(data[k], DefineSize(l.sizes[k]), External(l)[k], ind[k], len[k])
          && data[k].Length == DefineSize(l.sizes[k]) * STANDARD_VECTOR_SIZE
          && ind[k].Length == len[k].Length == STANDARD_VECTOR_SIZE
      {
        var size := 4000;
        if l.sizes[c] > 0 {
          size := (l.sizes[c] * 4) % UB4;
        }
        if size < 4000 {
          size := 4000;
        }
        var external := "SQLT_STR";
        if c < |l.originalTypes| && l.originalTypes[c] == "BLOB" && c < |l.ociTypes| {
          external := "SQLT_BIN";
        }
        var d, i, n := NewColumn(size * STANDARD_VECTOR_SIZE, STANDARD_VECTOR_SIZE);
        data, ind, len, defs := data + [d], ind + [i], len + [n], defs + [Define(d, size, external, i, n)];
      }
      buffers, indicators, return_lens, defines := data, ind, len, defs;
    }

    ghost predicate Holds(c: nat, l: Layout, cells: seq<Cell>)
      requires c < |l.sizes| == |buffers| == |indicators| == |return_lens| == |defines|
      reads this, buffers, indicators, return_lens
    {
      Written(buffers[c][..], indicators[c][..], return_lens[c][..], DefineSize(l.sizes[c]), cells, |cells|)
    }

    /** What column `c` is delivered as, by the external type OCI was given for it. */
    ghost function Arriving(c: nat, l: Layout, conv: Conversion, own: seq<string>, cells: seq<Cell>): seq<Cell>
      requires c < |own| == |l.sizes|
    {
      DeliverColumn(conv, own[c], External(l)[c], cells)
    }

    /** OCI's side of a fetch: through the defines, column by column, at most one vector of rows.
        A value arrives as it is only where the define names its column's own external type. */
    method OciFetch(ghost l: Layout, conv: Conversion, own: seq<string>, columns: seq<seq<Cell>>, count: nat)
      requires Valid(l) && |columns| == |own| == |l.sizes| && count <= STANDARD_VECTOR_SIZE
      requires forall c :: 0 <= c < |columns| ==>
        |columns[c]| == count && Fits(Arriving(c, l, conv, own, columns[c]), DefineSize(l.sizes[c]), External(l)[c])
      modifies buffers, indicators, return_lens
      ensures forall c :: 0 <= c < |columns| ==> Holds(c, l, Arriving(c, l, conv, own, columns[c]))
    {
      for c := 0 to |columns|
        invariant forall k :: 0 <= k < c ==> Holds(k, l, Arriving(k, l, conv, own, columns[k]))
      {
        assert Defined(c, l);
        var d := defines[c];
        var cells := DeliverColumn(conv, own[c], d.external, columns[c]);
        assert cells == Arriving(c, l, conv, own, columns[c]);
        var _ := WriteCells(d.data, d.ind, d.len, d.stride, cells);
        if d.external == "SQLT_STR" {
          Terminate(d.data, d.ind, d.len, d.stride, cells);
        }
      }
    }

    /** The reader in OracleQueryFunction: indicator, recomputed stride, length, bytes. */
    method ReadCell(ghost l: Layout, ghost columns: seq<seq<Cell>>, c: nat, row: nat) returns (cell: Cell)
      requires Valid(l) && |columns| == |l.sizes| && c < |columns|
      requires Holds(c, l, columns[c]) && row < |columns[c]|
      ensures cell == Stored(columns[c][row])
    {
      assert Defined(c, l);
      StrideRecomputed(DefineSize(l.sizes[c]));
      assert Readable(buffers[c][..], indicators[c][..], return_lens[c][..], DefineSize(l.sizes[c]), row);
      if indicators[c][row] == -1 {
        return None;
      }
      var element_size := buffers[c].Length / STANDARD_VECTOR_SIZE;
      var ptr := row * element_size;
      cell := Some(buffers[c][ptr..ptr + return_lens[c][row] as nat]);
    }

    /** The row and column loops of OracleQueryFunction: output column `col` is read from the
        buffer the mapping names, or skipped when there is no such buffer. */
    method ReadChunk(ghost l: Layout, ghost columns: seq<seq<Cell>>, count: nat, mapping: seq<nat>, outputColumns: nat)
      returns (chunk: seq<seq<OutCell<seq<Byte>>>>)
      requires Valid(l) && |columns| == |l.sizes|
      requires forall c :: 0 <= c < |columns| ==>
        |columns[c]| == count && AtMost(columns[c], 0xFFFF) && Holds(c, l, columns[c])
      ensures |chunk| == count
      ensures forall r :: 0 <= r < count ==> chunk[r] == OutRow(mapping, |columns|, outputColumns, RowOf(columns, r))
    {
      chunk := [];
      for r := 0 to count
        invariant |chunk| == r
        invariant forall k :: 0 <= k < r ==> chunk[k] == OutRow(mapping, |columns|, outputColumns, RowOf(columns, k))
      {
        var out: seq<OutCell<seq<Byte>>> := [];
        for col := 0 to outputColumns
          invariant |out| == col
          invariant forall k :: 0 <= k < col ==> out[k] == OutRow(mapping, |columns|, outputColumns, RowOf(columns, r))[k]
        {
          var buffer_idx := col;
          if col < |mapping| {
            buffer_idx := mapping[col];
          }
          if buffer_idx >= |indicators| {
            out := out + [Untouched];
          } else {
            var cell := ReadCell(l, columns, buffer_idx, r);
            StoredIff(columns[buffer_idx][r]);
            out := out + [Filled(cell)];
          }
        }
        assert out == OutRow(mapping, |columns|, outputColumns, RowOf(columns, r));
        chunk := chunk + [out];
      }
    }
  }

  /** Row `r` of a batch held column by column. */
  function RowOf(columns: seq<seq<Cell>>, r: nat): (row: seq<Cell>)
    requires forall c :: 0 <= c < |columns| ==> r < |columns[c]|
    ensures |row| == |columns|
    ensures forall c :: 0 <= c < |columns| ==> row[c] == columns[c][r]
  {
    seq(|columns|, c requires 0 <= c < |columns| => columns[c][r])
  }

  function ColumnsOf(rows: seq<seq<Cell>>, n: nat): (columns: seq<seq<Cell>>)
    requires Rectangular(rows, n)
    ensures |columns| == n
    ensures forall c :: 0 <= c < n ==> |columns[c]| == |rows| && forall r :: 0 <= r < |rows| ==> columns[c][r] == rows[r][c]
  {
    seq(n, c requires 0 <= c < n => seq(|rows|, r requires 0 <= r < |rows| => rows[r][c]))
  }

  /** The rows, as they arrive, can be delivered without truncation. */
  ghost predicate Deliverable(arriving: seq<seq<Cell>>, l: Layout) {
    && Rectangular(arriving, |l.sizes|)
    && forall r, c :: 0 <= r < |arriving| && 0 <= c < |l.sizes| && arriving[r][c].Some? ==>
         && |arriving[r][c].value| <= Room(DefineSize(l.sizes[c]), External(l)[c])
         && |arriving[r][c].value| <= 0xFFFF
  }

  /** Values below 4000 bytes fit every slot. */
  lemma ShortFits(arriving: seq<seq<Cell>>, l: Layout)
    requires Rectangular(arriving, |l.sizes|)
    requires forall r, c :: 0 <= r < |arriving| && 0 <= c < |l.sizes| && arriving[r][c].Some? ==> |arriving[r][c].value| < 4000
    ensures Deliverable(arriving, l)
  {
  }

  /** Rows whose values have at most as many characters as their columns declare. */
  ghost predicate Declared(arriving: seq<seq<Cell>>, l: Layout) {
    && Rectangular(arriving, |l.sizes|)
    && forall r, c :: 0 <= r < |arriving| && 0 <= c < |l.sizes| && arriving[r][c].Some? ==>
         |arriving[r][c].value| <= 4 * l.sizes[c]
  }

  /** The columns whose declared length their buffers can always take. */
  predicate RoomFor(l: Layout, c: nat)
    requires c < |l.sizes|
  {
    l.sizes[c] < if External(l)[c] == "SQLT_STR" then 1000 else 16384
  }

  /** Every row within the declared lengths is delivered without truncation if and only if text
      columns are declared below 1000 characters, because of the NUL, and binary ones below 16384,
      because of the ub2 length. */
  lemma DeclaredFitsIff(l: Layout)
    ensures (forall arriving :: Declared(arriving, l) ==> Deliverable(arriving, l))
            <==> (forall c :: 0 <= c < |l.sizes| ==> RoomFor(l, c))
  {
    forall c | 0 <= c < |l.sizes|
      ensures RoomFor(l, c) <==> 4 * l.sizes[c] <= 0xFFFF && 4 * l.sizes[c] <= Room(DefineSize(l.sizes[c]), External(l)[c])
    {
      CapacityIff(l.sizes[c], External(l)[c]);
    }
    if c :| 0 <= c < |l.sizes| && !RoomFor(l, c) {
      var value: seq<Byte> := seq(4 * l.sizes[c], i => 0);
      var row: seq<Cell> := seq(|l.sizes|, k => if k == c then Some(value) else None);
      var arriving := [row];
      assert arriving[0][c] == Some(value);
      assert Declared(arriving, l) && !Deliverable(arriving, l);
    }
  }

  lemma ColumnsFit(conv: Conversion, own: seq<string>, rows: seq<seq<Cell>>, l: Layout, from: nat, to: nat)
    requires |own| == |l.sizes| && Rectangular(rows, |own|) && from <= to <= |rows|
    requires Deliverable(DeliverRows(conv, own, External(l), rows), l)
    ensures Rectangular(rows[from..to], |l.sizes|)
    ensures var columns := ColumnsOf(rows[from..to], |l.sizes|);
            forall c :: 0 <= c < |columns| ==>
              Fits(DeliverColumn(conv, own[c], External(l)[c], columns[c]), DefineSize(l.sizes[c]), External(l)[c])
  {
    var all := DeliverRows(conv, own, External(l), rows);
    var columns := ColumnsOf(rows[from..to], |l.sizes|);
    forall c, i | 0 <= c < |columns| && 0 <= i < to - from
      ensures DeliverColumn(conv, own[c], External(l)[c], columns[c])[i] == all[from + i][c]
    {
      assert rows[from..to][i] == rows[from + i];
    }
  }

  // ---------------------------------------------------------------- the scan object

  class OracleScanState {
    const stmt: OciStatement<seq<Byte>>
    const buffers: ScanBuffers
    /** The external type each result column of the statement calls for, and what OCI does to a
        value that is defined with another. */
    const own: seq<string>
    const conv: Conversion
    var column_mapping: seq<nat>
    var executed: bool
    var finished: bool

    /** The scan as a cursor over the rows as they arrive in the buffers. */
    ghost function View(l: Layout, outputColumns: nat): ScanView<seq<Byte>>
      requires |own| == |l.sizes| && Rectangular(stmt.rows, |own|)
      reads this, stmt, buffers
    {
      ScanView(DeliverRows(conv, own, External(l), stmt.rows), stmt.pos, stmt.executions, column_mapping,
               |buffers.indicators|, outputColumns, executed, finished)
    }

    ghost predicate Valid(l: Layout)
      reads this, stmt, buffers
    {
      && |own| == |l.sizes| && Rectangular(stmt.rows, |own|)
      && buffers.Valid(l) && ValidView(View(l, 0))
      && Deliverable(DeliverRows(conv, own, External(l), stmt.rows), l)
    }

    /** OracleInitGlobal, for a statement whose execution would return `rows`. */
    constructor (original: seq<string>, fetched: seq<string>, l: Layout, columnIds: seq<nat>, projectionIds: seq<nat>,
                 rows: seq<seq<Cell>>, own: seq<string>, conv: Conversion)
      requires |fetched| == |own| == |l.sizes| && Rectangular(rows, |own|)
      requires Deliverable(DeliverRows(conv, own, External(l), rows), l)
      ensures Valid(l) && fresh(stmt) && fresh(buffers)
      ensures forall c :: 0 <= c < |l.sizes| ==> fresh(buffers.buffers[c])
      ensures forall c :: 0 <= c < |l.sizes| ==> fresh(buffers.indicators[c])
      ensures forall c :: 0 <= c < |l.sizes| ==> fresh(buffers.return_lens[c])
      ensures this.own == own && this.conv == conv && stmt.rows == rows
      ensures forall n :: View(l, n) == InitView(original, fetched, columnIds, projectionIds,
                                                 DeliverRows(conv, own, External(l), rows), n)
    {
      var m := MappingFor(original, fetched, columnIds, projectionIds);
      stmt := new OciStatement(rows);
      buffers := new ScanBuffers(l);
      this.own, this.conv := own, conv;
      column_mapping := m;
      executed, finished := false, false;
    }

    /** OracleQueryFunction, filling a chunk with `outputColumns` columns: execute once, let OCI
        fill the buffers, read the cells back through the mapping. */
    method Query(ghost l: Layout, outputColumns: nat) returns (chunk: seq<seq<OutCell<seq<Byte>>>>)
      requires Valid(l)
      modifies this, stmt, buffers.buffers, buffers.indicators, buffers.return_lens
      ensures Valid(l)
      ensures (View(l, outputColumns), chunk) == QueryStep(old(View(l, outputColumns)))
    {
      if finished {
        return [];
      }
      if !executed {
        stmt.Execute();
        executed := true;
      }
      ghost var from := stmt.pos;
      var rows, noData := stmt.Fetch(STANDARD_VECTOR_SIZE);
      chunk := FillChunk(l, outputColumns, rows, from);
      if noData {
        finished := true;
      }
    }

    /** The part of it between the fetch and the end of the chunk; an empty fetch fills nothing. */
    method FillChunk(ghost l: Layout, outputColumns: nat, rows: seq<seq<Cell>>, ghost from: nat)
      returns (chunk: seq<seq<OutCell<seq<Byte>>>>)
      requires Valid(l) && |rows| <= STANDARD_VECTOR_SIZE
      requires from + |rows| <= |stmt.rows| && rows == stmt.rows[from..from + |rows|]
      modifies buffers.buffers, buffers.indicators, buffers.return_lens
      ensures chunk == OutRows(column_mapping, |buffers.indicators|, outputColumns,
                               DeliverRows(conv, own, External(l), stmt.rows)[from..from + |rows|])
    {
      ColumnsFit(conv, own, stmt.rows, l, from, from + |rows|);
      var columns := ColumnsOf(rows, |buffers.indicators|);
      buffers.OciFetch(l, conv, own, columns, |rows|);
      ghost var arriving := seq(|columns|, c requires 0 <= c < |columns| => DeliverColumn(conv, own[c], External(l)[c], columns[c]));
      chunk := buffers.ReadChunk(l, arriving, |rows|, column_mapping, outputColumns);
      forall r | 0 <= r < |rows|
        ensures RowOf(arriving, r) == DeliverRows(conv, own, External(l), stmt.rows)[from..from + |rows|][r]
      {
        assert rows[r] == stmt.rows[from + r];
      }
    }
  }

  /** DuckDB's loop around the scan: call until a chunk comes back empty.  All rows come out, each
      as it arrived. */
  method FetchAll(scan: OracleScanState, ghost l: Layout, outputColumns: nat)
    returns (out: seq<seq<OutCell<seq<Byte>>>>)
    requires scan.Valid(l) && Started(scan.View(l, outputColumns))
    modifies scan, scan.stmt, scan.buffers.buffers, scan.buffers.indicators, scan.buffers.return_lens
    ensures out == OutRows(scan.column_mapping, |l.sizes|, outputColumns,
                           DeliverRows(scan.conv, scan.own, External(l), scan.stmt.rows))
    ensures scan.column_mapping == old(scan.column_mapping) && scan.finished && scan.stmt.executions == 1
  {
    ghost var start := scan.View(l, outputColumns);
    ghost var k := 0;
    out := [];
    DrainState(start, 0);
    while true
      invariant scan.Valid(l) && (scan.View(l, outputColumns), out) == Drain(start, k)
      invariant |out| <= |start.rows|
      decreases |start.rows| - |out|
    {
      EmptyChunkIff(start, k);
      DrainState(start, k);
      DrainState(start, k + 1);
      var chunk := scan.Query(l, outputColumns);
      if chunk == [] {
        assert start.rows[0..|start.rows|] == start.rows;
        return;
      }
      out := out + chunk;
      k := k + 1;
    }
  }
}
