/** Resolution of the COPY target against ALL_TAB_COLUMNS (src/storage/oracle_write.cpp:120-193):
    which table the rows belong to, and which real column each input column is written to. */
module WriteBind {
  import opened Wrappers
  import opened Sequences
  import opened Text

  /** One metadata row: owner, table, column, type; shorter rows are skipped. */
  type MetaRow = seq<string>

  ghost predicate NamedTables(rows: seq<MetaRow>) {
    forall i :: 0 <= i < |rows| && |rows[i]| >= 4 ==> rows[i][1] != ""
  }

  function Usable(rows: seq<MetaRow>): (r: seq<MetaRow>)
    ensures forall i :: 0 <= i < |r| ==> |r[i]| >= 4
  {
    if rows == [] then []
    else
      var init := Usable(rows[..|rows| - 1]);
      if |rows[|rows| - 1]| < 4 then init else init + [rows[|rows| - 1]]
  }

  predicate Wide(rows: seq<MetaRow>) {
    forall i :: 0 <= i < |rows| ==> |rows[i]| >= 4
  }

  ghost predicate Has(rows: seq<MetaRow>, table: string)
    requires Wide(rows)
  {
    exists i :: 0 <= i < |rows| && rows[i][1] == table
  }

  /** The exact-case table if any row has it, otherwise the table of the first row. */
  ghost function TargetTable(rows: seq<MetaRow>, name: string): string
    requires Wide(rows)
  {
    if Has(rows, name) then name else if rows == [] then "" else rows[0][1]
  }

  function FirstOwner(rows: seq<MetaRow>, table: string): string
    requires Wide(rows)
  {
    if rows == [] then "" else if rows[0][1] == table then rows[0][0] else FirstOwner(rows[1..], table)
  }

  /** Column -> type over exactly the rows of one table; a later row wins. */
  function TypeMap(rows: seq<MetaRow>, table: string): map<string, string>
    requires Wide(rows)
  {
    if rows == [] then map[]
    else
      var last := rows[|rows| - 1];
      var init := TypeMap(rows[..|rows| - 1], table);
      if last[1] == table then init[last[2] := last[3]] else init
  }

  /** Upper-cased column -> column, over exactly the rows of one table; a later row wins. */
  function NameMap(rows: seq<MetaRow>, table: string): map<string, string>
    requires Wide(rows)
  {
    if rows == [] then map[]
    else
      var last := rows[|rows| - 1];
      var init := NameMap(rows[..|rows| - 1], table);
      if last[1] == table then init[Upper(last[2]) := last[2]] else init
  }

  /** All rows of four or more fields count, in their order, and no others. */
  lemma {:induction false} UsableSplits(first: seq<MetaRow>, second: seq<MetaRow>)
    ensures Usable(first + second) == Usable(first) + Usable(second)
    ensures |Usable(second)| <= |second|
    ensures forall row :: row in Usable(second) <==> row in second && |row| >= 4
  {
    if second == [] {
      Neutral(first);
      Neutral(Usable(first));
    } else {
      var last := |second| - 1;
      InitOfAppend(first, second);
      UsableSplits(first, second[..last]);
      Associative(Usable(first), Usable(second[..last]), [second[last]]);
    }
  }

  lemma {:induction false} FirstOwnerAppend(rows: seq<MetaRow>, row: MetaRow, table: string)
    requires Wide(rows) && |row| >= 4
    ensures FirstOwner(rows + [row], table)
            == if Has(rows, table) then FirstOwner(rows, table) else if row[1] == table then row[0] else ""
  {
    if rows == [] {
      assert (rows + [row])[1..] == [];
    } else {
      assert (rows + [row])[1..] == rows[1..] + [row];
      FirstOwnerAppend(rows[1..], row, table);
      if rows[0][1] != table {
        assert Has(rows, table) <==> Has(rows[1..], table) by {
          assert forall i :: 1 <= i < |rows| ==> rows[i] == rows[1..][i - 1];
        }
      }
    }
  }

  /** The owner is that of the table's first row. */
  lemma {:induction false} OwnerIsFirst(rows: seq<MetaRow>, table: string)
    requires Wide(rows)
    ensures forall i :: 0 <= i < |rows| && rows[i][1] == table && (forall j :: 0 <= j < i ==> rows[j][1] != table) ==>
              FirstOwner(rows, table) == rows[i][0]
    ensures (forall i :: 0 <= i < |rows| ==> rows[i][1] != table) ==> FirstOwner(rows, table) == ""
  {
    if rows != [] {
      OwnerIsFirst(rows[1..], table);
      assert forall i :: 1 <= i < |rows| ==> rows[i] == rows[1..][i - 1];
    }
  }

  /** The type of a column is that in the last row of the table that names it. */
  lemma {:induction false} TypeIsLast(rows: seq<MetaRow>, table: string, i: nat)
    requires Wide(rows) && i < |rows| && rows[i][1] == table
    requires forall j :: i < j < |rows| && rows[j][1] == table ==> rows[j][2] != rows[i][2]
    ensures rows[i][2] in TypeMap(rows, table) && TypeMap(rows, table)[rows[i][2]] == rows[i][3]
  {
    if i < |rows| - 1 {
      TypeIsLast(rows[..|rows| - 1], table, i);
    }
  }

  /** A table without rows has no columns and no owner. */
  lemma {:induction false} NoRowsNoColumns(rows: seq<MetaRow>, table: string)
    requires Wide(rows) && !Has(rows, table)
    ensures TypeMap(rows, table) == map[] && NameMap(rows, table) == map[]
  {
    if rows != [] {
      NoRowsNoColumns(rows[..|rows| - 1], table);
    }
  }

  /** How one more row moves each part of the specification. */
  lemma AppendRow(rows: seq<MetaRow>, row: MetaRow, name: string)
    requires Wide(rows) && |row| >= 4
    ensures Wide(rows + [row])
    ensures Has(rows + [row], name) <==> Has(rows, name) || row[1] == name
    ensures TargetTable(rows + [row], name) == if row[1] == name || rows == [] then row[1] else TargetTable(rows, name)
  {
    var all := rows + [row];
    assert forall i :: 0 <= i < |rows| ==> all[i] == rows[i];
    assert all[|rows|] == row;
    if Has(rows, name) {
      var i :| 0 <= i < |rows| && rows[i][1] == name;
      assert all[i][1] == name;
    }
  }

  lemma AppendMaps(rows: seq<MetaRow>, row: MetaRow, table: string)
    requires Wide(rows) && |row| >= 4 && Wide(rows + [row])
    ensures TypeMap(rows + [row], table)
            == if row[1] == table then TypeMap(rows, table)[row[2] := row[3]] else TypeMap(rows, table)
    ensures NameMap(rows + [row], table)
            == if row[1] == table then NameMap(rows, table)[Upper(row[2]) := row[2]] else NameMap(rows, table)
    ensures FirstOwner(rows + [row], table)
            == if Has(rows, table) then FirstOwner(rows, table) else if row[1] == table then row[0] else ""
    ensures !Has(rows, table) ==> TypeMap(rows, table) == map[] && NameMap(rows, table) == map[]
  {
    assert (rows + [row])[..|rows|] == rows;
    FirstOwnerAppend(rows, row, table);
    if !Has(rows, table) {
      NoRowsNoColumns(rows, table);
    }
  }

  datatype Resolution = Resolution(table: string, owner: string, types: map<string, string>, names: map<string, string>)

  ghost function Resolved(rows: seq<MetaRow>, name: string): Resolution
    requires Wide(rows)
  {
    var t := TargetTable(rows, name);
    Resolution(t, FirstOwner(rows, t), TypeMap(rows, t), NameMap(rows, t))
  }

  /** One turn of the loop. */
  method TakeRow(ghost rows: seq<MetaRow>, row: MetaRow, name: string, r: Resolution, found_exact: bool)
    returns (r': Resolution, found_exact': bool)
    requires Wide(rows) && NamedTables(rows) && |row| >= 4 && row[1] != ""
    requires r == Resolved(rows, name) && (found_exact <==> Has(rows, name))
    ensures Wide(rows + [row])
    ensures r' == Resolved(rows + [row], name) && (found_exact' <==> Has(rows + [row], name))
  {
    var owner, table, col, ty := row[0], row[1], row[2], row[3];
    AppendRow(rows, row, name);
    AppendMaps(rows, row, r.table);
    AppendMaps(rows, row, table);
    if rows != [] {
      assert rows[0][1] != "" && Has(rows, rows[0][1]);
      assert r.table != "" && Has(rows, r.table);
    }
    r', found_exact' := r, found_exact;
    if r'.table == "" {
      r' := r'.(table := table, owner := owner);
    }
    if table != r'.table {
      if table == name && !found_exact' {
        r' := Resolution(table, owner, map[], map[]);
        found_exact' := true;
      } else if found_exact' {
        return;
      }
    }
    if table == name {
      found_exact' := true;
    }
    if table == r'.table {
      r' := r'.(types := r'.types[col := ty], names := r'.names[Upper(col) := col]);
    }
  }

  /** The loop over the metadata rows, in whatever order they come: it ends with the exact-case
      table if there is one, else the first, and with exactly that table's columns. */
  method ResolveTable(all: seq<MetaRow>, name: string) returns (r: Resolution)
    requires NamedTables(all)
    ensures r == Resolved(Usable(all), name)
    ensures var rows := Usable(all);
            && ((exists i :: 0 <= i < |rows| && rows[i][1] == name) ==> r.table == name)
            && ((forall i :: 0 <= i < |rows| ==> rows[i][1] != name) ==> r.table == if rows == [] then "" else rows[0][1])
            && (forall i :: 0 <= i < |rows| && rows[i][1] == r.table && (forall j :: 0 <= j < i ==> rows[j][1] != r.table) ==>
                  r.owner == rows[i][0])
  {
    r := Resolution("", "", map[], map[]);
    var found_exact := false;
    for i := 0 to |all|
      invariant NamedTables(Usable(all[..i]))
      invariant r == Resolved(Usable(all[..i]), name)
      invariant found_exact <==> Has(Usable(all[..i]), name)
    {
      assert all[..i + 1][..i] == all[..i];
      if |all[i]| >= 4 {
        r, found_exact := TakeRow(Usable(all[..i]), all[i], name, r, found_exact);
      }
    }
    assert all[..|all|] == all;
    OwnerIsFirst(Usable(all), r.table);
  }

  // ---------------------------------------------------------------- columns

  /** The type and name maps always fit: every column is found under its upper-cased name. */
  lemma {:induction false} MapsFit(rows: seq<MetaRow>, table: string)
    requires Wide(rows)
    ensures forall c :: c in TypeMap(rows, table) ==> Upper(c) in NameMap(rows, table)
    ensures forall u :: u in NameMap(rows, table) ==>
              NameMap(rows, table)[u] in TypeMap(rows, table) && Upper(NameMap(rows, table)[u]) == u
  {
    if rows != [] {
      MapsFit(rows[..|rows| - 1], table);
    }
  }

  /** The column an input column is written to, and its type. */
  function ResolveColumn(input: string, types: map<string, string>, names: map<string, string>): (string, string) {
    var actual := if Upper(input) in names then names[Upper(input)] else if input in types then input else "";
    if actual == "" then (input, "VARCHAR2")
    else (actual, if actual in types then types[actual] else "VARCHAR2")
  }

  method ResolveColumns(inputs: seq<string>, r: Resolution) returns (column_names: seq<string>, oracle_types: seq<string>)
    ensures |column_names| == |oracle_types| == |inputs|
    ensures forall i :: 0 <= i < |inputs| ==>
              (column_names[i], oracle_types[i]) == ResolveColumn(inputs[i], r.types, r.names)
  {
    column_names, oracle_types := [], [];
    for i := 0 to |inputs|
      invariant |column_names| == |oracle_types| == i
      invariant forall k :: 0 <= k < i ==>
                  (column_names[k], oracle_types[k]) == ResolveColumn(inputs[k], r.types, r.names)
    {
      var col_upper := Upper(inputs[i]);
      var actual_name := "";
      if col_upper in r.names {
        actual_name := r.names[col_upper];
      } else if inputs[i] in r.types {
        actual_name := inputs[i];
      }
      var name, ty := inputs[i], "VARCHAR2";
      if actual_name != "" {
        name := actual_name;
        if actual_name in r.types {
          ty := r.types[actual_name];
        }
      }
      column_names := column_names + [name];
      oracle_types := oracle_types + [ty];
    }
  }

  ghost predicate NamedColumns(rows: seq<MetaRow>)
    requires Wide(rows)
  {
    forall i :: 0 <= i < |rows| ==> rows[i][2] != ""
  }

  lemma {:induction false} TypeMapKeys(rows: seq<MetaRow>, table: string)
    requires Wide(rows)
    ensures forall c :: c in TypeMap(rows, table) <==> exists i :: 0 <= i < |rows| && rows[i][1] == table && rows[i][2] == c
  {
    if rows != [] {
      var init := rows[..|rows| - 1];
      TypeMapKeys(init, table);
      forall c ensures c in TypeMap(rows, table) <==> exists i :: 0 <= i < |rows| && rows[i][1] == table && rows[i][2] == c {
        if i :| 0 <= i < |init| && init[i][1] == table && init[i][2] == c {
          assert rows[i][1] == table && rows[i][2] == c;
        }
        if i :| 0 <= i < |rows| && rows[i][1] == table && rows[i][2] == c {
          if i < |init| { assert init[i][1] == table && init[i][2] == c; }
        }
      }
    }
  }

  /** Each input column goes to a real column of the table, equal to it up to case, with that
      column's type; or, exactly when the table has no such column, it is left as it is with type
      VARCHAR2.  The exact-match fallback of the code is never what decides. */
  lemma ColumnsAreReal(rows: seq<MetaRow>, name: string, input: string)
    requires Wide(rows) && NamedColumns(rows)
    ensures var r := Resolved(rows, name);
            var (col, ty) := ResolveColumn(input, r.types, r.names);
            && ((exists c :: c in r.types && Upper(c) == Upper(input)) ==>
                  col in r.types && Upper(col) == Upper(input) && ty == r.types[col])
            && ((forall c :: c in r.types ==> Upper(c) != Upper(input)) ==> col == input && ty == "VARCHAR2")
            && (Upper(input) !in r.names ==> input !in r.types)
  {
    var r := Resolved(rows, name);
    MapsFit(rows, r.table);
    TypeMapKeys(rows, r.table);
  }

  /** The last column of the table that equals `input` up to case. */
  function LastLike(rows: seq<MetaRow>, table: string, input: string): Option<string>
    requires Wide(rows)
  {
    if rows == [] then None
    else
      var last := rows[|rows| - 1];
      if last[1] == table && Upper(last[2]) == Upper(input) then Some(last[2])
      else LastLike(rows[..|rows| - 1], table, input)
  }

  lemma {:induction false} NameMapIsLast(rows: seq<MetaRow>, table: string, input: string)
    requires Wide(rows)
    ensures Upper(input) in NameMap(rows, table) <==> LastLike(rows, table, input).Some?
    ensures Upper(input) in NameMap(rows, table) ==> NameMap(rows, table)[Upper(input)] == LastLike(rows, table, input).value
  {
    if rows != [] {
      NameMapIsLast(rows[..|rows| - 1], table, input);
    }
  }

  /** Row `j` names, for the table, a column equal to `input` up to case but not exactly. */
  predicate Variant(rows: seq<MetaRow>, table: string, input: string, j: nat)
    requires Wide(rows) && j < |rows|
  {
    rows[j][1] == table && Upper(rows[j][2]) == Upper(input) && rows[j][2] != input
  }

  predicate Exact(rows: seq<MetaRow>, table: string, input: string, i: nat)
    requires Wide(rows) && i < |rows|
  {
    rows[i][1] == table && rows[i][2] == input
  }

  lemma {:induction false} LastLikeIff(rows: seq<MetaRow>, table: string, input: string)
    requires Wide(rows) && exists i :: 0 <= i < |rows| && Exact(rows, table, input, i)
    ensures LastLike(rows, table, input) == Some(input)
            <==> forall j :: 0 <= j < |rows| && Variant(rows, table, input, j)
                             ==> exists i :: j < i < |rows| && Exact(rows, table, input, i)
  {
    var n := |rows| - 1;
    var init := rows[..n];
    assert forall i :: 0 <= i < n ==> (Exact(rows, table, input, i) <==> Exact(init, table, input, i));
    assert forall i :: 0 <= i < n ==> (Variant(rows, table, input, i) <==> Variant(init, table, input, i));
    if Variant(rows, table, input, n) {
      assert LastLike(rows, table, input) == Some(rows[n][2]);
    } else if Exact(rows, table, input, n) {
      assert forall j :: 0 <= j < |rows| && Variant(rows, table, input, j) ==> j < n;
    } else {
      LastLikeIff(init, table, input);
    }
  }

  /** A column whose exact name exists is written to under that name if and only if every row of
      the table that names a case variant of it is followed by a row that names it exactly. */
  lemma ExactNameKeptIff(rows: seq<MetaRow>, name: string, input: string)
    requires Wide(rows) && NamedColumns(rows)
    requires input in Resolved(rows, name).types
    ensures var r := Resolved(rows, name);
            ResolveColumn(input, r.types, r.names).0 == input
            <==> forall j :: 0 <= j < |rows| && Variant(rows, r.table, input, j)
                             ==> exists i :: j < i < |rows| && Exact(rows, r.table, input, i)
  {
    var r := Resolved(rows, name);
    MapsFit(rows, r.table);
    TypeMapKeys(rows, r.table);
    NameMapIsLast(rows, r.table, input);
    var i :| 0 <= i < |rows| && rows[i][1] == r.table && rows[i][2] == input;
    assert Exact(rows, r.table, input, i);
    LastLikeIff(rows, r.table, input);
  }

  /** So with columns "id" and "ID" in one table, values meant for "id" go to "ID". */
  lemma ExactNameCanBeMissed()
    ensures var rows := [["O", "T", "id", "NUMBER"], ["O", "T", "ID", "DATE"]];
            var r := Resolved(rows, "T");
            "id" in r.types && ResolveColumn("id", r.types, r.names) == ("ID", "DATE")
  {
    var rows := [["O", "T", "id", "NUMBER"], ["O", "T", "ID", "DATE"]];
    assert rows[0][1] == "T";
    assert TargetTable(rows, "T") == "T";
    assert rows[..1] == [["O", "T", "id", "NUMBER"]] && rows[..1][..0] == [];
    assert Upper("id") == "ID" && Upper("ID") == "ID";
    assert TypeMap(rows[..1], "T") == map["id" := "NUMBER"] && NameMap(rows[..1], "T") == map["ID" := "id"];
    assert TypeMap(rows, "T") == map["id" := "NUMBER", "ID" := "DATE"] && NameMap(rows, "T") == map["ID" := "ID"];
  }
}
