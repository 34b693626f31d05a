/** OracleWriteLocalState: array-bind buffers that grow across batches, are rebound only when they
    grow, and are reused with old bytes left in them (src/storage/oracle_write.cpp:305-460).
    Proved to insert exactly the rows of every chunk, in order. */
module Writer {
  import opened Wrappers
  import opened Sequences
  import opened Strided
  import opened Text

  const MAX_BATCH_SIZE: nat := 2048

  /** Sizes are handed to OCI as sb4; beyond this the cast would wrap. */
  const MAX_VALUE: nat := 0x7FFF_FF00

  // ---------------------------------------------------------------- chunks

  /** A DuckDB chunk: columns of `count` values, already turned into bytes; None is NULL. */
  datatype Chunk = Chunk(columns: seq<seq<Cell>>, count: nat)

  predicate ValidChunk(c: Chunk) {
    && c.count <= MAX_BATCH_SIZE
    && (forall k :: 0 <= k < |c.columns| ==> |c.columns[k]| == c.count)
    && (forall k, i :: 0 <= k < |c.columns| && 0 <= i < c.count && c.columns[k][i].Some?
                       ==> |c.columns[k][i].value| <= MAX_VALUE)
  }

  function Row(c: Chunk, i: nat): (r: seq<Cell>)
    requires i < c.count && forall k :: 0 <= k < |c.columns| ==> |c.columns[k]| == c.count
    ensures |r| == |c.columns|
    ensures forall k :: 0 <= k < |r| ==> r[k] == c.columns[k][i]
  {
    seq(|c.columns|, k requires 0 <= k < |c.columns| => c.columns[k][i])
  }

  function Rows(c: Chunk): (rs: seq<seq<Cell>>)
    requires forall k :: 0 <= k < |c.columns| ==> |c.columns[k]| == c.count
    ensures |rs| == c.count
    ensures forall i :: 0 <= i < c.count ==> rs[i] == Row(c, i)
  {
    seq(c.count, i requires 0 <= i < c.count => Row(c, i))
  }

  function StoredRow(r: seq<Cell>): (s: seq<Cell>)
    ensures |s| == |r|
    ensures forall k :: 0 <= k < |r| ==> s[k] == Stored(r[k])
  {
    seq(|r|, k requires 0 <= k < |r| => Stored(r[k]))
  }

  function StoredRows(rs: seq<seq<Cell>>): (ss: seq<seq<Cell>>)
    ensures |ss| == |rs|
    ensures forall i :: 0 <= i < |rs| ==> ss[i] == StoredRow(rs[i])
  {
    seq(|rs|, i requires 0 <= i < |rs| => StoredRow(rs[i]))
  }

  // ---------------------------------------------------------------- required sizes

  /** Round up to a multiple of four. */
  function Align(n: nat): (r: nat)
    ensures n <= r < n + 4 && r % 4 == 0
  {
    (n + 3) / 4 * 4
  }

  function LongestOf(cells: seq<Cell>): nat {
    if cells == [] then 0
    else
      var m := LongestOf(cells[..|cells| - 1]);
      match cells[|cells| - 1]
      case None => m
      case Some(s) => if |s| > m then |s| else m
  }

  function RequiredSize(cells: seq<Cell>): nat {
    var m := LongestOf(cells);
    Align(if m > 4096 then m + 32 else 4096)
  }

  lemma {:induction false} LongestIff(cells: seq<Cell>, m: nat)
    ensures LongestOf(cells) <= m <==> AtMost(cells, m)
  {
    if cells != [] {
      var init, last := cells[..|cells| - 1], cells[|cells| - 1];
      LongestIff(init, m);
      assert AtMost(cells, m) <==> AtMost(init, m) && (last.Some? ==> |last.value| <= m) by {
        assert cells == init + [last];
        assert forall i :: 0 <= i < |init| ==> cells[i] == init[i];
      }
    }
  }

  /** The slot size asked for is aligned, at least 4096 bytes and holds every value, with 32 bytes to
      spare and no more than alignment adds if there is a longer one. */
  lemma RequiredSizeFits(cells: seq<Cell>, m: nat)
    requires AtMost(cells, m) && m >= 4096
    ensures 4096 <= RequiredSize(cells) < m + 36 && RequiredSize(cells) % 4 == 0
    ensures AtMost(cells, RequiredSize(cells))
    ensures AtMost(cells, 4096) ==> RequiredSize(cells) == 4096
    ensures !AtMost(cells, 4096) ==> AtMost(cells, RequiredSize(cells) - 32) && !AtMost(cells, RequiredSize(cells) - 36)
  {
    LongestIff(cells, m);
    LongestIff(cells, RequiredSize(cells));
    LongestIff(cells, 4096);
    if !AtMost(cells, 4096) {
      LongestIff(cells, RequiredSize(cells) - 32);
      LongestIff(cells, RequiredSize(cells) - 36);
    }
  }

  method ComputeRequired(c: Chunk) returns (required: seq<nat>)
    requires ValidChunk(c)
    ensures |required| == |c.columns|
    ensures forall k :: 0 <= k < |required| ==> required[k] == RequiredSize(c.columns[k])
  {
    required := [];
    for k := 0 to |c.columns|
      invariant |required| == k
      invariant forall j :: 0 <= j < k ==> required[j] == RequiredSize(c.columns[j])
    {
      var size := 4096;
      var max_len := 0;
      var cells := c.columns[k];
      for i := 0 to c.count
        invariant max_len == LongestOf(cells[..i])
      {
        assert cells[..i + 1][..i] == cells[..i];
        if cells[i].Some? && |cells[i].value| > max_len {
          max_len := |cells[i].value|;
        }
      }
      assert cells[..c.count] == cells;
      if max_len > size {
        size := max_len + 32;
      }
      required := required + [(size + 3) / 4 * 4];
    }
  }

  // ---------------------------------------------------------------- the writer

  /** What OCIBindByPos and OCIBindArrayOfStruct were last told about one column. */
  datatype BindRecord = BindRecord(
    data: array<Byte>, size: nat, stride: nat, bindType: string, ind: array<Sb2>, len: array<Ub2>)

  function BindType(oracleType: string): string {
    var t := Upper(oracleType);
    if t == "BLOB" || t == "RAW" then "SQLT_LBI"
    else if t == "CLOB" then "SQLT_LNG"
    else "SQLT_CHR"
  }

  /** The bind type a column calls for, its type name in any case: binary for BLOB and RAW, long text
      for CLOB, characters for everything else. */
  ghost predicate Suits(bindType: string, oracleType: string) {
    if SameUpToCase(oracleType, "BLOB") || SameUpToCase(oracleType, "RAW") then bindType == "SQLT_LBI"
    else if SameUpToCase(oracleType, "CLOB") then bindType == "SQLT_LNG"
    else bindType == "SQLT_CHR"
  }

  lemma BindTypeSuits(oracleType: string)
    ensures Suits(BindType(oracleType), oracleType)
  {
    UpperIs(oracleType, "BLOB");
    UpperIs(oracleType, "RAW");
    UpperIs(oracleType, "CLOB");
  }

  /** What the server makes of a value that comes with a bind type its column does not call for. */
  type Conversion = (string, string, seq<Byte>) -> seq<Byte>

  ghost function Taken(conv: Conversion, oracleType: string, bindType: string, c: Cell): Cell {
    if Suits(bindType, oracleType) || c.None? then c else Some(conv(oracleType, bindType, c.value))
  }

  /** A row as the server takes it from the bound buffers. */
  ghost function TakenRow(conv: Conversion, types: seq<string>, r: seq<Cell>): (t: seq<Cell>)
    requires |types| >= |r|
    ensures |t| == |r|
    ensures forall k :: 0 <= k < |r| ==> t[k] == Taken(conv, types[k], BindType(types[k]), r[k])
  {
    seq(|r|, k requires 0 <= k < |r| => Taken(conv, types[k], BindType(types[k]), r[k]))
  }

  /** The rows of a chunk as the server takes them: stored in slots, bound, read. */
  ghost function Inserted(conv: Conversion, types: seq<string>, c: Chunk): (rs: seq<seq<Cell>>)
    requires |types| >= |c.columns| && forall k :: 0 <= k < |c.columns| ==> |c.columns[k]| == c.count
    ensures |rs| == c.count
    ensures forall i :: 0 <= i < c.count ==> rs[i] == TakenRow(conv, types, StoredRow(Row(c, i)))
  {
    seq(c.count, i requires 0 <= i < c.count => TakenRow(conv, types, StoredRow(Row(c, i))))
  }

  lemma InsertedIsStored(conv: Conversion, types: seq<string>, c: Chunk)
    requires |types| >= |c.columns| && forall k :: 0 <= k < |c.columns| ==> |c.columns[k]| == c.count
    ensures Inserted(conv, types, c) == StoredRows(Rows(c))
  {
    forall i | 0 <= i < c.count ensures Inserted(conv, types, c)[i] == StoredRows(Rows(c))[i] {
      TakenAsIs(conv, types, StoredRow(Row(c, i)));
    }
  }

  /** Bind types are chosen so that the server takes every row as it is. */
  lemma TakenAsIs(conv: Conversion, types: seq<string>, r: seq<Cell>)
    requires |types| >= |r|
    ensures TakenRow(conv, types, r) == r
  {
    forall k | 0 <= k < |r| ensures TakenRow(conv, types, r)[k] == r[k] {
      BindTypeSuits(types[k]);
    }
  }

  ghost predicate CanRead(b: BindRecord, i: nat)
    reads b.data, b.ind, b.len
  {
    Readable(b.data[..], b.ind[..], b.len[..], b.stride, i)
  }

  /** Row `i` of one column as OCI reads it: through the bind record, not through the writer. */
  ghost function Handed(b: BindRecord, i: nat): Cell
    requires CanRead(b, i)
    reads b.data, b.ind, b.len
  {
    Slot(b.data[..], b.ind[..], b.len[..], b.stride, i)
  }

  /** std::vector::resize to a larger size: old contents kept, the rest zero. */
  method Resize<T>(old_: array<T>, n: nat, zero: T) returns (a: array<T>)
    requires n > old_.Length
    ensures fresh(a) && a.Length == n
    ensures a[..old_.Length] == old_[..]
    ensures forall i :: old_.Length <= i < n ==> a[i] == zero
  {
    a := new T[n](i requires 0 <= i reads old_ => if i < old_.Length then old_[i] else zero);
  }

  function Max(a: nat, b: nat): nat { if a > b then a else b }

  class OracleWriteLocalState {
    var bind_buffers: seq<array<Byte>>
    var indicator_buffers: seq<array<Sb2>>
    var length_buffers: seq<array<Ub2>>
    var current_buffer_sizes: seq<nat>
    var binds: seq<Option<BindRecord>>
    /** The rows the server has received, one INSERT execution after the other. */
    ghost var server: seq<seq<Cell>>
    /** The Oracle types of the columns of the statement, and what the server does to a value bound
        with a type that does not suit its column. */
    ghost const types: seq<string>
    ghost const conv: Conversion

    constructor (ghost types: seq<string>, ghost conv: Conversion)
      ensures Valid() && bind_buffers == [] && server == []
      ensures this.types == types && this.conv == conv
    {
      this.types, this.conv := types, conv;
      bind_buffers, indicator_buffers, length_buffers, current_buffer_sizes, binds := [], [], [], [], [];
      server := [];
    }

    /** The five vectors are parallel and their storage is not shared. */
    ghost predicate Separate(n: nat)
      reads this`bind_buffers, this`indicator_buffers, this`length_buffers, this`current_buffer_sizes, this`binds
    {
      && |bind_buffers| == |indicator_buffers| == |length_buffers| == |current_buffer_sizes| == |binds| == n
      && (forall i, j :: 0 <= i < j < n ==> bind_buffers[i] != bind_buffers[j])
      && (forall i, j :: 0 <= i < j < n ==> indicator_buffers[i] != indicator_buffers[j])
      && (forall i, j :: 0 <= i < j < n ==> length_buffers[i] != length_buffers[j])
    }

    ghost predicate Empty(c: nat)
      requires c < |bind_buffers| == |indicator_buffers| == |length_buffers| == |current_buffer_sizes|
      reads this`bind_buffers, this`indicator_buffers, this`length_buffers, this`current_buffer_sizes
    {
      && current_buffer_sizes[c] == 0 && bind_buffers[c].Length == 0
      && indicator_buffers[c].Length == 0 && length_buffers[c].Length == 0
    }

    /** Slots are aligned, at least 4096 bytes, and there is one for every row of a batch. */
    ghost predicate Sized(c: nat)
      requires c < |bind_buffers| == |indicator_buffers| == |length_buffers| == |current_buffer_sizes|
      reads this`bind_buffers, this`indicator_buffers, this`length_buffers, this`current_buffer_sizes
    {
      && 4096 <= current_buffer_sizes[c] < MAX_VALUE + 36 && current_buffer_sizes[c] % 4 == 0
      && bind_buffers[c].Length == MAX_BATCH_SIZE * current_buffer_sizes[c]
      && indicator_buffers[c].Length == MAX_BATCH_SIZE && length_buffers[c].Length == MAX_BATCH_SIZE
    }

    /** What OCI was last told about column `c` is what the buffers are now. */
    ghost predicate Bound(c: nat)
      requires c < |bind_buffers| == |indicator_buffers| == |length_buffers| == |current_buffer_sizes| == |binds|
      reads this`bind_buffers, this`indicator_buffers, this`length_buffers, this`current_buffer_sizes, this`binds
    {
      && binds[c].Some?
      && var b := binds[c].value;
         && b.data == bind_buffers[c] && b.ind == indicator_buffers[c] && b.len == length_buffers[c]
         && b.size == b.stride == current_buffer_sizes[c]
         && c < |types| && b.bindType == BindType(types[c])
    }

    ghost predicate Valid()
      reads this`bind_buffers, this`indicator_buffers, this`length_buffers, this`current_buffer_sizes, this`binds
    {
      && Separate(|bind_buffers|)
      && forall c :: 0 <= c < |bind_buffers| ==> Sized(c) && Bound(c)
    }

    /** Every buffer is either the one it was or newly allocated. */
    twostate predicate KeptData()
      reads this
    {
      forall c :: 0 <= c < |bind_buffers| ==>
        fresh(bind_buffers[c]) || (c < |old(bind_buffers)| && bind_buffers[c] == old(bind_buffers)[c])
    }

    twostate predicate KeptIndicators()
      reads this
    {
      forall c :: 0 <= c < |indicator_buffers| ==>
        fresh(indicator_buffers[c]) || (c < |old(indicator_buffers)| && indicator_buffers[c] == old(indicator_buffers)[c])
    }

    twostate predicate KeptLengths()
      reads this
    {
      forall c :: 0 <= c < |length_buffers| ==>
        fresh(length_buffers[c]) || (c < |old(length_buffers)| && length_buffers[c] == old(length_buffers)[c])
    }

    /** First chunk: the vectors get one empty buffer per column. */
    method FirstUse(n: nat)
      requires bind_buffers == []
      modifies this
      ensures Separate(n) && server == old(server)
      ensures forall c :: 0 <= c < n ==> Empty(c)
      ensures forall c :: 0 <= c < n ==> fresh(bind_buffers[c])
      ensures forall c :: 0 <= c < n ==> fresh(indicator_buffers[c])
      ensures forall c :: 0 <= c < n ==> fresh(length_buffers[c])
    {
      var data: seq<array<Byte>>, ind: seq<array<Sb2>>, len: seq<array<Ub2>> := [], [], [];
      for c := 0 to n
        invariant |data| == |ind| == |len| == c && server == old(server)
        invariant forall k :: 0 <= k < c ==> fresh(data[k]) && data[k].Length == 0
        invariant forall k :: 0 <= k < c ==> fresh(ind[k]) && ind[k].Length == 0
        invariant forall k :: 0 <= k < c ==> fresh(len[k]) && len[k].Length == 0
        invariant forall i, j :: 0 <= i < j < c ==> data[i] != data[j]
        invariant forall i, j :: 0 <= i < j < c ==> ind[i] != ind[j]
        invariant forall i, j :: 0 <= i < j < c ==> len[i] != len[j]
      {
        var d, i, l := NewColumn(0, 0);
        data, ind, len := data + [d], ind + [i], len + [l];
      }
      bind_buffers, indicator_buffers, length_buffers := data, ind, len;
      current_buffer_sizes, binds := seq(n, _ => 0), seq(n, _ => None);
    }

    /** Enlarge the slots that are too small; a slot is never made smaller. */
    method GrowSlots(required: seq<nat>)
      requires Separate(|required|)
      requires forall c :: 0 <= c < |required| ==> Sized(c) || Empty(c)
      requires forall c :: 0 <= c < |required| ==> 4096 <= required[c] < MAX_VALUE + 36 && required[c] % 4 == 0
      modifies this
      ensures Separate(|required|) && server == old(server) && binds == old(binds) && KeptData()
      ensures indicator_buffers == old(indicator_buffers) && length_buffers == old(length_buffers)
      ensures forall c :: 0 <= c < |required| ==>
        && current_buffer_sizes[c] == Max(old(current_buffer_sizes[c]), required[c])
        && bind_buffers[c].Length == MAX_BATCH_SIZE * current_buffer_sizes[c]
    {
      for c := 0 to |required|
        invariant Separate(|required|) && server == old(server) && binds == old(binds) && KeptData()
        invariant indicator_buffers == old(indicator_buffers) && length_buffers == old(length_buffers)
        invariant forall k :: 0 <= k < c ==>
          && current_buffer_sizes[k] == Max(old(current_buffer_sizes[k]), required[k])
          && bind_buffers[k].Length == MAX_BATCH_SIZE * current_buffer_sizes[k]
        invariant forall k :: c <= k < |required| ==>
          bind_buffers[k] == old(bind_buffers[k]) && current_buffer_sizes[k] == old(current_buffer_sizes[k])
      {
        assert old(Sized(c)) || old(Empty(c));
        if required[c] > current_buffer_sizes[c] {
          var d := Resize(bind_buffers[c], MAX_BATCH_SIZE * required[c], 0 as Byte);
          current_buffer_sizes := current_buffer_sizes[c := required[c]];
          bind_buffers := bind_buffers[c := d];
        }
      }
    }

    /** Indicators and lengths get one entry per row of a batch. */
    method GrowSideArrays(n: nat)
      requires Separate(n)
      requires forall c :: 0 <= c < n ==>
        && indicator_buffers[c].Length == length_buffers[c].Length
        && (indicator_buffers[c].Length == 0 || indicator_buffers[c].Length == MAX_BATCH_SIZE)
      modifies this
      ensures Separate(n) && server == old(server) && binds == old(binds) && KeptIndicators() && KeptLengths()
      ensures bind_buffers == old(bind_buffers) && current_buffer_sizes == old(current_buffer_sizes)
      ensures forall c :: 0 <= c < n ==>
        indicator_buffers[c].Length == MAX_BATCH_SIZE && length_buffers[c].Length == MAX_BATCH_SIZE
    {
      for c := 0 to n
        invariant Separate(n) && server == old(server) && binds == old(binds) && KeptIndicators() && KeptLengths()
        invariant bind_buffers == old(bind_buffers) && current_buffer_sizes == old(current_buffer_sizes)
        invariant forall k :: 0 <= k < c ==>
          indicator_buffers[k].Length == MAX_BATCH_SIZE && length_buffers[k].Length == MAX_BATCH_SIZE
        invariant forall k :: c <= k < n ==>
          indicator_buffers[k] == old(indicator_buffers[k]) && length_buffers[k] == old(length_buffers[k])
      {
        if indicator_buffers[c].Length < MAX_BATCH_SIZE {
          var i := Resize(indicator_buffers[c], MAX_BATCH_SIZE, 0 as Sb2);
          var l := Resize(length_buffers[c], MAX_BATCH_SIZE, 0 as Ub2);
          indicator_buffers := indicator_buffers[c := i];
          length_buffers := length_buffers[c := l];
        }
      }
    }

    /** OCIBindByPos and OCIBindArrayOfStruct for every column. */
    method Rebind(types: seq<string>)
      requires Separate(|bind_buffers|) && types == this.types && |types| >= |bind_buffers|
      modifies this`binds
      ensures Separate(|bind_buffers|)
      ensures forall c :: 0 <= c < |bind_buffers| ==> Bound(c)
    {
      var told: seq<Option<BindRecord>> := [];
      for c := 0 to |bind_buffers|
        invariant |told| == c
        invariant forall k :: 0 <= k < c ==>
          told[k] == Some(BindRecord(bind_buffers[k], current_buffer_sizes[k], current_buffer_sizes[k], BindType(types[k]),
                                     indicator_buffers[k], length_buffers[k]))
      {
        told := told + [Some(BindRecord(bind_buffers[c], current_buffer_sizes[c], current_buffer_sizes[c], BindType(types[c]),
                                        indicator_buffers[c], length_buffers[c]))];
      }
      binds := told;
    }

    ghost predicate ColumnWritten(c: nat, cells: seq<Cell>)
      requires c < |bind_buffers| == |indicator_buffers| == |length_buffers| == |current_buffer_sizes|
      reads this, bind_buffers, indicator_buffers, length_buffers
    {
      Written(bind_buffers[c][..], indicator_buffers[c][..], length_buffers[c][..], current_buffer_sizes[c], cells, |cells|)
    }

    /** BindColumn for every column; reports "Value too large for buffer" by `ok == false`. */
    method FillBuffers(chunk: Chunk) returns (ok: bool)
      requires ValidChunk(chunk) && Separate(|chunk.columns|)
      requires forall c :: 0 <= c < |chunk.columns| ==> Sized(c)
      modifies bind_buffers, indicator_buffers, length_buffers
      ensures ok <==> forall c :: 0 <= c < |chunk.columns| ==> AtMost(chunk.columns[c], current_buffer_sizes[c])
      ensures ok ==> forall c :: 0 <= c < |chunk.columns| ==> ColumnWritten(c, chunk.columns[c])
    {
      for c := 0 to |chunk.columns|
        invariant forall k :: 0 <= k < c ==> AtMost(chunk.columns[k], current_buffer_sizes[k])
        invariant forall k :: 0 <= k < c ==> ColumnWritten(k, chunk.columns[k])
      {
        assert Sized(c);
        var fits := WriteCells(bind_buffers[c], indicator_buffers[c], length_buffers[c], current_buffer_sizes[c],
                               chunk.columns[c]);
        if !fits {
          return false;
        }
      }
      ok := true;
    }

    ghost predicate CanReadBatch(count: nat)
      reads this, bind_buffers, indicator_buffers, length_buffers
    {
      && Valid()
      && forall c, i :: 0 <= c < |bind_buffers| && 0 <= i < count ==>
           Readable(bind_buffers[c][..], indicator_buffers[c][..], length_buffers[c][..], current_buffer_sizes[c], i)
    }

    /** Row `i` of the batch, every column read and taken by what OCI was told about it. */
    ghost function ReceivedRow(i: nat, count: nat): (r: seq<Cell>)
      requires CanReadBatch(count) && i < count
      reads this, bind_buffers, indicator_buffers, length_buffers
      ensures |r| == |binds|
    {
      seq(|binds|, c requires 0 <= c < |binds| && CanReadBatch(count) && i < count
                     reads this, bind_buffers, indicator_buffers, length_buffers
          => assert Bound(c); Taken(conv, types[c], binds[c].value.bindType, Handed(binds[c].value, i)))
    }

    ghost function Received(count: nat): (rs: seq<seq<Cell>>)
      requires CanReadBatch(count)
      reads this, bind_buffers, indicator_buffers, length_buffers
      ensures |rs| == count
      ensures forall i :: 0 <= i < count ==> rs[i] == ReceivedRow(i, count)
    {
      seq(count, i requires 0 <= i < count && CanReadBatch(count)
                   reads this, bind_buffers, indicator_buffers, length_buffers
          => ReceivedRow(i, count))
    }

    /** OCIStmtExecute with `count` iterations: the server takes what the bind records show. */
    method ExecuteBatch(count: nat)
      requires CanReadBatch(count)
      modifies this`server
      ensures server == old(server) + old(Received(count))
    {
      server := server + Received(count);
    }

    lemma ReceivedIsStored(chunk: Chunk)
      requires ValidChunk(chunk) && Valid() && |bind_buffers| == |chunk.columns|
      requires forall c :: 0 <= c < |chunk.columns| ==> ColumnWritten(c, chunk.columns[c])
      ensures CanReadBatch(chunk.count)
      ensures |types| >= |chunk.columns| && Received(chunk.count) == Inserted(conv, types, chunk)
    {
      forall c, i | 0 <= c < |bind_buffers| && 0 <= i < chunk.count
        ensures Readable(bind_buffers[c][..], indicator_buffers[c][..], length_buffers[c][..], current_buffer_sizes[c], i)
      {
        assert Bound(c) && ColumnWritten(c, chunk.columns[c]);
      }
      if |bind_buffers| > 0 {
        assert Bound(|bind_buffers| - 1);
      }
      forall i | 0 <= i < chunk.count ensures ReceivedRow(i, chunk.count) == TakenRow(conv, types, StoredRow(Row(chunk, i))) {
        forall c | 0 <= c < |binds|
          ensures ReceivedRow(i, chunk.count)[c] == Taken(conv, types[c], BindType(types[c]), Stored(chunk.columns[c][i]))
        {
          assert Bound(c) && ColumnWritten(c, chunk.columns[c]);
        }
      }
    }

    /** Grow what is too small and tell OCI about every column again. */
    method Regrow(required: seq<nat>, types: seq<string>)
      requires Separate(|required|) && types == this.types && |types| >= |required|
      requires forall c :: 0 <= c < |required| ==> Sized(c) || Empty(c)
      requires forall c :: 0 <= c < |required| ==> 4096 <= required[c] < MAX_VALUE + 36 && required[c] % 4 == 0
      modifies this
      ensures Valid() && |bind_buffers| == |required| && server == old(server)
      ensures KeptData() && KeptIndicators() && KeptLengths()
      ensures forall c :: 0 <= c < |required| ==>
        current_buffer_sizes[c] == Max(old(current_buffer_sizes[c]), required[c])
    {
      ghost var sizes := current_buffer_sizes;
      forall c | 0 <= c < |required|
        ensures sizes[c] < MAX_VALUE + 36 && sizes[c] % 4 == 0
        ensures indicator_buffers[c].Length == length_buffers[c].Length
        ensures indicator_buffers[c].Length == 0 || indicator_buffers[c].Length == MAX_BATCH_SIZE
      {
        assert Sized(c) || Empty(c);
      }
      GrowSlots(required);
      GrowSideArrays(|required|);
      Rebind(types);
      assert forall c :: 0 <= c < |required| ==> Sized(c) && Bound(c);
    }

    /** Make sure every column has slots of at least the required size, and that OCI knows them.
        When the slots are already large enough nothing is reallocated and nothing rebound. */
    method Prepare(required: seq<nat>, types: seq<string>)
      requires Valid() && types == this.types && |types| >= |required|
      requires bind_buffers == [] || |bind_buffers| == |required|
      requires forall c :: 0 <= c < |required| ==> 4096 <= required[c] < MAX_VALUE + 36 && required[c] % 4 == 0
      modifies this
      ensures Valid() && |bind_buffers| == |required| && server == old(server)
      ensures KeptData() && KeptIndicators() && KeptLengths()
      ensures forall c :: 0 <= c < |required| ==>
        current_buffer_sizes[c] == Max(if old(current_buffer_sizes) == [] then 0 else old(current_buffer_sizes[c]), required[c])
      ensures old(bind_buffers) != [] && (forall c :: 0 <= c < |required| ==> required[c] <= old(current_buffer_sizes[c]))
              ==> binds == old(binds) && bind_buffers == old(bind_buffers)
    {
      if |bind_buffers| == 0 {
        FirstUse(|required|);
        ghost var zero := current_buffer_sizes;
        forall c | 0 <= c < |required| ensures zero[c] == 0 { assert Empty(c); }
        Regrow(required, types);
      } else {
        var need_rebind := false;
        var c := 0;
        while c < |required|
          invariant c <= |required|
          invariant !need_rebind ==> forall k :: 0 <= k < c ==> required[k] <= current_buffer_sizes[k]
        {
          if required[c] > current_buffer_sizes[c] {
            need_rebind := true;
            break;
          }
          c := c + 1;
        }
        if need_rebind {
          Regrow(required, types);
        }
      }
    }

    /** Fill the buffers and execute. */
    method WriteBatch(chunk: Chunk) returns (ok: bool)
      requires Valid() && ValidChunk(chunk) && |bind_buffers| == |chunk.columns|
      modifies this`server, bind_buffers, indicator_buffers, length_buffers
      ensures Valid()
      ensures ok <==> forall c :: 0 <= c < |chunk.columns| ==> AtMost(chunk.columns[c], current_buffer_sizes[c])
      ensures ok ==> |types| >= |chunk.columns| && server == old(server) + Inserted(conv, types, chunk)
    {
      ok := FillBuffers(chunk);
      if ok {
        ReceivedIsStored(chunk);
        ExecuteBatch(chunk.count);
      }
    }

    /** One chunk.  The server receives exactly its rows, after those it already has; slots never
        shrink; what OCI was told always matches the buffers; "Value too large" cannot happen. */
    method Sink(chunk: Chunk, types: seq<string>) returns (ok: bool)
      requires Valid() && ValidChunk(chunk) && types == this.types && |types| >= |chunk.columns|
      requires bind_buffers == [] || |bind_buffers| == |chunk.columns|
      modifies this, bind_buffers, indicator_buffers, length_buffers
      ensures ok && Valid()
      ensures KeptData() && KeptIndicators() && KeptLengths()
      ensures (server, current_buffer_sizes) == SinkStep(conv, types, old(server), old(current_buffer_sizes), chunk)
      ensures server == old(server) + StoredRows(Rows(chunk))
    {
      if chunk.count == 0 {
        assert server + Inserted(conv, types, chunk) == server && server + StoredRows(Rows(chunk)) == server;
        return true;
      }
      var required := ComputeRequired(chunk);
      forall c | 0 <= c < |required|
        ensures 4096 <= required[c] < MAX_VALUE + 36 && required[c] % 4 == 0 && AtMost(chunk.columns[c], required[c])
      {
        RequiredSizeFits(chunk.columns[c], MAX_VALUE);
      }
      Prepare(required, types);
      forall c | 0 <= c < |required| ensures AtMost(chunk.columns[c], current_buffer_sizes[c]) {
        assert required[c] <= current_buffer_sizes[c];
      }
      ok := WriteBatch(chunk);
      InsertedIsStored(conv, types, chunk);
      assert current_buffer_sizes == NextSizes(old(current_buffer_sizes), chunk);
    }
  }

  // ---------------------------------------------------------------- runs of Sink

  function NextSizes(sizes: seq<nat>, c: Chunk): (r: seq<nat>)
    requires sizes == [] || |sizes| == |c.columns|
    ensures |r| == |c.columns|
    ensures forall k :: 0 <= k < |r| ==> r[k] == Max(if sizes == [] then 0 else sizes[k], RequiredSize(c.columns[k]))
  {
    seq(|c.columns|, k requires 0 <= k < |c.columns| =>
        Max(if sizes == [] then 0 else sizes[k], RequiredSize(c.columns[k])))
  }

  /** What one call of Sink does to the server's rows and to the slot sizes. */
  ghost function SinkStep(conv: Conversion, types: seq<string>, server: seq<seq<Cell>>, sizes: seq<nat>, c: Chunk)
    : (seq<seq<Cell>>, seq<nat>)
    requires |types| >= |c.columns| && forall k :: 0 <= k < |c.columns| ==> |c.columns[k]| == c.count
    requires sizes == [] || |sizes| == |c.columns|
  {
    (server + Inserted(conv, types, c), if c.count == 0 then sizes else NextSizes(sizes, c))
  }

  /** A run of Sink calls on one writer: all chunks have the same columns. */
  predicate ValidRun(chunks: seq<Chunk>, n: nat) {
    forall k :: 0 <= k < |chunks| ==> |chunks[k].columns| == n && ValidChunk(chunks[k])
  }

  ghost function SinkRun(conv: Conversion, types: seq<string>, server: seq<seq<Cell>>, sizes: seq<nat>, chunks: seq<Chunk>, n: nat)
    : (r: (seq<seq<Cell>>, seq<nat>))
    requires |types| >= n && ValidRun(chunks, n) && (sizes == [] || |sizes| == n)
    ensures r.1 == [] || |r.1| == n
    decreases |chunks|
  {
    if chunks == [] then (server, sizes)
    else
      var (server', sizes') := SinkStep(conv, types, server, sizes, chunks[0]);
      SinkRun(conv, types, server', sizes', chunks[1..], n)
  }

  function AllRows(chunks: seq<Chunk>, n: nat): seq<seq<Cell>>
    requires ValidRun(chunks, n)
  {
    if chunks == [] then [] else Rows(chunks[0]) + AllRows(chunks[1..], n)
  }

  lemma StoredAppend(a: seq<seq<Cell>>, b: seq<seq<Cell>>)
    ensures StoredRows(a + b) == StoredRows(a) + StoredRows(b)
  {
  }

  /** Over any run the server holds the rows of all chunks, in order. */
  lemma {:induction false} RunInsertsEverything(conv: Conversion, types: seq<string>, server: seq<seq<Cell>>, sizes: seq<nat>,
                           chunks: seq<Chunk>, n: nat)
    requires |types| >= n && ValidRun(chunks, n) && (sizes == [] || |sizes| == n)
    ensures SinkRun(conv, types, server, sizes, chunks, n).0 == server + StoredRows(AllRows(chunks, n))
    decreases |chunks|
  {
    if chunks == [] {
      assert server + StoredRows([]) == server;
    } else {
      var (server', sizes') := SinkStep(conv, types, server, sizes, chunks[0]);
      RunInsertsEverything(conv, types, server', sizes', chunks[1..], n);
      InsertedIsStored(conv, types, chunks[0]);
      StoredAppend(Rows(chunks[0]), AllRows(chunks[1..], n));
      Associative(server, StoredRows(Rows(chunks[0])), StoredRows(AllRows(chunks[1..], n)));
    }
  }

  ghost predicate ShortValues(rows: seq<seq<Cell>>) {
    forall r, k :: 0 <= r < |rows| && 0 <= k < |rows[r]| && rows[r][k].Some? ==> |rows[r][k].value| < 0x1_0000
  }

  lemma StoredRowIff(row: seq<Cell>)
    ensures StoredRow(row) == row <==> forall k :: 0 <= k < |row| && row[k].Some? ==> |row[k].value| < 0x1_0000
  {
    forall k | 0 <= k < |row| ensures Stored(row[k]) == row[k] <==> (row[k].Some? ==> |row[k].value| < 0x1_0000) {
      StoredIff(row[k]);
    }
    if StoredRow(row) == row {
      forall k | 0 <= k < |row| && row[k].Some? ensures |row[k].value| < 0x1_0000 {
        assert StoredRow(row)[k] == row[k];
      }
    }
  }

  lemma StoredRowsIff(rows: seq<seq<Cell>>)
    ensures StoredRows(rows) == rows <==> ShortValues(rows)
  {
    forall r | 0 <= r < |rows|
      ensures StoredRow(rows[r]) == rows[r]
              <==> forall k :: 0 <= k < |rows[r]| && rows[r][k].Some? ==> |rows[r][k].value| < 0x1_0000
    {
      StoredRowIff(rows[r]);
    }
    if StoredRows(rows) == rows {
      forall r | 0 <= r < |rows| ensures StoredRow(rows[r]) == rows[r] {
        assert StoredRows(rows)[r] == rows[r];
      }
    }
  }

  /** Lengths are kept as ub2, so a batched write is the row-by-row insert of the same rows if and
      only if no value is 65536 bytes long or longer; a longer one is cut without an error. */
  lemma BatchedWriteIff(conv: Conversion, types: seq<string>, server: seq<seq<Cell>>, sizes: seq<nat>,
                           chunks: seq<Chunk>, n: nat)
    requires |types| >= n && ValidRun(chunks, n) && (sizes == [] || |sizes| == n)
    ensures SinkRun(conv, types, server, sizes, chunks, n).0 == server + AllRows(chunks, n) <==> ShortValues(AllRows(chunks, n))
  {
    RunInsertsEverything(conv, types, server, sizes, chunks, n);
    StoredRowsIff(AllRows(chunks, n));
    SameTail(server, StoredRows(AllRows(chunks, n)), AllRows(chunks, n));
  }

  lemma SameTail<T>(a: seq<T>, b: seq<T>, c: seq<T>)
    ensures a + b == a + c <==> b == c
  {
    assert (a + b)[|a|..] == b && (a + c)[|a|..] == c;
  }

  /** Slots never shrink over a run. */
  lemma {:induction false} SizesNeverShrink(conv: Conversion, types: seq<string>, server: seq<seq<Cell>>, sizes: seq<nat>,
                                             chunks: seq<Chunk>, n: nat, c: nat)
    requires |types| >= n && ValidRun(chunks, n) && |sizes| == n && c < n
    ensures |SinkRun(conv, types, server, sizes, chunks, n).1| == n
    ensures sizes[c] <= SinkRun(conv, types, server, sizes, chunks, n).1[c]
    decreases |chunks|
  {
    if chunks != [] {
      var (server', sizes') := SinkStep(conv, types, server, sizes, chunks[0]);
      SizesNeverShrink(conv, types, server', sizes', chunks[1..], n, c);
    }
  }

  /** The caller's loop: one Sink call per chunk on one writer. */
  method WriteAll(w: OracleWriteLocalState, chunks: seq<Chunk>, types: seq<string>, n: nat)
    requires w.Valid() && w.bind_buffers == [] && ValidRun(chunks, n) && types == w.types && |types| >= n
    modifies w
    ensures w.Valid()
    ensures w.server == old(w.server) + StoredRows(AllRows(chunks, n))
  {
    ghost var sizes := w.current_buffer_sizes;
    for k := 0 to |chunks|
      invariant w.Valid() && (w.bind_buffers == [] || |w.bind_buffers| == n)
      invariant forall c :: 0 <= c < |w.bind_buffers| ==> fresh(w.bind_buffers[c])
      invariant forall c :: 0 <= c < |w.indicator_buffers| ==> fresh(w.indicator_buffers[c])
      invariant forall c :: 0 <= c < |w.length_buffers| ==> fresh(w.length_buffers[c])
      invariant SinkRun(w.conv, types, old(w.server), sizes, chunks, n)
                == SinkRun(w.conv, types, w.server, w.current_buffer_sizes, chunks[k..], n)
    {
      assert chunks[k..][0] == chunks[k] && chunks[k..][1..] == chunks[k + 1..];
      var ok := w.Sink(chunks[k], types);
    }
    RunInsertsEverything(w.conv, types, old(w.server), sizes, chunks, n);
  }
}
