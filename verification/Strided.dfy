/** Columns of variable-length values stored at a fixed stride, the layout OCI uses for array
    binds and array fetches: value `i` starts at byte `i * stride`, its length and its NULL
    indicator are in two side arrays. */
module Strided {
  import opened Wrappers

  newtype Byte = x: int | 0 <= x < 256
  newtype Sb2 = x: int | -0x8000 <= x < 0x8000
  newtype Ub2 = x: int | 0 <= x < 0x1_0000

  type Cell = Option<seq<Byte>>

  /** A value's length is stored as a ub2: lengths of 65536 and more wrap round. */
  function Stored(c: Cell): Cell {
    match c
    case None => None
    case Some(s) => Some(s[..|s| % 0x1_0000])
  }

  lemma StoredIff(c: Cell)
    ensures Stored(c) == c <==> (c.Some? ==> |c.value| < 0x1_0000)
  {
    if c.Some? {
      if |c.value| >= 0x1_0000 {
        assert |Stored(c).value| < |c.value|;
      } else {
        assert c.value[..|c.value|] == c.value;
      }
    }
  }

  /** What is left of a value is its beginning, short by whole multiples of 65536 bytes and at most
      65535 bytes long: nothing of one that is 65536 bytes long. */
  lemma StoredCut(s: seq<Byte>, k: nat)
    requires k * 0x1_0000 <= |s| < (k + 1) * 0x1_0000
    ensures Stored(Some(s)).Some? && Stored(Some(s)).value <= s
    ensures |Stored(Some(s)).value| == |s| - k * 0x1_0000
  {
    assert |s| == k * 0x1_0000 + (|s| - k * 0x1_0000);
  }

  /** Slot `i` lies inside a buffer of `n` slots ... */
  lemma SlotInside(i: nat, n: nat, stride: nat, len: nat)
    requires i < n && len <= stride
    ensures 0 <= i * stride && i * stride + len <= n * stride
  {
    assert n * stride == i * stride + stride + (n - i - 1) * stride;
    assert (n - i - 1) * stride >= 0;
  }

  /** ... and ends before any later slot starts. */
  lemma SlotsApart(i: nat, j: nat, stride: nat)
    requires i < j
    ensures i * stride + stride <= j * stride
  {
    assert j * stride == i * stride + stride + (j - i - 1) * stride;
    assert (j - i - 1) * stride >= 0;
  }

  /** Slot `i` can be read: its indicator and length exist and its bytes are in the buffer. */
  ghost predicate Readable(data: seq<Byte>, ind: seq<Sb2>, len: seq<Ub2>, stride: nat, i: nat) {
    && i < |ind| && i < |len|
    && len[i] as nat <= stride
    && 0 <= i * stride && i * stride + len[i] as nat <= |data|
  }

  /** What a reader of slot `i` sees. */
  ghost function Slot(data: seq<Byte>, ind: seq<Sb2>, len: seq<Ub2>, stride: nat, i: nat): Cell
    requires Readable(data, ind, len, stride, i)
  {
    if ind[i] == -1 then None else Some(data[i * stride..i * stride + len[i] as nat])
  }

  /** Storage for one column. */
  method NewColumn(bytes: nat, rows: nat) returns (data: array<Byte>, ind: array<Sb2>, len: array<Ub2>)
    ensures fresh(data) && fresh(ind) && fresh(len)
    ensures data.Length == bytes && ind.Length == len.Length == rows
  {
    data := new Byte[bytes];
    ind := new Sb2[rows];
    len := new Ub2[rows];
  }

  /** memcpy */
  method CopyBytes(data: array<Byte>, at: nat, s: seq<Byte>)
    requires at + |s| <= data.Length
    modifies data
    ensures data[at..at + |s|] == s
    ensures forall k :: 0 <= k < data.Length && !(at <= k < at + |s|) ==> data[k] == old(data[k])
  {
    forall k | 0 <= k < |s| {
      data[at + k] := s[k];
    }
  }

  /** Bytes outside the written slot are untouched, so a slot read earlier reads the same. */
  lemma SlotFrame(before: seq<Byte>, after: seq<Byte>, ind: seq<Sb2>, ind': seq<Sb2>, len: seq<Ub2>, len': seq<Ub2>,
                  stride: nat, k: nat, i: nat)
    requires k < i && Readable(before, ind, len, stride, k) && |after| == |before|
    requires |ind'| == |ind| && |len'| == |len| && ind'[k] == ind[k] && len'[k] == len[k]
    requires forall b :: 0 <= b < |before| && b < i * stride ==> after[b] == before[b]
    ensures Readable(after, ind', len', stride, k)
    ensures Slot(after, ind', len', stride, k) == Slot(before, ind, len, stride, k)
  {
    SlotsApart(k, i, stride);
    var lo, hi := k * stride, k * stride + len[k] as nat;
    assert after[lo..hi] == before[lo..hi];
  }

  ghost predicate AtMost(cells: seq<Cell>, m: nat) {
    forall i :: 0 <= i < |cells| && cells[i].Some? ==> |cells[i].value| <= m
  }

  /** The first `n` slots read back as what is stored of the first `n` cells. */
  ghost predicate Written(data: seq<Byte>, ind: seq<Sb2>, len: seq<Ub2>, stride: nat, cells: seq<Cell>, n: nat)
    requires n <= |cells|
  {
    forall k :: 0 <= k < n ==>
      Readable(data, ind, len, stride, k) && Slot(data, ind, len, stride, k) == Stored(cells[k])
  }

  lemma SubSlice(data: seq<Byte>, at: nat, s: seq<Byte>, n: nat)
    requires at + |s| <= |data| && data[at..at + |s|] == s && n <= |s|
    ensures data[at..at + n] == s[..n]
  {
    assert data[at..at + n] == data[at..at + |s|][..n];
  }

  /** Fill one slot and touch nothing before it. */
  method StoreSlot(data: array<Byte>, ind: array<Sb2>, len: array<Ub2>, stride: nat, i: nat, cell: Cell)
    requires i < ind.Length == len.Length && data.Length == ind.Length * stride
    requires cell.Some? ==> |cell.value| <= stride
    modifies data, ind, len
    ensures Readable(data[..], ind[..], len[..], stride, i)
    ensures Slot(data[..], ind[..], len[..], stride, i) == Stored(cell)
    ensures forall b :: 0 <= b < data.Length && b < i * stride ==> data[b] == old(data[b])
    ensures forall k :: 0 <= k < i ==> ind[k] == old(ind[k]) && len[k] == old(len[k])
  {
    SlotInside(i, ind.Length, stride, 0);
    match cell {
      case None =>
        ind[i] := -1;
        len[i] := 0;
      case Some(s) =>
        ind[i] := 0;
        SlotInside(i, ind.Length, stride, |s|);
        CopyBytes(data, i * stride, s);
        len[i] := (|s| % 0x1_0000) as Ub2;
        SubSlice(data[..], i * stride, s, len[i] as nat);
    }
  }

  /** Fill one slot; the slots before it read as they did. */
  method WriteSlot(data: array<Byte>, ind: array<Sb2>, len: array<Ub2>, stride: nat, i: nat, cell: Cell)
    requires i < ind.Length == len.Length && data.Length == ind.Length * stride
    requires cell.Some? ==> |cell.value| <= stride
    modifies data, ind, len
    ensures Readable(data[..], ind[..], len[..], stride, i)
    ensures Slot(data[..], ind[..], len[..], stride, i) == Stored(cell)
    ensures forall k :: 0 <= k < i && old(Readable(data[..], ind[..], len[..], stride, k)) ==>
              && Readable(data[..], ind[..], len[..], stride, k)
              && Slot(data[..], ind[..], len[..], stride, k) == old(Slot(data[..], ind[..], len[..], stride, k))
  {
    ghost var data', ind', len' := data[..], ind[..], len[..];
    StoreSlot(data, ind, len, stride, i, cell);
    forall k | 0 <= k < i && Readable(data', ind', len', stride, k)
      ensures Readable(data[..], ind[..], len[..], stride, k)
      ensures Slot(data[..], ind[..], len[..], stride, k) == Slot(data', ind', len', stride, k)
    {
      SlotFrame(data', data[..], ind', ind[..], len', len[..], stride, k, i);
    }
  }

  /** Fill the slots of one column.  Whatever the buffer held before, the slots written read back
      as the cells; the only way to stop early is a value longer than a slot. */
  method WriteCells(data: array<Byte>, ind: array<Sb2>, len: array<Ub2>, stride: nat, cells: seq<Cell>) returns (ok: bool)
    requires |cells| <= ind.Length == len.Length && data.Length == ind.Length * stride
    modifies data, ind, len
    ensures ok <==> AtMost(cells, stride)
    ensures ok ==> Written(data[..], ind[..], len[..], stride, cells, |cells|)
  {
    for i := 0 to |cells|
      invariant AtMost(cells[..i], stride)
      invariant Written(data[..], ind[..], len[..], stride, cells, i)
    {
      if cells[i].Some? && |cells[i].value| > stride {
        return false;
      }
      label before:
      assert forall k :: 0 <= k < i ==> old@before(Readable(data[..], ind[..], len[..], stride, k));
      WriteSlot(data, ind, len, stride, i, cells[i]);
    }
    assert cells[..|cells|] == cells;
    ok := true;
  }
}
