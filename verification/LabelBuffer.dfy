/** The label string buffer of the sharded source (sources/parquet_glob_source.cpp:14-71,
    sources/parquet_glob_source.hpp:86-110): a queue of strings kept as offsets, lengths and packed
    bytes, with a count of rows already handed out at the front. */
module LabelBuffer {

  const U32 := 0x1_0000_0000

  /** A string column: row `i` is the `lengths[i]` characters of `data` from `offsets[i]` on. */
  datatype Column = Column(offsets: seq<nat>, lengths: seq<nat>, data: string)

  /** The first `count` rows lie inside the data. */
  ghost predicate Holds(col: Column, count: nat) {
    && count <= |col.offsets| && count <= |col.lengths|
    && forall i :: 0 <= i < count ==> col.offsets[i] + col.lengths[i] <= |col.data|
  }

  function RowAt(col: Column, i: nat): (row: string)
    requires i < |col.offsets| && i < |col.lengths| && col.offsets[i] + col.lengths[i] <= |col.data|
    ensures |row| == col.lengths[i]
  {
    col.data[col.offsets[i]..col.offsets[i] + col.lengths[i]]
  }

  function Rows(col: Column, count: nat): (r: seq<string>)
    requires Holds(col, count)
    ensures |r| == count && forall i :: 0 <= i < count ==> r[i] == RowAt(col, i)
  {
    seq(count, i requires 0 <= i < count => RowAt(col, i))
  }

  function SumOf(lengths: seq<nat>, n: nat): (s: nat)
    requires n <= |lengths|
  {
    if n == 0 then 0 else SumOf(lengths, n - 1) + lengths[n - 1]
  }

  /** Offsets that start at 0, step by the lengths and end at the size of the data. */
  ghost predicate Packed(col: Column) {
    && |col.offsets| == |col.lengths| + 1
    && col.offsets[0] == 0 && col.offsets[|col.lengths|] == |col.data|
    && (forall i :: 0 <= i < |col.lengths| ==> col.offsets[i + 1] == col.offsets[i] + col.lengths[i])
    && (forall i :: 0 <= i <= |col.lengths| ==> col.offsets[i] <= |col.data|)
  }

  lemma PackedHolds(col: Column)
    requires Packed(col)
    ensures Holds(col, |col.lengths|)
  {
    forall i | 0 <= i < |col.lengths| ensures col.offsets[i] + col.lengths[i] <= |col.data| {
      assert col.offsets[i + 1] == col.offsets[i] + col.lengths[i];
    }
  }

  /** Characters in a list of rows. */
  function Bytes(rows: seq<string>): (b: nat)
  {
    if rows == [] then 0 else Bytes(rows[..|rows| - 1]) + |rows[|rows| - 1]|
  }

  lemma {:induction false} BytesSplit(xs: seq<string>, ys: seq<string>)
    ensures Bytes(xs + ys) == Bytes(xs) + Bytes(ys)
  {
    if ys == [] {
      assert xs + ys == xs;
    } else {
      BytesSplit(xs, ys[..|ys| - 1]);
      assert (xs + ys)[..|xs + ys| - 1] == xs + ys[..|ys| - 1];
    }
  }

  lemma BytesOfRest(rows: seq<string>, i: nat, j: nat)
    requires i <= j <= |rows|
    ensures Bytes(rows[j..]) <= Bytes(rows[i..])
  {
    assert rows[i..] == rows[i..j] + rows[j..];
    BytesSplit(rows[i..j], rows[j..]);
  }

  lemma {:induction false} SumIsBytes(col: Column, n: nat, count: nat)
    requires Holds(col, count) && n <= count
    ensures SumOf(col.lengths, n) == Bytes(Rows(col, count)[..n])
  {
    hide Holds, RowAt;
    if n > 0 {
      SumIsBytes(col, n - 1, count);
      var front := Rows(col, count)[..n];
      assert front[..n - 1] == Rows(col, count)[..n - 1];
    }
  }

  lemma {:induction false} OffsetIsSum(col: Column, n: nat)
    requires Packed(col) && n <= |col.lengths|
    ensures col.offsets[n] == SumOf(col.lengths, n)
  {
    if n > 0 {
      OffsetIsSum(col, n - 1);
      assert col.offsets[n - 1 + 1] == col.offsets[n - 1] + col.lengths[n - 1];
    }
  }

  /** The data of a packed column is its rows and nothing else. */
  lemma DataIsRows(col: Column)
    requires Packed(col)
    ensures Holds(col, |col.lengths|) && |col.data| == Bytes(Rows(col, |col.lengths|))
  {
    PackedHolds(col);
    OffsetIsSum(col, |col.lengths|);
    SumIsBytes(col, |col.lengths|, |col.lengths|);
    assert Rows(col, |col.lengths|)[..|col.lengths|] == Rows(col, |col.lengths|);
  }

  lemma EmptyPacked()
    ensures Packed(Column([0], [], [])) && Holds(Column([0], [], []), 0) && Rows(Column([0], [], []), 0) == []
  {
  }

  lemma {:induction false} PackedOrder(col: Column, i: nat, j: nat)
    requires Packed(col) && i <= j <= |col.lengths|
    ensures col.offsets[i] <= col.offsets[j]
    decreases j - i
  {
    if i < j {
      PackedOrder(col, i, j - 1);
      assert col.offsets[j - 1 + 1] == col.offsets[j - 1] + col.lengths[j - 1];
    }
  }

  /** The column with one more row. */
  function Extended(col: Column, row: string): Column
    requires |col.offsets| > 0
  {
    Column(col.offsets + [col.offsets[|col.offsets| - 1] + |row|], col.lengths + [|row|], col.data + row)
  }

  lemma ExtendedRows(col: Column, row: string)
    requires Packed(col)
    ensures Packed(Extended(col, row))
    ensures Holds(col, |col.lengths|) && Holds(Extended(col, row), |col.lengths| + 1)
    ensures Rows(Extended(col, row), |col.lengths| + 1) == Rows(col, |col.lengths|) + [row]
  {
    var n := |col.lengths|;
    var e := Extended(col, row);
    PackedHolds(col);
    forall i | 0 <= i < |e.lengths| ensures e.offsets[i + 1] == e.offsets[i] + e.lengths[i] {
      if i < n {
        assert col.offsets[i + 1] == col.offsets[i] + col.lengths[i];
      }
    }
    assert Packed(e);
    PackedHolds(e);
    forall i | 0 <= i < n + 1 ensures RowAt(e, i) == (Rows(col, n) + [row])[i] {
      if i < n {
        assert col.offsets[i] + col.lengths[i] <= |col.data|;
        assert RowAt(e, i) == RowAt(col, i);
      } else {
        assert RowAt(e, i) == row;
      }
    }
  }

  /** The column without its first `k` rows, offsets counted from the new start. */
  function Shifted(col: Column, k: nat): Column
    requires k < |col.offsets| && k <= |col.lengths| && col.offsets[k] <= |col.data|
    requires forall i :: k <= i < |col.offsets| ==> col.offsets[i] >= col.offsets[k]
  {
    Column(seq(|col.offsets| - k, i requires 0 <= i < |col.offsets| - k => col.offsets[k + i] - col.offsets[k]),
           col.lengths[k..], col.data[col.offsets[k]..])
  }

  lemma ShiftedPacked(col: Column, k: nat)
    requires Packed(col) && k <= |col.lengths|
    ensures forall i :: k <= i < |col.offsets| ==> col.offsets[i] >= col.offsets[k]
    ensures Packed(Shifted(col, k))
  {
    forall i | k <= i < |col.offsets| ensures col.offsets[i] >= col.offsets[k] {
      PackedOrder(col, k, i);
    }
    var e := Shifted(col, k);
    forall i | 0 <= i < |e.lengths| ensures e.offsets[i + 1] == e.offsets[i] + e.lengths[i] {
      assert col.offsets[k + i + 1] == col.offsets[k + i] + col.lengths[k + i];
    }
  }

  lemma ShiftedRows(col: Column, k: nat)
    requires Packed(col) && k <= |col.lengths|
    ensures forall i :: k <= i < |col.offsets| ==> col.offsets[i] >= col.offsets[k]
    ensures Packed(Shifted(col, k))
    ensures Holds(col, |col.lengths|) && Holds(Shifted(col, k), |col.lengths| - k)
    ensures Rows(Shifted(col, k), |col.lengths| - k) == Rows(col, |col.lengths|)[k..]
  {
    ShiftedPacked(col, k);
    var e := Shifted(col, k);
    hide Packed;
    PackedHolds(col);
    PackedHolds(e);
    forall i | 0 <= i < |col.lengths| - k ensures RowAt(e, i) == RowAt(col, k + i) {
      assert col.offsets[k + i] + col.lengths[k + i] <= |col.data|;
      assert e.offsets[i] == col.offsets[k + i] - col.offsets[k];
      SliceOfRest(col.data, col.offsets[k], e.offsets[i], col.lengths[k + i]);
    }
  }

  lemma SliceOfRest(s: string, base: nat, at: nat, n: nat)
    requires base + at + n <= |s|
    ensures s[base..][at..at + n] == s[base + at..base + at + n]
  {
  }

  /** What a consumer sees through pointers moved `k` rows into a packed column. */
  lemma ViewRows(col: Column, k: nat, n: nat)
    requires Packed(col) && k + n <= |col.lengths|
    ensures Holds(col, |col.lengths|)
    ensures Holds(Column(col.offsets[k..], col.lengths[k..], col.data), n)
    ensures Rows(Column(col.offsets[k..], col.lengths[k..], col.data), n) == Rows(col, |col.lengths|)[k..k + n]
  {
    PackedHolds(col);
    var v := Column(col.offsets[k..], col.lengths[k..], col.data);
    forall i | 0 <= i < n
      ensures v.offsets[i] + v.lengths[i] <= |v.data| && RowAt(v, i) == Rows(col, |col.lengths|)[k + i]
    {
      assert col.offsets[k + i] + col.lengths[k + i] <= |col.data|;
    }
  }

  class LabelStringBuf {
    var offsets: seq<nat>
    var lengths: seq<nat>
    var data: string
    var head: nat

    function Col(): Column
      reads this
    {
      Column(offsets, lengths, data)
    }

    /** Either cleared, or packed with fewer than 2^32 bytes, so the 32-bit offsets are exact. */
    ghost predicate Valid()
      reads this
    {
      && |data| < U32
      && (if offsets == [] then lengths == [] && data == [] && head == 0 else Packed(Col()) && head <= |lengths|)
    }

    /** All rows in the buffer, and those not handed out yet. */
    ghost function All(): (r: seq<string>)
      requires Valid()
      reads this
      ensures |r| == |lengths| && head <= |r|
    {
      if offsets == [] then [] else PackedHolds(Col()); Rows(Col(), |lengths|)
    }

    /** The buffer holds the bytes of its rows and nothing else. */
    lemma SizeIsBytes()
      requires Valid()
      ensures |data| == Bytes(All())
    {
      if offsets != [] {
        DataIsRows(Col());
      }
    }

    ghost function Waiting(): (r: seq<string>)
      requires Valid()
      reads this
    {
      All()[head..]
    }

    constructor ()
      ensures Valid() && All() == [] && head == 0 && data == []
    {
      offsets, lengths, data, head := [], [], [], 0;
    }

    function Available(): (n: nat)
      requires Valid()
      reads this
      ensures n == |Waiting()|
    {
      if offsets == [] then 0 else |offsets| - 1 - head
    }

    method Clear()
      modifies this
      ensures Valid() && All() == [] && offsets == [] && lengths == [] && head == 0 && data == []
    {
      offsets, lengths, data, head := [], [], [], 0;
    }

    /** Puts one row at the back; `base` is the running total of bytes. */
    method Push(row: string, base: nat) returns (next: nat)
      requires Valid() && offsets != [] && base == offsets[|offsets| - 1] && |data| + |row| < U32
      modifies this
      ensures Valid() && head == old(head) && offsets != [] && next == offsets[|offsets| - 1]
      ensures All() == old(All()) + [row] && |data| == old(|data|) + |row|
    {
      ghost var was := Col();
      ExtendedRows(was, row);
      PackedHolds(was);
      offsets := offsets + [(base + |row|) % U32];
      lengths := lengths + [|row|];
      data := data + row;
      assert Col() == Extended(was, row);
      next := (base + |row|) % U32;
    }

    /** A cleared buffer gets its first offset. */
    method Start()
      requires Valid()
      modifies this
      ensures Valid() && offsets != [] && All() == old(All()) && head == old(head) && data == old(data)
    {
      if |offsets| == 0 {
        offsets := [0];
        EmptyPacked();
        assert Col() == Column([0], [], []);
      }
    }

    /** Puts the column's first `count` rows at the back of the queue; 32-bit offsets suffice while
        the bytes kept stay below 2^32. */
    method Append(col: Column, count: nat)
      requires Valid() && Holds(col, count) && |data| + SumOf(col.lengths, count) < U32
      modifies this
      ensures Valid() && head == old(head)
      ensures All() == old(All()) + Rows(col, count)
      ensures Waiting() == old(Waiting()) + Rows(col, count)
      ensures |data| == old(|data|) + SumOf(col.lengths, count)
    {
      hide Valid, All, Col, Packed, Extended, Shifted, RowAt, Rows;
      ghost var was, rows := All(), Rows(col, count);
      Start();
      var base := offsets[|offsets| - 1];
      var i := 0;
      assert was + rows[..0] == was;
      while i < count
        invariant 0 <= i <= count && offsets != [] && head == old(head) && Valid()
        invariant base == offsets[|offsets| - 1]
        invariant |data| == old(|data|) + SumOf(col.lengths, i)
        invariant All() == was + rows[..i]
      {
        SumGrows(col.lengths, i + 1, count);
        base := Push(RowAt(col, i), base);
        TakeOneMore(was, rows, i);
        i := i + 1;
      }
      assert rows[..count] == rows;
      DropOfSum(was, rows, head);
    }

    /** Hands out the next `n` rows as pointers into the buffer, and counts them as consumed. */
    method Consume(n: nat) returns (out: Column)
      requires Valid() && n <= Available()
      modifies `head
      ensures Valid() && head == old(head) + n && All() == old(All()) && data == old(data)
      ensures Holds(out, n) && Rows(out, n) == old(Waiting())[..n] && Waiting() == old(Waiting())[n..]
      ensures n > 0 ==> offsets != [] && out == Column(offsets[old(head)..], lengths[old(head)..], data)
    {
      if |offsets| == 0 {
        return Column([], [], data);
      }
      out := Column(offsets[head..], lengths[head..], data);
      ViewRows(Col(), head, n);
      head := head + n;
    }

    /** Drops the consumed rows; the waiting ones stay as they are. */
    method Compact()
      requires Valid()
      modifies this
      ensures Valid() && head == 0 && Waiting() == old(Waiting()) && |data| <= old(|data|)
    {
      if head == 0 {
        return;
      }
      var consumed := head;
      if consumed >= |offsets| - 1 {
        Clear();
        Start();
        return;
      }
      ghost var was := Col();
      ShiftedRows(was, consumed);
      ghost var all := All();
      assert all == Rows(was, |was.lengths|);
      hide Packed, RowAt, Rows, Shifted, Holds;
      var newOffsets := Rebased(offsets, consumed);
      ShiftedIs(was, consumed, newOffsets);
      var newLengths := lengths[consumed..];
      data := data[offsets[consumed]..];
      offsets, lengths, head := newOffsets, newLengths, 0;
      assert Col() == Shifted(was, consumed);
      assert All() == all[consumed..];
    }
  }

  /** The offsets from row `consumed` on, counted from that row's first byte. */
  method Rebased(offsets: seq<nat>, consumed: nat) returns (newOffsets: seq<nat>)
    requires consumed < |offsets|
    requires forall i :: consumed <= i < |offsets| ==> offsets[i] >= offsets[consumed]
    ensures |newOffsets| == |offsets| - consumed
    ensures forall i :: 0 <= i < |newOffsets| ==> newOffsets[i] == offsets[consumed + i] - offsets[consumed]
  {
    var dataOffset := offsets[consumed];
    var remaining := |offsets| - 1 - consumed;
    newOffsets := [];
    var i := 0;
    while i <= remaining
      invariant 0 <= i <= remaining + 1 && |newOffsets| == i
      invariant forall j :: 0 <= j < i ==> newOffsets[j] == offsets[consumed + j] - dataOffset
    {
      newOffsets := newOffsets + [offsets[consumed + i] - dataOffset];
      i := i + 1;
    }
  }

  lemma ShiftedIs(col: Column, k: nat, newOffsets: seq<nat>)
    requires k < |col.offsets| && k <= |col.lengths| && col.offsets[k] <= |col.data|
    requires forall i :: k <= i < |col.offsets| ==> col.offsets[i] >= col.offsets[k]
    requires |newOffsets| == |col.offsets| - k
    requires forall i :: 0 <= i < |newOffsets| ==> newOffsets[i] == col.offsets[k + i] - col.offsets[k]
    ensures Column(newOffsets, col.lengths[k..], col.data[col.offsets[k]..]) == Shifted(col, k)
  {
    assert newOffsets == Shifted(col, k).offsets;
  }

  lemma TakeOneMore(was: seq<string>, rows: seq<string>, i: nat)
    requires i < |rows|
    ensures was + rows[..i] + [rows[i]] == was + rows[..i + 1]
  {
  }

  lemma DropOfSum(was: seq<string>, rows: seq<string>, head: nat)
    requires head <= |was|
    ensures (was + rows)[head..] == was[head..] + rows
  {
  }

  lemma {:induction false} SumGrows(lengths: seq<nat>, i: nat, n: nat)
    requires i <= n <= |lengths|
    ensures SumOf(lengths, i) <= SumOf(lengths, n)
    decreases n - i
  {
    if i < n {
      SumGrows(lengths, i, n - 1);
    }
  }
}
