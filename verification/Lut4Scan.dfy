/** The 4-bit scan of scripts/spike_pq4_recall.cpp:74-292: a distance table is quantized to 4 bits with
    one scale for all segments, codes are transposed into 32-vector blocks, and the 16-bit kernel sums
    the quantized entries of every vector. */
module Lut4Scan {
  import opened FastScan
  import opened Vectors

  // ----- the table -----

  function Over(x: real, y: real): real
    requires y > 0.0
  {
    x / y
  }

  /** A conversion to an integer drops the fraction. */
  function Trunc(x: real): int {
    if x >= 0.0 then x.Floor else -((-x).Floor)
  }

  /** A table entry above its segment's minimum, scaled, rounded and clamped. */
  function Quantized(above: real, scale: real): (q: nat)
    ensures q <= 15
  {
    var q4 := Trunc(Mul(above, scale) + 0.5);
    var low := if q4 < 15 then q4 else 15;
    if low > 0 then low else 0
  }

  /** Within the scale's range the clamp does nothing and the entry is the nearest integer, halves up. */
  lemma RoundsToNearest(above: real, scale: real)
    requires 0.0 <= Mul(above, scale) <= 15.0
    ensures Quantized(above, scale) == (Mul(above, scale) + 0.5).Floor
    ensures Mul(above, scale) - 0.5 < Quantized(above, scale) as real <= Mul(above, scale) + 0.5
  {
    hide Mul;
    var x := Mul(above, scale) + 0.5;
    assert x.Floor as real <= x < x.Floor as real + 1.0;
    assert 0 <= x.Floor <= 15;
  }

  /** `rows` is `m` segments of 16 entries. */
  function At(rows: seq<real>, s: nat, c: nat): real
    requires 16 * s + 16 <= |rows| && c < 16
  {
    rows[16 * s + c]
  }

  ghost predicate IsSegMin(rows: seq<real>, s: nat, mn: real)
    requires 16 * s + 16 <= |rows|
  {
    (forall c :: 0 <= c < 16 ==> mn <= At(rows, s, c)) && exists c :: 0 <= c < 16 && mn == At(rows, s, c)
  }

  ghost predicate SegMins(rows: seq<real>, m: nat, segMin: seq<real>)
    requires |rows| == 16 * m
  {
    |segMin| == m && forall s :: 0 <= s < m ==> IsSegMin(rows, s, segMin[s])
  }

  /** The widest distance of an entry from its segment's minimum. */
  ghost predicate IsMaxSpan(rows: seq<real>, m: nat, segMin: seq<real>, span: real)
    requires |rows| == 16 * m && |segMin| == m
  {
    && span >= 0.0
    && (forall s, c :: 0 <= s < m && 0 <= c < 16 ==> At(rows, s, c) - segMin[s] <= span)
    && (span > 0.0 ==> exists s, c :: 0 <= s < m && 0 <= c < 16 && At(rows, s, c) - segMin[s] == span)
  }

  function ScaleOf(span: real): real {
    if span > 0.0 then Over(15.0, span) else 0.0
  }

  ghost predicate IsScale(rows: seq<real>, m: nat, segMin: seq<real>, scale: real)
    requires |rows| == 16 * m && |segMin| == m
  {
    exists span :: IsMaxSpan(rows, m, segMin, span) && scale == ScaleOf(span)
  }

  /** The scale maps the spans into 0..15, and the widest one to 15. */
  lemma ScaledRange(above: real, span: real)
    requires 0.0 <= above <= span
    ensures 0.0 <= Mul(above, ScaleOf(span)) <= 15.0
    ensures above == span > 0.0 ==> Mul(above, ScaleOf(span)) == 15.0
  {
    if span > 0.0 {
      var a := 15.0 / span;
      assert a > 0.0;
      assert a * span == 15.0;
      assert 0.0 <= above * a;
      assert above * a <= span * a;
    }
  }

  method SegmentMin(rows: seq<real>, s: nat) returns (mn: real)
    requires 16 * s + 16 <= |rows|
    ensures IsSegMin(rows, s, mn)
  {
    mn := rows[16 * s];
    assert mn == At(rows, s, 0);
    var c := 1;
    while c < 16
      invariant 1 <= c <= 16
      invariant forall d :: 0 <= d < c ==> mn <= At(rows, s, d)
      invariant exists d :: 0 <= d < c && mn == At(rows, s, d)
    {
      if rows[16 * s + c] < mn {
        mn := rows[16 * s + c];
        assert mn == At(rows, s, c);
      }
      c := c + 1;
    }
  }

  /** Raises the widest span to the widest of segment `s`. */
  method WidenSpan(rows: seq<real>, s: nat, mn: real, span: real) returns (wider: real)
    requires 16 * s + 16 <= |rows|
    ensures wider >= span && (forall c :: 0 <= c < 16 ==> At(rows, s, c) - mn <= wider)
    ensures wider == span || exists c :: 0 <= c < 16 && At(rows, s, c) - mn == wider
  {
    wider := span;
    var c := 0;
    while c < 16
      invariant 0 <= c <= 16 && wider >= span
      invariant forall d :: 0 <= d < c ==> At(rows, s, d) - mn <= wider
      invariant wider == span || exists d :: 0 <= d < c && At(rows, s, d) - mn == wider
    {
      var here := rows[16 * s + c] - mn;
      if here > wider {
        wider := here;
        assert At(rows, s, c) - mn == wider;
      }
      c := c + 1;
    }
  }

  method Spans(rows: seq<real>, m: nat) returns (segMin: seq<real>, span: real)
    requires |rows| == 16 * m
    ensures SegMins(rows, m, segMin) && IsMaxSpan(rows, m, segMin, span)
  {
    hide At, IsSegMin;
    segMin, span := [], 0.0;
    while |segMin| < m
      invariant |segMin| <= m && span >= 0.0
      invariant forall s :: 0 <= s < |segMin| ==> IsSegMin(rows, s, segMin[s])
      invariant forall s, c :: 0 <= s < |segMin| && 0 <= c < 16 ==> At(rows, s, c) - segMin[s] <= span
      invariant span > 0.0 ==> exists s, c :: 0 <= s < |segMin| && 0 <= c < 16 && At(rows, s, c) - segMin[s] == span
    {
      var s := |segMin|;
      var mn := SegmentMin(rows, s);
      ghost var was := span;
      span := WidenSpan(rows, s, mn, span);
      segMin := segMin + [mn];
      if span != was {
        ghost var c :| 0 <= c < 16 && At(rows, s, c) - mn == span;
        assert At(rows, s, c) - segMin[s] == span;
      } else if span > 0.0 {
        ghost var s0, c0 :| 0 <= s0 < s && 0 <= c0 < 16 && At(rows, s0, c0) - segMin[s0] == span;
      }
    }
  }

  /** Each table entry is its row entry above the segment's minimum, quantized at the common scale. */
  ghost predicate IsTable(rows: seq<real>, m: nat, segMin: seq<real>, scale: real, lut4: seq<nat>)
    requires |rows| == 16 * m && |segMin| == m
  {
    && |lut4| == 16 * m
    && forall i :: 0 <= i < 16 * m ==> lut4[i] == Quantized(rows[i] - segMin[i / 16], scale)
  }

  method BuildLut4(rows: seq<real>, m: nat, lut4: array<nat>) returns (segMin: seq<real>, scale: real)
    requires |rows| == 16 * m && lut4.Length == 16 * m
    modifies lut4
    ensures SegMins(rows, m, segMin) && IsScale(rows, m, segMin, scale)
    ensures IsTable(rows, m, segMin, scale, lut4[..])
  {
    hide IsMaxSpan, IsSegMin, Quantized;
    var span;
    segMin, span := Spans(rows, m);
    scale := ScaleOf(span);
    for s := 0 to m
      invariant forall i :: 0 <= i < 16 * s ==> lut4[i] == Quantized(rows[i] - segMin[i / 16], scale)
    {
      var mn := segMin[s];
      for c := 0 to 16
        invariant forall i :: 0 <= i < 16 * s + c ==> lut4[i] == Quantized(rows[i] - segMin[i / 16], scale)
      {
        assert (16 * s + c) / 16 == s;
        lut4[16 * s + c] := Quantized(rows[16 * s + c] - mn, scale);
      }
    }
  }

  lemma AboveScaled(rows: seq<real>, m: nat, segMin: seq<real>, scale: real, s: nat, c: nat)
    requires |rows| == 16 * m && |segMin| == m && SegMins(rows, m, segMin) && IsScale(rows, m, segMin, scale)
    requires s < m && c < 16
    ensures 0.0 <= Mul(At(rows, s, c) - segMin[s], scale) <= 15.0
  {
    hide Mul, ScaleOf;
    var span :| IsMaxSpan(rows, m, segMin, span) && scale == ScaleOf(span);
    assert IsSegMin(rows, s, segMin[s]);
    ScaledRange(At(rows, s, c) - segMin[s], span);
  }

  /** Every entry is within half a unit of its scaled value, and no clamp acts. */
  lemma TableEntry(rows: seq<real>, m: nat, segMin: seq<real>, scale: real, lut4: seq<nat>, s: nat, c: nat)
    requires |rows| == 16 * m && |segMin| == m && SegMins(rows, m, segMin) && IsScale(rows, m, segMin, scale)
    requires IsTable(rows, m, segMin, scale, lut4) && s < m && c < 16
    ensures var x := Mul(At(rows, s, c) - segMin[s], scale);
            && 0.0 <= x <= 15.0 && lut4[16 * s + c] == (x + 0.5).Floor <= 15
            && x - 0.5 < lut4[16 * s + c] as real <= x + 0.5
  {
    hide Mul, Quantized, ScaleOf, IsScale, SegMins, IsTable, At;
    EntryIsQuantized(rows, m, segMin, scale, lut4, s, c);
    AboveScaled(rows, m, segMin, scale, s, c);
    RoundsToNearest(At(rows, s, c) - segMin[s], scale);
  }

  lemma EntryIsQuantized(rows: seq<real>, m: nat, segMin: seq<real>, scale: real, lut4: seq<nat>, s: nat, c: nat)
    requires |rows| == 16 * m && |segMin| == m && IsTable(rows, m, segMin, scale, lut4) && s < m && c < 16
    ensures 16 * s + c < |lut4| && lut4[16 * s + c] == Quantized(At(rows, s, c) - segMin[s], scale)
  {
    hide Quantized;
    assert (16 * s + c) / 16 == s;
  }

  // ----- codes and blocks -----

  /** `n` vectors of `m` 4-bit codes, two to a byte, the even segment in the low nibble. */
  ghost predicate Packed(packed: seq<seq<nat>>, m: nat) {
    forall v :: 0 <= v < |packed| ==> 2 * |packed[v]| >= m && Bytes(packed[v])
  }

  function Code(packed: seq<seq<nat>>, m: nat, v: nat, s: nat): (c: nat)
    requires Packed(packed, m) && v < |packed| && s < m
    ensures c < 16
  {
    var byte := packed[v][s / 2];
    if s % 2 == 0 then byte % 16 else byte / 16 % 16
  }

  /** A vector's codes packed two to a byte: the even segment low, the odd one high, 0 beyond the last. */
  function PackPairs(codes: seq<nat>): (bytes: seq<nat>)
    requires forall s :: 0 <= s < |codes| ==> codes[s] < 16
    ensures |bytes| == (|codes| + 1) / 2
    ensures forall j :: 0 <= j < |bytes| ==>
              bytes[j] == codes[2 * j] + 16 * (if 2 * j + 1 < |codes| then codes[2 * j + 1] else 0) < 256
  {
    seq((|codes| + 1) / 2, j requires 0 <= j < (|codes| + 1) / 2 =>
      codes[2 * j] + 16 * (if 2 * j + 1 < |codes| then codes[2 * j + 1] else 0))
  }

  lemma NibblesOf(lo: nat, hi: nat)
    requires lo < 16 && hi < 16
    ensures (lo + 16 * hi) % 16 == lo && (lo + 16 * hi) / 16 % 16 == hi
  {
  }

  /** Codes packed in pairs read back. */
  lemma PackedPairsReadBack(codes: seq<nat>, packed: seq<seq<nat>>, m: nat, v: nat, s: nat)
    requires |codes| == m && forall k :: 0 <= k < m ==> codes[k] < 16
    requires Packed(packed, m) && v < |packed| && packed[v] == PackPairs(codes) && s < m
    ensures Code(packed, m, v, s) == codes[s]
  {
    var j := s / 2;
    var hi := if 2 * j + 1 < m then codes[2 * j + 1] else 0;
    NibblesOf(codes[2 * j], hi);
  }

  function CodeOrZero(packed: seq<seq<nat>>, m: nat, v: nat, s: nat): (c: nat)
    requires Packed(packed, m) && s < m
    ensures c < 16
  {
    if v < |packed| then Code(packed, m, v, s) else 0
  }

  /** Byte `k` of segment `s` in block `b`: vector `32b + k` in the low nibble, `32b + 16 + k` in the high. */
  function BlockByte(packed: seq<seq<nat>>, m: nat, b: nat, s: nat, k: nat): (byte: nat)
    requires Packed(packed, m) && s < m && k < 16
    ensures byte < U8
  {
    16 * CodeOrZero(packed, m, 32 * b + 16 + k, s) + CodeOrZero(packed, m, 32 * b + k, s)
  }

  /** The bytes of one block. */
  ghost predicate IsBlock(packed: seq<seq<nat>>, m: nat, b: nat, bytes: seq<nat>)
    requires Packed(packed, m)
  {
    |bytes| == 16 * m && forall i :: 0 <= i < 16 * m ==> bytes[i] == BlockByte(packed, m, b, i / 16, i % 16)
  }

  function Blocks(n: nat): nat {
    (n + 31) / 32
  }

  /** There are just enough blocks of 32 for all vectors. */
  lemma BlocksCover(n: nat)
    ensures 32 * Blocks(n) >= n && (n > 0 ==> 32 * (Blocks(n) - 1) < n) && Blocks(0) == 0
  {
  }

  /** Where block `b` starts. */
  function BlockStart(m: nat, b: nat): (at: nat)
  {
    16 * m * b
  }

  lemma BlockStep(m: nat, b: nat)
    ensures BlockStart(m, b + 1) == BlockStart(m, b) + 16 * m && BlockStart(m, 0) == 0
  {
  }

  lemma {:induction false} BlockOrder(m: nat, a: nat, b: nat)
    requires a <= b
    ensures BlockStart(m, a) <= BlockStart(m, b)
    decreases b - a
  {
    if a < b {
      BlockOrder(m, a, b - 1);
      BlockStep(m, b - 1);
    }
  }

  ghost predicate Encoded(packed: seq<seq<nat>>, m: nat, bytes: seq<nat>, blocks: nat)
    requires Packed(packed, m)
  {
    && BlockStart(m, blocks) <= |bytes|
    && forall b :: 0 <= b < blocks ==>
         && 0 <= BlockStart(m, b) <= BlockStart(m, b) + 16 * m <= |bytes|
         && IsBlock(packed, m, b, bytes[BlockStart(m, b)..BlockStart(m, b) + 16 * m])
  }

  method EncodeBlock(packed: seq<seq<nat>>, m: nat, b: nat, bytes: array<nat>, base: nat)
    requires Packed(packed, m) && base + 16 * m <= bytes.Length
    modifies bytes
    ensures IsBlock(packed, m, b, bytes[base..base + 16 * m])
    ensures forall i :: 0 <= i < bytes.Length && !(base <= i < base + 16 * m) ==> bytes[i] == old(bytes[i])
  {
    hide Code, Packed, BlockByte;
    for s := 0 to m
      invariant forall i :: 0 <= i < 16 * s ==> bytes[base + i] == BlockByte(packed, m, b, i / 16, i % 16)
      invariant forall i :: 0 <= i < bytes.Length && !(base <= i < base + 16 * m) ==> bytes[i] == old(bytes[i])
    {
      for k := 0 to 16
        invariant forall i :: 0 <= i < 16 * s + k ==> bytes[base + i] == BlockByte(packed, m, b, i / 16, i % 16)
        invariant forall i :: 0 <= i < bytes.Length && !(base <= i < base + 16 * m) ==> bytes[i] == old(bytes[i])
      {
        var v0 := 32 * b + k;
        var v1 := 32 * b + 16 + k;
        var lo := if v0 < |packed| then Code(packed, m, v0, s) else 0;
        var hi := if v1 < |packed| then Code(packed, m, v1, s) else 0;
        assert (16 * s + k) / 16 == s && (16 * s + k) % 16 == k;
        OneByte(packed, m, b, s, k, lo, hi);
        bytes[base + (16 * s + k)] := (16 * hi + lo) % U8;
      }
    }
  }

  lemma OneByte(packed: seq<seq<nat>>, m: nat, b: nat, s: nat, k: nat, lo: nat, hi: nat)
    requires Packed(packed, m) && s < m && k < 16
    requires lo == CodeOrZero(packed, m, 32 * b + k, s) && hi == CodeOrZero(packed, m, 32 * b + 16 + k, s)
    ensures (16 * hi + lo) % U8 == BlockByte(packed, m, b, s, k)
  {
  }

  /** All blocks, one after the other; the last one is filled up with zero codes. */
  method EncodeDataset(packed: seq<seq<nat>>, m: nat) returns (bytes: array<nat>)
    requires Packed(packed, m)
    ensures fresh(bytes) && bytes.Length == BlockStart(m, Blocks(|packed|))
    ensures Encoded(packed, m, bytes[..], Blocks(|packed|))
  {
    hide BlockStart, IsBlock, Packed;
    var blocks := Blocks(|packed|);
    bytes := new nat[BlockStart(m, blocks)](_ => 0);
    BlockOrder(m, 0, blocks);
    for b := 0 to blocks
      invariant bytes.Length == BlockStart(m, blocks) && Encoded(packed, m, bytes[..], b)
    {
      BlockStep(m, b);
      BlockOrder(m, b + 1, blocks);
      ghost var was := bytes[..];
      EncodeBlock(packed, m, b, bytes, BlockStart(m, b));
      OneMoreBlock(packed, m, was, bytes[..], b);
    }
  }

  lemma OneMoreBlock(packed: seq<seq<nat>>, m: nat, was: seq<nat>, bytes: seq<nat>, b: nat)
    requires Packed(packed, m) && Encoded(packed, m, was, b) && |bytes| == |was|
    requires BlockStart(m, b) + 16 * m == BlockStart(m, b + 1) <= |bytes|
    requires IsBlock(packed, m, b, bytes[BlockStart(m, b)..BlockStart(m, b) + 16 * m])
    requires forall i :: 0 <= i < |bytes| && !(BlockStart(m, b) <= i < BlockStart(m, b) + 16 * m) ==> bytes[i] == was[i]
    ensures Encoded(packed, m, bytes, b + 1)
  {
    hide BlockStart, IsBlock, Packed;
    forall d | 0 <= d < b + 1
      ensures 0 <= BlockStart(m, d) <= BlockStart(m, d) + 16 * m <= |bytes|
              && IsBlock(packed, m, d, bytes[BlockStart(m, d)..BlockStart(m, d) + 16 * m])
    {
      if d < b {
        BlockStep(m, d);
        BlockOrder(m, d + 1, b);
        var at := BlockStart(m, d);
        assert bytes[at..at + 16 * m] == was[at..at + 16 * m];
      }
    }
  }

  // ----- the scan -----

  /** The sum of the table entries that vector `v`'s codes select in the first `k` segments. */
  function CodeSum(packed: seq<seq<nat>>, m: nat, lut4: seq<nat>, v: nat, k: nat): nat
    requires Packed(packed, m) && v < |packed| && |lut4| == 16 * m && k <= m
  {
    if k == 0 then 0 else CodeSum(packed, m, lut4, v, k - 1) + lut4[16 * (k - 1) + Code(packed, m, v, k - 1)]
  }

  /** The nibble the kernel takes for lane `j`: the vector's code, or 0 past the last vector. */
  lemma LaneNibble(packed: seq<seq<nat>>, m: nat, b: nat, bytes: seq<nat>, s: nat, j: nat)
    requires Packed(packed, m) && IsBlock(packed, m, b, bytes) && s < m && j < 32
    ensures Bytes(bytes)
    ensures Nibble(bytes, s, j) == if 32 * b + j < |packed| then Code(packed, m, 32 * b + j, s) else 0
  {
    OrZero(packed, m, 32 * b + j, s);
    hide *;
    BlockNibble(packed, m, b, bytes, s, j);
  }

  lemma OrZero(packed: seq<seq<nat>>, m: nat, v: nat, s: nat)
    requires Packed(packed, m) && s < m
    ensures CodeOrZero(packed, m, v, s) == if v < |packed| then Code(packed, m, v, s) else 0
  {
  }

  lemma BlockNibble(packed: seq<seq<nat>>, m: nat, b: nat, bytes: seq<nat>, s: nat, j: nat)
    requires Packed(packed, m) && IsBlock(packed, m, b, bytes) && s < m && j < 32
    ensures Bytes(bytes) && Nibble(bytes, s, j) == CodeOrZero(packed, m, 32 * b + j, s)
  {
    hide Packed, CodeOrZero;
    var i := 16 * s + j % 16;
    assert i / 16 == s && i % 16 == j % 16;
    assert bytes[i] == BlockByte(packed, m, b, s, j % 16);
  }

  /** Transposed into a block and summed by the kernel, vector `32b + j` comes out in lane `j`. */
  lemma {:induction false} LaneIsVector(packed: seq<seq<nat>>, m: nat, lut4: seq<nat>, b: nat, bytes: seq<nat>,
      j: nat, k: nat)
    requires Packed(packed, m) && IsBlock(packed, m, b, bytes) && |lut4| == 16 * m && Bytes(lut4)
    requires j < 32 && 32 * b + j < |packed| && k <= m
    ensures Input(bytes, lut4, m) && LaneSum(bytes, lut4, m, j, 0, k) == CodeSum(packed, m, lut4, 32 * b + j, k)
  {
    hide Packed, Code, BlockByte;
    BlockInput(packed, m, b, bytes);
    if k > 0 {
      LaneIsVector(packed, m, lut4, b, bytes, j, k - 1);
      BlockNibble(packed, m, b, bytes, k - 1, j);
    }
  }

  lemma BlockInput(packed: seq<seq<nat>>, m: nat, b: nat, bytes: seq<nat>)
    requires Packed(packed, m) && IsBlock(packed, m, b, bytes)
    ensures Bytes(bytes)
  {
    hide Packed, CodeOrZero;
    forall i | 0 <= i < |bytes| ensures bytes[i] < U8 {
      assert bytes[i] == BlockByte(packed, m, b, i / 16, i % 16);
    }
  }

  /** Every vector's distance is the sum of its entries, modulo 65536. */
  ghost predicate Scanned(packed: seq<seq<nat>>, m: nat, lut4: seq<nat>, dists: seq<nat>, n: nat)
    requires Packed(packed, m) && |lut4| == 16 * m && |dists| == |packed| && n <= |packed|
  {
    forall v :: 0 <= v < n ==> dists[v] == CodeSum(packed, m, lut4, v, m) % U16
  }

  method ScanBlock(packed: seq<seq<nat>>, m: nat, lut4: seq<nat>, b: nat, bytes: seq<nat>, dists: array<nat>)
    requires Packed(packed, m) && |lut4| == 16 * m && Bytes(lut4) && IsBlock(packed, m, b, bytes)
    requires dists.Length == |packed| && 32 * b < |packed| && Scanned(packed, m, lut4, dists[..], 32 * b)
    modifies dists
    ensures Scanned(packed, m, lut4, dists[..], if 32 * b + 32 < |packed| then 32 * b + 32 else |packed|)
  {
    hide Packed, IsBlock, CodeSum, LaneSum;
    BlockInput(packed, m, b, bytes);
    BlockLength(packed, m, b, bytes);
    var out := new nat[32];
    Baseline(bytes, lut4, m, out);
    ghost var was := dists[..];
    for j := 0 to 32
      invariant forall i :: 0 <= i < 32 ==> out[i] == Wide(bytes, lut4, m, i)
      invariant forall v :: 0 <= v < 32 * b ==> dists[v] == was[v]
      invariant forall i :: 0 <= i < j && 32 * b + i < |packed| ==> dists[32 * b + i] == out[i]
    {
      var v := 32 * b + j;
      if v < |packed| {
        dists[v] := out[j];
      }
    }
    var n := if 32 * b + 32 < |packed| then 32 * b + 32 else |packed|;
    forall v | 0 <= v < n ensures dists[v] == CodeSum(packed, m, lut4, v, m) % U16 {
      if v >= 32 * b {
        LaneIsVector(packed, m, lut4, b, bytes, v - 32 * b, m);
        assert dists[32 * b + (v - 32 * b)] == out[v - 32 * b];
      }
    }
  }

  lemma BlockLength(packed: seq<seq<nat>>, m: nat, b: nat, bytes: seq<nat>)
    requires Packed(packed, m) && IsBlock(packed, m, b, bytes)
    ensures |bytes| == 16 * m
  {
  }

  method Scan(packed: seq<seq<nat>>, m: nat, lut4: seq<nat>, bytes: array<nat>) returns (dists: array<nat>)
    requires Packed(packed, m) && |lut4| == 16 * m && Bytes(lut4)
    requires Encoded(packed, m, bytes[..], Blocks(|packed|))
    ensures fresh(dists) && dists.Length == |packed| && Scanned(packed, m, lut4, dists[..], |packed|)
  {
    hide Packed, IsBlock, CodeSum, BlockStart;
    dists := new nat[|packed|];
    ghost var n := 0;
    for b := 0 to Blocks(|packed|)
      invariant n == (if 32 * b < |packed| then 32 * b else |packed|) && Scanned(packed, m, lut4, dists[..], n)
      invariant fresh(dists) && bytes[..] == old(bytes[..])
    {
      ScanBlock(packed, m, lut4, b, bytes[BlockStart(m, b)..BlockStart(m, b) + 16 * m], dists);
      n := if 32 * b + 32 < |packed| then 32 * b + 32 else |packed|;
    }
  }

  // ----- what the order of the sums means -----

  /** The distance the unquantized table gives to vector `v`, over the first `k` segments. */
  function TableDist(packed: seq<seq<nat>>, m: nat, rows: seq<real>, v: nat, k: nat): real
    requires Packed(packed, m) && v < |packed| && |rows| == 16 * m && k <= m
  {
    if k == 0 then 0.0 else TableDist(packed, m, rows, v, k - 1) + At(rows, k - 1, Code(packed, m, v, k - 1))
  }

  function MinSum(segMin: seq<real>, k: nat): real
    requires k <= |segMin|
  {
    if k == 0 then 0.0 else MinSum(segMin, k - 1) + segMin[k - 1]
  }

  ghost predicate TableFor(rows: seq<real>, m: nat, segMin: seq<real>, scale: real, lut4: seq<nat>) {
    && |rows| == 16 * m && |segMin| == m && SegMins(rows, m, segMin) && IsScale(rows, m, segMin, scale)
    && IsTable(rows, m, segMin, scale, lut4)
  }

  /** Within half of `k`, and for positive `k` not all the way down. */
  ghost predicate Near(sum: nat, x: real, k: nat) {
    && x - k as real / 2.0 <= sum as real <= x + k as real / 2.0
    && (k > 0 ==> x - k as real / 2.0 < sum as real)
  }

  /** The integer sum is within half a unit per segment of the scaled distance above the minima. */
  lemma {:induction false} SumWithinHalfM(packed: seq<seq<nat>>, rows: seq<real>, m: nat, segMin: seq<real>,
                                         scale: real, lut4: seq<nat>, v: nat, k: nat)
    requires Packed(packed, m) && v < |packed| && k <= m && TableFor(rows, m, segMin, scale, lut4)
    ensures Near(CodeSum(packed, m, lut4, v, k), Mul(TableDist(packed, m, rows, v, k) - MinSum(segMin, k), scale), k)
    ensures CodeSum(packed, m, lut4, v, k) <= 15 * k
  {
    hide Packed, Code, SegMins, IsScale, IsTable, At, Mul;
    if k == 0 {
      ZeroTimes(scale);
    } else {
      SumWithinHalfM(packed, rows, m, segMin, scale, lut4, v, k - 1);
      var c := Code(packed, m, v, k - 1);
      TableEntry(rows, m, segMin, scale, lut4, k - 1, c);
      TimesAdds(TableDist(packed, m, rows, v, k - 1) - MinSum(segMin, k - 1), At(rows, k - 1, c) - segMin[k - 1],
          scale);
      SameDifference(TableDist(packed, m, rows, v, k - 1), MinSum(segMin, k - 1), At(rows, k - 1, c), segMin[k - 1],
          scale);
    }
  }

  lemma ZeroTimes(scale: real)
    ensures Mul(0.0 - 0.0, scale) == 0.0
  {
  }

  lemma TimesAdds(x: real, y: real, scale: real)
    ensures Mul(x + y, scale) == Mul(x, scale) + Mul(y, scale)
  {
  }

  lemma SameDifference(d: real, mins: real, x: real, mn: real, scale: real)
    ensures Mul(d + x - (mins + mn), scale) == Mul((d - mins) + (x - mn), scale)
  {
    assert d + x - (mins + mn) == (d - mins) + (x - mn);
  }

  /** Two vectors whose table distances are `m` scaled units apart keep their order in the scan. */
  lemma FarApartKeepOrder(packed: seq<seq<nat>>, rows: seq<real>, m: nat, segMin: seq<real>, scale: real,
                          lut4: seq<nat>, dists: seq<nat>, v: nat, w: nat)
    requires Packed(packed, m) && v < |packed| && w < |packed| && TableFor(rows, m, segMin, scale, lut4)
    requires |lut4| == 16 * m && |segMin| == m && |rows| == 16 * m
    requires 0 < m && 15 * m < U16 && |dists| == |packed| && Scanned(packed, m, lut4, dists, |packed|)
    requires Mul(TableDist(packed, m, rows, w, m) - TableDist(packed, m, rows, v, m), scale) >= m as real
    ensures dists[v] < dists[w]
  {
    hide *;
    SumWithinHalfM(packed, rows, m, segMin, scale, lut4, v, m);
    SumWithinHalfM(packed, rows, m, segMin, scale, lut4, w, m);
    var dv, dw, mins := TableDist(packed, m, rows, v, m), TableDist(packed, m, rows, w, m), MinSum(segMin, m);
    var sv, sw := CodeSum(packed, m, lut4, v, m), CodeSum(packed, m, lut4, w, m);
    TimesAdds(dv - mins, dw - dv, scale);
    SameGap(dv, dw, mins, scale);
    GapWins(sv, sw, m, Mul(dv - mins, scale), Mul(dw - dv, scale));
    ScannedAt(packed, m, lut4, dists, v);
    ScannedAt(packed, m, lut4, dists, w);
  }

  lemma ScannedAt(packed: seq<seq<nat>>, m: nat, lut4: seq<nat>, dists: seq<nat>, v: nat)
    requires Packed(packed, m) && |lut4| == 16 * m && |dists| == |packed| && v < |packed|
    requires Scanned(packed, m, lut4, dists, |packed|) && CodeSum(packed, m, lut4, v, m) < U16
    ensures dists[v] == CodeSum(packed, m, lut4, v, m)
  {
  }

  /** A gap of `m` outweighs two roundings by half of `m`. */
  lemma GapWins(v: nat, w: nat, m: nat, x: real, gap: real)
    requires Near(v, x, m) && Near(w, x + gap, m) && gap >= m as real && m > 0
    ensures v < w
  {
    assert (w as real) > (v as real);
  }

  lemma SameGap(dv: real, dw: real, mins: real, scale: real)
    ensures Mul(dw - mins, scale) == Mul((dv - mins) + (dw - dv), scale)
  {
    assert dw - mins == (dv - mins) + (dw - dv);
  }

  /** One query: build the table, scan all blocks. Every distance is the exact integer sum, and vectors
      far enough apart come out in order. */
  method ScanQuery(packed: seq<seq<nat>>, m: nat, rows: seq<real>, bytes: array<nat>, lut4: array<nat>)
    returns (dists: array<nat>, segMin: seq<real>, scale: real)
    requires Packed(packed, m) && |rows| == 16 * m && lut4.Length == 16 * m && lut4 != bytes && 0 < m && 15 * m < U16
    requires Encoded(packed, m, bytes[..], Blocks(|packed|))
    modifies lut4
    ensures fresh(dists) && dists.Length == |packed| && TableFor(rows, m, segMin, scale, lut4[..])
    ensures forall v :: 0 <= v < |packed| ==> dists[v] == CodeSum(packed, m, lut4[..], v, m)
    ensures forall v, w :: 0 <= v < |packed| && 0 <= w < |packed|
              && Mul(TableDist(packed, m, rows, w, m) - TableDist(packed, m, rows, v, m), scale) >= m as real
              ==> dists[v] < dists[w]
  {
    hide Packed, Encoded, CodeSum, Scanned, TableDist, IsSegMin, IsScale, Quantized, Mul;
    segMin, scale := BuildLut4(rows, m, lut4);
    ghost var table := lut4[..];
    dists := Scan(packed, m, lut4[..], bytes);
    assert lut4[..] == table;
    forall v | 0 <= v < |packed| ensures dists[v] == CodeSum(packed, m, table, v, m) {
      SumWithinHalfM(packed, rows, m, segMin, scale, table, v, m);
      ScannedAt(packed, m, table, dists[..], v);
    }
    forall v, w | 0 <= v < |packed| && 0 <= w < |packed|
                  && Mul(TableDist(packed, m, rows, w, m) - TableDist(packed, m, rows, v, m), scale) >= m as real
      ensures dists[v] < dists[w]
    {
      FarApartKeepOrder(packed, rows, m, segMin, scale, table, dists[..], v, w);
    }
  }
}
