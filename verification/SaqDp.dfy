/** Bit allocation by dynamic programming (scripts/spike_plane_quant.cpp, `train_saq`):
    the table, its back-pointers, and the walk that turns them into per-dimension quantizers. */
module SaqDp {
  import opened Quantizers

  const INF: real := 1e300

  /** The five width choices and their distortion ratios. */
  function Width(k: nat): nat
    requires k < 5
  {
    if k == 0 then 0 else if k == 1 then 1 else if k == 2 then 2 else if k == 3 then 4 else 8
  }

  function Ratio(k: nat): real
    requires k < 5
  {
    if k == 0 then 1.0 else if k == 1 then 0.3634 else if k == 2 then 0.1175 else if k == 3 then 0.0149 else 0.00022
  }

  /** Distortion of `len` dimensions from `i` at choice `k`. */
  function SegCost(vars: seq<real>, i: nat, len: nat, k: nat): real
    requires i + len <= |vars| && k < 5
  {
    if len == 0 then 0.0 else SegCost(vars, i, len - 1, k) + vars[i + len - 1] * Ratio(k)
  }

  // ----- what is being optimised: one width choice per group of eight dimensions -----

  predicate Choices(ws: seq<nat>) {
    forall g :: 0 <= g < |ws| ==> ws[g] < 5
  }

  function Bytes(ws: seq<nat>): nat
    requires Choices(ws)
  {
    if ws == [] then 0 else Width(ws[0]) + Bytes(ws[1..])
  }

  function Distortion(vars: seq<real>, i: nat, ws: seq<nat>): real
    requires Choices(ws) && i + 8 * |ws| <= |vars|
    decreases ws
  {
    if ws == [] then 0.0 else SegCost(vars, i, 8, ws[0]) + Distortion(vars, i + 8, ws[1..])
  }

  /** The distortion dimension by dimension: variance times the ratio of the width its group gets. */
  function FlatDistortion(vars: seq<real>, ws: seq<nat>, n: nat): real
    requires Choices(ws) && n <= 8 * |ws| <= |vars|
  {
    if n == 0 then 0.0
    else
      var ratio := match Width(ws[(n - 1) / 8])
        case 0 => 1.0
        case 1 => 0.3634
        case 2 => 0.1175
        case 4 => 0.0149
        case _ => 0.00022;
      FlatDistortion(vars, ws, n - 1) + vars[n - 1] * ratio
  }

  lemma RatioOf(k: nat)
    requires k < 5
    ensures Ratio(k) == match Width(k)
                        case 0 => 1.0
                        case 1 => 0.3634
                        case 2 => 0.1175
                        case 4 => 0.0149
                        case _ => 0.00022
  {
  }

  lemma {:induction false} FlatInGroup(vars: seq<real>, ws: seq<nat>, g: nat, n: nat)
    requires Choices(ws) && g < |ws| && n <= 8 && 8 * |ws| <= |vars|
    ensures FlatDistortion(vars, ws, 8 * g + n) == FlatDistortion(vars, ws, 8 * g) + SegCost(vars, 8 * g, n, ws[g])
  {
    hide Ratio, Width;
    if n > 0 {
      FlatInGroup(vars, ws, g, n - 1);
      assert (8 * g + n - 1) / 8 == g;
      RatioOf(ws[g]);
    }
  }

  lemma {:induction false} DistortionFrom(vars: seq<real>, ws: seq<nat>, g: nat)
    requires Choices(ws) && g <= |ws| && 8 * |ws| <= |vars|
    ensures FlatDistortion(vars, ws, 8 * |ws|)
            == FlatDistortion(vars, ws, 8 * g) + Distortion(vars, 8 * g, ws[g..])
    decreases |ws| - g
  {
    hide SegCost, Width;
    if g < |ws| {
      DistortionFrom(vars, ws, g + 1);
      FlatInGroup(vars, ws, g, 8);
      assert ws[g..][1..] == ws[g + 1..];
    }
  }

  /** What the allocation minimises, spelt out dimension by dimension. */
  lemma DistortionIsFlat(vars: seq<real>, ws: seq<nat>)
    requires Choices(ws) && 8 * |ws| <= |vars|
    ensures Distortion(vars, 0, ws) == FlatDistortion(vars, ws, 8 * |ws|)
  {
    DistortionFrom(vars, ws, 0);
    assert ws[0..] == ws;
  }

  /** Bits of the first `n` dimensions. */
  function FlatBits(ws: seq<nat>, n: nat): nat
    requires Choices(ws) && n <= 8 * |ws|
  {
    if n == 0 then 0 else FlatBits(ws, n - 1) + Width(ws[(n - 1) / 8])
  }

  lemma {:induction false} BitsInGroup(ws: seq<nat>, g: nat, n: nat)
    requires Choices(ws) && g < |ws| && n <= 8
    ensures FlatBits(ws, 8 * g + n) == FlatBits(ws, 8 * g) + n * Width(ws[g])
  {
    hide Width;
    if n > 0 {
      BitsInGroup(ws, g, n - 1);
      LastBits(ws, g, n);
      hide *;
      OneMoreTime(n, Width(ws[g]));
    } else {
      assert 0 * Width(ws[g]) == 0;
    }
  }

  lemma LastBits(ws: seq<nat>, g: nat, n: nat)
    requires Choices(ws) && g < |ws| && 0 < n <= 8
    ensures FlatBits(ws, 8 * g + n) == FlatBits(ws, 8 * g + n - 1) + Width(ws[g])
  {
    hide Width;
    assert (8 * g + n - 1) / 8 == g;
  }

  lemma OneMoreTime(n: nat, w: nat)
    requires n > 0
    ensures n * w == (n - 1) * w + w
  {
  }

  lemma {:induction false} BytesFrom(ws: seq<nat>, g: nat)
    requires Choices(ws) && g <= |ws|
    ensures FlatBits(ws, 8 * |ws|) == FlatBits(ws, 8 * g) + 8 * Bytes(ws[g..])
    decreases |ws| - g
  {
    hide Width;
    if g < |ws| {
      BytesFrom(ws, g + 1);
      BitsInGroup(ws, g, 8);
      assert ws[g..][1..] == ws[g + 1..];
    }
  }

  /** An allocation's bytes hold exactly the bits of its dimensions. */
  lemma BytesHoldBits(ws: seq<nat>)
    requires Choices(ws)
    ensures 8 * Bytes(ws) == FlatBits(ws, 8 * |ws|)
  {
    BytesFrom(ws, 0);
    assert ws[0..] == ws;
  }

  ghost predicate Variances(vars: seq<real>) {
    (forall e :: 0 <= e < |vars| ==> vars[e] >= 0.0) && |vars| % 8 == 0
  }

  predicate Aligned(vars: seq<real>, i: nat) {
    i <= |vars| && (|vars| - i) % 8 == 0
  }

  // ----- the recurrence -----

  /** Least distortion of the dimensions from `i` within `b` bytes. */
  function Opt(vars: seq<real>, i: nat, b: nat): real
    requires Aligned(vars, i)
    decreases |vars| - i, 5
  {
    if i == |vars| then 0.0 else Best(vars, i, b, 4)
  }

  /** The best of the choices 0..k for the group at `i`; choice 0 costs no bytes. */
  function Best(vars: seq<real>, i: nat, b: nat, k: nat): real
    requires Aligned(vars, i) && i < |vars| && k < 5
    decreases |vars| - i, k
  {
    var here :=
      if Width(k) <= b then SegCost(vars, i, 8, k) + Opt(vars, i + 8, b - Width(k)) else INF;
    if k == 0 then here
    else
      var before := Best(vars, i, b, k - 1);
      if here < before then here else before
  }

  /** No assignment within the budget beats the recurrence, */
  lemma {:induction false} OptIsLower(vars: seq<real>, i: nat, b: nat, ws: seq<nat>)
    requires Aligned(vars, i) && Choices(ws) && i + 8 * |ws| == |vars| && Bytes(ws) <= b
    ensures Opt(vars, i, b) <= Distortion(vars, i, ws)
    decreases ws
  {
    if ws != [] {
      OptIsLower(vars, i + 8, b - Width(ws[0]), ws[1..]);
      BestIsLower(vars, i, b, 4, ws[0]);
    }
  }

  lemma {:induction false} BestIsLower(vars: seq<real>, i: nat, b: nat, k: nat, choice: nat)
    requires Aligned(vars, i) && i < |vars| && choice <= k < 5 && Width(choice) <= b
    ensures Best(vars, i, b, k) <= SegCost(vars, i, 8, choice) + Opt(vars, i + 8, b - Width(choice))
  {
    if choice < k {
      BestIsLower(vars, i, b, k - 1, choice);
    }
  }

  /** and below the sentinel some assignment attains it. */
  lemma {:induction false} OptIsAttained(vars: seq<real>, i: nat, b: nat) returns (ws: seq<nat>)
    requires Aligned(vars, i) && Opt(vars, i, b) < INF && Variances(vars)
    ensures Choices(ws) && i + 8 * |ws| == |vars| && Bytes(ws) <= b
    ensures Opt(vars, i, b) == Distortion(vars, i, ws)
    decreases |vars| - i
  {
    if i == |vars| {
      ws := [];
    } else {
      var k := BestIsAttained(vars, i, b, 4);
      SegCostNonNegative(vars, i, 8, k);
      var rest := OptIsAttained(vars, i + 8, b - Width(k));
      ws := [k] + rest;
    }
  }

  lemma {:induction false} BestIsAttained(vars: seq<real>, i: nat, b: nat, k: nat) returns (choice: nat)
    requires Aligned(vars, i) && i < |vars| && k < 5 && Best(vars, i, b, k) < INF
    ensures choice <= k && Width(choice) <= b
    ensures Best(vars, i, b, k) == SegCost(vars, i, 8, choice) + Opt(vars, i + 8, b - Width(choice))
  {
    if k == 0 || (Width(k) <= b && Best(vars, i, b, k) == SegCost(vars, i, 8, k) + Opt(vars, i + 8, b - Width(k))) {
      choice := k;
    } else {
      choice := BestIsAttained(vars, i, b, k - 1);
    }
  }

  lemma {:induction false} SegCostNonNegative(vars: seq<real>, i: nat, len: nat, k: nat)
    requires Variances(vars) && i + len <= |vars| && k < 5
    ensures SegCost(vars, i, len, k) >= 0.0
  {
    if len > 0 {
      SegCostNonNegative(vars, i, len - 1, k);
      assert vars[i + len - 1] * Ratio(k) >= 0.0;
    }
  }

  lemma {:induction false} SegCostSplits(vars: seq<real>, i: nat, a: nat, len: nat, k: nat)
    requires a <= len && i + len <= |vars| && k < 5
    ensures SegCost(vars, i, len, k) == SegCost(vars, i, a, k) + SegCost(vars, i + a, len - a, k)
  {
    if a < len {
      SegCostSplits(vars, i, a, len - 1, k);
    }
  }

  /** Dropping every dimension costs no bytes, so the optimum never exceeds the total variance. */
  lemma {:induction false} OptBelowTotal(vars: seq<real>, i: nat, b: nat)
    requires Aligned(vars, i)
    ensures Opt(vars, i, b) <= SegCost(vars, i, |vars| - i, 0)
    decreases |vars| - i
  {
    if i < |vars| {
      OptBelowTotal(vars, i + 8, b);
      BestIsLower(vars, i, b, 4, 0);
      SegCostSplits(vars, i, 8, |vars| - i, 0);
    }
  }

  /** A long segment at one width is never better than its groups taken one by one. */
  lemma {:induction false} LongSegmentNoBetter(vars: seq<real>, i: nat, b: nat, groups: nat, k: nat)
    requires Aligned(vars, i) && k < 5 && i + 8 * groups <= |vars| && groups * Width(k) <= b
    ensures Opt(vars, i, b) <= SegCost(vars, i, 8 * groups, k) + Opt(vars, i + 8 * groups, b - groups * Width(k))
    decreases groups
  {
    if groups > 0 {
      var w := Width(k);
      assert groups * w == (groups - 1) * w + w && (groups - 1) * w >= 0;
      LongSegmentNoBetter(vars, i + 8, b - w, groups - 1, k);
      BestIsLower(vars, i, b, 4, k);
      SegCostSplits(vars, i, 8, 8 * groups, k);
    }
  }

  /** Bytes of a segment as the code computes them. */
  function SegBytes(len: nat, k: nat): nat
    requires k < 5
  {
    (len * Width(k) + 7) / 8
  }

  lemma WholeGroups(groups: nat, k: nat)
    requires k < 5
    ensures SegBytes(8 * groups, k) == groups * Width(k)
  {
    var n := groups * Width(k);
    assert 8 * groups * Width(k) == 8 * n;
    assert (8 * n + 7) / 8 == n;
  }

  // ----- the table -----

  /** A table entry: the optimum where whole groups remain, the sentinel elsewhere. */
  ghost function Cell(vars: seq<real>, i: nat, b: nat): real {
    if Aligned(vars, i) then Opt(vars, i, b) else INF
  }

  ghost predicate FilledFrom(vars: seq<real>, dp: array2<real>, from: nat)
    requires dp.Length0 == |vars| + 1
    reads dp
  {
    forall r: nat, b: nat :: from <= r <= |vars| && b < dp.Length1 ==> dp[r, b] == Cell(vars, r, b)
  }

  /** The back-pointer of an aligned cell: one group, at a choice that attains the optimum. */
  ghost predicate Pointer(vars: seq<real>, i: nat, b: nat, len: nat, k: nat) {
    && Aligned(vars, i) && i < |vars| && len == 8 && k < 5 && Width(k) <= b
    && Opt(vars, i, b) == SegCost(vars, i, 8, k) + Opt(vars, i + 8, b - Width(k))
  }

  ghost predicate PointersFrom(vars: seq<real>, clen: array2<nat>, cbits: array2<nat>, from: nat)
    requires clen.Length0 == cbits.Length0 == |vars| + 1 && clen.Length1 == cbits.Length1
    reads clen, cbits
  {
    forall r: nat, b: nat :: from <= r < |vars| && Aligned(vars, r) && b < clen.Length1 ==>
      Pointer(vars, r, b, clen[r, b], cbits[r, b])
  }

  /** The inner accumulation over the dimensions of one segment. */
  method SegmentCost(vars: seq<real>, i: nat, len: nat, k: nat) returns (d: real)
    requires i + len <= |vars| && k < 5
    ensures d == SegCost(vars, i, len, k)
  {
    d := 0.0;
    for e := i to i + len
      invariant d == SegCost(vars, i, e - i, k)
    {
      d := d + vars[e] * Ratio(k);
    }
  }

  /** What the cell's running best means when length `l` and choice `k` come next. */
  ghost predicate Settled(vars: seq<real>, i: nat, b: nat, best: real, len: nat, choice: nat, l: nat, k: nat)
    requires k <= 5
  {
    if !Aligned(vars, i) || i == |vars| || (l == 8 && k == 0) then
      best == INF
    else
      && best < INF && len == 8 && choice < 5 && Width(choice) <= b
      && best == SegCost(vars, i, 8, choice) + Opt(vars, i + 8, b - Width(choice))
      && best == if l == 8 then Best(vars, i, b, k - 1) else Opt(vars, i, b)
  }

  lemma FirstChoiceBelowInf(vars: seq<real>, i: nat, b: nat)
    requires Variances(vars) && SegCost(vars, 0, |vars|, 0) < INF && Aligned(vars, i) && i < |vars|
    ensures SegCost(vars, i, 8, 0) + Opt(vars, i + 8, b) < INF
  {
    OptBelowTotal(vars, i + 8, b);
    SegCostSplits(vars, i, 8, |vars| - i, 0);
    SegCostSplits(vars, 0, i, |vars|, 0);
    SegCostNonNegative(vars, 0, i, 0);
  }

  lemma SettledStep(vars: seq<real>, i: nat, b: nat, best: real, len: nat, choice: nat, l: nat, k: nat)
    requires Variances(vars) && SegCost(vars, 0, |vars|, 0) < INF
    requires k < 5 && l >= 8 && l % 8 == 0 && i + l <= |vars|
    requires Settled(vars, i, b, best, len, choice, l, k)
    ensures SegBytes(l, k) > b ==> Settled(vars, i, b, best, len, choice, l, k + 1)
    ensures SegBytes(l, k) <= b ==>
              var cand := SegCost(vars, i, l, k) + Cell(vars, i + l, b - SegBytes(l, k));
              if cand < best then l == 8 && Settled(vars, i, b, cand, 8, k, l, k + 1)
              else Settled(vars, i, b, best, len, choice, l, k + 1)
  {
    hide SegBytes, SegCost, Opt, Variances;
    WholeGroups(l / 8, k);
    SegCostNonNegative(vars, i, l, k);
    if Aligned(vars, i) {
      FirstChoiceBelowInf(vars, i, b);
      if l > 8 && SegBytes(l, k) <= b {
        LongSegmentNoBetter(vars, i, b, l / 8, k);
        assert 8 * (l / 8) == l;
      }
    }
  }

  /** The loops over segment length and width for one cell. */
  method Choose(vars: seq<real>, dp: array2<real>, i: nat, b: nat) returns (best: real, len: nat, choice: nat)
    requires Variances(vars) && SegCost(vars, 0, |vars|, 0) < INF
    requires dp.Length0 == |vars| + 1 && i < |vars| && b < dp.Length1
    requires FilledFrom(vars, dp, i + 1)
    ensures best == Cell(vars, i, b)
    ensures Aligned(vars, i) ==> Pointer(vars, i, b, len, choice)
  {
    hide SegBytes, SegCost, Opt, Best, Settled, Variances, Width, Aligned, Cell, Pointer;
    best, len, choice := INF, 0, 0;
    var l := 8;
    assert Settled(vars, i, b, best, len, choice, 8, 0) by { NothingSettled(vars, i, b); }
    while i + l <= |vars|
      invariant l % 8 == 0 && l >= 8
      invariant Settled(vars, i, b, best, len, choice, l, 0)
    {
      for k := 0 to 5
        invariant Settled(vars, i, b, best, len, choice, l, k)
      {
        SettledStep(vars, i, b, best, len, choice, l, k);
        var bytes := SegBytes(l, k);
        if bytes <= b {
          var d := SegmentCost(vars, i, l, k);
          var cand := d + dp[i + l, b - bytes];
          assert dp[i + l, b - bytes] == Cell(vars, i + l, b - bytes);
          if cand < best {
            best := cand;
            len := l % 256;
            choice := k;
          }
        }
      }
      SettledNextLength(vars, i, b, best, len, choice, l);
      l := l + 8;
    }
    SettledAtEnd(vars, i, b, best, len, choice, l);
  }

  lemma NothingSettled(vars: seq<real>, i: nat, b: nat)
    ensures Settled(vars, i, b, INF, 0, 0, 8, 0)
  {
  }

  lemma SettledNextLength(vars: seq<real>, i: nat, b: nat, best: real, len: nat, choice: nat, l: nat)
    requires l >= 8 && i < |vars| && Settled(vars, i, b, best, len, choice, l, 5)
    ensures Settled(vars, i, b, best, len, choice, l + 8, 0)
  {
  }

  lemma SettledAtEnd(vars: seq<real>, i: nat, b: nat, best: real, len: nat, choice: nat, l: nat)
    requires l >= 8 && l % 8 == 0 && i < |vars| < i + l && Settled(vars, i, b, best, len, choice, l, 0)
    ensures best == Cell(vars, i, b)
    ensures Aligned(vars, i) ==> Pointer(vars, i, b, len, choice)
  {
  }

  method FillRow(vars: seq<real>, dp: array2<real>, clen: array2<nat>, cbits: array2<nat>, i: nat)
    requires Variances(vars) && SegCost(vars, 0, |vars|, 0) < INF && i < |vars| && clen != cbits
    requires dp.Length0 == clen.Length0 == cbits.Length0 == |vars| + 1
    requires dp.Length1 == clen.Length1 == cbits.Length1
    requires FilledFrom(vars, dp, i + 1) && PointersFrom(vars, clen, cbits, i + 1)
    modifies dp, clen, cbits
    ensures FilledFrom(vars, dp, i) && PointersFrom(vars, clen, cbits, i)
  {
    hide Cell, Pointer, SegCost, Variances, Aligned;
    for b := 0 to dp.Length1
      invariant FilledFrom(vars, dp, i + 1) && PointersFrom(vars, clen, cbits, i + 1)
      invariant forall c: nat :: c < b ==> dp[i, c] == Cell(vars, i, c)
      invariant forall c: nat :: c < b && Aligned(vars, i) ==> Pointer(vars, i, c, clen[i, c], cbits[i, c])
    {
      var best, len, k := Choose(vars, dp, i, b);
      clen[i, b] := len;
      cbits[i, b] := k;
      dp[i, b] := best;
    }
  }

  /** The whole table, last dimension first. */
  method FillTable(vars: seq<real>, budget: nat)
    returns (dp: array2<real>, clen: array2<nat>, cbits: array2<nat>)
    requires Variances(vars) && SegCost(vars, 0, |vars|, 0) < INF
    ensures fresh(dp) && fresh(clen) && fresh(cbits)
    ensures dp.Length0 == clen.Length0 == cbits.Length0 == |vars| + 1
    ensures dp.Length1 == clen.Length1 == cbits.Length1 == budget + 1
    ensures FilledFrom(vars, dp, 0) && PointersFrom(vars, clen, cbits, 0)
  {
    hide Cell, Pointer, SegCost, Variances, Aligned;
    dp := new real[|vars| + 1, budget + 1]((_, _) => INF);
    clen := new nat[|vars| + 1, budget + 1]((_, _) => 0);
    cbits := new nat[|vars| + 1, budget + 1]((_, _) => 0);
    for b := 0 to budget + 1
      invariant forall c :: 0 <= c < b ==> dp[|vars|, c] == 0.0
    {
      dp[|vars|, b] := 0.0;
    }
    EmptyRow(vars);
    var i: nat := |vars|;
    while i > 0
      invariant i <= |vars|
      invariant FilledFrom(vars, dp, i) && PointersFrom(vars, clen, cbits, i)
    {
      i := i - 1;
      FillRow(vars, dp, clen, cbits, i);
    }
  }

  lemma EmptyRow(vars: seq<real>)
    ensures forall b: nat :: Cell(vars, |vars|, b) == 0.0
  {
  }

  // ----- the walk along the back-pointers -----

  lemma {:induction false} AppendChoice(vars: seq<real>, i: nat, ws: seq<nat>, k: nat)
    requires Choices(ws) && k < 5 && i + 8 * |ws| + 8 <= |vars|
    ensures Choices(ws + [k]) && Bytes(ws + [k]) == Bytes(ws) + Width(k)
    ensures Distortion(vars, i, ws + [k]) == Distortion(vars, i, ws) + SegCost(vars, i + 8 * |ws|, 8, k)
    decreases ws
  {
    if ws == [] {
      assert ws + [k] == [k] && [k][1..] == [];
    } else {
      AppendChoice(vars, i + 8, ws[1..], k);
      assert (ws + [k])[1..] == ws[1..] + [k];
    }
  }

  /** The quantizer a dimension gets at a width, from its sample statistics. */
  function Quantizer(lo: real, hi: real, meanAbs: real, bits: nat): DimQuant {
    if bits >= 2 then SKIPPED.(bits := bits, lo := lo, step := (hi - lo) / Levels(bits) as real)
    else if bits == 1 then SKIPPED.(bits := 1, signScale := meanAbs)
    else SKIPPED.(bits := bits)
  }

  /** Sample statistics of each dimension. */
  datatype Stats = Stats(vmin: seq<real>, vmax: seq<real>, meanAbs: seq<real>)

  /** Dimension `e` has the quantizer its group's choice asks for. */
  ghost predicate FollowsChoice(st: Stats, ws: seq<nat>, q: DimQuant, e: nat)
    requires Choices(ws) && e < 8 * |ws| && 8 * |ws| <= |st.vmin| == |st.vmax| == |st.meanAbs|
  {
    q == Quantizer(st.vmin[e], st.vmax[e], st.meanAbs[e], Width(ws[e / 8]))
  }

  /** The quantizers of one segment. */
  method FillSegment(st: Stats, q: array<DimQuant>, i: nat, len: nat, k: nat)
    requires k < 5 && i + len <= q.Length == |st.vmin| == |st.vmax| == |st.meanAbs|
    modifies q
    ensures forall e :: 0 <= e < q.Length && !(i <= e < i + len) ==> q[e] == old(q[e])
    ensures forall e :: i <= e < i + len ==> q[e] == Quantizer(st.vmin[e], st.vmax[e], st.meanAbs[e], Width(k))
  {
    hide Quantizer, Levels, Width;
    for e := i to i + len
      invariant forall f :: 0 <= f < q.Length && !(i <= f < e) ==> q[f] == old(q[f])
      invariant forall f :: i <= f < e ==> q[f] == Quantizer(st.vmin[f], st.vmax[f], st.meanAbs[f], Width(k))
    {
      q[e] := Quantizer(st.vmin[e], st.vmax[e], st.meanAbs[e], Width(k));
    }
  }

  lemma TrainedGrows(st: Stats, ws: seq<nat>, k: nat, before: seq<DimQuant>, after: seq<DimQuant>)
    requires Choices(ws) && k < 5 && 8 * |ws| + 8 <= |st.vmin| == |st.vmax| == |st.meanAbs|
    requires |before| == |after| == |st.vmin|
    requires forall e :: 0 <= e < 8 * |ws| ==> FollowsChoice(st, ws, before[e], e) && after[e] == before[e]
    requires forall e :: 8 * |ws| <= e < 8 * |ws| + 8 ==>
               after[e] == Quantizer(st.vmin[e], st.vmax[e], st.meanAbs[e], Width(k))
    ensures Choices(ws + [k])
    ensures forall e :: 0 <= e < 8 * |ws + [k]| ==> FollowsChoice(st, ws + [k], after[e], e)
  {
    hide Quantizer, Levels, Width;
    forall e | 0 <= e < 8 * |ws| ensures FollowsChoice(st, ws + [k], after[e], e) {
      assert FollowsChoice(st, ws, before[e], e);
    }
  }

  /** The allocation as trained: `ws` holds the width choice of each group of eight dimensions.
      No allocation within the budget has less distortion, and the branch for a tail shorter than
      a group is never taken. */
  method TrainSaq(vars: seq<real>, st: Stats, budget: nat) returns (q: array<DimQuant>, ws: seq<nat>)
    requires Variances(vars) && SegCost(vars, 0, |vars|, 0) < INF
    requires |st.vmin| == |st.vmax| == |st.meanAbs| == |vars|
    ensures Choices(ws) && 8 * |ws| == |vars| && Bytes(ws) <= budget
    ensures forall other :: Choices(other) && 8 * |other| == |vars| && Bytes(other) <= budget ==>
              Distortion(vars, 0, ws) <= Distortion(vars, 0, other)
    ensures fresh(q) && q.Length == |vars| && forall e :: 0 <= e < |vars| ==> FollowsChoice(st, ws, q[e], e)
  {
    assert |vars| % 8 == 0;
    hide SegCost, Opt, Variances, Quantizer, Levels, Distortion, Bytes, Width, FollowsChoice;
    var dp, clen, cbits := FillTable(vars, budget);
    q := new DimQuant[|vars|](_ => SKIPPED);
    ws := [];
    var i: nat, b: nat := 0, budget;
    StartOfWalk(vars, budget);
    while i < |vars|
      invariant PointersFrom(vars, clen, cbits, 0)
      invariant i == 8 * |ws| <= |vars| && Aligned(vars, i) && b <= budget
      invariant Choices(ws) && Bytes(ws) + b == budget
      invariant Distortion(vars, 0, ws) + Opt(vars, i, b) == Opt(vars, 0, budget)
      invariant forall e :: 0 <= e < i ==> FollowsChoice(st, ws, q[e], e)
    {
      var len, k := clen[i, b], cbits[i, b];
      assert Pointer(vars, i, b, len, k);
      if len == 0 {
        assert false;
      }
      AppendChoice(vars, 0, ws, k);
      WholeGroups(1, k);
      ghost var before := q[..];
      FillSegment(st, q, i, len, k);
      TrainedGrows(st, ws, k, before, q[..]);
      ws := ws + [k];
      b := b - SegBytes(len, k);
      i := i + len;
    }
    WalkIsOptimal(vars, budget, ws, b);
  }

  lemma WalkIsOptimal(vars: seq<real>, budget: nat, ws: seq<nat>, b: nat)
    requires Choices(ws) && 8 * |ws| == |vars|
    requires Distortion(vars, 0, ws) + Opt(vars, |vars|, b) == Opt(vars, 0, budget)
    ensures forall other :: Choices(other) && 8 * |other| == |vars| && Bytes(other) <= budget ==>
              Distortion(vars, 0, ws) <= Distortion(vars, 0, other)
  {
    hide Opt, Distortion, Bytes, Width;
    NothingLeft(vars, b);
    forall other | Choices(other) && 8 * |other| == |vars| && Bytes(other) <= budget
      ensures Distortion(vars, 0, ws) <= Distortion(vars, 0, other)
    {
      OptIsLower(vars, 0, budget, other);
    }
  }

  lemma StartOfWalk(vars: seq<real>, budget: nat)
    requires |vars| % 8 == 0
    ensures Aligned(vars, 0) && Bytes([]) == 0 && Distortion(vars, 0, []) == 0.0
  {
  }

  lemma NothingLeft(vars: seq<real>, b: nat)
    ensures Opt(vars, |vars|, b) == 0.0
  {
  }
}
