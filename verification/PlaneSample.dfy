/** What the plane's trainers learn from their sample (scripts/spike_plane_quant.cpp:409-427): range, mean
    magnitude and mean square of every dimension. */
module PlaneSample {
  import opened Numbers
  import opened Vectors
  import SaqDp

  /** The largest finite 32-bit float. */
  const FLOAT_MAX: real := 340282346638528859811704183484516925440.0

  type Rows = seq<seq<real>>

  /** The code goes on only with at least one row. */
  ghost predicate SampleOk(sample: Rows, dims: nat) {
    && sample != []
    && (forall i :: 0 <= i < |sample| ==> |sample[i]| == dims)
    && forall i, e :: 0 <= i < |sample| && 0 <= e < dims ==> -FLOAT_MAX <= sample[i][e] <= FLOAT_MAX
  }

  ghost predicate Constant(sample: Rows, dims: nat, e: nat)
    requires SampleOk(sample, dims) && e < dims
  {
    forall i :: 0 <= i < |sample| ==> sample[i][e] == sample[0][e]
  }

  /** `lo` and `hi` are the least and greatest of the first `n` values, the start values before any. */
  ghost predicate IsRange(sample: Rows, dims: nat, e: nat, n: nat, lo: real, hi: real)
    requires SampleOk(sample, dims) && e < dims && n <= |sample|
  {
    if n == 0 then lo == FLOAT_MAX && hi == -FLOAT_MAX
    else
      && (forall i :: 0 <= i < n ==> lo <= sample[i][e] <= hi)
      && (exists i :: 0 <= i < n && sample[i][e] == lo)
      && (exists i :: 0 <= i < n && sample[i][e] == hi)
  }

  ghost function SumAbs(sample: Rows, dims: nat, e: nat, n: nat): real
    requires SampleOk(sample, dims) && e < dims && n <= |sample|
  {
    if n == 0 then 0.0 else SumAbs(sample, dims, e, n - 1) + Abs(sample[n - 1][e])
  }

  function Share(x: real, rows: nat): real
    requires rows > 0
  {
    Mul(x, x) / rows as real
  }

  /** The squares of the first `n` values, each divided by the number of rows; no mean is taken off. */
  ghost function MeanSquare(sample: Rows, dims: nat, e: nat, n: nat): real
    requires SampleOk(sample, dims) && e < dims && n <= |sample|
  {
    if n == 0 then 0.0 else MeanSquare(sample, dims, e, n - 1) + Share(sample[n - 1][e], |sample|)
  }

  ghost predicate Summary(sample: Rows, dims: nat, vars: seq<real>, st: SaqDp.Stats)
    requires SampleOk(sample, dims)
  {
    && |vars| == |st.vmin| == |st.vmax| == |st.meanAbs| == dims
    && forall e :: 0 <= e < dims ==>
         && IsRange(sample, dims, e, |sample|, st.vmin[e], st.vmax[e])
         && st.meanAbs[e] * |sample| as real == SumAbs(sample, dims, e, |sample|)
         && vars[e] == MeanSquare(sample, dims, e, |sample|)
  }

  /** One value widens the range it is added to. */
  lemma RangeGrows(sample: Rows, dims: nat, e: nat, n: nat, lo: real, hi: real)
    requires SampleOk(sample, dims) && e < dims && n < |sample| && IsRange(sample, dims, e, n, lo, hi)
    ensures var v := sample[n][e];
      IsRange(sample, dims, e, n + 1, if v < lo then v else lo, if hi < v then v else hi)
  {
    var v := sample[n][e];
    var lo', hi' := if v < lo then v else lo, if hi < v then v else hi;
    if n > 0 {
      var i :| 0 <= i < n && sample[i][e] == lo;
      var j :| 0 <= j < n && sample[j][e] == hi;
      assert sample[if v < lo then n else i][e] == lo' && sample[if hi < v then n else j][e] == hi';
    } else {
      assert sample[0][e] == lo' == hi';
    }
  }

  /** The accumulators of a pass after the first `n` rows. */
  ghost predicate Passed(sample: Rows, dims: nat, e: nat, n: nat, lo: real, hi: real, sum: real)
    requires SampleOk(sample, dims) && e < dims && n <= |sample|
  {
    IsRange(sample, dims, e, n, lo, hi) && sum == SumAbs(sample, dims, e, n)
  }

  /** The first pass over the sample: ranges and sums of magnitudes. */
  method Ranges(sample: Rows, dims: nat) returns (vmin: array<real>, vmax: array<real>, sums: array<real>)
    requires SampleOk(sample, dims)
    ensures fresh(vmin) && fresh(vmax) && fresh(sums) && vmin != vmax && vmin != sums && vmax != sums
    ensures vmin.Length == vmax.Length == sums.Length == dims
    ensures forall e :: 0 <= e < dims ==> Passed(sample, dims, e, |sample|, vmin[e], vmax[e], sums[e])
  {
    hide IsRange;
    vmin, vmax, sums := new real[dims](_ => FLOAT_MAX), new real[dims](_ => -FLOAT_MAX), new real[dims](_ => 0.0);
    forall e | 0 <= e < dims ensures Passed(sample, dims, e, 0, vmin[e], vmax[e], sums[e]) {
      NoRange(sample, dims, e);
    }
    for i := 0 to |sample|
      invariant forall e :: 0 <= e < dims ==> Passed(sample, dims, e, i, vmin[e], vmax[e], sums[e])
    {
      for e := 0 to dims
        invariant forall f :: 0 <= f < e ==> Passed(sample, dims, f, i + 1, vmin[f], vmax[f], sums[f])
        invariant forall f :: e <= f < dims ==> Passed(sample, dims, f, i, vmin[f], vmax[f], sums[f])
      {
        var v := sample[i][e];
        RangeGrows(sample, dims, e, i, vmin[e], vmax[e]);
        vmin[e] := if v < vmin[e] then v else vmin[e];
        vmax[e] := if vmax[e] < v then v else vmax[e];
        sums[e] := sums[e] + Abs(v);
      }
    }
  }

  lemma NoRange(sample: Rows, dims: nat, e: nat)
    requires SampleOk(sample, dims) && e < dims
    ensures IsRange(sample, dims, e, 0, FLOAT_MAX, -FLOAT_MAX)
  {
  }

  /** The second pass: mean squares. */
  method MeanSquares(sample: Rows, dims: nat) returns (vars: array<real>)
    requires SampleOk(sample, dims)
    ensures fresh(vars) && vars.Length == dims
    ensures forall e :: 0 <= e < dims ==> vars[e] == MeanSquare(sample, dims, e, |sample|)
  {
    hide Share;
    vars := new real[dims](_ => 0.0);
    for i := 0 to |sample|
      invariant forall e :: 0 <= e < dims ==> vars[e] == MeanSquare(sample, dims, e, i)
    {
      for e := 0 to dims
        invariant forall f :: 0 <= f < e ==> vars[f] == MeanSquare(sample, dims, f, i + 1)
        invariant forall f :: e <= f < dims ==> vars[f] == MeanSquare(sample, dims, f, i)
      {
        vars[e] := vars[e] + Share(sample[i][e], |sample|);
      }
    }
  }

  method Gather(sample: Rows, dims: nat) returns (vars: seq<real>, st: SaqDp.Stats)
    requires SampleOk(sample, dims)
    ensures Summary(sample, dims, vars, st)
  {
    hide IsRange, SumAbs, MeanSquare;
    var vmin, vmax, sums := Ranges(sample, dims);
    ghost var lows, highs, totals := vmin[..], vmax[..], sums[..];
    var rows := |sample| as real;
    for e := 0 to dims
      invariant vmin[..] == lows && vmax[..] == highs
      invariant forall f :: 0 <= f < e ==> sums[f] * rows == totals[f]
      invariant forall f :: e <= f < dims ==> sums[f] == totals[f]
    {
      QuotientBack(sums[e], rows);
      sums[e] := sums[e] / rows;
    }
    var squares := MeanSquares(sample, dims);
    vars, st := squares[..], SaqDp.Stats(vmin[..], vmax[..], sums[..]);
    assert forall e :: 0 <= e < dims ==> Passed(sample, dims, e, |sample|, lows[e], highs[e], totals[e]);
  }

  lemma QuotientBack(x: real, n: real)
    requires n > 0.0
    ensures x / n * n == x
  {
  }

  /** A dimension's range is a point exactly when the sample is constant in it. */
  lemma ConstantIff(sample: Rows, dims: nat, vars: seq<real>, st: SaqDp.Stats, e: nat)
    requires SampleOk(sample, dims) && Summary(sample, dims, vars, st) && e < dims
    ensures st.vmin[e] <= st.vmax[e]
    ensures st.vmin[e] == st.vmax[e] <==> Constant(sample, dims, e)
  {
    hide SumAbs, MeanSquare;
    assert IsRange(sample, dims, e, |sample|, st.vmin[e], st.vmax[e]);
    assert st.vmin[e] <= sample[0][e] <= st.vmax[e];
  }

  // ----- what the statistics mean -----

  function Column(sample: Rows, dims: nat, e: nat): (c: seq<real>)
    requires SampleOk(sample, dims) && e < dims
    ensures |c| == |sample| && forall i :: 0 <= i < |c| ==> c[i] == sample[i][e]
  {
    seq(|sample|, i requires 0 <= i < |sample| => sample[i][e])
  }

  /** The variance is the inner product of the dimension's values with themselves, by the number of rows. */
  lemma {:induction false} MeanSquareIsDot(sample: Rows, dims: nat, e: nat, n: nat)
    requires SampleOk(sample, dims) && e < dims && n <= |sample|
    ensures MeanSquare(sample, dims, e, n) * |sample| as real
            == Dot(Column(sample, dims, e), Column(sample, dims, e), n)
  {
    if n > 0 {
      hide Mul;
      MeanSquareIsDot(sample, dims, e, n - 1);
      var x := sample[n - 1][e];
      QuotientBack(Mul(x, x), |sample| as real);
    }
  }

  /** What it costs to stand for the first `n` values by their sign times `scale`. */
  ghost function SignCost(sample: Rows, dims: nat, e: nat, n: nat, scale: real): real
    requires SampleOk(sample, dims) && e < dims && n <= |sample|
  {
    if n == 0 then 0.0
    else
      var x := sample[n - 1][e];
      var miss := x - if x >= 0.0 then scale else -scale;
      SignCost(sample, dims, e, n - 1, scale) + miss * miss
  }

  lemma {:induction false} SignCostIs(sample: Rows, dims: nat, e: nat, n: nat, scale: real)
    requires SampleOk(sample, dims) && e < dims && n <= |sample|
    ensures SignCost(sample, dims, e, n, scale)
            == Parabola(scale, Dot(Column(sample, dims, e), Column(sample, dims, e), n),
                        SumAbs(sample, dims, e, n), n as real)
  {
    if n > 0 {
      SignCostIs(sample, dims, e, n - 1, scale);
      OneSignCost(sample[n - 1][e], scale);
      hide Mul;
      var x := sample[n - 1][e];
      OneMoreValue(scale, Dot(Column(sample, dims, e), Column(sample, dims, e), n - 1),
                   SumAbs(sample, dims, e, n - 1), (n - 1) as real, Mul(x, x), Abs(x));
    } else {
      ParabolaZero(scale);
    }
  }

  lemma OneSignCost(x: real, scale: real)
    ensures var miss := x - if x >= 0.0 then scale else -scale;
      miss * miss == Mul(x, x) - 2.0 * scale * Abs(x) + scale * scale
  {
  }

  lemma OneMoreValue(scale: real, squares: real, sum: real, count: real, square: real, value: real)
    ensures Parabola(scale, squares + square, sum + value, count + 1.0)
            == Parabola(scale, squares, sum, count) + (square - 2.0 * scale * value + scale * scale)
  {
  }

  /** The mean magnitude is the best scale for a sign code. */
  lemma SignScaleIsBest(sample: Rows, dims: nat, vars: seq<real>, st: SaqDp.Stats, e: nat, scale: real)
    requires SampleOk(sample, dims) && Summary(sample, dims, vars, st) && e < dims
    ensures SignCost(sample, dims, e, |sample|, st.meanAbs[e]) <= SignCost(sample, dims, e, |sample|, scale)
  {
    hide SignCost, Parabola, Dot, IsRange, MeanSquare, SumAbs;
    var n := |sample| as real;
    var sum := SumAbs(sample, dims, e, |sample|);
    SignCostIs(sample, dims, e, |sample|, st.meanAbs[e]);
    SignCostIs(sample, dims, e, |sample|, scale);
    QuotientOf(st.meanAbs[e], n, sum);
    MeanIsBest(Dot(Column(sample, dims, e), Column(sample, dims, e), |sample|), sum, n, scale);
  }

  lemma QuotientOf(x: real, n: real, total: real)
    requires n > 0.0 && x * n == total
    ensures x == total / n
  {
  }

  lemma ShareBounds(x: real, rows: nat)
    requires rows > 0 && -FLOAT_MAX <= x <= FLOAT_MAX
    ensures 0.0 <= Share(x, rows) && Share(x, rows) * rows as real <= FLOAT_MAX * FLOAT_MAX
    ensures x != 0.0 ==> Share(x, rows) > 0.0
    ensures x == 0.0 ==> Share(x, rows) == 0.0
  {
    SquareBounds(x, FLOAT_MAX);
    SquareSign(x);
    hide Mul;
    QuotientSign(Mul(x, x), rows as real);
    QuotientBack(Mul(x, x), rows as real);
  }

  lemma QuotientSign(x: real, n: real)
    requires x >= 0.0 && n > 0.0
    ensures x / n >= 0.0
    ensures x > 0.0 ==> x / n > 0.0
    ensures x == 0.0 ==> x / n == 0.0
  {
  }

  lemma SquareBounds(x: real, m: real)
    requires -m <= x <= m
    ensures Mul(x, x) <= m * m
  {
    assert (m - x) * (m + x) == m * m - x * x;
  }

  lemma SquareSign(x: real)
    ensures Mul(x, x) >= 0.0
    ensures x != 0.0 ==> Mul(x, x) > 0.0
    ensures x == 0.0 ==> Mul(x, x) == 0.0
  {
    if x != 0.0 {
      SameSign(x, x);
    }
  }

  lemma SignOfProduct(y: real, n: real)
    requires n > 0.0 && y * n >= 0.0
    ensures y >= 0.0 && (y == 0.0 <==> y * n == 0.0)
  {
    if y < 0.0 {
      PositiveProduct(-y, n);
    } else if y > 0.0 {
      PositiveProduct(y, n);
    }
  }

  lemma {:induction false} MeanSquareBounds(sample: Rows, dims: nat, e: nat, n: nat)
    requires SampleOk(sample, dims) && e < dims && n <= |sample|
    ensures 0.0 <= MeanSquare(sample, dims, e, n)
    ensures MeanSquare(sample, dims, e, n) * |sample| as real <= n as real * (FLOAT_MAX * FLOAT_MAX)
    ensures MeanSquare(sample, dims, e, n) == 0.0 <==> forall i :: 0 <= i < n ==> sample[i][e] == 0.0
  {
    if n > 0 {
      MeanSquareBounds(sample, dims, e, n - 1);
      ShareBounds(sample[n - 1][e], |sample|);
    }
  }

  /** The mean square is 0 only for a dimension that is 0 throughout, so a constant dimension can well be
      given bits. */
  lemma NoVarianceIff(sample: Rows, dims: nat, vars: seq<real>, st: SaqDp.Stats, e: nat)
    requires SampleOk(sample, dims) && Summary(sample, dims, vars, st) && e < dims
    ensures 0.0 <= vars[e] <= FLOAT_MAX * FLOAT_MAX
    ensures vars[e] == 0.0 <==> Constant(sample, dims, e) && sample[0][e] == 0.0
  {
    hide SumAbs, MeanSquare, IsRange;
    MeanSquareBounds(sample, dims, e, |sample|);
    SmallerQuotient(vars[e], FLOAT_MAX * FLOAT_MAX, |sample| as real);
  }

  lemma SmallerQuotient(x: real, y: real, n: real)
    requires n > 0.0 && x * n <= n * y
    ensures x <= y
  {
    var d := y - x;
    assert d * n >= 0.0;
    SignOfProduct(d, n);
  }

  lemma {:induction false} TotalBound(vars: seq<real>, n: nat)
    requires n <= |vars| && forall e :: 0 <= e < |vars| ==> vars[e] <= FLOAT_MAX * FLOAT_MAX
    ensures SaqDp.SegCost(vars, 0, n, 0) <= n as real * (FLOAT_MAX * FLOAT_MAX)
  {
    if n > 0 {
      TotalBound(vars, n - 1);
    }
  }

  /** No sample reaches the allocation's infinity. */
  lemma SampleBelowInf(sample: Rows, dims: nat, vars: seq<real>, st: SaqDp.Stats)
    requires SampleOk(sample, dims) && Summary(sample, dims, vars, st) && dims % 8 == 0 && dims < 0x1_0000_0000
    ensures SaqDp.Variances(vars) && SaqDp.SegCost(vars, 0, |vars|, 0) < SaqDp.INF
  {
    hide Summary, SaqDp.SegCost;
    assert |vars| == dims by { SummarySize(sample, dims, vars, st); }
    forall e | 0 <= e < dims ensures 0.0 <= vars[e] <= FLOAT_MAX * FLOAT_MAX {
      NoVarianceIff(sample, dims, vars, st, e);
    }
    TotalBound(vars, dims);
    BelowInf(dims);
  }

  lemma SummarySize(sample: Rows, dims: nat, vars: seq<real>, st: SaqDp.Stats)
    requires SampleOk(sample, dims) && Summary(sample, dims, vars, st)
    ensures |vars| == |st.vmin| == |st.vmax| == |st.meanAbs| == dims
  {
  }

  lemma BelowInf(n: nat)
    requires n < 0x1_0000_0000
    ensures n as real * (FLOAT_MAX * FLOAT_MAX) < SaqDp.INF
  {
    assert FLOAT_MAX * FLOAT_MAX < 1e80;
    assert n as real * (FLOAT_MAX * FLOAT_MAX) <= n as real * 1e80;
  }
}
