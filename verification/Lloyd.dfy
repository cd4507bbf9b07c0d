/** Parallel Lloyd iterations (scripts/spike_large_k.cpp, `kmeans`). */
module Lloyd {
  import opened Vectors

  type Points = seq<seq<real>>

  ghost predicate Shape(m: Points, rows: nat, dim: nat) {
    |m| == rows && forall i :: 0 <= i < rows ==> |m[i]| == dim
  }

  function Square(x: real): real {
    x * x
  }

  function SqDist(v: seq<real>, c: seq<real>, n: nat): real
    requires n <= |v| && n <= |c|
  {
    if n == 0 then 0.0 else SqDist(v, c, n - 1) + Square(v[n - 1] - c[n - 1])
  }

  /** First of the nearest among the first `k` centroids. */
  function Nearest(cents: Points, v: seq<real>, k: nat): (best: nat)
    requires 0 < k <= |cents| && forall j :: 0 <= j < |cents| ==> |cents[j]| == |v|
    ensures best < k
  {
    if k == 1 then 0
    else
      var b := Nearest(cents, v, k - 1);
      if SqDist(v, cents[k - 1], |v|) < SqDist(v, cents[b], |v|) then k - 1 else b
  }

  lemma {:induction false} NearestIsMinimal(cents: Points, v: seq<real>, k: nat, j: nat)
    requires j < k <= |cents| && forall j :: 0 <= j < |cents| ==> |cents[j]| == |v|
    ensures SqDist(v, cents[Nearest(cents, v, k)], |v|) <= SqDist(v, cents[j], |v|)
    ensures j < Nearest(cents, v, k) ==> SqDist(v, cents[Nearest(cents, v, k)], |v|) < SqDist(v, cents[j], |v|)
  {
    hide SqDist;
    if j < k - 1 {
      NearestIsMinimal(cents, v, k - 1, j);
    }
  }

  ghost predicate Sized(data: Points, cents: Points, dim: nat) {
    Shape(data, |data|, dim) && Shape(cents, |cents|, dim) && cents != []
  }

  function AssignOf(data: Points, cents: Points, i: nat): (k: nat)
    requires cents != [] && i < |data| && forall j :: 0 <= j < |cents| ==> |cents[j]| == |data[i]|
    ensures k < |cents|
  {
    Nearest(cents, data[i], |cents|)
  }

  /** The assignment step. */
  ghost function Assignment(data: Points, cents: Points, dim: nat): (asg: seq<nat>)
    requires Sized(data, cents, dim)
    ensures |asg| == |data| && forall i :: 0 <= i < |data| ==> asg[i] == AssignOf(data, cents, i) < |cents|
  {
    seq(|data|, i requires 0 <= i < |data| => AssignOf(data, cents, i))
  }

  // ----- the update step, with no notion of threads -----

  /** Sum of coordinate `d` over the points lo..hi assigned to cluster `k`. */
  ghost function ClusterSum(data: Points, asg: seq<nat>, dim: nat, k: nat, d: nat, lo: nat, hi: nat): real
    requires Shape(data, |data|, dim) && |asg| == |data| && d < dim && lo <= hi <= |data|
  {
    if hi == lo then 0.0
    else ClusterSum(data, asg, dim, k, d, lo, hi - 1) + if asg[hi - 1] == k then data[hi - 1][d] else 0.0
  }

  ghost function ClusterCount(asg: seq<nat>, k: nat, lo: nat, hi: nat): nat
    requires lo <= hi <= |asg|
  {
    if hi == lo then 0 else ClusterCount(asg, k, lo, hi - 1) + if asg[hi - 1] == k then 1 else 0
  }

  /** Means of the clusters; an empty cluster keeps its centroid. */
  ghost function Updated(data: Points, asg: seq<nat>, cents: Points, dim: nat): (r: Points)
    requires Sized(data, cents, dim) && |asg| == |data|
    ensures Shape(r, |cents|, dim)
    ensures forall k, d :: 0 <= k < |cents| && 0 <= d < dim ==> r[k][d] == MeanOrKept(data, asg, cents, dim, k, d)
  {
    seq(|cents|, k requires 0 <= k < |cents| =>
      seq(dim, d requires 0 <= d < dim => MeanOrKept(data, asg, cents, dim, k, d)))
  }

  ghost function MeanOrKept(data: Points, asg: seq<nat>, cents: Points, dim: nat, k: nat, d: nat): real
    requires Sized(data, cents, dim) && |asg| == |data| && k < |cents| && d < dim
  {
    var n := ClusterCount(asg, k, 0, |data|);
    if n > 0 then ClusterSum(data, asg, dim, k, d, 0, |data|) / n as real else cents[k][d]
  }

  /** One Lloyd iteration. */
  ghost function LloydStep(data: Points, cents: Points, dim: nat): (r: Points)
    requires Sized(data, cents, dim)
    ensures Sized(data, r, dim) && |r| == |cents|
  {
    Updated(data, Assignment(data, cents, dim), cents, dim)
  }

  // ----- distortion -----

  /** Cost of the first `n` points under an assignment. */
  ghost function Cost(data: Points, asg: seq<nat>, cents: Points, dim: nat, n: nat): real
    requires Sized(data, cents, dim) && |asg| == |data| && n <= |data|
    requires forall i :: 0 <= i < |asg| ==> asg[i] < |cents|
  {
    if n == 0 then 0.0
    else Cost(data, asg, cents, dim, n - 1) + SqDist(data[n - 1], cents[asg[n - 1]], dim)
  }

  /** Total squared distance of every point to its nearest centroid. */
  ghost function Distortion(data: Points, cents: Points, dim: nat): real
    requires Sized(data, cents, dim)
  {
    Cost(data, Assignment(data, cents, dim), cents, dim, |data|)
  }

  lemma {:induction false} NoDistance(v: seq<real>, n: nat)
    requires n <= |v|
    ensures SqDist(v, v, n) == 0.0
  {
    if n > 0 {
      NoDistance(v, n - 1);
    }
  }

  /** Points that lie on their centroids cost nothing. */
  lemma {:induction false} OnCentroidsCostsNothing(data: Points, asg: seq<nat>, cents: Points, dim: nat, n: nat)
    requires Sized(data, cents, dim) && |asg| == |data| && n <= |data|
    requires forall i :: 0 <= i < |asg| ==> asg[i] < |cents| && data[i] == cents[asg[i]]
    ensures Cost(data, asg, cents, dim, n) == 0.0
  {
    hide SqDist;
    if n > 0 {
      OnCentroidsCostsNothing(data, asg, cents, dim, n - 1);
      NoDistance(data[n - 1], dim);
    }
  }

  /** No assignment is cheaper than the nearest one. */
  lemma {:induction false} NearestIsCheapest(data: Points, asg: seq<nat>, cents: Points, dim: nat, n: nat)
    requires Sized(data, cents, dim) && |asg| == |data| && n <= |data|
    requires forall i :: 0 <= i < |asg| ==> asg[i] < |cents|
    ensures Cost(data, Assignment(data, cents, dim), cents, dim, n) <= Cost(data, asg, cents, dim, n)
  {
    hide SqDist, Nearest;
    if n > 0 {
      NearestIsCheapest(data, asg, cents, dim, n - 1);
      NearestIsMinimal(cents, data[n - 1], |cents|, asg[n - 1]);
    }
  }

  /** Cost in coordinate `d` of the points of cluster `k`, for a candidate centre `x`. */
  ghost function CoordCost(data: Points, asg: seq<nat>, dim: nat, k: nat, d: nat, x: real, n: nat): real
    requires Shape(data, |data|, dim) && |asg| == |data| && d < dim && n <= |data|
  {
    if n == 0 then 0.0
    else CoordCost(data, asg, dim, k, d, x, n - 1) + if asg[n - 1] == k then Square(data[n - 1][d] - x) else 0.0
  }

  ghost function SetCoord(cents: Points, dim: nat, k: nat, d: nat, x: real): (r: Points)
    requires Shape(cents, |cents|, dim) && k < |cents| && d < dim
    ensures Shape(r, |cents|, dim) && r[k] == cents[k][d := x]
    ensures forall j :: 0 <= j < |cents| && j != k ==> r[j] == cents[j]
  {
    cents[k := cents[k][d := x]]
  }

  lemma {:induction false} SqDistChange(v: seq<real>, c: seq<real>, d: nat, x: real, n: nat)
    requires n <= |v| == |c| && d < |c|
    ensures SqDist(v, c[d := x], n) == SqDist(v, c, n) + if d < n then Square(v[d] - x) - Square(v[d] - c[d]) else 0.0
  {
    hide Square;
    if n > 0 {
      SqDistChange(v, c, d, x, n - 1);
    }
  }

  /** Moving one coordinate of one centroid changes the cost of that cluster's coordinate only. */
  lemma {:induction false} CostChange(data: Points, asg: seq<nat>, cents: Points, dim: nat, k: nat, d: nat, x: real,
      n: nat)
    requires Sized(data, cents, dim) && |asg| == |data| && n <= |data| && k < |cents| && d < dim
    requires forall i :: 0 <= i < |asg| ==> asg[i] < |cents|
    ensures Cost(data, asg, SetCoord(cents, dim, k, d, x), dim, n) == Cost(data, asg, cents, dim, n)
            + CoordCost(data, asg, dim, k, d, x, n) - CoordCost(data, asg, dim, k, d, cents[k][d], n)
  {
    hide Square, SqDist;
    if n > 0 {
      CostChange(data, asg, cents, dim, k, d, x, n - 1);
      if asg[n - 1] == k {
        SqDistChange(data[n - 1], cents[k], d, x, dim);
      }
    }
  }

  lemma {:induction false} CoordCostQuadratic(data: Points, asg: seq<nat>, dim: nat, k: nat, d: nat, x: real, n: nat)
    requires Shape(data, |data|, dim) && |asg| == |data| && d < dim && n <= |data|
    ensures CoordCost(data, asg, dim, k, d, x, n) ==
            Parabola(x, CoordCost(data, asg, dim, k, d, 0.0, n), ClusterSum(data, asg, dim, k, d, 0, n),
                     ClusterCount(asg, k, 0, n) as real)
  {
    if n > 0 {
      CoordCostQuadratic(data, asg, dim, k, d, x, n - 1);
      hide Square, Parabola;
      if asg[n - 1] == k {
        ParabolaStep(x, CoordCost(data, asg, dim, k, d, 0.0, n - 1), ClusterSum(data, asg, dim, k, d, 0, n - 1),
                     ClusterCount(asg, k, 0, n - 1) as real, data[n - 1][d]);
      }
    } else {
      ParabolaZero(x);
    }
  }

  lemma ParabolaStep(x: real, squares: real, sum: real, count: real, v: real)
    ensures Parabola(x, squares, sum, count) + Square(v - x)
            == Parabola(x, squares + Square(v - 0.0), sum + v, count + 1.0)
  {
  }

  lemma {:induction false} EmptyCluster(data: Points, asg: seq<nat>, dim: nat, k: nat, d: nat, n: nat)
    requires Shape(data, |data|, dim) && |asg| == |data| && d < dim && n <= |data|
    requires ClusterCount(asg, k, 0, n) == 0
    ensures ClusterSum(data, asg, dim, k, d, 0, n) == 0.0
  {
    if n > 0 {
      EmptyCluster(data, asg, dim, k, d, n - 1);
    }
  }

  lemma NoCoordCost(x: real, y: real, squares: real)
    ensures Parabola(x, squares, 0.0, 0.0) == Parabola(y, squares, 0.0, 0.0)
  {
    assert x * 0.0 == 0.0 && y * 0.0 == 0.0;
  }

  /** Moving a coordinate to where the update puts it never costs more, wherever it was before. */
  lemma UpdateOneImproves(data: Points, asg: seq<nat>, orig: Points, cents: Points, dim: nat, k: nat, d: nat)
    requires Sized(data, orig, dim) && Sized(data, cents, dim) && |asg| == |data| && |orig| == |cents|
    requires k < |cents| && d < dim
    requires forall i :: 0 <= i < |asg| ==> asg[i] < |cents|
    ensures Cost(data, asg, SetCoord(cents, dim, k, d, MeanOrKept(data, asg, orig, dim, k, d)), dim, |data|)
            <= Cost(data, asg, cents, dim, |data|)
  {
    hide Cost, CoordCost, Parabola, ClusterSum, ClusterCount;
    var x, n := MeanOrKept(data, asg, orig, dim, k, d), |data|;
    CostChange(data, asg, cents, dim, k, d, x, n);
    CoordCostQuadratic(data, asg, dim, k, d, x, n);
    CoordCostQuadratic(data, asg, dim, k, d, cents[k][d], n);
    var count := ClusterCount(asg, k, 0, n);
    var squares := CoordCost(data, asg, dim, k, d, 0.0, n);
    if count > 0 {
      MeanIsBest(squares, ClusterSum(data, asg, dim, k, d, 0, n), count as real, cents[k][d]);
    } else {
      EmptyCluster(data, asg, dim, k, d, n);
      NoCoordCost(x, cents[k][d], squares);
    }
  }

  /** Centroids with rows below `k` updated, and row `k` updated below coordinate `d`. */
  ghost function Mixed(before: Points, after: Points, dim: nat, k: nat, d: nat): (r: Points)
    requires Shape(before, |before|, dim) && Shape(after, |before|, dim) && k <= |before| && d <= dim
    ensures Shape(r, |before|, dim)
    ensures forall j, e :: 0 <= j < |before| && 0 <= e < dim ==>
              r[j][e] == if j < k || (j == k && e < d) then after[j][e] else before[j][e]
  {
    seq(|before|, j requires 0 <= j < |before| =>
      seq(dim, e requires 0 <= e < dim => if j < k || (j == k && e < d) then after[j][e] else before[j][e]))
  }

  lemma SamePoints(a: Points, b: Points, rows: nat, dim: nat)
    requires Shape(a, rows, dim) && Shape(b, rows, dim)
    requires forall j, e :: 0 <= j < rows && 0 <= e < dim ==> a[j][e] == b[j][e]
    ensures a == b
  {
    forall j | 0 <= j < rows ensures a[j] == b[j] {
    }
  }

  lemma {:induction false} RowImproves(data: Points, asg: seq<nat>, orig: Points, cents: Points, dim: nat, k: nat,
      d: nat)
    requires Sized(data, orig, dim) && Sized(data, cents, dim) && |orig| == |cents|
    requires |asg| == |data| && k < |cents| && d <= dim
    requires forall i :: 0 <= i < |asg| ==> asg[i] < |cents|
    ensures var u := Updated(data, asg, orig, dim);
      Cost(data, asg, Mixed(cents, u, dim, k, d), dim, |data|)
      <= Cost(data, asg, Mixed(cents, u, dim, k, 0), dim, |data|)
  {
    hide Cost, MeanOrKept;
    if d > 0 {
      RowImproves(data, asg, orig, cents, dim, k, d - 1);
      var u := Updated(data, asg, orig, dim);
      var m := Mixed(cents, u, dim, k, d - 1);
      UpdateOneImproves(data, asg, orig, m, dim, k, d - 1);
      SamePoints(SetCoord(m, dim, k, d - 1, u[k][d - 1]), Mixed(cents, u, dim, k, d), |cents|, dim);
    }
  }

  lemma {:induction false} RowsImprove(data: Points, asg: seq<nat>, orig: Points, cents: Points, dim: nat, k: nat)
    requires Sized(data, orig, dim) && Sized(data, cents, dim) && |orig| == |cents|
    requires |asg| == |data| && k <= |cents|
    requires forall i :: 0 <= i < |asg| ==> asg[i] < |cents|
    ensures Cost(data, asg, Mixed(cents, Updated(data, asg, orig, dim), dim, k, 0), dim, |data|)
            <= Cost(data, asg, cents, dim, |data|)
  {
    hide Cost, MeanOrKept;
    var u := Updated(data, asg, orig, dim);
    if k == 0 {
      SamePoints(Mixed(cents, u, dim, 0, 0), cents, |cents|, dim);
    } else {
      RowsImprove(data, asg, orig, cents, dim, k - 1);
      RowImproves(data, asg, orig, cents, dim, k - 1, dim);
      SamePoints(Mixed(cents, u, dim, k - 1, dim), Mixed(cents, u, dim, k, 0), |cents|, dim);
    }
  }

  /** For the assignment it is made for, no centroids are cheaper than those of the step. */
  lemma LloydStepIsCheapest(data: Points, cents: Points, dim: nat, other: Points)
    requires Sized(data, cents, dim) && Sized(data, other, dim) && |other| == |cents|
    ensures var asg := Assignment(data, cents, dim);
      Cost(data, asg, LloydStep(data, cents, dim), dim, |data|) <= Cost(data, asg, other, dim, |data|)
  {
    hide Cost, MeanOrKept, AssignOf;
    var asg := Assignment(data, cents, dim);
    var u := Updated(data, asg, cents, dim);
    RowsImprove(data, asg, cents, other, dim, |cents|);
    SamePoints(Mixed(other, u, dim, |cents|, 0), u, |cents|, dim);
  }

  lemma {:induction false} NobodyCounted(asg: seq<nat>, k: nat, n: nat)
    requires n <= |asg| && forall i :: 0 <= i < n ==> asg[i] != k
    ensures ClusterCount(asg, k, 0, n) == 0
  {
    if n > 0 {
      NobodyCounted(asg, k, n - 1);
    }
  }

  /** A centroid that is nearest to no point stays where it is. */
  lemma EmptyClusterStays(data: Points, cents: Points, dim: nat, k: nat)
    requires Sized(data, cents, dim) && k < |cents|
    requires forall i :: 0 <= i < |data| ==> AssignOf(data, cents, i) != k
    ensures LloydStep(data, cents, dim)[k] == cents[k]
  {
    hide AssignOf, ClusterCount, ClusterSum;
    var asg := Assignment(data, cents, dim);
    NobodyCounted(asg, k, |data|);
    var u := LloydStep(data, cents, dim);
    forall d | 0 <= d < dim ensures u[k][d] == cents[k][d] {
      assert u[k][d] == MeanOrKept(data, asg, cents, dim, k, d);
    }
  }

  /** One Lloyd iteration never increases the distortion, empty clusters included. */
  lemma LloydStepImproves(data: Points, cents: Points, dim: nat)
    requires Sized(data, cents, dim)
    ensures Distortion(data, LloydStep(data, cents, dim), dim) <= Distortion(data, cents, dim)
  {
    hide Cost, MeanOrKept, AssignOf;
    var asg := Assignment(data, cents, dim);
    var u := Updated(data, asg, cents, dim);
    RowsImprove(data, asg, cents, cents, dim, |cents|);
    SamePoints(Mixed(cents, u, dim, |cents|, 0), u, |cents|, dim);
    NearestIsCheapest(data, asg, u, dim, |data|);
  }

  // ----- the iteration as the threads run it -----

  method SquaredDistance(v: seq<real>, cents: array2<real>, k: nat) returns (d: real)
    requires k < cents.Length0 && cents.Length1 == |v|
    ensures d == SqDist(v, RowsOf(cents)[k], |v|)
  {
    d := 0.0;
    for di := 0 to |v|
      invariant d == SqDist(v, RowsOf(cents)[k], di)
    {
      d := d + Square(v[di] - cents[k, di]);
    }
  }

  method NearestCentroid(v: seq<real>, cents: array2<real>) returns (bk: nat)
    requires cents.Length0 > 0 && cents.Length1 == |v|
    ensures bk == Nearest(RowsOf(cents), v, cents.Length0)
  {
    hide SqDist;
    bk := 0;
    var best := SquaredDistance(v, cents, 0);
    for k := 1 to cents.Length0
      invariant bk == Nearest(RowsOf(cents), v, k) && best == SqDist(v, RowsOf(cents)[bk], |v|)
    {
      var d := SquaredDistance(v, cents, k);
      if d < best {
        best := d;
        bk := k;
      }
    }
  }

  /** Sums and counts of the points lo..hi per cluster. */
  ghost predicate Accumulated(data: Points, asg: seq<nat>, dim: nat, sums: Points, counts: seq<nat>, lo: nat, hi: nat)
    requires Shape(data, |data|, dim) && |asg| == |data| && lo <= hi <= |data|
  {
    && Shape(sums, |counts|, dim)
    && (forall k :: 0 <= k < |counts| ==> counts[k] == ClusterCount(asg, k, lo, hi))
    && forall k, d :: 0 <= k < |counts| && 0 <= d < dim ==> sums[k][d] == ClusterSum(data, asg, dim, k, d, lo, hi)
  }

  /** What one thread has done: its own accumulators hold the points lo..hi. */
  ghost predicate Share(data: Points, asg: seq<nat>, dim: nat, part: array2<real>, counts: array<nat>, lo: nat, hi: nat)
    requires Shape(data, |data|, dim) && |asg| == |data|
    reads part, counts
  {
    && lo <= hi <= |data|
    && part.Length1 == dim && counts.Length == part.Length0
    && Accumulated(data, asg, dim, RowsOf(part), counts[..], lo, hi)
  }

  /** One pass of a thread's loop: point `i` goes to the accumulators of that thread and to no others. */
  method TakePoint(data: Points, cents: array2<real>, ghost asg: seq<nat>, part: array2<real>, counts: array<nat>,
      ghost lo: nat, i: nat)
    requires cents.Length0 > 0 && Shape(data, |data|, cents.Length1) && i < |data|
    requires asg == Assignment(data, RowsOf(cents), cents.Length1)
    requires part != cents && part.Length0 == cents.Length0
    requires Share(data, asg, cents.Length1, part, counts, lo, i)
    modifies part, counts
    ensures Share(data, asg, cents.Length1, part, counts, lo, i + 1)
  {
    hide SqDist, Nearest;
    var bk := NearestCentroid(data[i], cents);
    AddPoint(part, data[i], bk);
    counts[bk] := counts[bk] + 1;
  }

  method AddPoint(sums: array2<real>, v: seq<real>, bk: nat)
    requires bk < sums.Length0 && |v| == sums.Length1
    modifies sums
    ensures forall k, d :: 0 <= k < sums.Length0 && 0 <= d < |v| ==>
              sums[k, d] == old(sums[k, d]) + if k == bk then v[d] else 0.0
  {
    for di := 0 to |v|
      invariant forall k, d :: 0 <= k < sums.Length0 && 0 <= d < |v| ==>
                  sums[k, d] == old(sums[k, d]) + if k == bk && d < di then v[d] else 0.0
    {
      sums[bk, di] := sums[bk, di] + v[di];
    }
  }

  function Times(a: nat, b: nat): nat {
    a * b
  }

  function Quotient(a: nat, b: nat): nat
    requires b > 0
  {
    a / b
  }

  /** Where thread `t` of `threads` starts; its range ends where the next one starts. */
  function RangeStart(t: nat, n: nat, threads: nat): nat
    requires threads > 0
  {
    Quotient(Times(t, n), threads)
  }

  /** The ranges partition 0..n for every number of threads. */
  lemma RangesPartition(t: nat, n: nat, threads: nat)
    requires t < threads
    ensures RangeStart(0, n, threads) == 0 && RangeStart(threads, n, threads) == n
    ensures RangeStart(t, n, threads) <= RangeStart(t + 1, n, threads) <= n
  {
    hide Times, Quotient;
    TimesMono(t, t + 1, n);
    TimesMono(t + 1, threads, n);
    QuotientMono(Times(t, n), Times(t + 1, n), threads);
    QuotientMono(Times(t + 1, n), Times(threads, n), threads);
    WholeQuotient(n, threads);
  }

  /** The ranges differ in length by at most one point. */
  lemma RangesBalanced(t: nat, n: nat, threads: nat)
    requires t < threads
    ensures var size := RangeStart(t + 1, n, threads) - RangeStart(t, n, threads);
      n / threads <= size <= n / threads + 1
  {
    var a, b, q := t * n / threads, (t + 1) * n / threads, n / threads;
    var r, z, y := t * n % threads, (t + 1) * n % threads, n % threads;
    assert t * n == a * threads + r && (t + 1) * n == b * threads + z && n == q * threads + y;
    assert (t + 1) * n == t * n + n;
    assert (b - a - q) * threads == b * threads - a * threads - q * threads;
    ZeroOrOne(b - a - q, threads, r + y - z);
  }

  lemma ZeroOrOne(d: int, m: int, rest: int)
    requires m > 0 && d * m == rest && -m < rest < 2 * m
    ensures 0 <= d <= 1
  {
    if d < 0 {
      AtLeast(-d, 1, m);
      assert false;
    } else if d > 1 {
      AtLeast(d, 2, m);
      assert false;
    }
  }

  lemma AtLeast(d: int, k: int, m: int)
    requires d >= k && m > 0
    ensures d * m >= k * m && (-d) * m == -(d * m)
  {
    assert (d - k) * m >= 0;
  }

  lemma TimesMono(a: nat, b: nat, n: nat)
    requires a <= b
    ensures Times(a, n) <= Times(b, n)
  {
    assert b * n == a * n + (b - a) * n;
    assert (b - a) * n >= 0;
  }

  lemma WholeQuotient(n: nat, m: nat)
    requires m > 0
    ensures Quotient(Times(m, n), m) == n && Quotient(Times(0, n), m) == 0
  {
    assert 0 * n == 0;
    var x, a := m * n / m, m * n;
    assert x * m <= a < x * m + m;
    if x < n {
      ProductGap(n, x, m);
      assert false;
    }
  }

  lemma QuotientMono(a: nat, b: nat, m: nat)
    requires a <= b && m > 0
    ensures Quotient(a, m) <= Quotient(b, m)
  {
    var x, y := a / m, b / m;
    assert x * m <= a && b < y * m + m;
    if y < x {
      ProductGap(x, y, m);
      assert false;
    }
  }

  lemma ProductGap(x: nat, y: nat, m: nat)
    requires y < x
    ensures y * m + m <= x * m
  {
    var g: nat := x - y - 1;
    assert (y + 1 + g) * m == y * m + m + g * m;
    assert g * m >= 0;
  }

  lemma {:induction false} SumSplits(data: Points, asg: seq<nat>, dim: nat, k: nat, d: nat, lo: nat, mid: nat, hi: nat)
    requires Shape(data, |data|, dim) && |asg| == |data| && d < dim && lo <= mid <= hi <= |data|
    ensures ClusterSum(data, asg, dim, k, d, lo, hi)
            == ClusterSum(data, asg, dim, k, d, lo, mid) + ClusterSum(data, asg, dim, k, d, mid, hi)
    decreases hi
  {
    if mid < hi {
      SumSplits(data, asg, dim, k, d, lo, mid, hi - 1);
    }
  }

  lemma {:induction false} CountSplits(asg: seq<nat>, k: nat, lo: nat, mid: nat, hi: nat)
    requires lo <= mid <= hi <= |asg|
    ensures ClusterCount(asg, k, lo, hi) == ClusterCount(asg, k, lo, mid) + ClusterCount(asg, k, mid, hi)
    decreases hi
  {
    if mid < hi {
      CountSplits(asg, k, lo, mid, hi - 1);
    }
  }

  /** Adds one thread's accumulators to the shared totals. */
  method Reduce(ghost data: Points, ghost asg: seq<nat>, sums: array2<real>, counts: array<nat>, part: array2<real>,
      partCounts: array<nat>, ghost lo: nat, ghost hi: nat)
    requires sums != part && counts != partCounts
    requires part.Length0 == sums.Length0 == counts.Length && part.Length1 == sums.Length1
    requires Shape(data, |data|, sums.Length1) && |asg| == |data| && lo <= hi <= |data|
    requires Accumulated(data, asg, sums.Length1, RowsOf(sums), counts[..], 0, lo)
    requires Accumulated(data, asg, sums.Length1, RowsOf(part), partCounts[..], lo, hi)
    requires counts.Length == partCounts.Length
    modifies sums, counts
    ensures Accumulated(data, asg, sums.Length1, RowsOf(sums), counts[..], 0, hi)
  {
    ghost var s0, c0, s1, c1 := RowsOf(sums), counts[..], RowsOf(part), partCounts[..];
    AddEntries(sums, counts, part, partCounts);
    AccumulatedAdds(data, asg, sums.Length1, s0, c0, s1, c1, RowsOf(sums), counts[..], lo, hi);
  }

  method AddEntries(sums: array2<real>, counts: array<nat>, part: array2<real>, partCounts: array<nat>)
    requires sums != part && counts != partCounts
    requires part.Length0 == sums.Length0 && part.Length1 == sums.Length1 && counts.Length == partCounts.Length
    modifies sums, counts
    ensures forall k, d :: 0 <= k < sums.Length0 && 0 <= d < sums.Length1 ==> sums[k, d] == old(sums[k, d]) + part[k, d]
    ensures forall k :: 0 <= k < counts.Length ==> counts[k] == old(counts[k]) + partCounts[k]
  {
    forall k, d | 0 <= k < sums.Length0 && 0 <= d < sums.Length1 {
      sums[k, d] := sums[k, d] + part[k, d];
    }
    forall k | 0 <= k < counts.Length {
      counts[k] := counts[k] + partCounts[k];
    }
  }

  lemma AccumulatedAdds(data: Points, asg: seq<nat>, dim: nat, s0: Points, c0: seq<nat>, s1: Points, c1: seq<nat>,
                        s2: Points, c2: seq<nat>, lo: nat, hi: nat)
    requires Shape(data, |data|, dim) && |asg| == |data| && lo <= hi <= |data| && |c0| == |c1| == |c2|
    requires Accumulated(data, asg, dim, s0, c0, 0, lo) && Accumulated(data, asg, dim, s1, c1, lo, hi)
    requires Shape(s2, |c2|, dim)
    requires forall k, d :: 0 <= k < |c2| && 0 <= d < dim ==> s2[k][d] == s0[k][d] + s1[k][d]
    requires forall k :: 0 <= k < |c2| ==> c2[k] == c0[k] + c1[k]
    ensures Accumulated(data, asg, dim, s2, c2, 0, hi)
  {
    hide ClusterSum, ClusterCount;
    forall k, d | 0 <= k < |c2| && 0 <= d < dim ensures s2[k][d] == ClusterSum(data, asg, dim, k, d, 0, hi) {
      SumSplits(data, asg, dim, k, d, 0, lo, hi);
    }
    forall k | 0 <= k < |c2| ensures c2[k] == ClusterCount(asg, k, 0, hi) {
      CountSplits(asg, k, 0, lo, hi);
    }
  }

  /** The threads' accumulators and the centroids are separate, and thread `t` is about to take point `at[t]`. */
  ghost predicate Shares(data: Points, asg: seq<nat>, cents: array2<real>, parts: seq<array2<real>>,
      counts: seq<array<nat>>, at: seq<nat>, threads: nat)
    requires Shape(data, |data|, cents.Length1) && |asg| == |data| && threads > 0
    reads parts, counts
  {
    && |parts| == |counts| == |at| <= threads
    && (forall t :: 0 <= t < |at| ==> parts[t] != cents && parts[t].Length0 == cents.Length0)
    && (forall t, u :: 0 <= t < u < |at| ==> parts[t] != parts[u] && counts[t] != counts[u])
    && (forall t :: 0 <= t < |at| ==> at[t] <= RangeStart(t + 1, |data|, threads))
    && (forall t :: 0 <= t < |at| ==>
          Share(data, asg, cents.Length1, parts[t], counts[t], RangeStart(t, |data|, threads), at[t]))
  }

  /** Points the first `k` threads have still to take. */
  ghost function Left(at: seq<nat>, n: nat, threads: nat, k: nat): int
    requires k <= |at| && threads > 0
  {
    if k == 0 then 0 else Left(at, n, threads, k - 1) + RangeStart(k, n, threads) - at[k - 1]
  }

  lemma {:induction false} LeftFalls(at: seq<nat>, n: nat, threads: nat, k: nat, t: nat)
    requires k <= |at| && threads > 0 && t < |at|
    ensures Left(at[t := at[t] + 1], n, threads, k) == Left(at, n, threads, k) - if t < k then 1 else 0
  {
    hide RangeStart;
    if k > 0 {
      LeftFalls(at, n, threads, k - 1, t);
    }
  }

  lemma {:induction false} LeftIsNat(at: seq<nat>, n: nat, threads: nat, k: nat)
    requires k <= |at| && threads > 0
    requires forall t :: 0 <= t < |at| ==> at[t] <= RangeStart(t + 1, n, threads)
    ensures 0 <= Left(at, n, threads, k)
  {
    hide RangeStart;
    if k > 0 {
      LeftIsNat(at, n, threads, k - 1);
    }
  }

  lemma SharesLeft(data: Points, asg: seq<nat>, cents: array2<real>, parts: seq<array2<real>>,
      counts: seq<array<nat>>, at: seq<nat>, threads: nat)
    requires Shape(data, |data|, cents.Length1) && |asg| == |data| && threads > 0
    requires Shares(data, asg, cents, parts, counts, at, threads)
    ensures |parts| == |counts| == |at| && 0 <= Left(at, |data|, threads, |at|)
  {
    hide Share, RangeStart, Left;
    LeftIsNat(at, |data|, threads, |at|);
  }

  /** When no thread has a point left, every thread holds its whole range. */
  lemma AllSharesDone(data: Points, asg: seq<nat>, cents: array2<real>, parts: seq<array2<real>>,
      counts: seq<array<nat>>, at: seq<nat>, threads: nat)
    requires Shape(data, |data|, cents.Length1) && |asg| == |data| && threads == |at| > 0
    requires Shares(data, asg, cents, parts, counts, at, threads)
    requires forall t :: 0 <= t < threads ==> RangeStart(t + 1, |data|, threads) <= at[t]
    ensures |parts| == |counts| == threads
    ensures forall t :: 0 <= t < threads ==> parts[t].Length0 == cents.Length0
    ensures forall t :: 0 <= t < threads ==>
              Share(data, asg, cents.Length1, parts[t], counts[t], RangeStart(t, |data|, threads),
                    RangeStart(t + 1, |data|, threads))
  {
    hide Share, RangeStart;
  }

  /** Accumulators that hold no points yet. */
  method NewShare(ghost data: Points, ghost asg: seq<nat>, kk: nat, dim: nat, ghost lo: nat)
    returns (part: array2<real>, counts: array<nat>)
    requires Shape(data, |data|, dim) && |asg| == |data| && lo <= |data|
    ensures fresh(part) && fresh(counts) && part.Length0 == kk
    ensures Share(data, asg, dim, part, counts, lo, lo)
  {
    part := new real[kk, dim]((_, _) => 0.0);
    counts := new nat[kk](_ => 0);
    NothingAccumulated(data, asg, dim, RowsOf(part), counts[..], lo);
  }

  lemma NoShares(data: Points, asg: seq<nat>, cents: array2<real>, threads: nat)
    requires Shape(data, |data|, cents.Length1) && |asg| == |data| && threads > 0
    ensures Shares(data, asg, cents, [], [], [], threads)
  {
  }

  lemma SharesGrow(data: Points, asg: seq<nat>, cents: array2<real>, parts: seq<array2<real>>,
      counts: seq<array<nat>>, at: seq<nat>, threads: nat, part: array2<real>, zeros: array<nat>)
    requires Shape(data, |data|, cents.Length1) && |asg| == |data| && |at| < threads
    requires Shares(data, asg, cents, parts, counts, at, threads)
    requires forall t :: 0 <= t < |parts| ==> parts[t] != part
    requires forall t :: 0 <= t < |counts| ==> counts[t] != zeros
    requires part != cents && part.Length0 == cents.Length0
    requires var lo := RangeStart(|at|, |data|, threads);
      lo <= |data| && Share(data, asg, cents.Length1, part, zeros, lo, lo)
    ensures Shares(data, asg, cents, parts + [part], counts + [zeros], at + [RangeStart(|at|, |data|, threads)],
                   threads)
  {
    hide Share, RangeStart;
    RangesPartition(|at|, |data|, threads);
  }

  /** Every thread gets accumulators of its own. */
  method StartThreads(data: Points, cents: array2<real>, ghost asg: seq<nat>, threads: nat)
    returns (parts: seq<array2<real>>, counts: seq<array<nat>>, at: seq<nat>)
    requires Shape(data, |data|, cents.Length1) && |asg| == |data| && threads > 0
    ensures |parts| == |counts| == |at| == threads && Shares(data, asg, cents, parts, counts, at, threads)
    ensures forall t :: 0 <= t < threads ==> fresh(parts[t]) && fresh(counts[t])
  {
    hide *;
    parts, counts, at := [], [], [];
    NoShares(data, asg, cents, threads);
    for t := 0 to threads
      invariant |parts| == |counts| == |at| == t && Shares(data, asg, cents, parts, counts, at, threads)
      invariant forall u :: 0 <= u < t ==> fresh(parts[u]) && fresh(counts[u])
    {
      RangesPartition(t, |data|, threads);
      var lo := RangeStart(t, |data|, threads);
      var part, zeros := NewShare(data, asg, cents.Length0, cents.Length1, lo);
      SharesGrow(data, asg, cents, parts, counts, at, threads, part, zeros);
      parts, counts, at := parts + [part], counts + [zeros], at + [lo];
    }
  }

  /** Thread `t` takes its next point; nothing of the others changes. */
  method Turn(data: Points, cents: array2<real>, ghost asg: seq<nat>, parts: seq<array2<real>>,
      counts: seq<array<nat>>, at: seq<nat>, threads: nat, t: nat)
    returns (next: seq<nat>)
    requires cents.Length0 > 0 && Shape(data, |data|, cents.Length1) && threads > 0
    requires asg == Assignment(data, RowsOf(cents), cents.Length1)
    requires Shares(data, asg, cents, parts, counts, at, threads)
    requires t < |at| && at[t] < RangeStart(t + 1, |data|, threads)
    modifies parts[t], counts[t]
    ensures next == at[t := at[t] + 1] && RowsOf(cents) == old(RowsOf(cents))
    ensures Shares(data, asg, cents, parts, counts, next, threads)
  {
    hide Share, Accumulated, AssignOf, RangeStart;
    RangesPartition(t, |data|, threads);
    TakePoint(data, cents, asg, parts[t], counts[t], RangeStart(t, |data|, threads), at[t]);
    next := at[t := at[t] + 1];
  }

  /** Runs the threads until all have ended: whichever thread is next takes its next point. */
  method RunThreads(data: Points, cents: array2<real>, ghost asg: seq<nat>, parts: seq<array2<real>>,
      counts: seq<array<nat>>, start: seq<nat>, threads: nat)
    requires cents.Length0 > 0 && Shape(data, |data|, cents.Length1) && threads > 0
    requires asg == Assignment(data, RowsOf(cents), cents.Length1)
    requires |start| == threads && Shares(data, asg, cents, parts, counts, start, threads)
    modifies parts, counts
    ensures forall t :: 0 <= t < threads ==>
              Share(data, asg, cents.Length1, parts[t], counts[t], RangeStart(t, |data|, threads),
                    RangeStart(t + 1, |data|, threads))
  {
    hide *;
    var n, at: seq<nat> := |data|, start;
    SharesLeft(data, asg, cents, parts, counts, at, threads);
    while exists t :: 0 <= t < threads && at[t] < RangeStart(t + 1, n, threads)
      invariant RowsOf(cents) == old(RowsOf(cents))
      invariant |at| == threads && Shares(data, asg, cents, parts, counts, at, threads)
      invariant 0 <= Left(at, n, threads, threads)
      decreases Left(at, n, threads, threads)
    {
      var t :| 0 <= t < threads && at[t] < RangeStart(t + 1, n, threads);
      LeftFalls(at, n, threads, threads, t);
      at := Turn(data, cents, asg, parts, counts, at, threads, t);
      SharesLeft(data, asg, cents, parts, counts, at, threads);
    }
    AllSharesDone(data, asg, cents, parts, counts, at, threads);
  }

  /** One iteration over `threads` ranges: the result is the Lloyd step for every number and schedule of threads. */
  method Iterate(data: Points, cents: array2<real>, threads: nat)
    requires cents.Length0 > 0 && Shape(data, |data|, cents.Length1) && threads > 0
    modifies cents
    ensures RowsOf(cents) == LloydStep(data, old(RowsOf(cents)), cents.Length1)
  {
    hide Accumulated, AssignOf, RangeStart;
    var kk, dim := cents.Length0, cents.Length1;
    ghost var asg := Assignment(data, RowsOf(cents), dim);
    var parts, partCounts, at := StartThreads(data, cents, asg, threads);
    RunThreads(data, cents, asg, parts, partCounts, at, threads);
    var sums, counts := ReduceAll(data, asg, kk, dim, parts, partCounts, threads);
    UpdateCentroids(data, asg, cents, sums, counts);
  }

  /** Adds up the accumulators of all threads, in the order of the threads. */
  method ReduceAll(ghost data: Points, ghost asg: seq<nat>, kk: nat, dim: nat, parts: seq<array2<real>>,
      partCounts: seq<array<nat>>, threads: nat)
    returns (sums: array2<real>, counts: array<nat>)
    requires Shape(data, |data|, dim) && |asg| == |data| && threads == |parts| == |partCounts| > 0
    requires forall t :: 0 <= t < threads ==> parts[t].Length0 == kk
    requires forall t :: 0 <= t < threads ==>
               Share(data, asg, dim, parts[t], partCounts[t], RangeStart(t, |data|, threads),
                     RangeStart(t + 1, |data|, threads))
    ensures fresh(sums) && sums.Length1 == dim && counts.Length == kk
    ensures Accumulated(data, asg, dim, RowsOf(sums), counts[..], 0, |data|)
  {
    hide Accumulated, RangeStart;
    ghost var n := |data|;
    RangesPartition(0, n, threads);
    sums, counts := NewShare(data, asg, kk, dim, 0);
    for t := 0 to threads
      invariant RangeStart(t, n, threads) <= n
      invariant Accumulated(data, asg, dim, RowsOf(sums), counts[..], 0, RangeStart(t, n, threads))
    {
      RangesPartition(t, n, threads);
      Reduce(data, asg, sums, counts, parts[t], partCounts[t], RangeStart(t, n, threads),
             RangeStart(t + 1, n, threads));
    }
  }

  lemma NothingAccumulated(data: Points, asg: seq<nat>, dim: nat, sums: Points, counts: seq<nat>, lo: nat)
    requires Shape(data, |data|, dim) && |asg| == |data| && Shape(sums, |counts|, dim) && lo <= |data|
    requires forall k :: 0 <= k < |counts| ==> counts[k] == 0
    requires forall k, d :: 0 <= k < |counts| && 0 <= d < dim ==> sums[k][d] == 0.0
    ensures Accumulated(data, asg, dim, sums, counts, lo, lo)
  {
  }

  method UpdateCentroids(ghost data: Points, ghost asg: seq<nat>, cents: array2<real>, sums: array2<real>,
      counts: array<nat>)
    requires cents.Length0 > 0 && Shape(data, |data|, cents.Length1) && |asg| == |data| && cents != sums
    requires sums.Length1 == cents.Length1 && counts.Length == cents.Length0
    requires Accumulated(data, asg, cents.Length1, RowsOf(sums), counts[..], 0, |data|)
    modifies cents
    ensures RowsOf(cents) == Updated(data, asg, old(RowsOf(cents)), cents.Length1)
  {
    ghost var start := RowsOf(cents);
    var dim := cents.Length1;
    for k := 0 to cents.Length0
      invariant forall j, d :: 0 <= j < k && 0 <= d < dim ==> cents[j, d] == MeanOrKept(data, asg, start, dim, j, d)
      invariant forall j, d :: k <= j < cents.Length0 && 0 <= d < dim ==> cents[j, d] == start[j][d]
    {
      if counts[k] > 0 {
        forall d | 0 <= d < dim {
          cents[k, d] := sums[k, d] / counts[k] as real;
        }
      }
    }
    SamePoints(RowsOf(cents), Updated(data, asg, start, dim), cents.Length0, dim);
  }

  /** `n` Lloyd steps. */
  ghost function Steps(data: Points, cents: Points, dim: nat, n: nat): (r: Points)
    requires Sized(data, cents, dim)
    ensures Sized(data, r, dim) && |r| == |cents|
  {
    if n == 0 then cents else LloydStep(data, Steps(data, cents, dim, n - 1), dim)
  }

  lemma {:induction false} StepsImprove(data: Points, cents: Points, dim: nat, n: nat)
    requires Sized(data, cents, dim)
    ensures Distortion(data, Steps(data, cents, dim, n), dim) <= Distortion(data, cents, dim)
  {
    hide Distortion, LloydStep;
    if n > 0 {
      StepsImprove(data, cents, dim, n - 1);
      LloydStepImproves(data, Steps(data, cents, dim, n - 1), dim);
    }
  }

  /** The iteration loop of the run, from the seeded centroids. */
  method Refine(data: Points, cents: array2<real>, threads: nat, iters: nat)
    requires cents.Length0 > 0 && Shape(data, |data|, cents.Length1) && threads > 0
    modifies cents
    ensures RowsOf(cents) == Steps(data, old(RowsOf(cents)), cents.Length1, iters)
    ensures Distortion(data, RowsOf(cents), cents.Length1) <= Distortion(data, old(RowsOf(cents)), cents.Length1)
  {
    hide LloydStep, Distortion;
    ghost var start := RowsOf(cents);
    for it := 0 to iters
      invariant RowsOf(cents) == Steps(data, start, cents.Length1, it)
    {
      Iterate(data, cents, threads);
    }
    StepsImprove(data, start, cents.Length1, iters);
  }
}
