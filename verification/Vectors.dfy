/** Finite real vectors: inner products, plane rotations, and Cauchy-Schwarz. */
module Vectors {

  /** Multiplication by name, so that proofs about sums can leave it alone. */
  function Mul(a: real, b: real): real {
    a * b
  }

  /** Inner product of the first `n` coordinates. */
  function Dot(u: seq<real>, v: seq<real>, n: nat): real
    requires n <= |u| && n <= |v|
  {
    if n == 0 then 0.0 else Dot(u, v, n - 1) + Mul(u[n - 1], v[n - 1])
  }

  function Sum(u: seq<real>, n: nat): real
    requires n <= |u|
  {
    if n == 0 then 0.0 else Sum(u, n - 1) + u[n - 1]
  }

  /** The contents of a matrix, row by row. */
  ghost function RowsOf(a: array2<real>): (r: seq<seq<real>>)
    reads a
    ensures |r| == a.Length0 && forall i :: 0 <= i < |r| ==> |r[i]| == a.Length1
    ensures forall i, j :: 0 <= i < a.Length0 && 0 <= j < a.Length1 ==> r[i][j] == a[i, j]
  {
    seq(a.Length0, i requires 0 <= i < a.Length0 reads a =>
      seq(a.Length1, j requires 0 <= j < a.Length1 reads a => a[i, j]))
  }

  /** A square root on the non-negative reals. */
  ghost predicate IsSqrt(sqrt: real -> real) {
    forall x: real {:trigger sqrt(x)} :: x >= 0.0 ==> sqrt(x) >= 0.0 && sqrt(x) * sqrt(x) == x
  }

  lemma {:induction false} DotCommutes(u: seq<real>, v: seq<real>, n: nat)
    requires n <= |u| && n <= |v|
    ensures Dot(u, v, n) == Dot(v, u, n)
  {
    if n > 0 {
      DotCommutes(u, v, n - 1);
    }
  }

  lemma {:induction false} SquareNonNegative(u: seq<real>, n: nat)
    requires n <= |u|
    ensures Dot(u, u, n) >= 0.0
  {
    if n > 0 {
      SquareNonNegative(u, n - 1);
      assert u[n - 1] * u[n - 1] >= 0.0;
    }
  }

  /** Inner product over a sum of two ranges. */
  lemma {:induction false} DotSplits(u: seq<real>, v: seq<real>, k: nat, n: nat)
    requires k <= n <= |u| && n <= |v|
    ensures Dot(u, v, n) == Dot(u, v, k) + Dot(u[k..], v[k..], n - k)
  {
    if k < n {
      DotSplits(u, v, k, n - 1);
    }
  }

  // ----- plane rotations -----

  ghost predicate IsRotation(c: real, s: real) {
    c * c + s * s == 1.0
  }

  function TurnP(c: real, s: real, x: real, y: real): real {
    c * x - s * y
  }

  function TurnQ(c: real, s: real, x: real, y: real): real {
    s * x + c * y
  }

  /** Columns `p` and `q` turned by the rotation (c, s). */
  function Rot(u: seq<real>, p: nat, q: nat, c: real, s: real): (r: seq<real>)
    requires p < |u| && q < |u| && p != q
    ensures |r| == |u| && r[p] == TurnP(c, s, u[p], u[q]) && r[q] == TurnQ(c, s, u[p], u[q])
    ensures forall k :: 0 <= k < |u| && k != p && k != q ==> r[k] == u[k]
  {
    u[p := TurnP(c, s, u[p], u[q])][q := TurnQ(c, s, u[p], u[q])]
  }

  /** Two sums that differ at `p` and `q` only. */
  lemma {:induction false} SumDiff(u: seq<real>, u': seq<real>, p: nat, q: nat, n: nat)
    requires n <= |u| == |u'| && p < |u| && q < |u| && p != q
    requires forall k :: 0 <= k < |u| && k != p && k != q ==> u'[k] == u[k]
    ensures Sum(u', n) == Sum(u, n) + (if p < n then u'[p] - u[p] else 0.0) + (if q < n then u'[q] - u[q] else 0.0)
  {
    if n > 0 {
      SumDiff(u, u', p, q, n - 1);
    }
  }

  /** Two inner products whose factors differ at `p` and `q` only. */
  lemma {:induction false} DotDiff(u: seq<real>, v: seq<real>, u': seq<real>, v': seq<real>, p: nat, q: nat, n: nat)
    requires n <= |u| == |v| == |u'| == |v'| && p < |u| && q < |u| && p != q
    requires forall k :: 0 <= k < |u| && k != p && k != q ==> u'[k] == u[k] && v'[k] == v[k]
    ensures Dot(u', v', n) == Dot(u, v, n)
                              + (if p < n then Mul(u'[p], v'[p]) - Mul(u[p], v[p]) else 0.0)
                              + (if q < n then Mul(u'[q], v'[q]) - Mul(u[q], v[q]) else 0.0)
  {
    hide Mul;
    if n > 0 {
      DotDiff(u, v, u', v', p, q, n - 1);
    }
  }

  lemma PairExpanded(a: real, b: real, x: real, y: real, c: real, s: real)
    requires IsRotation(c, s)
    ensures Mul(c * a - s * b, c * x - s * y) + Mul(s * a + c * b, s * x + c * y) == Mul(a, x) + Mul(b, y)
  {
    assert (c * a - s * b) * (c * x - s * y) + (s * a + c * b) * (s * x + c * y)
        == (c * c + s * s) * (a * x) + (c * c + s * s) * (b * y);
  }

  lemma RotationPair(a: real, b: real, x: real, y: real, c: real, s: real)
    requires IsRotation(c, s)
    ensures Mul(TurnP(c, s, a, b), TurnP(c, s, x, y)) + Mul(TurnQ(c, s, a, b), TurnQ(c, s, x, y))
            == Mul(a, x) + Mul(b, y)
  {
    hide Mul, IsRotation;
    PairExpanded(a, b, x, y, c, s);
  }

  /** A rotation keeps inner products. */
  lemma RotKeepsDot(u: seq<real>, v: seq<real>, p: nat, q: nat, c: real, s: real)
    requires |u| == |v| && p < |u| && q < |u| && p != q && IsRotation(c, s)
    ensures Dot(Rot(u, p, q, c, s), Rot(v, p, q, c, s), |u|) == Dot(u, v, |u|)
  {
    hide Mul, Dot, IsRotation, TurnP, TurnQ;
    RotationPair(u[p], u[q], v[p], v[q], c, s);
    DotDiff(u, v, Rot(u, p, q, c, s), Rot(v, p, q, c, s), p, q, |u|);
  }

  function Comb(a: real, x: real, b: real, y: real): real {
    a * x + b * y
  }

  /** a * u + b * v */
  function Combine(a: real, u: seq<real>, b: real, v: seq<real>): (r: seq<real>)
    requires |u| == |v|
    ensures |r| == |u| && forall k :: 0 <= k < |u| ==> r[k] == Comb(a, u[k], b, v[k])
  {
    seq(|u|, k requires 0 <= k < |u| => Comb(a, u[k], b, v[k]))
  }

  lemma CombTimes(a: real, x: real, b: real, y: real, z: real, du: real, dv: real)
    ensures Comb(a, du, b, dv) + Mul(Comb(a, x, b, y), z) == Comb(a, du + Mul(x, z), b, dv + Mul(y, z))
  {
    assert (a * x + b * y) * z == a * (x * z) + b * (y * z);
  }

  lemma {:induction false} DotOfCombine(a: real, u: seq<real>, b: real, v: seq<real>, w: seq<real>, n: nat)
    requires n <= |u| == |v| == |w|
    ensures Dot(Combine(a, u, b, v), w, n) == Comb(a, Dot(u, w, n), b, Dot(v, w, n))
  {
    if n == 0 {
    } else {
      DotOfCombine(a, u, b, v, w, n - 1);
      hide Mul, Comb;
      CombTimes(a, u[n - 1], b, v[n - 1], w[n - 1], Dot(u, w, n - 1), Dot(v, w, n - 1));
    }
  }

  /** Turning two vectors into each other keeps the sum of their squared lengths. */
  lemma TurnKeepsSquares(c: real, s: real, u: seq<real>, v: seq<real>)
    requires |u| == |v| && IsRotation(c, s)
    ensures var x, y := Combine(c, u, -s, v), Combine(s, u, c, v);
      Dot(x, x, |u|) + Dot(y, y, |u|) == Dot(u, u, |u|) + Dot(v, v, |u|)
  {
    hide Dot, IsRotation, Comb;
    var n := |u|;
    var x, y := Combine(c, u, -s, v), Combine(s, u, c, v);
    DotOfCombine(c, u, -s, v, x, n);
    DotOfCombine(s, u, c, v, y, n);
    DotCommutes(u, x, n);
    DotCommutes(v, x, n);
    DotCommutes(u, y, n);
    DotCommutes(v, y, n);
    DotOfCombine(c, u, -s, v, u, n);
    DotOfCombine(c, u, -s, v, v, n);
    DotOfCombine(s, u, c, v, u, n);
    DotOfCombine(s, u, c, v, v, n);
    DotCommutes(u, v, n);
    TurnedSquares(c, s, Dot(u, u, n), Dot(u, v, n), Dot(v, v, n));
  }

  lemma TurnedSquares(c: real, s: real, a: real, b: real, d: real)
    requires IsRotation(c, s)
    ensures Comb(c, Comb(c, a, -s, b), -s, Comb(c, b, -s, d)) + Comb(s, Comb(s, a, c, b), c, Comb(s, b, c, d)) == a + d
  {
    hide Comb;
    TurnedSquaresExpanded(c, s, a, b, d, c * a + -s * b, c * b + -s * d, s * a + c * b, s * b + c * d);
    assert Comb(c, a, -s, b) == c * a + -s * b by { CombMeans(c, a, -s, b); }
    assert Comb(c, b, -s, d) == c * b + -s * d by { CombMeans(c, b, -s, d); }
    assert Comb(s, a, c, b) == s * a + c * b by { CombMeans(s, a, c, b); }
    assert Comb(s, b, c, d) == s * b + c * d by { CombMeans(s, b, c, d); }
  }

  lemma CombMeans(a: real, x: real, b: real, y: real)
    ensures Comb(a, x, b, y) == a * x + b * y
  {
  }

  lemma TurnedSquaresExpanded(c: real, s: real, a: real, b: real, d: real, x: real, y: real, z: real, w: real)
    requires IsRotation(c, s)
    requires x == c * a + -s * b && y == c * b + -s * d && z == s * a + c * b && w == s * b + c * d
    ensures Comb(c, x, -s, y) + Comb(s, z, c, w) == a + d
  {
    assert c * x + -s * y == c * c * a - 2.0 * (c * s * b) + s * s * d;
    assert s * z + c * w == s * s * a + 2.0 * (c * s * b) + c * c * d;
    assert (c * c + s * s) * a == a && (c * c + s * s) * d == d;
  }

  // ----- Cauchy-Schwarz -----

  lemma AddedTerm(d: real, q: real, y: real, a: real, b: real)
    requires q >= 0.0 && y >= 0.0 && d * d <= q * y
    ensures (d + a * b) * (d + a * b) <= (q + a * a) * (y + b * b)
  {
    var p, r, x := q * (b * b), y * (a * a), 2.0 * d * (a * b);
    var w := (a * b) * (a * b);
    assert b * b >= 0.0 && a * a >= 0.0 && w >= 0.0;
    assert p >= 0.0 && r >= 0.0;
    assert x * x <= 4.0 * (p * r) by {
      Regrouped(q, y, d, a, b);
      ScaledOrder(d * d, q * y, w);
    }
    CrossTerm(p, r, x);
    assert (d + a * b) * (d + a * b) == d * d + x + w;
    assert (q + a * a) * (y + b * b) == q * y + (p + r) + w by {
      assert (a * a) * (b * b) == w;
    }
  }

  lemma Regrouped(q: real, y: real, d: real, a: real, b: real)
    ensures (q * (b * b)) * (y * (a * a)) == (q * y) * ((a * b) * (a * b))
    ensures (2.0 * d * (a * b)) * (2.0 * d * (a * b)) == 4.0 * ((d * d) * ((a * b) * (a * b)))
  {
  }

  lemma ScaledOrder(x: real, y: real, w: real)
    requires x <= y && w >= 0.0
    ensures x * w <= y * w
  {
    assert (y - x) * w >= 0.0;
  }

  /** Twice the geometric mean is at most the sum. */
  lemma CrossTerm(p: real, r: real, x: real)
    requires p >= 0.0 && r >= 0.0 && x * x <= 4.0 * (p * r)
    ensures x <= p + r
  {
    assert (p - r) * (p - r) >= 0.0;
    assert (p + r) * (p + r) == (p - r) * (p - r) + 4.0 * (p * r);
    SquaresInOrder(x, p + r);
  }

  lemma SquaresInOrder(x: real, m: real)
    requires m >= 0.0 && x * x <= m * m
    ensures x <= m
  {
    if x > m {
      SquaresGrow(x, m);
      assert false;
    }
  }

  lemma SameSign(x: real, y: real)
    requires (x > 0.0 && y > 0.0) || (x < 0.0 && y < 0.0)
    ensures Mul(x, y) > 0.0
  {
    assert x * y > 0.0;
  }

  // ----- squared differences from one value -----

  /** Squared differences of `count` values from `x`, by the sums of their squares and of the values. */
  function Parabola(x: real, squares: real, sum: real, count: real): real {
    squares - 2.0 * x * sum + count * x * x
  }

  lemma ParabolaZero(x: real)
    ensures Parabola(x, 0.0, 0.0, 0.0) == 0.0
  {
  }

  /** The mean minimizes the parabola. */
  lemma MeanIsBest(squares: real, sum: real, count: real, c: real)
    requires count > 0.0
    ensures Parabola(sum / count, squares, sum, count) <= Parabola(c, squares, sum, count)
  {
    var m := sum / count;
    assert m * count == sum;
    assert Parabola(c, squares, sum, count) - Parabola(m, squares, sum, count) == count * ((m - c) * (m - c)) by {
      assert Parabola(c, squares, sum, count) == squares - 2.0 * c * (m * count) + count * c * c;
      assert Parabola(m, squares, sum, count) == squares - 2.0 * m * (m * count) + count * m * m;
    }
    assert (m - c) * (m - c) >= 0.0;
    assert count * ((m - c) * (m - c)) >= 0.0;
  }

  lemma PositiveProduct(a: real, b: real)
    requires a > 0.0 && b > 0.0
    ensures a * b > 0.0
  {
  }

  lemma SquaresGrow(x: real, m: real)
    requires x > m >= 0.0
    ensures x * x > m * m
  {
    PositiveProduct(x - m, x + m);
    assert (x - m) * (x + m) == x * x - m * m;
  }

  ghost predicate ProductBound(d: real, x: real, y: real) {
    x >= 0.0 && y >= 0.0 && d * d <= x * y
  }

  lemma BoundStep(d: real, x: real, y: real, a: real, b: real)
    requires ProductBound(d, x, y)
    ensures ProductBound(d + Mul(a, b), x + Mul(a, a), y + Mul(b, b))
  {
    assert a * a >= 0.0 && b * b >= 0.0;
    AddedTerm(d, x, y, a, b);
  }

  /** (u.v)^2 <= |u|^2 |v|^2 */
  lemma {:induction false} CauchySchwarz(u: seq<real>, v: seq<real>, n: nat)
    requires n <= |u| && n <= |v|
    ensures ProductBound(Dot(u, v, n), Dot(u, u, n), Dot(v, v, n))
  {
    if n > 0 {
      hide ProductBound, Mul;
      CauchySchwarz(u, v, n - 1);
      BoundStep(Dot(u, v, n - 1), Dot(u, u, n - 1), Dot(v, v, n - 1), u[n - 1], v[n - 1]);
    }
  }

  /** The bound in the form the code uses it. */
  lemma DotBelowRoot(u: seq<real>, v: seq<real>, n: nat, sqrt: real -> real)
    requires n <= |u| && n <= |v| && IsSqrt(sqrt)
    ensures Dot(u, v, n) <= sqrt(Mul(Dot(u, u, n), Dot(v, v, n)))
  {
    hide Dot, Mul, ProductBound;
    CauchySchwarz(u, v, n);
    RootBound(Dot(u, v, n), Dot(u, u, n), Dot(v, v, n), Mul(Dot(u, u, n), Dot(v, v, n)), sqrt);
  }

  lemma RootBound(d: real, x: real, y: real, m: real, sqrt: real -> real)
    requires ProductBound(d, x, y) && m == Mul(x, y) && IsSqrt(sqrt)
    ensures d <= sqrt(m)
  {
    assert m >= 0.0;
    var r := sqrt(m);
    assert r >= 0.0 && r * r == m;
    SquaresInOrder(d, r);
  }
}
