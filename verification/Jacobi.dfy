/** Cyclic Jacobi eigendecomposition (scripts/jacobi_check.cpp, `jacobi_eigen`). */
module Jacobi {
  import opened Numbers
  import opened Vectors

  type Matrix = seq<seq<real>>

  ghost predicate Square(a: Matrix, n: nat) {
    |a| == n && forall i :: 0 <= i < n ==> |a[i]| == n
  }

  ghost predicate Symmetric(a: Matrix, n: nat)
    requires Square(a, n)
  {
    forall i, j :: 0 <= i < n && 0 <= j < n ==> a[i][j] == a[j][i]
  }

  // ----- one rotation, as linear algebra -----

  /** Every row turned: a * J. */
  ghost function ColRot(a: Matrix, n: nat, p: nat, q: nat, c: real, s: real): (r: Matrix)
    requires Square(a, n) && p < q < n
    ensures Square(r, n) && forall i :: 0 <= i < n ==> r[i] == Rot(a[i], p, q, c, s)
  {
    seq(n, i requires 0 <= i < n => Rot(a[i], p, q, c, s))
  }

  /** Rows and columns turned: transpose(J) * a * J. */
  ghost function Conj(a: Matrix, n: nat, p: nat, q: nat, c: real, s: real): (r: Matrix)
    requires Square(a, n) && p < q < n
    ensures Square(r, n)
  {
    var b := ColRot(a, n, p, q, c, s);
    b[p := Combine(c, b[p], -s, b[q])][q := Combine(s, b[p], c, b[q])]
  }

  /** What the code writes: the pivot entries cleared, row and column p, q turned, all else kept. */
  ghost function Rotated(a: Matrix, n: nat, p: nat, q: nat, t: real, c: real, s: real): (r: Matrix)
    requires Square(a, n) && p < q < n
    ensures Square(r, n)
    ensures r[p][p] == a[p][p] - Mul(t, a[p][q]) && r[q][q] == a[q][q] + Mul(t, a[p][q]) && r[p][q] == r[q][p] == 0.0
    ensures forall i :: 0 <= i < n && i != p && i != q ==>
              && r[i][p] == r[p][i] == TurnP(c, s, a[i][p], a[i][q])
              && r[i][q] == r[q][i] == TurnQ(c, s, a[i][p], a[i][q])
    ensures forall i, j :: 0 <= i < n && 0 <= j < n && i != p && i != q && j != p && j != q ==> r[i][j] == a[i][j]
  {
    seq(n, i requires 0 <= i < n => seq(n, j requires 0 <= j < n => RotatedAt(a, n, p, q, t, c, s, i, j)))
  }

  ghost function RotatedAt(a: Matrix, n: nat, p: nat, q: nat, t: real, c: real, s: real, i: nat, j: nat): real
    requires Square(a, n) && p < q < n && i < n && j < n
  {
    if i == p && j == p then a[p][p] - Mul(t, a[p][q])
    else if i == q && j == q then a[q][q] + Mul(t, a[p][q])
    else if (i == p && j == q) || (i == q && j == p) then 0.0
    else if j == p then TurnP(c, s, a[i][p], a[i][q])
    else if i == p then TurnP(c, s, a[j][p], a[j][q])
    else if j == q then TurnQ(c, s, a[i][p], a[i][q])
    else if i == q then TurnQ(c, s, a[j][p], a[j][q])
    else a[i][j]
  }

  /** t is the tangent of the rotation (c, s). */
  ghost predicate Angle(t: real, c: real, s: real) {
    c * c * (1.0 + t * t) == 1.0 && s == t * c
  }

  /** How far t misses the root of t^2 + 2 theta t - 1, where 2 theta apq == aqq - app. */
  ghost function Missed(t: real, app: real, aqq: real, apq: real): real {
    apq * (t * t) + t * (aqq - app) - apq
  }

  /** t annihilates the pivot. */
  ghost predicate Annihilates(t: real, app: real, aqq: real, apq: real) {
    Missed(t, app, aqq, apq) == 0.0
  }

  lemma AngleIsRotation(t: real, c: real, s: real)
    requires Angle(t, c, s)
    ensures IsRotation(c, s)
  {
    assert s * s == t * t * (c * c);
  }

  /** The pivot entries of transpose(J) * a * J, whatever t is: `z` is how far t misses. */
  lemma PivotExpanded(t: real, c: real, s: real, app: real, aqq: real, apq: real, z: real)
    requires Angle(t, c, s) && z == apq * (t * t) + t * (aqq - app) - apq
    ensures c * (c * app - s * apq) + -s * (c * apq - s * aqq) == app - t * apq + c * c * (t * z)
    ensures s * (s * app + c * apq) + c * (s * apq + c * aqq) == aqq + t * apq - c * c * (t * z)
    ensures c * (s * app + c * apq) + -s * (s * apq + c * aqq) == -(c * c * z)
    ensures s * (c * app - s * apq) + c * (c * apq - s * aqq) == -(c * c * z)
  {
    var cc := c * c;
    assert c * s == cc * t && s * s == cc * (t * t);
    assert cc + cc * (t * t) == 1.0;
    assert c * (s * app + c * apq) + -s * (s * apq + c * aqq) == -(cc * z);
    assert s * (c * app - s * apq) + c * (c * apq - s * aqq) == -(cc * z);
    assert c * (c * app - s * apq) + -s * (c * apq - s * aqq) == app - t * apq + cc * (t * z);
    assert s * (s * app + c * apq) + c * (s * apq + c * aqq) == aqq + t * apq - cc * (t * z);
  }

  lemma PivotCleared(t: real, c: real, s: real, app: real, aqq: real, apq: real)
    requires Angle(t, c, s) && Annihilates(t, app, aqq, apq)
    ensures Comb(c, c * app - s * apq, -s, c * apq - s * aqq) == app - t * apq
    ensures Comb(s, s * app + c * apq, c, s * apq + c * aqq) == aqq + t * apq
    ensures Comb(c, s * app + c * apq, -s, s * apq + c * aqq) == 0.0
    ensures Comb(s, c * app - s * apq, c, c * apq - s * aqq) == 0.0
  {
    hide Angle;
    PivotExpanded(t, c, s, app, aqq, apq, 0.0);
    assert c * c * (t * 0.0) == 0.0 && -(c * c * 0.0) == 0.0;
  }

  lemma PivotEntries(t: real, c: real, s: real, app: real, aqq: real, apq: real)
    requires Angle(t, c, s) && Annihilates(t, app, aqq, apq)
    ensures Comb(c, TurnP(c, s, app, apq), -s, TurnP(c, s, apq, aqq)) == app - Mul(t, apq)
    ensures Comb(s, TurnQ(c, s, app, apq), c, TurnQ(c, s, apq, aqq)) == aqq + Mul(t, apq)
    ensures Comb(c, TurnQ(c, s, app, apq), -s, TurnQ(c, s, apq, aqq)) == 0.0
    ensures Comb(s, TurnP(c, s, app, apq), c, TurnP(c, s, apq, aqq)) == 0.0
  {
    hide Comb, Angle, Annihilates;
    PivotCleared(t, c, s, app, aqq, apq);
  }

  // ----- the code's update is the congruence -----

  lemma TurnedRowEntry(a: Matrix, n: nat, p: nat, q: nat, c: real, s: real, j: nat)
    requires Square(a, n) && p < q < n && j < n && j != p && j != q
    ensures var b := Conj(a, n, p, q, c, s);
      b[p][j] == TurnP(c, s, a[p][j], a[q][j]) && b[q][j] == TurnQ(c, s, a[p][j], a[q][j])
  {
  }

  /** On a symmetric matrix and with an annihilating t, the in-place update computes transpose(J) * a * J. */
  lemma RotatedIsConj(a: Matrix, n: nat, p: nat, q: nat, t: real, c: real, s: real)
    requires Square(a, n) && p < q < n && Symmetric(a, n)
    requires Angle(t, c, s) && Annihilates(t, a[p][p], a[q][q], a[p][q])
    ensures Rotated(a, n, p, q, t, c, s) == Conj(a, n, p, q, c, s)
  {
    hide Angle, Annihilates, TurnP, TurnQ, Comb, Rotated;
    var r, b := Rotated(a, n, p, q, t, c, s), Conj(a, n, p, q, c, s);
    PivotEntries(t, c, s, a[p][p], a[q][q], a[p][q]);
    forall i, j | 0 <= i < n && 0 <= j < n ensures r[i][j] == b[i][j] {
      if (i == p || i == q) && j != p && j != q {
        TurnedRowEntry(a, n, p, q, c, s, j);
      }
    }
    forall i | 0 <= i < n ensures r[i] == b[i] {
    }
  }

  /** The update keeps symmetry for any t, c, s. */
  lemma RotatedSymmetric(a: Matrix, n: nat, p: nat, q: nat, t: real, c: real, s: real)
    requires Square(a, n) && p < q < n && Symmetric(a, n)
    ensures Symmetric(Rotated(a, n, p, q, t, c, s), n)
  {
    hide TurnP, TurnQ, Rotated;
  }

  // ----- trace, Frobenius norm, off-diagonal mass -----

  ghost function Diagonal(a: Matrix, n: nat): (r: seq<real>)
    requires Square(a, n)
    ensures |r| == n && forall i :: 0 <= i < n ==> r[i] == a[i][i]
  {
    seq(n, i requires 0 <= i < n => a[i][i])
  }

  ghost function Trace(a: Matrix, n: nat): real
    requires Square(a, n)
  {
    Sum(Diagonal(a, n), n)
  }

  ghost function RowSquares(a: Matrix, n: nat): (r: seq<real>)
    requires Square(a, n)
    ensures |r| == n && forall i :: 0 <= i < n ==> r[i] == Dot(a[i], a[i], n)
  {
    seq(n, i requires 0 <= i < n => Dot(a[i], a[i], n))
  }

  /** Sum of the squares of all entries. */
  ghost function Frobenius(a: Matrix, n: nat): real
    requires Square(a, n)
  {
    Sum(RowSquares(a, n), n)
  }

  /** Sum of the squares of the entries of row `i` before column `k`, the diagonal one left out. */
  ghost function OffRow(a: Matrix, n: nat, i: nat, k: nat): real
    requires Square(a, n) && i < n && k <= n
  {
    if k == 0 then 0.0 else OffRow(a, n, i, k - 1) + if k - 1 == i then 0.0 else Mul(a[i][k - 1], a[i][k - 1])
  }

  /** Sum of the squares of the off-diagonal entries of the first `k` rows. */
  ghost function OffSquares(a: Matrix, n: nat, k: nat): real
    requires Square(a, n) && k <= n
  {
    if k == 0 then 0.0 else OffSquares(a, n, k - 1) + OffRow(a, n, k - 1, n)
  }

  lemma {:induction false} OffRowIsRest(a: Matrix, n: nat, i: nat, k: nat)
    requires Square(a, n) && i < n && k <= n
    ensures Dot(a[i], a[i], k) == OffRow(a, n, i, k) + if i < k then Mul(a[i][i], a[i][i]) else 0.0
  {
    hide Mul;
    if k > 0 {
      OffRowIsRest(a, n, i, k - 1);
    }
  }

  lemma {:induction false} OffSquaresIsRest(a: Matrix, n: nat, k: nat)
    requires Square(a, n) && k <= n
    ensures Sum(RowSquares(a, n), k) == OffSquares(a, n, k) + Dot(Diagonal(a, n), Diagonal(a, n), k)
  {
    hide Mul;
    if k > 0 {
      OffSquaresIsRest(a, n, k - 1);
      OffRowIsRest(a, n, k - 1, n);
    }
  }

  /** Trace is kept by the update for any t. */
  lemma RotatedKeepsTrace(a: Matrix, n: nat, p: nat, q: nat, t: real, c: real, s: real)
    requires Square(a, n) && p < q < n
    ensures Trace(Rotated(a, n, p, q, t, c, s), n) == Trace(a, n)
  {
    hide TurnP, TurnQ, Rotated, Sum;
    SumDiff(Diagonal(a, n), Diagonal(Rotated(a, n, p, q, t, c, s), n), p, q, n);
  }

  lemma ConjKeepsFrobenius(a: Matrix, n: nat, p: nat, q: nat, c: real, s: real)
    requires Square(a, n) && p < q < n && IsRotation(c, s)
    ensures Frobenius(Conj(a, n, p, q, c, s), n) == Frobenius(a, n)
  {
    hide IsRotation, Dot, Sum, Rot;
    var r, b := ColRot(a, n, p, q, c, s), Conj(a, n, p, q, c, s);
    forall i | 0 <= i < n ensures Dot(r[i], r[i], n) == Dot(a[i], a[i], n) {
      RotKeepsDot(a[i], a[i], p, q, c, s);
    }
    assert RowSquares(r, n) == RowSquares(a, n);
    TurnKeepsSquares(c, s, r[p], r[q]);
    SumDiff(RowSquares(r, n), RowSquares(b, n), p, q, n);
  }

  /** What the update does to the squares of the two diagonal entries, whatever t is. */
  lemma PivotSquares(t: real, app: real, aqq: real, apq: real)
    ensures Mul(app - Mul(t, apq), app - Mul(t, apq)) + Mul(aqq + Mul(t, apq), aqq + Mul(t, apq))
            == Mul(app, app) + Mul(aqq, aqq) + 2.0 * Mul(apq, apq) + 2.0 * Mul(apq, Missed(t, app, aqq, apq))
  {
    hide *;
    MovedSquares(app, aqq, Mul(t, apq));
    MovedBy(t, app, aqq, apq);
  }

  lemma MovedSquares(app: real, aqq: real, m: real)
    ensures Mul(app - m, app - m) + Mul(aqq + m, aqq + m)
            == Mul(app, app) + Mul(aqq, aqq) + 2.0 * (Mul(m, m) + Mul(m, aqq - app))
  {
  }

  lemma MovedBy(t: real, app: real, aqq: real, apq: real)
    ensures Mul(Mul(t, apq), Mul(t, apq)) + Mul(Mul(t, apq), aqq - app)
            == Mul(apq, apq) + Mul(apq, Missed(t, app, aqq, apq))
  {
    var m := t * apq;
    assert m * m + m * (aqq - app) == apq * apq + apq * (apq * (t * t) + t * (aqq - app) - apq);
  }

  /** An exact rotation keeps the Frobenius norm and moves exactly twice the squared pivot
      from the off-diagonal to the diagonal. */
  lemma RotationDrainsPivot(a: Matrix, n: nat, p: nat, q: nat, t: real, c: real, s: real)
    requires Square(a, n) && p < q < n && Symmetric(a, n)
    requires Angle(t, c, s) && Annihilates(t, a[p][p], a[q][q], a[p][q])
    ensures var r := Rotated(a, n, p, q, t, c, s);
      && Frobenius(r, n) == Frobenius(a, n)
      && OffSquares(r, n, n) == OffSquares(a, n, n) - 2.0 * Mul(a[p][q], a[p][q])
  {
    hide Angle, Annihilates, Rotated, Dot, Mul, OffSquares, Frobenius, Symmetric, Missed, TurnP, TurnQ;
    var r := Rotated(a, n, p, q, t, c, s);
    RotationKeepsFrobenius(a, n, p, q, t, c, s);
    FrobeniusSplits(a, n);
    FrobeniusSplits(r, n);
    PivotSquares(t, a[p][p], a[q][q], a[p][q]);
    NothingMissed(t, a[p][p], a[q][q], a[p][q]);
    DotDiff(Diagonal(a, n), Diagonal(a, n), Diagonal(r, n), Diagonal(r, n), p, q, n);
  }

  lemma RotationKeepsFrobenius(a: Matrix, n: nat, p: nat, q: nat, t: real, c: real, s: real)
    requires Square(a, n) && p < q < n && Symmetric(a, n)
    requires Angle(t, c, s) && Annihilates(t, a[p][p], a[q][q], a[p][q])
    ensures Frobenius(Rotated(a, n, p, q, t, c, s), n) == Frobenius(a, n)
  {
    AngleIsRotation(t, c, s);
    hide *;
    RotatedIsConj(a, n, p, q, t, c, s);
    ConjKeepsFrobenius(a, n, p, q, c, s);
  }

  lemma NothingMissed(t: real, app: real, aqq: real, apq: real)
    requires Annihilates(t, app, aqq, apq)
    ensures Mul(apq, Missed(t, app, aqq, apq)) == 0.0
  {
  }

  lemma FrobeniusSplits(a: Matrix, n: nat)
    requires Square(a, n)
    ensures Frobenius(a, n) == OffSquares(a, n, n) + Dot(Diagonal(a, n), Diagonal(a, n), n)
  {
    OffSquaresIsRest(a, n, n);
  }

  // ----- any rotation, exact or not -----

  ghost predicate SameOffDiagonal(a: Matrix, b: Matrix, n: nat)
    requires Square(a, n) && Square(b, n)
  {
    forall i, j :: 0 <= i < n && 0 <= j < n && i != j ==> a[i][j] == b[i][j]
  }

  lemma {:induction false} SameOffRow(a: Matrix, b: Matrix, n: nat, i: nat, k: nat)
    requires Square(a, n) && Square(b, n) && SameOffDiagonal(a, b, n) && i < n && k <= n
    ensures OffRow(a, n, i, k) == OffRow(b, n, i, k)
  {
    if k > 0 {
      SameOffRow(a, b, n, i, k - 1);
    }
  }

  lemma {:induction false} SameOffSquares(a: Matrix, b: Matrix, n: nat, k: nat)
    requires Square(a, n) && Square(b, n) && SameOffDiagonal(a, b, n) && k <= n
    ensures OffSquares(a, n, k) == OffSquares(b, n, k)
  {
    if k > 0 {
      SameOffSquares(a, b, n, k - 1);
      SameOffRow(a, b, n, k - 1, n);
    }
  }

  /** The matrix with another diagonal entry at `q`. */
  ghost function WithEntry(a: Matrix, n: nat, q: nat, x: real): (r: Matrix)
    requires Square(a, n) && q < n
    ensures Square(r, n) && r[q][q] == x && SameOffDiagonal(a, r, n)
    ensures forall i :: 0 <= i < n && i != q ==> r[i][i] == a[i][i]
  {
    a[q := a[q][q := x]]
  }

  /** Every angle but 0 annihilates the pivot of some matrix with the same off-diagonal entries. */
  lemma FittingEntry(t: real, app: real, apq: real) returns (x: real)
    requires t != 0.0
    ensures Annihilates(t, app, x, apq)
  {
    var d := apq * (1.0 - t * t) / t;
    x := app + d;
    assert d * t == apq * (1.0 - t * t);
  }

  /** Whatever the angle, the off-diagonal squares fall by exactly twice the pivot's square: off the diagonal
      the update does not depend on the diagonal. */
  lemma RotationAlwaysDrains(a: Matrix, n: nat, p: nat, q: nat, t: real, c: real, s: real)
    requires Square(a, n) && p < q < n && Symmetric(a, n) && Angle(t, c, s) && t != 0.0
    ensures OffSquares(Rotated(a, n, p, q, t, c, s), n, n) == OffSquares(a, n, n) - 2.0 * Mul(a[p][q], a[p][q])
  {
    var x := FittingEntry(t, a[p][p], a[p][q]);
    var b := WithEntry(a, n, q, x);
    hide Angle, Annihilates, TurnP, TurnQ, Rotated, WithEntry, Mul, OffSquares, Frobenius;
    assert b[p][q] == a[p][q] && b[p][p] == a[p][p];
    RotationDrainsPivot(b, n, p, q, t, c, s);
    SameOffSquares(a, b, n, n);
    SameOffSquares(Rotated(a, n, p, q, t, c, s), Rotated(b, n, p, q, t, c, s), n, n);
  }

  /** The Frobenius norm changes by what the angle misses. */
  lemma RotationGrows(a: Matrix, n: nat, p: nat, q: nat, t: real, c: real, s: real)
    requires Square(a, n) && p < q < n && Symmetric(a, n) && Angle(t, c, s) && t != 0.0
    ensures Frobenius(Rotated(a, n, p, q, t, c, s), n)
            == Frobenius(a, n) + 2.0 * Mul(a[p][q], Missed(t, a[p][p], a[q][q], a[p][q]))
  {
    hide Angle, TurnP, TurnQ, Rotated, Dot, Mul, OffSquares, Frobenius, Missed, Symmetric;
    var r := Rotated(a, n, p, q, t, c, s);
    RotationAlwaysDrains(a, n, p, q, t, c, s);
    FrobeniusSplits(a, n);
    FrobeniusSplits(r, n);
    PivotSquares(t, a[p][p], a[q][q], a[p][q]);
    DotDiff(Diagonal(a, n), Diagonal(a, n), Diagonal(r, n), Diagonal(r, n), p, q, n);
  }

  // ----- what the eigenvectors stand for -----

  /** a * y */
  ghost function Apply(a: Matrix, y: seq<real>, n: nat): (r: seq<real>)
    requires Square(a, n) && |y| == n
    ensures |r| == n && forall k :: 0 <= k < n ==> r[k] == Dot(a[k], y, n)
  {
    seq(n, k requires 0 <= k < n => Dot(a[k], y, n))
  }

  /** x * a * y; over the rows of v this is the entry of v * a * transpose(v). */
  ghost function Form(x: seq<real>, a: Matrix, y: seq<real>, n: nat): real
    requires Square(a, n) && |x| == n && |y| == n
  {
    Dot(x, Apply(a, y, n), n)
  }

  lemma CombIsTurn(c: real, s: real, x: real, y: real)
    ensures Comb(c, x, -s, y) == TurnP(c, s, x, y) && Comb(s, x, c, y) == TurnQ(c, s, x, y)
  {
  }

  /** Turning the matrix and both vectors leaves the form unchanged. */
  lemma ConjKeepsForm(a: Matrix, n: nat, p: nat, q: nat, c: real, s: real, x: seq<real>, y: seq<real>)
    requires Square(a, n) && p < q < n && IsRotation(c, s) && |x| == |y| == n
    ensures Form(Rot(x, p, q, c, s), Conj(a, n, p, q, c, s), Rot(y, p, q, c, s), n) == Form(x, a, y, n)
  {
    hide IsRotation, Dot, Rot, TurnP, TurnQ, Comb;
    var r, b, y' := ColRot(a, n, p, q, c, s), Conj(a, n, p, q, c, s), Rot(y, p, q, c, s);
    var w := Apply(a, y, n);
    forall k | 0 <= k < n ensures Dot(r[k], y', n) == w[k] {
      RotKeepsDot(a[k], y, p, q, c, s);
    }
    DotOfCombine(c, r[p], -s, r[q], y', n);
    DotOfCombine(s, r[p], c, r[q], y', n);
    CombIsTurn(c, s, w[p], w[q]);
    assert Apply(b, y', n) == Rot(w, p, q, c, s);
    RotKeepsDot(x, w, p, q, c, s);
  }

  /** v * a * transpose(v) == m */
  ghost predicate Decomposes(v: Matrix, a: Matrix, m: Matrix, n: nat)
    requires Square(v, n) && Square(a, n) && Square(m, n)
  {
    forall i, j :: 0 <= i < n && 0 <= j < n ==> Form(v[i], a, v[j], n) == m[i][j]
  }

  /** v * transpose(v) == 1 */
  ghost predicate RowsOrthonormal(v: Matrix, n: nat)
    requires Square(v, n)
  {
    forall i, j :: 0 <= i < n && 0 <= j < n ==> Dot(v[i], v[j], n) == if i == j then 1.0 else 0.0
  }

  lemma RotationKeepsRows(v: Matrix, n: nat, p: nat, q: nat, c: real, s: real)
    requires Square(v, n) && p < q < n && IsRotation(c, s) && RowsOrthonormal(v, n)
    ensures RowsOrthonormal(ColRot(v, n, p, q, c, s), n)
  {
    hide IsRotation, Dot, Rot;
    forall i, j | 0 <= i < n && 0 <= j < n
      ensures Dot(Rot(v[i], p, q, c, s), Rot(v[j], p, q, c, s), n) == Dot(v[i], v[j], n)
    {
      RotKeepsDot(v[i], v[j], p, q, c, s);
    }
  }

  lemma RotationKeepsDecomposition(v: Matrix, a: Matrix, m: Matrix, n: nat, p: nat, q: nat, t: real, c: real, s: real)
    requires Square(v, n) && Square(a, n) && Square(m, n) && p < q < n && Symmetric(a, n)
    requires Angle(t, c, s) && Annihilates(t, a[p][p], a[q][q], a[p][q])
    requires Decomposes(v, a, m, n)
    ensures Decomposes(ColRot(v, n, p, q, c, s), Rotated(a, n, p, q, t, c, s), m, n)
  {
    AngleIsRotation(t, c, s);
    hide Angle, Annihilates, IsRotation, Form, Rot, Rotated, Conj, Symmetric;
    RotatedIsConj(a, n, p, q, t, c, s);
    forall i, j | 0 <= i < n && 0 <= j < n
      ensures Form(Rot(v[i], p, q, c, s), Conj(a, n, p, q, c, s), Rot(v[j], p, q, c, s), n) == Form(v[i], a, v[j], n)
    {
      ConjKeepsForm(a, n, p, q, c, s, v[i], v[j]);
    }
  }

  // ----- the columns of v -----

  ghost function Transpose(v: Matrix, n: nat): (r: Matrix)
    requires Square(v, n)
    ensures Square(r, n) && forall i, j :: 0 <= i < n && 0 <= j < n ==> r[i][j] == v[j][i]
  {
    seq(n, i requires 0 <= i < n => seq(n, j requires 0 <= j < n => v[j][i]))
  }

  /** transpose(v) * v == 1 */
  ghost predicate ColumnsOrthonormal(v: Matrix, n: nat)
    requires Square(v, n)
  {
    RowsOrthonormal(Transpose(v, n), n)
  }

  /** Turning every row of v turns its columns p and q into each other. */
  lemma TransposeOfTurned(v: Matrix, n: nat, p: nat, q: nat, c: real, s: real)
    requires Square(v, n) && p < q < n
    ensures var w, w' := Transpose(v, n), Transpose(ColRot(v, n, p, q, c, s), n);
      && w'[p] == Combine(c, w[p], -s, w[q]) && w'[q] == Combine(s, w[p], c, w[q])
      && forall k :: 0 <= k < n && k != p && k != q ==> w'[k] == w[k]
  {
    hide TurnP, TurnQ, Comb, Rot;
    var w, w' := Transpose(v, n), Transpose(ColRot(v, n, p, q, c, s), n);
    forall j | 0 <= j < n
      ensures w'[p][j] == Comb(c, w[p][j], -s, w[q][j]) && w'[q][j] == Comb(s, w[p][j], c, w[q][j])
    {
      CombIsTurn(c, s, v[j][p], v[j][q]);
    }
    forall k | 0 <= k < n && k != p && k != q ensures w'[k] == w[k] {
    }
  }

  lemma CombOfUnits(c: real, s: real)
    requires IsRotation(c, s)
    ensures Comb(c, 1.0, -s, 0.0) == c && Comb(c, 0.0, -s, 1.0) == -s
    ensures Comb(s, 1.0, c, 0.0) == s && Comb(s, 0.0, c, 1.0) == c
    ensures Comb(c, c, -s, -s) == 1.0 && Comb(s, s, c, c) == 1.0 && Comb(c, s, -s, c) == 0.0
    ensures Comb(c, 0.0, -s, 0.0) == 0.0 && Comb(s, 0.0, c, 0.0) == 0.0
  {
  }

  lemma RotationKeepsColumns(v: Matrix, n: nat, p: nat, q: nat, c: real, s: real)
    requires Square(v, n) && p < q < n && IsRotation(c, s) && ColumnsOrthonormal(v, n)
    ensures ColumnsOrthonormal(ColRot(v, n, p, q, c, s), n)
  {
    hide IsRotation, Dot, Comb, Combine, Transpose;
    var w, w' := Transpose(v, n), Transpose(ColRot(v, n, p, q, c, s), n);
    TransposeOfTurned(v, n, p, q, c, s);
    CombOfUnits(c, s);
    forall k | 0 <= k < n
      ensures Dot(w'[p], w[k], n) == Dot(w[k], w'[p], n) == Comb(c, Dot(w[p], w[k], n), -s, Dot(w[q], w[k], n))
      ensures Dot(w'[q], w[k], n) == Dot(w[k], w'[q], n) == Comb(s, Dot(w[p], w[k], n), c, Dot(w[q], w[k], n))
    {
      DotOfCombine(c, w[p], -s, w[q], w[k], n);
      DotOfCombine(s, w[p], c, w[q], w[k], n);
      DotCommutes(w'[p], w[k], n);
      DotCommutes(w'[q], w[k], n);
    }
    DotOfCombine(c, w[p], -s, w[q], w'[p], n);
    DotOfCombine(c, w[p], -s, w[q], w'[q], n);
    DotOfCombine(s, w[p], c, w[q], w'[q], n);
    DotCommutes(w'[p], w'[q], n);
  }

  // ----- the angle the code picks -----

  const HUGE_THETA: real := 1e15

  function Theta(app: real, aqq: real, apq: real): real
    requires apq != 0.0
  {
    (aqq - app) / (2.0 * apq)
  }

  /** Of the two roots of t^2 + 2 theta t - 1 the smaller one; for huge theta its leading term. */
  function Tangent(theta: real, root: real): real
    requires root > 0.0
  {
    if Abs(theta) > HUGE_THETA then 1.0 / (2.0 * theta)
    else (if theta >= 0.0 then 1.0 else -1.0) / (Abs(theta) + root)
  }

  lemma TangentRoot(theta: real, root: real)
    requires root > 0.0 && root * root == theta * theta + 1.0
    ensures var t := Tangent(theta, root);
      t * t + 2.0 * theta * t - 1.0 == if Abs(theta) > HUGE_THETA then t * t else 0.0
  {
    var t := Tangent(theta, root);
    if Abs(theta) > HUGE_THETA {
      InverseTimes(2.0 * theta);
    } else {
      var d := Abs(theta) + root;
      InverseTimes(d);
      var i := 1.0 / d;
      assert (root - Abs(theta)) * d == 1.0;
      assert i == root - Abs(theta) by {
        assert i * ((root - Abs(theta)) * d) == (i * d) * (root - Abs(theta));
      }
      assert t == if theta >= 0.0 then i else -i by {
        NegatedInverse(d);
      }
    }
  }

  /** The tangent is that of the smaller angle, at most 45 degrees, and has the sign of theta. */
  lemma TangentIsSmaller(theta: real, root: real)
    requires root > 0.0 && root * root == theta * theta + 1.0
    ensures -1.0 <= Tangent(theta, root) <= 1.0
    ensures if theta >= 0.0 then Tangent(theta, root) > 0.0 else Tangent(theta, root) < 0.0
  {
    if Abs(theta) > HUGE_THETA {
      SmallInverse(if theta > 0.0 then 2.0 * theta else -2.0 * theta);
      if theta < 0.0 {
        NegatedInverse(-2.0 * theta);
        assert 1.0 / (2.0 * theta) == -(1.0 / (-2.0 * theta));
      }
    } else {
      RootAtLeastOne(theta, root);
      SmallInverse(Abs(theta) + root);
      NegatedInverse(Abs(theta) + root);
    }
  }

  lemma RootAtLeastOne(theta: real, root: real)
    requires root > 0.0 && root * root == theta * theta + 1.0
    ensures root >= 1.0
  {
    assert theta * theta >= 0.0;
    SquaresInOrder(1.0, root);
  }

  lemma SmallInverse(x: real)
    requires x >= 1.0
    ensures 0.0 < 1.0 / x <= 1.0
  {
  }

  lemma InverseTimes(x: real)
    requires x != 0.0
    ensures 1.0 / x * x == 1.0 && 1.0 / x != 0.0
  {
  }

  lemma NegatedInverse(x: real)
    requires x > 0.0
    ensures -1.0 / x == -(1.0 / x)
  {
  }

  /** The code's tangent annihilates the pivot exactly when theta is not huge. */
  lemma AnnihilatesIffNotHuge(app: real, aqq: real, apq: real, root: real)
    requires apq != 0.0 && root > 0.0
    requires root * root == Theta(app, aqq, apq) * Theta(app, aqq, apq) + 1.0
    ensures Annihilates(Tangent(Theta(app, aqq, apq), root), app, aqq, apq) <==> Abs(Theta(app, aqq, apq)) <= HUGE_THETA
  {
    var theta := Theta(app, aqq, apq);
    var t := Tangent(theta, root);
    TangentRoot(theta, root);
    assert theta * (2.0 * apq) == aqq - app;
    MissedBy(theta, t, aqq - app, apq, t * t + 2.0 * theta * t - 1.0);
    if Abs(theta) > HUGE_THETA {
      InverseTimes(2.0 * theta);
      NonZeroProduct(t, t);
      NonZeroProduct(apq, t * t);
    }
  }

  lemma NonZeroProduct(x: real, y: real)
    requires x != 0.0 && y != 0.0
    ensures x * y != 0.0
  {
  }

  lemma MissedBy(theta: real, t: real, d: real, apq: real, r: real)
    requires theta * (2.0 * apq) == d && r == t * t + 2.0 * theta * t - 1.0
    ensures apq * (t * t) + t * d - apq == apq * r
  {
    assert t * d == apq * (2.0 * theta * t);
  }

  lemma CosineOf(t: real, root: real, c: real, s: real)
    requires root > 0.0 && root * root == t * t + 1.0 && c == 1.0 / root && s == t * c
    ensures Angle(t, c, s)
  {
    InverseTimes(root);
    assert c * c * (root * root) == (c * root) * (c * root);
  }

  lemma PositiveRoot(x: real, sqrt: real -> real)
    requires IsSqrt(sqrt)
    ensures sqrt(x * x + 1.0) > 0.0 && sqrt(x * x + 1.0) * sqrt(x * x + 1.0) == x * x + 1.0
  {
    assert x * x >= 0.0;
    var r := sqrt(x * x + 1.0);
    assert r * r == x * x + 1.0;
    assert r != 0.0;
  }

  // ----- the algorithm -----

  ghost function Rows(a: array2<real>, n: nat): (r: Matrix)
    requires a.Length0 == a.Length1 == n
    reads a
    ensures Square(r, n) && forall i, j :: 0 <= i < n && 0 <= j < n ==> r[i][j] == a[i, j]
  {
    RowsOf(a)
  }

  /** The entry lies in row or column `i` and in column or row `p` or `q`. */
  predicate Touched(k: nat, l: nat, p: nat, q: nat, i: nat) {
    (k == i && (l == p || l == q)) || (l == i && (k == p || k == q))
  }

  /** Row and column `i` at columns and rows `p` and `q`, the lower value copied to the upper. */
  method TurnEntries(a: array2<real>, n: nat, p: nat, q: nat, i: nat, c: real, s: real)
    requires a.Length0 == a.Length1 == n && p < q < n && i < n && i != p && i != q
    modifies a
    ensures a[i, p] == a[p, i] == TurnP(c, s, old(a[i, p]), old(a[i, q]))
    ensures a[i, q] == a[q, i] == TurnQ(c, s, old(a[i, p]), old(a[i, q]))
    ensures forall k, l :: 0 <= k < n && 0 <= l < n && !Touched(k, l, p, q, i) ==>
              a[k, l] == old(a[k, l])
  {
    hide TurnP, TurnQ;
    var aip, aiq := a[i, p], a[i, q];
    a[i, p] := TurnP(c, s, aip, aiq);
    a[p, i] := a[i, p];
    a[i, q] := TurnQ(c, s, aip, aiq);
    a[q, i] := a[i, q];
  }

  /** The loop that updates rows and columns `p` and `q` off the pivot. */
  method TurnMatrix(a: array2<real>, n: nat, p: nat, q: nat, t: real, c: real, s: real)
    requires a.Length0 == a.Length1 == n && p < q < n
    modifies a
    ensures Rows(a, n) == Rotated(old(Rows(a, n)), n, p, q, t, c, s)
  {
    hide TurnP, TurnQ, Mul, Rotated;
    ghost var before := Rows(a, n);
    var app, aqq, apq := a[p, p], a[q, q], a[p, q];
    a[p, p] := app - Mul(t, apq);
    a[q, q] := aqq + Mul(t, apq);
    a[p, q] := 0.0;
    a[q, p] := 0.0;
    for i := 0 to n
      invariant a[p, p] == app - Mul(t, apq) && a[q, q] == aqq + Mul(t, apq) && a[p, q] == 0.0 && a[q, p] == 0.0
      invariant forall k :: 0 <= k < i && k != p && k != q ==>
        && a[k, p] == a[p, k] == TurnP(c, s, before[k][p], before[k][q])
        && a[k, q] == a[q, k] == TurnQ(c, s, before[k][p], before[k][q])
      invariant forall k :: i <= k < n && k != p && k != q ==> a[k, p] == before[k][p] && a[k, q] == before[k][q]
      invariant forall k, l :: 0 <= k < n && 0 <= l < n && k != p && k != q && l != p && l != q ==>
        a[k, l] == before[k][l]
    {
      if i == p || i == q {
        continue;
      }
      TurnEntries(a, n, p, q, i, c, s);
    }
    UpdateIsRotated(before, Rows(a, n), n, p, q, t, c, s);
  }

  lemma UpdateIsRotated(before: Matrix, after: Matrix, n: nat, p: nat, q: nat, t: real, c: real, s: real)
    requires Square(before, n) && Square(after, n) && p < q < n
    requires after[p][p] == before[p][p] - Mul(t, before[p][q]) && after[q][q] == before[q][q] + Mul(t, before[p][q])
    requires after[p][q] == 0.0 && after[q][p] == 0.0
    requires forall i :: 0 <= i < n && i != p && i != q ==>
               && after[i][p] == after[p][i] == TurnP(c, s, before[i][p], before[i][q])
               && after[i][q] == after[q][i] == TurnQ(c, s, before[i][p], before[i][q])
    requires forall i, j :: 0 <= i < n && 0 <= j < n && i != p && i != q && j != p && j != q ==>
               after[i][j] == before[i][j]
    ensures after == Rotated(before, n, p, q, t, c, s)
  {
    hide TurnP, TurnQ, Mul, Rotated;
    SameEntries(after, Rotated(before, n, p, q, t, c, s), n);
  }

  lemma SameEntries(a: Matrix, b: Matrix, n: nat)
    requires Square(a, n) && Square(b, n)
    requires forall i, j :: 0 <= i < n && 0 <= j < n ==> a[i][j] == b[i][j]
    ensures a == b
  {
    forall i | 0 <= i < n ensures a[i] == b[i] {
    }
  }

  /** The loop that turns columns `p` and `q` of the eigenvector matrix. */
  method TurnVectors(v: array2<real>, n: nat, p: nat, q: nat, c: real, s: real)
    requires v.Length0 == v.Length1 == n && p < q < n
    modifies v
    ensures Rows(v, n) == ColRot(old(Rows(v, n)), n, p, q, c, s)
  {
    hide TurnP, TurnQ;
    ghost var before := Rows(v, n);
    for i := 0 to n
      invariant forall k, l :: 0 <= k < i && 0 <= l < n ==> v[k, l] == Rot(before[k], p, q, c, s)[l]
      invariant forall k, l :: i <= k < n && 0 <= l < n ==> v[k, l] == before[k][l]
    {
      var vip, viq := v[i, p], v[i, q];
      v[i, p] := TurnP(c, s, vip, viq);
      v[i, q] := TurnQ(c, s, vip, viq);
    }
    SameEntries(Rows(v, n), ColRot(before, n, p, q, c, s), n);
  }

  /** What holds after any number of rotations; the last part needs every theta to have been moderate. */
  ghost predicate RunInv(input: Matrix, a: Matrix, v: Matrix, n: nat, exact: bool) {
    && Square(input, n) && Square(a, n) && Square(v, n)
    && Symmetric(a, n) && Trace(a, n) == Trace(input, n)
    && RowsOrthonormal(v, n) && ColumnsOrthonormal(v, n)
    && (exact ==>
          && Decomposes(v, a, input, n) && Frobenius(a, n) == Frobenius(input, n)
          && OffSquares(a, n, n) <= OffSquares(input, n, n))
  }

  lemma RotationKeepsRun(input: Matrix, a: Matrix, v: Matrix, n: nat, exact: bool, p: nat, q: nat, t: real, c: real,
      s: real)
    requires RunInv(input, a, v, n, exact) && p < q < n && Angle(t, c, s)
    ensures RunInv(input, Rotated(a, n, p, q, t, c, s), ColRot(v, n, p, q, c, s), n,
                   exact && Annihilates(t, a[p][p], a[q][q], a[p][q]))
  {
    hide Symmetric, Trace, RowsOrthonormal, ColumnsOrthonormal, Decomposes, Frobenius, OffSquares, Angle, Annihilates,
        Rotated;
    AngleIsRotation(t, c, s);
    RotatedSymmetric(a, n, p, q, t, c, s);
    RotatedKeepsTrace(a, n, p, q, t, c, s);
    RotationKeepsRows(v, n, p, q, c, s);
    RotationKeepsColumns(v, n, p, q, c, s);
    if exact && Annihilates(t, a[p][p], a[q][q], a[p][q]) {
      RotationKeepsDecomposition(v, a, input, n, p, q, t, c, s);
      RotationDrainsPivot(a, n, p, q, t, c, s);
      assert Mul(a[p][q], a[p][q]) >= 0.0;
    }
  }

  ghost function Identity(n: nat): (r: Matrix)
    ensures Square(r, n) && forall i, j :: 0 <= i < n && 0 <= j < n ==> r[i][j] == if i == j then 1.0 else 0.0
  {
    seq(n, i requires 0 <= i < n => seq(n, j requires 0 <= j < n => if i == j then 1.0 else 0.0))
  }

  lemma {:induction false} UnitDot(n: nat, i: nat, y: seq<real>, k: nat)
    requires i < n == |y| && k <= n
    ensures Dot(Identity(n)[i], y, k) == if i < k then y[i] else 0.0
    ensures Dot(y, Identity(n)[i], k) == if i < k then y[i] else 0.0
  {
    if k > 0 {
      UnitDot(n, i, y, k - 1);
    }
  }

  lemma RunStarts(a: Matrix, n: nat)
    requires Square(a, n) && Symmetric(a, n)
    ensures RunInv(a, a, Identity(n), n, true)
  {
    hide Symmetric, Trace, Frobenius, OffSquares, Dot, Identity;
    var v := Identity(n);
    forall i, j | 0 <= i < n && 0 <= j < n
      ensures Dot(v[i], v[j], n) == (if i == j then 1.0 else 0.0) && Form(v[i], a, v[j], n) == a[i][j]
    {
      UnitDot(n, i, v[j], n);
      UnitDot(n, j, a[i], n);
      UnitDot(n, i, Apply(a, v[j], n), n);
    }
    assert Transpose(v, n) == v by {
      SameEntries(Transpose(v, n), v, n);
    }
  }

  // ----- a run as a function of its pivots -----

  datatype Pair = Pair(p: nat, q: nat)

  /** The matrix and the eigenvectors so far. */
  datatype Turned = Turned(a: Matrix, v: Matrix)

  const TINY: real := 1e-15

  function RootOf(x: real, sqrt: real -> real): (r: real)
    requires IsSqrt(sqrt)
    ensures r > 0.0 && r * r == x * x + 1.0
  {
    PositiveRoot(x, sqrt);
    sqrt(x * x + 1.0)
  }

  ghost predicate Fits(x: Pair, s: Turned, n: nat) {
    x.p < x.q < n && Square(s.a, n) && Square(s.v, n)
  }

  ghost predicate Skips(x: Pair, s: Turned, n: nat)
    requires Fits(x, s, n)
  {
    Abs(s.a[x.p][x.q]) < TINY
  }

  ghost function ThetaAt(x: Pair, s: Turned, n: nat): real
    requires Fits(x, s, n) && !Skips(x, s, n)
  {
    Theta(s.a[x.p][x.p], s.a[x.q][x.q], s.a[x.p][x.q])
  }

  /** The pivot is rotated with the leading term of the tangent only. */
  ghost predicate HugeAt(x: Pair, s: Turned, n: nat)
    requires Fits(x, s, n)
  {
    !Skips(x, s, n) && Abs(ThetaAt(x, s, n)) > HUGE_THETA
  }

  ghost function TanAt(x: Pair, s: Turned, n: nat, sqrt: real -> real): real
    requires Fits(x, s, n) && !Skips(x, s, n) && IsSqrt(sqrt)
  {
    Tangent(ThetaAt(x, s, n), RootOf(ThetaAt(x, s, n), sqrt))
  }

  function Cosine(t: real, sqrt: real -> real): real
    requires IsSqrt(sqrt)
  {
    1.0 / RootOf(t, sqrt)
  }

  function Sine(t: real, sqrt: real -> real): real
    requires IsSqrt(sqrt)
  {
    t * Cosine(t, sqrt)
  }

  /** What one pivot does: nothing when it is negligible, a rotation otherwise. */
  ghost function Step(x: Pair, s: Turned, n: nat, sqrt: real -> real): (r: Turned)
    requires Fits(x, s, n) && IsSqrt(sqrt)
    ensures Square(r.a, n) && Square(r.v, n)
  {
    if Skips(x, s, n) then s
    else
      var t := TanAt(x, s, n, sqrt);
      var c, z := Cosine(t, sqrt), Sine(t, sqrt);
      Turned(Rotated(s.a, n, x.p, x.q, t, c, z), ColRot(s.v, n, x.p, x.q, c, z))
  }

  ghost predicate PairsOk(pairs: seq<Pair>, n: nat) {
    forall i :: 0 <= i < |pairs| ==> pairs[i].p < pairs[i].q < n
  }

  ghost function After(input: Matrix, n: nat, pairs: seq<Pair>, sqrt: real -> real): (s: Turned)
    requires Square(input, n) && PairsOk(pairs, n) && IsSqrt(sqrt)
    ensures Square(s.a, n) && Square(s.v, n)
  {
    if pairs == [] then Turned(input, Identity(n))
    else Step(pairs[|pairs| - 1], After(input, n, pairs[..|pairs| - 1], sqrt), n, sqrt)
  }

  /** No pivot of the run met a huge theta. */
  ghost predicate Moderate(input: Matrix, n: nat, pairs: seq<Pair>, sqrt: real -> real)
    requires Square(input, n) && PairsOk(pairs, n) && IsSqrt(sqrt)
  {
    pairs == [] ||
    (var before := pairs[..|pairs| - 1];
     Moderate(input, n, before, sqrt) && !HugeAt(pairs[|pairs| - 1], After(input, n, before, sqrt), n))
  }

  /** The code's angle for a pivot that is not skipped; it annihilates the pivot unless theta is huge. */
  lemma StepAngle(x: Pair, s: Turned, n: nat, sqrt: real -> real)
    requires Fits(x, s, n) && IsSqrt(sqrt) && !Skips(x, s, n)
    ensures var t := TanAt(x, s, n, sqrt);
      && Angle(t, Cosine(t, sqrt), Sine(t, sqrt)) && -1.0 <= t <= 1.0 && Cosine(t, sqrt) > 0.0
      && (Annihilates(t, s.a[x.p][x.p], s.a[x.q][x.q], s.a[x.p][x.q]) <==> !HugeAt(x, s, n))
  {
    hide Angle, Annihilates, Tangent, Theta;
    var theta := ThetaAt(x, s, n);
    var t := TanAt(x, s, n, sqrt);
    CosineOf(t, RootOf(t, sqrt), Cosine(t, sqrt), Sine(t, sqrt));
    AnnihilatesIffNotHuge(s.a[x.p][x.p], s.a[x.q][x.q], s.a[x.p][x.q], RootOf(theta, sqrt));
    TangentIsSmaller(theta, RootOf(theta, sqrt));
  }

  lemma StepKeepsRun(input: Matrix, x: Pair, s: Turned, n: nat, exact: bool, sqrt: real -> real)
    requires RunInv(input, s.a, s.v, n, exact) && Fits(x, s, n) && IsSqrt(sqrt)
    ensures var r := Step(x, s, n, sqrt); RunInv(input, r.a, r.v, n, exact && !HugeAt(x, s, n))
  {
    hide RunInv, Rotated, ColRot, Angle, Annihilates, TanAt, Cosine, Sine, Theta;
    if !Skips(x, s, n) {
      StepAngle(x, s, n, sqrt);
      var t := TanAt(x, s, n, sqrt);
      RotationKeepsRun(input, s.a, s.v, n, exact, x.p, x.q, t, Cosine(t, sqrt), Sine(t, sqrt));
    }
  }

  /** Every run of pivots, in any order, keeps the invariant, and all of it while theta stays moderate. */
  lemma {:induction false} RunKeepsInv(input: Matrix, n: nat, pairs: seq<Pair>, sqrt: real -> real)
    requires Square(input, n) && Symmetric(input, n) && PairsOk(pairs, n) && IsSqrt(sqrt)
    ensures var s := After(input, n, pairs, sqrt); RunInv(input, s.a, s.v, n, Moderate(input, n, pairs, sqrt))
  {
    hide RunInv, Step, HugeAt, Symmetric;
    if pairs == [] {
      RunStarts(input, n);
    } else {
      var before := pairs[..|pairs| - 1];
      RunKeepsInv(input, n, before, sqrt);
      StepKeepsRun(input, pairs[|pairs| - 1], After(input, n, before, sqrt), n, Moderate(input, n, before, sqrt), sqrt);
    }
  }

  /** A pivot that is not skipped: the tangent is not 0, and what it misses is nothing unless theta is huge. */
  lemma TangentMisses(app: real, aqq: real, apq: real, root: real, theta: real, t: real)
    requires apq != 0.0 && root > 0.0 && theta == Theta(app, aqq, apq) && t == Tangent(theta, root)
    requires root * root == theta * theta + 1.0
    ensures t != 0.0
    ensures Mul(apq, Missed(t, app, aqq, apq)) == if Abs(theta) > HUGE_THETA then Mul(t * apq, t * apq) else 0.0
  {
    TangentRoot(theta, root);
    TangentNotZero(theta, root);
    assert theta * (2.0 * apq) == aqq - app;
    MissedBy(theta, t, aqq - app, apq, t * t + 2.0 * theta * t - 1.0);
    hide Tangent, Theta;
    if Abs(theta) > HUGE_THETA {
      assert Missed(t, app, aqq, apq) == apq * (t * t);
      assert apq * (apq * (t * t)) == t * apq * (t * apq);
    } else {
      assert Missed(t, app, aqq, apq) == apq * 0.0;
    }
  }

  lemma TangentNotZero(theta: real, root: real)
    requires root > 0.0
    ensures Tangent(theta, root) != 0.0
  {
    if Abs(theta) > HUGE_THETA {
      InverseTimes(2.0 * theta);
    } else {
      InverseTimes(Abs(theta) + root);
      NegatedInverse(Abs(theta) + root);
    }
  }

  lemma PositiveSquare(x: real, y: real)
    requires x != 0.0 && y != 0.0
    ensures Mul(x * y, x * y) > 0.0
  {
    NonZeroProduct(x, y);
    SameSign(x * y, x * y);
  }

  /** Twice the squared pivot, taken off the off-diagonal squares; nothing for a pivot that is skipped. */
  ghost function DrainedAt(x: Pair, s: Turned, n: nat): (r: real)
    requires Fits(x, s, n)
    ensures r >= 0.0
  {
    if Skips(x, s, n) then 0.0 else 2.0 * Mul(s.a[x.p][x.q], s.a[x.p][x.q])
  }

  /** Every pivot drains its square; the Frobenius norm grows if theta is huge and is kept otherwise. */
  lemma StepDrains(x: Pair, s: Turned, n: nat, sqrt: real -> real)
    requires Fits(x, s, n) && IsSqrt(sqrt) && Symmetric(s.a, n)
    ensures var r := Step(x, s, n, sqrt);
      && OffSquares(r.a, n, n) == OffSquares(s.a, n, n) - DrainedAt(x, s, n)
      && if HugeAt(x, s, n) then Frobenius(r.a, n) > Frobenius(s.a, n) else Frobenius(r.a, n) == Frobenius(s.a, n)
  {
    if !Skips(x, s, n) {
      RotatedDrains(x, s, n, sqrt);
    }
  }

  lemma RotatedDrains(x: Pair, s: Turned, n: nat, sqrt: real -> real)
    requires Fits(x, s, n) && IsSqrt(sqrt) && Symmetric(s.a, n) && !Skips(x, s, n)
    ensures var r := Step(x, s, n, sqrt);
      && OffSquares(r.a, n, n) == OffSquares(s.a, n, n) - DrainedAt(x, s, n)
      && if HugeAt(x, s, n) then Frobenius(r.a, n) > Frobenius(s.a, n) else Frobenius(r.a, n) == Frobenius(s.a, n)
  {
    hide Rotated, ColRot, OffSquares, Frobenius, Symmetric, Mul, Angle, Annihilates, Missed, Tangent, Theta;
    StepAngle(x, s, n, sqrt);
    var theta := ThetaAt(x, s, n);
    var app, aqq, apq := s.a[x.p][x.p], s.a[x.q][x.q], s.a[x.p][x.q];
    var t := TanAt(x, s, n, sqrt);
    TangentMisses(app, aqq, apq, RootOf(theta, sqrt), theta, t);
    PositiveSquare(t, apq);
    assert Mul(apq, Missed(t, app, aqq, apq)) == if HugeAt(x, s, n) then Mul(t * apq, t * apq) else 0.0;
    assert Step(x, s, n, sqrt).a == Rotated(s.a, n, x.p, x.q, t, Cosine(t, sqrt), Sine(t, sqrt));
    RotationAlwaysDrains(s.a, n, x.p, x.q, t, Cosine(t, sqrt), Sine(t, sqrt));
    RotationGrows(s.a, n, x.p, x.q, t, Cosine(t, sqrt), Sine(t, sqrt));
  }

  /** What a run of pivots has drained in all. */
  ghost function Drained(input: Matrix, n: nat, pairs: seq<Pair>, sqrt: real -> real): (r: real)
    requires Square(input, n) && PairsOk(pairs, n) && IsSqrt(sqrt)
    ensures r >= 0.0
  {
    if pairs == [] then 0.0
    else
      var before := pairs[..|pairs| - 1];
      Drained(input, n, before, sqrt) + DrainedAt(pairs[|pairs| - 1], After(input, n, before, sqrt), n)
  }

  /** The off-diagonal squares are those of the input less twice the squares of the pivots rotated, and the
      Frobenius norm is the input's if and only if no theta was huge. */
  ghost predicate RunEnds(input: Matrix, a: Matrix, n: nat, pairs: seq<Pair>, sqrt: real -> real)
    requires Square(input, n) && Square(a, n) && PairsOk(pairs, n) && IsSqrt(sqrt)
  {
    && OffSquares(a, n, n) == OffSquares(input, n, n) - Drained(input, n, pairs, sqrt)
    && Frobenius(a, n) >= Frobenius(input, n)
    && (Frobenius(a, n) == Frobenius(input, n) <==> Moderate(input, n, pairs, sqrt))
  }

  /** So ends every run of pivots, in any order. */
  lemma {:induction false} RunDrains(input: Matrix, n: nat, pairs: seq<Pair>, sqrt: real -> real)
    requires Square(input, n) && Symmetric(input, n) && PairsOk(pairs, n) && IsSqrt(sqrt)
    ensures RunEnds(input, After(input, n, pairs, sqrt).a, n, pairs, sqrt)
  {
    hide Step, HugeAt, DrainedAt, Symmetric, Frobenius, OffSquares, RowsOrthonormal, ColumnsOrthonormal, Decomposes,
        Trace;
    if pairs != [] {
      var before := pairs[..|pairs| - 1];
      RunDrains(input, n, before, sqrt);
      RunKeepsInv(input, n, before, sqrt);
      StepDrains(pairs[|pairs| - 1], After(input, n, before, sqrt), n, sqrt);
    }
  }

  lemma {:induction false} SquaresHold(d: seq<real>, p: nat, q: nat, k: nat)
    requires p < q && k <= |d|
    ensures Dot(d, d, k) >= (if p < k then Mul(d[p], d[p]) else 0.0) + (if q < k then Mul(d[q], d[q]) else 0.0)
    ensures Dot(d, d, k) >= 0.0
  {
    if k > 0 {
      SquaresHold(d, p, q, k - 1);
      assert Mul(d[k - 1], d[k - 1]) >= 0.0;
    }
  }

  lemma {:induction false} OffRowNotNegative(a: Matrix, n: nat, i: nat, k: nat)
    requires Square(a, n) && i < n && k <= n
    ensures OffRow(a, n, i, k) >= 0.0
  {
    if k > 0 {
      OffRowNotNegative(a, n, i, k - 1);
      assert Mul(a[i][k - 1], a[i][k - 1]) >= 0.0;
    }
  }

  lemma {:induction false} OffSquaresNotNegative(a: Matrix, n: nat, k: nat)
    requires Square(a, n) && k <= n
    ensures OffSquares(a, n, k) >= 0.0
  {
    if k > 0 {
      OffSquaresNotNegative(a, n, k - 1);
      OffRowNotNegative(a, n, k - 1, n);
    }
  }

  /** With a small matrix no pivot that is large enough to be rotated has a huge theta. */
  lemma SmallIsModerate(x: Pair, s: Turned, n: nat)
    requires Fits(x, s, n) && Frobenius(s.a, n) <= 2.0
    ensures !HugeAt(x, s, n)
  {
    var app, aqq, apq := s.a[x.p][x.p], s.a[x.q][x.q], s.a[x.p][x.q];
    FrobeniusSplits(s.a, n);
    OffSquaresNotNegative(s.a, n, n);
    SquaresHold(Diagonal(s.a, n), x.p, x.q, n);
    hide Frobenius, OffSquares, Dot;
    if Abs(apq) >= TINY {
      ThetaBound(app, aqq, apq);
    }
  }

  lemma ThetaBound(app: real, aqq: real, apq: real)
    requires Mul(app, app) + Mul(aqq, aqq) <= 2.0 && Abs(apq) >= TINY
    ensures Abs(Theta(app, aqq, apq)) <= HUGE_THETA
  {
    var d := aqq - app;
    assert d * d + (aqq + app) * (aqq + app) == 2.0 * (Mul(app, app) + Mul(aqq, aqq));
    assert Mul(aqq + app, aqq + app) >= 0.0;
    SquaresInOrder(d, 2.0);
    SquaresInOrder(-d, 2.0);
    var theta := Theta(app, aqq, apq);
    assert theta * (2.0 * apq) == d;
    AbsTimes(theta, 2.0 * apq);
    TinyDivides(Abs(theta), Abs(2.0 * apq));
  }

  lemma AbsTimes(x: real, y: real)
    ensures Abs(x * y) == Abs(x) * Abs(y)
  {
  }

  lemma TinyDivides(x: real, y: real)
    requires x >= 0.0 && y >= 2.0 * TINY && x * y <= 2.0
    ensures x <= HUGE_THETA
  {
    assert x * (y - 2.0 * TINY) >= 0.0;
    assert x * (2.0 * TINY) <= 2.0;
  }

  /** A matrix whose squares add up to at most 2 is decomposed exactly by every run of pivots. */
  lemma {:induction false} SmallMatrixRuns(input: Matrix, n: nat, pairs: seq<Pair>, sqrt: real -> real)
    requires Square(input, n) && Symmetric(input, n) && PairsOk(pairs, n) && IsSqrt(sqrt)
    requires Frobenius(input, n) <= 2.0
    ensures Moderate(input, n, pairs, sqrt)
  {
    hide Step, HugeAt, Symmetric, Frobenius, Trace, RowsOrthonormal, ColumnsOrthonormal, Decomposes, OffSquares;
    if pairs != [] {
      var before := pairs[..|pairs| - 1];
      SmallMatrixRuns(input, n, before, sqrt);
      RunKeepsInv(input, n, before, sqrt);
      SmallIsModerate(pairs[|pairs| - 1], After(input, n, before, sqrt), n);
    }
  }

  /** The pivots of one sweep up to row `p`, and of row `p` up to column `q`. */
  ghost function RowPairs(p: nat, q: nat): (pairs: seq<Pair>)
    ensures forall i :: 0 <= i < |pairs| ==> pairs[i].p == p < pairs[i].q < q
  {
    if q <= p + 1 then [] else RowPairs(p, q - 1) + [Pair(p, q - 1)]
  }

  ghost function SweepPairs(n: nat, p: nat): (pairs: seq<Pair>)
    requires p <= n
    ensures PairsOk(pairs, n)
  {
    if p == 0 then [] else SweepPairs(n, p - 1) + RowPairs(p - 1, n)
  }

  lemma LastPair(p: nat, q: nat)
    ensures RowPairs(p, q) == if q <= p + 1 then [] else RowPairs(p, q - 1) + [Pair(p, q - 1)]
  {
  }

  lemma LastRowPairs(n: nat, m: nat)
    requires m <= n
    ensures SweepPairs(n, m) == if m == 0 then [] else SweepPairs(n, m - 1) + RowPairs(m - 1, n)
  {
  }

  lemma {:induction false} RowPairsAre(p: nat, q: nat, x: Pair)
    ensures multiset(RowPairs(p, q))[x] == if x.p == p < x.q < q then 1 else 0
  {
    hide *;
    LastPair(p, q);
    if q > p + 1 {
      RowPairsAre(p, q - 1, x);
      CountOfLast(RowPairs(p, q - 1), Pair(p, q - 1), x);
    }
  }

  /** A sweep takes every pair above the diagonal exactly once. */
  lemma {:induction false} SweepTakesEveryPair(n: nat, m: nat, x: Pair)
    requires m <= n
    ensures multiset(SweepPairs(n, m))[x] == if x.p < m && x.p < x.q < n then 1 else 0
  {
    hide *;
    LastRowPairs(n, m);
    if m > 0 {
      SweepTakesEveryPair(n, m - 1, x);
      RowPairsAre(m - 1, n, x);
      CountOfBoth(SweepPairs(n, m - 1), RowPairs(m - 1, n), x);
    }
  }

  ghost function Sweeps(n: nat, k: nat): (pairs: seq<Pair>)
    ensures PairsOk(pairs, n)
  {
    if k == 0 then [] else Sweeps(n, k - 1) + SweepPairs(n, n)
  }

  // ----- the algorithm on the arrays -----

  ghost function TurnedRows(a: array2<real>, v: array2<real>, n: nat): (s: Turned)
    requires a.Length0 == a.Length1 == v.Length0 == v.Length1 == n
    reads a, v
    ensures Square(s.a, n) && Square(s.v, n)
  {
    Turned(Rows(a, n), Rows(v, n))
  }

  /** One pivot: skipped when negligible, rotated away otherwise. */
  method Pivot(a: array2<real>, v: array2<real>, n: nat, p: nat, q: nat, sqrt: real -> real)
    requires a.Length0 == a.Length1 == v.Length0 == v.Length1 == n && a != v && p < q < n && IsSqrt(sqrt)
    modifies a, v
    ensures TurnedRows(a, v, n) == Step(Pair(p, q), old(TurnedRows(a, v, n)), n, sqrt)
    ensures Abs(old(a[p, q])) >= TINY ==> a[p, q] == 0.0
  {
    hide Rotated, ColRot, Tangent, Theta, RootOf;
    ghost var x, before := Pair(p, q), TurnedRows(a, v, n);
    var apq := a[p, q];
    if Abs(apq) < TINY {
      return;
    }
    var theta := Theta(a[p, p], a[q, q], apq);
    var t := Tangent(theta, RootOf(theta, sqrt));
    var c := Cosine(t, sqrt);
    var s := Sine(t, sqrt);
    assert t == TanAt(x, before, n, sqrt);
    hide *;
    TurnMatrix(a, n, p, q, t, c, s);
    TurnVectors(v, n, p, q, c, s);
    StepTurns(x, before, n, sqrt);
    assert Rows(a, n)[p][q] == 0.0;
  }

  lemma StepTurns(x: Pair, s: Turned, n: nat, sqrt: real -> real)
    requires Fits(x, s, n) && IsSqrt(sqrt) && !Skips(x, s, n)
    ensures var t := TanAt(x, s, n, sqrt); var c, z := Cosine(t, sqrt), Sine(t, sqrt);
      Step(x, s, n, sqrt) == Turned(Rotated(s.a, n, x.p, x.q, t, c, z), ColRot(s.v, n, x.p, x.q, c, z))
  {
  }

  /** Sum of the absolute values right of the diagonal: in row `p` before column `q`, and in the rows
      before `p`. */
  ghost function RowAbs(a: Matrix, n: nat, p: nat, q: nat): real
    requires Square(a, n) && p < n && q <= n
  {
    if q <= p + 1 then 0.0 else RowAbs(a, n, p, q - 1) + Abs(a[p][q - 1])
  }

  ghost function OffAbsOf(a: Matrix, n: nat, p: nat): real
    requires Square(a, n) && p <= n
  {
    if p == 0 then 0.0 else OffAbsOf(a, n, p - 1) + RowAbs(a, n, p - 1, n)
  }

  lemma AbsNotNegative(x: real)
    ensures Abs(x) >= 0.0 && -Abs(x) <= x <= Abs(x)
  {
  }

  lemma {:induction false} RowAbsHolds(a: Matrix, n: nat, p: nat, q: nat, k: nat)
    requires Square(a, n) && p < n && q <= n
    ensures RowAbs(a, n, p, q) >= 0.0 && (p < k < q ==> Abs(a[p][k]) <= RowAbs(a, n, p, q))
  {
    hide Abs;
    if q > p + 1 {
      RowAbsHolds(a, n, p, q - 1, k);
      AbsNotNegative(a[p][q - 1]);
    }
  }

  lemma {:induction false} OffAbsHolds(a: Matrix, n: nat, m: nat, p: nat, q: nat)
    requires Square(a, n) && m <= n
    ensures OffAbsOf(a, n, m) >= 0.0 && (p < m && p < q < n ==> Abs(a[p][q]) <= OffAbsOf(a, n, m))
  {
    if m > 0 {
      OffAbsHolds(a, n, m - 1, p, q);
      RowAbsHolds(a, n, m - 1, n, q);
    }
  }

  /** No entry above the diagonal is larger in magnitude than the sum the sweeps stop on. */
  lemma EntriesWithinOffAbs(a: Matrix, n: nat, p: nat, q: nat)
    requires Square(a, n) && p < q < n
    ensures -OffAbsOf(a, n, n) <= a[p][q] <= OffAbsOf(a, n, n)
  {
    OffAbsHolds(a, n, n, p, q);
    AbsNotNegative(a[p][q]);
  }

  /** The magnitudes of row `i` before column `k`, the diagonal entry left out. */
  ghost function AbsRow(a: Matrix, n: nat, i: nat, k: nat): real
    requires Square(a, n) && i < n && k <= n
  {
    if k == 0 then 0.0
    else AbsRow(a, n, i, k - 1) + if k - 1 == i then 0.0 else if a[i][k - 1] < 0.0 then -a[i][k - 1] else a[i][k - 1]
  }

  /** The magnitudes of all off-diagonal entries of the first `k` rows. */
  ghost function AbsRows(a: Matrix, n: nat, k: nat): real
    requires Square(a, n) && k <= n
  {
    if k == 0 then 0.0 else AbsRows(a, n, k - 1) + AbsRow(a, n, k - 1, n)
  }

  /** The part above the diagonal of rows before `p` and columns before `m`. */
  ghost function Corner(a: Matrix, n: nat, p: nat, m: nat): real
    requires Square(a, n) && p <= m <= n
  {
    if p == 0 then 0.0 else Corner(a, n, p - 1, m) + RowAbs(a, n, p - 1, m)
  }

  lemma {:induction false} CornerIsOffAbs(a: Matrix, n: nat, p: nat)
    requires Square(a, n) && p <= n
    ensures Corner(a, n, p, n) == OffAbsOf(a, n, p)
  {
    if p > 0 {
      CornerIsOffAbs(a, n, p - 1);
    }
  }

  lemma {:induction false} AbsRowSplits(a: Matrix, n: nat, i: nat, k: nat)
    requires Square(a, n) && i < n && i <= k <= n
    ensures AbsRow(a, n, i, k) == AbsRow(a, n, i, i) + RowAbs(a, n, i, k)
  {
    if k > i {
      AbsRowSplits(a, n, i, k - 1);
    }
  }

  /** One more column of a corner is the row with the same number, up to the diagonal. */
  lemma {:induction false} CornerGrows(a: Matrix, n: nat, p: nat, m: nat)
    requires Square(a, n) && Symmetric(a, n) && p <= m < n
    ensures Corner(a, n, p, m + 1) == Corner(a, n, p, m) + AbsRow(a, n, m, p)
  {
    if p > 0 {
      CornerGrows(a, n, p - 1, m);
      assert a[p - 1][m] == a[m][p - 1];
    }
  }

  lemma {:induction false} AbsRowsAre(a: Matrix, n: nat, m: nat)
    requires Square(a, n) && Symmetric(a, n) && m <= n
    ensures AbsRows(a, n, m) == OffAbsOf(a, n, m) + Corner(a, n, m, m)
  {
    hide Symmetric, AbsRow, RowAbs;
    if m > 0 {
      AbsRowsAre(a, n, m - 1);
      AbsRowSplits(a, n, m - 1, n);
      CornerGrows(a, n, m - 1, m - 1);
      NothingBeyond(a, n, m - 1);
    }
  }

  lemma NothingBeyond(a: Matrix, n: nat, p: nat)
    requires Square(a, n) && p < n
    ensures RowAbs(a, n, p, p + 1) == 0.0
  {
  }

  /** The sum the sweeps stop on is half the magnitudes of all off-diagonal entries. */
  lemma OffAbsIsHalf(a: Matrix, n: nat)
    requires Square(a, n) && Symmetric(a, n)
    ensures 2.0 * OffAbsOf(a, n, n) == AbsRows(a, n, n)
  {
    AbsRowsAre(a, n, n);
    CornerIsOffAbs(a, n, n);
  }

  method OffAbs(a: array2<real>, n: nat) returns (off: real)
    requires a.Length0 == a.Length1 == n
    ensures off == OffAbsOf(Rows(a, n), n, n)
    ensures forall p, q :: 0 <= p < q < n ==> -off <= a[p, q] <= off
    ensures Symmetric(Rows(a, n), n) ==> 2.0 * off == AbsRows(Rows(a, n), n, n)
  {
    off := 0.0;
    for p := 0 to n
      invariant off == OffAbsOf(Rows(a, n), n, p)
    {
      for q := p + 1 to n
        invariant off == OffAbsOf(Rows(a, n), n, p) + RowAbs(Rows(a, n), n, p, q)
      {
        off := off + Abs(a[p, q]);
      }
    }
    OffAbsMeans(Rows(a, n), n);
  }

  lemma OffAbsMeans(a: Matrix, n: nat)
    requires Square(a, n)
    ensures forall p, q :: 0 <= p < q < n ==> -OffAbsOf(a, n, n) <= a[p][q] <= OffAbsOf(a, n, n)
    ensures Symmetric(a, n) ==> 2.0 * OffAbsOf(a, n, n) == AbsRows(a, n, n)
  {
    hide OffAbsOf, AbsRows;
    forall p, q | 0 <= p < q < n ensures -OffAbsOf(a, n, n) <= a[p][q] <= OffAbsOf(a, n, n) {
      EntriesWithinOffAbs(a, n, p, q);
    }
    if Symmetric(a, n) {
      OffAbsIsHalf(a, n);
    }
  }

  /** All pivots of one sweep. */
  method Sweep(a: array2<real>, v: array2<real>, n: nat, sqrt: real -> real, ghost input: Matrix, ghost done: seq<Pair>)
    requires a.Length0 == a.Length1 == v.Length0 == v.Length1 == n && a != v && IsSqrt(sqrt)
    requires Square(input, n) && PairsOk(done, n) && TurnedRows(a, v, n) == After(input, n, done, sqrt)
    modifies a, v
    ensures TurnedRows(a, v, n) == After(input, n, done + SweepPairs(n, n), sqrt)
  {
    hide After, Step, TurnedRows, SweepPairs, RowPairs, IsSqrt;
    NoSweepPairs(n, done);
    for p := 0 to n
      invariant TurnedRows(a, v, n) == After(input, n, done + SweepPairs(n, p), sqrt)
    {
      ghost var row := done + SweepPairs(n, p);
      NoRowPairs(p, row);
      for q := p + 1 to n
        invariant TurnedRows(a, v, n) == After(input, n, row + RowPairs(p, q), sqrt)
      {
        NextPair(input, n, row, p, q, sqrt);
        Pivot(a, v, n, p, q, sqrt);
      }
      NextRow(n, done, p);
    }
  }

  lemma NoSweepPairs(n: nat, done: seq<Pair>)
    ensures done + SweepPairs(n, 0) == done
  {
  }

  lemma NoRowPairs(p: nat, row: seq<Pair>)
    ensures row + RowPairs(p, p + 1) == row
  {
  }

  lemma NextRow(n: nat, done: seq<Pair>, p: nat)
    requires p < n
    ensures done + SweepPairs(n, p + 1) == done + SweepPairs(n, p) + RowPairs(p, n)
  {
  }

  lemma NextPair(input: Matrix, n: nat, row: seq<Pair>, p: nat, q: nat, sqrt: real -> real)
    requires Square(input, n) && PairsOk(row, n) && p < q < n && IsSqrt(sqrt)
    ensures PairsOk(row + RowPairs(p, q), n) && PairsOk(row + RowPairs(p, q + 1), n)
    ensures var s := After(input, n, row + RowPairs(p, q), sqrt);
      Fits(Pair(p, q), s, n) && After(input, n, row + RowPairs(p, q + 1), sqrt) == Step(Pair(p, q), s, n, sqrt)
  {
    hide Step;
    var next := row + RowPairs(p, q + 1);
    assert next == row + RowPairs(p, q) + [Pair(p, q)];
    assert next[..|next| - 1] == row + RowPairs(p, q);
  }

  /** At most 50 sweeps, fewer once the sum off the diagonal has become negligible. The result is that of
      the pivots of those sweeps; the invariant of such a run holds, and all of it if no theta was huge,
      as is certain when the squares of the input add up to at most 2. */
  method JacobiEigen(a: array2<real>, n: nat, sqrt: real -> real)
    returns (eigvals: seq<real>, v: array2<real>, ghost sweeps: nat)
    requires a.Length0 == a.Length1 == n && Symmetric(Rows(a, n), n) && IsSqrt(sqrt)
    modifies a
    ensures fresh(v) && v.Length0 == v.Length1 == n
    ensures TurnedRows(a, v, n) == After(old(Rows(a, n)), n, Sweeps(n, sweeps), sqrt)
    ensures sweeps <= 50 && (sweeps == 50 || OffAbsOf(Rows(a, n), n, n) < 1e-12)
    ensures sweeps < 50 ==> forall p, q :: 0 <= p < q < n ==> -1e-12 < a[p, q] < 1e-12
    ensures forall k :: 0 <= k < sweeps ==>
              OffAbsOf(After(old(Rows(a, n)), n, Sweeps(n, k), sqrt).a, n, n) >= 1e-12
    ensures RunInv(old(Rows(a, n)), Rows(a, n), Rows(v, n), n, Moderate(old(Rows(a, n)), n, Sweeps(n, sweeps), sqrt))
    ensures RunEnds(old(Rows(a, n)), Rows(a, n), n, Sweeps(n, sweeps), sqrt)
    ensures Frobenius(old(Rows(a, n)), n) <= 2.0 ==>
              && Decomposes(Rows(v, n), Rows(a, n), old(Rows(a, n)), n)
              && Frobenius(Rows(a, n), n) == Frobenius(old(Rows(a, n)), n)
    ensures eigvals == Diagonal(Rows(a, n), n) && Sum(eigvals, n) == Trace(old(Rows(a, n)), n)
  {
    hide RunInv, RunEnds, Identity, Moderate, SweepPairs, Symmetric, Step, Frobenius, Decomposes, Trace;
    ghost var input := Rows(a, n);
    v := new real[n, n]((i, j) => if i == j then 1.0 else 0.0);
    SameEntries(Rows(v, n), Identity(n), n);
    sweeps := 0;
    var sweep := 0;
    while sweep < 50
      invariant sweep == sweeps <= 50 && TurnedRows(a, v, n) == After(input, n, Sweeps(n, sweeps), sqrt)
      invariant forall k :: 0 <= k < sweeps ==> OffAbsOf(After(input, n, Sweeps(n, k), sqrt).a, n, n) >= 1e-12
    {
      var off := OffAbs(a, n);
      if off < 1e-12 {
        break;
      }
      Sweep(a, v, n, sqrt, input, Sweeps(n, sweeps));
      sweep := sweep + 1;
      sweeps := sweeps + 1;
    }
    eigvals := ReadDiagonal(a, n);
    RunResult(input, Rows(a, n), Rows(v, n), n, Sweeps(n, sweeps), sqrt);
  }

  // ----- a huge theta in a run -----

  /** Negligible at the first pivot, not elsewhere. */
  function Steep(): Matrix {
    [[0.0, 1e-15, 0.0], [1e-15, 4.0, 1.0], [0.0, 1.0, 0.0]]
  }

  lemma SteepShape()
    ensures Square(Steep(), 3) && Symmetric(Steep(), 3)
  {
    var m := Steep();
    assert |m[0]| == 3 && |m[1]| == 3 && |m[2]| == 3;
  }

  lemma SteepGoesOn()
    ensures Square(Steep(), 3) && OffAbsOf(Steep(), 3, 3) >= 1e-12
  {
    SteepShape();
    var m := Steep();
    assert RowAbs(m, 3, 0, 1) == 0.0 && RowAbs(m, 3, 0, 2) == 1e-15 && RowAbs(m, 3, 0, 3) == 1e-15;
    assert RowAbs(m, 3, 1, 2) == 0.0 && RowAbs(m, 3, 1, 3) == 1.0;
    assert RowAbs(m, 3, 2, 3) == 0.0;
    assert OffAbsOf(m, 3, 1) == 1e-15 && OffAbsOf(m, 3, 2) == 1e-15 + 1.0;
  }

  lemma SteepTheta()
    ensures Theta(0.0, 4.0, 1e-15) > HUGE_THETA
  {
    var x := 1e-15;
    assert 2.0 * x > 0.0;
    assert 2e15 * (2.0 * x) == 4.0;
    QuotientIs(4.0, 2.0 * x, 2e15);
  }

  lemma QuotientIs(x: real, y: real, z: real)
    requires y != 0.0 && z * y == x
    ensures x / y == z
  {
  }

  lemma {:induction false} ModeratePrefix(input: Matrix, n: nat, first: Pair, rest: seq<Pair>, sqrt: real -> real)
    requires Square(input, n) && PairsOk([first] + rest, n) && first.p < first.q < n && IsSqrt(sqrt)
    requires Moderate(input, n, [first] + rest, sqrt)
    ensures Moderate(input, n, [first], sqrt)
    decreases rest
  {
    var pairs := [first] + rest;
    if rest != [] {
      assert pairs[..|pairs| - 1] == [first] + rest[..|rest| - 1];
      ModeratePrefix(input, n, first, rest[..|rest| - 1], sqrt);
    } else {
      assert pairs == [first];
    }
  }

  /** The first pivot of the first sweep, which the algorithm does start on this matrix, meets a huge theta; so no
      run from it is exact. */
  lemma HugeThetaInARun(k: nat, sqrt: real -> real)
    requires k > 0 && IsSqrt(sqrt)
    ensures Square(Steep(), 3) && Symmetric(Steep(), 3) && OffAbsOf(Steep(), 3, 3) >= 1e-12
    ensures !Moderate(Steep(), 3, Sweeps(3, k), sqrt)
    ensures Frobenius(After(Steep(), 3, Sweeps(3, k), sqrt).a, 3) > Frobenius(Steep(), 3)
  {
    SteepShape();
    SteepGoesOn();
    SteepTheta();
    RunDrains(Steep(), 3, Sweeps(3, k), sqrt);
    var rest := FirstPair(k);
    FirstIsHuge(sqrt);
    if Moderate(Steep(), 3, Sweeps(3, k), sqrt) {
      ModeratePrefix(Steep(), 3, Pair(0, 1), rest, sqrt);
      assert false;
    }
  }

  lemma FirstIsHuge(sqrt: real -> real)
    requires IsSqrt(sqrt)
    ensures Square(Steep(), 3) && PairsOk([Pair(0, 1)], 3) && !Moderate(Steep(), 3, [Pair(0, 1)], sqrt)
  {
    SteepShape();
    SteepTheta();
    hide Theta;
    var pairs := [Pair(0, 1)];
    assert pairs[..0] == [];
    assert After(Steep(), 3, [], sqrt) == Turned(Steep(), Identity(3));
    assert HugeAt(Pair(0, 1), Turned(Steep(), Identity(3)), 3);
  }

  /** Every sweep begins with the pivot (0, 1). */
  lemma {:induction false} FirstPair(k: nat) returns (rest: seq<Pair>)
    requires k > 0
    ensures Sweeps(3, k) == [Pair(0, 1)] + rest
  {
    if k == 1 {
      rest := OneSweep();
      assert Sweeps(3, 0) == [];
    } else {
      var before := FirstPair(k - 1);
      rest := before + SweepPairs(3, 3);
      assert Sweeps(3, k) == [Pair(0, 1)] + before + SweepPairs(3, 3);
    }
  }

  lemma OneSweep() returns (rest: seq<Pair>)
    ensures SweepPairs(3, 3) == [Pair(0, 1)] + rest
  {
    assert RowPairs(0, 1) == [] && RowPairs(0, 2) == [Pair(0, 1)];
    assert RowPairs(0, 3) == [Pair(0, 1), Pair(0, 2)];
    assert SweepPairs(3, 0) == [] && SweepPairs(3, 1) == RowPairs(0, 3);
    rest := [Pair(0, 2)] + RowPairs(1, 3) + RowPairs(2, 3);
    assert SweepPairs(3, 3) == SweepPairs(3, 1) + RowPairs(1, 3) + RowPairs(2, 3);
  }

  method ReadDiagonal(a: array2<real>, n: nat) returns (eigvals: seq<real>)
    requires a.Length0 == a.Length1 == n
    ensures eigvals == Diagonal(Rows(a, n), n)
  {
    eigvals := [];
    for i := 0 to n
      invariant |eigvals| == i && forall k :: 0 <= k < i ==> eigvals[k] == a[k, k]
    {
      eigvals := eigvals + [a[i, i]];
    }
  }

  /** What a run's matrices are good for. */
  lemma RunResult(input: Matrix, a: Matrix, v: Matrix, n: nat, pairs: seq<Pair>, sqrt: real -> real)
    requires Square(input, n) && Symmetric(input, n) && PairsOk(pairs, n) && IsSqrt(sqrt)
    requires Square(a, n) && Square(v, n)
    requires Turned(a, v) == After(input, n, pairs, sqrt)
    ensures RunInv(input, a, v, n, Moderate(input, n, pairs, sqrt)) && Sum(Diagonal(a, n), n) == Trace(input, n)
    ensures RunEnds(input, a, n, pairs, sqrt)
    ensures Frobenius(input, n) <= 2.0 ==> Decomposes(v, a, input, n) && Frobenius(a, n) == Frobenius(input, n)
  {
    hide After, Moderate, Symmetric, Frobenius, Decomposes, OffSquares, RowsOrthonormal, ColumnsOrthonormal;
    RunKeepsInv(input, n, pairs, sqrt);
    RunDrains(input, n, pairs, sqrt);
    if Frobenius(input, n) <= 2.0 {
      SmallMatrixRuns(input, n, pairs, sqrt);
    }
  }
}
