/** The per-dimension scalar quantizer (scripts/spike_plane_quant.cpp, `DimQuant`). */
module Quantizers {
  import opened Numbers

  /** `bits` is 0 (dimension skipped), 1, 2, 4 or 8; a non-empty `cent` holds Lloyd-Max centroids. */
  datatype DimQuant = DimQuant(lo: real, step: real, cent: seq<real>, bits: nat, signScale: real)

  /** A default-constructed quantizer. */
  const SKIPPED := DimQuant(0.0, 1.0, [], 0, 1.0)

  function Levels(bits: nat): (n: nat)
    ensures n > 0
  {
    if bits == 0 then 1 else 2 * Levels(bits - 1)
  }

  function Decode(q: DimQuant, code: nat): real {
    if q.bits == 1 then
      if code != 0 then q.signScale else -q.signScale
    else if q.cent != [] then
      q.cent[if code < |q.cent| then code else |q.cent| - 1]
    else
      q.lo + (code as real + 0.5) * q.step
  }

  /** `std::lround`: to the nearest integer, halves away from zero. */
  function Round(x: real): (r: int)
    ensures Abs(r as real - x) <= 0.5
  {
    if x >= 0.0 then (x + 0.5).Floor else -((-x + 0.5).Floor)
  }

  /** A half goes away from zero. */
  lemma RoundsHalvesAway(n: nat)
    ensures Round(n as real + 0.5) == n + 1 && Round(-(n as real + 0.5)) == -(n as int + 1)
  {
  }

  function Clamp(x: int, hi: nat): (r: nat)
    ensures r <= hi
  {
    if x < 0 then 0 else if x > hi then hi else x
  }

  ghost predicate IsNearest(cent: seq<real>, v: real, best: nat) {
    && best < |cent|
    && (forall c :: 0 <= c < |cent| ==> Abs(v - cent[best]) <= Abs(v - cent[c]))
    && forall c :: 0 <= c < best ==> Abs(v - cent[best]) < Abs(v - cent[c])
  }

  /** The first of the nearest centroids. */
  method NearestCentroid(cent: seq<real>, v: real) returns (best: nat)
    requires cent != []
    ensures IsNearest(cent, v, best)
  {
    best := 0;
    var bd := Abs(v - cent[0]);
    for c := 1 to |cent|
      invariant best < c && bd == Abs(v - cent[best])
      invariant forall k :: 0 <= k < c ==> bd <= Abs(v - cent[k])
      invariant forall k :: 0 <= k < best ==> bd < Abs(v - cent[k])
    {
      var d := Abs(v - cent[c]);
      if d < bd {
        bd := d;
        best := c;
      }
    }
  }

  /** A quantizer as the trainers produce it; the step is 0 for a dimension that is constant in the sample. */
  ghost predicate Trained(q: DimQuant) {
    q.bits in {1, 2, 4, 8} && (q.bits != 1 && q.cent != [] ==> |q.cent| == Levels(q.bits))
  }

  /** `code` is the sign, the first nearest centroid, or the clamped uniform cell of `v`. With step 0 the
      division gives no number, what `std::lround` makes of that is unspecified, and all that is sure after
      the clamp is that the code is in range. */
  ghost predicate EncodedAs(q: DimQuant, v: real, code: nat) {
    && code < Levels(q.bits)
    && if q.bits == 1 then code == (if v >= 0.0 then 1 else 0)
       else if q.cent != [] then IsNearest(q.cent, v, code)
       else q.step != 0.0 ==> code == UniformCode(q, v)
  }

  method Encode(q: DimQuant, v: real) returns (code: nat)
    requires Trained(q)
    ensures EncodedAs(q, v, code)
  {
    if q.bits == 1 {
      return if v >= 0.0 then 1 else 0;
    }
    if q.cent != [] {
      code := NearestCentroid(q.cent, v);
    } else if q.step == 0.0 {
      var any: int := *;
      code := Clamp(any, Levels(q.bits) - 1);
    } else {
      code := UniformCode(q, v);
    }
  }

  function UniformCode(q: DimQuant, v: real): (code: nat)
    requires q.step != 0.0
    ensures code < Levels(q.bits)
  {
    Clamp(Round((v - q.lo) / q.step - 0.5), Levels(q.bits) - 1)
  }

  /** A value has one code only. */
  ghost predicate Determined(q: DimQuant) {
    forall v: real, a: nat, b: nat :: EncodedAs(q, v, a) && EncodedAs(q, v, b) ==> a == b
  }

  /** The code is determined by the value unless the encoder divides by a step of 0. */
  lemma DeterminedIff(q: DimQuant)
    requires Trained(q)
    ensures Determined(q) <==> q.bits == 1 || q.cent != [] || q.step != 0.0
  {
    if q.bits != 1 && q.cent == [] && q.step == 0.0 {
      TwoLevels(q.bits);
      assert EncodedAs(q, 0.0, 0) && EncodedAs(q, 0.0, 1);
    } else {
      forall v: real, a: nat, b: nat | EncodedAs(q, v, a) && EncodedAs(q, v, b) ensures a == b {
        if q.bits != 1 && q.cent != [] {
          OneNearest(q.cent, v, a, b);
        }
      }
    }
  }

  lemma OneNearest(cent: seq<real>, v: real, a: nat, b: nat)
    requires IsNearest(cent, v, a) && IsNearest(cent, v, b)
    ensures a == b
  {
    var (x, y) := (Abs(v - cent[a]), Abs(v - cent[b]));
    assert x == y;
  }

  /** A code of a trained quantizer fits its width. */
  lemma LevelsAre()
    ensures Levels(1) == 2 && Levels(2) == 4 && Levels(4) == 16 && Levels(8) == 256
  {
    assert Levels(3) == 8 && Levels(5) == 32 && Levels(6) == 64 && Levels(7) == 128;
  }

  /** With centroids no centroid is nearer to the value than what its code decodes to. */
  lemma CentroidDecodesNearest(q: DimQuant, v: real, code: nat, c: nat)
    requires q.bits != 1 && EncodedAs(q, v, code) && c < |q.cent|
    ensures Abs(v - Decode(q, code)) <= Abs(v - q.cent[c])
  {
  }

  lemma TwoLevels(bits: nat)
    requires bits > 0
    ensures Levels(bits) >= 2
  {
    assert Levels(bits) == 2 * Levels(bits - 1);
  }

  lemma ProductSign(a: real, b: real)
    requires b > 0.0
    ensures a < 0.0 ==> a * b < 0.0
    ensures a >= 0.0 ==> a * b >= 0.0
  {
  }

  lemma InUnits(x: real, step: real, n: real)
    requires step > 0.0 && 0.0 <= x <= n * step
    ensures 0.0 <= x / step <= n && x / step * step == x
  {
    var u := x / step;
    assert u * step == x;
    ProductSign(u, step);
    ProductSign(n - u, step);
    assert (n - u) * step == n * step - u * step;
  }

  lemma HalfStep(lo: real, code: nat, u: real, step: real, v: real)
    requires step > 0.0 && Abs(code as real + 0.5 - u) <= 0.5 && u * step == v - lo
    ensures -step / 2.0 <= lo + (code as real + 0.5) * step - v <= step / 2.0
  {
    var c := code as real + 0.5;
    var e := c - u;
    ProductSign(0.5 - e, step);
    ProductSign(0.5 + e, step);
    assert c * step - u * step == e * step;
    assert (0.5 - e) * step == step / 2.0 - e * step && (0.5 + e) * step == step / 2.0 + e * step;
  }

  /** A value inside the trained range comes back within half a step from every code the encoder may give it;
      with step 0 that is the value itself. */
  lemma UniformRoundTrip(q: DimQuant, v: real, code: nat)
    requires q.bits != 1 && q.cent == [] && q.step >= 0.0
    requires q.lo <= v <= q.lo + Levels(q.bits) as real * q.step
    requires EncodedAs(q, v, code)
    ensures Abs(Decode(q, code) - v) <= q.step / 2.0
  {
    hide Levels, UniformCode, Decode;
    DecodeUniform(q, code);
    if q.step > 0.0 {
      NearCenter(q, v);
    } else {
      assert (code as real + 0.5) * 0.0 == 0.0 && Levels(q.bits) as real * 0.0 == 0.0;
    }
  }

  lemma NearCenter(q: DimQuant, v: real)
    requires q.step > 0.0 && q.lo <= v <= q.lo + Levels(q.bits) as real * q.step
    ensures -q.step / 2.0 <= q.lo + (UniformCode(q, v) as real + 0.5) * q.step - v <= q.step / 2.0
  {
    hide *;
    var u := Units(q, v);
    ClampedRound(u, Levels(q.bits));
    HalfStep(q.lo, UniformCode(q, v), u, q.step, v);
  }

  lemma Units(q: DimQuant, v: real) returns (u: real)
    requires q.step > 0.0 && q.lo <= v <= q.lo + Levels(q.bits) as real * q.step
    ensures 0.0 <= u <= Levels(q.bits) as real && u * q.step == v - q.lo
    ensures UniformCode(q, v) == Clamp(Round(u - 0.5), Levels(q.bits) - 1)
  {
    hide Levels, Round, Clamp;
    InUnits(v - q.lo, q.step, Levels(q.bits) as real);
    u := (v - q.lo) / q.step;
  }

  lemma DecodeUniform(q: DimQuant, code: nat)
    requires q.bits != 1 && q.cent == []
    ensures Decode(q, code) == q.lo + (code as real + 0.5) * q.step
  {
  }

  lemma ClampedRound(u: real, n: nat)
    requires n > 0 && 0.0 <= u <= n as real
    ensures Abs(Clamp(Round(u - 0.5), n - 1) as real + 0.5 - u) <= 0.5
  {
    var r := Round(u - 0.5);
    if r < 0 {
      assert r as real <= -1.0;
    } else if r > n - 1 {
      assert r as real >= n as real;
      assert (n - 1) as real == n as real - 1.0;
    }
  }
}
