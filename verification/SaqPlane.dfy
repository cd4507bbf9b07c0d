/** The bit allocation put to use (scripts/spike_plane_quant.cpp:409-427, 497-560, 641-696, 723-797): from a
    sample to quantizers that fill whole bytes in every width group, and from those to codes and scores. */
module SaqPlane {
  import opened Numbers
  import opened Quantizers
  import opened PlaneSample
  import PlanePack
  import Vectors
  import SaqDp

  ghost predicate Follows(st: SaqDp.Stats, ws: seq<nat>, q: seq<DimQuant>) {
    && SaqDp.Choices(ws) && |q| == 8 * |ws| == |st.vmin| == |st.vmax| == |st.meanAbs|
    && forall e :: 0 <= e < |q| ==> SaqDp.FollowsChoice(st, ws, q[e], e)
  }

  /** No assignment of widths within the budget has less distortion. */
  ghost predicate Optimal(vars: seq<real>, budget: nat, ws: seq<nat>) {
    && SaqDp.Choices(ws) && 8 * |ws| == |vars| && SaqDp.Bytes(ws) <= budget
    && forall other :: SaqDp.Choices(other) && 8 * |other| == |vars| && SaqDp.Bytes(other) <= budget ==>
         SaqDp.Distortion(vars, 0, ws) <= SaqDp.Distortion(vars, 0, other)
  }

  /** No dimension that gets two bits or more is constant in the sample. */
  ghost predicate Varied(sample: Rows, dims: nat, ws: seq<nat>)
    requires SampleOk(sample, dims) && SaqDp.Choices(ws) && 8 * |ws| == dims
  {
    forall e :: 0 <= e < dims && SaqDp.Width(ws[e / 8]) >= 2 ==> !Constant(sample, dims, e)
  }

  lemma DimTrained(st: SaqDp.Stats, ws: seq<nat>, q: DimQuant, e: nat)
    requires SaqDp.Choices(ws) && 8 * |ws| == |st.vmin| == |st.vmax| == |st.meanAbs| && e < 8 * |ws|
    requires SaqDp.FollowsChoice(st, ws, q, e)
    ensures q.bits == SaqDp.Width(ws[e / 8]) && q.cent == [] && (q.bits in {1, 2, 4, 8} ==> Trained(q))
  {
  }

  lemma StepIs(lo: real, hi: real, n: nat)
    requires n > 0 && lo <= hi
    ensures lo == hi ==> (hi - lo) / n as real == 0.0
    ensures lo < hi ==> (hi - lo) / n as real > 0.0
    ensures (hi - lo) / n as real * n as real == hi - lo
  {
  }

  /** From two bits on the quantizer divides the range evenly; its step is 0 for a constant dimension only. */
  lemma DimStep(st: SaqDp.Stats, ws: seq<nat>, q: DimQuant, e: nat)
    requires SaqDp.Choices(ws) && 8 * |ws| == |st.vmin| == |st.vmax| == |st.meanAbs| && e < 8 * |ws|
    requires SaqDp.FollowsChoice(st, ws, q, e) && st.vmin[e] <= st.vmax[e] && q.bits >= 2
    ensures q.lo == st.vmin[e] && q.lo + Levels(q.bits) as real * q.step == st.vmax[e]
    ensures st.vmin[e] == st.vmax[e] ==> q.step == 0.0
    ensures st.vmin[e] < st.vmax[e] ==> q.step > 0.0
  {
    hide Levels;
    StepIs(st.vmin[e], st.vmax[e], Levels(q.bits));
  }

  lemma SameBitsInGroup(st: SaqDp.Stats, ws: seq<nat>, q: seq<DimQuant>)
    requires Follows(st, ws, q)
    ensures |q| == 8 * |ws| && forall e :: 0 <= e < |q| ==> q[e].bits == q[8 * (e / 8)].bits
  {
    hide SaqDp.FollowsChoice, Trained;
    forall e | 0 <= e < |q| ensures q[e].bits == q[8 * (e / 8)].bits {
      var first := 8 * (e / 8);
      assert first / 8 == e / 8 && 0 <= first < |q|;
      DimTrained(st, ws, q[e], e);
      DimTrained(st, ws, q[first], first);
    }
  }

  lemma WholeBytes(st: SaqDp.Stats, ws: seq<nat>, q: seq<DimQuant>)
    requires Follows(st, ws, q)
    ensures |PlanePack.GroupDims(q, 2, |q|)| % 4 == 0 && |PlanePack.GroupDims(q, 4, |q|)| % 2 == 0
  {
    hide *;
    SameBitsInGroup(st, ws, q);
    PlanePack.RunsOfEightFillBytes(q, 2, |ws|);
    PlanePack.RunsOfEightFillBytes(q, 4, |ws|);
    Quadruple(PlanePack.RunsAt(q, 2, |ws|));
    Even(PlanePack.RunsAt(q, 4, |ws|));
  }

  lemma Quadruple(k: nat)
    ensures 8 * k % 4 == 0
  {
  }

  lemma Even(k: nat)
    ensures 8 * k % 2 == 0
  {
  }

  /** Whatever the sample, the allocation's quantizers make a plane that can be packed and scored. */
  lemma AllocatedPlaneTrained(st: SaqDp.Stats, ws: seq<nat>, q: seq<DimQuant>)
    requires Follows(st, ws, q)
    ensures PlanePack.PlaneTrained(q)
  {
    hide SaqDp.FollowsChoice, Trained, PlanePack.GroupDims;
    WholeBytes(st, ws, q);
    forall e | 0 <= e < |q| && q[e].bits in {1, 2, 4, 8} ensures Trained(q[e]) {
      DimTrained(st, ws, q[e], e);
    }
  }

  lemma DimDeterminedIff(sample: Rows, dims: nat, vars: seq<real>, st: SaqDp.Stats, ws: seq<nat>, q: DimQuant, e: nat)
    requires SampleOk(sample, dims) && Summary(sample, dims, vars, st) && SaqDp.Choices(ws) && 8 * |ws| == dims
    requires e < dims && SaqDp.FollowsChoice(st, ws, q, e) && q.bits in {1, 2, 4, 8}
    ensures Determined(q) <==> SaqDp.Width(ws[e / 8]) < 2 || !Constant(sample, dims, e)
  {
    hide SaqDp.FollowsChoice, Trained, Determined, Summary, Constant;
    SummarySize(sample, dims, vars, st);
    ConstantIff(sample, dims, vars, st, e);
    DimTrained(st, ws, q, e);
    DeterminedIff(q);
    if q.bits >= 2 {
      DimStep(st, ws, q, e);
    }
  }

  /** Every stored value has one code if and only if no dimension with two bits or more is constant in the
      sample: such a dimension has step 0, by which the encoder divides. */
  lemma AllocatedCodesDeterminedIff(sample: Rows, dims: nat, vars: seq<real>, st: SaqDp.Stats, ws: seq<nat>,
                                    q: seq<DimQuant>)
    requires SampleOk(sample, dims) && Summary(sample, dims, vars, st) && Follows(st, ws, q) && 8 * |ws| == dims
    ensures (forall e :: 0 <= e < dims && q[e].bits in {1, 2, 4, 8} ==> Determined(q[e])) <==> Varied(sample, dims, ws)
  {
    hide SaqDp.FollowsChoice, Trained, Determined, Summary, Constant;
    forall e | 0 <= e < dims
      ensures q[e].bits == SaqDp.Width(ws[e / 8])
      ensures q[e].bits in {1, 2, 4, 8} ==>
                (Determined(q[e]) <==> SaqDp.Width(ws[e / 8]) < 2 || !Constant(sample, dims, e))
    {
      DimTrained(st, ws, q[e], e);
      if q[e].bits in {1, 2, 4, 8} {
        DimDeterminedIff(sample, dims, vars, st, ws, q[e], e);
      }
    }
  }

  /** What is decoded for a value within the sample's range: within half a step, and for a constant dimension
      the value itself, whatever its code. */
  lemma DecodedWithinHalfStep(sample: Rows, dims: nat, vars: seq<real>, st: SaqDp.Stats, ws: seq<nat>,
                              q: DimQuant, e: nat, v: real, code: nat)
    requires SampleOk(sample, dims) && Summary(sample, dims, vars, st) && SaqDp.Choices(ws) && 8 * |ws| == dims
    requires e < dims && SaqDp.FollowsChoice(st, ws, q, e) && q.bits >= 2
    requires st.vmin[e] <= v <= st.vmax[e] && EncodedAs(q, v, code)
    ensures Abs(Decode(q, code) - v) <= q.step / 2.0
  {
    hide SaqDp.FollowsChoice, Trained, EncodedAs, Decode, Summary;
    SummarySize(sample, dims, vars, st);
    DimTrained(st, ws, q, e);
    DimStep(st, ws, q, e);
    UniformRoundTrip(q, v, code);
  }

  /** A value with a one-bit code is decoded to the mean magnitude of the sample with the value's sign. */
  lemma SignDecodesToMean(sample: Rows, dims: nat, vars: seq<real>, st: SaqDp.Stats, ws: seq<nat>,
                          q: DimQuant, e: nat, v: real, code: nat)
    requires SampleOk(sample, dims) && Summary(sample, dims, vars, st) && SaqDp.Choices(ws) && 8 * |ws| == dims
    requires e < dims && SaqDp.FollowsChoice(st, ws, q, e) && q.bits == 1 && EncodedAs(q, v, code)
    ensures Decode(q, code) * |sample| as real
            == if v >= 0.0 then SumAbs(sample, dims, e, |sample|) else -SumAbs(sample, dims, e, |sample|)
  {
    hide IsRange, MeanSquare, SumAbs;
    assert st.meanAbs[e] * |sample| as real == SumAbs(sample, dims, e, |sample|);
    assert q.signScale == st.meanAbs[e];
    Opposite(st.meanAbs[e], |sample| as real);
  }

  lemma Opposite(x: real, y: real)
    ensures -x * y == -(x * y)
  {
  }

  /** Sample, train, encode one vector, score it, for every sample the code goes on with: the allocation is
      optimal within the budget, the score is the inner product of the query with what is decoded, and that is
      within half a step for a value within the sample's range, or the mean magnitude with the value's sign. */
  method TrainEncodeScore(sample: Rows, dims: nat, budget: nat, v: seq<real>, qp: seq<real>)
    returns (s: real, q: seq<DimQuant>, ws: seq<nat>, vars: seq<real>, st: SaqDp.Stats, ghost codeOf: seq<bv8>)
    requires SampleOk(sample, dims) && dims % 8 == 0 && dims < 0x1_0000_0000 && |v| == |qp| == dims
    ensures Summary(sample, dims, vars, st) && Follows(st, ws, q) && Optimal(vars, budget, ws)
    ensures |codeOf| == |q| == dims && s == Vectors.Dot(qp, PlanePack.Decoded(q, codeOf), dims)
    ensures forall e :: 0 <= e < dims && q[e].bits in {1, 2, 4, 8} ==> EncodedAs(q[e], v[e], codeOf[e] as nat)
    ensures forall e :: 0 <= e < dims && q[e].bits >= 2 && st.vmin[e] <= v[e] <= st.vmax[e] ==>
              Abs(Decode(q[e], codeOf[e] as nat) - v[e]) <= q[e].step / 2.0
    ensures forall e :: 0 <= e < dims && q[e].bits == 1 ==>
              Decode(q[e], codeOf[e] as nat) * |sample| as real
              == if v[e] >= 0.0 then SumAbs(sample, dims, e, |sample|) else -SumAbs(sample, dims, e, |sample|)
  {
    hide Summary, SaqDp.FollowsChoice, SaqDp.Distortion, SaqDp.Variances, SaqDp.SegCost, EncodedAs, Decode,
        PlanePack.Decoded, PlanePack.PlaneTrained, PlanePack.PlaneOk, SumAbs;
    vars, st := Gather(sample, dims);
    SummarySize(sample, dims, vars, st);
    SampleBelowInf(sample, dims, vars, st);
    var trained;
    trained, ws := SaqDp.TrainSaq(vars, st, budget);
    q := trained[..];
    AllocatedPlaneTrained(st, ws, q);
    var groups;
    groups, codeOf := PlanePack.EncodeMember(q, v);
    s := PlanePack.ScoreMember(qp, q, groups, codeOf);
    forall e | 0 <= e < dims && q[e].bits >= 2 && st.vmin[e] <= v[e] <= st.vmax[e]
      ensures Abs(Decode(q[e], codeOf[e] as nat) - v[e]) <= q[e].step / 2.0
    {
      DimTrained(st, ws, q[e], e);
      DecodedWithinHalfStep(sample, dims, vars, st, ws, q[e], e, v[e], codeOf[e] as nat);
    }
    forall e | 0 <= e < dims && q[e].bits == 1
      ensures Decode(q[e], codeOf[e] as nat) * |sample| as real
           == if v[e] >= 0.0 then SumAbs(sample, dims, e, |sample|) else -SumAbs(sample, dims, e, |sample|)
    {
      SignDecodesToMean(sample, dims, vars, st, ws, q[e], e, v[e], codeOf[e] as nat);
    }
  }

  // ----- a constant dimension that gets bits -----

  /** Two rows that differ in all dimensions but the last. */
  function TwoRows(): (sample: Rows) {
    [[1.0, 1.0, 1.0, 1.0, 1.0, 1.0, 1.0, 0.0], [-1.0, -1.0, -1.0, -1.0, -1.0, -1.0, -1.0, 0.0]]
  }

  lemma TwoRowsVariances(vars: seq<real>, st: SaqDp.Stats)
    requires SampleOk(TwoRows(), 8) && Summary(TwoRows(), 8, vars, st)
    ensures vars == [1.0, 1.0, 1.0, 1.0, 1.0, 1.0, 1.0, 0.0] && st.vmin[7] == st.vmax[7]
  {
    forall e: nat | e < 8 ensures vars[e] == if e < 7 then 1.0 else 0.0 {
      TwoSquares(e);
    }
    ConstantIff(TwoRows(), 8, vars, st, 7);
  }

  lemma TwoSquares(e: nat)
    requires SampleOk(TwoRows(), 8) && e < 8
    ensures MeanSquare(TwoRows(), 8, e, 2) == if e < 7 then 1.0 else 0.0
  {
    var x := if e < 7 then 1.0 else 0.0;
    assert TwoRows()[0][e] == x && TwoRows()[1][e] == -x;
    assert MeanSquare(TwoRows(), 8, e, 1) == MeanSquare(TwoRows(), 8, e, 0) + Share(x, 2);
    assert MeanSquare(TwoRows(), 8, e, 2) == MeanSquare(TwoRows(), 8, e, 1) + Share(-x, 2);
  }

  lemma EightDistortion(vars: seq<real>, k: nat)
    requires vars == [1.0, 1.0, 1.0, 1.0, 1.0, 1.0, 1.0, 0.0] && k < 5
    ensures SaqDp.Choices([k]) && SaqDp.Bytes([k]) == SaqDp.Width(k)
    ensures SaqDp.Distortion(vars, 0, [k]) == 7.0 * SaqDp.Ratio(k)
  {
    assert [k][1..] == [];
    OnesCost(vars, 7, k);
    hide SaqDp.Ratio;
    assert SaqDp.SegCost(vars, 0, 8, k) == SaqDp.SegCost(vars, 0, 7, k) + 0.0 * SaqDp.Ratio(k);
  }

  lemma {:induction false} OnesCost(vars: seq<real>, n: nat, k: nat)
    requires n <= |vars| && k < 5 && forall e :: 0 <= e < n ==> vars[e] == 1.0
    ensures SaqDp.SegCost(vars, 0, n, k) == n as real * SaqDp.Ratio(k)
  {
    hide SaqDp.Ratio;
    if n > 0 {
      OnesCost(vars, n - 1, k);
    }
  }

  lemma SmallestRatio(k: nat)
    requires k < 4
    ensures SaqDp.Ratio(4) < SaqDp.Ratio(k) && SaqDp.Width(4) == 8
  {
  }

  lemma OnlyEightBits(vars: seq<real>, ws: seq<nat>)
    requires vars == [1.0, 1.0, 1.0, 1.0, 1.0, 1.0, 1.0, 0.0] && Optimal(vars, 8, ws)
    ensures ws == [4]
  {
    hide SaqDp.Distortion, SaqDp.Bytes, SaqDp.Ratio, SaqDp.Width;
    var k := ws[0];
    assert ws == [k];
    EightDistortion(vars, 4);
    EightDistortion(vars, k);
    SmallestRatio(0);
    assert SaqDp.Distortion(vars, 0, ws) <= SaqDp.Distortion(vars, 0, [4]);
    if k < 4 {
      SmallestRatio(k);
      assert false;
    }
  }

  /** With a budget of 8 bytes the only optimal allocation gives all eight dimensions 8 bits, and the code of
      the constant one is not determined. */
  lemma ConstantDimensionGetsBits(vars: seq<real>, st: SaqDp.Stats, ws: seq<nat>, q: seq<DimQuant>)
    requires SampleOk(TwoRows(), 8) && Summary(TwoRows(), 8, vars, st)
    requires Optimal(vars, 8, ws) && Follows(st, ws, q)
    ensures ws == [4] && q[7].bits == 8 && q[7].step == 0.0 && !Determined(q[7])
  {
    TwoRowsVariances(vars, st);
    OnlyEightBits(vars, ws);
    hide TwoRows, Summary, SaqDp.FollowsChoice, Optimal, Determined;
    SmallestRatio(0);
    DimTrained(st, ws, q[7], 7);
    DimStep(st, ws, q[7], 7);
    DeterminedIff(q[7]);
  }

  /** The code goes on with this sample, and its allocation does not leave the constant dimension out. */
  lemma TwoRowsOk()
    ensures SampleOk(TwoRows(), 8) && !Varied(TwoRows(), 8, [4])
  {
    assert TwoRows()[1][7] == TwoRows()[0][7] == 0.0;
    assert Constant(TwoRows(), 8, 7);
    assert SaqDp.Width([4][7 / 8]) >= 2;
  }
}
