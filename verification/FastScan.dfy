/** The three 32-lane kernels over 4-bit codes (scripts/bench_kernel.cpp:30-211): 16-bit lanes that
    take every segment, 8-bit lanes carried into 16-bit ones every 16 segments, and two sets of 16-bit
    lanes that share the segments. A register is the sequence of its lanes; 8-bit lanes wrap at 256 and
    16-bit lanes at 65536. */
module FastScan {
  import opened Numbers

  const U8 := 256
  const U16 := 65536

  ghost predicate Bytes(xs: seq<nat>) {
    forall i :: 0 <= i < |xs| ==> xs[i] < U8
  }

  /** `m` segments of 16 code bytes and of 16 table entries. */
  ghost predicate Input(codes: seq<nat>, lut: seq<nat>, m: nat) {
    |codes| == 16 * m && |lut| == 16 * m && Bytes(codes) && Bytes(lut)
  }

  // ----- what a lane is meant to hold -----

  /** The 4-bit code of lane `j`: the low nibble of byte `j`, or the high nibble of byte `j - 16`. */
  function Nibble(codes: seq<nat>, s: nat, j: nat): (n: nat)
    requires 16 * s + 16 <= |codes| && j < 32 && codes[16 * s + j % 16] < U8
    ensures n < 16
  {
    if j < 16 then codes[16 * s + j] % 16 else codes[16 * s + j - 16] / 16
  }

  function Entry(codes: seq<nat>, lut: seq<nat>, m: nat, s: nat, j: nat): (e: nat)
    requires Input(codes, lut, m) && s < m && j < 32
    ensures e < U8
  {
    lut[16 * s + Nibble(codes, s, j)]
  }

  /** The sum of lane `j`'s entries over the segments from `a` up to `b`. */
  function LaneSum(codes: seq<nat>, lut: seq<nat>, m: nat, j: nat, a: nat, b: nat): nat
    requires Input(codes, lut, m) && a <= b <= m && j < 32
    decreases b - a
  {
    if a == b then 0 else LaneSum(codes, lut, m, j, a, b - 1) + Entry(codes, lut, m, b - 1, j)
  }

  lemma {:induction false} LaneSumSplits(codes: seq<nat>, lut: seq<nat>, m: nat, j: nat, a: nat, b: nat, c: nat)
    requires Input(codes, lut, m) && a <= b <= c <= m && j < 32
    ensures LaneSum(codes, lut, m, j, a, c) == LaneSum(codes, lut, m, j, a, b) + LaneSum(codes, lut, m, j, b, c)
    decreases c - b
  {
    if b < c {
      LaneSumSplits(codes, lut, m, j, a, b, c - 1);
    }
  }

  // ----- registers -----

  /** Lane-wise sums in `width`-sized lanes. */
  function Add(x: seq<nat>, y: seq<nat>, width: nat): (r: seq<nat>)
    requires |x| == |y| && width > 0
    ensures |r| == |x| && forall i :: 0 <= i < |r| ==> r[i] == (x[i] + y[i]) % width
  {
    seq(|x|, i requires 0 <= i < |x| => (x[i] + y[i]) % width)
  }

  /** A table register looked up at every lane of an index register. */
  function TableLookup(table: seq<nat>, index: seq<nat>): (r: seq<nat>)
    requires |table| == 16 && |index| == 16 && forall i :: 0 <= i < 16 ==> index[i] < 16
    ensures |r| == 16 && forall i :: 0 <= i < 16 ==> r[i] == table[index[i]]
  {
    seq(16, i requires 0 <= i < 16 => table[index[i]])
  }

  function Mask4(c: seq<nat>): (r: seq<nat>)
    ensures |r| == |c| && forall i :: 0 <= i < |c| ==> r[i] == c[i] % 16
  {
    seq(|c|, i requires 0 <= i < |c| => c[i] % 16)
  }

  function Shift4(c: seq<nat>): (r: seq<nat>)
    ensures |r| == |c| && forall i :: 0 <= i < |c| ==> r[i] == c[i] / 16
  {
    seq(|c|, i requires 0 <= i < |c| => c[i] / 16)
  }

  /** The four 8-lane accumulators: low nibbles of bytes 0-7 and 8-15, then high nibbles of the same. */
  datatype Acc = Acc(loA: seq<nat>, loB: seq<nat>, hiA: seq<nat>, hiB: seq<nat>)

  ghost predicate Full(acc: Acc) {
    |acc.loA| == 8 && |acc.loB| == 8 && |acc.hiA| == 8 && |acc.hiB| == 8
  }

  /** The 32 lanes in output order. */
  function Lane(acc: Acc, j: nat): nat
    requires Full(acc) && j < 32
  {
    if j < 8 then acc.loA[j] else if j < 16 then acc.loB[j - 8] else if j < 24 then acc.hiA[j - 16] else acc.hiB[j - 24]
  }

  function Zero(): (acc: Acc)
    ensures Full(acc) && forall j :: 0 <= j < 32 ==> Lane(acc, j) == 0
  {
    Acc([0, 0, 0, 0, 0, 0, 0, 0], [0, 0, 0, 0, 0, 0, 0, 0], [0, 0, 0, 0, 0, 0, 0, 0], [0, 0, 0, 0, 0, 0, 0, 0])
  }

  function AddAcc(x: Acc, y: Acc, width: nat): (r: Acc)
    requires Full(x) && Full(y) && width > 0
    ensures Full(r) && forall j :: 0 <= j < 32 ==> Lane(r, j) == (Lane(x, j) + Lane(y, j)) % width
  {
    Acc(Add(x.loA, y.loA, width), Add(x.loB, y.loB, width), Add(x.hiA, y.hiA, width), Add(x.hiB, y.hiB, width))
  }

  /** One segment's 32 table entries, split over the four registers. */
  method LoadSegment(codes: seq<nat>, lut: seq<nat>, m: nat, s: nat) returns (r: Acc)
    requires Input(codes, lut, m) && s < m
    ensures Full(r) && forall j :: 0 <= j < 32 ==> Lane(r, j) == Entry(codes, lut, m, s, j)
  {
    var table := lut[16 * s..16 * s + 16];
    var c := codes[16 * s..16 * s + 16];
    var lo := TableLookup(table, Mask4(c));
    var hi := TableLookup(table, Shift4(c));
    r := Acc(lo[..8], lo[8..], hi[..8], hi[8..]);
  }

  /** Eight stores of four widened lanes each. */
  method Store(acc: Acc, out: array<nat>)
    requires Full(acc) && out.Length == 32
    modifies out
    ensures forall j :: 0 <= j < 32 ==> out[j] == Lane(acc, j)
  {
    Store4(acc.loA[..4], out, 0);
    Store4(acc.loA[4..], out, 4);
    Store4(acc.loB[..4], out, 8);
    Store4(acc.loB[4..], out, 12);
    Store4(acc.hiA[..4], out, 16);
    Store4(acc.hiA[4..], out, 20);
    Store4(acc.hiB[..4], out, 24);
    Store4(acc.hiB[4..], out, 28);
  }

  method Store4(lanes: seq<nat>, out: array<nat>, at: nat)
    requires |lanes| == 4 && at + 4 <= out.Length
    modifies out
    ensures forall j :: 0 <= j < out.Length ==> out[j] == if at <= j < at + 4 then lanes[j - at] else old(out[j])
  {
    out[at], out[at + 1], out[at + 2], out[at + 3] := lanes[0], lanes[1], lanes[2], lanes[3];
  }

  // ----- the kernels -----

  /** Lane `j` of the 16-bit kernels: the lane's whole sum, modulo 65536. */
  function Wide(codes: seq<nat>, lut: seq<nat>, m: nat, j: nat): nat
    requires Input(codes, lut, m) && j < 32
  {
    LaneSum(codes, lut, m, j, 0, m) % U16
  }

  /** One more segment in every lane. */
  method Take(codes: seq<nat>, lut: seq<nat>, m: nat, s: nat, acc: Acc, width: nat) returns (r: Acc)
    requires Input(codes, lut, m) && s < m && Full(acc) && width > 0
    ensures Full(r) && forall j :: 0 <= j < 32 ==> Lane(r, j) == (Lane(acc, j) + Entry(codes, lut, m, s, j)) % width
  {
    var seg := LoadSegment(codes, lut, m, s);
    r := AddAcc(acc, seg, width);
  }

  lemma AddAfterMod(x: nat, y: nat, e: nat, w: nat)
    requires w == U8 || w == U16
    ensures ((x + e) % w + y) % w == (x + y + e) % w
  {
    var q := (x + e) / w;
    var z := (x + e) % w + y;
    if w == U8 {
      DropMultipleOf256(z, q);
    } else {
      DropMultipleOf65536(z, q);
    }
  }

  lemma DropMultipleOf256(z: nat, q: nat)
    ensures (z + 256 * q) % 256 == z % 256
  {
  }

  lemma DropMultipleOf65536(z: nat, q: nat)
    ensures (z + 65536 * q) % 65536 == z % 65536
  {
  }

  method Baseline(codes: seq<nat>, lut: seq<nat>, m: nat, out: array<nat>)
    requires Input(codes, lut, m) && out.Length == 32
    modifies out
    ensures forall j :: 0 <= j < 32 ==> out[j] == Wide(codes, lut, m, j)
  {
    hide Input, Entry, Lane;
    var acc := Zero();
    for s := 0 to m
      invariant Full(acc) && forall j :: 0 <= j < 32 ==> Lane(acc, j) == LaneSum(codes, lut, m, j, 0, s) % U16
    {
      ghost var was := acc;
      acc := Take(codes, lut, m, s, acc, U16);
      forall j | 0 <= j < 32 ensures Lane(acc, j) == LaneSum(codes, lut, m, j, 0, s + 1) % U16 {
        AddAfterMod(LaneSum(codes, lut, m, j, 0, s), 0, Entry(codes, lut, m, s, j), U16);
        SumModWrap(LaneSum(codes, lut, m, j, 0, s), Entry(codes, lut, m, s, j), U16);
      }
    }
    Store(acc, out);
  }

  lemma SumModWrap(x: nat, e: nat, w: nat)
    requires w == U8 || w == U16
    ensures (x % w + e) % w == (x + e) % w
  {
    AddAfterMod(x, e, 0, w);
  }

  method TwoChains(codes: seq<nat>, lut: seq<nat>, m: nat, out: array<nat>)
    requires Input(codes, lut, m) && out.Length == 32
    modifies out
    ensures forall j :: 0 <= j < 32 ==> out[j] == Wide(codes, lut, m, j)
  {
    hide Input, Entry, Lane;
    var a0, a1 := Zero(), Zero();
    var s := 0;
    while s < m / 2 * 2
      invariant s <= m / 2 * 2 && s % 2 == 0 && Full(a0) && Full(a1)
      invariant Together(codes, lut, m, a0, a1, s)
    {
      ghost var was0, was1 := a0, a1;
      a0 := Take(codes, lut, m, s, a0, U16);
      FirstChain(codes, lut, m, was0, was1, a0, s);
      a1 := Take(codes, lut, m, s + 1, a1, U16);
      SecondChain(codes, lut, m, a0, was1, a1, s + 1);
      s := s + 2;
    }
    if s < m {
      ghost var was0 := a0;
      a0 := Take(codes, lut, m, s, a0, U16);
      FirstChain(codes, lut, m, was0, a1, a0, s);
    }
    var acc := AddAcc(a0, a1, U16);
    Store(acc, out);
  }

  /** The two sets of lanes add up to the sums over the first `s` segments. */
  ghost predicate Together(codes: seq<nat>, lut: seq<nat>, m: nat, a0: Acc, a1: Acc, s: nat)
    requires Input(codes, lut, m) && s <= m && Full(a0) && Full(a1)
  {
    forall j :: 0 <= j < 32 ==> (Lane(a0, j) + Lane(a1, j)) % U16 == LaneSum(codes, lut, m, j, 0, s) % U16
  }

  lemma FirstChain(codes: seq<nat>, lut: seq<nat>, m: nat, a0: Acc, a1: Acc, b0: Acc, s: nat)
    requires Input(codes, lut, m) && s < m && Full(a0) && Full(a1) && Full(b0) && Together(codes, lut, m, a0, a1, s)
    requires forall j :: 0 <= j < 32 ==> Lane(b0, j) == (Lane(a0, j) + Entry(codes, lut, m, s, j)) % U16
    ensures Together(codes, lut, m, b0, a1, s + 1)
  {
    hide Input, Entry, Lane;
    forall j | 0 <= j < 32
      ensures (Lane(b0, j) + Lane(a1, j)) % U16 == LaneSum(codes, lut, m, j, 0, s + 1) % U16
    {
      var e := Entry(codes, lut, m, s, j);
      AddAfterMod(Lane(a0, j), Lane(a1, j), e, U16);
      SumModWrap(Lane(a0, j) + Lane(a1, j), e, U16);
      SumModWrap(LaneSum(codes, lut, m, j, 0, s), e, U16);
    }
  }

  lemma SecondChain(codes: seq<nat>, lut: seq<nat>, m: nat, a0: Acc, a1: Acc, b1: Acc, s: nat)
    requires Input(codes, lut, m) && s < m && Full(a0) && Full(a1) && Full(b1) && Together(codes, lut, m, a0, a1, s)
    requires forall j :: 0 <= j < 32 ==> Lane(b1, j) == (Lane(a1, j) + Entry(codes, lut, m, s, j)) % U16
    ensures Together(codes, lut, m, a0, b1, s + 1)
  {
    FirstChain(codes, lut, m, a1, a0, b1, s);
  }

  /** The 8-bit kernel's lane: each full run of 16 segments, and the rest, loses its multiples of 256. */
  function Carried(codes: seq<nat>, lut: seq<nat>, m: nat, j: nat, runs: nat): nat
    requires Input(codes, lut, m) && j < 32 && 16 * runs <= m
  {
    if runs == 0 then 0
    else Carried(codes, lut, m, j, runs - 1) + LaneSum(codes, lut, m, j, 16 * (runs - 1), 16 * runs) % U8
  }

  function Narrow(codes: seq<nat>, lut: seq<nat>, m: nat, j: nat): nat
    requires Input(codes, lut, m) && j < 32
  {
    (Carried(codes, lut, m, j, m / 16) + LaneSum(codes, lut, m, j, m / 16 * 16, m) % U8) % U16
  }

  method ByteLanes(codes: seq<nat>, lut: seq<nat>, m: nat, out: array<nat>)
    requires Input(codes, lut, m) && out.Length == 32
    modifies out
    ensures forall j :: 0 <= j < 32 ==> out[j] == Narrow(codes, lut, m, j)
  {
    hide Input, Entry, Lane;
    var u8, acc := Zero(), Zero();
    var s := 0;
    while s < m / 16 * 16
      invariant s <= m / 16 * 16 && Full(u8) && Full(acc)
      invariant Pending(codes, lut, m, u8, s / 16 * 16, s) && Kept(codes, lut, m, acc, s / 16)
    {
      ghost var was := u8;
      u8 := Take(codes, lut, m, s, u8, U8);
      OnePending(codes, lut, m, was, u8, s / 16 * 16, s);
      if s % 16 == 15 {
        ghost var before := acc;
        acc := AddAcc(acc, u8, U16);
        OneKept(codes, lut, m, before, u8, acc, s / 16);
        u8 := Zero();
      }
      s := s + 1;
    }
    while s < m
      invariant m / 16 * 16 <= s <= m && Full(u8) && Pending(codes, lut, m, u8, m / 16 * 16, s)
    {
      ghost var was := u8;
      u8 := Take(codes, lut, m, s, u8, U8);
      OnePending(codes, lut, m, was, u8, m / 16 * 16, s);
      s := s + 1;
    }
    ghost var before := acc;
    acc := AddAcc(acc, u8, U16);
    LastKept(codes, lut, m, before, u8, acc);
    Store(acc, out);
  }

  /** The 8-bit lanes hold the segments since the last carry, modulo 256. */
  ghost predicate Pending(codes: seq<nat>, lut: seq<nat>, m: nat, u8: Acc, a: nat, s: nat)
    requires Input(codes, lut, m) && a <= s <= m && Full(u8)
  {
    forall j :: 0 <= j < 32 ==> Lane(u8, j) == LaneSum(codes, lut, m, j, a, s) % U8
  }

  /** The 16-bit lanes hold what was carried, modulo 65536. */
  ghost predicate Kept(codes: seq<nat>, lut: seq<nat>, m: nat, acc: Acc, runs: nat)
    requires Input(codes, lut, m) && 16 * runs <= m && Full(acc)
  {
    forall j :: 0 <= j < 32 ==> Lane(acc, j) == Carried(codes, lut, m, j, runs) % U16
  }

  lemma OnePending(codes: seq<nat>, lut: seq<nat>, m: nat, u8: Acc, r: Acc, a: nat, s: nat)
    requires Input(codes, lut, m) && a <= s < m && Full(u8) && Full(r) && Pending(codes, lut, m, u8, a, s)
    requires forall j :: 0 <= j < 32 ==> Lane(r, j) == (Lane(u8, j) + Entry(codes, lut, m, s, j)) % U8
    ensures Pending(codes, lut, m, r, a, s + 1)
  {
    hide Input, Entry, Lane;
    forall j | 0 <= j < 32 ensures Lane(r, j) == LaneSum(codes, lut, m, j, a, s + 1) % U8 {
      SumModWrap(LaneSum(codes, lut, m, j, a, s), Entry(codes, lut, m, s, j), U8);
    }
  }

  lemma OneKept(codes: seq<nat>, lut: seq<nat>, m: nat, acc: Acc, u8: Acc, r: Acc, runs: nat)
    requires Input(codes, lut, m) && 16 * runs + 16 <= m && Full(acc) && Full(u8) && Full(r)
    requires Kept(codes, lut, m, acc, runs) && Pending(codes, lut, m, u8, 16 * runs, 16 * runs + 16)
    requires forall j :: 0 <= j < 32 ==> Lane(r, j) == (Lane(acc, j) + Lane(u8, j)) % U16
    ensures Kept(codes, lut, m, r, runs + 1)
  {
    hide Input, Entry, Lane, LaneSum;
    forall j | 0 <= j < 32 ensures Lane(r, j) == Carried(codes, lut, m, j, runs + 1) % U16 {
      SumModWrap(Carried(codes, lut, m, j, runs), Lane(u8, j), U16);
    }
  }

  lemma LastKept(codes: seq<nat>, lut: seq<nat>, m: nat, acc: Acc, u8: Acc, r: Acc)
    requires Input(codes, lut, m) && Full(acc) && Full(u8) && Full(r)
    requires Kept(codes, lut, m, acc, m / 16) && Pending(codes, lut, m, u8, m / 16 * 16, m)
    requires forall j :: 0 <= j < 32 ==> Lane(r, j) == (Lane(acc, j) + Lane(u8, j)) % U16
    ensures forall j :: 0 <= j < 32 ==> Lane(r, j) == Narrow(codes, lut, m, j)
  {
    hide Input, Entry, Lane, LaneSum;
    forall j | 0 <= j < 32 ensures Lane(r, j) == Narrow(codes, lut, m, j) {
      SumModWrap(Carried(codes, lut, m, j, m / 16), Lane(u8, j), U16);
    }
  }

  // ----- when the kernels agree -----

  /** How many times a run's 8-bit lane wraps, over all runs. */
  function Wraps(codes: seq<nat>, lut: seq<nat>, m: nat, j: nat, runs: nat): nat
    requires Input(codes, lut, m) && j < 32 && 16 * runs <= m
  {
    if runs == 0 then 0
    else Wraps(codes, lut, m, j, runs - 1) + LaneSum(codes, lut, m, j, 16 * (runs - 1), 16 * runs) / U8
  }

  function Lost(codes: seq<nat>, lut: seq<nat>, m: nat, j: nat): nat
    requires Input(codes, lut, m) && j < 32
  {
    Wraps(codes, lut, m, j, m / 16) + LaneSum(codes, lut, m, j, m / 16 * 16, m) / U8
  }

  lemma {:induction false} CarriedLosesWraps(codes: seq<nat>, lut: seq<nat>, m: nat, j: nat, runs: nat)
    requires Input(codes, lut, m) && j < 32 && 16 * runs <= m
    ensures Carried(codes, lut, m, j, runs) + U8 * Wraps(codes, lut, m, j, runs)
            == LaneSum(codes, lut, m, j, 0, 16 * runs)
  {
    if runs > 0 {
      CarriedLosesWraps(codes, lut, m, j, runs - 1);
      LaneSumSplits(codes, lut, m, j, 0, 16 * (runs - 1), 16 * runs);
    }
  }

  ghost predicate AgreesIff(carried: nat, wraps: nat, rest: nat, sum: nat) {
    (carried + rest % U8) % U16 == sum % U16 <==> (wraps + rest / U8) % U8 == 0
  }

  lemma AgreeAt(codes: seq<nat>, lut: seq<nat>, m: nat, j: nat, runs: nat)
    requires Input(codes, lut, m) && j < 32 && 16 * runs <= m
    ensures AgreesIff(Carried(codes, lut, m, j, runs), Wraps(codes, lut, m, j, runs),
                      LaneSum(codes, lut, m, j, 16 * runs, m), LaneSum(codes, lut, m, j, 0, m))
  {
    hide AgreesIff;
    CarriedLosesWraps(codes, lut, m, j, runs);
    LaneSumSplits(codes, lut, m, j, 0, 16 * runs, m);
    hide Carried, Wraps, LaneSum, Input;
    LossOf(Carried(codes, lut, m, j, runs), Wraps(codes, lut, m, j, runs),
           LaneSum(codes, lut, m, j, 0, 16 * runs), LaneSum(codes, lut, m, j, 16 * runs, m),
           LaneSum(codes, lut, m, j, 0, m));
  }

  /** The 8-bit kernel agrees with the 16-bit ones in a lane exactly when the lane's 8-bit wraps number a
      multiple of 256: each wrap loses 256, and 256 of them are one wrap of the 16-bit lane. */
  lemma ByteLanesAgreeIff(codes: seq<nat>, lut: seq<nat>, m: nat, j: nat)
    requires Input(codes, lut, m) && j < 32
    ensures Narrow(codes, lut, m, j) == Wide(codes, lut, m, j) <==> Lost(codes, lut, m, j) % U8 == 0
  {
    hide Carried, Wraps, LaneSum, Input;
    AgreeAt(codes, lut, m, j, m / 16);
    assert m / 16 * 16 == 16 * (m / 16);
  }

  lemma LossOf(carried: nat, wraps: nat, head: nat, rest: nat, sum: nat)
    requires carried + U8 * wraps == head && sum == head + rest
    ensures AgreesIff(carried, wraps, rest, sum)
  {
    var q, r := rest / 256, rest % 256;
    assert rest == r + 256 * q;
    SameAfterLoss(carried + r, wraps + q, sum);
  }

  lemma SameAfterLoss(narrow: nat, lost: nat, sum: nat)
    requires narrow + 256 * lost == sum
    ensures narrow % 65536 == sum % 65536 <==> lost % 256 == 0
  {
  }

  /** Entries up to `c`. */
  ghost predicate UpTo(lut: seq<nat>, c: nat) {
    forall i :: 0 <= i < |lut| ==> lut[i] <= c
  }

  lemma {:induction false} LaneSumBound(codes: seq<nat>, lut: seq<nat>, m: nat, j: nat, a: nat, b: nat, c: nat)
    requires Input(codes, lut, m) && a <= b <= m && j < 32 && UpTo(lut, c)
    ensures LaneSum(codes, lut, m, j, a, b) <= (b - a) * c
    decreases b - a
  {
    if a < b {
      LaneSumBound(codes, lut, m, j, a, b - 1, c);
      assert (b - a) * c == (b - 1 - a) * c + c;
    }
  }

  lemma {:induction false} NoWraps(codes: seq<nat>, lut: seq<nat>, m: nat, j: nat, runs: nat, c: nat)
    requires Input(codes, lut, m) && j < 32 && 16 * runs <= m && UpTo(lut, c) && (runs > 0 ==> 16 * c <= 255)
    ensures Wraps(codes, lut, m, j, runs) == 0
  {
    if runs > 0 {
      NoWraps(codes, lut, m, j, runs - 1, c);
      LaneSumBound(codes, lut, m, j, 16 * (runs - 1), 16 * runs, c);
    }
  }

  /** The 8-bit kernel agrees with the others on every code block and every table with entries up to `c`. */
  ghost predicate ExactFor(m: nat, c: nat) {
    forall codes, lut, j :: Input(codes, lut, m) && UpTo(lut, c) && 0 <= j < 32 ==>
      Narrow(codes, lut, m, j) == Wide(codes, lut, m, j)
  }

  lemma SmallEntriesExact(m: nat, c: nat)
    requires Min(m, 16) * c <= 255
    ensures ExactFor(m, c)
  {
    hide Narrow, Wide, Min, Input, UpTo;
    forall codes, lut, j | Input(codes, lut, m) && UpTo(lut, c) && 0 <= j < 32
      ensures Narrow(codes, lut, m, j) == Wide(codes, lut, m, j)
    {
      ExactAt(codes, lut, m, j, c);
    }
  }

  lemma ExactAt(codes: seq<nat>, lut: seq<nat>, m: nat, j: nat, c: nat)
    requires Input(codes, lut, m) && UpTo(lut, c) && j < 32 && Min(m, 16) * c <= 255
    ensures Narrow(codes, lut, m, j) == Wide(codes, lut, m, j)
  {
    hide Narrow, Wide, Wraps, LaneSum, Lost, Min, Input, UpTo;
    NothingLost(codes, lut, m, j, c);
    ByteLanesAgreeIff(codes, lut, m, j);
  }

  lemma NothingLost(codes: seq<nat>, lut: seq<nat>, m: nat, j: nat, c: nat)
    requires Input(codes, lut, m) && UpTo(lut, c) && j < 32 && Min(m, 16) * c <= 255
    ensures Lost(codes, lut, m, j) == 0
  {
    RunFits(m, c);
    TailFits(m, c);
    hide Wraps, LaneSum, Min, Input, UpTo;
    NoWraps(codes, lut, m, j, m / 16, c);
    LaneSumBound(codes, lut, m, j, m / 16 * 16, m, c);
    Below256(LaneSum(codes, lut, m, j, m / 16 * 16, m));
  }

  lemma Below256(x: nat)
    requires x <= 255
    ensures x / U8 == 0
  {
  }

  lemma RunFits(m: nat, c: nat)
    requires Min(m, 16) * c <= 255
    ensures m / 16 > 0 ==> 16 * c <= 255
  {
  }

  lemma TailFits(m: nat, c: nat)
    requires Min(m, 16) * c <= 255
    ensures (m - m / 16 * 16) * c <= 255
  {
    var tail := m - m / 16 * 16;
    assert tail <= Min(m, 16);
    assert tail * c <= Min(m, 16) * c;
  }

  /** All codes 0; the first 16 segments' entries are `c`, the others 0. */
  function WorstTable(m: nat, c: nat): (lut: seq<nat>)
    ensures |lut| == 16 * m && forall i :: 0 <= i < 16 * m ==> lut[i] == if i < 256 then c else 0
  {
    seq(16 * m, i => if i < 256 then c else 0)
  }

  function ZeroCodes(m: nat): (codes: seq<nat>)
    ensures |codes| == 16 * m && forall i :: 0 <= i < 16 * m ==> codes[i] == 0
  {
    seq(16 * m, i => 0)
  }

  lemma WorstEntry(m: nat, c: nat, s: nat)
    requires c < U8 && s < m && Input(ZeroCodes(m), WorstTable(m, c), m)
    ensures Entry(ZeroCodes(m), WorstTable(m, c), m, s, 0) == if s < 16 then c else 0
  {
    assert Nibble(ZeroCodes(m), s, 0) == 0;
  }

  lemma {:induction false} WorstSum(m: nat, c: nat, a: nat, b: nat)
    requires c < U8 && a <= b <= m && Input(ZeroCodes(m), WorstTable(m, c), m) && (a == 0 || a >= 16)
    ensures LaneSum(ZeroCodes(m), WorstTable(m, c), m, 0, a, b) == if a == 0 then Min(b, 16) * c else 0
    decreases b - a
  {
    hide Entry, Input, WorstTable, ZeroCodes;
    if a < b {
      WorstSum(m, c, a, b - 1);
      WorstEntry(m, c, b - 1);
      if a == 0 && b <= 16 {
        assert Min(b, 16) * c == Min(b - 1, 16) * c + c;
      }
    }
  }

  lemma {:induction false} WorstWraps(m: nat, c: nat, runs: nat)
    requires c < U8 && 16 * runs <= m && Input(ZeroCodes(m), WorstTable(m, c), m)
    ensures Wraps(ZeroCodes(m), WorstTable(m, c), m, 0, runs) == if runs == 0 then 0 else 16 * c / U8
  {
    if runs > 0 {
      WorstWraps(m, c, runs - 1);
      WorstSum(m, c, 16 * (runs - 1), 16 * runs);
    }
  }

  /** The 8-bit kernel is exact for all codes and all tables with entries up to `c` if and only if the
      first 16 segments (or all, if fewer) cannot reach 256; in particular for 4-bit entries at any `m`. */
  lemma ByteLanesExactIff(m: nat, c: nat)
    requires c < U8
    ensures ExactFor(m, c) <==> Min(m, 16) * c <= 255
    ensures ExactFor(m, 15)
  {
    SmallEntriesExact(m, 15);
    if Min(m, 16) * c <= 255 {
      SmallEntriesExact(m, c);
    } else {
      var codes, lut := ZeroCodes(m), WorstTable(m, c);
      assert Input(codes, lut, m) && UpTo(lut, c);
      WorstWraps(m, c, m / 16);
      WorstSum(m, c, m / 16 * 16, m);
      WorstLost(m, c);
      ByteLanesAgreeIff(codes, lut, m, 0);
      assert Narrow(codes, lut, m, 0) != Wide(codes, lut, m, 0);
    }
  }

  lemma WorstLost(m: nat, c: nat)
    requires c < U8 && Min(m, 16) * c > 255 && Input(ZeroCodes(m), WorstTable(m, c), m)
    requires Wraps(ZeroCodes(m), WorstTable(m, c), m, 0, m / 16) == if m / 16 == 0 then 0 else 16 * c / U8
    requires LaneSum(ZeroCodes(m), WorstTable(m, c), m, 0, m / 16 * 16, m) == if m / 16 == 0 then Min(m, 16) * c else 0
    ensures Lost(ZeroCodes(m), WorstTable(m, c), m, 0) % U8 != 0
  {
    hide Input, ZeroCodes, WorstTable, LaneSum, Wraps;
    FewWraps(Min(m, 16), c);
  }

  lemma FewWraps(n: nat, c: nat)
    requires n <= 16 && c < U8 && n * c > 255
    ensures n * c / U8 % U8 != 0
  {
    var v := n * c;
    assert v <= 16 * c;
  }

  /** With entries up to `c` and `m * c` below 65536 no 16-bit lane wraps: the sums are exact. */
  lemma WideIsPlainSum(codes: seq<nat>, lut: seq<nat>, m: nat, j: nat, c: nat)
    requires Input(codes, lut, m) && j < 32 && UpTo(lut, c) && m * c < U16
    ensures Wide(codes, lut, m, j) == LaneSum(codes, lut, m, j, 0, m)
  {
    LaneSumBound(codes, lut, m, j, 0, m, c);
  }

  function FlatTable(m: nat, c: nat): (lut: seq<nat>)
    ensures |lut| == 16 * m && forall i :: 0 <= i < 16 * m ==> lut[i] == c
  {
    seq(16 * m, i => c)
  }

  lemma {:induction false} FlatSum(m: nat, c: nat, b: nat)
    requires c < U8 && b <= m && Input(ZeroCodes(m), FlatTable(m, c), m)
    ensures LaneSum(ZeroCodes(m), FlatTable(m, c), m, 0, 0, b) == b * c
  {
    if b > 0 {
      FlatSum(m, c, b - 1);
      assert b * c == (b - 1) * c + c;
    }
  }

  /** The 16-bit sums are exact for all codes and all tables with entries up to `c` if and only if
      `m * c` stays below 65536. */
  lemma WideExactIff(m: nat, c: nat)
    requires c < U8
    ensures (forall codes, lut, j :: Input(codes, lut, m) && UpTo(lut, c) && 0 <= j < 32 ==>
               Wide(codes, lut, m, j) == LaneSum(codes, lut, m, j, 0, m)) <==> m * c < U16
  {
    if m * c < U16 {
      forall codes, lut, j | Input(codes, lut, m) && UpTo(lut, c) && 0 <= j < 32
        ensures Wide(codes, lut, m, j) == LaneSum(codes, lut, m, j, 0, m)
      {
        WideIsPlainSum(codes, lut, m, j, c);
      }
    } else {
      var codes, lut := ZeroCodes(m), FlatTable(m, c);
      assert Input(codes, lut, m) && UpTo(lut, c);
      FlatSum(m, c, m);
      assert Wide(codes, lut, m, 0) < LaneSum(codes, lut, m, 0, 0, m);
    }
  }
}
