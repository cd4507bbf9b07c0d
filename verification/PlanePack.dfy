/** The packed plane (scripts/spike_plane_quant.cpp, `encode` and the scoring loop of
    `run_variant`): codes ORed into bytes bit by bit, scored back through byte reads and tables. */
module PlanePack {
  import opened Numbers
  import opened Quantizers
  import Vectors

  // ----- bits of a byte -----

  function Mask(t: nat): bv8
    requires t < 8
  {
    if t == 0 then 1 else if t == 1 then 2 else if t == 2 then 4 else if t == 3 then 8
    else if t == 4 then 16 else if t == 5 then 32 else if t == 6 then 64 else 128
  }

  predicate Bit(x: bv8, t: nat)
    requires t < 8
  {
    x & Mask(t) != 0
  }

  /** The narrowing cast of a small integer. */
  function ToByte(c: nat): (r: bv8)
    requires c < 256
    ensures r as nat == c
  {
    if c == 0 then 0 else ToByte(c - 1) + 1
  }

  lemma SameByte(x: bv8, y: bv8)
    requires x as nat == y as nat
    ensures x == y
  {
  }

  lemma OrSetsOneBit(x: bv8, t: nat, u: nat)
    requires t < 8 && u < 8
    ensures Bit(x | Mask(t), u) == (u == t || Bit(x, u))
  {
  }

  /** Bit `p` of a byte string. */
  predicate BitAt(bytes: seq<bv8>, p: nat)
    requires p < 8 * |bytes|
  {
    Bit(bytes[p / 8], p % 8)
  }

  // ----- packing -----

  ghost predicate PackWidth(w: nat) {
    w == 1 || w == 2 || w == 4 || w == 8
  }

  function Stride(n: nat, w: nat): nat {
    (n * w + 7) / 8
  }

  /** Bit `p` of the code stream. */
  ghost predicate StreamBit(codes: seq<bv8>, w: nat, p: nat)
    requires PackWidth(w) && p < |codes| * w
  {
    0 <= p / w < |codes| && Bit(codes[p / w], p % w)
  }

  /** The first `n` stream bits are stored, every later bit is clear. */
  ghost predicate PackedUpTo(bytes: seq<bv8>, codes: seq<bv8>, w: nat, n: nat)
    requires PackWidth(w) && n <= |codes| * w <= 8 * |bytes|
  {
    forall p: nat :: p < 8 * |bytes| ==> (BitAt(bytes, p) <==> p < n && StreamBit(codes, w, p))
  }

  ghost predicate Packed(bytes: seq<bv8>, codes: seq<bv8>, w: nat)
    requires PackWidth(w)
  {
    && |bytes| == Stride(|codes|, w)
    && |codes| * w <= 8 * |bytes|
    && PackedUpTo(bytes, codes, w, |codes| * w)
  }

  function OrBit(bytes: seq<bv8>, p: nat): (r: seq<bv8>)
    requires p < 8 * |bytes|
    ensures |r| == |bytes|
  {
    bytes[p / 8 := bytes[p / 8] | Mask(p % 8)]
  }

  /** Storing one bit leaves all others alone. */
  lemma OrBitSetsOne(bytes: seq<bv8>, p: nat, r: nat)
    requires p < 8 * |bytes| && r < 8 * |bytes|
    ensures BitAt(OrBit(bytes, p), r) <==> r == p || BitAt(bytes, r)
  {
    hide Bit, Mask;
    if r / 8 == p / 8 {
      OrSetsOneBit(bytes[p / 8], p % 8, r % 8);
      assert r % 8 == p % 8 <==> r == p;
    }
  }

  lemma StreamBitOf(codes: seq<bv8>, w: nat, di: nat, b: nat)
    requires PackWidth(w) && di < |codes| && b < w && di * w + b < |codes| * w
    ensures StreamBit(codes, w, di * w + b) == Bit(codes[di], b)
  {
    hide Bit;
    assert (di * w + b) / w == di && (di * w + b) % w == b;
  }

  lemma StoreBit(bytes: seq<bv8>, codes: seq<bv8>, w: nat, di: nat, b: nat)
    requires PackWidth(w) && di < |codes| && b < w && |codes| * w <= 8 * |bytes|
    requires di * w + b < |codes| * w && PackedUpTo(bytes, codes, w, di * w + b)
    ensures PackedUpTo(if Bit(codes[di], b) then OrBit(bytes, di * w + b) else bytes, codes, w, di * w + b + 1)
  {
    hide BitAt, OrBit, StreamBit, Bit;
    var p := di * w + b;
    StreamBitOf(codes, w, di, b);
    assert !BitAt(bytes, p);
    if Bit(codes[di], b) {
      forall r: nat | r < 8 * |bytes|
        ensures BitAt(OrBit(bytes, p), r) <==> r < p + 1 && StreamBit(codes, w, r)
      {
        OrBitSetsOne(bytes, p, r);
      }
    }
  }

  lemma EnoughBytes(n: nat, w: nat, di: nat)
    ensures n * w <= 8 * Stride(n, w)
    ensures di < n ==> di * w + w <= n * w && (di + 1) * w == di * w + w
  {
    if di < n {
      NextRow(n, w, di);
    }
  }

  lemma NextRow(n: nat, w: nat, i: nat)
    requires i < n
    ensures i * w + w == (i + 1) * w <= n * w
  {
    Distribute(i, 1, w);
    Distribute(i + 1, n - i - 1, w);
  }

  lemma Distribute(a: nat, b: nat, w: nat)
    ensures (a + b) * w == a * w + b * w && b * w >= 0
  {
  }

  /** The loop over the bits of one code. */
  method PackCode(buf: array<bv8>, at: nat, stride: nat, di: nat, w: nat, codes: seq<bv8>)
    requires PackWidth(w) && at + stride <= buf.Length && di < |codes| && di * w + w <= |codes| * w <= 8 * stride
    requires PackedUpTo(buf[at..at + stride], codes, w, di * w)
    modifies buf
    ensures PackedUpTo(buf[at..at + stride], codes, w, di * w + w)
    ensures forall j :: 0 <= j < buf.Length && !(at <= j < at + stride) ==> buf[j] == old(buf[j])
  {
    assert w <= 8;
    hide PackedUpTo, PackWidth, Bit, Mask, OrBit;
    var bo := di * w;
    for b := 0 to w
      invariant PackedUpTo(buf[at..at + stride], codes, w, bo + b)
      invariant forall j :: 0 <= j < buf.Length && !(at <= j < at + stride) ==> buf[j] == old(buf[j])
    {
      ghost var bytes := buf[at..at + stride];
      StoreBit(bytes, codes, w, di, b);
      if Bit(codes[di], b) {
        SetBit(buf, at, stride, bo + b);
      }
    }
  }

  method SetBit(buf: array<bv8>, at: nat, stride: nat, p: nat)
    requires at + stride <= buf.Length && p < 8 * stride
    modifies buf
    ensures buf[at..at + stride] == OrBit(old(buf[at..at + stride]), p)
    ensures forall j :: 0 <= j < buf.Length && !(at <= j < at + stride) ==> buf[j] == old(buf[j])
  {
    hide Mask;
    buf[at + p / 8] := buf[at + p / 8] | Mask(p % 8);
  }

  /** One member's codes ORed into its stretch of a zeroed leaf buffer. */
  method PackMember(buf: array<bv8>, at: nat, codes: seq<bv8>, w: nat)
    requires PackWidth(w) && at + Stride(|codes|, w) <= buf.Length
    requires forall j :: at <= j < at + Stride(|codes|, w) ==> buf[j] == 0
    modifies buf
    ensures Packed(buf[at..at + Stride(|codes|, w)], codes, w)
    ensures forall j :: 0 <= j < buf.Length && !(at <= j < at + Stride(|codes|, w)) ==> buf[j] == old(buf[j])
  {
    hide PackedUpTo, Stride, PackWidth;
    var stride := Stride(|codes|, w);
    EnoughBytes(|codes|, w, 0);
    ClearBytes(buf[at..at + stride], codes, w);
    for di := 0 to |codes|
      invariant di * w <= |codes| * w
      invariant PackedUpTo(buf[at..at + stride], codes, w, di * w)
      invariant forall j :: 0 <= j < buf.Length && !(at <= j < at + stride) ==> buf[j] == old(buf[j])
    {
      EnoughBytes(|codes|, w, di);
      PackCode(buf, at, stride, di, w, codes);
    }
  }

  lemma ClearBytes(bytes: seq<bv8>, codes: seq<bv8>, w: nat)
    requires PackWidth(w) && |codes| * w <= 8 * |bytes| && forall j :: 0 <= j < |bytes| ==> bytes[j] == 0
    ensures PackedUpTo(bytes, codes, w, 0)
  {
  }

  /** Start of row `i` when rows are `n` long. */
  function RowStart(i: nat, n: nat): nat {
    i * n
  }

  lemma RowZero(n: nat)
    ensures RowStart(0, n) == 0
  {
  }

  lemma RowsInOrder(i: nat, k: nat, n: nat)
    requires i < k
    ensures RowStart(i, n) + n == RowStart(i + 1, n) <= RowStart(k, n)
  {
    NextRow(k, n, i);
  }

  ghost predicate MemberPacked(buf: seq<bv8>, stride: nat, i: nat, codes: seq<bv8>, w: nat) {
    && PackWidth(w) && RowStart(i, stride) + stride <= |buf|
    && Packed(buf[RowStart(i, stride)..RowStart(i, stride) + stride], codes, w)
  }

  /** All members of a leaf, one stride after another, into a buffer assigned zero. */
  method PackLeaf(members: seq<seq<bv8>>, nDims: nat, w: nat) returns (buf: array<bv8>)
    requires PackWidth(w) && forall i :: 0 <= i < |members| ==> |members[i]| == nDims
    ensures fresh(buf) && buf.Length == RowStart(|members|, Stride(nDims, w))
    ensures forall i :: 0 <= i < |members| ==> MemberPacked(buf[..], Stride(nDims, w), i, members[i], w)
  {
    hide Packed, PackWidth, Stride, RowStart;
    var stride := Stride(nDims, w);
    RowZero(stride);
    buf := new bv8[RowStart(|members|, stride)](_ => 0);
    for i := 0 to |members|
      invariant RowStart(i, stride) <= buf.Length
      invariant forall k :: 0 <= k < i ==> MemberPacked(buf[..], stride, k, members[k], w)
      invariant forall j :: RowStart(i, stride) <= j < buf.Length ==> buf[j] == 0
    {
      RowsInOrder(i, |members|, stride);
      ghost var before := buf[..];
      var at := RowStart(i, stride);
      PackMember(buf, at, members[i], w);
      assert buf[..][at..at + stride] == buf[at..at + stride];
      MembersStayPacked(before, buf[..], stride, i, members, w);
    }
  }

  lemma MembersStayPacked(before: seq<bv8>, after: seq<bv8>, stride: nat, n: nat, members: seq<seq<bv8>>, w: nat)
    requires n <= |members| && |before| == |after| && RowStart(n, stride) <= |after|
    requires forall j :: 0 <= j < RowStart(n, stride) ==> after[j] == before[j]
    requires forall k :: 0 <= k < n ==> MemberPacked(before, stride, k, members[k], w)
    ensures forall k :: 0 <= k < n ==> MemberPacked(after, stride, k, members[k], w)
  {
    hide Packed, RowStart;
    forall k | 0 <= k < n ensures MemberPacked(after, stride, k, members[k], w) {
      RowsInOrder(k, n, stride);
      assert MemberPacked(before, stride, k, members[k], w);
      var at := RowStart(k, stride);
      assert after[at..at + stride] == before[at..at + stride];
    }
  }

  // ----- reading codes back -----

  /** The `w` bits of a byte from bit `off`: the byte itself, a nibble, a crumb or one bit. */
  function Field(x: bv8, off: nat, w: nat): bv8
    requires off < 8
  {
    if w == 8 then x
    else if w == 4 then
      if off == 0 then x & 0xF else (x >> 4) & 0xF
    else if w == 2 then
      if off == 0 then x & 3 else if off == 2 then (x >> 2) & 3 else if off == 4 then (x >> 4) & 3 else (x >> 6) & 3
    else
      if Bit(x, off) then 1 else 0
  }

  /** A code that fits its width. */
  ghost predicate Fits(c: bv8, w: nat) {
    c as nat < Levels(w)
  }

  lemma LevelValues()
    ensures Levels(1) == 2 && Levels(2) == 4 && Levels(4) == 16 && Levels(8) == 256
  {
    assert Levels(0) == 1;
    assert Levels(3) == 8;
    assert Levels(5) == 32;
    assert Levels(7) == 128;
  }

  /** Bit offsets at which codes of a width start. */
  ghost predicate FieldStart(off: nat, w: nat) {
    || (w == 1 && off < 8)
    || (w == 2 && (off == 0 || off == 2 || off == 4 || off == 6))
    || (w == 4 && (off == 0 || off == 4))
    || (w == 8 && off == 0)
  }

  /** A field is determined by its bits. */
  lemma FieldFromBits(x: bv8, off: nat, w: nat, c: bv8)
    requires FieldStart(off, w) && Fits(c, w)
    requires forall b: nat :: b < w ==> off + b < 8 && Bit(x, off + b) == Bit(c, b)
    ensures Field(x, off, w) == c
  {
    hide Bit, Field;
    LevelValues();
    if w == 1 {
      BitFromBits(x, off, c);
    } else if w == 2 {
      CrumbFromBits(x, off, c);
    } else if w == 4 {
      NibbleFromBits(x, off, c);
    } else {
      ByteFromBits(x, c);
    }
  }

  lemma BitFromBits(x: bv8, off: nat, c: bv8)
    requires off < 8 && c < 2 && Bit(x, off + 0) == Bit(c, 0)
    ensures Field(x, off, 1) == c
  {
  }

  lemma CrumbFromBits(x: bv8, off: nat, c: bv8)
    requires (off == 0 || off == 2 || off == 4 || off == 6) && c < 4
    requires forall b: nat :: b < 2 ==> Bit(x, off + b) == Bit(c, b)
    ensures Field(x, off, 2) == c
  {
    assert Bit(x, off + 0) == Bit(c, 0) && Bit(x, off + 1) == Bit(c, 1);
  }

  lemma NibbleFromBits(x: bv8, off: nat, c: bv8)
    requires (off == 0 || off == 4) && c < 16
    requires forall b: nat :: b < 4 ==> Bit(x, off + b) == Bit(c, b)
    ensures Field(x, off, 4) == c
  {
    assert Bit(x, off + 0) == Bit(c, 0) && Bit(x, off + 1) == Bit(c, 1);
    assert Bit(x, off + 2) == Bit(c, 2) && Bit(x, off + 3) == Bit(c, 3);
  }

  lemma ByteFromBits(x: bv8, c: bv8)
    requires forall b: nat :: b < 8 ==> Bit(x, 0 + b) == Bit(c, b)
    ensures Field(x, 0, 8) == c
  {
    assert Bit(x, 0 + 0) == Bit(c, 0) && Bit(x, 0 + 1) == Bit(c, 1);
    assert Bit(x, 0 + 2) == Bit(c, 2) && Bit(x, 0 + 3) == Bit(c, 3);
    assert Bit(x, 0 + 4) == Bit(c, 4) && Bit(x, 0 + 5) == Bit(c, 5);
    assert Bit(x, 0 + 6) == Bit(c, 6) && Bit(x, 0 + 7) == Bit(c, 7);
  }

  /** The bits of code `di` as the packed bytes hold them. */
  lemma CodeBit(bytes: seq<bv8>, codes: seq<bv8>, w: nat, di: nat, b: nat)
    requires PackWidth(w) && Packed(bytes, codes, w) && di < |codes| && b < w
    ensures di * w + b < 8 * |bytes|
    ensures BitAt(bytes, di * w + b) == Bit(codes[di], b)
  {
    hide Bit, StreamBit, BitAt;
    NextRow(|codes|, w, di);
    StreamBitOf(codes, w, di, b);
  }

  /** Where the bits of a code lie: in one byte, since the widths divide eight. */
  lemma InOneByte(di: nat, w: nat, b: nat, n: nat)
    requires PackWidth(w) && b < w && n == di * w
    ensures FieldStart(n % 8, w) && n % 8 + w <= 8
    ensures (n + b) / 8 == n / 8 && (n + b) % 8 == n % 8 + b
  {
    if w == 1 {
      ByteSplit(n, di / 8, di % 8, b);
    } else if w == 2 {
      ByteSplit(n, di / 4, 2 * (di % 4), b);
    } else if w == 4 {
      ByteSplit(n, di / 2, 4 * (di % 2), b);
    } else {
      ByteSplit(n, di, 0, b);
    }
  }

  lemma ByteSplit(n: nat, byte: nat, off: nat, b: nat)
    requires n == 8 * byte + off && off + b < 8
    ensures n / 8 == byte && n % 8 == off && (n + b) / 8 == byte && (n + b) % 8 == off + b
  {
  }

  /** Round trip: reading the field at a code's bit offset gives the code back. */
  lemma ReadBack(bytes: seq<bv8>, codes: seq<bv8>, w: nat, di: nat)
    requires PackWidth(w) && Packed(bytes, codes, w) && di < |codes| && Fits(codes[di], w)
    ensures di * w / 8 < |bytes| && Field(bytes[di * w / 8], di * w % 8, w) == codes[di]
  {
    hide Bit, Packed, Field, Fits;
    var n := di * w;
    InOneByte(di, w, 0, n);
    CodeBit(bytes, codes, w, di, 0);
    forall b: nat | b < w ensures n % 8 + b < 8 && Bit(bytes[n / 8], n % 8 + b) == Bit(codes[di], b) {
      InOneByte(di, w, b, n);
      CodeBit(bytes, codes, w, di, b);
    }
    FieldFromBits(bytes[n / 8], n % 8, w, codes[di]);
  }

  // ----- scoring -----

  /** Contribution of code `c` of dimension `e` to the inner product with the query. */
  function Term(qp: seq<real>, q: seq<DimQuant>, e: nat, c: bv8): real
    requires e < |qp| == |q|
  {
    Entry(qp, q, e, c as nat)
  }

  ghost predicate DimsOk(qp: seq<real>, q: seq<DimQuant>, dims: seq<nat>, w: nat) {
    && |qp| == |q|
    && forall di :: 0 <= di < |dims| ==> dims[di] < |q| && q[dims[di]].bits == w
  }

  /** The direct sum over the first `n` dimensions of a group. */
  function DirectSum(qp: seq<real>, q: seq<DimQuant>, dims: seq<nat>, codes: seq<bv8>, n: nat): real
    requires n <= |dims| == |codes| && |qp| == |q| && forall di :: 0 <= di < |dims| ==> dims[di] < |q|
  {
    if n == 0 then 0.0 else DirectSum(qp, q, dims, codes, n - 1) + Term(qp, q, dims[n - 1], codes[n - 1])
  }

  lemma DirectStep(qp: seq<real>, q: seq<DimQuant>, dims: seq<nat>, codes: seq<bv8>, n: nat)
    requires n < |dims| == |codes| && |qp| == |q| && forall di :: 0 <= di < |dims| ==> dims[di] < |q|
    ensures DirectSum(qp, q, dims, codes, n + 1) == DirectSum(qp, q, dims, codes, n) + Term(qp, q, dims[n], codes[n])
  {
  }

  lemma NoTerms(qp: seq<real>, q: seq<DimQuant>, dims: seq<nat>, codes: seq<bv8>)
    requires |dims| == |codes| && |qp| == |q| && forall di :: 0 <= di < |dims| ==> dims[di] < |q|
    ensures DirectSum(qp, q, dims, codes, 0) == 0.0
  {
  }

  /** What the per-query table should hold for code `c` of dimension `e`. */
  function Entry(qp: seq<real>, q: seq<DimQuant>, e: nat, c: nat): real
    requires e < |qp| == |q|
  {
    qp[e] * Decode(q[e], c)
  }

  ghost predicate LutShape(q: seq<DimQuant>, lut: array2<real>) {
    lut.Length0 == |q| && lut.Length1 == 256
  }

  ghost predicate LutFilled(qp: seq<real>, q: seq<DimQuant>, dims: seq<nat>, w: nat, lut: array2<real>)
    requires DimsOk(qp, q, dims, w) && LutShape(q, lut)
    reads lut
  {
    forall di, c :: 0 <= di < |dims| && 0 <= c < Levels(w) && c < 256 ==>
      lut[dims[di], c] == Entry(qp, q, dims[di], c)
  }

  /** Filling a dimension's row; entries that were right stay right. */
  method FillRow(qp: seq<real>, q: seq<DimQuant>, e: nat, levels: nat, lut: array2<real>)
    requires e < |qp| == |q| && LutShape(q, lut) && levels <= 256
    modifies lut
    ensures forall c :: 0 <= c < levels ==> lut[e, c] == Entry(qp, q, e, c)
    ensures forall f, c :: 0 <= f < |q| && 0 <= c < 256 && old(lut[f, c]) == Entry(qp, q, f, c) ==>
              lut[f, c] == Entry(qp, q, f, c)
  {
    hide Entry;
    for c := 0 to levels
      invariant forall k :: 0 <= k < c ==> lut[e, k] == Entry(qp, q, e, k)
      invariant forall f, k :: 0 <= f < |q| && 0 <= k < 256 && old(lut[f, k]) == Entry(qp, q, f, k) ==>
                  lut[f, k] == Entry(qp, q, f, k)
    {
      lut[e, c] := Entry(qp, q, e, c);
    }
  }

  method FillLut(qp: seq<real>, q: seq<DimQuant>, dims: seq<nat>, w: nat, lut: array2<real>)
    requires PackWidth(w) && DimsOk(qp, q, dims, w) && LutShape(q, lut)
    modifies lut
    ensures LutFilled(qp, q, dims, w, lut)
    ensures forall f, c :: 0 <= f < |q| && 0 <= c < 256 && old(lut[f, c]) == Entry(qp, q, f, c) ==>
              lut[f, c] == Entry(qp, q, f, c)
  {
    LevelValues();
    assert Levels(w) <= 256;
    hide Entry, PackWidth, Levels;
    for di := 0 to |dims|
      invariant LutFilled(qp, q, dims[..di], w, lut)
      invariant forall f, c :: 0 <= f < |q| && 0 <= c < 256 && old(lut[f, c]) == Entry(qp, q, f, c) ==>
                  lut[f, c] == Entry(qp, q, f, c)
    {
      FillRow(qp, q, dims[di], Levels(w), lut);
    }
    assert dims[..|dims|] == dims;
  }

  /** One member's group: its bytes, the codes packed into them, and the filled table. */
  ghost predicate GroupOk(qp: seq<real>, q: seq<DimQuant>, dims: seq<nat>, w: nat, bytes: seq<bv8>, codes: seq<bv8>,
                          lut: array2<real>)
    reads lut
  {
    && PackWidth(w) && DimsOk(qp, q, dims, w) && LutShape(q, lut) && LutFilled(qp, q, dims, w, lut)
    && |codes| == |dims| && Packed(bytes, codes, w) && forall di :: 0 <= di < |codes| ==> Fits(codes[di], w)
  }

  /** The table lookup at a code's field is the code's term. */
  lemma LookupIsTerm(qp: seq<real>, q: seq<DimQuant>, dims: seq<nat>, w: nat, bytes: seq<bv8>, codes: seq<bv8>,
                     lut: array2<real>, di: nat, byte: nat, off: nat)
    requires GroupOk(qp, q, dims, w, bytes, codes, lut) && di < |dims|
    requires di * w == 8 * byte + off && off < 8
    ensures byte < |bytes| && 0 <= Field(bytes[byte], off, w) as nat < 256
    ensures lut[dims[di], Field(bytes[byte], off, w) as nat] == Term(qp, q, dims[di], codes[di])
  {
    hide Packed, Field, Entry, Levels;
    ByteSplit(di * w, byte, off, 0);
    ReadBack(bytes, codes, w, di);
  }

  method ScoreBytes(qp: seq<real>, q: seq<DimQuant>, dims: seq<nat>, bytes: seq<bv8>, ghost codes: seq<bv8>,
                    lut: array2<real>) returns (s: real)
    requires GroupOk(qp, q, dims, 8, bytes, codes, lut)
    ensures s == DirectSum(qp, q, dims, codes, |dims|)
  {
    hide GroupOk, Term;
    GroupShape(qp, q, dims, 8, bytes, codes, lut);
    s := 0.0;
    for di := 0 to |dims|
      invariant s == DirectSum(qp, q, dims, codes, di)
    {
      LookupIsTerm(qp, q, dims, 8, bytes, codes, lut, di, di, 0);
      s := s + lut[dims[di], bytes[di] as nat];
    }
  }

  lemma GroupShape(qp: seq<real>, q: seq<DimQuant>, dims: seq<nat>, w: nat, bytes: seq<bv8>, codes: seq<bv8>,
                   lut: array2<real>)
    requires GroupOk(qp, q, dims, w, bytes, codes, lut)
    ensures |dims| == |codes| && |qp| == |q| == lut.Length0 && lut.Length1 == 256
    ensures forall di :: 0 <= di < |dims| ==> dims[di] < |q|
    ensures |bytes| == Stride(|dims|, w)
  {
  }

  /** Two dimensions a byte, the even one in the low nibble. */
  method ScoreNibbles(qp: seq<real>, q: seq<DimQuant>, dims: seq<nat>, bytes: seq<bv8>, ghost codes: seq<bv8>,
                      lut: array2<real>) returns (s: real)
    requires GroupOk(qp, q, dims, 4, bytes, codes, lut) && |dims| % 2 == 0
    ensures s == DirectSum(qp, q, dims, codes, |dims|)
  {
    hide GroupOk, Term;
    GroupShape(qp, q, dims, 4, bytes, codes, lut);
    s := 0.0;
    for bp := 0 to |bytes|
      invariant s == DirectSum(qp, q, dims, codes, 2 * bp)
    {
      LookupIsTerm(qp, q, dims, 4, bytes, codes, lut, 2 * bp, bp, 0);
      LookupIsTerm(qp, q, dims, 4, bytes, codes, lut, 2 * bp + 1, bp, 4);
      var byte := bytes[bp];
      s := s + lut[dims[2 * bp], (byte & 0xF) as nat];
      assert s == DirectSum(qp, q, dims, codes, 2 * bp + 1);
      s := s + lut[dims[2 * bp + 1], ((byte >> 4) & 0xF) as nat];
    }
  }

  /** Four dimensions a byte, the first in the low bits. */
  method ScoreCrumbs(qp: seq<real>, q: seq<DimQuant>, dims: seq<nat>, bytes: seq<bv8>, ghost codes: seq<bv8>,
                     lut: array2<real>) returns (s: real)
    requires GroupOk(qp, q, dims, 2, bytes, codes, lut) && |dims| % 4 == 0
    ensures s == DirectSum(qp, q, dims, codes, |dims|)
  {
    hide GroupOk, Term, DirectSum, Field;
    GroupShape(qp, q, dims, 2, bytes, codes, lut);
    NoTerms(qp, q, dims, codes);
    s := 0.0;
    for bp := 0 to |bytes|
      invariant s == DirectSum(qp, q, dims, codes, 4 * bp)
    {
      for t := 0 to 4
        invariant s == DirectSum(qp, q, dims, codes, 4 * bp + t)
      {
        LookupIsTerm(qp, q, dims, 2, bytes, codes, lut, 4 * bp + t, bp, 2 * t);
        DirectStep(qp, q, dims, codes, 4 * bp + t);
        s := s + lut[dims[4 * bp + t], Field(bytes[bp], 2 * t, 2) as nat];
      }
    }
  }

  // ----- one-bit groups: a 256-entry table per byte -----

  /** Contribution of byte value `v` at byte position `bp`, over its first `t` bits. */
  function ByteSum(qp: seq<real>, q: seq<DimQuant>, dims: seq<nat>, bp: nat, v: bv8, t: nat): real
    requires t <= 8 && |qp| == |q| && forall di :: 0 <= di < |dims| ==> dims[di] < |q|
  {
    if t == 0 then 0.0
    else
      ByteSum(qp, q, dims, bp, v, t - 1) +
      if 8 * bp + t - 1 < |dims| then Term(qp, q, dims[8 * bp + t - 1], Field(v, t - 1, 1)) else 0.0
  }

  method BuildByteTable(qp: seq<real>, q: seq<DimQuant>, dims: seq<nat>, nb: nat, lut: array2<real>)
    returns (blut: array2<real>)
    requires DimsOk(qp, q, dims, 1) && LutShape(q, lut) && LutFilled(qp, q, dims, 1, lut)
    ensures fresh(blut) && blut.Length0 == nb && blut.Length1 == 256
    ensures forall bp: nat, v: bv8 :: bp < nb ==> blut[bp, v as nat] == ByteSum(qp, q, dims, bp, v, 8)
  {
    hide ToByte, ByteSum;
    blut := new real[nb, 256]((_, _) => 0.0);
    for bp := 0 to nb
      invariant forall p: nat, v: bv8 :: p < bp ==> blut[p, v as nat] == ByteSum(qp, q, dims, p, v, 8)
    {
      for bv := 0 to 256
        invariant forall p: nat, v: bv8 :: p < bp ==> blut[p, v as nat] == ByteSum(qp, q, dims, p, v, 8)
        invariant forall v: bv8 :: v as nat < bv ==> blut[bp, v as nat] == ByteSum(qp, q, dims, bp, v, 8)
      {
        var s := OneByte(qp, q, dims, bp, ToByte(bv), lut);
        blut[bp, bv] := s;
        forall v: bv8 | v as nat == bv ensures blut[bp, v as nat] == ByteSum(qp, q, dims, bp, v, 8) {
          SameByte(v, ToByte(bv));
        }
      }
    }
  }

  /** The loop over the bits of one byte value; dimensions past the end stop it. */
  method OneByte(qp: seq<real>, q: seq<DimQuant>, dims: seq<nat>, bp: nat, bv: bv8, lut: array2<real>) returns (s: real)
    requires DimsOk(qp, q, dims, 1) && LutShape(q, lut) && LutFilled(qp, q, dims, 1, lut)
    ensures s == ByteSum(qp, q, dims, bp, bv, 8)
  {
    LevelValues();
    hide Entry;
    s := 0.0;
    var t: nat := 0;
    while t < 8
      invariant t <= 8 && s == ByteSum(qp, q, dims, bp, bv, t)
    {
      var di := 8 * bp + t;
      if di >= |dims| {
        PastTheEnd(qp, q, dims, bp, bv, t);
        return;
      }
      var c := Field(bv, t, 1);
      s := s + lut[dims[di], c as nat];
      t := t + 1;
    }
  }

  lemma {:induction false} PastTheEnd(qp: seq<real>, q: seq<DimQuant>, dims: seq<nat>, bp: nat, v: bv8, t: nat)
    requires t <= 8 && |qp| == |q| && forall di :: 0 <= di < |dims| ==> dims[di] < |q|
    requires 8 * bp + t >= |dims|
    ensures ByteSum(qp, q, dims, bp, v, 8) == ByteSum(qp, q, dims, bp, v, t)
    decreases 8 - t
  {
    if t < 8 {
      PastTheEnd(qp, q, dims, bp, v, t + 1);
    }
  }

  /** The table entry of the stored byte adds up the terms of its codes. */
  lemma {:induction false} ByteSumIsDirect(qp: seq<real>, q: seq<DimQuant>, dims: seq<nat>, bytes: seq<bv8>,
                                           codes: seq<bv8>, lut: array2<real>, bp: nat, t: nat)
    requires GroupOk(qp, q, dims, 1, bytes, codes, lut) && bp < |bytes| && t <= 8
    ensures |dims| == |codes| && |qp| == |q| && forall di :: 0 <= di < |dims| ==> dims[di] < |q|
    ensures 8 * bp <= |dims| + 7
    ensures DirectSum(qp, q, dims, codes, Min(8 * bp, |dims|)) + ByteSum(qp, q, dims, bp, bytes[bp], t) ==
            DirectSum(qp, q, dims, codes, Min(8 * bp + t, |dims|))
  {
    GroupShape(qp, q, dims, 1, bytes, codes, lut);
    if t > 0 {
      ByteSumIsDirect(qp, q, dims, bytes, codes, lut, bp, t - 1);
      var di := 8 * bp + t - 1;
      if di < |dims| {
        hide GroupOk, Field, Term;
        ByteSplit(di * 1, bp, t - 1, 0);
        FieldIsCode(qp, q, dims, bytes, codes, lut, di, bp, t - 1);
      }
    }
  }

  lemma FieldIsCode(qp: seq<real>, q: seq<DimQuant>, dims: seq<nat>, bytes: seq<bv8>, codes: seq<bv8>,
                    lut: array2<real>, di: nat, byte: nat, off: nat)
    requires GroupOk(qp, q, dims, 1, bytes, codes, lut) && di < |dims| && di == 8 * byte + off && off < 8
    ensures byte < |bytes| && Field(bytes[byte], off, 1) == codes[di]
  {
    hide Packed, Field;
    ByteSplit(di * 1, byte, off, 0);
    ReadBack(bytes, codes, 1, di);
  }

  method ScoreBits(qp: seq<real>, q: seq<DimQuant>, dims: seq<nat>, bytes: seq<bv8>, ghost codes: seq<bv8>,
                   ghost lut: array2<real>, blut: array2<real>) returns (s: real)
    requires GroupOk(qp, q, dims, 1, bytes, codes, lut)
    requires blut.Length0 == |bytes| && blut.Length1 == 256
    requires forall bp: nat, v: bv8 :: bp < |bytes| ==> blut[bp, v as nat] == ByteSum(qp, q, dims, bp, v, 8)
    ensures s == DirectSum(qp, q, dims, codes, |dims|)
  {
    hide GroupOk, Term;
    GroupShape(qp, q, dims, 1, bytes, codes, lut);
    s := 0.0;
    for bp := 0 to |bytes|
      invariant s == DirectSum(qp, q, dims, codes, Min(8 * bp, |dims|))
    {
      ByteSumIsDirect(qp, q, dims, bytes, codes, lut, bp, 8);
      s := s + blut[bp, bytes[bp] as nat];
    }
  }

  // ----- the whole plane of one member -----

  /** The dimensions below `n` quantized at width `w`, ascending. */
  function GroupDims(q: seq<DimQuant>, w: nat, n: nat): (dims: seq<nat>)
    requires n <= |q|
    ensures forall di :: 0 <= di < |dims| ==> dims[di] < n && q[dims[di]].bits == w
  {
    if n == 0 then [] else GroupDims(q, w, n - 1) + if q[n - 1].bits == w then [n - 1] else []
  }

  /** How many of the first `runs` runs of eight dimensions have width `w`. */
  function RunsAt(q: seq<DimQuant>, w: nat, runs: nat): nat
    requires 8 * runs <= |q|
  {
    if runs == 0 then 0 else RunsAt(q, w, runs - 1) + if q[8 * (runs - 1)].bits == w then 1 else 0
  }

  /** Widths allotted to whole runs of eight dimensions fill whole bytes at every width. */
  lemma {:induction false} RunsOfEightFillBytes(q: seq<DimQuant>, w: nat, runs: nat)
    requires 8 * runs <= |q|
    requires forall e :: 0 <= e < 8 * runs ==> q[e].bits == q[8 * (e / 8)].bits
    ensures |GroupDims(q, w, 8 * runs)| == 8 * RunsAt(q, w, runs)
  {
    if runs > 0 {
      RunsOfEightFillBytes(q, w, runs - 1);
      OneRun(q, w, 8 * (runs - 1), 8);
    }
  }

  lemma {:induction false} OneRun(q: seq<DimQuant>, w: nat, n: nat, k: nat)
    requires n % 8 == 0 && k <= 8 && n + k <= |q|
    requires forall e :: 0 <= e < n + k ==> q[e].bits == q[8 * (e / 8)].bits
    ensures |GroupDims(q, w, n + k)| == |GroupDims(q, w, n)| + if n < |q| && q[n].bits == w then k else 0
  {
    if k > 0 {
      OneRun(q, w, n, k - 1);
      assert 8 * ((n + k - 1) / 8) == n;
    }
  }

  function CodesFor(dims: seq<nat>, codeOf: seq<bv8>): (codes: seq<bv8>)
    requires forall di :: 0 <= di < |dims| ==> dims[di] < |codeOf|
    ensures |codes| == |dims| && forall di :: 0 <= di < |codes| ==> codes[di] == codeOf[dims[di]]
  {
    seq(|dims|, di requires 0 <= di < |dims| => codeOf[dims[di]])
  }

  /** The sum over every dimension that is stored at all. */
  function TotalSum(qp: seq<real>, q: seq<DimQuant>, codeOf: seq<bv8>, n: nat): real
    requires n <= |q| == |qp| == |codeOf|
  {
    if n == 0 then 0.0
    else
      TotalSum(qp, q, codeOf, n - 1) +
      if q[n - 1].bits in {1, 2, 4, 8} then Term(qp, q, n - 1, codeOf[n - 1]) else 0.0
  }

  /** What is decoded for each dimension; 0 for one that is not stored. */
  function Decoded(q: seq<DimQuant>, codeOf: seq<bv8>): (r: seq<real>)
    requires |q| == |codeOf|
    ensures |r| == |q|
    ensures forall e :: 0 <= e < |q| ==>
              r[e] == if q[e].bits in {1, 2, 4, 8} then Decode(q[e], codeOf[e] as nat) else 0.0
  {
    seq(|q|, e requires 0 <= e < |q| => if q[e].bits in {1, 2, 4, 8} then Decode(q[e], codeOf[e] as nat) else 0.0)
  }

  /** The sum is the inner product of the query with what is decoded. */
  lemma {:induction false} TotalIsDot(qp: seq<real>, q: seq<DimQuant>, codeOf: seq<bv8>, n: nat)
    requires n <= |q| == |qp| == |codeOf|
    ensures TotalSum(qp, q, codeOf, n) == Vectors.Dot(qp, Decoded(q, codeOf), n)
  {
    hide Decode;
    if n > 0 {
      TotalIsDot(qp, q, codeOf, n - 1);
      NothingTimes(qp[n - 1]);
    }
  }

  lemma NothingTimes(x: real)
    ensures Vectors.Mul(x, 0.0) == 0.0
  {
  }

  function GroupSum(qp: seq<real>, q: seq<DimQuant>, codeOf: seq<bv8>, w: nat, n: nat): real
    requires n <= |q| == |qp| == |codeOf|
  {
    var dims := GroupDims(q, w, n);
    DirectSum(qp, q, dims, CodesFor(dims, codeOf), |dims|)
  }

  lemma {:induction false} DirectSumPrefix(qp: seq<real>, q: seq<DimQuant>, dims: seq<nat>, codes: seq<bv8>,
                                           more: seq<nat>, moreCodes: seq<bv8>, n: nat)
    requires n <= |dims| == |codes| && |qp| == |q| && dims <= more && codes <= moreCodes && |more| == |moreCodes|
    requires forall di :: 0 <= di < |more| ==> more[di] < |q|
    ensures forall di :: 0 <= di < |dims| ==> dims[di] < |q|
    ensures DirectSum(qp, q, dims, codes, n) == DirectSum(qp, q, more, moreCodes, n)
  {
    forall di | 0 <= di < |dims| ensures dims[di] < |q| {
      assert more[di] == dims[di];
    }
    if n > 0 {
      DirectSumPrefix(qp, q, dims, codes, more, moreCodes, n - 1);
      assert more[n - 1] == dims[n - 1] && moreCodes[n - 1] == codes[n - 1];
    }
  }

  lemma GroupSumStep(qp: seq<real>, q: seq<DimQuant>, codeOf: seq<bv8>, w: nat, n: nat)
    requires 0 < n <= |q| == |qp| == |codeOf|
    ensures GroupSum(qp, q, codeOf, w, n) ==
            GroupSum(qp, q, codeOf, w, n - 1) + if q[n - 1].bits == w then Term(qp, q, n - 1, codeOf[n - 1]) else 0.0
  {
    hide Term;
    var dims, more := GroupDims(q, w, n - 1), GroupDims(q, w, n);
    if q[n - 1].bits == w {
      DirectSumPrefix(qp, q, dims, CodesFor(dims, codeOf), more, CodesFor(more, codeOf), |dims|);
      assert |more| == |dims| + 1 && more[|dims|] == n - 1;
    } else {
      assert more == dims;
    }
  }

  /** The four groups together score every stored dimension once. */
  lemma {:induction false} GroupsCoverPlane(qp: seq<real>, q: seq<DimQuant>, codeOf: seq<bv8>, n: nat)
    requires n <= |q| == |qp| == |codeOf|
    ensures GroupSum(qp, q, codeOf, 1, n) + GroupSum(qp, q, codeOf, 2, n) + GroupSum(qp, q, codeOf, 4, n)
            + GroupSum(qp, q, codeOf, 8, n) == TotalSum(qp, q, codeOf, n)
  {
    hide GroupSum, Term;
    if n > 0 {
      GroupsCoverPlane(qp, q, codeOf, n - 1);
      GroupSumStep(qp, q, codeOf, 1, n);
      GroupSumStep(qp, q, codeOf, 2, n);
      GroupSumStep(qp, q, codeOf, 4, n);
      GroupSumStep(qp, q, codeOf, 8, n);
    } else {
      EmptyGroups(qp, q, codeOf, 1);
      EmptyGroups(qp, q, codeOf, 2);
      EmptyGroups(qp, q, codeOf, 4);
      EmptyGroups(qp, q, codeOf, 8);
    }
  }

  lemma EmptyGroups(qp: seq<real>, q: seq<DimQuant>, codeOf: seq<bv8>, w: nat)
    requires |q| == |qp| == |codeOf|
    ensures GroupSum(qp, q, codeOf, w, 0) == 0.0
  {
  }

  /** One member's stretch of one group's buffer. */
  datatype Group = Group(width: nat, dims: seq<nat>, bytes: seq<bv8>)

  /** The groups of a member, in width order, holding the codes `codeOf`; whole bytes at widths 2 and 4. */
  ghost predicate PlaneOk(q: seq<DimQuant>, groups: seq<Group>, codeOf: seq<bv8>) {
    && |codeOf| == |q|
    && (forall e :: 0 <= e < |q| && q[e].bits in {1, 2, 4, 8} ==> Fits(codeOf[e], q[e].bits))
    && |groups| == 4
    && forall g :: 0 <= g < 4 ==>
         var w := if g == 0 then 1 else if g == 1 then 2 else if g == 2 then 4 else 8;
         && groups[g].width == w && groups[g].dims == GroupDims(q, w, |q|)
         && Packed(groups[g].bytes, CodesFor(groups[g].dims, codeOf), w)
         && (w == 4 ==> |groups[g].dims| % 2 == 0) && (w == 2 ==> |groups[g].dims| % 4 == 0)
  }

  ghost predicate PlaneTrained(q: seq<DimQuant>) {
    && (forall e :: 0 <= e < |q| && q[e].bits in {1, 2, 4, 8} ==> Trained(q[e]))
    && |GroupDims(q, 2, |q|)| % 4 == 0 && |GroupDims(q, 4, |q|)| % 2 == 0
  }

  /** The codes of one vector, dimension by dimension. */
  method EncodeCodes(q: seq<DimQuant>, v: seq<real>) returns (codeOf: seq<bv8>)
    requires |v| == |q| && PlaneTrained(q)
    ensures |codeOf| == |q|
    ensures forall e :: 0 <= e < |q| && q[e].bits in {1, 2, 4, 8} ==>
              Fits(codeOf[e], q[e].bits) && EncodedAs(q[e], v[e], codeOf[e] as nat)
  {
    hide GroupDims, EncodedAs, Levels;
    codeOf := [];
    for e := 0 to |q|
      invariant |codeOf| == e
      invariant forall f :: 0 <= f < e && q[f].bits in {1, 2, 4, 8} ==>
                  Fits(codeOf[f], q[f].bits) && EncodedAs(q[f], v[f], codeOf[f] as nat)
    {
      if q[e].bits == 1 || q[e].bits == 2 || q[e].bits == 4 || q[e].bits == 8 {
        LevelValues();
        var c := Encode(q[e], v[e]);
        codeOf := codeOf + [ToByte(c)];
      } else {
        codeOf := codeOf + [0];
      }
    }
  }

  /** The packed groups of one vector. */
  method EncodeMember(q: seq<DimQuant>, v: seq<real>) returns (groups: seq<Group>, ghost codeOf: seq<bv8>)
    requires |v| == |q| && PlaneTrained(q)
    ensures PlaneOk(q, groups, codeOf)
    ensures forall e :: 0 <= e < |q| && q[e].bits in {1, 2, 4, 8} ==> EncodedAs(q[e], v[e], codeOf[e] as nat)
  {
    hide GroupDims, Fits, EncodedAs, Packed, Stride, Trained;
    var codes := EncodeCodes(q, v);
    codeOf := codes;
    groups := [];
    for g := 0 to 4
      invariant |groups| == g
      invariant forall k :: 0 <= k < g ==>
        var w := if k == 0 then 1 else if k == 1 then 2 else if k == 2 then 4 else 8;
        && groups[k].width == w && groups[k].dims == GroupDims(q, w, |q|)
        && Packed(groups[k].bytes, CodesFor(groups[k].dims, codeOf), w)
    {
      var w := if g == 0 then 1 else if g == 1 then 2 else if g == 2 then 4 else 8;
      var dims := GroupDims(q, w, |q|);
      var members := [CodesFor(dims, codes)];
      var buf := PackLeaf(members, |dims|, w);
      assert MemberPacked(buf[..], Stride(|dims|, w), 0, members[0], w);
      OneMember(buf[..], Stride(|dims|, w), CodesFor(dims, codes), w);
      groups := groups + [Group(w, dims, buf[..])];
    }
  }

  lemma OneMember(buf: seq<bv8>, stride: nat, codes: seq<bv8>, w: nat)
    requires |buf| == RowStart(1, stride) && MemberPacked(buf, stride, 0, codes, w)
    ensures Packed(buf, codes, w)
  {
    hide Packed;
    assert buf[0..stride] == buf;
  }

  /** The score of one group by its width's reader. */
  method ScoreGroup(qp: seq<real>, q: seq<DimQuant>, g: Group, ghost codes: seq<bv8>, lut: array2<real>)
    returns (s: real)
    requires GroupOk(qp, q, g.dims, g.width, g.bytes, codes, lut)
    requires (g.width == 4 ==> |g.dims| % 2 == 0) && (g.width == 2 ==> |g.dims| % 4 == 0)
    ensures |codes| == |g.dims| && |qp| == |q| && forall di :: 0 <= di < |g.dims| ==> g.dims[di] < |q|
    ensures s == DirectSum(qp, q, g.dims, codes, |g.dims|)
  {
    hide Packed, LutFilled, DirectSum;
    if g.width == 1 {
      var blut := BuildByteTable(qp, q, g.dims, |g.bytes|, lut);
      s := ScoreBits(qp, q, g.dims, g.bytes, codes, lut, blut);
    } else if g.width == 8 {
      s := ScoreBytes(qp, q, g.dims, g.bytes, codes, lut);
    } else if g.width == 4 {
      s := ScoreNibbles(qp, q, g.dims, g.bytes, codes, lut);
    } else {
      s := ScoreCrumbs(qp, q, g.dims, g.bytes, codes, lut);
    }
  }

  /** The table lookups over all groups give the direct inner product with the decoded codes. */
  method ScoreMember(qp: seq<real>, q: seq<DimQuant>, groups: seq<Group>, ghost codeOf: seq<bv8>) returns (s: real)
    requires |qp| == |q| && PlaneOk(q, groups, codeOf)
    ensures |codeOf| == |q| && s == Vectors.Dot(qp, Decoded(q, codeOf), |q|)
  {
    hide Packed, Fits, DirectSum, TotalSum, GroupDims, LutFilled;
    var lut := new real[|q|, 256]((_, _) => 0.0);
    s := 0.0;
    for g := 0 to 4
      invariant s == GroupsBefore(qp, q, codeOf, g)
    {
      var w := groups[g].width;
      FillLut(qp, q, groups[g].dims, w, lut);
      var part := ScoreGroup(qp, q, groups[g], CodesFor(groups[g].dims, codeOf), lut);
      s := s + part;
    }
    GroupsCoverPlane(qp, q, codeOf, |q|);
    TotalIsDot(qp, q, codeOf, |q|);
  }

  ghost function GroupsBefore(qp: seq<real>, q: seq<DimQuant>, codeOf: seq<bv8>, g: nat): real
    requires |q| == |qp| == |codeOf|
  {
    (if g > 0 then GroupSum(qp, q, codeOf, 1, |q|) else 0.0) + (if g > 1 then GroupSum(qp, q, codeOf, 2, |q|) else 0.0)
    + (if g > 2 then GroupSum(qp, q, codeOf, 4, |q|) else 0.0)
    + (if g > 3 then GroupSum(qp, q, codeOf, 8, |q|) else 0.0)
  }
}
