/** Progressive rerank (scripts/spike_panorama_rerank.cpp): partial scores level by level,
    candidates dropped once a bound on the rest shows they cannot reach the top. */
module Panorama {
  import opened Numbers
  import opened Ranking
  import opened Vectors

  // ----- exact scores -----

  function Difference(q: seq<real>, y: seq<real>): (r: seq<real>)
    requires |q| == |y|
    ensures |r| == |q| && forall j :: 0 <= j < |r| ==> r[j] == q[j] - y[j]
  {
    seq(|q|, j requires 0 <= j < |q| => q[j] - y[j])
  }

  /** The first `n` dimensions of the score: similarity for inner product, squared distance for L2. */
  function Partial(isIp: bool, q: seq<real>, y: seq<real>, n: nat): real
    requires |q| == |y| && n <= |q|
  {
    if isIp then Dot(q, y, n) else Dot(Difference(q, y), Difference(q, y), n)
  }

  /** The ranking distance, smaller is better. */
  function Distance(isIp: bool, q: seq<real>, y: seq<real>): real
    requires |q| == |y|
  {
    if isIp then -Partial(true, q, y, |q|) else Partial(false, q, y, |q|)
  }

  // ----- levels -----

  /** First dimension of level `l`; levels are `width` wide, the last one may be shorter. */
  function LevelStart(l: nat, width: nat, d: nat): (r: nat)
    ensures r <= d
  {
    Min(l * width, d)
  }

  function LevelCount(width: nat, d: nat): nat
    requires width > 0
  {
    (d + width - 1) / width
  }

  lemma LevelBounds(l: nat, width: nat, d: nat)
    requires width > 0 && l < LevelCount(width, d)
    ensures LevelStart(l, width, d) == l * width < d
    ensures LevelStart(l + 1, width, d) == Min(l * width + width, d)
  {
    hide LevelCount;
    var n := LevelCount(width, d);
    CountTimesWidth(width, d);
    ProductMono(l + 1, n, width);
    assert (l + 1) * width == l * width + width;
  }

  lemma CountTimesWidth(width: nat, d: nat)
    requires width > 0
    ensures d <= LevelCount(width, d) * width < d + width
  {
    var x := d + width - 1;
    assert x == x / width * width + x % width;
  }

  lemma ProductMono(a: nat, b: nat, w: nat)
    requires a <= b
    ensures a * w <= b * w
  {
    assert (b - a) * w >= 0;
    assert b * w == a * w + (b - a) * w;
  }

  lemma LastLevelEnds(width: nat, d: nat)
    requires width > 0
    ensures LevelStart(LevelCount(width, d), width, d) == d && LevelStart(0, width, d) == 0
  {
    hide LevelCount;
    CountTimesWidth(width, d);
  }

  /** Squared norm of the dimensions from `k` on. */
  function TailSquares(y: seq<real>, k: nat): real
    requires k <= |y|
  {
    Dot(y[k..], y[k..], |y| - k)
  }

  /** Norms of the rest, one entry per level and a final zero. */
  ghost predicate SuffixNorms(y: seq<real>, width: nat, norms: seq<real>)
    requires width > 0
  {
    && |norms| == LevelCount(width, |y|) + 1
    && forall l :: 0 <= l < |norms| ==> norms[l] == TailSquares(y, LevelStart(l, width, |y|))
  }

  lemma TailSplits(y: seq<real>, k: nat, e: nat)
    requires k <= e <= |y|
    ensures TailSquares(y, k) == Dot(y[k..], y[k..], e - k) + TailSquares(y, e)
  {
    DotSplits(y[k..], y[k..], e - k, |y| - k);
    assert y[k..][e - k..] == y[e..];
  }

  /** The backward loop that accumulates squared norms level by level. */
  method SuffixNormTable(y: seq<real>, width: nat) returns (norms: array<real>)
    requires width > 0
    ensures fresh(norms) && SuffixNorms(y, width, norms[..])
  {
    hide Dot, LevelCount, LevelStart, Mul;
    var n := LevelCount(width, |y|);
    LastLevelEnds(width, |y|);
    norms := new real[n + 1](_ => 0.0);
    EmptyTail(y);
    var l := n;
    while l > 0
      invariant 0 <= l <= n
      invariant forall k: nat :: l <= k <= n ==> norms[k] == TailSquares(y, LevelStart(k, width, |y|))
    {
      l := l - 1;
      LevelBounds(l, width, |y|);
      var start, end := l * width, Min(l * width + width, |y|);
      var levelNorm := LevelSquares(y, start, end);
      TailSplits(y, start, end);
      norms[l] := norms[l + 1] + levelNorm;
    }
  }

  method LevelSquares(y: seq<real>, start: nat, end: nat) returns (s: real)
    requires start <= end <= |y|
    ensures s == Dot(y[start..], y[start..], end - start)
  {
    hide Dot, Mul;
    s := 0.0;
    NoDot(y[start..], y[start..]);
    for j := start to end
      invariant s == Dot(y[start..], y[start..], j - start)
    {
      s := s + Mul(y[j], y[j]);
      NextDot(y[start..], y[start..], j - start);
    }
  }

  lemma EmptyTail(y: seq<real>)
    ensures TailSquares(y, |y|) == 0.0
  {
  }

  lemma NextDot(u: seq<real>, v: seq<real>, n: nat)
    requires n < |u| && n < |v|
    ensures Dot(u, v, n + 1) == Dot(u, v, n) + Mul(u[n], v[n])
  {
  }

  lemma NoDot(u: seq<real>, v: seq<real>)
    ensures Dot(u, v, 0) == 0.0
  {
  }

  // ----- bounds -----

  /** Cauchy-Schwarz on the dimensions not yet scored. */
  lemma IpUpperBound(q: seq<real>, y: seq<real>, k: nat, sqrt: real -> real)
    requires |q| == |y| && k <= |q| && IsSqrt(sqrt)
    ensures Partial(true, q, y, |q|) <= Partial(true, q, y, k) + sqrt(Mul(TailSquares(q, k), TailSquares(y, k)))
  {
    hide Dot, Mul, IsSqrt;
    DotSplits(q, y, k, |q|);
    DotBelowRoot(q[k..], y[k..], |q| - k, sqrt);
  }

  /** What is left of an L2 distance cannot be negative. */
  lemma L2LowerBound(q: seq<real>, y: seq<real>, k: nat)
    requires |q| == |y| && k <= |q|
    ensures Partial(false, q, y, k) <= Partial(false, q, y, |q|)
  {
    hide Dot;
    var d := Difference(q, y);
    DotSplits(d, d, k, |d|);
    SquareNonNegative(d[k..], |d| - k);
  }

  /** The pruning test after a level that ends at dimension `k`. */
  function Prunes(isIp: bool, partial: real, qTail: real, yTail: real, thresh: real, sqrt: real -> real): bool {
    if isIp then partial + sqrt(Mul(qTail, yTail)) < -thresh else partial > thresh
  }

  /** Scored up to dimension `k`, the candidate can still reach the threshold. */
  ghost predicate CanReach(isIp: bool, q: seq<real>, y: seq<real>, k: nat, thresh: real, sqrt: real -> real)
    requires |q| == |y| && k <= |q|
  {
    if isIp then Dot(q, y, k) + sqrt(Mul(Dot(q[k..], q[k..], |q| - k), Dot(y[k..], y[k..], |q| - k))) >= -thresh
    else Dot(Difference(q, y), Difference(q, y), k) <= thresh
  }

  lemma PrunesIff(isIp: bool, q: seq<real>, y: seq<real>, k: nat, thresh: real, sqrt: real -> real)
    requires |q| == |y| && k <= |q|
    ensures Prunes(isIp, Partial(isIp, q, y, k), TailSquares(q, k), TailSquares(y, k), thresh, sqrt)
            <==> !CanReach(isIp, q, y, k, thresh, sqrt)
  {
    hide Dot, Mul;
  }

  /** A candidate as good as the threshold is never pruned, at any level. */
  lemma GoodCandidateStays(isIp: bool, q: seq<real>, y: seq<real>, k: nat, thresh: real, sqrt: real -> real)
    requires |q| == |y| && k <= |q| && IsSqrt(sqrt)
    requires Distance(isIp, q, y) <= thresh
    ensures !Prunes(isIp, Partial(isIp, q, y, k), TailSquares(q, k), TailSquares(y, k), thresh, sqrt)
  {
    hide Dot, Mul, IsSqrt, Difference;
    if isIp {
      IpUpperBound(q, y, k, sqrt);
    } else {
      L2LowerBound(q, y, k);
    }
  }

  // ----- the rerank of one query -----

  /** `std::pair` order: by distance, then by id. */
  predicate PairBefore(a: Scored, b: Scored) {
    a.dist < b.dist || (a.dist == b.dist && a.node < b.node)
  }

  /** Of two entries with different ids exactly one is before the other, the nearer one if their distances differ. */
  lemma PairOrderIsTotal(a: Scored, b: Scored)
    requires a.node != b.node
    ensures PairBefore(a, b) <==> !PairBefore(b, a)
    ensures a.dist < b.dist ==> PairBefore(a, b)
    ensures a.dist == b.dist && a.node < b.node ==> PairBefore(a, b)
  {
  }

  /** A shortlist as the brute-force pass leaves it: exact distances, sorted, ids distinct. */
  ghost predicate Shortlist(isIp: bool, q: seq<real>, ys: seq<seq<real>>, sl: seq<Scored>) {
    && |ys| == |sl|
    && (forall c :: 0 <= c < |ys| ==> |ys[c]| == |q| && sl[c].dist == Distance(isIp, q, ys[c]))
    && (forall a, b :: 0 <= a < b < |sl| ==> PairBefore(sl[a], sl[b]) && sl[a].node != sl[b].node)
  }

  /** Adds one level to every active candidate's partial score. */
  method AddLevel(isIp: bool, q: seq<real>, ys: seq<seq<real>>, active: array<bool>, partial: array<real>, start: nat,
      end: nat)
    requires start <= end <= |q| && active.Length == partial.Length == |ys|
    requires forall c :: 0 <= c < |ys| ==> |ys[c]| == |q|
    requires forall c :: 0 <= c < |ys| && active[c] ==> partial[c] == Partial(isIp, q, ys[c], start)
    modifies partial
    ensures forall c :: 0 <= c < |ys| && active[c] ==> partial[c] == Partial(isIp, q, ys[c], end)
  {
    hide Partial;
    for c := 0 to |ys|
      invariant forall k :: 0 <= k < c && active[k] ==> partial[k] == Partial(isIp, q, ys[k], end)
      invariant forall k :: c <= k < |ys| && active[k] ==> partial[k] == Partial(isIp, q, ys[k], start)
    {
      if active[c] {
        var s := ExtendScore(isIp, q, ys[c], start, end, partial[c]);
        partial[c] := s;
      }
    }
  }

  method ExtendScore(isIp: bool, q: seq<real>, y: seq<real>, start: nat, end: nat, before: real) returns (s: real)
    requires |q| == |y| && start <= end <= |q| && before == Partial(isIp, q, y, start)
    ensures s == Partial(isIp, q, y, end)
  {
    hide Dot, Mul;
    s := before;
    for j := start to end
      invariant s == Partial(isIp, q, y, j)
    {
      if isIp {
        s := s + Mul(q[j], y[j]);
        NextDot(q, y, j);
      } else {
        var diff := q[j] - y[j];
        s := s + Mul(diff, diff);
        NextDot(Difference(q, y), Difference(q, y), j);
      }
    }
  }

  /** Number of active candidates. */
  function Count(active: seq<bool>): nat {
    if active == [] then 0 else Count(active[..|active| - 1]) + if active[|active| - 1] then 1 else 0
  }

  lemma {:induction false} CountAfterDrop(active: seq<bool>, c: nat)
    requires c < |active| && active[c]
    ensures Count(active) > 0 && Count(active[c := false]) == Count(active) - 1
  {
    var n := |active| - 1;
    if c < n {
      CountAfterDrop(active[..n], c);
      assert active[c := false][..n] == active[..n][c := false];
    } else {
      assert active[c := false][..n] == active[..n];
    }
  }

  /** The pruning pass after a level that ends at dimension `k`. */
  method PruneLevel(isIp: bool, q: seq<real>, ghost ys: seq<seq<real>>, sl: seq<Scored>, active: array<bool>,
                    partial: array<real>, qTail: real, yTails: seq<real>, thresh: real, topK: nat, sqrt: real -> real,
                    ghost k: nat, numActive: nat, falsePrunes: nat)
    returns (numActive': nat, falsePrunes': nat)
    requires Shortlist(isIp, q, ys, sl) && IsSqrt(sqrt) && k <= |q|
    requires active.Length == partial.Length == |yTails| == |sl|
    requires 0 < topK <= |sl| && thresh == sl[topK - 1].dist
    requires qTail == TailSquares(q, k)
    requires forall c :: 0 <= c < |sl| ==> yTails[c] == TailSquares(ys[c], k)
    requires forall c :: 0 <= c < |sl| && active[c] ==> partial[c] == Partial(isIp, q, ys[c], k)
    requires forall c :: 0 <= c < |sl| && sl[c].dist <= thresh ==> active[c]
    requires numActive == Count(active[..])
    modifies active
    ensures forall c :: 0 <= c < |sl| ==> (active[c] <==> old(active[c]) && CanReach(isIp, q, ys[c], k, thresh, sqrt))
    ensures forall c :: 0 <= c < |sl| && sl[c].dist <= thresh ==> active[c]
    ensures numActive' == Count(active[..]) && falsePrunes' == falsePrunes
  {
    hide Partial, TailSquares, Prunes, IsSqrt, Distance, CanReach;
    numActive', falsePrunes' := numActive, falsePrunes;
    for c := 0 to |sl|
      invariant forall i :: c <= i < |sl| ==> active[i] == old(active[i])
      invariant forall i :: 0 <= i < c ==> (active[i] <==> old(active[i]) && CanReach(isIp, q, ys[i], k, thresh, sqrt))
      invariant forall i :: 0 <= i < |sl| && sl[i].dist <= thresh ==> active[i]
      invariant numActive' == Count(active[..]) && falsePrunes' == falsePrunes
    {
      if !active[c] {
        continue;
      }
      PrunesIff(isIp, q, ys[c], k, thresh, sqrt);
      if sl[c].dist <= thresh {
        GoodCandidateStays(isIp, q, ys[c], k, thresh, sqrt);
      }
      if Prunes(isIp, partial[c], qTail, yTails[c], thresh, sqrt) {
        CountAfterDrop(active[..], c);
        ghost var was := active[..];
        active[c] := false;
        assert active[..] == was[c := false];
        numActive' := numActive' - 1;
        var wrong := AmongFirst(sl, topK, sl[c].node);
        NotInTop(isIp, q, ys, sl, topK, c);
        falsePrunes' := falsePrunes' + (if wrong then 1 else 0);
      }
    }
  }

  method AmongFirst(sl: seq<Scored>, n: nat, id: nat) returns (found: bool)
    requires n <= |sl|
    ensures found <==> exists r :: 0 <= r < n && sl[r].node == id
  {
    for r := 0 to n
      invariant forall k :: 0 <= k < r ==> sl[k].node != id
    {
      if sl[r].node == id {
        return true;
      }
    }
    return false;
  }

  lemma NotInTop(isIp: bool, q: seq<real>, ys: seq<seq<real>>, sl: seq<Scored>, topK: nat, c: nat)
    requires Shortlist(isIp, q, ys, sl) && 0 < topK <= |sl| && c < |sl| && sl[c].dist > sl[topK - 1].dist
    ensures forall r :: 0 <= r < topK ==> sl[r].node != sl[c].node
  {
    hide Distance;
    forall r | 0 <= r < topK ensures sl[r].dist <= sl[topK - 1].dist {
      if r < topK - 1 {
        assert PairBefore(sl[r], sl[topK - 1]);
      }
    }
    assert topK <= c;
  }

  /** Candidates still active, in shortlist order. */
  function Survivors(sl: seq<Scored>, active: seq<bool>): (r: seq<Scored>)
    requires |sl| == |active|
  {
    if sl == [] then []
    else
      var n := |sl| - 1;
      Survivors(sl[..n], active[..n]) + if active[n] then [sl[n]] else []
  }

  /** Survivors stay in order and begin with every leading candidate that is still active. */
  lemma {:induction false} SurvivorsBegin(sl: seq<Scored>, active: seq<bool>, topK: nat)
    requires |sl| == |active| && topK <= |sl|
    requires forall c :: 0 <= c < topK ==> active[c]
    ensures topK <= |Survivors(sl, active)| && Survivors(sl, active)[..topK] == sl[..topK]
  {
    if |sl| > 0 {
      var n := |sl| - 1;
      if topK == |sl| {
        SurvivorsBegin(sl[..n], active[..n], n);
        assert Survivors(sl[..n], active[..n])[..n] == sl[..n];
        SurvivorsAtMost(sl[..n], active[..n]);
        assert sl == sl[..n] + [sl[n]];
      } else {
        SurvivorsBegin(sl[..n], active[..n], topK);
        assert sl[..n][..topK] == sl[..topK];
      }
    }
  }

  lemma {:induction false} SurvivorsAtMost(sl: seq<Scored>, active: seq<bool>)
    requires |sl| == |active|
    ensures |Survivors(sl, active)| <= |sl|
  {
    if sl != [] {
      SurvivorsAtMost(sl[..|sl| - 1], active[..|sl| - 1]);
    }
  }

  lemma {:induction false} SurvivorsSorted(sl: seq<Scored>, active: seq<bool>)
    requires |sl| == |active|
    requires forall a, b :: 0 <= a < b < |sl| ==> PairBefore(sl[a], sl[b])
    ensures forall a, b :: 0 <= a < b < |Survivors(sl, active)| ==>
              PairBefore(Survivors(sl, active)[a], Survivors(sl, active)[b])
    ensures forall x :: x in Survivors(sl, active) ==> x in sl
  {
    if sl != [] {
      var n := |sl| - 1;
      var front := Survivors(sl[..n], active[..n]);
      SurvivorsSorted(sl[..n], active[..n]);
      assert sl == sl[..n] + [sl[n]];
      forall a | 0 <= a < |front| ensures PairBefore(front[a], sl[n]) {
        assert front[a] in sl[..n];
        var i :| 0 <= i < n && sl[..n][i] == front[a];
      }
    }
  }

  /** Between levels: active candidates are scored up to dimension `k`, good ones are all active. */
  ghost predicate LevelInv(isIp: bool, q: seq<real>, ys: seq<seq<real>>, sl: seq<Scored>, thresh: real,
                           active: seq<bool>, partial: seq<real>, k: nat)
    requires |ys| == |sl| == |active| == |partial| && k <= |q| && forall c :: 0 <= c < |ys| ==> |ys[c]| == |q|
  {
    && (forall c :: 0 <= c < |sl| && active[c] ==> partial[c] == Partial(isIp, q, ys[c], k))
    && (forall c :: 0 <= c < |sl| && sl[c].dist <= thresh ==> active[c])
  }

  /** The tables of the squared norms beyond each level, of the query and of all candidates. */
  ghost predicate Tables(q: seq<real>, ys: seq<seq<real>>, width: nat, qn: seq<real>, yNorms: seq<seq<real>>)
    requires width > 0
  {
    && SuffixNorms(q, width, qn) && |yNorms| == |ys|
    && forall c :: 0 <= c < |ys| ==> SuffixNorms(ys[c], width, yNorms[c])
  }

  /** One level: add it, and prune unless it is the last. */
  method RunLevel(isIp: bool, q: seq<real>, ys: seq<seq<real>>, sl: seq<Scored>, topK: nat, width: nat, l: nat,
                  active: array<bool>, partial: array<real>, qn: seq<real>, yNorms: seq<seq<real>>, sqrt: real -> real,
                  count: nat, pruned: nat)
    returns (numActive: nat, falsePrunes: nat)
    requires Shortlist(isIp, q, ys, sl) && 0 < topK <= |sl| && width > 0 && IsSqrt(sqrt)
    requires active.Length == partial.Length == |sl| && l < LevelCount(width, |q|)
    requires Tables(q, ys, width, qn, yNorms) && count == Count(active[..])
    requires LevelInv(isIp, q, ys, sl, sl[topK - 1].dist, active[..], partial[..], LevelStart(l, width, |q|))
    modifies active, partial
    ensures LevelInv(isIp, q, ys, sl, sl[topK - 1].dist, active[..], partial[..], LevelStart(l + 1, width, |q|))
    ensures numActive == Count(active[..]) && falsePrunes == pruned
    ensures forall c :: 0 <= c < |sl| ==>
              (active[c] <==>
                && old(active[c])
                && (l + 1 < LevelCount(width, |q|) ==>
                     CanReach(isIp, q, ys[c], LevelStart(l + 1, width, |q|), sl[topK - 1].dist, sqrt)))
  {
    hide Partial, TailSquares, Distance, IsSqrt, LevelStart, LevelCount, Count, PairBefore, CanReach;
    LevelBounds(l, width, |q|);
    var start, end := l * width, Min(l * width + width, |q|);
    AddLevel(isIp, q, ys, active, partial, start, end);
    numActive, falsePrunes := count, pruned;
    if l < LevelCount(width, |q|) - 1 {
      var yTails := LevelColumn(yNorms, l + 1);
      numActive, falsePrunes := PruneLevel(isIp, q, ys, sl, active, partial, qn[l + 1], yTails, sl[topK - 1].dist,
                                           topK, sqrt, end, numActive, falsePrunes);
    }
  }

  /** At the ends of the first `l` levels, the last level of all left out, the candidate could still reach the
      threshold. */
  ghost predicate Lasts(isIp: bool, q: seq<real>, y: seq<real>, width: nat, l: nat, thresh: real, sqrt: real -> real)
    requires |q| == |y| && width > 0
  {
    forall j :: 1 <= j <= l && j < LevelCount(width, |q|) ==>
      CanReach(isIp, q, y, LevelStart(j, width, |q|), thresh, sqrt)
  }

  lemma LastsOneMore(isIp: bool, q: seq<real>, y: seq<real>, width: nat, l: nat, thresh: real, sqrt: real -> real)
    requires |q| == |y| && width > 0
    ensures Lasts(isIp, q, y, width, l + 1, thresh, sqrt)
            <==> && Lasts(isIp, q, y, width, l, thresh, sqrt)
                 && (l + 1 < LevelCount(width, |q|) ==>
                      CanReach(isIp, q, y, LevelStart(l + 1, width, |q|), thresh, sqrt))
  {
    hide CanReach, LevelStart, LevelCount;
  }

  ghost predicate AllLast(isIp: bool, q: seq<real>, ys: seq<seq<real>>, width: nat, l: nat, thresh: real,
                          sqrt: real -> real, active: seq<bool>)
    requires |ys| == |active| && width > 0 && forall c :: 0 <= c < |ys| ==> |ys[c]| == |q|
  {
    forall c :: 0 <= c < |active| ==> (active[c] <==> Lasts(isIp, q, ys[c], width, l, thresh, sqrt))
  }

  lemma NobodyPruned(isIp: bool, q: seq<real>, ys: seq<seq<real>>, width: nat, thresh: real, sqrt: real -> real,
                     active: seq<bool>)
    requires |ys| == |active| && width > 0 && forall c :: 0 <= c < |ys| ==> |ys[c]| == |q|
    requires forall c :: 0 <= c < |active| ==> active[c]
    ensures AllLast(isIp, q, ys, width, 0, thresh, sqrt, active)
  {
  }

  lemma OneMoreLevel(isIp: bool, q: seq<real>, ys: seq<seq<real>>, width: nat, l: nat, thresh: real,
                     sqrt: real -> real, before: seq<bool>, after: seq<bool>)
    requires |ys| == |before| == |after| && width > 0 && forall c :: 0 <= c < |ys| ==> |ys[c]| == |q|
    requires AllLast(isIp, q, ys, width, l, thresh, sqrt, before)
    requires forall c :: 0 <= c < |after| ==>
               (after[c] <==>
                 && before[c]
                 && (l + 1 < LevelCount(width, |q|) ==>
                      CanReach(isIp, q, ys[c], LevelStart(l + 1, width, |q|), thresh, sqrt)))
    ensures AllLast(isIp, q, ys, width, l + 1, thresh, sqrt, after)
  {
    hide CanReach, LevelStart, LevelCount, Lasts;
    forall c | 0 <= c < |after| ensures after[c] <==> Lasts(isIp, q, ys[c], width, l + 1, thresh, sqrt) {
      LastsOneMore(isIp, q, ys[c], width, l, thresh, sqrt);
    }
  }

  /** The loop over levels, with its early exit. */
  method RunLevels(isIp: bool, q: seq<real>, ys: seq<seq<real>>, sl: seq<Scored>, topK: nat, width: nat,
                   active: array<bool>, partial: array<real>, sqrt: real -> real) returns (falsePrunes: nat)
    requires Shortlist(isIp, q, ys, sl) && 0 < topK <= |sl| && width > 0 && IsSqrt(sqrt)
    requires active.Length == partial.Length == |sl|
    requires forall c :: 0 <= c < |sl| ==> active[c] && partial[c] == 0.0
    modifies active, partial
    ensures LevelInv(isIp, q, ys, sl, sl[topK - 1].dist, active[..], partial[..], |q|)
    ensures falsePrunes == 0
    ensures AllLast(isIp, q, ys, width, LevelCount(width, |q|), sl[topK - 1].dist, sqrt, active[..])
  {
    hide Partial, TailSquares, Distance, IsSqrt, LevelStart, LevelCount, Count, PairBefore, SuffixNorms, CanReach,
        Lasts, AllLast;
    var w, d := |sl|, |q|;
    var qNorms := SuffixNormTable(q, width);
    var qn := qNorms[..];
    var yNorms := YNorms(ys, d, width);
    var numActive := w;
    AllActive(active[..]);
    NobodyPruned(isIp, q, ys, width, sl[topK - 1].dist, sqrt, active[..]);
    falsePrunes := 0;
    var levels := LevelCount(width, d);
    LastLevelEnds(width, d);
    NothingScored(isIp, q, ys);
    var l := 0;
    while l < levels && numActive > 0
      invariant l <= levels
      invariant LevelInv(isIp, q, ys, sl, sl[topK - 1].dist, active[..], partial[..], LevelStart(l, width, d))
      invariant numActive == Count(active[..]) && falsePrunes == 0
      invariant AllLast(isIp, q, ys, width, l, sl[topK - 1].dist, sqrt, active[..])
    {
      ghost var before := active[..];
      numActive, falsePrunes := RunLevel(isIp, q, ys, sl, topK, width, l, active, partial, qn, yNorms, sqrt, numActive,
                                         falsePrunes);
      OneMoreLevel(isIp, q, ys, width, l, sl[topK - 1].dist, sqrt, before, active[..]);
      l := l + 1;
    }
    TopIsActive(isIp, q, ys, sl, topK, active[..], partial[..], LevelStart(l, width, d));
    SomeActive(active[..]);
  }

  function LevelColumn(norms: seq<seq<real>>, l: nat): (r: seq<real>)
    requires forall c :: 0 <= c < |norms| ==> l < |norms[c]|
    ensures |r| == |norms| && forall c :: 0 <= c < |r| ==> r[c] == norms[c][l]
  {
    seq(|norms|, c requires 0 <= c < |norms| => norms[c][l])
  }

  /** The progressive rerank of one query: every dimension of every survivor is scored, no candidate
      of the true top is dropped, and the survivors, already in pair order, begin with it. */
  method Rerank(isIp: bool, q: seq<real>, ys: seq<seq<real>>, sl: seq<Scored>, topK: nat, width: nat,
                sqrt: real -> real)
    returns (survivors: seq<Scored>, active: array<bool>, partial: array<real>, falsePrunes: nat)
    requires Shortlist(isIp, q, ys, sl) && 0 < topK <= |sl| && width > 0 && IsSqrt(sqrt)
    ensures fresh(active) && fresh(partial) && active.Length == partial.Length == |sl|
    ensures LevelInv(isIp, q, ys, sl, sl[topK - 1].dist, active[..], partial[..], |q|)
    ensures falsePrunes == 0
    ensures survivors == Survivors(sl, active[..])
    ensures topK <= |survivors| && survivors[..topK] == sl[..topK]
    ensures forall a, b :: 0 <= a < b < |survivors| ==> PairBefore(survivors[a], survivors[b])
    // a candidate survives exactly if it could reach the threshold at the end of every level but the last
    ensures forall c :: 0 <= c < |sl| ==>
              (active[c] <==>
                forall l :: 1 <= l < LevelCount(width, |q|) ==>
                  CanReach(isIp, q, ys[c], LevelStart(l, width, |q|), sl[topK - 1].dist, sqrt))
  {
    hide Partial, Distance, IsSqrt, Survivors, CanReach, LevelStart, LevelCount;
    var w := |sl|;
    active := new bool[w](_ => true);
    partial := new real[w](_ => 0.0);
    falsePrunes := RunLevels(isIp, q, ys, sl, topK, width, active, partial, sqrt);
    TopIsActive(isIp, q, ys, sl, topK, active[..], partial[..], |q|);
    SurvivorsBegin(sl, active[..], topK);
    SurvivorsSorted(sl, active[..]);
    survivors := Collect(sl, active);
  }

  lemma TopIsActive(isIp: bool, q: seq<real>, ys: seq<seq<real>>, sl: seq<Scored>, topK: nat, active: seq<bool>,
      partial: seq<real>,
                    k: nat)
    requires Shortlist(isIp, q, ys, sl) && 0 < topK <= |sl| == |active| == |partial| && k <= |q|
    requires LevelInv(isIp, q, ys, sl, sl[topK - 1].dist, active, partial, k)
    ensures forall c :: 0 <= c < topK ==> active[c]
  {
    hide Partial, Distance;
    forall c | 0 <= c < topK ensures active[c] {
      if c < topK - 1 {
        assert PairBefore(sl[c], sl[topK - 1]);
      }
    }
  }

  method Collect(sl: seq<Scored>, active: array<bool>) returns (survivors: seq<Scored>)
    requires active.Length == |sl|
    ensures survivors == Survivors(sl, active[..])
  {
    hide Survivors;
    survivors := [];
    NoSurvivors();
    for c := 0 to |sl|
      invariant survivors == Survivors(sl[..c], active[..][..c])
    {
      SurvivorsStep(sl, active[..], c);
      if active[c] {
        survivors := survivors + [sl[c]];
      }
    }
    assert sl[..|sl|] == sl && active[..][..|sl|] == active[..];
  }

  lemma NoSurvivors()
    ensures Survivors([], []) == []
  {
  }

  lemma SurvivorsStep(sl: seq<Scored>, active: seq<bool>, c: nat)
    requires |sl| == |active| && c < |sl|
    ensures Survivors(sl[..c + 1], active[..c + 1])
            == Survivors(sl[..c], active[..c]) + if active[c] then [sl[c]] else []
  {
    assert sl[..c + 1][..c] == sl[..c] && active[..c + 1][..c] == active[..c];
  }

  lemma {:induction false} AllActive(active: seq<bool>)
    requires forall c :: 0 <= c < |active| ==> active[c]
    ensures Count(active) == |active|
  {
    if active != [] {
      AllActive(active[..|active| - 1]);
    }
  }

  lemma SomeActive(active: seq<bool>)
    requires active != [] && active[0]
    ensures Count(active) > 0
  {
    CountAfterDrop(active, 0);
  }

  lemma NothingScored(isIp: bool, q: seq<real>, ys: seq<seq<real>>)
    requires forall c :: 0 <= c < |ys| ==> |ys[c]| == |q|
    ensures forall c :: 0 <= c < |ys| ==> Partial(isIp, q, ys[c], 0) == 0.0
  {
  }

  method YNorms(ys: seq<seq<real>>, d: nat, width: nat) returns (norms: seq<seq<real>>)
    requires width > 0 && forall c :: 0 <= c < |ys| ==> |ys[c]| == d
    ensures |norms| == |ys| && forall c :: 0 <= c < |ys| ==> SuffixNorms(ys[c], width, norms[c])
  {
    norms := [];
    for c := 0 to |ys|
      invariant |norms| == c && forall k :: 0 <= k < c ==> SuffixNorms(ys[k], width, norms[k])
    {
      var t := SuffixNormTable(ys[c], width);
      norms := norms + [t[..]];
    }
  }
}
