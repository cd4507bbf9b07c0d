/** Construction of the coarse graph (scripts/spike_graph_coarse_router.cpp,
    `build_coarse_graph_fp16`): robust prune per node, then the reciprocal pass. */
module GraphBuild {
  import BeamSearch
  import opened Ranking
  import Vectors

  /** `a` is already kept and hides `c` from node `i`: alpha * d(a, c) < d(i, c). */
  predicate Hides(d: (nat, nat) -> real, alpha: real, i: nat, a: nat, c: nat) {
    alpha * d(a, c) < d(i, c)
  }

  predicate Occluded(d: (nat, nat) -> real, alpha: real, i: nat, kept: seq<nat>, c: nat) {
    exists k :: 0 <= k < |kept| && Hides(d, alpha, i, kept[k], c)
  }

  /** The robust-prune rule, stated on the candidate order without a loop: position `p` is kept
      exactly if it is not node `i`, fewer than `degree` were kept before it, and no earlier
      kept candidate hides it. */
  ghost predicate PruneRule(d: (nat, nat) -> real, alpha: real, i: nat, degree: nat,
                            order: seq<nat>, mask: seq<bool>)
  {
    && |mask| == |order|
    && forall p :: 0 <= p < |order| ==>
         (mask[p] <==>
            && order[p] != i
            && |Picked(order[..p], mask[..p])| < degree
            && !Occluded(d, alpha, i, Picked(order[..p], mask[..p]), order[p]))
  }

  /** The candidates whose mask is set, in order. */
  ghost function Picked(order: seq<nat>, mask: seq<bool>): (r: seq<nat>)
    requires |order| == |mask|
    ensures |r| <= |order|
  {
    if order == [] then []
    else
      var n := |order| - 1;
      Picked(order[..n], mask[..n]) + if mask[n] then [order[n]] else []
  }

  lemma {:induction false} PickedMembers(order: seq<nat>, mask: seq<bool>, x: nat)
    requires |order| == |mask|
    ensures x in Picked(order, mask) <==> exists p :: 0 <= p < |order| && mask[p] && order[p] == x
  {
    if order != [] {
      var n := |order| - 1;
      PickedMembers(order[..n], mask[..n], x);
      forall p | 0 <= p < n ensures order[..n][p] == order[p] && mask[..n][p] == mask[p] {
      }
    }
  }

  lemma {:induction false} PickedDistinct(order: seq<nat>, mask: seq<bool>)
    requires |order| == |mask|
    requires forall a, b :: 0 <= a < b < |order| ==> order[a] != order[b]
    ensures forall a, b :: 0 <= a < b < |Picked(order, mask)| ==> Picked(order, mask)[a] != Picked(order, mask)[b]
  {
    if order != [] {
      var n := |order| - 1;
      PickedDistinct(order[..n], mask[..n]);
      if mask[n] {
        PickedMembers(order[..n], mask[..n], order[n]);
        assert order[n] !in Picked(order[..n], mask[..n]);
      }
    }
  }

  lemma PickedStep(order: seq<nat>, mask: seq<bool>, p: nat)
    requires p < |order| && |mask| == |order|
    ensures Picked(order[..p + 1], mask[..p + 1]) ==
            Picked(order[..p], mask[..p]) + if mask[p] then [order[p]] else []
  {
    assert order[..p + 1][..p] == order[..p];
    assert mask[..p + 1][..p] == mask[..p];
  }

  /** The rule leaves no freedom: two masks that satisfy it are equal. */
  lemma {:induction false} PruneRuleUnique(d: (nat, nat) -> real, alpha: real, i: nat, degree: nat,
                                           order: seq<nat>, m: seq<bool>, m': seq<bool>, n: nat)
    requires PruneRule(d, alpha, i, degree, order, m) && PruneRule(d, alpha, i, degree, order, m')
    requires n <= |order|
    ensures m[..n] == m'[..n]
  {
    if n > 0 {
      PruneRuleUnique(d, alpha, i, degree, order, m, m', n - 1);
      assert m[n - 1] == m'[n - 1];
    }
  }

  /** Node ids of a candidate list, nearest first. */
  function Nodes(all: seq<Scored>): (r: seq<nat>)
    ensures |r| == |all|
    ensures forall p :: 0 <= p < |r| ==> r[p] == all[p].node
  {
    seq(|all|, p requires 0 <= p < |all| => all[p].node)
  }

  /** The scan of the kept list for a node that hides `c`. */
  method Survives(d: (nat, nat) -> real, alpha: real, i: nat, kept: seq<nat>, c: nat, distToC: real)
    returns (keep: bool)
    requires distToC == d(i, c)
    ensures keep <==> !Occluded(d, alpha, i, kept, c)
    ensures keep <==> forall k :: 0 <= k < |kept| ==> Vectors.Mul(alpha, d(kept[k], c)) >= d(i, c)
  {
    for s := 0 to |kept|
      invariant forall k :: 0 <= k < s ==> !Hides(d, alpha, i, kept[k], c)
      invariant forall k :: 0 <= k < s ==> Vectors.Mul(alpha, d(kept[k], c)) >= d(i, c)
    {
      HidesMeans(d, alpha, i, kept[s], c);
      if Vectors.Mul(alpha, d(kept[s], c)) < distToC {
        return false;
      }
    }
    return true;
  }

  /** The pruned list of one node over its distance-sorted candidates. */
  method RobustPrune(d: (nat, nat) -> real, alpha: real, i: nat, degree: nat, all: seq<Scored>)
    returns (selected: seq<nat>, ghost mask: seq<bool>)
    requires forall p :: 0 <= p < |all| ==> all[p].dist == d(i, all[p].node)
    ensures PruneRule(d, alpha, i, degree, Nodes(all), mask)
    ensures selected == Picked(Nodes(all), mask)
    ensures |selected| <= degree && i !in selected
    ensures Unhidden(d, alpha, i, selected)
  {
    hide PruneRule, Picked, Occluded, Hides;
    selected, mask := [], [];
    ghost var order := Nodes(all);
    var idx := 0;
    EmptyRule(d, alpha, i, degree);
    while idx < |all| && |selected| < degree
      invariant 0 <= idx <= |all| && |mask| == idx
      invariant PruneRule(d, alpha, i, degree, order[..idx], mask)
      invariant selected == Picked(order[..idx], mask)
      invariant |selected| <= degree && i !in selected
      invariant Unhidden(d, alpha, i, selected)
    {
      var c := all[idx].node;
      var keep := false;
      if c != i {
        keep := Survives(d, alpha, i, selected, c, all[idx].dist);
      }
      PruneRuleExtends(d, alpha, i, degree, order, mask, idx, keep);
      if keep {
        UnhiddenExtends(d, alpha, i, selected, c);
        selected := selected + [c];
      }
      mask := mask + [keep];
      idx := idx + 1;
    }
    mask := PruneRuleFull(d, alpha, i, degree, order, mask);
  }

  ghost predicate Unhidden(d: (nat, nat) -> real, alpha: real, i: nat, kept: seq<nat>) {
    forall a, b :: 0 <= a < b < |kept| ==> !Hides(d, alpha, i, kept[a], kept[b])
  }

  lemma UnhiddenExtends(d: (nat, nat) -> real, alpha: real, i: nat, kept: seq<nat>, c: nat)
    requires Unhidden(d, alpha, i, kept) && !Occluded(d, alpha, i, kept, c)
    ensures Unhidden(d, alpha, i, kept + [c])
  {
  }

  lemma EmptyRule(d: (nat, nat) -> real, alpha: real, i: nat, degree: nat)
    ensures PruneRule(d, alpha, i, degree, [], []) && Picked([], []) == []
  {
  }

  /** Once `degree` candidates are kept, or none are left, the rule drops all the others. */
  lemma {:induction false} PruneRuleFull(d: (nat, nat) -> real, alpha: real, i: nat, degree: nat,
                                         order: seq<nat>, mask: seq<bool>) returns (full: seq<bool>)
    requires |mask| <= |order|
    requires PruneRule(d, alpha, i, degree, order[..|mask|], mask)
    requires |mask| == |order| || |Picked(order[..|mask|], mask)| >= degree
    ensures PruneRule(d, alpha, i, degree, order, full)
    ensures Picked(order, full) == Picked(order[..|mask|], mask)
    decreases |order| - |mask|
  {
    assert |mask| == |order| ==> order[..|mask|] == order;
    hide *;
    if |mask| == |order| {
      full := mask;
    } else {
      PruneRuleExtends(d, alpha, i, degree, order, mask, |mask|, false);
      full := PruneRuleFull(d, alpha, i, degree, order, mask + [false]);
    }
  }

  lemma PruneRuleExtends(d: (nat, nat) -> real, alpha: real, i: nat, degree: nat,
                         order: seq<nat>, mask: seq<bool>, p: nat, keep: bool)
    requires p < |order|
    requires PruneRule(d, alpha, i, degree, order[..p], mask)
    requires keep <==> order[p] != i && |Picked(order[..p], mask)| < degree
                       && !Occluded(d, alpha, i, Picked(order[..p], mask), order[p])
    ensures PruneRule(d, alpha, i, degree, order[..p + 1], mask + [keep])
    ensures Picked(order[..p + 1], mask + [keep]) == Picked(order[..p], mask) + if keep then [order[p]] else []
  {
    hide Occluded, Picked;
    var longer, mask' := order[..p + 1], mask + [keep];
    forall r | 0 <= r < |longer| ensures
      mask'[r] <==> longer[r] != i && |Picked(longer[..r], mask'[..r])| < degree
                    && !Occluded(d, alpha, i, Picked(longer[..r], mask'[..r]), longer[r])
    {
      assert mask'[..r] == mask[..r];
      assert longer[..r] == order[..p][..r];
      if r < p {
        assert longer[r] == order[..p][r] && mask'[r] == mask[r];
      } else {
        assert mask[..r] == mask && order[..p][..r] == order[..p];
      }
    }
    PickedStep(longer, mask', p);
    assert mask'[..p + 1] == mask' && mask'[..p] == mask && longer[..p] == order[..p] && longer[..p + 1] == longer;
  }

  // ----- the whole graph -----

  ghost predicate Distinct<T>(s: seq<T>) {
    forall a, b :: 0 <= a < b < |s| ==> s[a] != s[b]
  }

  /** Every node once, nearest to `i` first. */
  ghost predicate CandidateOrder(d: (nat, nat) -> real, k: nat, i: nat, order: seq<nat>) {
    && Distinct(order)
    && (forall v: nat :: v in order <==> v < k)
    && forall a, b :: 0 <= a < b < |order| ==> d(i, order[a]) <= d(i, order[b])
  }

  ghost predicate PrunedList(d: (nat, nat) -> real, alpha: real, k: nat, degree: nat, i: nat, list: seq<nat>) {
    exists order, mask ::
      && CandidateOrder(d, k, i, order)
      && PruneRule(d, alpha, i, degree, order, mask)
      && list == Picked(order, mask)
  }

  /** The facts a reader of the graph uses. */
  lemma PrunedListFacts(d: (nat, nat) -> real, alpha: real, k: nat, degree: nat, i: nat, list: seq<nat>)
    requires PrunedList(d, alpha, k, degree, i, list)
    ensures Distinct(list) && i !in list && forall v :: v in list ==> v < k
    // nearest first, and no kept node is hidden by one kept before it
    ensures |list| <= degree
    ensures forall a, b :: 0 <= a < b < |list| ==>
              d(i, list[a]) <= d(i, list[b]) && Vectors.Mul(alpha, d(list[a], list[b])) >= d(i, list[b])
    // a dropped node is hidden by a kept one no farther away, or the list is full
    ensures forall c: nat :: c < k && c != i && c !in list ==>
              || |list| == degree
              || exists s :: s in list && d(i, s) <= d(i, c) && Vectors.Mul(alpha, d(s, c)) < d(i, c)
  {
    var order, mask :| CandidateOrder(d, k, i, order) && PruneRule(d, alpha, i, degree, order, mask)
                       && list == Picked(order, mask);
    PickedDistinct(order, mask);
    forall c: nat | c < k && c != i && c !in list && |list| < degree
      ensures exists s :: s in list && d(i, s) <= d(i, c) && Vectors.Mul(alpha, d(s, c)) < d(i, c)
    {
      hide *;
      var s := HiddenBy(d, alpha, k, degree, i, order, mask, c);
      HidesMeans(d, alpha, i, s, c);
    }
    PickedFrom(d, alpha, k, degree, i, order, mask);
    assert order[..|order|] == order && mask[..|mask|] == mask;
    PickedInOrder(d, alpha, k, degree, i, order, mask, |order|);
    hide Picked, PruneRule, CandidateOrder, Hides;
    forall a, b | 0 <= a < b < |list| ensures Vectors.Mul(alpha, d(list[a], list[b])) >= d(i, list[b]) {
      HidesMeans(d, alpha, i, list[a], list[b]);
    }
  }

  lemma HidesMeans(d: (nat, nat) -> real, alpha: real, i: nat, a: nat, c: nat)
    ensures Hides(d, alpha, i, a, c) <==> Vectors.Mul(alpha, d(a, c)) < d(i, c)
  {
  }

  /** Nearest to `i` first, and none hidden by an earlier one. */
  ghost predicate InOrder(d: (nat, nat) -> real, alpha: real, i: nat, list: seq<nat>) {
    forall a, b :: 0 <= a < b < |list| ==> d(i, list[a]) <= d(i, list[b]) && !Hides(d, alpha, i, list[a], list[b])
  }

  lemma InOrderGrows(d: (nat, nat) -> real, alpha: real, i: nat, list: seq<nat>, c: nat)
    requires InOrder(d, alpha, i, list)
    requires forall a :: 0 <= a < |list| ==> d(i, list[a]) <= d(i, c) && !Hides(d, alpha, i, list[a], c)
    ensures InOrder(d, alpha, i, list + [c])
  {
    hide Hides;
  }

  /** The nodes picked from the first `p` candidates are in order. */
  lemma {:induction false} PickedInOrder(d: (nat, nat) -> real, alpha: real, k: nat, degree: nat, i: nat,
                                         order: seq<nat>, mask: seq<bool>, p: nat)
    requires p <= |order| == |mask|
    requires CandidateOrder(d, k, i, order) && PruneRule(d, alpha, i, degree, order, mask)
    ensures |Picked(order[..p], mask[..p])| <= degree
    ensures InOrder(d, alpha, i, Picked(order[..p], mask[..p]))
  {
    hide *;
    if p > 0 {
      PickedInOrder(d, alpha, k, degree, i, order, mask, p - 1);
      PickedStep(order, mask, p - 1);
      RuleAt(d, alpha, i, degree, order, mask, p - 1);
      var list, c := Picked(order[..p - 1], mask[..p - 1]), order[p - 1];
      NotFartherThan(d, k, i, order, p - 1, list);
      if mask[p - 1] {
        NotHidden(d, alpha, i, list, c);
        InOrderGrows(d, alpha, i, list, c);
      } else {
        assert list + [] == list;
      }
    } else {
      NothingPicked(d, alpha, i);
      assert order[..p] == [] && mask[..p] == [];
    }
  }

  lemma NothingPicked(d: (nat, nat) -> real, alpha: real, i: nat)
    ensures Picked([], []) == [] && InOrder(d, alpha, i, [])
  {
  }

  /** What the rule says of one kept candidate. */
  lemma RuleAt(d: (nat, nat) -> real, alpha: real, i: nat, degree: nat, order: seq<nat>, mask: seq<bool>, p: nat)
    requires p < |order| == |mask| && PruneRule(d, alpha, i, degree, order, mask)
    ensures var before := Picked(order[..p], mask[..p]);
      && (mask[p] ==> |before| < degree && !Occluded(d, alpha, i, before, order[p]))
      && forall v :: v in before ==> v in order[..p]
  {
    hide Occluded, Picked;
    forall v | v in Picked(order[..p], mask[..p]) ensures v in order[..p] {
      PickedMembers(order[..p], mask[..p], v);
    }
  }

  lemma NotFartherThan(d: (nat, nat) -> real, k: nat, i: nat, order: seq<nat>, p: nat, list: seq<nat>)
    requires CandidateOrder(d, k, i, order) && p < |order| && forall v :: v in list ==> v in order[..p]
    ensures forall a :: 0 <= a < |list| ==> d(i, list[a]) <= d(i, order[p])
  {
    forall a | 0 <= a < |list| ensures d(i, list[a]) <= d(i, order[p]) {
      assert list[a] in order[..p];
      var r :| 0 <= r < p && order[..p][r] == list[a];
    }
  }

  lemma NotHidden(d: (nat, nat) -> real, alpha: real, i: nat, list: seq<nat>, c: nat)
    requires !Occluded(d, alpha, i, list, c)
    ensures forall a :: 0 <= a < |list| ==> !Hides(d, alpha, i, list[a], c)
  {
  }

  lemma PickedFrom(d: (nat, nat) -> real, alpha: real, k: nat, degree: nat, i: nat, order: seq<nat>, mask: seq<bool>)
    requires CandidateOrder(d, k, i, order) && PruneRule(d, alpha, i, degree, order, mask)
    ensures i !in Picked(order, mask) && forall v :: v in Picked(order, mask) ==> v < k
  {
    forall v | v in Picked(order, mask) ensures v != i && v < k {
      PickedMembers(order, mask, v);
      var p :| 0 <= p < |order| && mask[p] && order[p] == v;
      assert order[p] in order;
    }
  }

  lemma HiddenBy(d: (nat, nat) -> real, alpha: real, k: nat, degree: nat, i: nat, order: seq<nat>, mask: seq<bool>,
      c: nat)
    returns (s: nat)
    requires CandidateOrder(d, k, i, order) && PruneRule(d, alpha, i, degree, order, mask)
    requires c < k && c != i && c !in Picked(order, mask) && |Picked(order, mask)| < degree
    ensures s in Picked(order, mask) && d(i, s) <= d(i, c) && Hides(d, alpha, i, s, c)
  {
    assert c in order;
    var p :| 0 <= p < |order| && order[p] == c;
    PickedMembers(order, mask, c);
    PickedPrefix(order, mask, p);
    var before := Picked(order[..p], mask[..p]);
    var n :| 0 <= n < |before| && Hides(d, alpha, i, before[n], c);
    s := before[n];
    assert s == Picked(order, mask)[n];
    PickedMembers(order[..p], mask[..p], s);
  }

  lemma {:induction false} PickedPrefix(order: seq<nat>, mask: seq<bool>, p: nat)
    requires p <= |order| == |mask|
    ensures Picked(order[..p], mask[..p]) <= Picked(order, mask)
  {
    if p < |order| {
      var n := |order| - 1;
      PickedPrefix(order[..n], mask[..n], p);
      assert order[..n][..p] == order[..p] && mask[..n][..p] == mask[..p];
    } else {
      assert order[..p] == order && mask[..p] == mask;
    }
  }

  lemma {:induction false} DistinctCount<T>(s: seq<T>, x: T)
    requires Distinct(s)
    ensures multiset(s)[x] <= 1
  {
    if s != [] {
      var n := |s| - 1;
      DistinctCount(s[..n], x);
      assert s == s[..n] + [s[n]];
      assert x == s[n] ==> x !in s[..n];
    }
  }

  lemma DistinctPermuted<T>(s: seq<T>, t: seq<T>)
    requires Distinct(s) && multiset(s) == multiset(t)
    ensures Distinct(t)
  {
    forall a, b | 0 <= a < b < |t| ensures t[a] != t[b] {
      DistinctCount(s, t[a]);
      assert t == t[..a] + [t[a]] + t[a + 1..b] + [t[b]] + t[b + 1..];
    }
  }

  /** A sorted list of all nodes, scored from `i`, gives a candidate order. */
  lemma SortedIsCandidateOrder(d: (nat, nat) -> real, k: nat, i: nat, all: seq<Scored>, sorted: seq<Scored>)
    requires |all| == k && forall v :: 0 <= v < k ==> all[v] == Scored(d(i, v), v)
    requires multiset(all) == multiset(sorted) && SortedByDist(sorted)
    ensures forall p :: 0 <= p < |sorted| ==> sorted[p].dist == d(i, sorted[p].node)
    ensures CandidateOrder(d, k, i, Nodes(sorted))
  {
    DistinctPermuted(all, sorted);
    forall p | 0 <= p < |sorted| ensures sorted[p].node < k && sorted[p].dist == d(i, sorted[p].node) {
      assert sorted[p] in multiset(all);
    }
    forall v: nat | v < k ensures v in Nodes(sorted) {
      assert all[v] in multiset(sorted);
      var p :| 0 <= p < |sorted| && sorted[p] == all[v];
      assert Nodes(sorted)[p] == v;
    }
  }

  /** The per-node part of the build. */
  method PruneNode(d: (nat, nat) -> real, alpha: real, k: nat, degree: nat, i: nat) returns (list: seq<nat>)
    ensures PrunedList(d, alpha, k, degree, i, list)
    ensures |list| <= degree && Unhidden(d, alpha, i, list)
  {
    var all: seq<Scored> := [];
    for j := 0 to k
      invariant |all| == j && forall v :: 0 <= v < j ==> all[v] == Scored(d(i, v), v)
    {
      all := all + [Scored(d(i, j), j)];
    }
    var sorted := SortByDist(all);
    SortedIsCandidateOrder(d, k, i, all, sorted);
    ghost var mask;
    list, mask := RobustPrune(d, alpha, i, degree, sorted);
  }

  ghost predicate Edge(g: seq<seq<nat>>, a: nat, b: nat) {
    a < |g| && b in g[a]
  }

  /** `now` grew out of `before` by adding reversed edges only. */
  ghost predicate Closing(before: seq<seq<nat>>, now: seq<seq<nat>>) {
    && |before| == |now|
    && (forall a :: 0 <= a < |now| ==> before[a] <= now[a])
    && (forall a: nat, b: nat :: Edge(now, a, b) ==> Edge(before, a, b) || Edge(before, b, a))
    && (forall a :: 0 <= a < |now| && Distinct(before[a]) ==> Distinct(now[a]))
  }

  lemma ClosingStep(before: seq<seq<nat>>, now: seq<seq<nat>>, i: nat, nb: nat)
    requires Closing(before, now) && i < |now| && nb < |now|
    requires nb in now[i] && i !in now[nb]
    ensures Closing(before, now[nb := now[nb] + [i]])
  {
    var next := now[nb := now[nb] + [i]];
    forall a: nat, b: nat | Edge(next, a, b) ensures Edge(before, a, b) || Edge(before, b, a) {
      assert Edge(now, a, b) || (a == nb && b == i && Edge(now, i, nb));
    }
    forall a | 0 <= a < |next| && Distinct(before[a]) ensures Distinct(next[a]) {
      assert Distinct(now[a]);
    }
  }

  /** Rows below `i` have all their edges reversed. */
  ghost predicate ReversedBelow(now: seq<seq<nat>>, i: nat) {
    forall a: nat, b: nat :: a < i && Edge(now, a, b) && b < |now| ==> Edge(now, b, a)
  }

  lemma ReversedStep(now: seq<seq<nat>>, i: nat, nb: nat)
    requires ReversedBelow(now, i) && i < |now| && nb < |now| && nb in now[i]
    ensures ReversedBelow(now[nb := now[nb] + [i]], i)
  {
    var next := now[nb := now[nb] + [i]];
    forall a: nat, b: nat | a < i && Edge(next, a, b) && b < |next| ensures Edge(next, b, a) {
      assert Edge(now, a, b) || (a == nb && b == i && Edge(now, i, nb));
    }
  }

  ghost predicate SymmetricClosure(before: seq<seq<nat>>, now: seq<seq<nat>>) {
    && |before| == |now|
    && forall a: nat, b: nat :: Edge(now, a, b) <==> Edge(before, a, b) || (a < |now| && Edge(before, b, a))
  }

  lemma ClosedUnder(before: seq<seq<nat>>, now: seq<seq<nat>>)
    requires Closing(before, now) && ReversedBelow(now, |now|)
    ensures SymmetricClosure(before, now)
  {
    forall a: nat, b: nat | Edge(before, a, b) || (a < |now| && Edge(before, b, a)) ensures Edge(now, a, b) {
      if Edge(before, a, b) {
        assert before[a] <= now[a];
      } else {
        assert before[b] <= now[b];
      }
      assert Edge(now, a, b) || Edge(now, b, a);
    }
  }

  /** The in-place reciprocal pass: the result is exactly the symmetric closure. */
  method ConnectReciprocal(neighbors: array<seq<nat>>)
    modifies neighbors
    ensures SymmetricClosure(old(neighbors[..]), neighbors[..])
    ensures forall a :: 0 <= a < neighbors.Length ==> old(neighbors[a]) <= neighbors[a]
    ensures forall a :: 0 <= a < neighbors.Length && Distinct(old(neighbors[a])) ==> Distinct(neighbors[a])
  {
    ghost var before := neighbors[..];
    for i := 0 to neighbors.Length
      invariant Closing(before, neighbors[..])
      invariant ReversedBelow(neighbors[..], i)
    {
      var j := 0;
      ghost var list := neighbors[i];
      while j < |neighbors[i]|
        invariant neighbors[i] == list && j <= |list|
        invariant Closing(before, neighbors[..])
        invariant ReversedBelow(neighbors[..], i)
        invariant forall n :: 0 <= n < j && list[n] < neighbors.Length ==> i in neighbors[..][list[n]]
        decreases |list| - j
      {
        var nb := neighbors[i][j];
        if nb < neighbors.Length && i !in neighbors[nb] {
          ghost var now := neighbors[..];
          assert nb in now[i];
          ClosingStep(before, now, i, nb);
          ReversedStep(now, i, nb);
          neighbors[nb] := neighbors[nb] + [i];
          assert neighbors[..] == now[nb := now[nb] + [i]];
        }
        j := j + 1;
      }
    }
    ghost var now := neighbors[..];
    ClosedUnder(before, now);
    assert forall a :: 0 <= a < |now| ==> now[a] == neighbors[a] && before[a] == old(neighbors[a]);
  }

  /** Prune every node, then connect back. */
  method BuildGraph(d: (nat, nat) -> real, alpha: real, k: nat, degree: nat)
    returns (neighbors: array<seq<nat>>, ghost pruned: seq<seq<nat>>)
    ensures fresh(neighbors) && neighbors.Length == |pruned| == k
    ensures forall i :: 0 <= i < k ==> PrunedList(d, alpha, k, degree, i, pruned[i]) && |pruned[i]| <= degree
    ensures SymmetricClosure(pruned, neighbors[..])
    ensures forall a :: 0 <= a < k ==> pruned[a] <= neighbors[a] && Distinct(neighbors[a]) && a !in neighbors[a]
    // undirected, and fit to be searched
    ensures forall a: nat, b: nat :: Edge(neighbors[..], a, b) ==> Edge(neighbors[..], b, a)
    ensures BeamSearch.WellFormed(neighbors[..])
  {
    neighbors := new seq<nat>[k](_ => []);
    for i := 0 to k
      invariant forall v :: 0 <= v < i ==> PrunedList(d, alpha, k, degree, v, neighbors[v]) && |neighbors[v]| <= degree
    {
      neighbors[i] := PruneNode(d, alpha, k, degree, i);
    }
    pruned := neighbors[..];
    forall i | 0 <= i < k ensures Distinct(pruned[i]) && i !in pruned[i] && forall v :: v in pruned[i] ==> v < k {
      PrunedListFacts(d, alpha, k, degree, i, pruned[i]);
    }
    ConnectReciprocal(neighbors);
    forall a | 0 <= a < k ensures a !in neighbors[a] {
      assert Edge(neighbors[..], a, a) <==> Edge(pruned, a, a);
    }
    ClosureFits(pruned, neighbors[..]);
  }

  /** The closure of a graph over its own nodes is undirected and stays over its nodes. */
  lemma ClosureFits(before: seq<seq<nat>>, now: seq<seq<nat>>)
    requires SymmetricClosure(before, now)
    requires forall a: nat, b: nat :: Edge(before, a, b) ==> b < |before|
    ensures forall a: nat, b: nat :: Edge(now, a, b) ==> Edge(now, b, a)
    ensures BeamSearch.WellFormed(now)
  {
    forall v, i | 0 <= v < |now| && 0 <= i < |now[v]| ensures now[v][i] < |now| {
      assert Edge(now, v, now[v][i]);
    }
  }
}
