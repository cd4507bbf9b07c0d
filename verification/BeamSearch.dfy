/** Bounded beam search over the coarse centroid graph
    (scripts/spike_graph_coarse_router.cpp, `coarse_beam_search`). */
module BeamSearch {
  import opened Numbers
  import opened Ranking

  /** Adjacency lists name existing nodes only. */
  predicate WellFormed(g: seq<seq<nat>>) {
    forall v, i :: 0 <= v < |g| && 0 <= i < |g[v]| ==> g[v][i] < |g|
  }

  function Eval(dist: nat -> real, v: nat): Scored {
    Scored(dist(v), v)
  }

  /** The beam never shrinks below the entry, so a width of 0 behaves like 1. */
  function Cap(width: nat): nat {
    if width == 0 then 1 else width
  }

  ghost predicate AtTop(g: seq<seq<nat>>, dist: nat -> real, top: real) {
    forall v :: 0 <= v < |g| ==> top <= dist(v)
  }

  // ----- reachability, defined without the search -----

  ghost predicate IsPath(g: seq<seq<nat>>, path: seq<nat>) {
    && path != []
    && (forall i :: 0 <= i < |path| ==> path[i] < |g|)
    && forall i :: 1 <= i < |path| ==> path[i] in g[path[i - 1]]
  }

  ghost predicate Reachable(g: seq<seq<nat>>, entry: nat, v: nat) {
    exists path :: IsPath(g, path) && path[0] == entry && path[|path| - 1] == v
  }

  /** Every node the entry reaches, other than node 0, is below the start value of the pop loop. */
  ghost predicate BelowTop(g: seq<seq<nat>>, entry: nat, dist: nat -> real, top: real) {
    forall v: nat :: v != 0 && Reachable(g, entry, v) ==> dist(v) < top
  }

  lemma ReachableEntry(g: seq<seq<nat>>, entry: nat)
    requires entry < |g|
    ensures Reachable(g, entry, entry)
  {
    assert IsPath(g, [entry]);
  }

  lemma ReachableEdge(g: seq<seq<nat>>, entry: nat, v: nat, nb: nat)
    requires WellFormed(g) && v < |g| && nb in g[v]
    requires Reachable(g, entry, v)
    ensures Reachable(g, entry, nb)
  {
    var path :| IsPath(g, path) && path[0] == entry && path[|path| - 1] == v;
    var longer := path + [nb];
    assert IsPath(g, longer);
  }

  ghost predicate Closed(g: seq<seq<nat>>, s: set<nat>) {
    forall v, nb :: v in s && v < |g| && nb in g[v] ==> nb in s
  }

  /** A set that holds the entry and is closed under edges holds every reachable node. */
  lemma {:induction false} ClosedHoldsPath(g: seq<seq<nat>>, s: set<nat>, path: seq<nat>)
    requires IsPath(g, path) && path[0] in s && Closed(g, s)
    ensures path[|path| - 1] in s
  {
    if |path| > 1 {
      var tail := path[1..];
      assert path[1] in g[path[0]];
      ClosedHoldsPath(g, s, tail);
    }
  }

  // ----- how many distance evaluations a run can make -----

  /** Degrees of the nodes of `s` below `k`, added up. */
  function DegreeSum(g: seq<seq<nat>>, s: set<nat>, k: nat): nat
    requires k <= |g|
  {
    if k == 0 then 0
    else DegreeSum(g, s, k - 1) + if k - 1 in s then |g[k - 1]| else 0
  }

  lemma {:induction false} DegreeSumAdd(g: seq<seq<nat>>, s: set<nat>, v: nat, k: nat)
    requires k <= |g| && v !in s && v < |g|
    ensures DegreeSum(g, s + {v}, k) == DegreeSum(g, s, k) + if v < k then |g[v]| else 0
  {
    if k > 0 {
      DegreeSumAdd(g, s, v, k - 1);
    }
  }

  function AllNodes(k: nat): (s: set<nat>)
    ensures forall v: nat :: v in s <==> v < k
    ensures |s| == k
  {
    if k == 0 then {} else AllNodes(k - 1) + {k - 1}
  }

  lemma {:induction false} DegreeSumMono(g: seq<seq<nat>>, s: set<nat>, k: nat)
    requires k <= |g|
    ensures DegreeSum(g, s, k) <= DegreeSum(g, AllNodes(|g|), k)
  {
    if k > 0 {
      DegreeSumMono(g, s, k - 1);
    }
  }

  function EdgeCount(g: seq<seq<nat>>): nat {
    DegreeSum(g, AllNodes(|g|), |g|)
  }

  // ----- the search -----

  /** `cur` is a nearest entry of `frontier` and `rest` are the others; when no entry is below
      `top` the scan keeps its start values, so node 0 is taken and entry 0 erased. */
  ghost predicate Popped(frontier: seq<Scored>, top: real, cur: Scored, rest: seq<Scored>) {
    && frontier != []
    && multiset(rest) <= multiset(frontier)
    && ((exists x :: x in frontier && x.dist < top) ==>
          && multiset(frontier) == multiset(rest) + multiset{cur}
          && forall x :: x in frontier ==> cur.dist <= x.dist)
    && ((forall x :: x in frontier ==> top <= x.dist) ==>
          cur == Scored(top, 0) && rest == frontier[1..])
  }

  /** The linear scan for the nearest frontier entry and its removal. */
  method PopNearest(frontier: seq<Scored>, top: real) returns (cur: Scored, rest: seq<Scored>)
    requires frontier != []
    ensures |rest| + 1 == |frontier| && Popped(frontier, top, cur, rest)
  {
    cur := Scored(top, 0);
    var curIdx := 0;
    for i := 0 to |frontier|
      invariant 0 <= curIdx < |frontier|
      invariant cur.dist <= top
      invariant cur.dist < top ==> curIdx < i && cur == frontier[curIdx]
      invariant cur.dist == top ==> cur == Scored(top, 0) && curIdx == 0
      invariant forall j :: 0 <= j < i ==> cur.dist <= frontier[j].dist
    {
      if frontier[i].dist < cur.dist {
        cur := frontier[i];
        curIdx := i;
      }
    }
    rest := frontier[..curIdx] + frontier[curIdx + 1..];
    assert frontier == frontier[..curIdx] + [frontier[curIdx]] + frontier[curIdx + 1..];
  }

  /** What the heap `working` keeps of the evaluations so far; `rejected` is the rest. */
  ghost predicate BeamInv(width: nat, working: seq<Scored>, evals: seq<Scored>, rejected: multiset<Scored>) {
    && FrontIsWorst(working) && 1 <= |working| <= Cap(width)
    && multiset(evals) == multiset(working) + rejected
    && (rejected != multiset{} ==> |working| == Cap(width))
    && forall w, r :: w in working && r in rejected ==> w.dist <= r.dist
  }

  lemma BeamInvKeepsNearest(width: nat, working: seq<Scored>, evals: seq<Scored>, rejected: multiset<Scored>)
    requires BeamInv(width, working, evals, rejected)
    ensures KeepsNearest(multiset(working), multiset(evals), Cap(width))
  {
    assert multiset(evals) - multiset(working) == rejected;
    assert |multiset(evals)| == |multiset(working)| + |rejected|;
  }

  lemma RejectedStaysOut(width: nat, working: seq<Scored>, x: Scored, evals: seq<Scored>, rejected: multiset<Scored>)
    requires BeamInv(width, working, evals, rejected)
    ensures x in evals && x !in working ==> |working| >= width && x.dist >= working[0].dist
  {
    if x in evals && x !in working {
      assert x in multiset(evals) && x !in multiset(working);
      assert x in rejected;
      assert working[0] in working;
    }
  }

  /** The branch taken for one evaluated neighbour: push, replace the worst, or drop. */
  method Offer(width: nat, working: seq<Scored>, x: Scored, ghost evals: seq<Scored>, ghost rejected: multiset<Scored>)
    returns (kept: seq<Scored>, taken: bool, ghost dropped: multiset<Scored>)
    requires BeamInv(width, working, evals, rejected)
    ensures BeamInv(width, kept, evals + [x], dropped)
    ensures forall w :: w in kept ==> w in working || (taken && w == x)
    ensures taken <==> |working| < width || x.dist < working[0].dist
    // what was turned away once is turned away again
    ensures taken && x in evals ==> x in working
  {
    hide BeamInv;
    FrontOfBeam(width, working, evals, rejected);
    RejectedStaysOut(width, working, x, evals, rejected);
    dropped := rejected;
    if |working| < width {
      kept := PushHeap(working, x);
      taken := true;
      Pushed(width, working, x, evals, rejected, kept);
    } else if x.dist < working[0].dist {
      var rest := PopHeap(working);
      kept := PushHeap(rest, x);
      dropped := rejected + multiset{working[0]};
      taken := true;
      assert multiset(kept) + multiset{working[0]} == multiset(working) + multiset{x};
      Replaced(width, working, x, evals, rejected, kept);
    } else {
      kept := working;
      dropped := rejected + multiset{x};
      taken := false;
      Dropped(width, working, x, evals, rejected);
    }
    KeptFrom(working, kept, x, taken);
  }

  lemma FrontOfBeam(width: nat, working: seq<Scored>, evals: seq<Scored>, rejected: multiset<Scored>)
    requires BeamInv(width, working, evals, rejected)
    ensures working != [] && FrontIsWorst(working)
  {
  }

  lemma InBag(s: seq<Scored>, w: Scored)
    ensures w in s <==> w in multiset(s)
  {
  }

  lemma Pushed(width: nat, working: seq<Scored>, x: Scored, evals: seq<Scored>, rejected: multiset<Scored>,
               kept: seq<Scored>)
    requires BeamInv(width, working, evals, rejected) && |working| < width
    requires FrontIsWorst(kept) && multiset(kept) == multiset(working) + multiset{x}
    ensures BeamInv(width, kept, evals + [x], rejected)
  {
    assert |kept| == |multiset(kept)| && |working| == |multiset(working)|;
    assert rejected == multiset{};
    assert multiset(evals + [x]) == multiset(evals) + multiset{x};
  }

  lemma Replaced(width: nat, working: seq<Scored>, x: Scored, evals: seq<Scored>, rejected: multiset<Scored>,
                 kept: seq<Scored>)
    requires BeamInv(width, working, evals, rejected) && |working| >= width && x.dist < working[0].dist
    requires FrontIsWorst(kept) && multiset(kept) + multiset{working[0]} == multiset(working) + multiset{x}
    ensures BeamInv(width, kept, evals + [x], rejected + multiset{working[0]})
  {
    var worst := working[0];
    assert |kept| == |multiset(kept)| && |working| == |multiset(working)|;
    assert |multiset(kept) + multiset{worst}| == |multiset(working) + multiset{x}|;
    assert multiset(evals + [x]) == multiset(evals) + multiset{x};
    Exchanged(multiset(working), rejected, multiset{x}, multiset(kept), multiset{worst});
    forall w, r | w in kept && r in rejected + multiset{worst} ensures w.dist <= r.dist {
      InBag(kept, w);
      InBag(working, w);
      assert w in multiset(working) + multiset{x};
      assert w == x || w in working;
    }
  }

  lemma Exchanged(a: multiset<Scored>, b: multiset<Scored>, x: multiset<Scored>, kept: multiset<Scored>,
                  worst: multiset<Scored>)
    requires kept + worst == a + x
    ensures a + b + x == kept + (b + worst)
  {
    assert a + b + x == a + x + b;
    assert kept + (b + worst) == kept + worst + b;
  }

  lemma Dropped(width: nat, working: seq<Scored>, x: Scored, evals: seq<Scored>, rejected: multiset<Scored>)
    requires BeamInv(width, working, evals, rejected) && |working| >= width && x.dist >= working[0].dist
    ensures BeamInv(width, working, evals + [x], rejected + multiset{x})
  {
    assert multiset(evals + [x]) == multiset(evals) + multiset{x};
  }

  lemma KeptFrom(working: seq<Scored>, kept: seq<Scored>, x: Scored, taken: bool)
    requires multiset(kept) <= multiset(working) + if taken then multiset{x} else multiset{}
    ensures forall w :: w in kept ==> w in working || (taken && w == x)
  {
    forall w | w in kept ensures w in working || (taken && w == x) {
      assert w in multiset(kept);
      assert w in multiset(working) + if taken then multiset{x} else multiset{};
    }
  }

  /** Where every evaluation came from, and that nothing kept is forgotten by the frontier. */
  ghost predicate Traced(g: seq<seq<nat>>, entry: nat, dist: nat -> real, top: real,
                         working: seq<Scored>, frontier: seq<Scored>, seen: set<nat>, evals: seq<Scored>)
  {
    && evals != [] && evals[0] == Eval(dist, entry)
    && (forall x :: x in evals ==> x.node < |g| && x == Eval(dist, x.node))
    && (forall x :: x in frontier ==> x in evals)
    && (forall x :: x in working ==> x in frontier || x.node in seen || top <= x.dist)
    && (forall v :: v in seen ==> v == 0 || (dist(v) < top && Eval(dist, v) in evals))
    && (BelowTop(g, entry, dist, top) ==>
          && (forall x :: x in working ==> x in frontier || x.node in seen)
          && (forall v :: v in seen ==> Eval(dist, v) in evals)
          && (forall x :: x in evals ==> Reachable(g, entry, x.node)))
  }

  /** The neighbours of expanded nodes have been evaluated; node 0 only surely with `all`. */
  ghost predicate Expanded(g: seq<seq<nat>>, dist: nat -> real, seen: set<nat>, evals: seq<Scored>, all: bool) {
    forall v, nb :: v in seen && v < |g| && nb in g[v] && (all || nb != 0) ==> Eval(dist, nb) in evals
  }

  // ----- the order of expansion -----

  /** What an expansion evaluates: in list order, those neighbours that have not been expanded. */
  function NewEvals(dist: nat -> real, nbs: seq<nat>, order: seq<nat>): (evals: seq<Scored>) {
    if nbs == [] then []
    else
      var n := |nbs| - 1;
      NewEvals(dist, nbs[..n], order) + if nbs[n] in order then [] else [Eval(dist, nbs[n])]
  }

  /** All evaluations up to the expansion of the first `n` nodes of `order`. */
  function EvalsOf(g: seq<seq<nat>>, entry: nat, dist: nat -> real, order: seq<nat>, n: nat): (evals: seq<Scored>)
    requires n <= |order|
  {
    if n == 0 then [Eval(dist, entry)]
    else
      var v := order[n - 1];
      EvalsOf(g, entry, dist, order, n - 1) + if v < |g| then NewEvals(dist, g[v], order[..n]) else []
  }

  lemma {:induction false} EvalsOfPrefix(g: seq<seq<nat>>, entry: nat, dist: nat -> real, order: seq<nat>,
                                         more: seq<nat>, n: nat)
    requires n <= |order|
    ensures EvalsOf(g, entry, dist, order + more, n) == EvalsOf(g, entry, dist, order, n)
  {
    hide NewEvals;
    if n > 0 {
      EvalsOfPrefix(g, entry, dist, order, more, n - 1);
      assert (order + more)[..n] == order[..n];
    }
  }

  lemma {:induction false} EvalsOfGrow(g: seq<seq<nat>>, entry: nat, dist: nat -> real, order: seq<nat>, k: nat, n: nat)
    requires k <= n <= |order|
    ensures EvalsOf(g, entry, dist, order, k) <= EvalsOf(g, entry, dist, order, n)
    decreases n
  {
    hide NewEvals;
    if k < n {
      EvalsOfGrow(g, entry, dist, order, k, n - 1);
    }
  }

  /** `x` stays in the beam and had been evaluated, but not been expanded, when the `k`-th node was. */
  ghost predicate StillToCome(g: seq<seq<nat>>, entry: nat, dist: nat -> real, top: real, beam: seq<Scored>,
                              order: seq<nat>, k: nat, x: Scored)
    requires k < |order|
  {
    x in beam && x in EvalsOf(g, entry, dist, order, k) && x.node !in order[..k] && x.dist < top
  }

  /** Whenever a node was expanded, none that is in the beam now, had been evaluated by then and was still to be
      expanded was nearer. */
  ghost predicate BestFirst(g: seq<seq<nat>>, entry: nat, dist: nat -> real, top: real, beam: seq<Scored>,
                            order: seq<nat>)
  {
    forall k, x :: 0 <= k < |order| && StillToCome(g, entry, dist, top, beam, order, k, x) ==> dist(order[k]) <= x.dist
  }

  /** Every node was evaluated before it was expanded; node 0 may have been taken without that. */
  ghost predicate InTurn(g: seq<seq<nat>>, entry: nat, dist: nat -> real, top: real, order: seq<nat>) {
    && (forall k, l :: 0 <= k < l < |order| ==> order[k] != order[l])
    && (order != [] ==> order[0] == if dist(entry) < top then entry else 0)
    && (forall k :: 0 <= k < |order| ==>
          order[k] == 0 || (dist(order[k]) < top && Eval(dist, order[k]) in EvalsOf(g, entry, dist, order, k)))
  }

  ghost predicate Members(order: seq<nat>, seen: set<nat>) {
    forall v :: v in seen <==> v in order
  }

  /** Offering an evaluation keeps the order best first: one that was turned away does not come back. */
  lemma OfferedIsBestFirst(g: seq<seq<nat>>, entry: nat, dist: nat -> real, top: real, working: seq<Scored>,
                           kept: seq<Scored>, x: Scored, taken: bool, evals: seq<Scored>, order: seq<nat>)
    requires BestFirst(g, entry, dist, top, working, order) && order != []
    requires EvalsOf(g, entry, dist, order, |order| - 1) <= evals
    requires forall w :: w in kept ==> w in working || (taken && w == x)
    requires taken && x in evals ==> x in working
    ensures BestFirst(g, entry, dist, top, kept, order)
  {
    hide EvalsOf;
    forall k, w | 0 <= k < |order| && StillToCome(g, entry, dist, top, kept, order, k, w)
      ensures dist(order[k]) <= w.dist
    {
      EvalsOfGrow(g, entry, dist, order, k, |order| - 1);
      assert w in evals;
      assert StillToCome(g, entry, dist, top, working, order, k, w);
    }
  }

  lemma NextEval(dist: nat -> real, nbs: seq<nat>, order: seq<nat>, i: nat)
    requires i < |nbs|
    ensures NewEvals(dist, nbs[..i + 1], order)
            == NewEvals(dist, nbs[..i], order) + if nbs[i] in order then [] else [Eval(dist, nbs[i])]
  {
    assert nbs[..i + 1][..i] == nbs[..i];
  }

  /** The node popped next joins the order. */
  lemma PoppedNext(g: seq<seq<nat>>, entry: nat, dist: nat -> real, top: real, working: seq<Scored>,
                   frontier: seq<Scored>, seen: set<nat>, evals: seq<Scored>, order: seq<nat>, cur: Scored,
                   rest: seq<Scored>)
    requires Traced(g, entry, dist, top, working, frontier, seen, evals) && Popped(frontier, top, cur, rest)
    requires InTurn(g, entry, dist, top, order) && BestFirst(g, entry, dist, top, working, order)
    requires Members(order, seen) && cur.node !in seen && evals == EvalsOf(g, entry, dist, order, |order|)
    requires order == [] ==> frontier == [Eval(dist, entry)]
    ensures InTurn(g, entry, dist, top, order + [cur.node])
    ensures BestFirst(g, entry, dist, top, working, order + [cur.node])
    ensures Members(order + [cur.node], seen + {cur.node})
    ensures evals == EvalsOf(g, entry, dist, order + [cur.node], |order|)
  {
    hide EvalsOf, BelowTop, Reachable;
    var longer, n := order + [cur.node], |order|;
    EvalsOfPrefix(g, entry, dist, order, [cur.node], n);
    CurrentIs(g, entry, dist, top, working, frontier, seen, evals, cur, rest);
    forall k | 0 <= k < n ensures EvalsOf(g, entry, dist, longer, k) == EvalsOf(g, entry, dist, order, k) {
      EvalsOfPrefix(g, entry, dist, order, [cur.node], k);
    }
    forall k, x | 0 <= k < |longer| && StillToCome(g, entry, dist, top, working, longer, k, x)
      ensures dist(longer[k]) <= x.dist
    {
      if k < n {
        assert longer[..k] == order[..k];
        assert StillToCome(g, entry, dist, top, working, order, k, x);
      } else {
        assert longer[..k] == order;
        assert x.node !in seen;
      }
    }
  }

  lemma CurrentIs(g: seq<seq<nat>>, entry: nat, dist: nat -> real, top: real, working: seq<Scored>,
                  frontier: seq<Scored>, seen: set<nat>, evals: seq<Scored>, cur: Scored, rest: seq<Scored>)
    requires Traced(g, entry, dist, top, working, frontier, seen, evals) && Popped(frontier, top, cur, rest)
    ensures cur.node == 0 || (cur in evals && cur == Eval(dist, cur.node) && cur.dist < top)
    ensures forall x :: x in working && x.node !in seen && x.dist < top ==> dist(cur.node) <= x.dist
    ensures frontier == [Eval(dist, entry)] ==> cur.node == if dist(entry) < top then entry else 0
  {
    hide BelowTop, Reachable;
    if exists x :: x in frontier && x.dist < top {
      assert cur in multiset(frontier);
      assert cur in frontier && cur in evals;
    } else {
      assert frontier[0] in frontier;
    }
  }

  lemma OfferedIsTraced(g: seq<seq<nat>>, entry: nat, dist: nat -> real, top: real,
                        working: seq<Scored>, frontier: seq<Scored>, seen: set<nat>, evals: seq<Scored>,
                        node: nat, nb: nat, kept: seq<Scored>, taken: bool)
    requires WellFormed(g) && node < |g| && node in seen && nb in g[node]
    requires Traced(g, entry, dist, top, working, frontier, seen, evals)
    requires forall w :: w in kept ==> w in working || (taken && w == Eval(dist, nb))
    ensures Traced(g, entry, dist, top, kept, if taken then frontier + [Eval(dist, nb)] else frontier,
                   seen, evals + [Eval(dist, nb)])
  {
    var x := Eval(dist, nb);
    var evals' := evals + [x];
    var frontier' := if taken then frontier + [x] else frontier;
    assert forall y :: y in evals' ==> y in evals || y == x;
    assert forall y :: y in evals ==> y in evals';
    assert forall y :: y in frontier' ==> y in frontier || (taken && y == x);
    assert forall y :: y in frontier ==> y in frontier';
    assert taken ==> x in frontier';
    if BelowTop(g, entry, dist, top) {
      assert Eval(dist, node) in evals;
      ReachableEdge(g, entry, node, nb);
    }
  }

  /** The loop over the neighbours of the node just marked visited, the last of `order`. */
  method Expand(g: seq<seq<nat>>, entry: nat, width: nat, dist: nat -> real, top: real, node: nat, seen: set<nat>,
                ghost order: seq<nat>, working: seq<Scored>, frontier: seq<Scored>, ghost evals: seq<Scored>,
                ghost rejected: multiset<Scored>)
    returns (working': seq<Scored>, frontier': seq<Scored>, ghost evals': seq<Scored>,
        ghost rejected': multiset<Scored>)
    requires WellFormed(g) && entry < |g| && node < |g| && node in seen
    requires Members(order, seen) && order != [] && order[|order| - 1] == node
    requires BeamInv(width, working, evals, rejected)
    requires Traced(g, entry, dist, top, working, frontier, seen, evals)
    requires evals == EvalsOf(g, entry, dist, order, |order| - 1) && BestFirst(g, entry, dist, top, working, order)
    ensures BeamInv(width, working', evals', rejected')
    ensures Traced(g, entry, dist, top, working', frontier', seen, evals')
    ensures evals' == EvalsOf(g, entry, dist, order, |order|) && BestFirst(g, entry, dist, top, working', order)
    ensures evals <= evals' && |evals'| <= |evals| + |g[node]|
    ensures forall nb :: nb in g[node] && (BelowTop(g, entry, dist, top) || nb != 0) ==> Eval(dist, nb) in evals'
  {
    hide Traced, BestFirst, BelowTop, NewEvals, BeamInv;
    working', frontier', evals', rejected' := working, frontier, evals, rejected;
    NoNewEvals(dist, order);
    for i := 0 to |g[node]|
      invariant BeamInv(width, working', evals', rejected')
      invariant Traced(g, entry, dist, top, working', frontier', seen, evals')
      invariant evals' == evals + NewEvals(dist, g[node][..i], order) && |evals'| <= |evals| + i
      invariant BestFirst(g, entry, dist, top, working', order)
      invariant forall j :: 0 <= j < i && (BelowTop(g, entry, dist, top) || g[node][j] != 0) ==>
                  Eval(dist, g[node][j]) in evals'
    {
      var nb := g[node][i];
      NextEval(dist, g[node], order, i);
      if nb in seen {
        SeenIsEvaluated(g, entry, dist, top, working', frontier', seen, evals', nb);
        continue;
      }
      var x := Eval(dist, nb);
      var kept, taken, dropped := Offer(width, working', x, evals', rejected');
      OfferedIsTraced(g, entry, dist, top, working', frontier', seen, evals', node, nb, kept, taken);
      OfferedIsBestFirst(g, entry, dist, top, working', kept, x, taken, evals', order);
      if taken {
        frontier' := frontier' + [x];
      }
      working', evals', rejected' := kept, evals' + [x], dropped;
    }
    assert g[node][..|g[node]|] == g[node] && order[..|order|] == order;
  }

  lemma NoNewEvals(dist: nat -> real, order: seq<nat>)
    ensures NewEvals(dist, [], order) == []
  {
  }

  lemma SeenIsEvaluated(g: seq<seq<nat>>, entry: nat, dist: nat -> real, top: real, working: seq<Scored>,
                        frontier: seq<Scored>, seen: set<nat>, evals: seq<Scored>, nb: nat)
    requires Traced(g, entry, dist, top, working, frontier, seen, evals) && nb in seen
    ensures BelowTop(g, entry, dist, top) || nb != 0 ==> Eval(dist, nb) in evals
  {
  }

  /** What a run is known by: the beam `out`, the distance evaluations `evals` in order, and the
      expanded nodes `visited`. */
  ghost predicate Certified(g: seq<seq<nat>>, entry: nat, width: nat, dist: nat -> real, top: real,
                            out: seq<Scored>, evals: seq<Scored>, visited: set<nat>)
  {
    // the beam is sorted and holds the Cap(width) nearest of everything evaluated
    && SortedByDist(out)
    && KeepsNearest(multiset(out), multiset(evals), Cap(width))
    && evals != [] && evals[0] == Eval(dist, entry)
    && (forall x :: x in evals ==> x.node < |g| && x == Eval(dist, x.node))
    && |evals| <= 1 + EdgeCount(g)
    // node by node: a returned node below the start value was expanded, and apart from node 0 no other was;
    // the neighbours of an expanded node, apart from node 0, were evaluated
    && (forall x :: x in out && x.dist < top ==> x.node in visited)
    && (forall v :: v in visited ==> v == 0 || (dist(v) < top && Eval(dist, v) in evals))
    && Expanded(g, dist, visited, evals, false)
    // with every reachable node but 0 below the start value: every returned node was expanded, every neighbour
    // of an expanded node was evaluated, and nothing outside the reach of the entry was
    && (BelowTop(g, entry, dist, top) ==>
          && (forall x :: x in out ==> x.node in visited)
          && (forall v :: v in visited ==> Eval(dist, v) in evals)
          && Expanded(g, dist, visited, evals, true)
          && (forall x :: x in evals ==> Reachable(g, entry, x.node)))
  }

  method Search(g: seq<seq<nat>>, entry: nat, width: nat, dist: nat -> real, top: real)
    returns (out: seq<Scored>, ghost evals: seq<Scored>, ghost visited: set<nat>, ghost order: seq<nat>)
    requires WellFormed(g) && entry < |g|
    ensures Certified(g, entry, width, dist, top, out, evals, visited)
    // the nodes in the order they were expanded: each after its evaluation, nearest first, and none of those
    // expanded already was evaluated again
    ensures order != [] && Members(order, visited) && InTurn(g, entry, dist, top, order)
    ensures evals == EvalsOf(g, entry, dist, order, |order|)
    ensures BestFirst(g, entry, dist, top, out, order)
    ensures SortedByDist(out) && 1 <= |out| <= Cap(width) && out[0].dist <= dist(entry)
    ensures forall x :: x in out ==> x.node < |g| && x == Eval(dist, x.node)
    // with no distance below the pop loop's start value, node 0 is all that is ever expanded
    ensures AtTop(g, dist, top) ==> visited == {0}
  {
    hide *;
    var seen: set<nat> := {};
    var frontier: seq<Scored> := [Eval(dist, entry)];
    var working: seq<Scored> := [Eval(dist, entry)];
    evals := [Eval(dist, entry)];
    ghost var rejected: multiset<Scored> := multiset{};
    order := [];
    StartedInTurn(g, entry, dist, top);
    Started(g, entry, width, dist, top);

    while frontier != []
      invariant entry < |g| && seen <= AllNodes(|g|)
      invariant BeamInv(width, working, evals, rejected)
      invariant Traced(g, entry, dist, top, working, frontier, seen, evals)
      invariant |evals| <= 1 + DegreeSum(g, seen, |g|)
      invariant Expanded(g, dist, seen, evals, false)
      invariant BelowTop(g, entry, dist, top) ==> Expanded(g, dist, seen, evals, true)
      invariant AtTop(g, dist, top) ==> seen == {} || seen == {0}
      invariant Members(order, seen) && InTurn(g, entry, dist, top, order)
      invariant evals == EvalsOf(g, entry, dist, order, |order|) && BestFirst(g, entry, dist, top, working, order)
      invariant order == [] ==> frontier == [Eval(dist, entry)]
      invariant frontier == [] ==> seen != {}
      decreases AllNodes(|g|) - seen, |frontier|
    {
      var cur, rest := PopNearest(frontier, top);
      PoppedIsTraced(g, entry, dist, top, working, frontier, seen, evals, cur, rest);
      if cur.node in seen {
        assert seen + {cur.node} == seen;
        MemberThere(order, seen, cur.node);
        frontier := rest;
        continue;
      }
      PoppedNext(g, entry, dist, top, working, frontier, seen, evals, order, cur, rest);
      frontier := rest;
      order := order + [cur.node];
      DegreeSumAdd(g, seen, cur.node, |g|);
      ghost var before, known := seen, evals;
      seen := seen + {cur.node};
      working, frontier, evals, rejected :=
        Expand(g, entry, width, dist, top, cur.node, seen, order, working, frontier, evals, rejected);
      ExpandedGrows(g, dist, before, known, cur.node, evals, false);
      if BelowTop(g, entry, dist, top) {
        ExpandedGrows(g, dist, before, known, cur.node, evals, true);
      }
    }
    visited := seen;
    out := SortByDist(working);
    SameBeam(g, entry, dist, top, working, out, order);
    Settled(g, entry, dist, top, width, working, seen, evals, rejected, out);
  }

  lemma StartedInTurn(g: seq<seq<nat>>, entry: nat, dist: nat -> real, top: real)
    ensures Members([], {}) && InTurn(g, entry, dist, top, []) && EvalsOf(g, entry, dist, [], 0) == [Eval(dist, entry)]
    ensures BestFirst(g, entry, dist, top, [Eval(dist, entry)], [])
  {
  }

  lemma MemberThere(order: seq<nat>, seen: set<nat>, v: nat)
    requires Members(order, seen) && v in seen
    ensures v in order
  {
  }

  lemma SameBeam(g: seq<seq<nat>>, entry: nat, dist: nat -> real, top: real, working: seq<Scored>, out: seq<Scored>,
                 order: seq<nat>)
    requires multiset(out) == multiset(working) && BestFirst(g, entry, dist, top, working, order)
    ensures BestFirst(g, entry, dist, top, out, order)
  {
    hide EvalsOf;
    forall x | x in out ensures x in working {
      assert x in multiset(out);
      assert x in multiset(working);
    }
    forall k, x | 0 <= k < |order| && StillToCome(g, entry, dist, top, out, order, k, x)
      ensures dist(order[k]) <= x.dist
    {
      assert StillToCome(g, entry, dist, top, working, order, k, x);
    }
  }

  lemma PoppedIsTraced(g: seq<seq<nat>>, entry: nat, dist: nat -> real, top: real, working: seq<Scored>,
                       frontier: seq<Scored>, seen: set<nat>, evals: seq<Scored>, cur: Scored, rest: seq<Scored>)
    requires Traced(g, entry, dist, top, working, frontier, seen, evals)
    requires Popped(frontier, top, cur, rest)
    ensures cur.node < |g|
    ensures AtTop(g, dist, top) ==> cur.node == 0
    ensures Traced(g, entry, dist, top, working, rest, seen + {cur.node}, evals)
  {
    assert frontier[0] in evals;
    forall x | x in rest ensures x in frontier {
      assert x in multiset(rest);
    }
    if exists x :: x in frontier && x.dist < top {
      assert cur in multiset(frontier);
      forall x | x in frontier ensures x in rest || x == cur {
        assert x in multiset(frontier);
      }
    } else if BelowTop(g, entry, dist, top) {
      forall x | x in frontier ensures x.node == 0 {
        assert Reachable(g, entry, x.node);
      }
    }
  }

  lemma ExpandedGrows(g: seq<seq<nat>>, dist: nat -> real, before: set<nat>, known: seq<Scored>, node: nat,
                      evals: seq<Scored>, all: bool)
    requires known <= evals && node < |g| && Expanded(g, dist, before, known, all)
    requires forall nb :: nb in g[node] && (all || nb != 0) ==> Eval(dist, nb) in evals
    ensures Expanded(g, dist, before + {node}, evals, all)
  {
    forall v, nb | v in before && v < |g| && nb in g[v] && (all || nb != 0) ensures Eval(dist, nb) in evals {
      assert Eval(dist, nb) in known;
    }
  }

  lemma Started(g: seq<seq<nat>>, entry: nat, width: nat, dist: nat -> real, top: real)
    requires entry < |g|
    ensures var e := [Eval(dist, entry)];
      && BeamInv(width, e, e, multiset{})
      && Traced(g, entry, dist, top, e, e, {}, e)
      && Expanded(g, dist, {}, e, false) && Expanded(g, dist, {}, e, true)
    ensures DegreeSum(g, {}, |g|) == 0
  {
    ReachableEntry(g, entry);
    EmptyDegreeSum(g, |g|);
  }

  lemma Settled(g: seq<seq<nat>>, entry: nat, dist: nat -> real, top: real, width: nat, working: seq<Scored>,
                seen: set<nat>, evals: seq<Scored>, rejected: multiset<Scored>, out: seq<Scored>)
    requires BeamInv(width, working, evals, rejected)
    requires Traced(g, entry, dist, top, working, [], seen, evals)
    requires |evals| <= 1 + DegreeSum(g, seen, |g|)
    requires Expanded(g, dist, seen, evals, false)
    requires BelowTop(g, entry, dist, top) ==> Expanded(g, dist, seen, evals, true)
    requires multiset(out) == multiset(working) && SortedByDist(out)
    requires entry < |g|
    ensures Certified(g, entry, width, dist, top, out, evals, seen)
    ensures 1 <= |out| <= Cap(width) && out[0].dist <= dist(entry)
    ensures forall x :: x in out ==> x.node < |g| && x == Eval(dist, x.node)
  {
    hide SortedByDist, KeepsNearest, DegreeSum, BeamInv, Expanded, BelowTop, Reachable, Cap;
    DegreeSumMono(g, seen, |g|);
    BeamInvKeepsNearest(width, working, evals, rejected);
    SettledBeam(width, working, evals, rejected, out);
  }

  lemma SettledBeam(width: nat, working: seq<Scored>, evals: seq<Scored>, rejected: multiset<Scored>, out: seq<Scored>)
    requires BeamInv(width, working, evals, rejected) && evals != []
    requires multiset(out) == multiset(working) && SortedByDist(out)
    ensures 1 <= |out| <= Cap(width) && out[0].dist <= evals[0].dist
    ensures forall x :: x in out ==> x in working && x in evals
  {
    assert |multiset(out)| == |multiset(working)|;
    forall x | x in out ensures x in working && x in evals {
      assert x in multiset(out);
      assert x in multiset(evals);
    }
    assert out[0] in multiset(out);
    assert evals[0] in multiset(evals);
    if evals[0] !in out {
      assert evals[0] in rejected;
    }
  }

  lemma {:induction false} EmptyDegreeSum(g: seq<seq<nat>>, k: nat)
    requires k <= |g|
    ensures DegreeSum(g, {}, k) == 0
  {
    if k > 0 {
      EmptyDegreeSum(g, k - 1);
    }
  }

  // ----- which nodes are evaluated, and how often -----

  lemma LastNewEval(dist: nat -> real, nbs: seq<nat>, order: seq<nat>)
    requires nbs != []
    ensures var n := |nbs| - 1;
      var rest := NewEvals(dist, nbs[..n], order);
      NewEvals(dist, nbs, order) == if nbs[n] in order then rest else rest + [Eval(dist, nbs[n])]
  {
    var rest := NewEvals(dist, nbs[..|nbs| - 1], order);
    assert rest + [] == rest;
  }

  lemma {:induction false} NewEvalsAre(dist: nat -> real, nbs: seq<nat>, order: seq<nat>, v: nat)
    ensures multiset(NewEvals(dist, nbs, order))[Eval(dist, v)] == if v in order then 0 else multiset(nbs)[v]
  {
    if nbs != [] {
      var n := |nbs| - 1;
      var last := nbs[n];
      NewEvalsAre(dist, nbs[..n], order, v);
      LastNewEval(dist, nbs, order);
      hide NewEvals;
      assert nbs == nbs[..n] + [last];
      CountOfLast(nbs[..n], last, v);
      CountOfLast(NewEvals(dist, nbs[..n], order), Eval(dist, last), Eval(dist, v));
    }
  }

  /** How often node `v` stands in the lists of the first `n` expanded nodes, not counting those expanded after it
      or being it. */
  function Meetings(g: seq<seq<nat>>, order: seq<nat>, v: nat, n: nat): nat
    requires n <= |order|
  {
    if n == 0 then 0
    else
      Meetings(g, order, v, n - 1) +
      if v in order[..n] || order[n - 1] >= |g| then 0 else multiset(g[order[n - 1]])[v]
  }

  lemma LastEvals(g: seq<seq<nat>>, entry: nat, dist: nat -> real, order: seq<nat>, v: nat, n: nat)
    requires 0 < n <= |order|
    ensures multiset(EvalsOf(g, entry, dist, order, n))[Eval(dist, v)]
            == multiset(EvalsOf(g, entry, dist, order, n - 1))[Eval(dist, v)]
               + if order[n - 1] < |g| then multiset(NewEvals(dist, g[order[n - 1]], order[..n]))[Eval(dist, v)] else 0
  {
    hide NewEvals;
    var before := EvalsOf(g, entry, dist, order, n - 1);
    if order[n - 1] < |g| {
      CountOfBoth(before, NewEvals(dist, g[order[n - 1]], order[..n]), Eval(dist, v));
    } else {
      assert before + [] == before;
    }
  }

  lemma NoEvals(g: seq<seq<nat>>, entry: nat, dist: nat -> real, order: seq<nat>, v: nat)
    ensures multiset(EvalsOf(g, entry, dist, order, 0))[Eval(dist, v)] == if v == entry then 1 else 0
  {
  }

  /** A node is evaluated once for every time it stands in the list of a node expanded before it, the entry once
      more; expanded nodes are not evaluated again. */
  lemma {:induction false} EvaluationsCounted(g: seq<seq<nat>>, entry: nat, dist: nat -> real, order: seq<nat>, v: nat,
                                              n: nat)
    requires n <= |order|
    ensures multiset(EvalsOf(g, entry, dist, order, n))[Eval(dist, v)]
            == Meetings(g, order, v, n) + if v == entry then 1 else 0
  {
    hide EvalsOf, NewEvals;
    if n > 0 {
      EvaluationsCounted(g, entry, dist, order, v, n - 1);
      LastEvals(g, entry, dist, order, v, n);
      if order[n - 1] < |g| {
        NewEvalsAre(dist, g[order[n - 1]], order[..n], v);
      }
    } else {
      NoEvals(g, entry, dist, order, v);
    }
  }

  lemma {:induction false} NoMoreMeetings(g: seq<seq<nat>>, order: seq<nat>, v: nat, k: nat, n: nat)
    requires k <= n <= |order| && k < |order| && order[k] == v
    ensures Meetings(g, order, v, n) == Meetings(g, order, v, k)
    decreases n
  {
    if k < n {
      NoMoreMeetings(g, order, v, k, n - 1);
      assert order[..n][k] == v;
    }
  }

  /** An entry below the start value is evaluated exactly once. */
  lemma EntryEvaluatedOnce(g: seq<seq<nat>>, entry: nat, dist: nat -> real, top: real, order: seq<nat>)
    requires order != [] && InTurn(g, entry, dist, top, order) && dist(entry) < top
    ensures multiset(EvalsOf(g, entry, dist, order, |order|))[Eval(dist, entry)] == 1
  {
    hide EvalsOf;
    EvaluationsCounted(g, entry, dist, order, entry, |order|);
    NoMoreMeetings(g, order, entry, 0, |order|);
  }

  lemma {:induction false} NewEvalAt(dist: nat -> real, nbs: seq<nat>, order: seq<nat>, i: nat)
    requires i < |NewEvals(dist, nbs, order)|
    ensures var x := NewEvals(dist, nbs, order)[i]; x.node in nbs && x.node !in order && x == Eval(dist, x.node)
  {
    if nbs != [] {
      var n := |nbs| - 1;
      if i < |NewEvals(dist, nbs[..n], order)| {
        NewEvalAt(dist, nbs[..n], order, i);
      }
    }
  }

  /** Every evaluation but the first is of a neighbour of an expanded node that had not been expanded by then. */
  lemma {:induction false} EvaluatedFor(g: seq<seq<nat>>, entry: nat, dist: nat -> real, order: seq<nat>, n: nat,
                                        i: nat)
    returns (k: nat)
    requires n <= |order| && 0 < i < |EvalsOf(g, entry, dist, order, n)|
    ensures k < n && order[k] < |g|
    ensures var x := EvalsOf(g, entry, dist, order, n)[i]; x.node in g[order[k]] && x.node !in order[..k + 1]
  {
    hide NewEvals;
    var before := EvalsOf(g, entry, dist, order, n - 1);
    if i < |before| {
      k := EvaluatedFor(g, entry, dist, order, n - 1, i);
    } else {
      k := n - 1;
      NewEvalAt(dist, g[order[n - 1]], order[..n], i - |before|);
    }
  }

  // ----- what the certificate gives a caller -----

  /** A neighbour of a returned node below the start value is returned too, or lost against a full beam;
      for the neighbour 0 the nodes on the way have to be below it too. */
  lemma LocallyOptimal(g: seq<seq<nat>>, entry: nat, width: nat, dist: nat -> real, top: real,
                       out: seq<Scored>, evals: seq<Scored>, visited: set<nat>, x: Scored, nb: nat)
    requires Certified(g, entry, width, dist, top, out, evals, visited)
    requires x in out && x.node < |g| && nb in g[x.node]
    requires if nb == 0 then BelowTop(g, entry, dist, top) else x.dist < top
    ensures Eval(dist, nb) in out || (|out| == Cap(width) && forall y :: y in out ==> y.dist <= dist(nb))
  {
    var e := Eval(dist, nb);
    assert e in evals;
    if e !in out {
      LeftOut(out, evals, Cap(width), e);
    }
  }

  lemma LeftOut(out: seq<Scored>, evals: seq<Scored>, cap: nat, e: Scored)
    requires KeepsNearest(multiset(out), multiset(evals), cap)
    requires e in evals && e !in out
    ensures |out| == cap && |evals| > cap && forall y :: y in out ==> y.dist <= e.dist
  {
    var rest := multiset(evals) - multiset(out);
    assert e in multiset(evals) && e !in multiset(out);
    assert multiset(evals) == multiset(out) + rest;
    assert multiset{e} <= rest && |rest - multiset{e}| == |rest| - 1;
    forall y | y in out ensures y.dist <= e.dist {
      assert y in multiset(out);
    }
  }

  /** A returned node other than node 0 was expanded if and only if its distance is below the start value. */
  lemma ExpandedIffBelowTop(g: seq<seq<nat>>, entry: nat, width: nat, dist: nat -> real, top: real,
                            out: seq<Scored>, evals: seq<Scored>, visited: set<nat>, x: Scored)
    requires Certified(g, entry, width, dist, top, out, evals, visited) && x in out && x.node != 0
    ensures x.node in visited <==> x.dist < top
  {
    assert x in multiset(out);
    assert x in multiset(evals);
  }

  /** With every reachable node but 0 below the start value, a beam as wide as the number of evaluations
      explores exactly what the entry reaches, and its first result is a nearest reachable node. */
  lemma ReachesAll(g: seq<seq<nat>>, entry: nat, width: nat, dist: nat -> real, top: real,
                   out: seq<Scored>, evals: seq<Scored>, visited: set<nat>)
    requires WellFormed(g) && entry < |g|
    requires Certified(g, entry, width, dist, top, out, evals, visited) && BelowTop(g, entry, dist, top)
    requires |evals| <= Cap(width)
    ensures forall v :: v in visited <==> Reachable(g, entry, v)
    ensures out != [] && Reachable(g, entry, out[0].node)
    ensures forall v :: Reachable(g, entry, v) ==> out[0].dist <= dist(v)
  {
    forall e | e in evals ensures e in out && e.node in visited {
      if e !in out {
        LeftOut(out, evals, Cap(width), e);
      }
    }
    assert evals[0] in out;
    forall v | Reachable(g, entry, v) ensures v in visited && out[0].dist <= dist(v) {
      var path :| IsPath(g, path) && path[0] == entry && path[|path| - 1] == v;
      forall u, nb | u in visited && u < |g| && nb in g[u] ensures nb in visited {
        assert Eval(dist, nb) in evals;
      }
      ClosedHoldsPath(g, visited, path);
      assert Eval(dist, v) in out;
    }
    forall v | v in visited ensures Reachable(g, entry, v) {
      assert Eval(dist, v) in evals;
    }
    assert out[0] in multiset(out);
    assert out[0] in evals;
  }

  /** With a beam as wide as the number of evaluations, the expanded nodes are exactly the reachable ones if
      and only if every reachable node but 0 is below the start value; then the first result is nearest. */
  lemma ExhaustiveSearch(g: seq<seq<nat>>, entry: nat, width: nat, dist: nat -> real, top: real,
                         out: seq<Scored>, evals: seq<Scored>, visited: set<nat>)
    requires WellFormed(g) && entry < |g|
    requires Certified(g, entry, width, dist, top, out, evals, visited)
    requires |evals| <= Cap(width)
    ensures (forall v: nat :: v in visited <==> Reachable(g, entry, v)) <==> BelowTop(g, entry, dist, top)
    ensures BelowTop(g, entry, dist, top) ==>
              && out != [] && Reachable(g, entry, out[0].node)
              && forall v :: Reachable(g, entry, v) ==> out[0].dist <= dist(v)
  {
    if BelowTop(g, entry, dist, top) {
      ReachesAll(g, entry, width, dist, top, out, evals, visited);
    } else {
      var v: nat :| v != 0 && Reachable(g, entry, v) && !(dist(v) < top);
      assert v !in visited;
    }
  }

  /** The width a caller can pick in advance to make the search exhaustive. */
  lemma WidthForExhaustiveSearch(g: seq<seq<nat>>, entry: nat, width: nat, dist: nat -> real, top: real,
                                 out: seq<Scored>, evals: seq<Scored>, visited: set<nat>)
    requires WellFormed(g) && entry < |g|
    requires Certified(g, entry, width, dist, top, out, evals, visited)
    requires 1 + EdgeCount(g) <= width
    ensures (forall v: nat :: v in visited <==> Reachable(g, entry, v)) <==> BelowTop(g, entry, dist, top)
    ensures BelowTop(g, entry, dist, top) ==>
              forall v :: Reachable(g, entry, v) ==> out != [] && out[0].dist <= dist(v)
  {
    ExhaustiveSearch(g, entry, width, dist, top, out, evals, visited);
  }

  // ----- a node at the start value -----

  /** A chain of three nodes. */
  function Chain(): seq<seq<nat>> {
    [[1], [2], []]
  }

  /** With the last node of the chain at the start value or above, it is reachable and never expanded, however
      wide the beam. */
  lemma FarNodeNeverExpanded(width: nat, dist: nat -> real, top: real, out: seq<Scored>, evals: seq<Scored>,
                             visited: set<nat>)
    requires Certified(Chain(), 0, width, dist, top, out, evals, visited) && top <= dist(2)
    ensures WellFormed(Chain()) && Reachable(Chain(), 0, 2) && 2 !in visited
  {
    ReachableEntry(Chain(), 0);
    ReachableEdge(Chain(), 0, 0, 1);
    ReachableEdge(Chain(), 0, 1, 2);
  }
}
