/** When a query that joins a running sweep is charged (scripts/join_sim.cpp:300-351): a query with at
    least one leaf the sweep covers always completes after it arrived; one without can be merged in
    behind the part already swept and be charged a completion before its own arrival. */
module JoinTiming {
  import opened Scheduler

  // ----- ranks in the merged leaf list -----

  lemma {:induction false} LowerBoundMono(s: seq<nat>, x: nat, y: nat)
    requires x <= y
    ensures LowerBound(s, x) <= LowerBound(s, y)
  {
    if s != [] && s[0] < x {
      LowerBoundMono(s[1..], x, y);
    }
  }

  lemma RankOfCons(a: nat, s: seq<nat>, y: nat)
    ensures LowerBound([a] + s, y) == if a < y then 1 + LowerBound(s, y) else 0
  {
    assert ([a] + s)[1..] == s;
  }

  /** What a sorted list's first entry says about the others. */
  lemma SortedCons(s: seq<nat>)
    requires StrictlySorted(s) && s != []
    ensures StrictlySorted(s[1..]) && s == [s[0]] + s[1..]
    ensures forall x :: x <= s[0] ==> x !in s[1..]
    ensures forall x :: x in s <==> x == s[0] || x in s[1..]
  {
  }

  lemma InsertCons(s: seq<nat>, x: nat)
    requires s != []
    ensures x < s[0] ==> InsertUnique(s, x) == [x] + s
    ensures x == s[0] ==> InsertUnique(s, x) == s
    ensures x > s[0] ==> InsertUnique(s, x) == [s[0]] + InsertUnique(s[1..], x)
  {
  }

  lemma {:induction false} InsertedRank(s: seq<nat>, x: nat, y: nat)
    requires StrictlySorted(s) && x < y
    ensures LowerBound(InsertUnique(s, x), y) == LowerBound(s, y) + if x in s then 0 else 1
    ensures |InsertUnique(s, x)| == |s| + if x in s then 0 else 1
  {
    if s != [] {
      SortedCons(s);
      InsertCons(s, x);
      RankOfCons(s[0], s[1..], y);
      RankOfCons(x, s, y);
      hide *;
      if s[0] < x {
        InsertedRank(s[1..], x, y);
        RankOfCons(s[0], InsertUnique(s[1..], x), y);
      }
    } else {
      RankOfCons(x, [], y);
      assert [x] + [] == [x];
    }
  }

  lemma {:induction false} InsertedItself(s: seq<nat>, y: nat)
    requires StrictlySorted(s)
    ensures LowerBound(InsertUnique(s, y), y) == LowerBound(s, y)
    ensures |InsertUnique(s, y)| == |s| + if y in s then 0 else 1
    decreases |s|
  {
    if s != [] {
      SortedCons(s);
      InsertCons(s, y);
      RankOfCons(s[0], s[1..], y);
      RankOfCons(y, s, y);
      hide *;
      if s[0] < y {
        InsertedItself(s[1..], y);
        RankOfCons(s[0], InsertUnique(s[1..], y), y);
      }
    } else {
      RankOfCons(y, [], y);
      assert [y] + [] == [y];
    }
  }

  lemma {:induction false} MergeLast(s: seq<nat>, xs: seq<nat>, y: nat)
    ensures Merge(s, xs + [y]) == InsertUnique(Merge(s, xs), y)
    decreases |xs|
  {
    if xs == [] {
      assert [] + [y] == [y] && [y][1..] == [];
    } else {
      MergeLast(InsertUnique(s, xs[0]), xs[1..], y);
      assert (xs + [y])[1..] == xs[1..] + [y];
    }
  }

  lemma SortedFront(xs: seq<nat>, n: nat)
    requires StrictlySorted(xs) && n < |xs|
    ensures xs[n] !in xs[..n] && StrictlySorted(xs[..n])
  {
  }

  lemma ExtraLast(s: seq<nat>, xs: seq<nat>)
    requires xs != []
    ensures Extra(s, xs) == Extra(s, xs[..|xs| - 1]) + if xs[|xs| - 1] in s then 0 else 1
  {
  }

  lemma NothingMerged(s: seq<nat>)
    ensures Merge(s, []) == s && Extra(s, []) == 0
  {
  }

  /** Merging moves a rank past all merged leaves up by the number of leaves that were new. */
  lemma {:induction false} MergedRank(s: seq<nat>, xs: seq<nat>, y: nat)
    requires StrictlySorted(s) && StrictlySorted(xs) && forall i :: 0 <= i < |xs| ==> xs[i] < y
    ensures LowerBound(Merge(s, xs), y) == LowerBound(s, y) + Extra(s, xs)
    ensures |Merge(s, xs)| == |s| + Extra(s, xs)
  {
    hide *;
    if xs == [] {
      NothingMerged(s);
    } else {
      var n := |xs| - 1;
      SortedFront(xs, n);
      MergedRank(s, xs[..n], y);
      assert xs == xs[..n] + [xs[n]];
      MergeLast(s, xs[..n], xs[n]);
      MergeSorted(s, xs[..n]);
      InsertedRank(Merge(s, xs[..n]), xs[n], y);
      ExtraLast(s, xs);
    }
  }

  lemma {:induction false} LastRankIsLast(merged: seq<nat>, probe: seq<nat>)
    requires probe != [] && StrictlySorted(probe)
    ensures LastRank(merged, probe) == LowerBound(merged, probe[|probe| - 1])
  {
    var n := |probe| - 1;
    if n > 0 {
      LastRankIsLast(merged, probe[..n]);
      LowerBoundMono(merged, probe[n - 1], probe[n]);
    } else {
      assert LastRank(merged, []) == 0;
    }
  }

  /** How far the last leaf reaches in the merged list, and the list's length, from the sweep's own list. */
  lemma JoinedRank(s: seq<nat>, probe: seq<nat>)
    requires StrictlySorted(s) && StrictlySorted(probe) && probe != []
    ensures var last := probe[|probe| - 1];
      LastRank(Merge(s, probe), probe) + 1 == LowerBound(s, last) + Extra(s, probe) + if last in s then 1 else 0
    ensures |Merge(s, probe)| == |s| + Extra(s, probe)
  {
    var n := |probe| - 1;
    var last := probe[n];
    assert probe == probe[..n] + [last];
    MergedRank(s, probe[..n], last);
    MergeLast(s, probe[..n], last);
    MergeSorted(s, probe[..n]);
    InsertedItself(Merge(s, probe[..n]), last);
    LastRankIsLast(Merge(s, probe), probe);
    assert last in Merge(s, probe[..n]) <==> last in s;
  }

  // ----- completion against arrival -----

  ghost predicate CoversSome(leaves: seq<nat>, probe: seq<nat>) {
    exists i :: 0 <= i < |probe| && probe[i] in leaves
  }

  function Product(x: real, y: real): real {
    x * y
  }

  lemma PortionAgainst(part: real, n: real, wall: real, swept: real)
    requires n > 0.0
    ensures Portion(part, n, wall) > swept <==> Product(part, wall) > Product(swept, n)
  {
    var f := part / n;
    assert f * n == part;
    assert Product(part, wall) - Product(swept, n) == (f * wall - swept) * n;
    if f * wall > swept {
      assert (f * wall - swept) * n > 0.0;
    } else {
      assert (swept - f * wall) * n >= 0.0;
    }
  }

  /** A covered leaf that is not yet swept keeps its query ahead of the sweep, however many leaves join. */
  lemma StaysAhead(rank: real, extra: real, n: real, wall: real, more: real, swept: real, part: real)
    requires 0.0 <= rank <= n - 1.0 && extra >= 0.0 && wall > 0.0 && more >= 0.0 && part >= rank + 1.0 + extra
    requires Product(swept, n) <= Product(rank, wall)
    ensures Product(part, wall + more) > Product(swept, n + extra)
  {
    var x := rank + 1.0 + extra;
    assert (part - x) * (wall + more) >= 0.0;
    assert x * more >= 0.0;
    CrossTerms(rank, extra, n, wall, swept);
  }

  lemma CrossTerms(rank: real, extra: real, n: real, wall: real, swept: real)
    requires 0.0 <= rank <= n - 1.0 && extra >= 0.0 && wall > 0.0
    requires Product(swept, n) <= Product(rank, wall)
    ensures Product(rank + 1.0 + extra, wall) > Product(swept, n + extra)
  {
    // multiply by n and use swept * n <= rank * wall
    var gap := rank * wall - swept * n;
    var ahead := n * (1.0 + extra) - rank * extra;
    assert ahead == n + extra * (n - rank);
    assert extra * (n - rank) >= 0.0;
    assert n * ((rank + 1.0 + extra) * wall - swept * (n + extra)) == ahead * wall + gap * (n + extra);
    assert ahead * wall > 0.0 && gap * (n + extra) >= 0.0;
    SignOf(n, (rank + 1.0 + extra) * wall - swept * (n + extra));
  }

  lemma SignOf(n: real, x: real)
    requires n > 0.0 && n * x > 0.0
    ensures x > 0.0
  {
  }

  /** What an adopted query with a covered leaf knows: that leaf is not yet swept. */
  lemma CoveredNotSwept(w: Sweep, probe: seq<nat>, t: real, k: nat)
    requires SweepOk(w, t) && t < w.End() && Adoptable(w, probe, t) && k < |probe| && probe[k] in w.leaves
    ensures LowerBound(w.leaves, probe[k]) < |w.leaves|
    ensures Product(t - w.start, |w.leaves| as real) <= Product(LowerBound(w.leaves, probe[k]) as real, w.wall)
  {
    hide StrictlySorted, LowerBound, Sweep.Done, Portion;
    var n := |w.leaves| as real;
    CoveredRank(w.leaves, probe[k]);
    SweptWithinList(w, t);
    var rank := LowerBound(w.leaves, probe[k]) as real;
    assert !(rank < w.Done(t));
    PortionAgainst(t - w.start, w.wall, n, rank);
  }

  lemma {:induction false} CoveredRank(s: seq<nat>, x: nat)
    requires x in s
    ensures LowerBound(s, x) < |s|
  {
    var i :| 0 <= i < |s| && s[i] == x;
    assert !(i < LowerBound(s, x));
  }

  /** One covered leaf is enough for a joiner to complete after it arrived. */
  lemma CoveredJoinIsLater(c: Config, w: Sweep, probe: seq<nat>, t: real)
    requires Sound(c) && SweepOk(w, t) && t < w.End() && StrictlySorted(probe) && probe != []
    requires Adoptable(w, probe, t) && CoversSome(w.leaves, probe)
    ensures Merge(w.leaves, probe) != [] && JoinDone(c, w, probe) > t
    ensures (forall x :: x in probe ==> x in w.leaves) ==> Adopt(c, w, probe) == w
  {
    hide *;
    SoundThreads(c);
    var k := SomeCovered(w.leaves, probe);
    var extra, part := Extra(w.leaves, probe), LastRank(Merge(w.leaves, probe), probe) + 1;
    CoveredNotSwept(w, probe, t, k);
    SweepSorted(w, t);
    JoinedRank(w.leaves, probe);
    RankAhead(w.leaves, probe, k);
    ExtraWallNonNegative(c, extra);
    StaysAhead(LowerBound(w.leaves, probe[k]) as real, extra as real, |w.leaves| as real, w.wall,
               ExtraWall(c, extra), t - w.start, part as real);
    PortionAgainst(part as real, |Merge(w.leaves, probe)| as real, w.wall + ExtraWall(c, extra), t - w.start);
    JoinDoneIs(c, w, probe);
    AllCovered(c, w, probe, t);
  }

  lemma SoundThreads(c: Config)
    requires Sound(c)
    ensures c.threads >= 1
  {
  }

  lemma SomeCovered(leaves: seq<nat>, probe: seq<nat>) returns (k: nat)
    requires CoversSome(leaves, probe)
    ensures k < |probe| && probe[k] in leaves
  {
    k :| 0 <= k < |probe| && probe[k] in leaves;
  }

  lemma SweepSorted(w: Sweep, t: real)
    requires SweepOk(w, t) && t < w.End()
    ensures StrictlySorted(w.leaves) && w.wall > 0.0 && w.leaves != []
  {
  }

  lemma JoinDoneIs(c: Config, w: Sweep, probe: seq<nat>)
    requires c.threads >= 1 && Merge(w.leaves, probe) != []
    ensures JoinDone(c, w, probe)
            == w.start + Portion((LastRank(Merge(w.leaves, probe), probe) + 1) as real,
                                 |Merge(w.leaves, probe)| as real,
                                 w.wall + ExtraWall(c, Extra(w.leaves, probe)))
  {
    hide Portion, ExtraWall, Merge, Extra, LastRank;
  }

  lemma AllCovered(c: Config, w: Sweep, probe: seq<nat>, t: real)
    requires Sound(c) && SweepOk(w, t)
    ensures (forall x :: x in probe ==> x in w.leaves) ==> Adopt(c, w, probe) == w
  {
    MergeSorted(w.leaves, probe);
    ExtraWallNonNegative(c, 0);
  }

  /** The last leaf reaches at least as far as any covered one. */
  lemma RankAhead(s: seq<nat>, probe: seq<nat>, k: nat)
    requires StrictlySorted(s) && StrictlySorted(probe) && k < |probe| && probe[k] in s
    ensures var last := probe[|probe| - 1];
      LowerBound(s, last) + (if last in s then 1 else 0) >= LowerBound(s, probe[k]) + 1
  {
    var last := probe[|probe| - 1];
    if k < |probe| - 1 {
      BeyondCovered(s, probe[k], last);
    }
  }

  lemma BeyondCovered(s: seq<nat>, x: nat, y: nat)
    requires StrictlySorted(s) && x in s && x < y
    ensures LowerBound(s, y) > LowerBound(s, x)
  {
    var i :| 0 <= i < |s| && s[i] == x;
    BelowCounts(s, i, y);
    assert LowerBound(s, x) <= i;
  }

  lemma {:induction false} BelowCounts(s: seq<nat>, i: nat, y: nat)
    requires StrictlySorted(s) && i < |s| && s[i] < y
    ensures i < LowerBound(s, y)
  {
    if i > 0 {
      BelowCounts(s[1..], i - 1, y);
    }
  }

  /** Of a query none of whose leaves the sweep covers, the part of the longer sweep up to its last leaf. */
  ghost predicate LastLeafAhead(c: Config, w: Sweep, probe: seq<nat>, t: real)
    requires c.threads >= 1 && probe != []
  {
    Product((LowerBound(w.leaves, probe[|probe| - 1]) + |probe|) as real, w.wall + ExtraWall(c, |probe|))
    > Product(t - w.start, (|w.leaves| + |probe|) as real)
  }

  /** An adopted query completes after it arrived if and only if the sweep covers one of its leaves, or its
      last leaf's place, counted in the sweep's own list, lies far enough ahead. */
  lemma JoinedLaterIff(c: Config, w: Sweep, probe: seq<nat>, t: real)
    requires Sound(c) && SweepOk(w, t) && t < w.End() && StrictlySorted(probe) && probe != []
    requires Adoptable(w, probe, t)
    ensures Merge(w.leaves, probe) != []
    ensures JoinDone(c, w, probe) > t <==> CoversSome(w.leaves, probe) || LastLeafAhead(c, w, probe, t)
  {
    hide StrictlySorted, Portion, ExtraWall, Merge, Extra, LowerBound, LastRank, Product, Adoptable;
    assert probe[0] in Merge(w.leaves, probe);
    if CoversSome(w.leaves, probe) {
      CoveredJoinIsLater(c, w, probe, t);
    } else {
      JoinedRank(w.leaves, probe);
      AllExtra(w.leaves, probe);
      var part := LastRank(Merge(w.leaves, probe), probe) + 1;
      PortionAgainst(part as real, |Merge(w.leaves, probe)| as real, w.wall + ExtraWall(c, |probe|), t - w.start);
    }
  }

  lemma {:induction false} AllExtra(leaves: seq<nat>, probe: seq<nat>)
    requires !CoversSome(leaves, probe)
    ensures Extra(leaves, probe) == |probe|
    ensures forall i :: 0 <= i < |probe| ==> probe[i] !in leaves
  {
    if probe != [] {
      AllExtra(leaves, probe[..|probe| - 1]);
    }
  }

  // ----- an instance in a run -----

  /** Two queries that share no leaf, one thread, a new arrival every 5 seconds, no idle gap; the deadline is
      the script's own. */
  function TwoQueries(): Config {
    Config([[5, 6], [1]], 8.0, 1.0, 0.0, 1, 0.0, 0.1, 1, 5.0, 2, true)
  }

  lemma TwoQueriesSound()
    ensures Sound(TwoQueries())
    ensures Probe(TwoQueries(), 0) == [5, 6] && Probe(TwoQueries(), 1) == [1]
    ensures QueryOf(TwoQueries(), 0) == 0 && QueryOf(TwoQueries(), 1) == 1
    ensures ArrivalTime(TwoQueries(), 0) == 0.0 && ArrivalTime(TwoQueries(), 1) == 5.0
  {
  }

  lemma FirstUnion()
    ensures Sound(TwoQueries()) && UnionLeaves(TwoQueries(), [Waiting(0, 0.0, 0)]) == [5, 6]
    ensures SweepWall(TwoQueries(), [Waiting(0, 0.0, 0)]) == 10.0
  {
    var c, m := TwoQueries(), Waiting(0, 0.0, 0);
    assert [m][..0] == [];
    assert [5, 6][1..] == [6] && [6][1..] == [];
    assert InsertUnique([], 5) == [5] && InsertUnique([5], 6) == [5, 6];
    assert Merge([5, 6], []) == [5, 6];
    assert Merge([5], [6]) == [5, 6];
    assert Merge([], [5, 6]) == [5, 6];
    assert UnionLeaves(c, []) == [] && Scans(c, []) == 0;
    assert c.leafPos[0] == [5, 6];
    assert Scans(c, [m]) == 2;
  }

  function AfterFirst(): State {
    State([Sweep(0.0, 10.0, [5, 6])], [], [10.0], 1, 0.0, [Charge(0, 0.0, 10.0)], 0.0)
  }

  function AfterSecond(): State {
    State([Sweep(0.0, 11.0, [1, 5, 6])], [], [10.0, 0.0], 2, 5.0,
          [Charge(0, 0.0, 10.0), Charge(1, 5.0, 11.0 / 3.0)], 5.0)
  }

  /** The first event: query 0 arrives and leaves at once in a sweep of 10 seconds over leaves 5 and 6. */
  lemma FirstEvent()
    ensures Sound(TwoQueries()) && NextEvent(TwoQueries(), Start()) == 0.0
    ensures BeforeDispatch(TwoQueries(), Start()) == State([], [Waiting(0, 0.0, 0)], [], 1, 0.0, [], 0.0)
    ensures Dispatch(TwoQueries(), State([], [Waiting(0, 0.0, 0)], [], 1, 0.0, [], 0.0), 0.0) == AfterFirst()
  {
    TwoQueriesSound();
    FirstUnion();
    hide Sound, Probe, QueryOf, UnionLeaves, SweepWall, ArrivalTime, Portion, Merge;
    var c := TwoQueries();
    assert NextEnd([]) == FAR;
    assert Retire([], 0.0) == [];
    assert [] + [Waiting(0, 0.0, 0)] == [Waiting(0, 0.0, 0)];
    assert Charges([Waiting(0, 0.0, 0)], 10.0) == [Charge(0, 0.0, 10.0)];
    assert Latencies([Charge(0, 0.0, 10.0)]) == [10.0];
  }

  lemma MergedValues()
    ensures Merge([5, 6], [1]) == [1, 5, 6] && Extra([5, 6], [1]) == 1 && LastRank([1, 5, 6], [1]) == 0
  {
    hide LowerBound;
    assert [1][1..] == [] && [1][..0] == [];
    assert InsertUnique([5, 6], 1) == [1, 5, 6];
    assert Merge([1, 5, 6], []) == [1, 5, 6];
    assert LastRank([1, 5, 6], []) == 0;
  }

  lemma UnitExtra()
    ensures ExtraWall(TwoQueries(), 1) == 1.0
  {
  }

  lemma ThirdOfEleven()
    ensures Portion(1.0, 3.0, 11.0) == 11.0 / 3.0
  {
  }

  lemma SecondJoin()
    ensures var c, w := TwoQueries(), Sweep(0.0, 10.0, [5, 6]);
      && Merge([5, 6], [1]) == [1, 5, 6] && Adopt(c, w, [1]) == Sweep(0.0, 11.0, [1, 5, 6])
      && JoinDone(c, w, [1]) == 11.0 / 3.0
  {
    hide Portion, ExtraWall, Merge, Extra, LastRank, LowerBound, InsertUnique;
    MergedValues();
    UnitExtra();
    ThirdOfEleven();
  }

  lemma NextIsArrival()
    ensures Sound(TwoQueries()) && NextArrival(TwoQueries(), AfterFirst()) == 5.0
    ensures NextEvent(TwoQueries(), AfterFirst()) == 5.0
    ensures Retire(AfterFirst().inflight, 5.0) == AfterFirst().inflight
  {
    TwoQueriesSound();
    hide Sound, ArrivalTime;
    var one := AfterFirst().inflight;
    assert one[..0] == [];
    assert NextEnd([]) == FAR && NextEnd(one) == 10.0;
    assert Retire([], 5.0) == [];
  }

  lemma FirstSweepAdopts()
    ensures Adopter(AfterFirst().inflight, [1], 5.0, 0) == 0
  {
    hide LowerBound, Sweep.Done;
    assert Adoptable(AfterFirst().inflight[0], [1], 5.0);
  }

  lemma SecondArrival(s: State)
    requires s == AfterFirst().(now := 5.0)
    ensures Sound(TwoQueries()) && Arrive(TwoQueries(), s, 5.0) == AfterSecond()
  {
    TwoQueriesSound();
    SecondJoin();
    FirstSweepAdopts();
    hide Sound, Probe, QueryOf, Portion, Merge, Adopt, Adopter, JoinDone;
    assert s.inflight[0] == Sweep(0.0, 10.0, [5, 6]);
    assert s.inflight[0 := Sweep(0.0, 11.0, [1, 5, 6])] == [Sweep(0.0, 11.0, [1, 5, 6])];
  }

  /** The second event: query 1 arrives at second 5 and joins the sweep. */
  lemma SecondEvent()
    ensures Sound(TwoQueries()) && NextEvent(TwoQueries(), AfterFirst()) == 5.0
    ensures BeforeDispatch(TwoQueries(), AfterFirst()) == AfterSecond()
    ensures Dispatch(TwoQueries(), AfterSecond(), 5.0) == AfterSecond()
  {
    NextIsArrival();
    SecondArrival(AfterFirst().(now := 5.0));
    hide Sound, NextEvent, NextArrival, Retire, Arrive;
  }

  /** Query 1 shares no leaf with the running sweep, joins it behind the part already swept, and is charged
      11/3 seconds, before its arrival at second 5; the latency recorded for it is 0. */
  lemma UncoveredJoinCanBeCharged()
    ensures Sound(TwoQueries()) && Run(TwoQueries(), 2) == AfterSecond()
    ensures var s := Run(TwoQueries(), 2); s.charges[1].at < s.charges[1].arrival && s.lat[1] == 0.0
  {
    FirstEvent();
    SecondEvent();
    hide Sound, BeforeDispatch, Dispatch, NextEvent, Inv;
    var c := TwoQueries();
    assert Run(c, 0) == Start();
    assert Enabled(c, Start()) && Step(c, Start()) == AfterFirst();
    assert Run(c, 1) == AfterFirst();
    assert Enabled(c, AfterFirst()) && Step(c, AfterFirst()) == AfterSecond();
  }
}
