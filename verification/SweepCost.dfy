/** What a sweep costs and when a window closes (scripts/join_sim.cpp:243-260, 281-287, 362-386), in terms of
    sets of leaves and plain sums. */
module SweepCost {
  import opened Scheduler
  import JoinTiming

  ghost predicate InRange(c: Config, members: seq<Waiting>) {
    forall m :: m in members ==> m.query < |c.leafPos|
  }

  /** The leaves that some member probes. */
  ghost function LeafSet(c: Config, members: seq<Waiting>): (leaves: set<nat>)
    requires InRange(c, members)
    ensures forall x :: x in leaves <==> exists m :: m in members && x in c.leafPos[m.query]
  {
    set m, x | m in members && x in c.leafPos[m.query] :: x
  }

  lemma {:induction false} SortedSize(s: seq<nat>, leaves: set<nat>)
    requires StrictlySorted(s) && forall x :: x in leaves <==> x in s
    ensures |s| == |leaves|
  {
    if s == [] {
      assert leaves == {};
    } else {
      var n := |s| - 1;
      assert s == s[..n] + [s[n]];
      SortedSize(s[..n], leaves - {s[n]});
    }
  }

  lemma {:induction false} UnionMembers(c: Config, members: seq<Waiting>, x: nat)
    requires Sound(c) && InRange(c, members)
    ensures x in UnionLeaves(c, members) <==> exists m :: m in members && x in c.leafPos[m.query]
  {
    hide Sound, Merge, Scans;
    if members != [] {
      var n := |members| - 1;
      assert members == members[..n] + [members[n]];
      UnionMembers(c, members[..n], x);
    }
  }

  /** A sweep covers exactly the leaves its members probe, each once. */
  lemma UnionIsSet(c: Config, members: seq<Waiting>)
    requires Sound(c) && InRange(c, members)
    ensures StrictlySorted(UnionLeaves(c, members))
    ensures forall x :: x in UnionLeaves(c, members) <==> x in LeafSet(c, members)
    ensures |UnionLeaves(c, members)| == |LeafSet(c, members)|
  {
    UnionSorted(c, members);
    hide Sound, UnionLeaves, StrictlySorted;
    forall x ensures x in UnionLeaves(c, members) <==> x in LeafSet(c, members) {
      UnionMembers(c, members, x);
    }
    SortedSize(UnionLeaves(c, members), LeafSet(c, members));
  }

  ghost function Elements(s: seq<nat>): (r: set<nat>)
    ensures forall x :: x in r <==> x in s
  {
    set x | x in s
  }

  /** The leaves of a list that a set does not hold. */
  ghost function Uncovered(leaves: set<nat>, probe: seq<nat>): (rest: set<nat>)
    ensures forall x :: x in rest <==> x in probe && x !in leaves
  {
    set x | x in probe && x !in leaves
  }

  lemma {:induction false} ExtraIsSize(leaves: seq<nat>, probe: seq<nat>, rest: set<nat>)
    requires StrictlySorted(probe) && forall x :: x in rest <==> x in probe && x !in leaves
    ensures Extra(leaves, probe) == |rest|
  {
    if probe == [] {
      assert rest == {};
    } else {
      var n := |probe| - 1;
      assert probe == probe[..n] + [probe[n]];
      if probe[n] in leaves {
        ExtraIsSize(leaves, probe[..n], rest);
      } else {
        ExtraIsSize(leaves, probe[..n], rest - {probe[n]});
      }
    }
  }

  lemma {:induction false} MergeAdds(s: seq<nat>, probe: seq<nat>)
    requires StrictlySorted(s) && StrictlySorted(probe)
    ensures |Merge(s, probe)| == |s| + Extra(s, probe)
  {
    hide StrictlySorted, Merge, Extra;
    var merged, here := Elements(Merge(s, probe)), Elements(s);
    var rest := Uncovered(here, probe);
    MergeSorted(s, probe);
    SortedSize(Merge(s, probe), merged);
    SortedSize(s, here);
    ExtraIsSize(s, probe, rest);
    assert merged == here + rest && here !! rest;
  }

  /** The cost of `n` at `price` each. */
  function Priced(price: real, n: nat): real {
    price * n as real
  }

  /** The wall time a sweep is given, for all its threads: the fixed cost, per distinct leaf, and per scan. */
  lemma WallIs(c: Config, members: seq<Waiting>)
    requires Sound(c) && InRange(c, members)
    ensures Priced(SweepWall(c, members), c.threads)
            == c.fixedCost + Priced(c.perLeaf, |LeafSet(c, members)|) + Priced(c.perScan, Scans(c, members))
  {
    UnionIsSet(c, members);
    var total := WallQuotient(c, members);
    hide *;
    TimesBack(total, c.threads);
  }

  lemma WallQuotient(c: Config, members: seq<Waiting>) returns (total: real)
    requires Sound(c) && InRange(c, members)
    ensures c.threads > 0 && SweepWall(c, members) == total / c.threads as real
    ensures total
            == c.fixedCost + Priced(c.perLeaf, |UnionLeaves(c, members)|) + Priced(c.perScan, Scans(c, members))
  {
    hide UnionLeaves, Scans, StrictlySorted;
    total := c.fixedCost + c.perLeaf * |UnionLeaves(c, members)| as real + c.perScan * Scans(c, members) as real;
  }

  lemma TimesBack(x: real, n: nat)
    requires n > 0
    ensures Priced(x / n as real, n) == x
  {
  }

  /** A sweep without members costs the fixed part only; */
  lemma EmptyWall(c: Config)
    requires Sound(c)
    ensures Priced(SweepWall(c, []), c.threads) == c.fixedCost
  {
    WallIs(c, []);
    assert LeafSet(c, []) == {};
    NothingPriced(c.perLeaf);
    NothingPriced(c.perScan);
  }

  lemma NothingPriced(x: real)
    ensures Priced(x, 0) == 0.0
  {
  }

  /** and one more member adds the leaf cost of those of its leaves that no other member probes, and the
      scan cost of all its leaves. */
  lemma MemberAdds(c: Config, members: seq<Waiting>, m: Waiting)
    requires Sound(c) && InRange(c, members) && m.query < |c.leafPos|
    ensures InRange(c, members + [m])
    ensures Priced(SweepWall(c, members + [m]), c.threads)
            == Priced(SweepWall(c, members), c.threads)
               + Priced(c.perLeaf, |Uncovered(LeafSet(c, members), c.leafPos[m.query])|)
               + Priced(c.perScan, |c.leafPos[m.query]|)
  {
    var more, probe := members + [m], c.leafPos[m.query];
    assert InRange(c, more);
    var rest := Uncovered(LeafSet(c, members), probe);
    OneMoreMember(c, members, m);
    WallIs(c, members);
    WallIs(c, more);
    hide *;
    OverSum(c.perLeaf, |LeafSet(c, members)|, |rest|);
    OverSum(c.perScan, Scans(c, members), |probe|);
  }

  lemma OneMoreMember(c: Config, members: seq<Waiting>, m: Waiting)
    requires InRange(c, members) && m.query < |c.leafPos|
    ensures InRange(c, members + [m])
    ensures Scans(c, members + [m]) == Scans(c, members) + |c.leafPos[m.query]|
    ensures |LeafSet(c, members + [m])|
            == |LeafSet(c, members)| + |Uncovered(LeafSet(c, members), c.leafPos[m.query])|
  {
    var more, probe := members + [m], c.leafPos[m.query];
    assert more[..|more| - 1] == members;
    hide Scans;
    var rest := Uncovered(LeafSet(c, members), probe);
    assert m in more && forall k :: k in more <==> k in members || k == m;
    assert LeafSet(c, more) == LeafSet(c, members) + rest && LeafSet(c, members) !! rest;
  }

  lemma OverSum(x: real, a: nat, b: nat)
    ensures Priced(x, a + b) == Priced(x, a) + Priced(x, b)
  {
  }

  /** What joining adds to a running sweep: the leaf cost of the leaves it does not cover, and no scans. */
  lemma JoinAdds(c: Config, w: Sweep, probe: seq<nat>)
    requires Sound(c) && StrictlySorted(w.leaves) && StrictlySorted(probe)
    ensures var g := Adopt(c, w, probe); var rest := Uncovered(Elements(w.leaves), probe);
      && g.start == w.start && |g.leaves| == |w.leaves| + |rest|
      && Priced(g.wall, c.threads) == Priced(w.wall, c.threads) + Priced(c.perLeaf, |rest|)
  {
    hide StrictlySorted, Merge;
    var rest := Uncovered(Elements(w.leaves), probe);
    ExtraIsSize(w.leaves, probe, rest);
    MergeAdds(w.leaves, probe);
    ExtraTimes(c, |rest|);
    hide Extra, ExtraWall, Priced;
    SumTimes(w.wall, ExtraWall(c, |rest|), c.threads);
  }

  lemma ExtraTimes(c: Config, n: nat)
    requires Sound(c)
    ensures Priced(ExtraWall(c, n), c.threads) == Priced(c.perLeaf, n)
  {
    TimesBack(c.perLeaf, c.threads);
    var q, t := c.perLeaf / c.threads as real, c.threads as real;
    assert n as real * q * t == q * t * n as real;
  }

  lemma SumTimes(a: real, b: real, n: nat)
    ensures Priced(a + b, n) == Priced(a, n) + Priced(b, n)
  {
  }

  /** A window is closed once the queue has been idle for long enough, or its front has waited to the deadline. */
  lemma ClosedIff(c: Config, lastArrival: real, queue: seq<Waiting>, t: real)
    requires queue != []
    ensures t >= Close(c, lastArrival, queue) <==>
              || (t - lastArrival >= c.idle && t >= queue[0].arrival)
              || t - queue[0].arrival >= c.deadline
  {
  }

  /** What a closed window's queries are charged: all of them the end of one sweep that starts now and covers
      the leaves they probe; a query that comes after the end would have waited 0 seconds. */
  lemma WindowLatencies(c: Config, s: State, t: real)
    requires Sound(c) && InRange(c, s.queue) && s.queue != [] && |s.inflight| < c.maxInflight
    requires t >= Close(c, s.lastArrival, s.queue)
    ensures var d := Dispatch(c, s, t); var n := |s.lat|;
      && d.queue == [] && |d.lat| == n + |s.queue| && d.lat[..n] == s.lat
      && (forall i :: 0 <= i < |s.queue| ==>
            var wait := t + SweepWall(c, s.queue) - s.queue[i].arrival;
            d.lat[n + i] == if wait > 0.0 then wait else 0.0)
      && |d.inflight| == |s.inflight| + 1 && d.inflight[..|s.inflight|] == s.inflight
      && var w := d.inflight[|s.inflight|];
         && w.start == t && w.wall == SweepWall(c, s.queue)
         && forall x :: x in w.leaves <==> x in LeafSet(c, s.queue)
  {
    UnionIsSet(c, s.queue);
    hide SweepWall, UnionLeaves, StrictlySorted, LeafSet, Close;
  }

  // ----- arrivals, progress of a sweep, completion of a joiner -----

  /** Arrivals come evenly from time 0 on. */
  lemma ArrivalsEvenly(c: Config, id: nat)
    ensures ArrivalTime(c, 0) == 0.0 && ArrivalTime(c, id + 1) - ArrivalTime(c, id) == c.step
  {
  }

  /** The probe sets are taken in turn, over and over. */
  lemma {:induction false} QueriesInTurn(c: Config, id: nat)
    requires c.leafPos != []
    ensures QueryOf(c, 0) == 0
    ensures QueryOf(c, id + 1) == if QueryOf(c, id) + 1 == |c.leafPos| then 0 else QueryOf(c, id) + 1
  {
    var n := |c.leafPos|;
    var q := Divided(id, n);
    var p := Divided(id + 1, n);
    var r, z := QueryOf(c, id), QueryOf(c, id + 1);
    assert r == id % n && z == (id + 1) % n && QueryOf(c, 0) == 0;
    hide QueryOf;
    OneMoreTime(q, n);
    if r + 1 == n {
      SameRest(q + 1, 0, p, z, n);
    } else {
      SameRest(q, r + 1, p, z, n);
    }
  }

  lemma Divided(x: nat, n: nat) returns (q: nat)
    requires n > 0
    ensures x == q * n + x % n
  {
    q := x / n;
  }

  lemma OneMoreTime(q: nat, n: nat)
    ensures (q + 1) * n == q * n + n
  {
  }

  lemma SameRest(q: nat, r: nat, p: nat, z: nat, n: nat)
    requires r < n && z < n && q * n + r == p * n + z
    ensures r == z
  {
    if q < p {
      Gap(q, p, n);
    } else if p < q {
      Gap(p, q, n);
    }
  }

  lemma Gap(a: nat, b: nat, n: nat)
    requires a < b
    ensures a * n + n <= b * n
  {
    var d: nat := b - a - 1;
    assert (a + 1 + d) * n == a * n + n + d * n;
    assert d * n >= 0;
  }

  /** A running sweep has done the part of its leaves that has passed of its time. */
  lemma DoneIs(w: Sweep, t: real)
    requires w.wall > 0.0 && w.start <= t <= w.End()
    ensures Priced(w.Done(t) * w.wall, 1) == Priced(t - w.start, |w.leaves|)
    ensures 0.0 <= w.Done(t) <= |w.leaves| as real
  {
    var f := (t - w.start) / w.wall;
    assert f * w.wall == t - w.start;
    assert 0.0 <= f <= 1.0 by { Fraction(t - w.start, w.wall); }
    var n := |w.leaves| as real;
    assert 0.0 <= f * n <= n by { Within(f, n); }
    assert f * n * w.wall == f * w.wall * n;
  }

  lemma Fraction(x: real, y: real)
    requires 0.0 <= x <= y && y > 0.0
    ensures 0.0 <= x / y <= 1.0
  {
    var f := x / y;
    assert f * y == x;
    if f < 0.0 {
      Negative(-f, y);
    } else if f > 1.0 {
      Negative(f - 1.0, y);
    }
  }

  lemma Negative(x: real, y: real)
    requires x > 0.0 && y > 0.0
    ensures x * y > 0.0
  {
  }

  lemma Within(f: real, n: real)
    requires 0.0 <= f <= 1.0 && n >= 0.0
    ensures 0.0 <= f * n <= n
  {
    assert f * n >= 0.0 && (1.0 - f) * n >= 0.0;
  }

  ghost function UpTo(s: seq<nat>, x: nat): (r: set<nat>)
    ensures forall y :: y in r <==> y in s && y <= x
  {
    set y | y in s && y <= x
  }

  /** The place of an element in a sorted list is the number of elements up to it. */
  lemma PlaceIsCount(s: seq<nat>, x: nat)
    requires StrictlySorted(s) && x in s
    ensures LowerBound(s, x) + 1 == |UpTo(s, x)|
  {
    var n := PlaceOf(s, x);
    var front := s[..n + 1];
    hide *;
    forall y ensures y in UpTo(s, x) <==> y in front {
      FrontHolds(s, n, y);
    }
    SortedFront(s, n + 1);
    SortedSize(front, UpTo(s, x));
  }

  lemma PlaceOf(s: seq<nat>, x: nat) returns (n: nat)
    requires StrictlySorted(s) && x in s
    ensures n == LowerBound(s, x) < |s| && s[n] == x
  {
    n := LowerBound(s, x);
    var i :| 0 <= i < |s| && s[i] == x;
    assert n == i;
  }

  lemma FrontHolds(s: seq<nat>, n: nat, y: nat)
    requires StrictlySorted(s) && n < |s|
    ensures y in s[..n + 1] <==> y in s && y <= s[n]
  {
    if y in s && y <= s[n] {
      var k :| 0 <= k < |s| && s[k] == y;
      assert k <= n;
      assert s[..n + 1][k] == y;
    }
  }

  lemma SortedFront(s: seq<nat>, n: nat)
    requires StrictlySorted(s) && n <= |s|
    ensures StrictlySorted(s[..n])
  {
  }

  /** A joiner is charged the part of the grown sweep up to its last leaf: as many leaves as the sweep then
      covers up to that one, of all it covers. */
  lemma JoinDoneCounts(c: Config, w: Sweep, probe: seq<nat>)
    requires Sound(c) && StrictlySorted(w.leaves) && StrictlySorted(probe) && probe != []
    ensures var last := probe[|probe| - 1]; var g := Adopt(c, w, probe);
      && g.leaves != [] && (forall x :: x in g.leaves <==> x in w.leaves || x in probe)
      && (forall x :: x in probe ==> x <= last)
      && Priced(JoinDone(c, w, probe) - w.start, |g.leaves|) == Priced(g.wall, |UpTo(g.leaves, last)|)
  {
    hide *;
    JoinTiming.SoundThreads(c);
    var last, g := probe[|probe| - 1], Adopt(c, w, probe);
    GrownLeaves(c, w, probe);
    var place := LowerBound(g.leaves, last) + 1;
    var wait := JoinWait(c, w, probe, place);
    PlaceIsCount(g.leaves, last);
    PortionBack(place, |g.leaves|, g.wall);
  }

  lemma GrownLeaves(c: Config, w: Sweep, probe: seq<nat>)
    requires Sound(c) && StrictlySorted(w.leaves) && StrictlySorted(probe) && probe != []
    ensures var last := probe[|probe| - 1]; var g := Adopt(c, w, probe);
      && StrictlySorted(g.leaves) && g.leaves != [] && last in g.leaves && g.leaves == Merge(w.leaves, probe)
      && (forall x :: x in g.leaves <==> x in w.leaves || x in probe)
      && forall x :: x in probe ==> x <= last
  {
    hide Merge, ExtraWall, Extra, Sound;
    JoinTiming.SoundThreads(c);
    Grown(c, w, probe);
    MergeSorted(w.leaves, probe);
    assert probe[|probe| - 1] in probe;
  }

  lemma JoinWait(c: Config, w: Sweep, probe: seq<nat>, place: nat) returns (wait: real)
    requires Sound(c) && StrictlySorted(probe) && probe != [] && Merge(w.leaves, probe) != []
    requires place == LowerBound(Merge(w.leaves, probe), probe[|probe| - 1]) + 1
    ensures var g := Adopt(c, w, probe); |g.leaves| > 0 && wait == Portion(place as real, |g.leaves| as real, g.wall)
    ensures JoinDone(c, w, probe) - w.start == wait
  {
    hide *;
    JoinTiming.SoundThreads(c);
    JoinTiming.LastRankIsLast(Merge(w.leaves, probe), probe);
    JoinTiming.JoinDoneIs(c, w, probe);
    Grown(c, w, probe);
    var g := Adopt(c, w, probe);
    wait := Portion(place as real, |g.leaves| as real, g.wall);
  }

  lemma Grown(c: Config, w: Sweep, probe: seq<nat>)
    requires c.threads >= 1
    ensures var g := Adopt(c, w, probe);
      && g.start == w.start && g.wall == w.wall + ExtraWall(c, Extra(w.leaves, probe))
      && g.leaves == Merge(w.leaves, probe)
  {
    hide Merge, ExtraWall, Extra;
  }

  lemma PortionBack(part: nat, n: nat, wall: real)
    requires n > 0
    ensures Priced(Portion(part as real, n as real, wall), n) == Priced(wall, part)
  {
    var f := part as real / n as real;
    assert f * n as real == part as real;
    assert f * wall * n as real == f * n as real * wall;
  }
}
