/** Batch-window scheduling with mid-sweep joining (scripts/join_sim.cpp, `simulate`):
    one event of the simulation as a function on its state, and what every run keeps. */
module Scheduler {

  /** The code's "no such event" time. */
  const FAR: real := 1000000000000000000.0

  function MaxR(a: real, b: real): real {
    if a < b then b else a
  }

  function MinR(a: real, b: real): real {
    if b < a then b else a
  }

  /** part / whole * amount */
  function Portion(part: real, whole: real, amount: real): real
    requires whole > 0.0
  {
    part / whole * amount
  }

  // ----- sorted leaf lists -----

  ghost predicate StrictlySorted(s: seq<nat>) {
    forall i, j :: 0 <= i < j < |s| ==> s[i] < s[j]
  }

  /** `std::lower_bound` as an index. */
  function LowerBound(s: seq<nat>, x: nat): (r: nat)
    ensures r <= |s|
    ensures forall i :: 0 <= i < r ==> s[i] < x
    ensures r < |s| ==> x <= s[r]
  {
    if s == [] || x <= s[0] then 0 else 1 + LowerBound(s[1..], x)
  }

  function InsertUnique(s: seq<nat>, x: nat): (r: seq<nat>)
    ensures forall y :: y in r <==> y in s || y == x
    ensures |s| <= |r| <= |s| + 1
  {
    if s == [] || x < s[0] then [x] + s
    else if x == s[0] then s
    else
      assert s == [s[0]] + s[1..];
      [s[0]] + InsertUnique(s[1..], x)
  }

  lemma {:induction false} InsertUniqueSorted(s: seq<nat>, x: nat)
    requires StrictlySorted(s)
    ensures StrictlySorted(InsertUnique(s, x))
    ensures x in s ==> InsertUnique(s, x) == s
  {
    if s != [] && s[0] < x {
      var rest := InsertUnique(s[1..], x);
      InsertUniqueSorted(s[1..], x);
      assert s == [s[0]] + s[1..];
      forall i | 0 <= i < |rest| ensures s[0] < rest[i] {
        assert rest[i] in rest;
        assert rest[i] == x || rest[i] in s[1..];
      }
    }
  }

  /** `push_back` of every element of `xs`, then sort and unique. */
  function Merge(s: seq<nat>, xs: seq<nat>): (r: seq<nat>)
    ensures forall y :: y in r <==> y in s || y in xs
    ensures |s| <= |r| <= |s| + |xs|
    decreases xs
  {
    if xs == [] then s else
      assert xs == [xs[0]] + xs[1..];
      Merge(InsertUnique(s, xs[0]), xs[1..])
  }

  lemma {:induction false} MergeSorted(s: seq<nat>, xs: seq<nat>)
    requires StrictlySorted(s)
    ensures StrictlySorted(Merge(s, xs))
    ensures (forall x :: x in xs ==> x in s) ==> Merge(s, xs) == s
    decreases xs
  {
    if xs != [] {
      InsertUniqueSorted(s, xs[0]);
      MergeSorted(InsertUnique(s, xs[0]), xs[1..]);
    }
  }

  // ----- configuration and state -----

  /** `leafPos` holds one sorted probe set per query; costs are the clamped calibration values. */
  datatype Config = Config(
    leafPos: seq<seq<nat>>, fixedCost: real, perLeaf: real, perScan: real, threads: nat,
    idle: real, deadline: real, maxInflight: nat, step: real, nArr: nat, joinOn: bool)

  ghost predicate Sound(c: Config) {
    && c.leafPos != []
    && (forall q :: 0 <= q < |c.leafPos| ==> c.leafPos[q] != [] && StrictlySorted(c.leafPos[q]))
    && c.fixedCost >= 0.0 && c.perLeaf >= 0.0 && c.perScan >= 0.0 && c.threads >= 1
    && c.idle >= 0.0 && c.deadline >= 0.0 && c.step > 0.0
  }

  datatype Sweep = Sweep(start: real, wall: real, leaves: seq<nat>) {
    function End(): real {
      start + wall
    }

    /** Leaves swept by time `t`, clamped to the list. */
    function Done(t: real): real {
      if wall <= 0.0 then |leaves| as real
      else MaxR(0.0, MinR(Portion(t - start, wall, |leaves| as real), |leaves| as real))
    }
  }

  datatype Waiting = Waiting(query: nat, arrival: real, id: nat)

  /** One entry per latency: which arrival was charged, when it came and when it completes. */
  datatype Charge = Charge(id: nat, arrival: real, at: real)

  /** The loop's variables; `charges` and `now` record what the proofs speak about. */
  datatype State = State(inflight: seq<Sweep>, queue: seq<Waiting>, lat: seq<real>, arrived: nat,
                         lastArrival: real, charges: seq<Charge>, now: real)

  function Start(): State {
    State([], [], [], 0, -1000000000.0, [], 0.0)
  }

  predicate Finished(c: Config, s: State) {
    s.arrived >= c.nArr && s.queue == [] && s.inflight == []
  }

  // ----- event times -----

  function ArrivalTime(c: Config, id: nat): real {
    id as real * c.step
  }

  function NextArrival(c: Config, s: State): real {
    if s.arrived < c.nArr then ArrivalTime(c, s.arrived) else FAR
  }

  function NextEnd(inflight: seq<Sweep>): real {
    if inflight == [] then FAR else
      var n := |inflight| - 1;
      MinR(NextEnd(inflight[..n]), inflight[n].End())
  }

  lemma {:induction false} NextEndIsEarliest(inflight: seq<Sweep>)
    ensures forall w :: w in inflight ==> NextEnd(inflight) <= w.End()
    ensures NextEnd(inflight) == FAR || exists w :: w in inflight && NextEnd(inflight) == w.End()
  {
    if inflight != [] {
      var n := |inflight| - 1;
      NextEndIsEarliest(inflight[..n]);
      assert inflight == inflight[..n] + [inflight[n]];
    }
  }

  /** When the waiting window closes: idle gap after the last arrival, capped by the front's deadline. */
  function Close(c: Config, lastArrival: real, queue: seq<Waiting>): real
    requires queue != []
  {
    MinR(MaxR(lastArrival + c.idle, queue[0].arrival), queue[0].arrival + c.deadline)
  }

  function NextClose(c: Config, s: State): real {
    if s.queue != [] && |s.inflight| < c.maxInflight then Close(c, s.lastArrival, s.queue) else FAR
  }

  function NextEvent(c: Config, s: State): real {
    MinR(MinR(NextArrival(c, s), NextEnd(s.inflight)), NextClose(c, s))
  }

  // ----- one event -----

  function Retire(inflight: seq<Sweep>, t: real): seq<Sweep> {
    if inflight == [] then [] else
      var n := |inflight| - 1;
      Retire(inflight[..n], t) + if t >= inflight[n].End() then [] else [inflight[n]]
  }

  lemma {:induction false} RetireKeepsTheRest(inflight: seq<Sweep>, t: real)
    ensures forall w :: w in Retire(inflight, t) <==> w in inflight && t < w.End()
    ensures |Retire(inflight, t)| <= |inflight|
  {
    if inflight != [] {
      var n := |inflight| - 1;
      RetireKeepsTheRest(inflight[..n], t);
      assert inflight == inflight[..n] + [inflight[n]];
    }
  }

  /** No leaf of the query that the sweep covers has been swept already. */
  predicate Adoptable(w: Sweep, probe: seq<nat>, t: real) {
    forall i :: 0 <= i < |probe| && probe[i] in w.leaves ==>
      !(LowerBound(w.leaves, probe[i]) as real < w.Done(t))
  }

  /** Leaves of the query that the sweep does not cover. */
  function Extra(leaves: seq<nat>, probe: seq<nat>): (n: nat)
    ensures n <= |probe|
    ensures (forall x :: x in probe ==> x in leaves) ==> n == 0
  {
    if probe == [] then 0 else
      var n := |probe| - 1;
      assert probe[n] in probe;
      Extra(leaves, probe[..n]) + if probe[n] in leaves then 0 else 1
  }

  function LastRank(merged: seq<nat>, probe: seq<nat>): (r: nat)
    ensures forall i :: 0 <= i < |probe| ==> LowerBound(merged, probe[i]) <= r
    ensures r == 0 || exists i :: 0 <= i < |probe| && r == LowerBound(merged, probe[i])
  {
    if probe == [] then 0 else
      var n := |probe| - 1;
      var r := LastRank(merged, probe[..n]);
      assert forall i :: 0 <= i < n ==> probe[..n][i] == probe[i];
      var rank := LowerBound(merged, probe[n]);
      if r < rank then rank else r
  }

  function Adopt(c: Config, w: Sweep, probe: seq<nat>): Sweep
    requires c.threads >= 1
  {
    Sweep(w.start, w.wall + ExtraWall(c, Extra(w.leaves, probe)), Merge(w.leaves, probe))
  }

  function ExtraWall(c: Config, extra: nat): real
    requires c.threads >= 1
  {
    extra as real * (c.perLeaf / c.threads as real)
  }

  /** Completion of a joiner, at its last leaf in the merged order. */
  function JoinDone(c: Config, w: Sweep, probe: seq<nat>): real
    requires c.threads >= 1 && Merge(w.leaves, probe) != []
  {
    var grown := Adopt(c, w, probe);
    grown.start + Portion((LastRank(grown.leaves, probe) + 1) as real, |grown.leaves| as real, grown.wall)
  }

  /** The first sweep that can adopt the query, or the number of sweeps. */
  function Adopter(inflight: seq<Sweep>, probe: seq<nat>, t: real, from: nat): (j: nat)
    requires from <= |inflight|
    ensures from <= j <= |inflight|
    ensures j < |inflight| ==> Adoptable(inflight[j], probe, t)
    ensures forall i :: from <= i < j ==> !Adoptable(inflight[i], probe, t)
    decreases |inflight| - from
  {
    if from == |inflight| || Adoptable(inflight[from], probe, t) then from
    else Adopter(inflight, probe, t, from + 1)
  }

  /** Arrivals take the probe sets in turn. */
  function QueryOf(c: Config, id: nat): (q: nat)
    requires c.leafPos != []
    ensures q < |c.leafPos|
  {
    id % |c.leafPos|
  }

  function Probe(c: Config, id: nat): seq<nat>
    requires c.leafPos != []
  {
    c.leafPos[QueryOf(c, id)]
  }

  function Arrive(c: Config, s: State, t: real): State
    requires Sound(c)
  {
    var probe := Probe(c, s.arrived);
    var j := if c.joinOn then Adopter(s.inflight, probe, t, 0) else |s.inflight|;
    var s1 :=
      if j < |s.inflight| then
        assert probe[0] in Merge(s.inflight[j].leaves, probe);
        var at := JoinDone(c, s.inflight[j], probe);
        s.(inflight := s.inflight[j := Adopt(c, s.inflight[j], probe)],
           lat := s.lat + [MaxR(0.0, at - t)],
           charges := s.charges + [Charge(s.arrived, t, at)])
      else
        s.(queue := s.queue + [Waiting(QueryOf(c, s.arrived), t, s.arrived)]);
    s1.(lastArrival := t, arrived := s.arrived + 1)
  }

  function UnionLeaves(c: Config, members: seq<Waiting>): (u: seq<nat>)
    requires Sound(c) && forall m :: m in members ==> m.query < |c.leafPos|
    ensures |u| <= Scans(c, members)
    ensures forall m, x :: m in members && x in c.leafPos[m.query] ==> x in u
  {
    if members == [] then [] else
      var n := |members| - 1;
      Merge(UnionLeaves(c, members[..n]), c.leafPos[members[n].query])
  }

  function Scans(c: Config, members: seq<Waiting>): nat
    requires forall m :: m in members ==> m.query < |c.leafPos|
  {
    if members == [] then 0 else
      var n := |members| - 1;
      Scans(c, members[..n]) + |c.leafPos[members[n].query]|
  }

  function SweepWall(c: Config, members: seq<Waiting>): real
    requires Sound(c) && forall m :: m in members ==> m.query < |c.leafPos|
  {
    (c.fixedCost + c.perLeaf * |UnionLeaves(c, members)| as real + c.perScan * Scans(c, members) as real)
      / c.threads as real
  }

  function Charges(queue: seq<Waiting>, at: real): (r: seq<Charge>)
    ensures |r| == |queue|
    ensures forall i :: 0 <= i < |r| ==> r[i] == Charge(queue[i].id, queue[i].arrival, at)
  {
    seq(|queue|, i requires 0 <= i < |queue| => Charge(queue[i].id, queue[i].arrival, at))
  }

  function Latencies(charges: seq<Charge>): (r: seq<real>)
    ensures |r| == |charges|
    ensures forall i :: 0 <= i < |r| ==> r[i] == MaxR(0.0, charges[i].at - charges[i].arrival)
  {
    seq(|charges|, i requires 0 <= i < |charges| => MaxR(0.0, charges[i].at - charges[i].arrival))
  }

  predicate Closes(c: Config, s: State, t: real) {
    s.queue != [] && |s.inflight| < c.maxInflight && t >= Close(c, s.lastArrival, s.queue)
  }

  function Dispatch(c: Config, s: State, t: real): State
    requires Sound(c) && forall m :: m in s.queue ==> m.query < |c.leafPos|
  {
    if Closes(c, s, t) then
      var w := Sweep(t, SweepWall(c, s.queue), UnionLeaves(c, s.queue));
      var charged := Charges(s.queue, w.End());
      s.(inflight := s.inflight + [w], queue := [], lat := s.lat + Latencies(charged), charges := s.charges + charged)
    else
      s
  }

  /** The state in which the dispatch decision of the event is taken. */
  function BeforeDispatch(c: Config, s: State): State
    requires Sound(c)
  {
    var t := NextEvent(c, s);
    var s1 := s.(inflight := Retire(s.inflight, t), now := t);
    if NextArrival(c, s) == t then Arrive(c, s1, t) else s1
  }

  /** One pass of the event loop at time `NextEvent`. */
  function Step(c: Config, s: State): State
    requires Sound(c) && forall m :: m in BeforeDispatch(c, s).queue ==> m.query < |c.leafPos|
  {
    Dispatch(c, BeforeDispatch(c, s), NextEvent(c, s))
  }

  // ----- what every event keeps -----

  function Upto(n: nat): (r: seq<nat>)
    ensures |r| == n && forall i :: 0 <= i < n ==> r[i] == i
  {
    seq(n, i => i)
  }

  function QueuedIds(queue: seq<Waiting>): (r: seq<nat>)
    ensures |r| == |queue| && forall i :: 0 <= i < |r| ==> r[i] == queue[i].id
  {
    seq(|queue|, i requires 0 <= i < |queue| => queue[i].id)
  }

  function ChargedIds(charges: seq<Charge>): (r: seq<nat>)
    ensures |r| == |charges| && forall i :: 0 <= i < |r| ==> r[i] == charges[i].id
  {
    seq(|charges|, i requires 0 <= i < |charges| => charges[i].id)
  }

  ghost predicate SweepOk(w: Sweep, now: real) {
    w.start <= now <= w.End() && w.leaves != [] && StrictlySorted(w.leaves)
  }

  ghost predicate WaitingOk(c: Config, w: Waiting, arrived: nat) {
    && c.leafPos != [] && w.query == QueryOf(c, w.id)
    && w.id < arrived && w.arrival == ArrivalTime(c, w.id)
  }

  ghost predicate SweepsOk(c: Config, inflight: seq<Sweep>, now: real) {
    |inflight| <= c.maxInflight && forall w :: w in inflight ==> SweepOk(w, now)
  }

  ghost predicate QueueOk(c: Config, queue: seq<Waiting>, arrived: nat) {
    && (forall m :: m in queue ==> WaitingOk(c, m, arrived))
    && forall i, j :: 0 <= i < j < |queue| ==> queue[i].id < queue[j].id
  }

  ghost predicate ClockOk(c: Config, arrived: nat, lastArrival: real, now: real) {
    && arrived <= c.nArr
    && (arrived > 0 ==> lastArrival == ArrivalTime(c, arrived - 1) && lastArrival <= now)
    && (arrived < c.nArr ==> now <= ArrivalTime(c, arrived))
  }

  /** Every arrival so far is either charged once or queued once, and latencies are what the charges say. */
  ghost predicate Accounted(c: Config, charges: seq<Charge>, lat: seq<real>, queue: seq<Waiting>, arrived: nat) {
    && lat == Latencies(charges)
    && multiset(ChargedIds(charges)) + multiset(QueuedIds(queue)) == multiset(Upto(arrived))
    && forall h :: h in charges ==> h.arrival == ArrivalTime(c, h.id)
  }

  ghost predicate Base(c: Config, s: State) {
    && SweepsOk(c, s.inflight, s.now)
    && QueueOk(c, s.queue, s.arrived)
    && ClockOk(c, s.arrived, s.lastArrival, s.now)
    && Accounted(c, s.charges, s.lat, s.queue, s.arrived)
  }

  /** While a slot is free the waiting window is still open. */
  ghost predicate WindowOpen(c: Config, s: State) {
    s.queue != [] && |s.inflight| < c.maxInflight ==> s.now < Close(c, s.lastArrival, s.queue)
  }

  ghost predicate Inv(c: Config, s: State) {
    Base(c, s) && WindowOpen(c, s) && s.now < FAR
  }

  lemma ArrivalOrder(c: Config, a: nat, b: nat)
    requires c.step > 0.0 && a <= b
    ensures ArrivalTime(c, a) <= ArrivalTime(c, b)
  {
    assert (b as real - a as real) * c.step >= 0.0;
  }

  lemma QueriesInRange(c: Config, s: State)
    requires Sound(c) && QueueOk(c, s.queue, s.arrived)
    ensures forall m :: m in s.queue ==> m.query < |c.leafPos|
  {
  }

  /** Event time never goes back. */
  lemma TimeNeverGoesBack(c: Config, s: State)
    requires Sound(c) && Inv(c, s)
    ensures s.now <= NextEvent(c, s)
  {
    hide ArrivalTime, Latencies, ChargedIds, QueuedIds, Upto, StrictlySorted;
    NextEndIsEarliest(s.inflight);
    if NextEnd(s.inflight) != FAR {
      var w :| w in s.inflight && NextEnd(s.inflight) == w.End();
      assert SweepOk(w, s.now);
    }
  }

  lemma RetireKeeps(c: Config, s: State, t: real)
    requires Sound(c) && Base(c, s) && s.now <= t
    requires s.arrived < c.nArr ==> t <= ArrivalTime(c, s.arrived)
    ensures Base(c, s.(inflight := Retire(s.inflight, t), now := t))
    ensures forall w :: w in Retire(s.inflight, t) ==> t < w.End()
  {
    RetireKeepsTheRest(s.inflight, t);
    forall w | w in Retire(s.inflight, t) ensures SweepOk(w, t) {
      assert SweepOk(w, s.now);
    }
  }

  lemma ExtraWallNonNegative(c: Config, extra: nat)
    requires Sound(c)
    ensures ExtraWall(c, extra) >= 0.0 && ExtraWall(c, 0) == 0.0
  {
    assert c.perLeaf / c.threads as real >= 0.0;
  }

  /** A sweep that adopts a query keeps its start, only grows, and stays sorted. */
  lemma AdoptGrows(c: Config, w: Sweep, probe: seq<nat>, t: real)
    requires Sound(c) && SweepOk(w, t)
    ensures var g := Adopt(c, w, probe);
      && SweepOk(g, t) && g.start == w.start && g.End() >= w.End()
      && (forall x :: x in g.leaves <==> x in w.leaves || x in probe)
  {
    hide StrictlySorted, ExtraWall, Sound;
    MergeSorted(w.leaves, probe);
    ExtraWallNonNegative(c, Extra(w.leaves, probe));
    assert w.leaves[0] in Merge(w.leaves, probe);
  }

  lemma PortionBelow(part: real, n: real, wall: real)
    requires 0.0 <= part <= n && n > 0.0 && wall >= 0.0
    ensures 0.0 <= Portion(part, n, wall) <= wall
  {
    var f := part / n;
    assert 0.0 <= f <= 1.0;
    assert f * wall >= 0.0 && (1.0 - f) * wall >= 0.0;
  }

  /** A joiner completes no later than the sweep that adopted it. */
  lemma JoinChargedByEnd(c: Config, w: Sweep, probe: seq<nat>, t: real)
    requires Sound(c) && SweepOk(w, t) && probe != []
    ensures Merge(w.leaves, probe) != []
    ensures JoinDone(c, w, probe) <= Adopt(c, w, probe).End()
  {
    hide StrictlySorted, Portion, ExtraWall, Merge, Extra, LowerBound, LastRank;
    AdoptGrows(c, w, probe, t);
    var g := Adopt(c, w, probe);
    LastRankInList(g.leaves, probe);
    PortionBelow((LastRank(g.leaves, probe) + 1) as real, |g.leaves| as real, g.wall);
  }

  lemma LastRankInList(s: seq<nat>, probe: seq<nat>)
    requires probe != [] && forall x :: x in probe ==> x in s
    ensures LastRank(s, probe) < |s|
  {
    var rank := LastRank(s, probe);
    var i :| 0 <= i < |probe| && (rank == 0 || rank == LowerBound(s, probe[i]));
    assert probe[i] in s;
  }

  lemma SweptWithinList(w: Sweep, t: real)
    requires w.start <= t < w.End() && w.leaves != []
    ensures w.Done(t) == Portion(t - w.start, w.wall, |w.leaves| as real)
  {
    PortionBelow(t - w.start, w.wall, |w.leaves| as real);
  }

  lemma ChargeOne(c: Config, charges: seq<Charge>, lat: seq<real>, queue: seq<Waiting>, arrived: nat, h: Charge)
    requires Accounted(c, charges, lat, queue, arrived)
    requires h.id == arrived && h.arrival == ArrivalTime(c, arrived)
    ensures Accounted(c, charges + [h], lat + [MaxR(0.0, h.at - h.arrival)], queue, arrived + 1)
  {
    assert Latencies(charges + [h]) == Latencies(charges) + [MaxR(0.0, h.at - h.arrival)];
    assert ChargedIds(charges + [h]) == ChargedIds(charges) + [arrived];
    assert Upto(arrived + 1) == Upto(arrived) + [arrived];
  }

  lemma EnqueueOne(c: Config, charges: seq<Charge>, lat: seq<real>, queue: seq<Waiting>, arrived: nat, m: Waiting)
    requires Accounted(c, charges, lat, queue, arrived) && QueueOk(c, queue, arrived)
    requires m.id == arrived && WaitingOk(c, m, arrived + 1)
    ensures Accounted(c, charges, lat, queue + [m], arrived + 1) && QueueOk(c, queue + [m], arrived + 1)
  {
    hide ArrivalTime, QueryOf, Latencies, ChargedIds;
    assert QueuedIds(queue + [m]) == QueuedIds(queue) + [arrived];
    assert Upto(arrived + 1) == Upto(arrived) + [arrived];
    QueueLater(c, queue, arrived);
    forall i | 0 <= i < |queue| ensures queue[i].id < m.id {
      assert WaitingOk(c, queue[i], arrived);
    }
  }

  lemma ChargeQueue(c: Config, charges: seq<Charge>, lat: seq<real>, queue: seq<Waiting>, arrived: nat, at: real)
    requires Accounted(c, charges, lat, queue, arrived) && QueueOk(c, queue, arrived)
    ensures Accounted(c, charges + Charges(queue, at), lat + Latencies(Charges(queue, at)), [], arrived)
  {
    hide ArrivalTime, QueryOf, QueueOk;
    var more := Charges(queue, at);
    ChargesOnTime(c, queue, arrived, at);
    AppendedCharges(charges, more);
    ChargedAre(queue, at);
    hide Charges, Latencies, ChargedIds, QueuedIds, Upto;
    assert QueuedIds([]) == [] by { NothingQueued(); }
  }

  lemma AppendedCharges(charges: seq<Charge>, more: seq<Charge>)
    ensures Latencies(charges + more) == Latencies(charges) + Latencies(more)
    ensures ChargedIds(charges + more) == ChargedIds(charges) + ChargedIds(more)
  {
  }

  lemma ChargedAre(queue: seq<Waiting>, at: real)
    ensures ChargedIds(Charges(queue, at)) == QueuedIds(queue)
  {
  }

  lemma NothingQueued()
    ensures QueuedIds([]) == []
  {
  }

  lemma ChargesOnTime(c: Config, queue: seq<Waiting>, arrived: nat, at: real)
    requires QueueOk(c, queue, arrived)
    ensures forall h :: h in Charges(queue, at) ==> h.arrival == ArrivalTime(c, h.id)
  {
    hide ArrivalTime, QueryOf;
    var more := Charges(queue, at);
    forall h | h in more ensures h.arrival == ArrivalTime(c, h.id) {
      var i :| 0 <= i < |more| && more[i] == h;
      assert WaitingOk(c, queue[i], arrived);
    }
  }

  lemma ArriveKeeps(c: Config, s: State, t: real)
    requires Sound(c) && Base(c, s) && s.now == t
    requires s.arrived < c.nArr && t == ArrivalTime(c, s.arrived)
    ensures Base(c, Arrive(c, s, t)) && Arrive(c, s, t).now == t
  {
    hide StrictlySorted, ArrivalTime, QueryOf, Adopt, Adoptable, Accounted, QueueOk, JoinDone, SweepOk, Merge;
    var probe := Probe(c, s.arrived);
    var j := if c.joinOn then Adopter(s.inflight, probe, t, 0) else |s.inflight|;
    ArrivalOrder(c, s.arrived, s.arrived + 1);
    if j < |s.inflight| {
      var w := s.inflight[j];
      JoinKeepsSweeps(c, s.inflight, j, probe, t);
      ChargeOne(c, s.charges, s.lat, s.queue, s.arrived, Charge(s.arrived, t, JoinDone(c, w, probe)));
      QueueLater(c, s.queue, s.arrived);
    } else {
      NewWaiting(c, s.arrived, t);
      EnqueueOne(c, s.charges, s.lat, s.queue, s.arrived, Waiting(QueryOf(c, s.arrived), t, s.arrived));
    }
  }

  lemma JoinKeepsSweeps(c: Config, inflight: seq<Sweep>, j: nat, probe: seq<nat>, t: real)
    requires Sound(c) && SweepsOk(c, inflight, t) && j < |inflight|
    ensures probe != [] ==> Merge(inflight[j].leaves, probe) != []
    ensures SweepsOk(c, inflight[j := Adopt(c, inflight[j], probe)], t)
  {
    hide StrictlySorted, Adopt, SweepOk, Merge;
    AdoptGrows(c, inflight[j], probe, t);
    if probe != [] {
      assert probe[0] in Merge(inflight[j].leaves, probe);
    }
    forall w | w in inflight[j := Adopt(c, inflight[j], probe)] ensures SweepOk(w, t) {
    }
  }

  lemma NewWaiting(c: Config, id: nat, t: real)
    requires Sound(c) && t == ArrivalTime(c, id)
    ensures WaitingOk(c, Waiting(QueryOf(c, id), t, id), id + 1)
  {
  }

  lemma QueueLater(c: Config, queue: seq<Waiting>, arrived: nat)
    requires QueueOk(c, queue, arrived)
    ensures QueueOk(c, queue, arrived + 1)
  {
    forall w | w in queue ensures WaitingOk(c, w, arrived + 1) {
      assert WaitingOk(c, w, arrived);
    }
  }

  lemma {:induction false} UnionSorted(c: Config, members: seq<Waiting>)
    requires Sound(c) && forall m :: m in members ==> m.query < |c.leafPos|
    ensures StrictlySorted(UnionLeaves(c, members))
  {
    if members != [] {
      var n := |members| - 1;
      UnionSorted(c, members[..n]);
      MergeSorted(UnionLeaves(c, members[..n]), c.leafPos[members[n].query]);
    }
  }

  lemma SweepWallNonNegative(c: Config, members: seq<Waiting>)
    requires Sound(c) && forall m :: m in members ==> m.query < |c.leafPos|
    ensures SweepWall(c, members) >= 0.0
  {
    hide UnionLeaves, Scans, StrictlySorted;
    var u, n := |UnionLeaves(c, members)| as real, Scans(c, members) as real;
    assert c.perLeaf * u >= 0.0 && c.perScan * n >= 0.0;
  }

  lemma NewSweepOk(c: Config, members: seq<Waiting>, t: real)
    requires Sound(c) && members != [] && forall m :: m in members ==> m.query < |c.leafPos|
    ensures SweepOk(Sweep(t, SweepWall(c, members), UnionLeaves(c, members)), t)
  {
    hide StrictlySorted, SweepWall, UnionLeaves;
    UnionSorted(c, members);
    SweepWallNonNegative(c, members);
    var front := c.leafPos[members[0].query];
    assert front[0] in front;
    assert front[0] in UnionLeaves(c, members);
  }

  lemma DispatchKeeps(c: Config, s: State, t: real)
    requires Sound(c) && Base(c, s) && s.now == t
    ensures forall m :: m in s.queue ==> m.query < |c.leafPos|
    ensures t < FAR ==> Inv(c, Dispatch(c, s, t))
    ensures Dispatch(c, s, t).now == t
  {
    hide StrictlySorted, ArrivalTime, Latencies, Charges, ChargedIds, QueuedIds, Upto, UnionLeaves, SweepWall, Sound,
         SweepOk, Accounted;
    QueriesInRange(c, s);
    if Closes(c, s, t) {
      NewSweepOk(c, s.queue, t);
      ChargeQueue(c, s.charges, s.lat, s.queue, s.arrived, t + SweepWall(c, s.queue));
    }
  }

  lemma BeforeDispatchKeeps(c: Config, s: State)
    requires Sound(c) && Inv(c, s) && NextEvent(c, s) < FAR
    ensures var b := BeforeDispatch(c, s);
      && Base(c, b) && b.now == NextEvent(c, s) && forall m :: m in b.queue ==> m.query < |c.leafPos|
  {
    hide Accounted, SweepsOk, ArrivalTime, Arrive, Retire, SweepOk, QueueOk, NextEnd, NextClose;
    TimeNeverGoesBack(c, s);
    var t := NextEvent(c, s);
    var s1 := s.(inflight := Retire(s.inflight, t), now := t);
    RetireKeeps(c, s, t);
    if NextArrival(c, s) == t {
      ArriveKeeps(c, s1, t);
    }
    QueriesInRange(c, BeforeDispatch(c, s));
  }

  /** Every event keeps the scheduler's invariant. */
  lemma StepKeepsInv(c: Config, s: State)
    requires Sound(c) && Inv(c, s) && NextEvent(c, s) < FAR
    ensures forall m :: m in BeforeDispatch(c, s).queue ==> m.query < |c.leafPos|
    ensures Inv(c, Step(c, s)) && Step(c, s).now == NextEvent(c, s)
  {
    hide Inv, BeforeDispatch, Dispatch, NextEvent, Base;
    BeforeDispatchKeeps(c, s);
    DispatchKeeps(c, BeforeDispatch(c, s), NextEvent(c, s));
  }

  // ----- progress -----

  function Measure(c: Config, s: State): int {
    3 * (c.nArr - s.arrived) + 2 * |s.queue| + |s.inflight|
  }

  /** Every event uses up an arrival, a queued query or a sweep, so a run is finite. */
  lemma EveryEventProgresses(c: Config, s: State)
    requires Sound(c) && Inv(c, s) && NextEvent(c, s) < FAR
    ensures forall m :: m in BeforeDispatch(c, s).queue ==> m.query < |c.leafPos|
    ensures 0 <= Measure(c, Step(c, s)) < Measure(c, s)
  {
    hide StrictlySorted, ArrivalTime, Accounted, Adopt, Adoptable, JoinDone, SweepOk, WaitingOk, Charges,
         Latencies, UnionLeaves, SweepWall, Probe, Sweep.Done;
    BeforeDispatchKeeps(c, s);
    var t := NextEvent(c, s);
    if NextArrival(c, s) != t && NextEnd(s.inflight) != t {
      assert t == NextClose(c, s);
    }
    if NextEnd(s.inflight) == t {
      OneRetiresAt(s.inflight, t);
    }
    RetireKeepsTheRest(s.inflight, t);
  }

  // ----- windows close on time -----

  /** While a slot is free and queries wait, the next event comes no later than the window's close. */
  lemma NoEventSkipsTheClose(c: Config, s: State)
    requires Sound(c) && Inv(c, s) && s.queue != [] && |s.inflight| < c.maxInflight
    ensures s.now < Close(c, s.lastArrival, s.queue)
    ensures NextEvent(c, s) <= Close(c, s.lastArrival, s.queue)
  {
  }

  /** A window is dispatched exactly at its close, or when a full house frees a slot after the close. */
  lemma DispatchedAtCloseOrFreedSlot(c: Config, s: State)
    requires Sound(c) && Inv(c, s) && NextEvent(c, s) < FAR
    requires Closes(c, BeforeDispatch(c, s), NextEvent(c, s))
    ensures var b, t := BeforeDispatch(c, s), NextEvent(c, s);
      || t == Close(c, b.lastArrival, b.queue)
      || (|s.inflight| == c.maxInflight && t == NextEnd(s.inflight) && t > Close(c, b.lastArrival, b.queue))
  {
    hide StrictlySorted, Accounted, Adopt, Adoptable, JoinDone, SweepOk, Probe, Sweep.Done, QueryOf;
    var b, t := BeforeDispatch(c, s), NextEvent(c, s);
    if s.queue != [] && |s.inflight| < c.maxInflight {
      assert b.queue[0] == s.queue[0];
      assert s.lastArrival <= b.lastArrival by {
        assert WaitingOk(c, s.queue[0], s.arrived);
      }
    } else if s.queue == [] {
      assert b.queue[0].arrival == t == b.lastArrival;
    } else if t < NextEnd(s.inflight) {
      NoneRetiresBefore(s.inflight, t);
    }
  }

  /** Before the earliest end no slot is freed; */
  lemma {:induction false} NoneRetiresBefore(inflight: seq<Sweep>, t: real)
    requires t < NextEnd(inflight)
    ensures Retire(inflight, t) == inflight
  {
    if inflight != [] {
      var n := |inflight| - 1;
      var front := inflight[..n];
      NoneRetiresBefore(front, t);
      assert inflight == front + [inflight[n]];
    }
  }

  /** at it, one is. */
  lemma {:induction false} OneRetiresAt(inflight: seq<Sweep>, t: real)
    requires t == NextEnd(inflight) < FAR
    ensures |Retire(inflight, t)| < |inflight|
  {
    var n := |inflight| - 1;
    var front := inflight[..n];
    if t == NextEnd(front) {
      OneRetiresAt(front, t);
    } else {
      RetireKeepsTheRest(front, t);
    }
  }

  // ----- whole runs -----

  predicate Enabled(c: Config, s: State) {
    && !Finished(c, s) && NextEvent(c, s) < FAR
  }

  /** The state after `n` passes of the event loop. */
  ghost function Run(c: Config, n: nat): (s: State)
    requires Sound(c)
    ensures Inv(c, s)
  {
    if n == 0 then
      StartInv(c);
      Start()
    else
      Next(c, Run(c, n - 1))
  }

  ghost function Next(c: Config, s: State): (s': State)
    requires Sound(c) && Inv(c, s)
    ensures Inv(c, s') && s.now <= s'.now < FAR
    ensures Enabled(c, s) ==> 0 <= Measure(c, s') < Measure(c, s)
  {
    if Enabled(c, s) then
      StepKeepsInv(c, s);
      TimeNeverGoesBack(c, s);
      EveryEventProgresses(c, s);
      Step(c, s)
    else
      s
  }

  lemma StartInv(c: Config)
    requires Sound(c)
    ensures Inv(c, Start())
  {
    assert Latencies([]) == [] && Upto(0) == [];
  }

  // ----- every arrival is served -----

  /** When the loop ends by its own condition, every arrival has exactly one latency. */
  lemma FinishedServesAll(c: Config, s: State)
    requires Inv(c, s) && Finished(c, s)
    ensures |s.lat| == c.nArr
    ensures multiset(ChargedIds(s.charges)) == multiset(Upto(c.nArr))
  {
    assert |multiset(ChargedIds(s.charges))| == |multiset(Upto(c.nArr))|;
  }

  /** Without sweep slots no query is ever charged. */
  lemma {:induction false} NoSlotsServeNobody(c: Config, n: nat)
    requires Sound(c) && c.maxInflight == 0
    ensures Run(c, n).lat == [] && Run(c, n).inflight == []
  {
    hide Inv, Next;
    if n > 0 {
      NoSlotsServeNobody(c, n - 1);
      NoSlotStep(c, Run(c, n - 1));
    }
  }

  lemma NoSlotStep(c: Config, s: State)
    requires Sound(c) && Inv(c, s) && c.maxInflight == 0 && s.lat == [] && s.inflight == []
    ensures Next(c, s).lat == [] && Next(c, s).inflight == []
  {
    hide Base, WindowOpen, StrictlySorted, NextEvent, NextArrival, Sound, Close;
  }

  /** Largest cost one query can add to the horizon when no probe set exceeds `maxProbe` leaves. */
  function QueryCost(c: Config, maxProbe: nat): real {
    c.fixedCost + c.perLeaf * maxProbe as real + c.perScan * maxProbe as real
  }

  function CostOf(c: Config, maxProbe: nat, queries: nat): real {
    queries as real * QueryCost(c, maxProbe)
  }

  /** Latest time anything can happen once `served` queries are charged. */
  function Horizon(c: Config, maxProbe: nat, served: nat): real {
    ArrivalTime(c, c.nArr) + c.deadline + CostOf(c, maxProbe, served)
  }

  ghost predicate ProbesWithin(c: Config, maxProbe: nat) {
    forall q :: 0 <= q < |c.leafPos| ==> |c.leafPos[q]| <= maxProbe
  }

  ghost predicate WithinHorizon(c: Config, maxProbe: nat, s: State) {
    && s.now <= Horizon(c, maxProbe, |s.lat|)
    && forall w :: w in s.inflight ==> w.End() <= Horizon(c, maxProbe, |s.lat|)
  }

  lemma HorizonGrows(c: Config, maxProbe: nat, served: nat, more: nat)
    requires Sound(c)
    ensures Horizon(c, maxProbe, served) + CostOf(c, maxProbe, more) == Horizon(c, maxProbe, served + more)
    ensures 0.0 <= CostOf(c, maxProbe, more) && CostOf(c, maxProbe, 1) == QueryCost(c, maxProbe)
  {
    var q := QueryCost(c, maxProbe);
    assert q >= 0.0 by {
      assert c.perLeaf * maxProbe as real >= 0.0 && c.perScan * maxProbe as real >= 0.0;
    }
    assert more as real * q >= 0.0;
    assert served as real * q + more as real * q == (served + more) as real * q;
  }

  lemma ExtraWallWithin(c: Config, maxProbe: nat, extra: nat)
    requires Sound(c) && extra <= maxProbe
    ensures ExtraWall(c, extra) <= QueryCost(c, maxProbe)
  {
    var unit := c.perLeaf / c.threads as real;
    assert unit * c.threads as real == c.perLeaf;
    assert unit >= 0.0 && unit * (c.threads as real - 1.0) >= 0.0;
    assert unit <= c.perLeaf;
    assert (maxProbe - extra) as real * unit >= 0.0;
    assert maxProbe as real * (c.perLeaf - unit) >= 0.0;
    assert c.perScan * maxProbe as real >= 0.0;
  }

  lemma {:induction false} ScansWithin(c: Config, maxProbe: nat, members: seq<Waiting>)
    requires ProbesWithin(c, maxProbe) && forall m :: m in members ==> m.query < |c.leafPos|
    ensures Scans(c, members) as real <= |members| as real * maxProbe as real
  {
    if members != [] {
      var n := |members| - 1;
      ScansWithin(c, maxProbe, members[..n]);
      assert members[n] in members;
      var p := maxProbe as real;
      assert |members| as real == n as real + 1.0;
      assert n as real * p + p == (n as real + 1.0) * p;
    }
  }

  lemma SweepWallWithin(c: Config, maxProbe: nat, members: seq<Waiting>)
    requires Sound(c) && ProbesWithin(c, maxProbe) && members != []
    requires forall m :: m in members ==> m.query < |c.leafPos|
    ensures SweepWall(c, members) <= CostOf(c, maxProbe, |members|)
  {
    hide UnionLeaves, Scans, ProbesWithin;
    ScansWithin(c, maxProbe, members);
    var u, n, m, p := |UnionLeaves(c, members)| as real, Scans(c, members) as real, |members| as real, maxProbe as real;
    WallArithmetic(c.fixedCost, c.perLeaf, c.perScan, c.threads as real, u, n, m, p);
  }

  lemma WallArithmetic(f: real, l: real, k: real, th: real, u: real, n: real, m: real, p: real)
    requires f >= 0.0 && l >= 0.0 && k >= 0.0 && th >= 1.0 && 0.0 <= u <= n <= m * p && m >= 1.0
    ensures (f + l * u + k * n) / th <= m * (f + l * p + k * p)
  {
    var x := f + l * u + k * n;
    assert l * u >= 0.0 && k * n >= 0.0;
    assert x / th <= x by {
      var q := x / th;
      assert q * th == x && q >= 0.0;
      assert q * (th - 1.0) >= 0.0;
    }
    assert (m - 1.0) * f >= 0.0;
    assert l * (m * p - u) >= 0.0;
    assert k * (m * p - n) >= 0.0;
    assert m * (f + l * p + k * p) == m * f + l * (m * p) + k * (m * p);
  }

  lemma ServedAtMostArrived(c: Config, s: State)
    requires Inv(c, s)
    ensures |s.lat| + |s.queue| == s.arrived <= c.nArr
  {
    assert |multiset(ChargedIds(s.charges)) + multiset(QueuedIds(s.queue))| == |multiset(Upto(s.arrived))|;
  }

  /** Whenever something is left to do and a slot exists, the next event lies within the horizon. */
  lemma EventWithinHorizon(c: Config, maxProbe: nat, s: State)
    requires Sound(c) && Inv(c, s) && WithinHorizon(c, maxProbe, s) && !Finished(c, s)
    requires NextEvent(c, s) < FAR || c.maxInflight > 0
    ensures NextEvent(c, s) <= Horizon(c, maxProbe, |s.lat|) || NextEvent(c, s) == FAR
    ensures c.maxInflight > 0 && Horizon(c, maxProbe, |s.lat|) < FAR ==> NextEvent(c, s) < FAR
  {
    hide StrictlySorted, Accounted, ArrivalTime, QueryOf, SweepOk, QueryCost;
    HorizonGrows(c, maxProbe, 0, |s.lat|);
    assert ArrivalTime(c, c.nArr) + c.deadline <= Horizon(c, maxProbe, |s.lat|) by {
      HorizonBase(c, maxProbe);
    }
    if s.arrived < c.nArr {
      ArrivalOrder(c, s.arrived, c.nArr);
    }
    if s.inflight != [] {
      NextEndIsEarliest(s.inflight);
      assert NextEnd(s.inflight) <= s.inflight[0].End();
    }
    if s.queue != [] {
      assert WaitingOk(c, s.queue[0], s.arrived);
      ArrivalOrder(c, s.queue[0].id, c.nArr);
    }
  }

  lemma HorizonBase(c: Config, maxProbe: nat)
    ensures Horizon(c, maxProbe, 0) == ArrivalTime(c, c.nArr) + c.deadline
  {
  }

  lemma ArriveWithinHorizon(c: Config, maxProbe: nat, s: State, t: real)
    requires Sound(c) && ProbesWithin(c, maxProbe) && WithinHorizon(c, maxProbe, s)
    ensures WithinHorizon(c, maxProbe, Arrive(c, s, t))
  {
    hide StrictlySorted, Adoptable, JoinDone, Horizon, CostOf, ExtraWall, QueryCost, QueryOf, Merge, Extra;
    var probe := Probe(c, s.arrived);
    var j := if c.joinOn then Adopter(s.inflight, probe, t, 0) else |s.inflight|;
    HorizonGrows(c, maxProbe, |s.lat|, 1);
    if j < |s.inflight| {
      var w := s.inflight[j];
      ExtraWallWithin(c, maxProbe, Extra(w.leaves, probe));
      assert probe[0] in Merge(w.leaves, probe);
      assert Arrive(c, s, t).inflight == s.inflight[j := Adopt(c, w, probe)];
      assert |Arrive(c, s, t).lat| == |s.lat| + 1;
      forall v | v in s.inflight[j := Adopt(c, w, probe)]
        ensures v.End() <= Horizon(c, maxProbe, |s.lat| + 1)
      {
        assert v in s.inflight || v == Adopt(c, w, probe);
        assert w in s.inflight;
      }
    }
  }

  lemma DispatchWithinHorizon(c: Config, maxProbe: nat, s: State, t: real)
    requires Sound(c) && ProbesWithin(c, maxProbe) && WithinHorizon(c, maxProbe, s) && s.now == t
    requires forall m :: m in s.queue ==> m.query < |c.leafPos|
    ensures WithinHorizon(c, maxProbe, Dispatch(c, s, t))
  {
    hide StrictlySorted, Horizon, CostOf, QueryCost, UnionLeaves, SweepWall, Charges, Latencies;
    if Closes(c, s, t) {
      SweepWallWithin(c, maxProbe, s.queue);
      HorizonGrows(c, maxProbe, |s.lat|, |s.queue|);
    }
  }

  lemma StepWithinHorizon(c: Config, maxProbe: nat, s: State)
    requires Sound(c) && ProbesWithin(c, maxProbe) && Inv(c, s) && WithinHorizon(c, maxProbe, s)
    ensures WithinHorizon(c, maxProbe, Next(c, s))
  {
    hide StrictlySorted, Horizon, Arrive, Dispatch, NextEnd, NextArrival, NextClose, ProbesWithin, Base, Finished;
    if Enabled(c, s) {
      EventWithinHorizon(c, maxProbe, s);
      var t := NextEvent(c, s);
      var s1 := s.(inflight := Retire(s.inflight, t), now := t);
      RetireKeepsTheRest(s.inflight, t);
      ArriveWithinHorizon(c, maxProbe, s1, t);
      BeforeDispatchKeeps(c, s);
      DispatchWithinHorizon(c, maxProbe, BeforeDispatch(c, s), t);
    }
  }

  lemma {:induction false} RunWithinHorizon(c: Config, maxProbe: nat, n: nat)
    requires Sound(c) && ProbesWithin(c, maxProbe)
    ensures WithinHorizon(c, maxProbe, Run(c, n))
  {
    hide Next, Inv, WithinHorizon, ProbesWithin, Sound;
    if n == 0 {
      StartWithinHorizon(c, maxProbe);
    } else {
      RunWithinHorizon(c, maxProbe, n - 1);
      StepWithinHorizon(c, maxProbe, Run(c, n - 1));
    }
  }

  lemma StartWithinHorizon(c: Config, maxProbe: nat)
    requires Sound(c)
    ensures WithinHorizon(c, maxProbe, Start())
  {
    HorizonBase(c, maxProbe);
  }

  /** A run that stops below the code's far sentinel has served every arrival, if a slot exists,
      and nobody otherwise. */
  lemma RunServesAll(c: Config, maxProbe: nat, n: nat)
    requires Sound(c) && ProbesWithin(c, maxProbe)
    requires Horizon(c, maxProbe, c.nArr) < FAR
    requires !Enabled(c, Run(c, n))
    ensures |Run(c, n).lat| == c.nArr <==> c.maxInflight > 0 || c.nArr == 0
    ensures c.maxInflight > 0 ==> multiset(ChargedIds(Run(c, n).charges)) == multiset(Upto(c.nArr))
  {
    hide *;
    ServedAtMostArrived(c, Run(c, n));
    if c.maxInflight > 0 {
      StoppedIsFinished(c, maxProbe, n);
      FinishedServesAll(c, Run(c, n));
    } else {
      NoSlotsServeNobody(c, n);
    }
  }

  /** What the latencies of a run that cannot continue are. */
  lemma StoppedRun(c: Config, n: nat)
    requires Sound(c) && !Enabled(c, Run(c, n))
    ensures var lat := Run(c, n).lat;
      && |lat| <= c.nArr && (forall i :: 0 <= i < |lat| ==> lat[i] >= 0.0)
      && forall maxProbe: nat :: ProbesWithin(c, maxProbe) && Horizon(c, maxProbe, c.nArr) < FAR ==>
           (|lat| == c.nArr <==> c.maxInflight > 0 || c.nArr == 0)
  {
    hide *;
    ServedAtMostArrived(c, Run(c, n));
    RunIsSafe(c, n);
    LatenciesNotNegative(Run(c, n).charges);
    forall maxProbe: nat | ProbesWithin(c, maxProbe) && Horizon(c, maxProbe, c.nArr) < FAR
      ensures |Run(c, n).lat| == c.nArr <==> c.maxInflight > 0 || c.nArr == 0
    {
      RunServesAll(c, maxProbe, n);
    }
  }

  lemma LatenciesNotNegative(charges: seq<Charge>)
    ensures forall i :: 0 <= i < |Latencies(charges)| ==> Latencies(charges)[i] >= 0.0
  {
  }

  lemma StoppedIsFinished(c: Config, maxProbe: nat, n: nat)
    requires Sound(c) && ProbesWithin(c, maxProbe) && c.maxInflight > 0
    requires Horizon(c, maxProbe, c.nArr) < FAR
    requires !Enabled(c, Run(c, n))
    ensures Finished(c, Run(c, n))
  {
    hide *;
    var s := Run(c, n);
    assert Enabled(c, s) <==> !Finished(c, s) && NextEvent(c, s) < FAR by {
      EnabledMeans(c, s);
    }
    RunWithinHorizon(c, maxProbe, n);
    ServedAtMostArrived(c, s);
    HorizonGrows(c, maxProbe, |s.lat|, c.nArr - |s.lat|);
    if !Finished(c, s) {
      EventWithinHorizon(c, maxProbe, s);
    }
  }

  lemma EnabledMeans(c: Config, s: State)
    ensures Enabled(c, s) <==> !Finished(c, s) && NextEvent(c, s) < FAR
  {
  }

  /** Safety over every run: bounded sweeps with sorted leaf lists, every arrival charged or queued
      exactly once, latencies as charged, and time that never goes back. */
  lemma RunIsSafe(c: Config, n: nat)
    requires Sound(c)
    ensures var s := Run(c, n);
      && |s.inflight| <= c.maxInflight
      && (forall w :: w in s.inflight ==> w.start <= s.now <= w.End() && StrictlySorted(w.leaves))
      && |s.lat| + |s.queue| == s.arrived <= c.nArr
      && multiset(ChargedIds(s.charges)) + multiset(QueuedIds(s.queue)) == multiset(Upto(s.arrived))
      && s.lat == Latencies(s.charges)
      && s.now <= Run(c, n + 1).now
  {
    var s := Run(c, n);
    ServedAtMostArrived(c, s);
    assert Run(c, n + 1) == Next(c, s);
    forall w | w in s.inflight ensures SweepOk(w, s.now) {
    }
  }

  // ----- the loop itself -----

  method EarliestEnd(inflight: seq<Sweep>) returns (te: real)
    ensures te == NextEnd(inflight)
  {
    te := FAR;
    for i := 0 to |inflight|
      invariant te == NextEnd(inflight[..i])
    {
      assert inflight[..i + 1][..i] == inflight[..i];
      te := MinR(te, inflight[i].End());
    }
    assert inflight[..|inflight|] == inflight;
  }

  lemma FoundIffCovered(s: seq<nat>, x: nat)
    requires StrictlySorted(s)
    ensures x in s <==> LowerBound(s, x) < |s| && s[LowerBound(s, x)] == x
  {
    if x in s {
      var i :| 0 <= i < |s| && s[i] == x;
      var r := LowerBound(s, x);
      assert r <= i;
    }
  }

  /** The scan over the probe set of one candidate sweep. */
  method CanAdopt(w: Sweep, probe: seq<nat>, t: real) returns (ok: bool, extra: nat)
    requires StrictlySorted(w.leaves)
    ensures ok <==> Adoptable(w, probe, t)
    ensures ok ==> extra == Extra(w.leaves, probe)
  {
    hide Sweep.Done, StrictlySorted, LowerBound;
    var done := w.Done(t);
    extra := 0;
    for i := 0 to |probe|
      invariant forall k :: 0 <= k < i && probe[k] in w.leaves ==> !(LowerBound(w.leaves, probe[k]) as real < done)
      invariant extra == Extra(w.leaves, probe[..i])
    {
      var rank := LowerBound(w.leaves, probe[i]);
      FoundIffCovered(w.leaves, probe[i]);
      assert probe[..i + 1][..i] == probe[..i];
      if rank < |w.leaves| && w.leaves[rank] == probe[i] {
        if rank as real < done {
          return false, extra;
        }
      } else {
        extra := extra + 1;
      }
    }
    assert probe[..|probe|] == probe;
    return true, extra;
  }

  /** The scan over the in-flight sweeps for the first that can adopt. */
  method FindAdopter(inflight: seq<Sweep>, probe: seq<nat>, t: real) returns (j: nat, extra: nat)
    requires forall w :: w in inflight ==> StrictlySorted(w.leaves)
    ensures j == Adopter(inflight, probe, t, 0)
    ensures j < |inflight| ==> extra == Extra(inflight[j].leaves, probe)
  {
    hide StrictlySorted, Adoptable;
    j, extra := 0, 0;
    while j < |inflight|
      invariant j <= |inflight| && Adopter(inflight, probe, t, 0) == Adopter(inflight, probe, t, j)
    {
      var ok, e := CanAdopt(inflight[j], probe, t);
      if ok {
        return j, e;
      }
      j := j + 1;
    }
  }

  lemma RetiredSorted(c: Config, s: State, t: real)
    requires Inv(c, s)
    ensures forall w :: w in Retire(s.inflight, t) ==> StrictlySorted(w.leaves)
  {
    RetireKeepsTheRest(s.inflight, t);
    forall w | w in Retire(s.inflight, t) ensures StrictlySorted(w.leaves) {
      assert SweepOk(w, s.now);
    }
  }

  /** The arrival branch: join an in-flight sweep or wait in the queue. */
  method HandleArrival(c: Config, ghost s: State, inflight: seq<Sweep>, queue: seq<Waiting>, lat: seq<real>,
                       arrived: nat, t: real)
    returns (inflight': seq<Sweep>, queue': seq<Waiting>, lat': seq<real>)
    requires Sound(c) && forall w :: w in inflight ==> StrictlySorted(w.leaves)
    requires s.inflight == inflight && s.queue == queue && s.lat == lat && s.arrived == arrived
    ensures var a := Arrive(c, s, t);
      && inflight' == a.inflight && queue' == a.queue && lat' == a.lat
      && a.arrived == arrived + 1 && a.lastArrival == t
  {
    hide StrictlySorted, Adoptable, Adopter, Merge, Portion, LastRank, Extra, ExtraWall, LowerBound, QueryOf,
        Sweep.Done;
    inflight', queue', lat' := inflight, queue, lat;
    var probe := Probe(c, arrived);
    var joined := false;
    if c.joinOn {
      var j, extra := FindAdopter(inflight, probe, t);
      if j < |inflight| {
        var w := inflight[j];
        var merged := Merge(w.leaves, probe);
        var wall := w.wall + ExtraWall(c, extra);
        assert probe[0] in merged;
        var doneAt := w.start + Portion((LastRank(merged, probe) + 1) as real, |merged| as real, wall);
        inflight' := inflight[j := Sweep(w.start, wall, merged)];
        lat' := lat + [MaxR(0.0, doneAt - t)];
        joined := true;
      }
    }
    if !joined {
      queue' := queue + [Waiting(QueryOf(c, arrived), t, arrived)];
    }
  }

  /** The dispatch branch: the whole queue leaves in one sweep once the window has closed. */
  method HandleDispatch(c: Config, ghost s: State, inflight: seq<Sweep>, queue: seq<Waiting>, lat: seq<real>,
                        lastArrival: real, t: real)
    returns (inflight': seq<Sweep>, queue': seq<Waiting>, lat': seq<real>)
    requires Sound(c) && forall m :: m in queue ==> m.query < |c.leafPos|
    requires s.inflight == inflight && s.queue == queue && s.lat == lat && s.lastArrival == lastArrival
    ensures var d := Dispatch(c, s, t);
      && inflight' == d.inflight && queue' == d.queue && lat' == d.lat
      && d.arrived == s.arrived && d.lastArrival == lastArrival
  {
    hide StrictlySorted, UnionLeaves, SweepWall, Charges, Latencies;
    inflight', queue', lat' := inflight, queue, lat;
    if queue != [] && |inflight| < c.maxInflight {
      var close := MaxR(lastArrival + c.idle, queue[0].arrival);
      close := MinR(close, queue[0].arrival + c.deadline);
      if t >= close {
        var w := Sweep(t, SweepWall(c, queue), UnionLeaves(c, queue));
        lat' := lat + Latencies(Charges(queue, w.End()));
        inflight' := inflight + [w];
        queue' := [];
      }
    }
  }

  /** The event loop. It ends, and its latencies are those of a run that cannot continue. */
  method Simulate(c: Config) returns (lat: seq<real>, ghost n: nat)
    requires Sound(c)
    ensures lat == Run(c, n).lat && !Enabled(c, Run(c, n))
    ensures |lat| <= c.nArr && forall i :: 0 <= i < |lat| ==> lat[i] >= 0.0
    ensures forall maxProbe: nat :: ProbesWithin(c, maxProbe) && Horizon(c, maxProbe, c.nArr) < FAR ==>
              (|lat| == c.nArr <==> c.maxInflight > 0 || c.nArr == 0)
  {
    hide Inv, Sound, NextEnd, Retire, Dispatch, StrictlySorted, Arrive, ArrivalTime;
    var inflight: seq<Sweep> := [];
    var queue: seq<Waiting> := [];
    lat := [];
    var arrived: nat := 0;
    var lastArrival := -1000000000.0;
    n := 0;
    ghost var s := Start();
    while arrived < c.nArr || queue != [] || inflight != []
      invariant s == Run(c, n)
      invariant s.inflight == inflight && s.queue == queue && s.lat == lat
      invariant s.arrived == arrived && s.lastArrival == lastArrival
      decreases Measure(c, s)
    {
      var ta := if arrived < c.nArr then ArrivalTime(c, arrived) else FAR;
      var te := EarliestEnd(inflight);
      var td := FAR;
      if queue != [] && |inflight| < c.maxInflight {
        td := MaxR(lastArrival + c.idle, queue[0].arrival);
        td := MinR(td, queue[0].arrival + c.deadline);
      }
      var t := MinR(MinR(ta, te), td);
      assert t == NextEvent(c, s);
      if t >= FAR {
        break;
      }
      ghost var retired := s.(inflight := Retire(s.inflight, t), now := t);
      ghost var prior := s;
      BeforeDispatchKeeps(c, s);
      RetiredSorted(c, s, t);
      s := Next(c, s);
      n := n + 1;

      inflight := Retire(inflight, t);
      if ta == t {
        inflight, queue, lat := HandleArrival(c, retired, inflight, queue, lat, arrived, t);
        lastArrival := t;
        arrived := arrived + 1;
      }
      inflight, queue, lat := HandleDispatch(c, BeforeDispatch(c, prior), inflight, queue, lat, lastArrival, t);
    }
    StoppedRun(c, n);
  }
}
