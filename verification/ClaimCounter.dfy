/** Workers that claim tasks from one shared atomic counter (sources/parquet_glob_source.cpp:319-351,
    scripts/subtree_major.cpp:128-138 and 161-169). Every worker repeats: take the counter's value and
    add one, stop if it is past the last task, else work the task off item by item. A schedule is any
    sequence of worker numbers; each entry is one atomic step of that worker. */
module ClaimCounter {

  datatype Phase = Idle | Busy(task: nat, pos: nat) | Stopped

  /** `done[t]` items of task `t` are handed on, `owner[t]` claimed it, `log` is everything handed on. */
  datatype State<T> = State(counter: nat, workers: seq<Phase>, done: seq<nat>, owner: seq<nat>, log: seq<T>)

  function Start<T>(tasks: seq<seq<T>>, workers: nat): State<T> {
    State(0, seq(workers, _ => Idle), seq(|tasks|, _ => 0), [], [])
  }

  function Step<T>(tasks: seq<seq<T>>, s: State<T>, w: nat): State<T>
    requires w < |s.workers| && |s.done| == |tasks|
    requires s.workers[w].Busy? ==> s.workers[w].task < |tasks|
  {
    match s.workers[w]
    case Idle =>
      if s.counter >= |tasks| then s.(counter := s.counter + 1, workers := s.workers[w := Stopped])
      else s.(counter := s.counter + 1, workers := s.workers[w := Busy(s.counter, 0)], owner := s.owner + [w])
    case Busy(t, pos) =>
      if pos < |tasks[t]| then
        s.(workers := s.workers[w := Busy(t, pos + 1)], done := s.done[t := pos + 1], log := s.log + [tasks[t][pos]])
      else s.(workers := s.workers[w := Idle])
    case Stopped => s
  }

  // ----- totals -----

  function Total(xs: seq<nat>): nat {
    if xs == [] then 0 else Total(xs[..|xs| - 1]) + xs[|xs| - 1]
  }

  lemma {:induction false} TotalUpdate(xs: seq<nat>, i: nat, v: nat)
    requires i < |xs|
    ensures Total(xs[i := v]) + xs[i] == Total(xs) + v
  {
    var n := |xs| - 1;
    if i < n {
      TotalUpdate(xs[..n], i, v);
      assert xs[i := v][..n] == xs[..n][i := v];
    } else {
      assert xs[i := v][..n] == xs[..n];
    }
  }

  function Weight(p: Phase): nat {
    match p
    case Idle => 1
    case Busy(_, _) => 2
    case Stopped => 0
  }

  function Weights(workers: seq<Phase>): seq<nat> {
    seq(|workers|, i requires 0 <= i < |workers| => Weight(workers[i]))
  }

  function StopFlags(workers: seq<Phase>): seq<nat> {
    seq(|workers|, i requires 0 <= i < |workers| => if workers[i].Stopped? then 1 else 0)
  }

  lemma WorkerTotals(workers: seq<Phase>, w: nat, p: Phase)
    requires w < |workers|
    ensures Total(Weights(workers[w := p])) + Weight(workers[w]) == Total(Weights(workers)) + Weight(p)
    ensures Total(StopFlags(workers[w := p])) + (if workers[w].Stopped? then 1 else 0)
            == Total(StopFlags(workers)) + (if p.Stopped? then 1 else 0)
  {
    TotalUpdate(Weights(workers), w, Weight(p));
    assert Weights(workers[w := p]) == Weights(workers)[w := Weight(p)];
    var flag := if p.Stopped? then 1 else 0;
    TotalUpdate(StopFlags(workers), w, flag);
    assert StopFlags(workers[w := p]) == StopFlags(workers)[w := flag];
  }

  lemma {:induction false} FlagsBounded(flags: seq<nat>)
    requires forall i :: 0 <= i < |flags| ==> flags[i] <= 1
    ensures Total(flags) <= |flags|
  {
    if flags != [] {
      FlagsBounded(flags[..|flags| - 1]);
    }
  }

  // ----- what has been handed on -----

  ghost function Delivered<T>(tasks: seq<seq<T>>, done: seq<nat>, n: nat): multiset<T>
    requires n <= |tasks| && |done| == |tasks| && forall t :: 0 <= t < |tasks| ==> done[t] <= |tasks[t]|
  {
    if n == 0 then multiset{} else Delivered(tasks, done, n - 1) + multiset(tasks[n - 1][..done[n - 1]])
  }

  lemma OneMoreItem<T>(task: seq<T>, k: nat)
    requires k < |task|
    ensures multiset(task[..k + 1]) == multiset(task[..k]) + multiset{task[k]}
  {
    assert task[..k + 1] == task[..k] + [task[k]];
  }

  lemma Regrouped<T>(a: multiset<T>, x: multiset<T>, b: multiset<T>)
    ensures a + x + b == a + b + x && a + multiset{} == a && a + (b + x) == a + b + x
  {
  }

  lemma {:induction false} DeliveredOneMore<T>(tasks: seq<seq<T>>, done: seq<nat>, t: nat, n: nat)
    requires n <= |tasks| && |done| == |tasks| && forall i :: 0 <= i < |tasks| ==> done[i] <= |tasks[i]|
    requires t < |tasks| && done[t] < |tasks[t]|
    ensures Delivered(tasks, done[t := done[t] + 1], n)
            == Delivered(tasks, done, n) + if t < n then multiset{tasks[t][done[t]]} else multiset{}
  {
    if n > 0 {
      var more := done[t := done[t] + 1];
      DeliveredOneMore(tasks, done, t, n - 1);
      LastDelivered(tasks, done, n);
      LastDelivered(tasks, more, n);
      OneMoreItem(tasks[t], done[t]);
      hide *;
      Regrouped(Delivered(tasks, done, n - 1), multiset{tasks[t][done[t]]}, multiset(tasks[n - 1][..done[n - 1]]));
    }
  }

  lemma LastDelivered<T>(tasks: seq<seq<T>>, done: seq<nat>, n: nat)
    requires 0 < n <= |tasks| && |done| == |tasks| && forall i :: 0 <= i < |tasks| ==> done[i] <= |tasks[i]|
    ensures Delivered(tasks, done, n) == Delivered(tasks, done, n - 1) + multiset(tasks[n - 1][..done[n - 1]])
  {
  }

  /** All items, task after task: what one worker alone would hand on. */
  function InOrder<T>(tasks: seq<seq<T>>, n: nat): seq<T>
    requires n <= |tasks|
  {
    if n == 0 then [] else InOrder(tasks, n - 1) + tasks[n - 1]
  }

  lemma {:induction false} NothingDelivered<T>(tasks: seq<seq<T>>, n: nat)
    requires n <= |tasks|
    ensures Delivered(tasks, seq(|tasks|, _ => 0), n) == multiset{}
  {
    if n > 0 {
      NothingDelivered(tasks, n - 1);
    }
  }

  lemma {:induction false} EverythingDelivered<T>(tasks: seq<seq<T>>, done: seq<nat>, n: nat)
    requires n <= |tasks| && |done| == |tasks| && forall t :: 0 <= t < |tasks| ==> done[t] == |tasks[t]|
    ensures Delivered(tasks, done, n) == multiset(InOrder(tasks, n))
  {
    if n > 0 {
      EverythingDelivered(tasks, done, n - 1);
      assert tasks[n - 1][..done[n - 1]] == tasks[n - 1];
    }
  }

  // ----- the invariant -----

  ghost predicate DoneOk<T>(tasks: seq<seq<T>>, done: seq<nat>) {
    |done| == |tasks| && forall t :: 0 <= t < |tasks| ==> done[t] <= |tasks[t]|
  }

  /** Every claimed task has one owner, who is working on it exactly where it stands or has finished it. */
  ghost predicate Claims<T>(tasks: seq<seq<T>>, s: State<T>)
    requires DoneOk(tasks, s.done)
  {
    && |s.owner| <= |tasks|
    && (forall w :: 0 <= w < |s.workers| && s.workers[w].Busy? ==>
          var t := s.workers[w].task; t < |s.owner| && s.owner[t] == w && s.done[t] == s.workers[w].pos)
    && (forall t :: 0 <= t < |s.owner| ==>
          && s.owner[t] < |s.workers|
          && (s.done[t] == |tasks[t]| || s.workers[s.owner[t]] == Busy(t, s.done[t])))
    && (forall t :: |s.owner| <= t < |tasks| ==> s.done[t] == 0)
  }

  ghost predicate Inv<T>(tasks: seq<seq<T>>, s: State<T>) {
    && DoneOk(tasks, s.done) && Claims(tasks, s)
    && |s.owner| == (if s.counter < |tasks| then s.counter else |tasks|)
    && s.counter == |s.owner| + Total(StopFlags(s.workers))
    && (forall w :: 0 <= w < |s.workers| && s.workers[w].Stopped? ==> s.counter >= |tasks|)
    && multiset(s.log) == Delivered(tasks, s.done, |tasks|)
  }

  lemma {:induction false} NoFlags(n: nat)
    ensures Total(StopFlags(seq(n, _ => Idle))) == 0
  {
    if n > 0 {
      NoFlags(n - 1);
      var idle: seq<Phase> := seq(n, _ => Idle);
      assert StopFlags(idle)[..n - 1] == StopFlags(seq(n - 1, _ => Idle));
    }
  }

  lemma StartInv<T>(tasks: seq<seq<T>>, workers: nat)
    ensures Inv(tasks, Start(tasks, workers))
  {
    NothingDelivered(tasks, |tasks|);
    NoFlags(workers);
  }

  lemma ClaimKeepsInv<T>(tasks: seq<seq<T>>, s: State<T>, w: nat)
    requires Inv(tasks, s) && w < |s.workers| && s.workers[w].Idle?
    ensures Inv(tasks, Step(tasks, s, w))
  {
    var r := Step(tasks, s, w);
    ClaimKeepsClaims(tasks, s, w);
    WorkerTotals(s.workers, w, r.workers[w]);
    hide Total, StopFlags, Weights, Delivered, DoneOk, Claims;
  }

  lemma ClaimKeepsClaims<T>(tasks: seq<seq<T>>, s: State<T>, w: nat)
    requires DoneOk(tasks, s.done) && Claims(tasks, s) && w < |s.workers| && s.workers[w].Idle?
    requires |s.owner| == if s.counter < |tasks| then s.counter else |tasks|
    ensures var r := Step(tasks, s, w); DoneOk(tasks, r.done) && Claims(tasks, r)
  {
  }

  lemma WorkKeepsClaims<T>(tasks: seq<seq<T>>, s: State<T>, w: nat)
    requires DoneOk(tasks, s.done) && Claims(tasks, s) && w < |s.workers| && s.workers[w].Busy?
    ensures DoneOk(tasks, Step(tasks, s, w).done) && Claims(tasks, Step(tasks, s, w))
  {
  }

  /** A busy worker stands where its task stands. */
  lemma BusyAt<T>(tasks: seq<seq<T>>, s: State<T>, w: nat)
    requires DoneOk(tasks, s.done) && Claims(tasks, s) && w < |s.workers| && s.workers[w].Busy?
    ensures s.workers[w].task < |tasks| && s.done[s.workers[w].task] == s.workers[w].pos
  {
  }

  lemma WorkKeepsLog<T>(tasks: seq<seq<T>>, s: State<T>, w: nat)
    requires DoneOk(tasks, s.done) && w < |s.workers| && s.workers[w].Busy?
    requires s.workers[w].task < |tasks| && s.done[s.workers[w].task] == s.workers[w].pos
    requires multiset(s.log) == Delivered(tasks, s.done, |tasks|)
    ensures var r := Step(tasks, s, w); DoneOk(tasks, r.done) && multiset(r.log) == Delivered(tasks, r.done, |tasks|)
  {
    hide Delivered;
    if s.workers[w].pos < |tasks[s.workers[w].task]| {
      LogGrows(tasks, s.done, s.log, s.workers[w].task);
    }
  }

  lemma LogGrows<T>(tasks: seq<seq<T>>, done: seq<nat>, log: seq<T>, t: nat)
    requires DoneOk(tasks, done) && t < |tasks| && done[t] < |tasks[t]|
    requires multiset(log) == Delivered(tasks, done, |tasks|)
    ensures DoneOk(tasks, done[t := done[t] + 1])
    ensures multiset(log + [tasks[t][done[t]]]) == Delivered(tasks, done[t := done[t] + 1], |tasks|)
  {
    hide Delivered;
    DeliveredOneMore(tasks, done, t, |tasks|);
  }

  lemma WorkKeepsInv<T>(tasks: seq<seq<T>>, s: State<T>, w: nat)
    requires Inv(tasks, s) && w < |s.workers| && s.workers[w].Busy?
    ensures Inv(tasks, Step(tasks, s, w))
  {
    BusyAt(tasks, s, w);
    hide Total, StopFlags, Weights, Delivered, DoneOk, Claims;
    WorkKeepsClaims(tasks, s, w);
    WorkKeepsLog(tasks, s, w);
    var r := Step(tasks, s, w);
    assert r.counter == s.counter && r.owner == s.owner && r.workers == s.workers[w := r.workers[w]];
    assert !r.workers[w].Stopped?;
    hide Step;
    WorkerTotals(s.workers, w, r.workers[w]);
  }

  lemma StepKeepsInv<T>(tasks: seq<seq<T>>, s: State<T>, w: nat)
    requires Inv(tasks, s) && w < |s.workers|
    ensures Inv(tasks, Step(tasks, s, w)) && |Step(tasks, s, w).workers| == |s.workers|
  {
    match s.workers[w]
    case Idle => ClaimKeepsInv(tasks, s, w);
    case Busy(_, _) => WorkKeepsInv(tasks, s, w);
    case Stopped =>
  }

  // ----- whole runs -----

  /** The state after a schedule; entries that name no worker do nothing. */
  ghost function Run<T>(tasks: seq<seq<T>>, workers: nat, schedule: seq<nat>): (s: State<T>)
    ensures Inv(tasks, s) && |s.workers| == workers
  {
    if schedule == [] then
      StartInv(tasks, workers); Start(tasks, workers)
    else
      var s := Run(tasks, workers, schedule[..|schedule| - 1]);
      var w := schedule[|schedule| - 1];
      if w < workers then StepKeepsInv(tasks, s, w); Step(tasks, s, w) else s
  }

  ghost predicate AllStopped<T>(s: State<T>) {
    forall w :: 0 <= w < |s.workers| ==> s.workers[w].Stopped?
  }

  /** When every worker has stopped, each item was handed on exactly as often as one worker alone would
      have, and every task had exactly one owner, whatever the schedule. */
  lemma AllWorkDoneOnce<T>(tasks: seq<seq<T>>, workers: nat, schedule: seq<nat>)
    requires workers > 0 && AllStopped(Run(tasks, workers, schedule))
    ensures multiset(Run(tasks, workers, schedule).log) == multiset(InOrder(tasks, |tasks|))
    ensures |Run(tasks, workers, schedule).owner| == |tasks|
    ensures Run(tasks, workers, schedule).done == seq(|tasks|, t requires 0 <= t < |tasks| => |tasks[t]|)
  {
    var s := Run(tasks, workers, schedule);
    assert s.workers[0].Stopped?;
    forall t | 0 <= t < |tasks| ensures s.done[t] == |tasks[t]| {
      assert s.workers[s.owner[t]].Stopped?;
    }
    EverythingDelivered(tasks, s.done, |tasks|);
  }

  /** No two workers ever hold the same task. */
  lemma NoSharedTask<T>(tasks: seq<seq<T>>, workers: nat, schedule: seq<nat>, v: nat, w: nat)
    requires v < workers && w < workers && v != w
    ensures var s := Run(tasks, workers, schedule);
            s.workers[v].Busy? && s.workers[w].Busy? ==> s.workers[v].task != s.workers[w].task
  {
    var s := Run(tasks, workers, schedule);
    assert Claims(tasks, s);
  }

  /** The counter overshoots by at most one per worker, so it never wraps while tasks and workers fit. */
  lemma CounterBound<T>(tasks: seq<seq<T>>, workers: nat, schedule: seq<nat>)
    ensures Run(tasks, workers, schedule).counter <= |tasks| + workers
  {
    FlagsBounded(StopFlags(Run(tasks, workers, schedule).workers));
  }

  function Lengths<T>(tasks: seq<seq<T>>, done: seq<nat>): seq<nat>
    requires |done| == |tasks| && forall t :: 0 <= t < |tasks| ==> done[t] <= |tasks[t]|
  {
    seq(|tasks|, t requires 0 <= t < |tasks| => |tasks[t]| - done[t])
  }

  /** Unclaimed tasks count twice, items left once, a worker by its phase. */
  ghost function WorkLeft<T>(tasks: seq<seq<T>>, s: State<T>): nat
    requires Inv(tasks, s)
  {
    2 * (|tasks| - |s.owner|) + Total(Lengths(tasks, s.done)) + Total(Weights(s.workers))
  }

  lemma LengthsAfter<T>(tasks: seq<seq<T>>, done: seq<nat>, t: nat)
    requires DoneOk(tasks, done) && t < |tasks| && done[t] < |tasks[t]|
    ensures Total(Lengths(tasks, done[t := done[t] + 1])) == Total(Lengths(tasks, done)) - 1
  {
    TotalUpdate(Lengths(tasks, done), t, |tasks[t]| - done[t] - 1);
    assert Lengths(tasks, done[t := done[t] + 1]) == Lengths(tasks, done)[t := |tasks[t]| - done[t] - 1];
  }

  /** What a step leaves to do, case by case. */
  lemma StepLeaves<T>(tasks: seq<seq<T>>, s: State<T>, w: nat)
    requires Inv(tasks, s) && w < |s.workers| && !s.workers[w].Stopped?
    ensures var r := Step(tasks, s, w);
      var p := s.workers[w];
      && |s.owner| <= |tasks| && |r.owner| <= |tasks| && DoneOk(tasks, s.done) && DoneOk(tasks, r.done)
      && |r.owner| == |s.owner| + (if p.Idle? && r.workers[w].Busy? then 1 else 0)
      && Total(Lengths(tasks, r.done)) == Total(Lengths(tasks, s.done))
                                        - (if p.Busy? && r.workers[w].Busy? then 1 else 0)
      && r.workers == s.workers[w := r.workers[w]]
      && (p.Idle? ==> r.workers[w].Busy? || r.workers[w].Stopped?)
      && (p.Busy? ==> r.workers[w].Busy? || r.workers[w].Idle?)
  {
    StepKeepsInv(tasks, s, w);
    if s.workers[w].Busy? && s.workers[w].pos < |tasks[s.workers[w].task]| {
      assert s.done[s.workers[w].task] == s.workers[w].pos;
      LengthsAfter(tasks, s.done, s.workers[w].task);
    }
    hide Total, StopFlags, Weights, Delivered, Lengths;
  }

  /** Every step of a worker that has not stopped brings the end nearer. */
  lemma EveryStepProgresses<T>(tasks: seq<seq<T>>, s: State<T>, w: nat)
    requires Inv(tasks, s) && w < |s.workers| && !s.workers[w].Stopped?
    ensures Inv(tasks, Step(tasks, s, w)) && WorkLeft(tasks, Step(tasks, s, w)) == WorkLeft(tasks, s) - 1
  {
    StepKeepsInv(tasks, s, w);
    StepLeaves(tasks, s, w);
    WorkerTotals(s.workers, w, Step(tasks, s, w).workers[w]);
    hide Total, StopFlags, Weights, Delivered, Lengths, Step, Inv, DoneOk;
  }

  lemma RunOneMore<T>(tasks: seq<seq<T>>, workers: nat, schedule: seq<nat>, w: nat)
    requires w < workers
    ensures Run(tasks, workers, schedule + [w]) == Step(tasks, Run(tasks, workers, schedule), w)
  {
    hide Step, Inv;
    assert (schedule + [w])[..|schedule|] == schedule;
  }

  /** Every schedule can be continued until all workers have stopped. */
  lemma {:induction false} CanEnd<T>(tasks: seq<seq<T>>, workers: nat, schedule: seq<nat>) returns (more: seq<nat>)
    ensures AllStopped(Run(tasks, workers, schedule + more))
    decreases WorkLeft(tasks, Run(tasks, workers, schedule))
  {
    hide Run, Step, Inv, WorkLeft;
    var s := Run(tasks, workers, schedule);
    if AllStopped(s) {
      more := [];
      assert schedule + more == schedule;
    } else {
      var w :| 0 <= w < workers && !s.workers[w].Stopped?;
      EveryStepProgresses(tasks, s, w);
      RunOneMore(tasks, workers, schedule, w);
      var rest := CanEnd(tasks, workers, schedule + [w]);
      more := [w] + rest;
      assert schedule + more == schedule + [w] + rest;
    }
  }
}
