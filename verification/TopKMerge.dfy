/** Streaming top-k ground truth (scripts/gen_ground_truth.py:65-134): chunk by chunk, every query's
    sorted list of k entries is merged with the chunk's rows that beat its worst entry. */
module TopKMerge {
  import opened Numbers
  import opened Vectors

  datatype Dist = Finite(d: real) | Inf

  /** A placeholder has an infinite distance and the id -1. */
  datatype Entry = Entry(dist: Dist, id: int)

  predicate Less(x: Dist, y: Dist) {
    x.Finite? && (y.Inf? || x.d < y.d)
  }

  predicate AtMost(x: Dist, y: Dist) {
    !Less(y, x)
  }

  ghost predicate Sorted(s: seq<Entry>) {
    forall i, j :: 0 <= i < j < |s| ==> AtMost(s[i].dist, s[j].dist)
  }

  /** `kept` is a choice of the `k` nearest of `all`, with multiplicity. */
  ghost predicate KeepsNearest(kept: multiset<Entry>, all: multiset<Entry>, k: nat) {
    && kept <= all && |kept| == Min(k, |all|)
    && forall x, y :: x in kept && y in all - kept ==> AtMost(x.dist, y.dist)
  }

  // ----- selection -----

  function Insert(s: seq<Entry>, x: Entry): (r: seq<Entry>)
    ensures multiset(r) == multiset(s) + multiset{x}
  {
    if s == [] || Less(x.dist, s[0].dist) then [x] + s
    else
      assert s == [s[0]] + s[1..];
      [s[0]] + Insert(s[1..], x)
  }

  lemma {:induction false} InsertSorted(s: seq<Entry>, x: Entry)
    requires Sorted(s)
    ensures Sorted(Insert(s, x))
  {
    if s != [] && !Less(x.dist, s[0].dist) {
      InsertSorted(s[1..], x);
      var t := Insert(s[1..], x);
      forall y | y in t ensures AtMost(s[0].dist, y.dist) {
        assert y in multiset(t);
        assert y == x || y in s[1..];
      }
    }
  }

  /** A sorted list of the `k` nearest entries, ties in any order (`argpartition` and `argsort`). */
  method Smallest(all: seq<Entry>, k: nat) returns (r: seq<Entry>)
    ensures Sorted(r) && KeepsNearest(multiset(r), multiset(all), k)
  {
    var s: seq<Entry> := [];
    for i := 0 to |all|
      invariant Sorted(s) && multiset(s) == multiset(all[..i])
    {
      assert all[..i + 1] == all[..i] + [all[i]];
      InsertSorted(s, all[i]);
      s := Insert(s, all[i]);
    }
    assert all[..|all|] == all;
    PrefixIsNearest(s, Min(k, |s|));
    r := s[..Min(k, |s|)];
    SameSize(s, all);
  }

  lemma SameSize(s: seq<Entry>, t: seq<Entry>)
    requires multiset(s) == multiset(t)
    ensures |s| == |t|
  {
    assert |multiset(s)| == |s| && |multiset(t)| == |t|;
  }

  lemma PrefixIsNearest(s: seq<Entry>, n: nat)
    requires Sorted(s) && n <= |s|
    ensures KeepsNearest(multiset(s[..n]), multiset(s), n) && Sorted(s[..n])
  {
    assert s == s[..n] + s[n..];
    assert multiset(s) - multiset(s[..n]) == multiset(s[n..]);
    forall x, y | x in multiset(s[..n]) && y in multiset(s) - multiset(s[..n]) ensures AtMost(x.dist, y.dist) {
      assert y in s[n..];
    }
  }

  // ----- merging keeps the nearest -----

  /** Merging more entries in never lets in one worse than all that were kept. */
  lemma NoWorseThanKept(kept: multiset<Entry>, more: multiset<Entry>, merged: multiset<Entry>, k: nat, worst: Dist)
    requires |kept| == k && KeepsNearest(merged, kept + more, k)
    requires forall x :: x in kept ==> AtMost(x.dist, worst)
    ensures forall x :: x in merged ==> AtMost(x.dist, worst)
  {
    if kept <= merged {
      assert merged == kept + (merged - kept);
      assert |merged - kept| == 0;
      assert merged == kept;
    } else {
      var e :| e in kept && merged[e] < kept[e];
      assert e in kept + more - merged;
      forall x | x in merged ensures AtMost(x.dist, worst) {
        assert AtMost(x.dist, e.dist) && AtMost(e.dist, worst);
      }
    }
  }

  /** One merge: `kept` serves `pool`, `gated` are the new entries that passed the gate, and those that
      did not are no nearer than anything in a full `kept`. */
  lemma MergeStep(kept: multiset<Entry>, pool: multiset<Entry>, fresh': multiset<Entry>, gated: multiset<Entry>,
                  merged: multiset<Entry>, k: nat, worst: Dist)
    requires KeepsNearest(kept, pool, k) && KeepsNearest(merged, kept + gated, k)
    requires forall x :: x in kept ==> AtMost(x.dist, worst)
    requires |kept| < k ==> gated == fresh'
    requires GatedFrom(gated, fresh', worst)
    ensures KeepsNearest(merged, pool + fresh', k)
  {
    if |kept| < k {
      assert pool == kept + (pool - kept) && |pool - kept| == 0;
      assert pool == kept;
    } else {
      NoWorseThanKept(kept, gated, merged, k, worst);
      assert |pool| >= k;
      forall x, y | x in merged && y in pool + fresh' - merged ensures AtMost(x.dist, y.dist) {
        Elsewhere(kept, pool, fresh', gated, merged, y);
        if y in pool - kept {
          PoolNoNearer(kept, pool, merged, gated, k, x, y);
        }
      }
    }
  }

  /** Where an entry left out can come from. */
  lemma Elsewhere(kept: multiset<Entry>, pool: multiset<Entry>, fresh': multiset<Entry>, gated: multiset<Entry>,
                  merged: multiset<Entry>, y: Entry)
    requires kept <= pool && gated <= fresh' && y in pool + fresh' - merged
    ensures y in pool - kept || y in fresh' - gated || y in kept + gated - merged
  {
  }

  /** Nothing merged is worse than an old entry that was already left out. */
  lemma PoolNoNearer(kept: multiset<Entry>, pool: multiset<Entry>, merged: multiset<Entry>, gated: multiset<Entry>,
                     k: nat, x: Entry, y: Entry)
    requires KeepsNearest(kept, pool, k) && |kept| == k && KeepsNearest(merged, kept + gated, k)
    requires x in merged && y in pool - kept
    ensures AtMost(x.dist, y.dist)
  {
    forall z | z in kept ensures AtMost(z.dist, y.dist) {
    }
    NoWorseThanKept(kept, gated, merged, k, y.dist);
  }

  /** Two sorted choices of the nearest have the same distances, place by place. */
  lemma SameDistances(a: seq<Entry>, b: seq<Entry>, all: multiset<Entry>, k: nat)
    requires Sorted(a) && Sorted(b) && KeepsNearest(multiset(a), all, k) && KeepsNearest(multiset(b), all, k)
    ensures |a| == |b| && forall i :: 0 <= i < |a| ==> a[i].dist == b[i].dist
  {
    assert |multiset(a)| == |a| && |multiset(b)| == |b|;
    forall i | 0 <= i < |a| ensures a[i].dist == b[i].dist {
      NotBelow(a, b, all, k, i);
      NotBelow(b, a, all, k, i);
    }
  }

  lemma NotBelow(a: seq<Entry>, b: seq<Entry>, all: multiset<Entry>, k: nat, i: nat)
    requires Sorted(a) && Sorted(b) && KeepsNearest(multiset(a), all, k) && KeepsNearest(multiset(b), all, k)
    requires |a| == |b| && i < |a|
    ensures AtMost(a[i].dist, b[i].dist)
  {
    hide *;
    FrontOf(b, i);
    KeptIsPart(multiset(b), all, k);
    var e := ReachesPlace(a, b[..i + 1], multiset(b), all, k, i);
    InOrder(a[i].dist, e.dist, b[i].dist);
  }

  lemma FrontOf(b: seq<Entry>, i: nat)
    requires Sorted(b) && i < |b|
    ensures multiset(b[..i + 1]) <= multiset(b) && forall e :: e in b[..i + 1] ==> AtMost(e.dist, b[i].dist)
  {
    assert b == b[..i + 1] + b[i + 1..];
  }

  lemma KeptIsPart(kept: multiset<Entry>, all: multiset<Entry>, k: nat)
    requires KeepsNearest(kept, all, k)
    ensures kept <= all
  {
  }

  lemma InOrder(x: Dist, y: Dist, z: Dist)
    requires AtMost(x, y) && AtMost(y, z)
    ensures AtMost(x, z)
  {
  }

  lemma ReachesPlace(a: seq<Entry>, front: seq<Entry>, b: multiset<Entry>, all: multiset<Entry>, k: nat, i: nat)
    returns (e: Entry)
    requires Sorted(a) && KeepsNearest(multiset(a), all, k) && b <= all && i < |a|
    requires |front| == i + 1 && multiset(front) <= b
    ensures e in front && AtMost(a[i].dist, e.dist)
  {
    hide Sorted, KeepsNearest, AtMost;
    if multiset(front) <= multiset(a) {
      e := FrontReaches(a, front, i);
    } else {
      e :| e in multiset(front) && multiset(front)[e] > multiset(a)[e];
      assert multiset(front)[e] <= b[e];
      LeftOutNoNearer(a, b, all, k, i, e);
    }
  }

  lemma LeftOutNoNearer(a: seq<Entry>, b: multiset<Entry>, all: multiset<Entry>, k: nat, i: nat, e: Entry)
    requires KeepsNearest(multiset(a), all, k) && b <= all && i < |a| && b[e] > multiset(a)[e]
    ensures AtMost(a[i].dist, e.dist)
  {
    assert b[e] <= all[e];
    assert e in all - multiset(a) && a[i] in multiset(a);
  }

  lemma SmallerSize(f: multiset<Entry>, l: multiset<Entry>)
    requires f <= l
    ensures |f| <= |l|
  {
    assert l == f + (l - f);
  }

  /** Of `i + 1` entries of a sorted list, one stands at place `i` or later. */
  lemma FrontReaches(a: seq<Entry>, front: seq<Entry>, i: nat) returns (e: Entry)
    requires Sorted(a) && i < |a| && |front| == i + 1 && multiset(front) <= multiset(a)
    ensures e in front && AtMost(a[i].dist, e.dist)
  {
    var low, high := a[..i], a[i..];
    assert a == low + high;
    var f, l := multiset(front), multiset(low);
    assert |f| == i + 1 && |l| == i;
    if f <= l {
      SmallerSize(f, l);
      assert false;
    }
    e :| e in f && f[e] > l[e];
    assert multiset(a)[e] == l[e] + multiset(high)[e];
    assert e in high && e in front;
  }

  // ----- the job -----

  /** `self[q]` is the row a sampled query was taken from; for external queries it is -1. `norms` and
      `qnorms` are what the code adds as squared norms. */
  datatype Job = Job(base: seq<seq<real>>, queries: seq<seq<real>>, norms: seq<real>, qnorms: seq<real>,
                     self: seq<int>, external: bool, k: nat, chunk: nat)

  ghost predicate JobOk(job: Job) {
    && |job.norms| == |job.base| && |job.qnorms| == |job.self| == |job.queries|
    && 1 <= job.k < |job.base| && job.chunk >= 1
    && (forall q :: 0 <= q < |job.self| ==> if job.external then job.self[q] == -1 else 0 <= job.self[q] < |job.base|)
    && SameDim(job)
  }

  ghost predicate SameDim(job: Job) {
    forall q, i :: 0 <= q < |job.queries| && 0 <= i < |job.base| ==> |job.queries[q]| == |job.base[i]|
  }

  function Reported(job: Job, q: nat, i: nat): real
    requires JobOk(job) && q < |job.queries| && i < |job.base|
  {
    job.norms[i] + job.qnorms[q] - 2.0 * Dot(job.base[i], job.queries[q], |job.base[i]|)
  }

  function EntryAt(job: Job, q: nat, i: nat): (e: Entry)
    requires JobOk(job) && q < |job.queries| && i < |job.base|
    ensures e.id == i && e.dist.Finite?
  {
    Entry(Finite(Reported(job, q, i)), i)
  }

  function RowList(job: Job, q: nat, a: nat, b: nat): (rows: seq<Entry>)
    requires JobOk(job) && q < |job.queries| && a <= b <= |job.base|
    ensures |rows| == b - a && forall j :: 0 <= j < b - a ==> rows[j].id == a + j && rows[j].dist.Finite?
    decreases b - a
  {
    if a == b then [] else RowList(job, q, a, b - 1) + [EntryAt(job, q, b - 1)]
  }

  /** Without the entries of one id. */
  function Masked(xs: seq<Entry>, id: int): (r: seq<Entry>)
  {
    if xs == [] then [] else Masked(xs[..|xs| - 1], id) + if xs[|xs| - 1].id != id then [xs[|xs| - 1]] else []
  }

  /** Those that beat the current worst. */
  function Gate(xs: seq<Entry>, worst: Dist): (r: seq<Entry>)
  {
    if xs == [] then [] else Gate(xs[..|xs| - 1], worst) + if Less(xs[|xs| - 1].dist, worst) then [xs[|xs| - 1]] else []
  }

  lemma {:induction false} MaskedSplits(xs: seq<Entry>, ys: seq<Entry>, id: int)
    ensures Masked(xs + ys, id) == Masked(xs, id) + Masked(ys, id)
  {
    if ys == [] {
      assert xs + ys == xs;
    } else {
      MaskedSplits(xs, ys[..|ys| - 1], id);
      assert (xs + ys)[..|xs + ys| - 1] == xs + ys[..|ys| - 1];
    }
  }

  lemma {:induction false} MaskedMembers(xs: seq<Entry>, id: int)
    ensures forall e :: e in Masked(xs, id) ==> e in xs && e.id != id
  {
    if xs != [] {
      MaskedMembers(xs[..|xs| - 1], id);
    }
  }

  lemma {:induction false} MaskedKeepsAll(xs: seq<Entry>, id: int)
    requires forall e :: e in xs ==> e.id != id
    ensures Masked(xs, id) == xs
  {
    if xs != [] {
      var last, rest := xs[|xs| - 1], xs[..|xs| - 1];
      assert xs == rest + [last] && last in xs;
      KeepsLast(rest, last, id);
      MaskedKeepsAll(rest, id);
    }
  }

  lemma KeepsLast(rest: seq<Entry>, last: Entry, id: int)
    requires last.id != id
    ensures Masked(rest + [last], id) == Masked(rest, id) + [last]
  {
    assert (rest + [last])[..|rest|] == rest;
  }

  lemma {:induction false} MaskedDropsAll(xs: seq<Entry>, id: int)
    requires forall e :: e in xs ==> e.id == id
    ensures Masked(xs, id) == []
  {
    if xs != [] {
      MaskedDropsAll(xs[..|xs| - 1], id);
    }
  }

  /** `gated` is part of `all`, and what is left out does not beat `worst`. */
  ghost predicate GatedFrom(gated: multiset<Entry>, all: multiset<Entry>, worst: Dist) {
    gated <= all && forall y :: y in all - gated ==> AtMost(worst, y.dist)
  }

  lemma GatedStep(gated: multiset<Entry>, all: multiset<Entry>, worst: Dist, e: Entry)
    requires GatedFrom(gated, all, worst)
    ensures GatedFrom(gated + multiset{e}, all + multiset{e}, worst)
    ensures !Less(e.dist, worst) ==> GatedFrom(gated, all + multiset{e}, worst)
  {
    assert all + multiset{e} - (gated + multiset{e}) == all - gated;
    assert all + multiset{e} - gated == (all - gated) + multiset{e};
  }

  lemma {:induction false} GatedPart(xs: seq<Entry>, worst: Dist, id: int)
    ensures GatedFrom(multiset(Masked(Gate(xs, worst), id)), multiset(Masked(xs, id)), worst)
  {
    hide GatedFrom, Masked;
    if xs == [] {
      NoneGated();
      NothingLeftOut(worst);
    } else {
      var last, rest := xs[|xs| - 1], xs[..|xs| - 1];
      GatedPart(rest, worst, id);
      MaskedLast(rest, last, id);
      MaskedLast(Gate(rest, worst), last, id);
      assert xs == rest + [last];
      assert Gate(xs, worst) == if Less(last.dist, worst) then Gate(rest, worst) + [last] else Gate(rest, worst);
      GatedStep(multiset(Masked(Gate(rest, worst), id)), multiset(Masked(rest, id)), worst, last);
    }
  }

  lemma NothingLeftOut(worst: Dist)
    ensures GatedFrom(multiset{}, multiset{}, worst)
  {
  }

  lemma MaskedLast(rest: seq<Entry>, last: Entry, id: int)
    ensures last.id == id ==> Masked(rest + [last], id) == Masked(rest, id)
    ensures last.id != id ==> multiset(Masked(rest + [last], id)) == multiset(Masked(rest, id)) + multiset{last}
  {
    assert (rest + [last])[..|rest|] == rest;
  }

  lemma {:induction false} GateOpen(xs: seq<Entry>)
    requires forall e :: e in xs ==> e.dist.Finite?
    ensures Gate(xs, Inf) == xs
  {
    if xs != [] {
      GateOpen(xs[..|xs| - 1]);
    }
  }

  /** The rows from `a` up to `b`, the query's own row left out. */
  ghost function Rows(job: Job, q: nat, a: nat, b: nat): multiset<Entry>
    requires JobOk(job) && q < |job.queries| && a <= b <= |job.base|
  {
    multiset(Masked(RowList(job, q, a, b), job.self[q]))
  }

  lemma {:induction false} RowListSplits(job: Job, q: nat, a: nat, b: nat, c: nat)
    requires JobOk(job) && q < |job.queries| && a <= b <= c <= |job.base|
    ensures RowList(job, q, a, c) == RowList(job, q, a, b) + RowList(job, q, b, c)
    decreases c - b
  {
    if b < c {
      RowListSplits(job, q, a, b, c - 1);
    }
  }

  lemma RowsSplit(job: Job, q: nat, b: nat, c: nat)
    requires JobOk(job) && q < |job.queries| && b <= c <= |job.base|
    ensures Rows(job, q, 0, c) == Rows(job, q, 0, b) + Rows(job, q, b, c)
  {
    RowListSplits(job, q, 0, b, c);
    MaskedSplits(RowList(job, q, 0, b), RowList(job, q, b, c), job.self[q]);
  }

  const PLACEHOLDER := Entry(Inf, -1)

  ghost function Copies(e: Entry, n: nat): (r: multiset<Entry>)
    ensures r[e] == n && |r| == n && forall x :: x in r ==> x == e
  {
    multiset{}[e := n]
  }

  function First(job: Job): nat {
    Min(job.chunk, |job.base|)
  }

  /** What a query's list ranks beside the rows: sampled queries keep their placeholders in play,
      external ones lose them with the first chunk, and a first chunk of one single row is broadcast
      over the whole list. */
  ghost function Extra(job: Job, q: nat): multiset<Entry>
    requires JobOk(job) && q < |job.queries|
  {
    if !job.external then Copies(PLACEHOLDER, job.k)
    else if First(job) == 1 then Copies(EntryAt(job, q, 0), job.k - 1)
    else multiset{}
  }

  ghost function PoolAt(job: Job, q: nat, upto: nat): multiset<Entry>
    requires JobOk(job) && q < |job.queries| && upto <= |job.base|
  {
    if job.external && upto == 0 then Copies(PLACEHOLDER, job.k) else Rows(job, q, 0, upto) + Extra(job, q)
  }

  ghost predicate Holds(job: Job, q: nat, top: seq<Entry>, upto: nat)
    requires JobOk(job) && q < |job.queries| && upto <= |job.base|
  {
    |top| == job.k && Sorted(top) && KeepsNearest(multiset(top), PoolAt(job, q, upto), job.k)
  }

  // ----- the merge of one chunk -----

  datatype Merged = Merged(top: seq<Entry>) | ShapeError

  /** Assigning a list to a row of length `k`: equal lengths fit, a single value is broadcast. */
  function Assign(k: nat, order: seq<Entry>): Merged {
    if |order| == k then Merged(order)
    else if |order| == 1 then Merged(seq(k, _ => order[0]))
    else ShapeError
  }

  ghost predicate Fits(job: Job, at: nat, n: nat) {
    !job.external || at > 0 || n >= job.k || n == 1
  }

  lemma {:induction false} RowListSize(job: Job, q: nat, a: nat, b: nat)
    requires JobOk(job) && q < |job.queries| && a <= b <= |job.base|
    ensures forall e :: e in RowList(job, q, a, b) ==> a <= e.id < b && e == EntryAt(job, q, e.id)
    decreases b - a
  {
    if a < b {
      RowListSize(job, q, a, b - 1);
    }
  }

  /** Past the first chunk of an external query, or at any time for a sampled one, the list holds no
      entry that the mask would remove. */
  lemma NoneMasked(job: Job, q: nat, top: seq<Entry>, at: nat)
    requires JobOk(job) && q < |job.queries| && at <= |job.base| && Holds(job, q, top, at) && (!job.external || at > 0)
    ensures Masked(top, job.self[q]) == top
  {
    forall e | e in top ensures e.id != job.self[q] {
      assert e in multiset(top) && e in PoolAt(job, q, at);
      MaskedMembers(RowList(job, q, 0, at), job.self[q]);
      assert e in Rows(job, q, 0, at) ==> e in Masked(RowList(job, q, 0, at), job.self[q]);
    }
    MaskedKeepsAll(top, job.self[q]);
  }

  lemma PoolGrows(job: Job, q: nat, at: nat, n: nat)
    requires JobOk(job) && q < |job.queries| && at + n <= |job.base| && (!job.external || at > 0)
    ensures PoolAt(job, q, at + n) == PoolAt(job, q, at) + Rows(job, q, at, at + n)
  {
    hide *;
    PoolIs(job, q, at);
    PoolIs(job, q, at + n);
    RowsSplit(job, q, at, at + n);
    AddInMiddle(Rows(job, q, 0, at), Rows(job, q, at, at + n), Extra(job, q));
  }

  lemma PoolIs(job: Job, q: nat, upto: nat)
    requires JobOk(job) && q < |job.queries| && upto <= |job.base| && (!job.external || upto > 0)
    ensures PoolAt(job, q, upto) == Rows(job, q, 0, upto) + Extra(job, q)
  {
    hide JobOk, Rows, Extra;
  }

  lemma AddInMiddle(a: multiset<Entry>, b: multiset<Entry>, c: multiset<Entry>)
    ensures a + b + c == a + c + b
  {
  }

  lemma HoldsParts(job: Job, q: nat, top: seq<Entry>, at: nat)
    requires JobOk(job) && q < |job.queries| && at <= |job.base| && Holds(job, q, top, at)
    ensures |top| == job.k == |multiset(top)| && KeepsNearest(multiset(top), PoolAt(job, q, at), job.k)
    ensures forall x :: x in multiset(top) ==> AtMost(x.dist, top[|top| - 1].dist)
  {
    hide PoolAt, KeepsNearest;
    forall x | x in multiset(top) ensures AtMost(x.dist, top[|top| - 1].dist) {
      var i :| 0 <= i < |top| && top[i] == x;
    }
  }

  lemma KeptSize(merged: multiset<Entry>, kept: multiset<Entry>, more: multiset<Entry>, k: nat)
    requires KeepsNearest(merged, kept + more, k) && |kept| == k
    ensures |merged| == k
  {
  }

  /** A merge past the start: the list stays the nearest `k` of a pool grown by the chunk. */
  lemma LaterMerge(job: Job, q: nat, top: seq<Entry>, at: nat, n: nat, merged: multiset<Entry>)
    requires JobOk(job) && q < |job.queries| && at + n <= |job.base| && (!job.external || at > 0)
    requires Holds(job, q, top, at)
    requires var g := Gate(RowList(job, q, at, at + n), top[|top| - 1].dist);
             KeepsNearest(merged, multiset(top) + multiset(Masked(g, job.self[q])), job.k)
    ensures KeepsNearest(merged, PoolAt(job, q, at + n), job.k) && |merged| == job.k
  {
    var list := RowList(job, q, at, at + n);
    var worst := top[|top| - 1].dist;
    var gated := multiset(Masked(Gate(list, worst), job.self[q]));
    assert Rows(job, q, at, at + n) == multiset(Masked(list, job.self[q]));
    hide *;
    HoldsParts(job, q, top, at);
    GatedPart(list, worst, job.self[q]);
    PoolGrows(job, q, at, n);
    KeptSize(merged, multiset(top), gated, job.k);
    MergeStep(multiset(top), PoolAt(job, q, at), Rows(job, q, at, at + n), gated, merged, job.k, worst);
  }

  /** At the start of an external query the list is all placeholders and every row beats them. */
  lemma ExternalStart(job: Job, q: nat, top: seq<Entry>, n: nat)
    requires JobOk(job) && q < |job.queries| && n <= |job.base| && job.external && Holds(job, q, top, 0)
    ensures top[|top| - 1].dist == Inf && Masked(top, -1) == []
    ensures Gate(RowList(job, q, 0, n), Inf) == RowList(job, q, 0, n) == Masked(RowList(job, q, 0, n), -1)
  {
    forall e | e in top ensures e == PLACEHOLDER {
      assert e in multiset(top) && e in PoolAt(job, q, 0);
    }
    MaskedDropsAll(top, -1);
    RowListSize(job, q, 0, n);
    GateOpen(RowList(job, q, 0, n));
    MaskedKeepsAll(RowList(job, q, 0, n), -1);
  }

  lemma AssignedSingle(job: Job, q: nat, order: seq<Entry>)
    requires JobOk(job) && q < |job.queries| && job.external && First(job) == 1 && order == [EntryAt(job, q, 0)]
    ensures Assign(job.k, order).Merged? && Holds(job, q, Assign(job.k, order).top, 1)
  {
    var e := EntryAt(job, q, 0);
    var top := Assign(job.k, order).top;
    assert RowList(job, q, 0, 0) == [];
    assert RowList(job, q, 0, 1) == [e];
    MaskedKeepsAll([e], -1);
    assert Rows(job, q, 0, 1) == multiset{e};
    AllCopies(top, e, job.k);
    assert PoolAt(job, q, 1) == Copies(e, job.k);
  }

  lemma {:induction false} AllCopies(top: seq<Entry>, e: Entry, k: nat)
    requires |top| == k && forall i :: 0 <= i < k ==> top[i] == e
    ensures multiset(top) == Copies(e, k)
  {
    if k > 0 {
      AllCopies(top[..k - 1], e, k - 1);
      assert top == top[..k - 1] + [e];
    }
  }

  /** The first chunk of `n` rows has come in for an external query, and `order` ranks them. */
  ghost predicate FirstOrder(job: Job, q: nat, n: nat, order: seq<Entry>) {
    && JobOk(job) && q < |job.queries| && job.external && n == First(job) && 1 <= n <= |job.base|
    && Sorted(order) && KeepsNearest(multiset(order), multiset(RowList(job, q, 0, n)), job.k)
    && Masked(RowList(job, q, 0, n), -1) == RowList(job, q, 0, n)
  }

  /** The assignment does what it should: it fails unless the sizes fit, else the list is right. */
  ghost predicate Assigned(job: Job, q: nat, n: nat, order: seq<Entry>) {
    && JobOk(job) && q < |job.queries| && n <= |job.base|
    && var r := Assign(job.k, order);
       && (r.Merged? <==> n >= job.k || n == 1)
       && (r.Merged? ==> Holds(job, q, r.top, n))
  }

  lemma FirstMerge(job: Job, q: nat, n: nat, order: seq<Entry>)
    requires FirstOrder(job, q, n, order)
    ensures Assigned(job, q, n, order)
  {
    hide *;
    if n == 1 {
      FirstSingle(job, q, order);
    } else if n >= job.k {
      FirstFull(job, q, n, order);
    } else {
      FirstShort(job, q, n, order);
    }
  }

  lemma FirstSingle(job: Job, q: nat, order: seq<Entry>)
    requires FirstOrder(job, q, 1, order)
    ensures Assigned(job, q, 1, order)
  {
    hide Sorted, KeepsNearest, Masked, SameDim, RowList, Assign, Holds;
    NearestSize(order, RowList(job, q, 0, 1), job.k);
    SingleRow(job, q);
    OnlyChoice(order, EntryAt(job, q, 0), job.k);
    AssignedSingle(job, q, order);
  }

  lemma FirstFull(job: Job, q: nat, n: nat, order: seq<Entry>)
    requires FirstOrder(job, q, n, order) && n != 1 && n >= job.k
    ensures Assigned(job, q, n, order)
  {
    hide Sorted, KeepsNearest, Masked, SameDim, RowList, PoolAt;
    NearestSize(order, RowList(job, q, 0, n), job.k);
    PoolIs(job, q, n);
    assert Extra(job, q) == multiset{};
    assert PoolAt(job, q, n) == multiset(RowList(job, q, 0, n));
  }

  lemma FirstShort(job: Job, q: nat, n: nat, order: seq<Entry>)
    requires FirstOrder(job, q, n, order) && n != 1 && n < job.k
    ensures Assigned(job, q, n, order)
  {
    hide Sorted, KeepsNearest, Masked, SameDim, RowList, Holds;
    NearestSize(order, RowList(job, q, 0, n), job.k);
  }

  lemma NearestSize(order: seq<Entry>, list: seq<Entry>, k: nat)
    requires KeepsNearest(multiset(order), multiset(list), k)
    ensures |order| == Min(k, |list|)
  {
    assert |multiset(order)| == |order| && |multiset(list)| == |list|;
  }

  lemma SingleRow(job: Job, q: nat)
    requires JobOk(job) && q < |job.queries|
    ensures RowList(job, q, 0, 1) == [EntryAt(job, q, 0)]
  {
    assert RowList(job, q, 0, 0) == [];
  }

  lemma OnlyChoice(order: seq<Entry>, e: Entry, k: nat)
    requires KeepsNearest(multiset(order), multiset([e]), k) && |order| == 1
    ensures order == [e]
  {
    assert order[0] in multiset(order);
    assert order[0] in multiset([e]);
  }

  method MergeChunk(job: Job, q: nat, top: seq<Entry>, at: nat, n: nat) returns (r: Merged)
    requires JobOk(job) && q < |job.queries| && at + n <= |job.base| && n >= 1 && (at == 0 ==> n == First(job))
    requires Holds(job, q, top, at)
    ensures r.Merged? ==> Holds(job, q, r.top, at + n)
    ensures r.Merged? <==> Fits(job, at, n)
  {
    HoldsParts(job, q, top, at);
    hide Holds, Gate, RowList, PoolAt, KeepsNearest, Sorted, SameDim, Assign, First;
    var worst := top[|top| - 1].dist;
    var cands := Gate(RowList(job, q, at, at + n), worst);
    if |cands| == 0 {
      NothingBetter(job, q, top, at, n);
      return Merged(top);
    }
    var all := Masked(top + cands, job.self[q]);
    var order := Smallest(all, job.k);
    MergeIsRight(job, q, top, at, n, order);
    r := Assign(job.k, order);
  }

  /** Nothing passes the gate, or what passes is merged: the list is right for the longer prefix. */
  lemma NothingBetter(job: Job, q: nat, top: seq<Entry>, at: nat, n: nat)
    requires JobOk(job) && q < |job.queries| && at + n <= |job.base| && n >= 1
    requires Holds(job, q, top, at) && Gate(RowList(job, q, at, at + n), top[|top| - 1].dist) == []
    ensures Holds(job, q, top, at + n) && (!job.external || at > 0)
  {
    hide *;
    if job.external && at == 0 {
      ExternalStart(job, q, top, n);
      assert false;
    } else {
      HoldsParts(job, q, top, at);
      NoneGated();
      NearestOfItself(multiset(top), job.k);
      LaterMerge(job, q, top, at, n, multiset(top));
      HoldsOnwards(job, q, top, at, at + n);
    }
  }

  lemma NoneGated()
    ensures forall id :: Masked([], id) == []
  {
  }

  lemma NearestOfItself(kept: multiset<Entry>, k: nat)
    requires |kept| == k
    ensures KeepsNearest(kept, kept + multiset{}, k)
  {
  }

  lemma HoldsOnwards(job: Job, q: nat, top: seq<Entry>, at: nat, upto: nat)
    requires JobOk(job) && q < |job.queries| && at <= |job.base| && upto <= |job.base| && Holds(job, q, top, at)
    requires KeepsNearest(multiset(top), PoolAt(job, q, upto), job.k)
    ensures Holds(job, q, top, upto)
  {
    hide KeepsNearest, PoolAt, SameDim, Sorted;
  }

  lemma MergeIsRight(job: Job, q: nat, top: seq<Entry>, at: nat, n: nat, order: seq<Entry>)
    requires JobOk(job) && q < |job.queries| && at + n <= |job.base| && n >= 1 && (at == 0 ==> n == First(job))
    requires Holds(job, q, top, at) && Sorted(order)
    requires var g := Gate(RowList(job, q, at, at + n), top[|top| - 1].dist);
             KeepsNearest(multiset(order), multiset(Masked(top + g, job.self[q])), job.k)
    ensures Assign(job.k, order).Merged? <==> Fits(job, at, n)
    ensures Assign(job.k, order).Merged? ==> Holds(job, q, Assign(job.k, order).top, at + n)
  {
    hide Gate, RowList, PoolAt, Masked, KeepsNearest, Holds, Sorted, SameDim;
    if job.external && at == 0 {
      StartIsRight(job, q, top, n, order);
    } else {
      LaterIsRight(job, q, top, at, n, order);
    }
  }

  lemma StartIsRight(job: Job, q: nat, top: seq<Entry>, n: nat, order: seq<Entry>)
    requires JobOk(job) && q < |job.queries| && job.external && n == First(job) && 1 <= n <= |job.base|
    requires Holds(job, q, top, 0) && Sorted(order)
    requires var g := Gate(RowList(job, q, 0, n), top[|top| - 1].dist);
             KeepsNearest(multiset(order), multiset(Masked(top + g, -1)), job.k)
    ensures Assigned(job, q, n, order)
  {
    var list := RowList(job, q, 0, n);
    ExternalStart(job, q, top, n);
    MaskedSplits(top, list, -1);
    assert [] + list == list;
    hide Gate, RowList, PoolAt, Masked, KeepsNearest, Holds, Sorted, SameDim, First, Assigned;
    FirstMerge(job, q, n, order);
  }

  lemma LaterIsRight(job: Job, q: nat, top: seq<Entry>, at: nat, n: nat, order: seq<Entry>)
    requires JobOk(job) && q < |job.queries| && at + n <= |job.base| && (!job.external || at > 0)
    requires Holds(job, q, top, at) && Sorted(order)
    requires var g := Gate(RowList(job, q, at, at + n), top[|top| - 1].dist);
             KeepsNearest(multiset(order), multiset(Masked(top + g, job.self[q])), job.k)
    ensures Assign(job.k, order).Merged? && Holds(job, q, Assign(job.k, order).top, at + n)
  {
    hide Gate, RowList, PoolAt, Masked, KeepsNearest;
    var g := Gate(RowList(job, q, at, at + n), top[|top| - 1].dist);
    MaskedSplits(top, g, job.self[q]);
    NoneMasked(job, q, top, at);
    assert multiset(top + Masked(g, job.self[q])) == multiset(top) + multiset(Masked(g, job.self[q]));
    LaterMerge(job, q, top, at, n, multiset(order));
    assert |multiset(order)| == |order|;
  }

  // ----- the whole pass -----

  ghost predicate AllHold(job: Job, top: seq<seq<Entry>>, at: nat)
    requires JobOk(job)
  {
    |top| == |job.queries| && at <= |job.base| && forall q :: 0 <= q < |top| ==> Holds(job, q, top[q], at)
  }

  /** One chunk for every query in turn. */
  method MergeAll(job: Job, top: seq<seq<Entry>>, at: nat, n: nat) returns (ok: bool, r: seq<seq<Entry>>)
    requires JobOk(job) && AllHold(job, top, at) && at + n <= |job.base| && n >= 1 && (at == 0 ==> n == First(job))
    ensures ok <==> |job.queries| == 0 || Fits(job, at, n)
    ensures ok ==> AllHold(job, r, at + n)
  {
    hide JobOk, Holds, Gate, Masked, First, Fits;
    r := top;
    for q := 0 to |job.queries|
      invariant |r| == |job.queries| && (q > 0 ==> Fits(job, at, n))
      invariant forall p :: 0 <= p < q ==> Holds(job, p, r[p], at + n)
      invariant forall p :: q <= p < |r| ==> Holds(job, p, r[p], at)
    {
      var m := MergeChunk(job, q, r[q], at, n);
      if m.ShapeError? {
        return false, r;
      }
      r := r[q := m.top];
    }
    ok := true;
  }

  /** The rows read with `i` chunks. */
  function RowsAfter(job: Job, i: nat): (n: nat)
    ensures n <= |job.base|
  {
    if i == 0 then 0 else Min(RowsAfter(job, i - 1) + job.chunk, |job.base|)
  }

  /** Streams the base once. It fails exactly when an external query's first chunk has fewer than `k`
      rows and not just one; otherwise after every chunk each query's list is the nearest `k` of its
      pool. `history[i]` is what the lists are after `i` chunks. */
  method GroundTruth(job: Job) returns (ok: bool, top: seq<seq<Entry>>, ghost history: seq<seq<seq<Entry>>>)
    requires JobOk(job)
    ensures ok <==> |job.queries| == 0 || Fits(job, 0, First(job))
    ensures ok ==> AllHold(job, top, |job.base|)
    ensures ok ==> |history| > 0 && history[|history| - 1] == top && RowsAfter(job, |history| - 1) == |job.base|
    ensures forall i :: 0 <= i < |history| ==> AllHold(job, history[i], RowsAfter(job, i))
  {
    hide *;
    top := StartLists(|job.queries|, job.k);
    AllStart(job, top);
    NoRowsYet(job);
    history := [top];
    var at := 0;
    while at < |job.base|
      invariant at <= |job.base| && AllHold(job, top, at)
      invariant at > 0 ==> |job.queries| == 0 || Fits(job, 0, First(job))
      invariant |history| > 0 && history[|history| - 1] == top && RowsAfter(job, |history| - 1) == at
      invariant forall i :: 0 <= i < |history| ==> AllHold(job, history[i], RowsAfter(job, i))
    {
      var n := Min(job.chunk, |job.base| - at);
      ChunkSize(job, at, n);
      ok, top := MergeAll(job, top, at, n);
      if !ok {
        if at > 0 {
          LaterFits(job, at, n);
        }
        return;
      }
      NextRows(job, |history|, at, n);
      history := history + [top];
      at := at + n;
    }
    ok := true;
  }

  lemma NoRowsYet(job: Job)
    ensures RowsAfter(job, 0) == 0
  {
  }

  lemma NextRows(job: Job, i: nat, at: nat, n: nat)
    requires i > 0 && RowsAfter(job, i - 1) == at <= |job.base| && n == Min(job.chunk, |job.base| - at)
    ensures RowsAfter(job, i) == at + n
  {
  }

  lemma LaterFits(job: Job, at: nat, n: nat)
    requires at > 0
    ensures Fits(job, at, n)
  {
  }

  lemma ChunkSize(job: Job, at: nat, n: nat)
    requires JobOk(job) && at < |job.base| && n == Min(job.chunk, |job.base| - at)
    ensures n >= 1 && at + n <= |job.base| && (at == 0 ==> n == First(job))
  {
  }

  function StartLists(queries: nat, k: nat): seq<seq<Entry>> {
    seq(queries, _ => seq(k, _ => PLACEHOLDER))
  }

  lemma AllStart(job: Job, top: seq<seq<Entry>>)
    requires JobOk(job) && top == StartLists(|job.queries|, job.k)
    ensures AllHold(job, top, 0) && |job.base| > 0
  {
    hide SameDim, Holds;
    forall q | 0 <= q < |job.queries| ensures Holds(job, q, top[q], 0) {
      StartHolds(job, q, top[q]);
    }
  }

  lemma StartHolds(job: Job, q: nat, top: seq<Entry>)
    requires JobOk(job) && q < |job.queries| && |top| == job.k && forall i :: 0 <= i < job.k ==> top[i] == PLACEHOLDER
    ensures Holds(job, q, top, 0)
  {
    AllCopies(top, PLACEHOLDER, job.k);
    assert Rows(job, q, 0, 0) == multiset{};
    assert PoolAt(job, q, 0) == Copies(PLACEHOLDER, job.k);
  }

  // ----- what the lists mean at the end -----

  lemma {:induction false} RowsSize(job: Job, q: nat, b: nat)
    requires JobOk(job) && q < |job.queries| && b <= |job.base|
    ensures |Rows(job, q, 0, b)| == if 0 <= job.self[q] < b then b - 1 else b
  {
    hide Masked, SameDim, EntryAt;
    if b == 0 {
      NoneGated();
    } else {
      RowsSize(job, q, b - 1);
      MaskedLast(RowList(job, q, 0, b - 1), EntryAt(job, q, b - 1), job.self[q]);
    }
  }

  /** Placeholders never win against `k` real rows. */
  lemma PlaceholdersLose(kept: multiset<Entry>, rows: multiset<Entry>, k: nat)
    requires KeepsNearest(kept, rows + Copies(PLACEHOLDER, k), k) && |rows| >= k
    requires forall e :: e in rows ==> e.dist.Finite?
    ensures KeepsNearest(kept, rows, k)
  {
    var holders := Copies(PLACEHOLDER, k);
    NoPlaceholder(kept, rows, k);
    assert kept <= rows;
    forall x, y | x in kept && y in rows - kept ensures AtMost(x.dist, y.dist) {
      assert y in rows + holders - kept;
    }
  }

  lemma NoPlaceholder(kept: multiset<Entry>, rows: multiset<Entry>, k: nat)
    requires KeepsNearest(kept, rows + Copies(PLACEHOLDER, k), k) && |rows| >= k
    requires forall e :: e in rows ==> e.dist.Finite?
    ensures PLACEHOLDER !in kept
  {
    if rows <= kept {
      assert kept == rows + (kept - rows);
      assert |kept - rows| == 0;
      assert kept == rows;
    } else {
      var e :| e in rows && kept[e] < rows[e];
      assert e in rows + Copies(PLACEHOLDER, k) - kept;
    }
  }

  lemma RowsFinite(job: Job, q: nat, b: nat)
    requires JobOk(job) && q < |job.queries| && b <= |job.base|
    ensures forall e :: e in Rows(job, q, 0, b) ==> e.dist.Finite?
  {
    MaskedMembers(RowList(job, q, 0, b), job.self[q]);
    forall e | e in Rows(job, q, 0, b) ensures e.dist.Finite? {
      assert e in Masked(RowList(job, q, 0, b), job.self[q]);
    }
  }

  /** A sampled query ends with the `k` nearest of all rows but its own, whatever the chunk size. */
  lemma SampledIsExact(job: Job, q: nat, top: seq<Entry>)
    requires JobOk(job) && q < |job.queries| && !job.external && Holds(job, q, top, |job.base|)
    ensures KeepsNearest(multiset(top), Rows(job, q, 0, |job.base|), job.k)
  {
    hide *;
    SampledParts(job, q);
    RowsSize(job, q, |job.base|);
    RowsFinite(job, q, |job.base|);
    HoldsParts(job, q, top, |job.base|);
    PlaceholdersLose(multiset(top), Rows(job, q, 0, |job.base|), job.k);
  }

  lemma SampledParts(job: Job, q: nat)
    requires JobOk(job) && q < |job.queries| && !job.external
    ensures job.k < |job.base| && 0 <= job.self[q] < |job.base|
    ensures PoolAt(job, q, |job.base|) == Rows(job, q, 0, |job.base|) + Copies(PLACEHOLDER, job.k)
  {
    hide SameDim, Rows, Copies;
  }

  /** So does an external query whose first chunk has at least `k` rows, over all rows. */
  lemma ExternalIsExact(job: Job, q: nat, top: seq<Entry>)
    requires JobOk(job) && q < |job.queries| && job.external && First(job) >= job.k && Holds(job, q, top, |job.base|)
    ensures KeepsNearest(multiset(top), Rows(job, q, 0, |job.base|), job.k)
  {
    ExternalPool(job, q);
    hide Rows, PoolAt, KeepsNearest, SameDim, Sorted;
  }

  lemma ExternalPool(job: Job, q: nat)
    requires JobOk(job) && q < |job.queries| && job.external && First(job) >= job.k
    ensures PoolAt(job, q, |job.base|) == Rows(job, q, 0, |job.base|)
  {
    hide SameDim, Rows, EntryAt;
    if First(job) == 1 {
      assert Extra(job, q) == multiset{};
    }
  }

  /** A pass starts soundly when it is sampled or its first chunk has `k` rows. */
  ghost predicate SoundStart(job: Job) {
    !job.external || First(job) >= job.k
  }

  /** The reported distances do not depend on the chunk size. */
  lemma ChunkSizeIrrelevant(job: Job, other: Job, q: nat, a: seq<Entry>, b: seq<Entry>)
    requires JobOk(job) && JobOk(other) && other == job.(chunk := other.chunk) && SoundStart(job) && SoundStart(other)
    requires q < |job.queries| && Holds(job, q, a, |job.base|) && Holds(other, q, b, |job.base|)
    ensures |a| == |b| && forall i :: 0 <= i < |a| ==> a[i].dist == b[i].dist
  {
    hide *;
    ExactEnd(job, q, a);
    ExactEnd(other, q, b);
    SameRows(job, other, q, |job.base|);
    SameDistances(a, b, Rows(job, q, 0, |job.base|), job.k);
  }

  lemma ExactEnd(job: Job, q: nat, top: seq<Entry>)
    requires JobOk(job) && q < |job.queries| && SoundStart(job) && Holds(job, q, top, |job.base|)
    ensures KeepsNearest(multiset(top), Rows(job, q, 0, |job.base|), job.k) && Sorted(top)
  {
    hide JobOk, Rows, KeepsNearest, Sorted, PoolAt;
    if job.external {
      ExternalIsExact(job, q, top);
    } else {
      SampledIsExact(job, q, top);
    }
  }

  lemma {:induction false} SameRows(job: Job, other: Job, q: nat, b: nat)
    requires JobOk(job) && JobOk(other) && other == job.(chunk := other.chunk) && q < |job.queries| && b <= |job.base|
    ensures RowList(job, q, 0, b) == RowList(other, q, 0, b)
    ensures Rows(job, q, 0, b) == Rows(other, q, 0, b)
  {
    hide SameDim, Masked;
    if b > 0 {
      SameRows(job, other, q, b - 1);
    }
  }

  /** An external pass whose first chunk is a single row, with `k` at least 2, starts from `k` copies of
      that row. Its distances come out right if and only if the first row is no nearer than the
      query's `k`-th nearest. */
  lemma OneRowStartRightIff(job: Job, q: nat, top: seq<Entry>, right: seq<Entry>)
    requires JobOk(job) && q < |job.queries| && job.external && First(job) == 1 && job.k >= 2
    requires Holds(job, q, top, |job.base|)
    requires Sorted(right) && KeepsNearest(multiset(right), Rows(job, q, 0, |job.base|), job.k) && |right| == job.k
    ensures (forall i :: 0 <= i < job.k ==> top[i].dist == right[i].dist)
            <==> AtMost(right[job.k - 1].dist, EntryAt(job, q, 0).dist)
  {
    var rows, e := Rows(job, q, 0, |job.base|), EntryAt(job, q, 0);
    FirstRowIn(job, q);
    hide JobOk, Rows, EntryAt, SameDim, RowList, Masked;
    var all := rows + Copies(e, job.k - 1);
    assert PoolAt(job, q, |job.base|) == all;
    if AtMost(right[job.k - 1].dist, e.dist) {
      CopiesLose(right, rows, e, job.k);
      SameDistances(top, right, all, job.k);
    } else {
      CopiesWin(top, rows, e, job.k);
      assert top[job.k - 1].dist != right[job.k - 1].dist;
    }
  }

  lemma FirstRowIn(job: Job, q: nat)
    requires JobOk(job) && q < |job.queries| && job.external
    ensures EntryAt(job, q, 0) in Rows(job, q, 0, |job.base|) && |job.base| > 0
  {
    var list := RowList(job, q, 0, |job.base|);
    RowListSize(job, q, 0, |job.base|);
    MaskedKeepsAll(list, -1);
    assert list[0] in list;
  }

  lemma CopiesLose(right: seq<Entry>, rows: multiset<Entry>, e: Entry, k: nat)
    requires Sorted(right) && KeepsNearest(multiset(right), rows, k) && |right| == k >= 1
    requires AtMost(right[k - 1].dist, e.dist)
    ensures KeepsNearest(multiset(right), rows + Copies(e, k - 1), k)
  {
    var all := rows + Copies(e, k - 1);
    assert |multiset(right)| == k;
    forall x, y | x in multiset(right) && y in all - multiset(right) ensures AtMost(x.dist, y.dist) {
      var i :| 0 <= i < k && right[i] == x;
      if y != e {
        assert y in rows - multiset(right);
      }
    }
  }

  lemma CopiesWin(top: seq<Entry>, rows: multiset<Entry>, e: Entry, k: nat)
    requires |top| == k >= 1 && e in rows && Sorted(top) && KeepsNearest(multiset(top), rows + Copies(e, k - 1), k)
    ensures AtMost(top[k - 1].dist, e.dist)
  {
    var all := rows + Copies(e, k - 1);
    assert all[e] >= k;
    var last := top[k - 1];
    assert last in multiset(top);
    if last != e {
      var rest := top[..k - 1];
      assert top == rest + [last];
      assert multiset(top)[e] == multiset(rest)[e];
      CountAtMostSize(multiset(rest), e);
      assert e in all - multiset(top);
    }
  }

  lemma CountAtMostSize(m: multiset<Entry>, e: Entry)
    ensures m[e] <= |m|
  {
    var only := multiset{}[e := m[e]];
    assert only <= m;
    SmallerSize(only, m);
  }

  // ----- the reported distance -----

  function Minus(x: seq<real>, y: seq<real>): (d: seq<real>)
    requires |x| == |y|
    ensures |d| == |x| && forall i :: 0 <= i < |d| ==> d[i] == x[i] - y[i]
  {
    seq(|x|, i requires 0 <= i < |x| => x[i] - y[i])
  }

  /** |x - y|^2 = |x|^2 + |y|^2 - 2 x.y. */
  lemma {:induction false} SquaredDistance(x: seq<real>, y: seq<real>, n: nat)
    requires |x| == |y| && n <= |x|
    ensures Dot(Minus(x, y), Minus(x, y), n) == Dot(x, x, n) + Dot(y, y, n) - 2.0 * Dot(x, y, n)
  {
    if n > 0 {
      SquaredDistance(x, y, n - 1);
      OneTerm(x[n - 1], y[n - 1]);
    }
  }

  lemma OneTerm(a: real, b: real)
    ensures Mul(a - b, a - b) == Mul(a, a) + Mul(b, b) - 2.0 * Mul(a, b)
  {
  }

  /** With squared norms for the base and `norm` added for the query, the reported distance is the true
      one plus `norm` minus the query's squared norm: the order of the rows is always right, and the
      value is right if and only if `norm` is that squared norm. */
  lemma ReportedIsShifted(job: Job, q: nat, i: nat, j: nat)
    requires JobOk(job) && q < |job.queries| && i < |job.base| && j < |job.base|
    requires forall r :: 0 <= r < |job.base| ==> job.norms[r] == Dot(job.base[r], job.base[r], |job.base[r]|)
    ensures |job.queries[q]| == |job.base[i]| == |job.base[j]|
    ensures var y := job.queries[q]; var dim := |y|;
            var di := Dot(Minus(job.base[i], y), Minus(job.base[i], y), dim);
            var dj := Dot(Minus(job.base[j], y), Minus(job.base[j], y), dim);
            && (Reported(job, q, i) < Reported(job, q, j) <==> di < dj)
            && (Reported(job, q, i) == di <==> job.qnorms[q] == Dot(y, y, dim))
  {
    SquaredDistance(job.base[i], job.queries[q], |job.queries[q]|);
    SquaredDistance(job.base[j], job.queries[q], |job.queries[q]|);
  }

  /** A norm equals its square only if it is 0 or 1. */
  lemma NormIsSquareIff(norm: real, squared: real)
    requires norm >= 0.0 && Mul(norm, norm) == squared
    ensures norm == squared <==> norm == 0.0 || norm == 1.0
  {
    if norm == squared && norm != 0.0 {
      assert norm * (norm - 1.0) == 0.0;
    }
  }

  /** External queries are given their plain norm: every reported distance to such a query is the true one
      if and only if that norm is 0 or 1. */
  lemma PlainNormRightIff(job: Job, q: nat, i: nat)
    requires JobOk(job) && q < |job.queries| && i < |job.base| && job.external
    requires forall r :: 0 <= r < |job.base| ==> job.norms[r] == Dot(job.base[r], job.base[r], |job.base[r]|)
    requires job.qnorms[q] >= 0.0
    requires Mul(job.qnorms[q], job.qnorms[q]) == Dot(job.queries[q], job.queries[q], |job.queries[q]|)
    ensures |job.queries[q]| == |job.base[i]|
    ensures var y, x := job.queries[q], job.base[i];
            Reported(job, q, i) == Dot(Minus(x, y), Minus(x, y), |y|) <==> job.qnorms[q] == 0.0 || job.qnorms[q] == 1.0
  {
    ReportedIsShifted(job, q, i, i);
    NormIsSquareIff(job.qnorms[q], Dot(job.queries[q], job.queries[q], |job.queries[q]|));
  }

  // ----- the final list in terms of rows and real distances -----

  /** Every row but the query's own is in the pool exactly once. */
  lemma {:induction false} RowsAre(job: Job, q: nat, b: nat, e: Entry)
    requires JobOk(job) && q < |job.queries| && b <= |job.base|
    ensures Rows(job, q, 0, b)[e] == if 0 <= e.id < b && e.id != job.self[q] && e == EntryAt(job, q, e.id) then 1 else 0
  {
    hide Reported, JobOk;
    if b > 0 {
      RowsAre(job, q, b - 1, e);
      LastRow(job, q, b);
    }
  }

  lemma LastRow(job: Job, q: nat, b: nat)
    requires JobOk(job) && q < |job.queries| && 0 < b <= |job.base|
    ensures Rows(job, q, 0, b)
            == Rows(job, q, 0, b - 1) + if b - 1 != job.self[q] then multiset{EntryAt(job, q, b - 1)} else multiset{}
  {
    hide EntryAt, SameDim;
    var list, e := RowList(job, q, 0, b - 1), EntryAt(job, q, b - 1);
    assert RowList(job, q, 0, b) == list + [e];
    assert (list + [e])[..|list|] == list;
    assert Masked(list + [e], job.self[q]) == Masked(list, job.self[q]) + if e.id != job.self[q] then [e] else [];
  }

  lemma TwoPlaces(s: seq<Entry>, i: nat, j: nat)
    requires i < j < |s| && s[i] == s[j]
    ensures multiset(s)[s[i]] >= 2
  {
    assert s == s[..j] + [s[j]] + s[j + 1..];
    assert s[i] in s[..j];
  }

  /** The square of the distance between row `r` and query `q`. */
  function TrueDistance(job: Job, q: nat, r: nat): real
    requires JobOk(job) && q < |job.queries| && r < |job.base|
  {
    var x, y := job.base[r], job.queries[q];
    Dot(Minus(x, y), Minus(x, y), |y|)
  }

  /** What a right list says, spelt out: `k` rows, none twice and none the query's own, from the nearest on,
      and no other row nearer than any of them. */
  ghost predicate NearestRows(job: Job, q: nat, ids: seq<int>)
    requires JobOk(job) && q < |job.queries|
  {
    && |ids| == job.k
    && (forall i :: 0 <= i < |ids| ==> 0 <= ids[i] < |job.base| && ids[i] != job.self[q])
    && (forall i, j :: 0 <= i < j < |ids| ==> ids[i] != ids[j])
    && (forall i, j :: 0 <= i < j < |ids| ==> TrueDistance(job, q, ids[i]) <= TrueDistance(job, q, ids[j]))
    && forall i, r: nat :: 0 <= i < |ids| && r < |job.base| && r != job.self[q] && r !in ids ==>
         TrueDistance(job, q, ids[i]) <= TrueDistance(job, q, r)
  }

  ghost predicate NormsRight(job: Job) {
    |job.norms| == |job.base| &&
    forall r :: 0 <= r < |job.base| ==> job.norms[r] == Dot(job.base[r], job.base[r], |job.base[r]|)
  }

  function Ids(top: seq<Entry>): (ids: seq<int>)
    ensures |ids| == |top| && forall i :: 0 <= i < |ids| ==> ids[i] == top[i].id
  {
    seq(|top|, i requires 0 <= i < |top| => top[i].id)
  }

  lemma OrderIsTrue(job: Job, q: nat, a: nat, b: nat)
    requires JobOk(job) && q < |job.queries| && a < |job.base| && b < |job.base| && NormsRight(job)
    ensures AtMost(EntryAt(job, q, a).dist, EntryAt(job, q, b).dist)
            <==> TrueDistance(job, q, a) <= TrueDistance(job, q, b)
  {
    hide Dot, Reported;
    ReportedIsShifted(job, q, b, a);
  }

  lemma RowOf(job: Job, q: nat, top: seq<Entry>, i: nat)
    requires JobOk(job) && q < |job.queries| && i < |top| && multiset(top) <= Rows(job, q, 0, |job.base|)
    ensures 0 <= top[i].id < |job.base| && top[i].id != job.self[q] && top[i] == EntryAt(job, q, top[i].id)
  {
    hide EntryAt, Rows;
    assert top[i] in multiset(top);
    RowsAre(job, q, |job.base|, top[i]);
  }

  lemma DifferentRows(job: Job, q: nat, top: seq<Entry>, i: nat, j: nat)
    requires JobOk(job) && q < |job.queries| && i < j < |top| && multiset(top) <= Rows(job, q, 0, |job.base|)
    ensures top[i].id != top[j].id
  {
    hide EntryAt, Rows, JobOk;
    RowOf(job, q, top, i);
    RowOf(job, q, top, j);
    RowsAre(job, q, |job.base|, top[i]);
    if top[i].id == top[j].id {
      TwoPlaces(top, i, j);
      assert false;
    }
  }

  /** An entry that was left out is no nearer than any that was kept. */
  lemma LeftOutIsFarther(job: Job, q: nat, top: seq<Entry>, i: nat, r: nat)
    requires JobOk(job) && q < |job.queries| && i < |top| && r < |job.base| && r != job.self[q]
    requires KeepsNearest(multiset(top), Rows(job, q, 0, |job.base|), job.k)
    requires forall j :: 0 <= j < |top| ==> top[j].id != r
    ensures AtMost(top[i].dist, EntryAt(job, q, r).dist)
  {
    hide Rows, JobOk;
    var e := EntryAt(job, q, r);
    RowsAre(job, q, |job.base|, e);
    assert e !in multiset(top);
    assert e in Rows(job, q, 0, |job.base|) - multiset(top);
    assert top[i] in multiset(top);
  }

  /** A sorted choice of the `k` nearest entries is a list of the `k` rows nearest to the query. */
  lemma NearestEntriesAreRows(job: Job, q: nat, top: seq<Entry>)
    requires JobOk(job) && q < |job.queries| && NormsRight(job)
    requires |top| == job.k && Sorted(top) && KeepsNearest(multiset(top), Rows(job, q, 0, |job.base|), job.k)
    ensures NearestRows(job, q, Ids(top))
  {
    hide Rows, EntryAt, TrueDistance, SameDim, NormsRight;
    var ids := Ids(top);
    forall i | 0 <= i < |ids|
      ensures 0 <= ids[i] < |job.base| && ids[i] != job.self[q] && top[i] == EntryAt(job, q, ids[i])
    {
      RowOf(job, q, top, i);
    }
    forall i, j | 0 <= i < j < |ids|
      ensures ids[i] != ids[j] && TrueDistance(job, q, ids[i]) <= TrueDistance(job, q, ids[j])
    {
      DifferentRows(job, q, top, i, j);
      OrderIsTrue(job, q, ids[i], ids[j]);
    }
    forall i, r: nat | 0 <= i < |ids| && r < |job.base| && r != job.self[q] && r !in ids
      ensures TrueDistance(job, q, ids[i]) <= TrueDistance(job, q, r)
    {
      LeftOutIsFarther(job, q, top, i, r);
      OrderIsTrue(job, q, ids[i], r);
    }
  }

  /** A pass that starts soundly ends with the `k` rows nearest to the query by their real distance. */
  lemma EndsWithNearestRows(job: Job, q: nat, top: seq<Entry>)
    requires JobOk(job) && q < |job.queries| && NormsRight(job) && SoundStart(job)
    requires Holds(job, q, top, |job.base|)
    ensures NearestRows(job, q, Ids(top))
  {
    hide *;
    ExactEnd(job, q, top);
    HoldsParts(job, q, top, |job.base|);
    NearestEntriesAreRows(job, q, top);
  }
}
