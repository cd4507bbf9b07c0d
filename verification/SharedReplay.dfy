/** Two uses of claim-by-counter: streaming all shards in parallel
    (sources/parquet_glob_source.cpp:319-351), and the query-major and subtree-major replays of the
    leaves a set of queries visits (scripts/subtree_major.cpp:89-171). */
module SharedReplay {
  import opened ClaimCounter
  import GlobSource

  // ----- sums that do not depend on the order -----

  function SumBy<T>(f: T -> nat, xs: seq<T>): nat {
    if xs == [] then 0 else SumBy(f, xs[..|xs| - 1]) + f(xs[|xs| - 1])
  }

  lemma {:induction false} SumBySplits<T>(f: T -> nat, xs: seq<T>, ys: seq<T>)
    ensures SumBy(f, xs + ys) == SumBy(f, xs) + SumBy(f, ys)
  {
    if ys == [] {
      assert xs + ys == xs;
    } else {
      SumBySplits(f, xs, ys[..|ys| - 1]);
      assert (xs + ys)[..|xs + ys| - 1] == xs + ys[..|ys| - 1];
    }
  }

  lemma {:induction false} SumByPermutation<T>(f: T -> nat, xs: seq<T>, ys: seq<T>)
    requires multiset(xs) == multiset(ys)
    ensures SumBy(f, xs) == SumBy(f, ys)
    decreases |xs|
  {
    if xs == [] {
      assert |multiset(ys)| == |ys|;
    } else {
      var x, rest := xs[|xs| - 1], xs[..|xs| - 1];
      assert xs == rest + [x];
      assert x in multiset(ys);
      var i :| 0 <= i < |ys| && ys[i] == x;
      var without := ys[..i] + ys[i + 1..];
      assert ys == ys[..i] + [x] + ys[i + 1..];
      assert multiset(without) == multiset(ys) - multiset{x};
      assert multiset(rest) == multiset(xs) - multiset{x};
      SumByPermutation(f, rest, without);
      SumBySplits(f, ys[..i], ys[i + 1..]);
      SumBySplits(f, ys[..i], [x]);
      SumBySplits(f, ys[..i] + [x], ys[i + 1..]);
      assert [x][..0] == [];
    }
  }

  lemma {:induction false} SumByAgrees<T>(f: T -> nat, g: T -> nat, xs: seq<T>)
    requires forall i :: 0 <= i < |xs| ==> f(xs[i]) == g(xs[i])
    ensures SumBy(f, xs) == SumBy(g, xs)
  {
    if xs != [] {
      SumByAgrees(f, g, xs[..|xs| - 1]);
    }
  }

  // ----- parallel streaming -----

  type Chunk = seq<GlobSource.Vector>

  /** The chunks a shard hands to the callback: empty ones are skipped. */
  function NonEmpty(chunks: seq<Chunk>): seq<Chunk> {
    if chunks == [] then []
    else NonEmpty(chunks[..|chunks| - 1]) + if |chunks[|chunks| - 1]| > 0 then [chunks[|chunks| - 1]] else []
  }

  function Tasks(shards: seq<seq<Chunk>>): seq<seq<Chunk>> {
    seq(|shards|, s requires 0 <= s < |shards| => NonEmpty(shards[s]))
  }

  /** Refuses with fewer than two shards or workers, else runs with no more workers than shards. */
  ghost function ParallelForEach(shards: seq<seq<Chunk>>, workers: nat, schedule: seq<nat>): (bool, State<Chunk>) {
    if |shards| < 2 || workers < 2 then (false, Start(Tasks(shards), 0))
    else (true, Run(Tasks(shards), if workers < |shards| then workers else |shards|, schedule))
  }

  function Vectors(chunks: seq<Chunk>): seq<GlobSource.Vector> {
    if chunks == [] then [] else Vectors(chunks[..|chunks| - 1]) + chunks[|chunks| - 1]
  }

  lemma {:induction false} VectorsSplit(xs: seq<Chunk>, ys: seq<Chunk>)
    ensures Vectors(xs + ys) == Vectors(xs) + Vectors(ys)
  {
    if ys == [] {
      assert xs + ys == xs;
    } else {
      VectorsSplit(xs, ys[..|ys| - 1]);
      assert (xs + ys)[..|xs + ys| - 1] == xs + ys[..|ys| - 1];
    }
  }

  function CountIn(v: GlobSource.Vector): Chunk -> nat {
    (c: Chunk) => multiset(c)[v]
  }

  lemma {:induction false} VectorCount(chunks: seq<Chunk>, v: GlobSource.Vector)
    ensures multiset(Vectors(chunks))[v] == SumBy(CountIn(v), chunks)
  {
    if chunks != [] {
      VectorCount(chunks[..|chunks| - 1], v);
    }
  }

  lemma {:induction false} SkippingEmptyChunks(chunks: seq<Chunk>, n: nat)
    requires n <= |chunks|
    ensures Vectors(NonEmpty(chunks[..n])) == GlobSource.Flat(chunks, n)
  {
    if n > 0 {
      SkippingEmptyChunks(chunks, n - 1);
      assert chunks[..n][..n - 1] == chunks[..n - 1];
      var last := chunks[n - 1];
      VectorsSplit(NonEmpty(chunks[..n - 1]), if |last| > 0 then [last] else []);
      assert [last][..0] == [];
    }
  }

  lemma {:induction false} TasksInOrder(shards: seq<seq<Chunk>>, n: nat)
    requires n <= |shards|
    ensures Vectors(InOrder(Tasks(shards), n)) == GlobSource.Corpus(shards, n)
  {
    if n > 0 {
      TasksInOrder(shards, n - 1);
      hide NonEmpty, Vectors, GlobSource.Flat;
      var chunks := shards[n - 1];
      SkippingEmptyChunks(chunks, |chunks|);
      assert chunks[..|chunks|] == chunks;
      assert Tasks(shards)[n - 1] == NonEmpty(chunks);
      VectorsSplit(InOrder(Tasks(shards), n - 1), NonEmpty(chunks));
    }
  }

  lemma SameVectors(xs: seq<Chunk>, ys: seq<Chunk>)
    requires multiset(xs) == multiset(ys)
    ensures multiset(Vectors(xs)) == multiset(Vectors(ys))
  {
    hide Vectors, SumBy;
    forall v: GlobSource.Vector ensures multiset(Vectors(xs))[v] == multiset(Vectors(ys))[v] {
      VectorCount(xs, v);
      VectorCount(ys, v);
      SumByPermutation(CountIn(v), xs, ys);
    }
  }

  /** A parallel pass that ran and ended delivered the vectors of the sequential pass, each as often. */
  lemma ParallelDeliversCorpus(shards: seq<seq<Chunk>>, workers: nat, schedule: seq<nat>)
    requires var (ran, s) := ParallelForEach(shards, workers, schedule); ran && AllStopped(s)
    ensures multiset(Vectors(ParallelForEach(shards, workers, schedule).1.log))
            == multiset(GlobSource.Corpus(shards, |shards|))
  {
    var log := ParallelForEach(shards, workers, schedule).1.log;
    var all := InOrder(Tasks(shards), |shards|);
    AllWorkDoneOnce(Tasks(shards), if workers < |shards| then workers else |shards|, schedule);
    TasksInOrder(shards, |shards|);
    hide *;
    SameVectors(log, all);
  }

  lemma {:induction false} NonEmptyHasNoEmpty(chunks: seq<Chunk>)
    ensures [] !in NonEmpty(chunks)
  {
    if chunks != [] {
      NonEmptyHasNoEmpty(chunks[..|chunks| - 1]);
    }
  }

  lemma {:induction false} NoEmptyTask(shards: seq<seq<Chunk>>, n: nat)
    requires n <= |shards|
    ensures [] !in InOrder(Tasks(shards), n)
  {
    hide NonEmpty;
    if n > 0 {
      NoEmptyTask(shards, n - 1);
      NonEmptyHasNoEmpty(shards[n - 1]);
      assert Tasks(shards)[n - 1] == NonEmpty(shards[n - 1]);
    }
  }

  /** A pass runs exactly if there are two shards and two workers, with one worker a shard at most; a pass that
      ended has handed on no empty chunk. */
  lemma ParallelRunsIff(shards: seq<seq<Chunk>>, workers: nat, schedule: seq<nat>)
    ensures var (ran, s) := ParallelForEach(shards, workers, schedule);
      && (ran <==> |shards| >= 2 && workers >= 2)
      && (ran ==> |s.workers| <= workers && |s.workers| <= |shards|
                  && (|s.workers| == workers || |s.workers| == |shards|))
      && (ran && AllStopped(s) ==> [] !in s.log)
  {
    var (ran, s) := ParallelForEach(shards, workers, schedule);
    if ran && AllStopped(s) {
      AllWorkDoneOnce(Tasks(shards), if workers < |shards| then workers else |shards|, schedule);
      hide Run, InOrder, Tasks;
      NoEmptyTask(shards, |shards|);
      var none: Chunk := [];
      assert none in s.log <==> none in multiset(s.log);
    }
  }

  // ----- leaves and visits -----

  datatype Page = Page(id: nat)

  /** Bytes of a leaf's extent; a page without an entry has none. */
  function ExtentBytes(leafPages: map<Page, nat>, p: Page): nat {
    if p in leafPages then leafPages[p] * 4096 else 0
  }

  function Extent(leafPages: map<Page, nat>): Page -> nat {
    (p: Page) => ExtentBytes(leafPages, p)
  }

  /** Every page of `pages` once, in whatever order. */
  ghost predicate Lists(leaves: seq<Page>, pages: set<Page>) {
    && (forall i, j :: 0 <= i < j < |leaves| ==> leaves[i] != leaves[j])
    && (forall p :: p in leaves <==> p in pages)
  }

  lemma {:induction false} ListedOnce(leaves: seq<Page>, pages: set<Page>, p: Page)
    requires Lists(leaves, pages)
    ensures multiset(leaves)[p] == if p in pages then 1 else 0
    decreases |leaves|
  {
    if leaves == [] {
      assert p !in leaves;
    } else {
      var last, rest := leaves[|leaves| - 1], leaves[..|leaves| - 1];
      assert leaves == rest + [last];
      assert Lists(rest, pages - {last});
      ListedOnce(rest, pages - {last}, p);
      assert p in leaves <==> p in rest || p == last;
    }
  }

  lemma ListsAgree(xs: seq<Page>, ys: seq<Page>, pages: set<Page>)
    requires Lists(xs, pages) && Lists(ys, pages)
    ensures multiset(xs) == multiset(ys)
  {
    forall p: Page ensures multiset(xs)[p] == multiset(ys)[p] {
      ListedOnce(xs, pages, p);
      ListedOnce(ys, pages, p);
    }
  }

  /** How often each page is visited, each visit weighing `g`. */
  function Weighted(visits: seq<Page>, g: Page -> nat): Page -> nat {
    (p: Page) => multiset(visits)[p] * g(p)
  }

  lemma {:induction false} OneMoreVisit(leaves: seq<Page>, visits: seq<Page>, v: Page, g: Page -> nat)
    ensures SumBy(Weighted(visits + [v], g), leaves) == SumBy(Weighted(visits, g), leaves) + multiset(leaves)[v] * g(v)
    decreases |leaves|
  {
    if leaves != [] {
      var last, rest := leaves[|leaves| - 1], leaves[..|leaves| - 1];
      assert leaves == rest + [last];
      OneMoreVisit(rest, visits, v, g);
      var c := multiset(visits)[last];
      if last == v {
        assert multiset(visits + [v])[last] == c + 1;
        TimesOneMore(c, g(last));
        TimesOneMore(multiset(rest)[v], g(v));
      } else {
        assert multiset(visits + [v])[last] == c;
      }
    }
  }

  lemma TimesOneMore(c: nat, g: nat)
    ensures (c + 1) * g == c * g + g
  {
  }

  /** Adding up by page, each with its number of visits, is adding up by visit. */
  lemma {:induction false} ByPageIsByVisit(leaves: seq<Page>, pages: set<Page>, visits: seq<Page>, g: Page -> nat)
    requires Lists(leaves, pages) && forall i :: 0 <= i < |visits| ==> visits[i] in pages
    ensures SumBy(Weighted(visits, g), leaves) == SumBy(g, visits)
    decreases |visits|
  {
    if visits == [] {
      SumByAgrees(Weighted(visits, g), (p: Page) => 0, leaves);
      SumOfZeros(leaves);
    } else {
      var v, rest := visits[|visits| - 1], visits[..|visits| - 1];
      assert visits == rest + [v];
      ByPageIsByVisit(leaves, pages, rest, g);
      OneMoreVisit(leaves, rest, v, g);
      ListedOnce(leaves, pages, v);
    }
  }

  lemma {:induction false} SumOfZeros(leaves: seq<Page>)
    ensures SumBy((p: Page) => 0, leaves) == 0
  {
    if leaves != [] {
      SumOfZeros(leaves[..|leaves| - 1]);
    }
  }

  lemma {:induction false} SumOfOnes(xs: seq<Page>, one: Page -> nat)
    requires forall p: Page :: one(p) == 1
    ensures SumBy(one, xs) == |xs|
  {
    if xs != [] {
      SumOfOnes(xs[..|xs| - 1], one);
    }
  }

  function PagesOf(leafPages: map<Page, nat>): Page -> nat {
    (p: Page) => if p in leafPages then leafPages[p] else 0
  }

  /** An extent is whole pages of 4096 bytes. */
  lemma {:induction false} ExtentsAreWholePages(leafPages: map<Page, nat>, xs: seq<Page>)
    ensures SumBy(Extent(leafPages), xs) == 4096 * SumBy(PagesOf(leafPages), xs)
  {
    if xs != [] {
      ExtentsAreWholePages(leafPages, xs[..|xs| - 1]);
    }
  }

  /** The visit counts and byte totals of the two plans, query by query and page by page. */
  method CollectSets(qleaves: seq<seq<Page>>, leafPages: map<Page, nat>)
    returns (uniq: set<Page>, totalVisits: nat, bytesByQuery: nat, bytesByPage: nat)
    ensures uniq == set p | p in InOrder(qleaves, |qleaves|)
    ensures totalVisits == |InOrder(qleaves, |qleaves|)|
    ensures bytesByQuery == SumBy(Extent(leafPages), InOrder(qleaves, |qleaves|))
    ensures forall leaves :: Lists(leaves, uniq) ==> bytesByPage == SumBy(Extent(leafPages), leaves)
  {
    uniq, totalVisits, bytesByQuery := {}, 0, 0;
    var extent := Extent(leafPages);
    for q := 0 to |qleaves|
      invariant uniq == set p | p in InOrder(qleaves, q)
      invariant totalVisits == |InOrder(qleaves, q)| && bytesByQuery == SumBy(extent, InOrder(qleaves, q))
    {
      var v := qleaves[q];
      ghost var before := InOrder(qleaves, q);
      totalVisits := totalVisits + |v|;
      assert v[..0] == [] && before + [] == before;
      for i := 0 to |v|
        invariant uniq == set p | p in before + v[..i]
        invariant bytesByQuery == SumBy(extent, before + v[..i])
      {
        assert before + v[..i + 1] == before + v[..i] + [v[i]];
        assert (before + v[..i + 1])[..|before| + i] == before + v[..i];
        uniq := uniq + {v[i]};
        bytesByQuery := bytesByQuery + extent(v[i]);
      }
      assert v[..|v|] == v;
    }
    bytesByPage := BytesOnce(uniq, extent);
  }

  /** Adds up over a set of pages, in whatever order they come. */
  method BytesOnce(pages: set<Page>, extent: Page -> nat) returns (bytes: nat)
    ensures forall leaves :: Lists(leaves, pages) ==> bytes == SumBy(extent, leaves)
  {
    bytes := 0;
    var todo := pages;
    ghost var seen: seq<Page> := [];
    while |todo| > 0
      invariant todo <= pages && Lists(seen, pages - todo) && bytes == SumBy(extent, seen)
      decreases |todo|
    {
      var p :| p in todo;
      assert (seen + [p])[..|seen|] == seen;
      bytes, todo, seen := bytes + extent(p), todo - {p}, seen + [p];
    }
    assert todo == {} && pages - todo == pages;
    forall leaves | Lists(leaves, pages) ensures bytes == SumBy(extent, leaves) {
      ListsAgree(seen, leaves, pages);
      SumByPermutation(extent, seen, leaves);
    }
  }

  /** How many visits each page gets over all queries. */
  method BuildFanout(qleaves: seq<seq<Page>>) returns (fanout: map<Page, nat>)
    ensures IsFanout(fanout, InOrder(qleaves, |qleaves|))
  {
    hide IsFanout;
    fanout := map[];
    NothingVisited();
    for q := 0 to |qleaves|
      invariant IsFanout(fanout, InOrder(qleaves, q))
    {
      var v := qleaves[q];
      ghost var before := InOrder(qleaves, q);
      assert v[..0] == [] && before + [] == before;
      for i := 0 to |v|
        invariant IsFanout(fanout, before + v[..i])
      {
        assert before + v[..i + 1] == before + v[..i] + [v[i]];
        CountedOnce(fanout, before + v[..i], v[i]);
        fanout := fanout[v[i] := (if v[i] in fanout then fanout[v[i]] else 0) + 1];
      }
      assert v[..|v|] == v;
    }
  }

  ghost predicate IsFanout(fanout: map<Page, nat>, visits: seq<Page>) {
    && (forall p :: p in fanout <==> p in visits)
    && (forall p :: p in fanout ==> fanout[p] == multiset(visits)[p])
  }

  lemma NothingVisited()
    ensures IsFanout(map[], [])
  {
  }

  lemma CountedOnce(fanout: map<Page, nat>, visits: seq<Page>, p: Page)
    requires IsFanout(fanout, visits)
    ensures IsFanout(fanout[p := (if p in fanout then fanout[p] else 0) + 1], visits + [p])
  {
    assert p in visits || multiset(visits)[p] == 0;
    assert multiset(visits + [p]) == multiset(visits) + multiset{p};
    forall x ensures x in visits + [p] <==> x in visits || x == p {
      assert (visits + [p])[|visits|] == p;
    }
  }

  // ----- the replays -----

  /** What a worker does with a claimed leaf, as two updates of shared totals. */
  datatype Event = ReadExtent(page: Page) | Evaluate(page: Page)

  function LeafTasks(leaves: seq<Page>): seq<seq<Event>> {
    seq(|leaves|, i requires 0 <= i < |leaves| => [ReadExtent(leaves[i]), Evaluate(leaves[i])])
  }

  function BytesOf(leafPages: map<Page, nat>): Event -> nat {
    (e: Event) => if e.ReadExtent? then ExtentBytes(leafPages, e.page) else 0
  }

  function EvalsOf(fanout: map<Page, nat>): Event -> nat {
    (e: Event) => if e.Evaluate? && e.page in fanout then fanout[e.page] else 0
  }

  function Fanout(fanout: map<Page, nat>): Page -> nat {
    (p: Page) => if p in fanout then fanout[p] else 0
  }

  lemma {:induction false} LeafTaskTotals(leaves: seq<Page>, n: nat, leafPages: map<Page, nat>, fanout: map<Page, nat>)
    requires n <= |leaves|
    ensures SumBy(BytesOf(leafPages), InOrder(LeafTasks(leaves), n)) == SumBy(Extent(leafPages), leaves[..n])
    ensures SumBy(EvalsOf(fanout), InOrder(LeafTasks(leaves), n)) == SumBy(Fanout(fanout), leaves[..n])
  {
    if n > 0 {
      LeafTaskTotals(leaves, n - 1, leafPages, fanout);
      var p := leaves[n - 1];
      var two := [ReadExtent(p), Evaluate(p)];
      assert leaves[..n][..n - 1] == leaves[..n - 1];
      TwoEvents(BytesOf(leafPages), p);
      TwoEvents(EvalsOf(fanout), p);
      SumBySplits(BytesOf(leafPages), InOrder(LeafTasks(leaves), n - 1), two);
      SumBySplits(EvalsOf(fanout), InOrder(LeafTasks(leaves), n - 1), two);
    }
  }

  lemma TwoEvents(f: Event -> nat, p: Page)
    ensures SumBy(f, [ReadExtent(p), Evaluate(p)]) == f(ReadExtent(p)) + f(Evaluate(p))
  {
    var two := [ReadExtent(p), Evaluate(p)];
    assert two[..|two| - 1] == [ReadExtent(p)];
    assert [ReadExtent(p)][..0] == [];
    assert SumBy(f, [ReadExtent(p)]) == f(ReadExtent(p));
  }

  /** When the subtree-major workers have all stopped, whatever their interleaving: every visited leaf was
      read exactly once, the bytes are those of the distinct leaves, and every visit was evaluated. */
  lemma SubtreeMajorServesAll(qleaves: seq<seq<Page>>, leaves: seq<Page>, fanout: map<Page, nat>,
                              leafPages: map<Page, nat>, workers: nat, schedule: seq<nat>)
    requires workers > 0 && AllStopped(Run(LeafTasks(leaves), workers, schedule))
    requires IsFanout(fanout, InOrder(qleaves, |qleaves|)) && Lists(leaves, fanout.Keys)
    ensures var log := Run(LeafTasks(leaves), workers, schedule).log;
            && SumBy(BytesOf(leafPages), log) == SumBy(Extent(leafPages), leaves)
            && SumBy(EvalsOf(fanout), log) == |InOrder(qleaves, |qleaves|)|
            && forall p :: multiset(log)[ReadExtent(p)] == if p in fanout then 1 else 0
  {
    var visits := InOrder(qleaves, |qleaves|);
    var log := Run(LeafTasks(leaves), workers, schedule).log;
    var all := InOrder(LeafTasks(leaves), |leaves|);
    AllWorkDoneOnce(LeafTasks(leaves), workers, schedule);
    hide Run, InOrder, LeafTasks, IsFanout;
    SumByPermutation(BytesOf(leafPages), log, all);
    SumByPermutation(EvalsOf(fanout), log, all);
    LeafTaskTotals(leaves, |leaves|, leafPages, fanout);
    assert leaves[..|leaves|] == leaves;
    FanoutTotal(leaves, fanout, visits);
    forall p ensures multiset(log)[ReadExtent(p)] == if p in fanout then 1 else 0 {
      ReadsInOrder(leaves, |leaves|, p);
      ListedOnce(leaves, fanout.Keys, p);
    }
  }

  lemma VisitsAreKeys(fanout: map<Page, nat>, visits: seq<Page>)
    requires IsFanout(fanout, visits)
    ensures forall i :: 0 <= i < |visits| ==> visits[i] in fanout.Keys
  {
    forall i | 0 <= i < |visits| ensures visits[i] in fanout.Keys {
      var p := visits[i];
      assert p in visits;
      assert p in fanout;
    }
  }

  lemma FanoutTotal(leaves: seq<Page>, fanout: map<Page, nat>, visits: seq<Page>)
    requires IsFanout(fanout, visits) && Lists(leaves, fanout.Keys)
    ensures SumBy(Fanout(fanout), leaves) == |visits|
  {
    var one := (p: Page) => 1;
    var weighted := Weighted(visits, one);
    forall i | 0 <= i < |leaves| ensures Fanout(fanout)(leaves[i]) == weighted(leaves[i]) {
      assert leaves[i] in leaves;
      TimesOneMore(0, multiset(visits)[leaves[i]]);
    }
    SumByAgrees(Fanout(fanout), weighted, leaves);
    VisitsAreKeys(fanout, visits);
    ByPageIsByVisit(leaves, fanout.Keys, visits, one);
    SumOfOnes(visits, one);
  }

  lemma ReadAdds(events: seq<Event>, leaf: Page, p: Page)
    ensures multiset(events + [ReadExtent(leaf), Evaluate(leaf)])[ReadExtent(p)]
            == multiset(events)[ReadExtent(p)] + if p == leaf then 1 else 0
  {
    assert multiset([ReadExtent(leaf), Evaluate(leaf)]) == multiset{ReadExtent(leaf), Evaluate(leaf)};
  }

  lemma LastCounts(leaves: seq<Page>, n: nat, p: Page)
    requires 0 < n <= |leaves|
    ensures multiset(leaves[..n])[p] == multiset(leaves[..n - 1])[p] + if p == leaves[n - 1] then 1 else 0
  {
    assert leaves[..n] == leaves[..n - 1] + [leaves[n - 1]];
  }

  lemma {:induction false} ReadsInOrder(leaves: seq<Page>, n: nat, p: Page)
    requires n <= |leaves|
    ensures multiset(InOrder(LeafTasks(leaves), n))[ReadExtent(p)] == multiset(leaves[..n])[p]
  {
    if n > 0 {
      ReadsInOrder(leaves, n - 1, p);
      ReadAdds(InOrder(LeafTasks(leaves), n - 1), leaves[n - 1], p);
      LastCounts(leaves, n, p);
      assert LeafTasks(leaves)[n - 1] == [ReadExtent(leaves[n - 1]), Evaluate(leaves[n - 1])];
    }
  }

  /** Query-major reads a leaf once per visit: its bytes are the distinct leaves' bytes times their
      fanout, however each query orders its own leaves and however the workers interleave. */
  lemma QueryMajorReadsPerVisit(qleaves: seq<seq<Page>>, sorted: seq<seq<Page>>, leaves: seq<Page>,
                                leafPages: map<Page, nat>, workers: nat, schedule: seq<nat>)
    requires workers > 0 && AllStopped(Run(sorted, workers, schedule))
    requires |sorted| == |qleaves| && forall q :: 0 <= q < |sorted| ==> multiset(sorted[q]) == multiset(qleaves[q])
    requires Lists(leaves, (set p | p in InOrder(qleaves, |qleaves|)))
    ensures var visits := InOrder(qleaves, |qleaves|); var log := Run(sorted, workers, schedule).log;
            && SumBy(Extent(leafPages), log) == SumBy(Extent(leafPages), visits)
            && SumBy(Extent(leafPages), log) == SumBy(Weighted(visits, Extent(leafPages)), leaves)
  {
    var visits := InOrder(qleaves, |qleaves|);
    AllWorkDoneOnce(sorted, workers, schedule);
    InOrderPermuted(qleaves, sorted, |qleaves|);
    SumByPermutation(Extent(leafPages), Run(sorted, workers, schedule).log, visits);
    ByPageIsByVisit(leaves, (set p | p in visits), visits, Extent(leafPages));
  }

  lemma {:induction false} InOrderPermuted(xs: seq<seq<Page>>, ys: seq<seq<Page>>, n: nat)
    requires |xs| == |ys| && n <= |xs| && forall q :: 0 <= q < |xs| ==> multiset(ys[q]) == multiset(xs[q])
    ensures multiset(InOrder(ys, n)) == multiset(InOrder(xs, n))
  {
    if n > 0 {
      InOrderPermuted(xs, ys, n - 1);
      assert multiset(ys[n - 1]) == multiset(xs[n - 1]);
    }
  }
}
