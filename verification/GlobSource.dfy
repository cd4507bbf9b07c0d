/** The sharded vector source with a positional label join (sources/parquet_glob_source.cpp:77-317):
    shards are streamed one after the other, labels come from their own file in chunks of their own,
    and row `i` of the vectors must meet row `i` of every label column. A call that finds too few
    labels has already read its vectors: they are lost, the labels stay. */
module GlobSource {
  import opened LabelBuffer

  type Vector = seq<real>

  /** What one read of the label file yields: `count` rows of every column. */
  datatype LabelChunk = LabelChunk(count: nat, cols: seq<Column>)

  datatype Outcome =
    | Batch(ids: seq<nat>, vectors: seq<Vector>, labels: seq<Column>)
    | Done
    | LabelsShort

  // ----- calls as steps on positions -----

  /** Where the reader stands, how many label rows are used up, and whether labels ran short since the
      last reset. */
  datatype Cursor = Cursor(shard: nat, pos: nat, used: nat, failed: bool)

  /** `Got`: `n` vectors from row `at` on, with the label rows from `from` on. */
  datatype Answer = Got(at: nat, from: nat, n: nat) | Short | End

  // ----- what is in the files, whatever the chunks -----

  function Flat(chunks: seq<seq<Vector>>, n: nat): (rows: seq<Vector>)
    requires n <= |chunks|
  {
    if n == 0 then [] else Flat(chunks, n - 1) + chunks[n - 1]
  }

  /** The vectors of the first `s` shards. */
  function Corpus(shards: seq<seq<seq<Vector>>>, s: nat): (rows: seq<Vector>)
    requires s <= |shards|
  {
    if s == 0 then [] else Corpus(shards, s - 1) + Flat(shards[s - 1], |shards[s - 1]|)
  }

  lemma {:induction false} FlatPrefix(chunks: seq<seq<Vector>>, i: nat, n: nat)
    requires i <= n <= |chunks|
    ensures Flat(chunks, i) <= Flat(chunks, n)
    decreases n - i
  {
    if i < n {
      FlatPrefix(chunks, i, n - 1);
    }
  }

  lemma {:induction false} CorpusPrefix(shards: seq<seq<seq<Vector>>>, s: nat, n: nat)
    requires s <= n <= |shards|
    ensures Corpus(shards, s) <= Corpus(shards, n)
    decreases n - s
  {
    if s < n {
      CorpusPrefix(shards, s, n - 1);
    }
  }

  predicate InPlace(shards: seq<seq<seq<Vector>>>, s: nat, p: nat) {
    s <= |shards| && if s < |shards| then p <= |shards[s]| else p == 0
  }

  /** Rows before chunk `p` of shard `s`. */
  function Position(shards: seq<seq<seq<Vector>>>, s: nat, p: nat): nat
    requires InPlace(shards, s, p)
  {
    |Corpus(shards, s)| + if s < |shards| then |Flat(shards[s], p)| else 0
  }

  /** A chunk stands in the corpus at the position where it is read, and the next one right after it. */
  lemma ChunkInCorpus(shards: seq<seq<seq<Vector>>>, s: nat, p: nat)
    requires s < |shards| && p < |shards[s]|
    ensures var at := Position(shards, s, p); var chunk := shards[s][p]; var all := Corpus(shards, |shards|);
            && Position(shards, s, p + 1) == at + |chunk| <= |all|
            && all[at..at + |chunk|] == chunk
  {
    FlatPrefix(shards[s], p + 1, |shards[s]|);
    CorpusPrefix(shards, s + 1, |shards|);
    var before, here := Corpus(shards, s), Flat(shards[s], |shards[s]|);
    var head, chunk := Flat(shards[s], p), shards[s][p];
    Nested(before, here, head, chunk, Corpus(shards, |shards|));
  }

  lemma Nested(before: seq<Vector>, here: seq<Vector>, head: seq<Vector>, chunk: seq<Vector>, all: seq<Vector>)
    requires head + chunk <= here && before + here <= all
    ensures |before| + |head| + |chunk| <= |all|
    ensures all[|before| + |head|..|before| + |head| + |chunk|] == chunk
  {
    forall j | 0 <= j < |chunk| ensures all[|before| + |head| + j] == chunk[j] {
      assert all[|before| + |head| + j] == (before + here)[|before| + |head| + j] == here[|head| + j]
          == (head + chunk)[|head| + j];
    }
  }

  ghost predicate ChunkOk(lc: LabelChunk, cols: nat) {
    |lc.cols| == cols && forall c :: 0 <= c < cols ==> Holds(lc.cols[c], lc.count)
  }

  ghost predicate WellFormed(labels: seq<LabelChunk>, cols: nat) {
    forall p :: 0 <= p < |labels| ==> ChunkOk(labels[p], cols)
  }

  function LabelCount(labels: seq<LabelChunk>, n: nat): nat
    requires n <= |labels|
  {
    if n == 0 then 0 else LabelCount(labels, n - 1) + labels[n - 1].count
  }

  /** The rows of column `c` in the first `n` label chunks. */
  ghost function LabelRows(labels: seq<LabelChunk>, cols: nat, n: nat, c: nat): (rows: seq<string>)
    requires WellFormed(labels, cols) && n <= |labels| && c < cols
    ensures |rows| == LabelCount(labels, n)
  {
    if n == 0 then [] else LabelRows(labels, cols, n - 1, c) + Rows(labels[n - 1].cols[c], labels[n - 1].count)
  }

  lemma {:induction false} LabelPrefix(labels: seq<LabelChunk>, cols: nat, i: nat, n: nat, c: nat)
    requires WellFormed(labels, cols) && i <= n <= |labels| && c < cols
    ensures LabelRows(labels, cols, i, c) <= LabelRows(labels, cols, n, c)
    decreases n - i
  {
    if i < n {
      LabelPrefix(labels, cols, i, n - 1, c);
    }
  }

  lemma {:induction false} CountPrefix(labels: seq<LabelChunk>, i: nat, n: nat)
    requires i <= n <= |labels|
    ensures LabelCount(labels, i) <= LabelCount(labels, n)
    decreases n - i
  {
    if i < n {
      CountPrefix(labels, i, n - 1);
    }
  }

  // ----- what must fit 32-bit offsets -----

  /** The first row that can still be in a buffer when label chunk `p` is read: those of the previous and
      of the current vector chunk are there, of at most `batch` rows each. */
  function OldestRow(labels: seq<LabelChunk>, p: nat, batch: nat): nat
    requires p <= |labels|
  {
    if LabelCount(labels, p) > 2 * batch then LabelCount(labels, p) - 2 * batch else 0
  }

  lemma OldestRowBound(labels: seq<LabelChunk>, p: nat, batch: nat)
    requires p < |labels|
    ensures OldestRow(labels, p, batch) <= LabelCount(labels, p) <= LabelCount(labels, p + 1)
  {
  }

  /** Every label read fits together with the two batches of rows before it. */
  ghost predicate WindowsFit(labels: seq<LabelChunk>, cols: nat, batch: nat)
    requires WellFormed(labels, cols)
  {
    forall p, c :: 0 <= p < |labels| && 0 <= c < cols ==> WindowFits(labels, cols, batch, p, c)
  }

  ghost predicate WindowFits(labels: seq<LabelChunk>, cols: nat, batch: nat, p: nat, c: nat)
    requires WellFormed(labels, cols) && p < |labels| && c < cols
  {
    OldestRowBound(labels, p, batch);
    Bytes(LabelRows(labels, cols, p + 1, c)[OldestRow(labels, p, batch)..]) < U32
  }

  ghost predicate ChunksWithin(shards: seq<seq<seq<Vector>>>, batch: nat) {
    forall s, p :: 0 <= s < |shards| && 0 <= p < |shards[s]| ==> |shards[s][p]| <= batch
  }

  // ----- one call and whole runs, on positions -----

  lemma EndOfShard(shards: seq<seq<seq<Vector>>>, s: nat)
    requires s < |shards|
    ensures Position(shards, s, |shards[s]|) == Position(shards, s + 1, 0)
  {
    if s + 1 < |shards| {
      assert Flat(shards[s + 1], 0) == [];
    }
  }

  /** The next place with a chunk, past exhausted shards, or the end. */
  function Skip(shards: seq<seq<seq<Vector>>>, s: nat, p: nat): (r: (nat, nat))
    requires InPlace(shards, s, p)
    ensures InPlace(shards, r.0, r.1) && (r.0 < |shards| ==> r.1 < |shards[r.0]|)
    ensures Position(shards, r.0, r.1) == Position(shards, s, p) && (r.0 > s || (r.0 == s && r.1 == p))
    decreases |shards| - s
  {
    if s < |shards| && p == |shards[s]| then
      EndOfShard(shards, s);
      Skip(shards, s + 1, 0)
    else (s, p)
  }

  /** One call of next: `total` label rows in the file, `labelled` if they are joined at all. */
  function Advance(shards: seq<seq<seq<Vector>>>, total: nat, labelled: bool, c: Cursor): (r: (Cursor, Answer))
    requires InPlace(shards, c.shard, c.pos)
    ensures InPlace(shards, r.0.shard, r.0.pos)
  {
    var (s, p) := Skip(shards, c.shard, c.pos);
    if s == |shards| then (c.(shard := s, pos := p), End)
    else
      var n := |shards[s][p]|;
      if labelled && c.used + n > total then (Cursor(s, p + 1, c.used, true), Short)
      else (Cursor(s, p + 1, c.used + n, c.failed), Got(Position(shards, s, p), c.used, n))
  }

  /** Labels are behind the vectors exactly when they ran short. */
  ghost predicate Sane(shards: seq<seq<seq<Vector>>>, total: nat, labelled: bool, c: Cursor) {
    && InPlace(shards, c.shard, c.pos) && c.used <= Position(shards, c.shard, c.pos)
    && (c.failed <==> c.used < Position(shards, c.shard, c.pos))
    && (labelled ==> c.used <= total) && (!labelled ==> !c.failed)
  }

  lemma PositionStep(shards: seq<seq<seq<Vector>>>, s: nat, p: nat)
    requires s < |shards| && p < |shards[s]|
    ensures Position(shards, s, p + 1) == Position(shards, s, p) + |shards[s][p]|
  {
  }

  lemma AdvanceKeepsSane(shards: seq<seq<seq<Vector>>>, total: nat, labelled: bool, c: Cursor)
    requires Sane(shards, total, labelled, c)
    ensures var (r, a) := Advance(shards, total, labelled, c);
      && Sane(shards, total, labelled, r) && (r.failed <==> c.failed || a.Short?)
      && (a.Got? ==> a.at == Position(shards, c.shard, c.pos) && (a.from == a.at <==> !c.failed))
      && (a.Short? ==> labelled && total < |Corpus(shards, |shards|)|)
      && (a.End? ==> Position(shards, c.shard, c.pos) == |Corpus(shards, |shards|)|)
  {
    hide Flat, Corpus, Position;
    var (s, p) := Skip(shards, c.shard, c.pos);
    if s < |shards| {
      PositionStep(shards, s, p);
      ChunkInCorpus(shards, s, p);
    } else {
      CorpusEnd(shards);
    }
  }

  lemma SanePlace(shards: seq<seq<seq<Vector>>>, total: nat, labelled: bool, c: Cursor)
    requires Sane(shards, total, labelled, c)
    ensures InPlace(shards, c.shard, c.pos) && (labelled ==> c.used <= total) && (!labelled ==> !c.failed)
  {
  }

  /** A call where the open shard has a chunk left. */
  lemma AdvanceAt(shards: seq<seq<seq<Vector>>>, total: nat, labelled: bool, c: Cursor)
    requires c.shard < |shards| && c.pos < |shards[c.shard]|
    ensures var n := |shards[c.shard][c.pos]|;
      Advance(shards, total, labelled, c) ==
      if labelled && c.used + n > total then (c.(pos := c.pos + 1, failed := true), Short)
      else (c.(pos := c.pos + 1, used := c.used + n), Got(Position(shards, c.shard, c.pos), c.used, n))
  {
    hide Position;
  }

  /** Leaving an exhausted shard changes no answer. */
  lemma SkipShard(shards: seq<seq<seq<Vector>>>, total: nat, labelled: bool, c: Cursor)
    requires Sane(shards, total, labelled, c) && c.shard < |shards| && c.pos == |shards[c.shard]|
    ensures var next := c.(shard := c.shard + 1, pos := 0);
      && Sane(shards, total, labelled, next)
      && Advance(shards, total, labelled, next) == Advance(shards, total, labelled, c)
  {
    hide Position;
    EndOfShard(shards, c.shard);
  }

  lemma AdvanceEnds(shards: seq<seq<seq<Vector>>>, total: nat, labelled: bool, c: Cursor)
    requires c.shard == |shards| && c.pos == 0
    ensures Advance(shards, total, labelled, c) == (c, End)
  {
  }

  lemma CorpusEnd(shards: seq<seq<seq<Vector>>>)
    ensures Position(shards, |shards|, 0) == |Corpus(shards, |shards|)|
  {
  }

  datatype Action = CallNext | CallReset
  datatype Event = Answered(answer: Answer) | Restarted

  /** What a caller sees of a sequence of calls. */
  ghost function Run(shards: seq<seq<seq<Vector>>>, total: nat, labelled: bool, calls: seq<Action>)
    : (r: (Cursor, seq<Event>))
    ensures Sane(shards, total, labelled, r.0) && |r.1| == |calls|
  {
    if calls == [] then (Cursor(0, 0, 0, false), [])
    else
      var (c, log) := Run(shards, total, labelled, calls[..|calls| - 1]);
      if calls[|calls| - 1].CallReset? then (Cursor(0, 0, 0, false), log + [Restarted])
      else
        AdvanceKeepsSane(shards, total, labelled, c);
        var (r, a) := Advance(shards, total, labelled, c);
        (r, log + [Answered(a)])
  }

  /** Some call since the last reset found too few labels. */
  predicate ShortSinceReset(log: seq<Event>) {
    log != [] &&
    match log[|log| - 1]
    case Restarted => false
    case Answered(a) => a.Short? || ShortSinceReset(log[..|log| - 1])
  }

  lemma {:induction false} FailedIsSeen(shards: seq<seq<seq<Vector>>>, total: nat, labelled: bool, calls: seq<Action>)
    ensures var (c, log) := Run(shards, total, labelled, calls); c.failed <==> ShortSinceReset(log)
  {
    if calls != [] {
      var before := calls[..|calls| - 1];
      FailedIsSeen(shards, total, labelled, before);
      var (c, log) := Run(shards, total, labelled, before);
      AdvanceKeepsSane(shards, total, labelled, c);
      hide Advance, Sane;
      var all := Run(shards, total, labelled, calls).1;
      assert all[..|all| - 1] == log;
    }
  }

  /** For every sequence of calls: a delivered chunk carries the labels with its own row numbers if and
      only if no call since the last reset found too few labels. */
  lemma {:induction false} JoinedIffNeverShort(shards: seq<seq<seq<Vector>>>, total: nat, labelled: bool,
                                               calls: seq<Action>, i: nat)
    requires i < |calls|
    ensures var log := Run(shards, total, labelled, calls).1;
      log[i].Answered? && log[i].answer.Got? ==>
        (log[i].answer.from == log[i].answer.at <==> !ShortSinceReset(log[..i]))
    decreases |calls|
  {
    var before := calls[..|calls| - 1];
    var (c, log) := Run(shards, total, labelled, before);
    var all := Run(shards, total, labelled, calls).1;
    assert all[..|calls| - 1] == log;
    if i < |calls| - 1 {
      JoinedIffNeverShort(shards, total, labelled, before, i);
      assert all[..i] == log[..i];
    } else {
      FailedIsSeen(shards, total, labelled, before);
      AdvanceKeepsSane(shards, total, labelled, c);
    }
  }

  /** Chunks of 10 and 3 vectors and 5 label rows: after the failed call the next one returns vectors
      10 to 12 with label rows 0 to 2. */
  lemma MisjoinedAfterShort(ten: seq<Vector>, three: seq<Vector>)
    requires |ten| == 10 && |three| == 3
    ensures Run([[ten, three]], 5, true, [CallNext, CallNext]).1 == [Answered(Short), Answered(Got(10, 0, 3))]
  {
    var shards: seq<seq<seq<Vector>>> := [[ten, three]];
    assert Flat(shards[0], 0) == [] && Flat(shards[0], 1) == ten && Corpus(shards, 0) == [];
    assert Position(shards, 0, 0) == 0 && Position(shards, 0, 1) == 10;
    assert Skip(shards, 0, 0) == (0, 0) && Skip(shards, 0, 1) == (0, 1);
    assert Advance(shards, 5, true, Cursor(0, 0, 0, false)) == (Cursor(0, 1, 0, true), Short);
    assert Advance(shards, 5, true, Cursor(0, 1, 0, true)) == (Cursor(0, 2, 3, true), Got(10, 0, 3));
    hide Advance, Sane;
    OneMoreCall(shards, 5, true, []);
    OneMoreCall(shards, 5, true, [CallNext]);
    assert [] + [CallNext] == [CallNext] && [CallNext] + [CallNext] == [CallNext, CallNext];
  }

  lemma OneMoreCall(shards: seq<seq<seq<Vector>>>, total: nat, labelled: bool, calls: seq<Action>)
    ensures var (c, log) := Run(shards, total, labelled, calls);
      var (r, a) := Advance(shards, total, labelled, c);
      Run(shards, total, labelled, calls + [CallNext]) == (r, log + [Answered(a)])
  {
    hide Advance;
    assert (calls + [CallNext])[..|calls|] == calls;
  }

  // ----- the source -----

  class Source {
    const shards: seq<seq<seq<Vector>>>
    const labels: seq<LabelChunk>
    /** Label columns; none without a label file. */
    const cols: nat
    /** The largest vector chunk. */
    const batch: nat
    const shardBase: seq<nat>
    const bufs: seq<LabelStringBuf>
    var curShard: nat
    var open: bool
    var filePos: nat
    var labelPos: nat
    /** Label rows handed out, and whether labels ran short, since the start or the last reset. */
    ghost var used: nat
    ghost var failed: bool

    ghost predicate Shape() {
      && WellFormed(labels, cols) && WindowsFit(labels, cols, batch) && ChunksWithin(shards, batch)
      && |shardBase| == |shards| && (forall s :: 0 <= s < |shards| ==> shardBase[s] == |Corpus(shards, s)|)
      && |bufs| == cols && (forall c, d :: 0 <= c < d < cols ==> bufs[c] != bufs[d])
    }

    /** Buffer `c` ends with the last row of the first `pos` label chunks, waits with those after the
        first `done`, and keeps at most one batch of older ones. */
    ghost predicate InStep(c: nat, pos: nat, done: nat)
      requires Shape() && c < cols && pos <= |labels|
      reads bufs[c]
    {
      && done <= LabelCount(labels, pos) && bufs[c].Valid() && bufs[c].head <= done && bufs[c].head <= batch
      && bufs[c].All() == LabelRows(labels, cols, pos, c)[done - bufs[c].head..]
    }

    ghost predicate Lockstep(pos: nat, done: nat)
      requires Shape()
      reads bufs
    {
      pos <= |labels| && forall c :: 0 <= c < cols ==> InStep(c, pos, done)
    }

    ghost function Total(): nat {
      LabelCount(labels, |labels|)
    }

    ghost function Here(): Cursor
      reads this
    {
      Cursor(curShard, filePos, used, failed)
    }

    ghost predicate Valid()
      reads this, bufs
    {
      && Shape() && InPlace(shards, curShard, filePos)
      && labelPos <= |labels| && (cols > 0 ==> Lockstep(labelPos, used))
      && Sane(shards, Total(), cols > 0, Here()) && (!open ==> filePos == 0) && (open ==> curShard < |shards|)
      && (failed ==> labelPos == |labels|)
    }

    constructor (shards: seq<seq<seq<Vector>>>, labels: seq<LabelChunk>, cols: nat, batch: nat)
      requires WellFormed(labels, cols) && WindowsFit(labels, cols, batch) && ChunksWithin(shards, batch)
      ensures Valid() && Here() == Cursor(0, 0, 0, false)
      ensures this.shards == shards && this.labels == labels && this.cols == cols && fresh(bufs)
    {
      var base := ShardBases(shards);
      var made := FreshBuffers(cols);
      this.shards, this.labels, this.cols, this.batch := shards, labels, cols, batch;
      this.shardBase, this.bufs := base, made;
      curShard, open, filePos, labelPos, used, failed := 0, false, 0, 0, 0, false;
    }

    method Reset()
      requires Shape()
      modifies this, bufs
      ensures Valid() && Here() == Cursor(0, 0, 0, false)
    {
      var c := 0;
      while c < cols
        invariant 0 <= c <= cols
        invariant forall d :: 0 <= d < c ==> InStep(d, 0, 0)
      {
        bufs[c].Clear();
        c := c + 1;
      }
      open, filePos, curShard, labelPos, used, failed := false, 0, 0, 0, 0, false;
    }

    /** One column's share of a label read: needed for the current chunk, so the bytes kept fit. */
    method AppendTo(c: nat, pos: nat, ghost done: nat, ghost need: nat)
      requires Shape() && c < cols && pos < |labels| && InStep(c, pos, done)
      requires LabelCount(labels, pos) < done + need && need <= batch
      modifies bufs[c]
      ensures InStep(c, pos + 1, done) && bufs[c].head == old(bufs[c].head)
    {
      assert c < |bufs|;
      hide *;
      AppendReady(c, pos, done, need);
      bufs[c].Append(labels[pos].cols[c], labels[pos].count);
      NowInStep(c, pos + 1, done);
    }

    lemma NowInStep(c: nat, pos: nat, done: nat)
      requires Shape() && c < cols && pos <= |labels| && done <= LabelCount(labels, pos)
      requires bufs[c].Valid() && bufs[c].head <= done && bufs[c].head <= batch
      requires bufs[c].All() == LabelRows(labels, cols, pos, c)[done - bufs[c].head..]
      ensures InStep(c, pos, done)
    {
    }

    lemma AppendReady(c: nat, pos: nat, done: nat, need: nat)
      requires Shape() && c < cols && pos < |labels| && InStep(c, pos, done)
      requires LabelCount(labels, pos) < done + need && need <= batch
      ensures ChunkOk(labels[pos], cols) && done <= LabelCount(labels, pos + 1) && |labels[pos].cols| == cols
      ensures bufs[c].Valid() && bufs[c].head <= done && bufs[c].head <= batch
      ensures Holds(labels[pos].cols[c], labels[pos].count)
      ensures var col, n := labels[pos].cols[c], labels[pos].count; var start := done - bufs[c].head;
        && |bufs[c].data| + SumOf(col.lengths, n) < U32
        && LabelRows(labels, cols, pos + 1, c)[start..] == bufs[c].All() + Rows(col, n)
    {
      hide LabelStringBuf.Valid, LabelStringBuf.All, Bytes, SumOf, Rows, Holds, WindowsFit;
      var lc := labels[pos];
      assert ChunkOk(lc, cols);
      var start := done - bufs[c].head;
      DropOfSum(LabelRows(labels, cols, pos, c), Rows(lc.cols[c], lc.count), start);
      ResidentFits(c, pos, start);
      bufs[c].SizeIsBytes();
    }

    lemma ResidentFits(c: nat, pos: nat, start: nat)
      requires Shape() && c < cols && pos < |labels|
      requires OldestRow(labels, pos, batch) <= start <= LabelCount(labels, pos)
      requires ChunkOk(labels[pos], cols)
      ensures var col, n := labels[pos].cols[c], labels[pos].count;
        Bytes(LabelRows(labels, cols, pos, c)[start..]) + SumOf(col.lengths, n) < U32
    {
      assert WindowFits(labels, cols, batch, pos, c);
      var lc := labels[pos];
      var rows, more := LabelRows(labels, cols, pos, c), Rows(lc.cols[c], lc.count);
      SumIsBytes(lc.cols[c], lc.count, lc.count);
      assert more[..lc.count] == more;
      DropOfSum(rows, more, start);
      BytesSplit(rows[start..], more);
      BytesOfRest(rows + more, OldestRow(labels, pos, batch), start);
    }

    /** One read of the label file goes to every column. */
    method AppendToAll(ghost done: nat, ghost need: nat)
      requires Shape() && Lockstep(labelPos, done) && labelPos < |labels|
      requires LabelCount(labels, labelPos) < done + need && need <= batch
      modifies `labelPos, bufs
      ensures Lockstep(labelPos, done) && labelPos == old(labelPos) + 1
      ensures forall c :: 0 <= c < cols ==> bufs[c].head == old(bufs[c].head)
    {
      hide InStep, WellFormed, WindowsFit, LabelCount, Corpus;
      ghost var next := labelPos + 1;
      var c := 0;
      while c < cols
        invariant 0 <= c <= cols && labelPos == old(labelPos)
        invariant forall d :: 0 <= d < c ==> InStep(d, next, done)
        invariant forall d :: c <= d < cols ==> InStep(d, labelPos, done)
        invariant forall d :: 0 <= d < cols ==> bufs[d].head == old(bufs[d].head)
      {
        AppendTo(c, labelPos, done, need);
        c := c + 1;
      }
      labelPos := labelPos + 1;
    }

    method CompactColumn(c: nat, ghost pos: nat, ghost done: nat)
      requires Shape() && c < cols && pos <= |labels| && InStep(c, pos, done)
      modifies bufs[c]
      ensures InStep(c, pos, done) && bufs[c].head == 0
    {
      bufs[c].Compact();
    }

    function WaitingIn(c: nat, ghost pos: nat, ghost done: nat): (n: nat)
      requires Shape() && c < cols && pos <= |labels| && InStep(c, pos, done)
      reads bufs[c]
      ensures n == LabelCount(labels, pos) - done
    {
      bufs[c].Available()
    }

    /** Reads on until column `c` has `need` rows waiting; fails when the file has not that many. */
    method FillColumn(c: nat, need: nat) returns (ok: bool)
      requires Shape() && Lockstep(labelPos, used) && c < cols && need <= batch
      modifies `labelPos, bufs
      ensures Lockstep(labelPos, used) && labelPos >= old(labelPos)
      ensures ok ==> used + need <= LabelCount(labels, labelPos) && bufs[c].head == 0
      ensures !ok ==> used + need > LabelCount(labels, |labels|) && labelPos == |labels|
      ensures forall d :: 0 <= d < cols && d != c ==> bufs[d].head == old(bufs[d].head)
    {
      hide InStep, WellFormed, WindowsFit, Corpus;
      CompactColumn(c, labelPos, used);
      while WaitingIn(c, labelPos, used) < need
        invariant Lockstep(labelPos, used) && labelPos >= old(labelPos) && bufs[c].head == 0
        invariant forall d :: 0 <= d < cols && d != c ==> bufs[d].head == old(bufs[d].head)
        decreases |labels| - labelPos
      {
        if labelPos == |labels| {
          return false;
        }
        AppendToAll(used, need);
      }
      ok := true;
    }

    /** Reads on until every column has `need` rows waiting; fails when the file has not that many. */
    method EnsureLabelRows(need: nat) returns (ok: bool)
      requires Shape() && labelPos <= |labels| && (cols > 0 ==> Lockstep(labelPos, used)) && need <= batch
      modifies `labelPos, bufs
      ensures labelPos <= |labels|
      ensures cols > 0 ==> Lockstep(labelPos, used)
      ensures ok <==> cols == 0 || used + need <= LabelCount(labels, |labels|)
      ensures !ok ==> labelPos == |labels|
      ensures cols == 0 ==> labelPos == old(labelPos)
      ensures labelPos >= old(labelPos)
      ensures ok && cols > 0 ==> used + need <= LabelCount(labels, labelPos)
      ensures ok ==> forall c :: 0 <= c < cols ==> bufs[c].head == 0
    {
      hide InStep, WellFormed, WindowsFit, Corpus;
      var c := 0;
      while c < cols
        invariant 0 <= c <= cols && (cols > 0 ==> Lockstep(labelPos, used)) && old(labelPos) <= labelPos <= |labels|
        invariant c > 0 ==> used + need <= LabelCount(labels, labelPos)
        invariant cols == 0 ==> labelPos == old(labelPos)
        invariant forall d :: 0 <= d < c ==> bufs[d].head == 0
      {
        ghost var before := labelPos;
        ok := FillColumn(c, need);
        if !ok {
          return;
        }
        CountPrefix(labels, before, labelPos);
        c := c + 1;
      }
      if cols > 0 {
        CountPrefix(labels, labelPos, |labels|);
      }
      ok := true;
    }

    /** Column `c` of a chunk shows the label file's rows `from` up to `from + n`. */
    ghost predicate Shows(view: Column, c: nat, from: nat, n: nat)
      requires Shape() && c < cols
    {
      && from + n <= LabelCount(labels, |labels|) && Holds(view, n)
      && Rows(view, n) == LabelRows(labels, cols, |labels|, c)[from..from + n]
    }

    method ConsumeFrom(c: nat, n: nat, ghost pos: nat, ghost from: nat) returns (view: Column)
      requires Shape() && c < cols && pos <= |labels| && InStep(c, pos, from) && from + n <= LabelCount(labels, pos)
      requires bufs[c].head == 0 && n <= batch
      modifies bufs[c]
      ensures InStep(c, pos, from + n) && Shows(view, c, from, n) && Live(bufs[c], view, n)
    {
      assert c < |bufs|;
      hide *;
      ConsumeReady(c, pos, from);
      ghost var was := bufs[c].Waiting();
      view := bufs[c].Consume(n);
      Consumed(c, n, pos, from, view, was);
    }

    lemma ConsumeReady(c: nat, pos: nat, from: nat)
      requires Shape() && c < cols && pos <= |labels| && InStep(c, pos, from) && bufs[c].head == 0
      ensures bufs[c].Valid() && bufs[c].Waiting() == bufs[c].All() == LabelRows(labels, cols, pos, c)[from..]
      ensures bufs[c].Available() == LabelCount(labels, pos) - from
    {
    }

    /** What the consumed rows are, and where the buffer then stands. */
    lemma Consumed(c: nat, n: nat, pos: nat, from: nat, view: Column, was: seq<string>)
      requires Shape() && c < cols && pos <= |labels| && from + n <= LabelCount(labels, pos) && n <= batch
      requires was == LabelRows(labels, cols, pos, c)[from..]
      requires bufs[c].Valid() && bufs[c].head == n && bufs[c].All() == was
      requires Holds(view, n) && n <= |was| && Rows(view, n) == was[..n]
      requires n > 0 ==> view == Column(bufs[c].offsets[0..], bufs[c].lengths[0..], bufs[c].data)
      ensures InStep(c, pos, from + n) && Shows(view, c, from, n) && Live(bufs[c], view, n)
    {
      LabelPrefix(labels, cols, pos, |labels|, c);
      hide Rows, Holds, Bytes, SumOf, WindowsFit, LabelRows, LabelCount;
    }

    /** Points every label column at its next `n` rows. */
    method ConsumeLabels(n: nat) returns (out: seq<Column>)
      requires Shape() && n <= batch
      requires cols > 0 ==> Lockstep(labelPos, used) && used + n <= LabelCount(labels, labelPos)
      requires forall c :: 0 <= c < cols ==> bufs[c].head == 0
      modifies bufs
      ensures (cols > 0 ==> Lockstep(labelPos, used + n)) && |out| == cols
      ensures forall c :: 0 <= c < cols ==> Shows(out[c], c, used, n) && Live(bufs[c], out[c], n)
    {
      hide InStep, Shows, Live, WellFormed, WindowsFit, LabelCount, Corpus;
      out := [];
      ghost var after := used + n;
      while |out| < cols
        invariant |out| <= cols
        invariant forall d :: 0 <= d < |out| ==> InStep(d, labelPos, after)
        invariant forall d :: |out| <= d < cols ==> InStep(d, labelPos, used) && bufs[d].head == 0
        invariant forall d :: 0 <= d < |out| ==> Shows(out[d], d, used, n) && Live(bufs[d], out[d], n)
      {
        var view := ConsumeFrom(|out|, n, labelPos, used);
        out := out + [view];
      }
    }

    /** What a delivered chunk is: `n` rows of the corpus from `at` on with their global ids, and in every
        label column the label file's rows from `from` on. */
    ghost predicate Joined(out: Outcome, at: nat, from: nat, n: nat)
      requires Shape() && out.Batch?
      reads bufs
    {
      && n == |out.vectors| && at + n <= |Corpus(shards, |shards|)|
      && out.ids == IdsFrom(at, n)
      && out.vectors == Corpus(shards, |shards|)[at..at + n]
      && |out.labels| == cols
      && forall c :: 0 <= c < cols ==> Shows(out.labels[c], c, from, n) && Live(bufs[c], out.labels[c], n)
    }

    /** The outcome is what the position model answers. */
    ghost predicate Answers(out: Outcome, a: Answer)
      requires Shape()
      reads bufs
    {
      match a
      case Got(at, from, n) => out.Batch? && Joined(out, at, from, n)
      case Short => out.LabelsShort?
      case End => out.Done?
    }

    /** The next chunk of the open shard, with its labels. */
    method Deliver() returns (out: Outcome)
      requires Valid() && open && filePos < |shards[curShard]|
      modifies this, bufs
      ensures Valid()
      ensures var (c, a) := Advance(shards, Total(), cols > 0, old(Here())); Here() == c && Answers(out, a)
    {
      hide Corpus, Flat, LabelCount, Position, WellFormed, WindowsFit, InStep, Shows, Live, Advance, Skip, Lockstep,
          Sane;
      ghost var start := Here();
      SanePlace(shards, Total(), cols > 0, start);
      AdvanceAt(shards, Total(), cols > 0, start);
      AdvanceKeepsSane(shards, Total(), cols > 0, start);
      ChunkInCorpus(shards, curShard, filePos);
      var vectors, ids := ReadVectors();
      var ok := EnsureLabelRows(|vectors|);
      if !ok {
        failed := true;
        return LabelsShort;
      }
      var views := ConsumeLabels(|vectors|);
      used := used + |vectors|;
      out := Batch(ids, vectors, views);
    }

    /** The next chunk: vectors with global ids, and their labels; also after a failed call. */
    method Next() returns (out: Outcome)
      requires Valid()
      modifies this, bufs
      ensures Valid()
      ensures var (c, a) := Advance(shards, Total(), cols > 0, old(Here())); Here() == c && Answers(out, a)
    {
      hide Corpus, Flat, LabelCount, Position, WellFormed, WindowsFit, InStep, Joined, Lockstep, Advance, Skip, Sane;
      ghost var answer := Advance(shards, Total(), cols > 0, Here());
      while curShard < |shards|
        invariant Valid() && answer == Advance(shards, Total(), cols > 0, Here())
        decreases |shards| - curShard
      {
        SanePlace(shards, Total(), cols > 0, Here());
        open := true;
        if filePos < |shards[curShard]| {
          out := Deliver();
          return;
        }
        SkipShard(shards, Total(), cols > 0, Here());
        open, filePos := false, 0;
        curShard := curShard + 1;
      }
      AdvanceEnds(shards, Total(), cols > 0, Here());
      out := Done;
    }

    /** One read of the open shard, its ids counted from the shard's base. */
    method ReadVectors() returns (vectors: seq<Vector>, ids: seq<nat>)
      requires Shape() && open && curShard < |shards| && filePos < |shards[curShard]|
      modifies `filePos
      ensures filePos == old(filePos) + 1 && vectors == shards[curShard][old(filePos)] && |vectors| <= batch
      ensures ids == IdsFrom(Position(shards, curShard, old(filePos)), |vectors|)
    {
      vectors := shards[curShard][filePos];
      var localIds := IdsFrom(|Flat(shards[curShard], filePos)|, |vectors|);
      filePos := filePos + 1;
      ids := Rebase(localIds, shardBase[curShard]);
    }
  }

  /** The view's pointers still lead to the last `n` rows the buffer handed out. */
  ghost predicate Live(buf: LabelStringBuf, view: Column, n: nat)
    reads buf
  {
    && n <= buf.head
    && (n > 0 ==>
          && buf.head <= |buf.offsets| && buf.head <= |buf.lengths|
          && view == Column(buf.offsets[buf.head - n..], buf.lengths[buf.head - n..], buf.data))
  }

  /** Every row of the corpus once, in order, with ids 0, 1, 2, ..., and row `i` of every label column
      with vector `i`, however both files are cut into chunks. A pass is complete exactly when the
      label file has a row for every vector. */
  method Pass(s: Source) returns (complete: bool, ids: seq<nat>, vectors: seq<Vector>, rows: seq<seq<string>>)
    requires s.Valid() && s.Here() == Cursor(0, 0, 0, false)
    modifies s, s.bufs
    ensures complete <==> s.cols == 0 || |Corpus(s.shards, |s.shards|)| <= LabelCount(s.labels, |s.labels|)
    ensures complete ==> vectors == Corpus(s.shards, |s.shards|) && ids == IdsFrom(0, |vectors|) && |rows| == s.cols
    ensures complete ==> forall c :: 0 <= c < s.cols ==>
              rows[c] == LabelRows(s.labels, s.cols, |s.labels|, c)[..|vectors|]
  {
    hide Corpus, LabelCount, LabelRows, WellFormed, WindowsFit, Position, Live, s.Shows, Skip;
    ghost var corpus := Corpus(s.shards, |s.shards|);
    ids, vectors, rows := [], [], seq(s.cols, _ => []);
    NothingBefore(s.shards);
    while true
      invariant s.Valid() && !s.failed && s.Here().used == |vectors| <= |corpus| && vectors == corpus[..|vectors|]
      invariant ids == IdsFrom(0, |vectors|) && RowsRead(s, rows, |vectors|)
      decreases |s.shards| - s.curShard, if s.curShard < |s.shards| then |s.shards[s.curShard]| - s.filePos else 0
    {
      ghost var here := s.Here();
      AdvanceKeepsSane(s.shards, s.Total(), s.cols > 0, here);
      AdvanceMoves(s.shards, s.Total(), s.cols > 0, here);
      var out := s.Next();
      if out.LabelsShort? {
        complete := false;
        return;
      }
      if out.Done? {
        complete := true;
        AllRead(s, rows, |vectors|);
        return;
      }
      rows := AddRows(s, rows, out, |vectors|);
      ids, vectors := ids + out.ids, vectors + out.vectors;
    }
  }

  lemma NothingBefore(shards: seq<seq<seq<Vector>>>)
    requires InPlace(shards, 0, 0)
    ensures Position(shards, 0, 0) == 0
  {
  }

  /** A delivered chunk moves the reader forward. */
  lemma AdvanceMoves(shards: seq<seq<seq<Vector>>>, total: nat, labelled: bool, c: Cursor)
    requires InPlace(shards, c.shard, c.pos)
    ensures var (r, a) := Advance(shards, total, labelled, c);
      a.Got? ==> r.shard < |shards| && (r.shard > c.shard || (r.shard == c.shard && r.pos > c.pos))
  {
    hide Position;
  }

  /** Column by column, the label file's first `n` rows. */
  ghost predicate RowsRead(s: Source, rows: seq<seq<string>>, n: nat)
    requires s.Shape()
  {
    && |rows| == s.cols && (s.cols > 0 ==> n <= LabelCount(s.labels, |s.labels|))
    && forall c :: 0 <= c < s.cols ==> rows[c] == LabelRows(s.labels, s.cols, |s.labels|, c)[..n]
  }

  lemma AllRead(s: Source, rows: seq<seq<string>>, n: nat)
    requires s.Shape() && RowsRead(s, rows, n) && n == |Corpus(s.shards, |s.shards|)|
    ensures s.cols == 0 || |Corpus(s.shards, |s.shards|)| <= LabelCount(s.labels, |s.labels|)
  {
  }

  method AddRows(s: Source, rows: seq<seq<string>>, out: Outcome, ghost at: nat) returns (more: seq<seq<string>>)
    requires s.Shape() && RowsRead(s, rows, at) && out.Batch? && s.Joined(out, at, at, |out.vectors|)
    ensures RowsRead(s, more, at + |out.vectors|)
  {
    hide WellFormed, WindowsFit, Live, LabelRows, LabelCount, Corpus, IdsFrom;
    var n := |out.vectors|;
    more := [];
    while |more| < s.cols
      invariant |more| <= s.cols
      invariant |more| > 0 ==> at + n <= LabelCount(s.labels, |s.labels|)
      invariant forall c :: 0 <= c < |more| ==> more[c] == LabelRows(s.labels, s.cols, |s.labels|, c)[..at + n]
    {
      ghost var c := |more|;
      assert s.Shows(out.labels[c], c, at, n);
      more := more + [rows[|more|] + Rows(out.labels[|more|], n)];
    }
  }

  function IdsFrom(at: nat, n: nat): (ids: seq<nat>)
    ensures |ids| == n && forall i :: 0 <= i < n ==> ids[i] == at + i
  {
    seq(n, i => at + i)
  }

  /** Per-file ids become global ones. */
  method Rebase(ids: seq<nat>, base: nat) returns (r: seq<nat>)
    ensures |r| == |ids| && forall i :: 0 <= i < |ids| ==> r[i] == ids[i] + base
  {
    r := [];
    while |r| < |ids|
      invariant |r| <= |ids| && forall i :: 0 <= i < |r| ==> r[i] == ids[i] + base
    {
      r := r + [ids[|r|] + base];
    }
  }

  /** The number of rows in all shards before each one. */
  method ShardBases(shards: seq<seq<seq<Vector>>>) returns (base: seq<nat>)
    ensures |base| == |shards| && forall s :: 0 <= s < |shards| ==> base[s] == |Corpus(shards, s)|
  {
    base := [];
    var total := 0;
    while |base| < |shards|
      invariant |base| <= |shards| && total == |Corpus(shards, |base|)|
      invariant forall s :: 0 <= s < |base| ==> base[s] == |Corpus(shards, s)|
    {
      var count := |Flat(shards[|base|], |shards[|base|]|)|;
      total := total + count;
      base := base + [total - count];
    }
  }

  ghost predicate Blank(b: LabelStringBuf)
    reads b
  {
    b.Valid() && b.All() == [] && b.head == 0
  }

  method NewBuffer() returns (b: LabelStringBuf)
    ensures fresh(b) && Blank(b)
  {
    b := new LabelStringBuf();
  }

  method FreshBuffers(n: nat) returns (bufs: seq<LabelStringBuf>)
    ensures |bufs| == n && fresh(bufs) && (forall c, d :: 0 <= c < d < n ==> bufs[c] != bufs[d])
    ensures forall c :: 0 <= c < n ==> Blank(bufs[c])
  {
    hide Blank;
    bufs := [];
    while |bufs| < n
      invariant |bufs| <= n && fresh(bufs) && (forall c, d :: 0 <= c < d < |bufs| ==> bufs[c] != bufs[d])
      invariant forall c :: 0 <= c < |bufs| ==> Blank(bufs[c])
    {
      var b := NewBuffer();
      bufs := bufs + [b];
    }
  }
}
