/** The double-buffered vector file reader (sources/fbin_source.cpp, sources/fbin_source.hpp):
    a consumer that calls next and reset, and a prefetch thread that fills the other buffer
    row by row, in any interleaving. */
module FbinSource {
  import opened Numbers

  /** What a buffer slot holds: nothing yet, or the row of the file with this index. */
  datatype Cell = Empty | Row(index: nat)

  /** `count` rows according to the header, `avail` rows really in the file. */
  datatype File = File(count: nat, avail: nat, chunk: nat)

  /** `progress` rows of the current prefetch are written; `log` and `ids` are what the consumer got
      since the last reset, `lastCount` the size of the last chunk, `misused` whether it asked on
      after a failed prefetch without a reset. */
  datatype State = State(
    bufs: seq<seq<Cell>>, cursor: nat, cur: nat,
    live: bool, progress: nat, failed: bool, pending: bool, pendBuf: nat, pendCount: nat,
    lastCount: nat, log: seq<Cell>, ids: seq<nat>, misused: bool)

  datatype Outcome = Delivered | EndOfFile | ReadError

  function Blank(f: File): State {
    var empty := seq(f.chunk, _ => Empty);
    State([empty, empty], 0, 0, false, 0, false, false, 0, 0, 0, [], [], false)
  }

  // ----- reading rows into a buffer -----

  /** Rows `at + from` up to `at + n` land in slots `from` up to `n`, as far as the file goes. */
  function Fill(f: File, cells: seq<Cell>, at: nat, from: nat, n: nat): (r: seq<Cell>)
    requires from <= n <= |cells|
    ensures |r| == |cells|
    decreases n - from
  {
    if from == n || at + from >= f.avail then cells else Fill(f, cells[from := Row(at + from)], at, from + 1, n)
  }

  lemma {:induction false} FillCells(f: File, cells: seq<Cell>, at: nat, from: nat, n: nat)
    requires from <= n <= |cells|
    ensures forall j :: 0 <= j < |cells| ==>
              Fill(f, cells, at, from, n)[j] == if from <= j < n && at + j < f.avail then Row(at + j) else cells[j]
    decreases n - from
  {
    if from < n && at + from < f.avail {
      FillCells(f, cells[from := Row(at + from)], at, from + 1, n);
    }
  }

  function SetBuf(s: State, b: nat, cells: seq<Cell>): State
    requires b < |s.bufs|
  {
    s.(bufs := s.bufs[b := cells])
  }

  ghost predicate Shape(f: File, s: State) {
    && f.chunk > 0 && |s.bufs| == 2 && |s.bufs[0]| == f.chunk && |s.bufs[1]| == f.chunk
    && s.cur < 2 && s.pendBuf < 2 && s.progress <= s.pendCount <= f.chunk && s.cursor <= f.count
    && (s.pending ==> s.cursor + s.pendCount <= f.count)
  }

  // ----- the actors' steps -----

  /** One step of the prefetch thread: a row, or the end of the file where a row was expected. */
  function Tick(f: File, s: State): (r: State)
    requires Shape(f, s)
    ensures Shape(f, r)
  {
    if !s.live || s.failed || s.progress == s.pendCount then s
    else if s.cursor + s.progress >= f.avail then s.(failed := true)
    else SetBuf(s, s.pendBuf, s.bufs[s.pendBuf][s.progress := Row(s.cursor + s.progress)]).(progress := s.progress + 1)
  }

  /** The thread runs to its end. */
  function Join(f: File, s: State): (r: State)
    requires Shape(f, s)
    ensures Shape(f, r) && !r.live
    decreases s.live && !s.failed, s.pendCount - s.progress
  {
    if !s.live || s.failed || s.progress == s.pendCount then s.(live := false) else Join(f, Tick(f, s))
  }

  function NextIds(cursor: nat, n: nat): (r: seq<nat>)
    ensures |r| == n && forall i :: 0 <= i < n ==> r[i] == cursor + i
  {
    seq(n, i => cursor + i)
  }

  /** Hands out `n` rows of buffer `b` and starts the next prefetch. */
  function Deliver(f: File, s: State, b: nat, n: nat): (r: State)
    requires Shape(f, s) && !s.pending && b < 2 && n <= f.chunk && s.cursor + n <= f.count
    ensures Shape(f, r)
  {
    StartPrefetch(f, s.(log := s.log + s.bufs[b][..n], ids := s.ids + NextIds(s.cursor, n),
                        cursor := s.cursor + n, cur := b, lastCount := n))
  }

  /** Launches the thread for the chunk after the one in buffer `cur`, if there is one. */
  function StartPrefetch(f: File, s: State): (r: State)
    requires Shape(f, s) && !s.pending
    ensures Shape(f, r)
  {
    if s.cursor < f.count then
      s.(pendBuf := 1 - s.cur, pendCount := Min(f.chunk, f.count - s.cursor), live := true, progress := 0,
          pending := true)
    else s
  }

  /** Reads the next chunk into the buffer not in use and hands it out. */
  function SyncRead(f: File, s: State): (r: (State, Outcome))
    requires Shape(f, s) && !s.pending && s.cursor < f.count
    ensures Shape(f, r.0)
  {
    var n := Min(f.chunk, f.count - s.cursor);
    var b := 1 - s.cur;
    var s2 := SetBuf(s, b, Fill(f, s.bufs[b], s.cursor, 0, n));
    if s.cursor + n > f.avail then (s2, ReadError) else (Deliver(f, s2, b, n), Delivered)
  }

  function NextStep(f: File, s: State): (r: (State, Outcome))
    requires Shape(f, s)
    ensures Shape(f, r.0)
  {
    var s1 := Join(f, s);
    if s.live && s1.failed then (s1, ReadError)
    else if s1.pending then
      (Deliver(f, s1.(pending := false, misused := s1.misused || s1.failed), s1.pendBuf, s1.pendCount), Delivered)
    else if s1.cursor >= f.count then (s1, EndOfFile)
    else SyncRead(f, s1)
  }

  function ResetStep(f: File, s: State): (r: State)
    requires Shape(f, s)
    ensures Shape(f, r)
  {
    Join(f, s).(pending := false, failed := false, cursor := 0, lastCount := 0, log := [], ids := [], misused := false)
  }

  // ----- what every interleaving keeps -----

  ghost predicate RowsFrom(cells: seq<Cell>, at: nat) {
    forall j :: 0 <= j < |cells| ==> cells[j] == Row(at + j)
  }

  ghost predicate IdsFromZero(ids: seq<nat>) {
    forall j :: 0 <= j < |ids| ==> ids[j] == j
  }

  /** No slot can hold a row the file does not have. */
  ghost predicate Genuine(f: File, cells: seq<Cell>) {
    forall j :: 0 <= j < |cells| && cells[j].Row? ==> cells[j].index < f.avail
  }

  /** The prefetch in flight writes the buffer that was not handed out, and has written a prefix. */
  ghost predicate PrefetchOk(f: File, s: State)
    requires Shape(f, s)
  {
    && (s.live ==> s.pending)
    && (s.pending && !s.live ==> s.failed)
    && (s.failed ==> s.pending || s.misused)
    && (!s.pending ==> s.cursor == 0 || s.cursor == f.count)
    && (s.pending ==>
          && s.pendBuf == 1 - s.cur && s.cursor < f.count && s.pendCount == Min(f.chunk, f.count - s.cursor)
          && (if s.failed then s.cursor + s.pendCount > f.avail
              else RowsFrom(s.bufs[s.pendBuf][..s.progress], s.cursor)))
  }

  ghost predicate LogOk(f: File, s: State)
    requires Shape(f, s)
  {
    && |s.log| == |s.ids| == s.cursor && IdsFromZero(s.ids)
    && (RowsFrom(s.log, 0) <==> !s.misused)
    && Genuine(f, s.bufs[0]) && Genuine(f, s.bufs[1])
    && (s.cursor == 0 ==> !s.misused)
  }

  ghost predicate LastChunkOk(f: File, s: State)
    requires Shape(f, s)
  {
    && s.lastCount <= f.chunk && s.lastCount <= s.cursor
    && (!s.misused ==> RowsFrom(s.bufs[s.cur][..s.lastCount], s.cursor - s.lastCount))
  }

  ghost predicate Inv(f: File, s: State) {
    Shape(f, s) && PrefetchOk(f, s) && LogOk(f, s) && LastChunkOk(f, s)
  }

  lemma BlankInv(f: File)
    requires f.chunk > 0
    ensures Inv(f, Blank(f))
  {
  }

  /** A prefetch step keeps the invariant and never writes the buffer last handed out. */
  lemma TickKeepsInv(f: File, s: State)
    requires Inv(f, s)
    ensures Inv(f, Tick(f, s))
    ensures Tick(f, s).bufs[s.cur] == s.bufs[s.cur]
  {
  }

  /** What a finished join leaves: the target buffer complete, or known to be cut short. */
  ghost predicate Joined(f: File, s: State, r: State)
    requires Shape(f, s)
  {
    && Shape(f, r) && LogOk(f, r) && LastChunkOk(f, r) && r.bufs[s.cur] == s.bufs[s.cur]
    && r == s.(bufs := r.bufs, live := false, progress := r.progress, failed := r.failed)
    && (r.pending ==> r.pendBuf == 1 - r.cur && r.cursor < f.count && r.pendCount == Min(f.chunk, f.count - r.cursor))
    && (r.pending && !r.failed ==> RowsFrom(r.bufs[r.pendBuf][..r.pendCount], r.cursor))
    && (r.pending && r.failed ==> r.cursor + r.pendCount > f.avail)
    && (r.failed ==> r.pending || r.misused)
    && (!r.pending ==> r.cursor == 0 || r.cursor == f.count)
    && (s.failed ==> r.failed) && (!s.live ==> r.failed == s.failed)
  }

  lemma JoinedAtOnce(f: File, s: State)
    requires Inv(f, s) && (!s.live || s.failed || s.progress == s.pendCount)
    ensures Joined(f, s, s.(live := false))
  {
    hide RowsFrom, Genuine, IdsFromZero;
  }

  lemma {:induction false} JoinKeepsInv(f: File, s: State)
    requires Inv(f, s)
    ensures Joined(f, s, Join(f, s))
    decreases s.live && !s.failed, s.pendCount - s.progress
  {
    hide RowsFrom, Genuine, IdsFromZero, LogOk, LastChunkOk, PrefetchOk;
    if !s.live || s.failed || s.progress == s.pendCount {
      JoinedAtOnce(f, s);
    } else {
      TickKeepsInv(f, s);
      JoinKeepsInv(f, Tick(f, s));
    }
  }

  lemma RowsConcat(a: seq<Cell>, b: seq<Cell>, at: nat)
    ensures RowsFrom(a + b, at) <==> RowsFrom(a, at) && RowsFrom(b, at + |a|)
  {
    if RowsFrom(a + b, at) {
      forall j | 0 <= j < |a| ensures a[j] == Row(at + j) {
        assert (a + b)[j] == a[j];
      }
      forall j | 0 <= j < |b| ensures b[j] == Row(at + |a| + j) {
        assert (a + b)[|a| + j] == b[j];
      }
    }
  }

  lemma DeliverKeepsInv(f: File, s: State, b: nat, n: nat)
    requires Shape(f, s) && !s.pending && !s.live && b < 2 && 0 < n <= f.chunk && s.cursor + n <= f.count
    requires |s.log| == |s.ids| == s.cursor && IdsFromZero(s.ids)
    requires Genuine(f, s.bufs[0]) && Genuine(f, s.bufs[1])
    requires RowsFrom(s.log, 0) && RowsFrom(s.bufs[b][..n], s.cursor) <==> !s.misused
    requires s.failed ==> s.misused && s.cursor + n > f.avail
    ensures Inv(f, Deliver(f, s, b, n))
  {
    RowsConcat(s.log, s.bufs[b][..n], 0);
  }

  /** A buffer cut short by the end of the file cannot pass for the rows asked for. */
  lemma CutShort(f: File, cells: seq<Cell>, at: nat, n: nat)
    requires Genuine(f, cells) && n <= |cells| && at + n > f.avail && 0 < n
    ensures !RowsFrom(cells[..n], at)
  {
    assert cells[..n][n - 1] == cells[n - 1];
  }

  /** Every call of next keeps the invariant, whatever state the prefetch is in. */
  lemma NextKeepsInv(f: File, s: State)
    requires Inv(f, s)
    ensures Inv(f, NextStep(f, s).0)
  {
    hide SyncRead, Deliver, RowsFrom, Genuine, IdsFromZero, Join;
    var s1 := Join(f, s);
    JoinKeepsInv(f, s);
    if s.live && s1.failed {
    } else if s1.pending {
      var s2 := s1.(pending := false, misused := s1.misused || s1.failed);
      if s1.failed {
        CutShort(f, s1.bufs[s1.pendBuf], s1.cursor, s1.pendCount);
      }
      DeliverKeepsInv(f, s2, s1.pendBuf, s1.pendCount);
    } else {
      JoinIdle(f, s);
      if s1.cursor < f.count {
        SyncReadKeepsInv(f, s1);
      }
    }
  }

  lemma JoinIdle(f: File, s: State)
    requires Shape(f, s) && !s.live
    ensures Join(f, s) == s
  {
  }

  lemma SyncReadKeepsInv(f: File, s: State)
    requires Inv(f, s) && !s.pending && !s.live && s.cursor < f.count
    ensures Inv(f, SyncRead(f, s).0)
  {
    var n := Min(f.chunk, f.count - s.cursor);
    var b := 1 - s.cur;
    var cells := Fill(f, s.bufs[b], s.cursor, 0, n);
    FillResult(f, s.bufs[b], s.cursor, n);
    var s2 := SetBuf(s, b, cells);
    hide Fill, Deliver, RowsFrom, Genuine, IdsFromZero;
    if s.cursor + n <= f.avail {
      DeliverKeepsInv(f, s2, b, n);
    }
  }

  lemma FillResult(f: File, cells: seq<Cell>, at: nat, n: nat)
    requires n <= |cells| && Genuine(f, cells)
    ensures var r := Fill(f, cells, at, 0, n);
      Genuine(f, r) && (at + n <= f.avail ==> RowsFrom(r[..n], at))
  {
    FillCells(f, cells, at, 0, n);
  }

  /** A delivered chunk is as large as it can be, and the cursor moves on by its size. */
  lemma ChunksAreFull(f: File, s: State)
    requires Inv(f, s) && NextStep(f, s).1 == Delivered
    ensures var r := NextStep(f, s).0; var left := f.count - s.cursor;
      r.lastCount == (if left < f.chunk then left else f.chunk) && r.cursor == s.cursor + r.lastCount
  {
    JoinKeepsInv(f, s);
    JoinKeepsCursor(f, s);
    hide Join, Fill, LogOk, LastChunkOk, RowsFrom, NextIds;
  }

  lemma ResetKeepsInv(f: File, s: State)
    requires Inv(f, s)
    ensures Inv(f, ResetStep(f, s))
  {
    hide Join, Genuine;
    JoinKeepsInv(f, s);
  }

  // ----- all schedules -----

  datatype Action = CallNext | CallReset | PrefetchStep

  function Act(f: File, s: State, a: Action): State
    requires Shape(f, s)
  {
    match a
    case CallNext => NextStep(f, s).0
    case CallReset => ResetStep(f, s)
    case PrefetchStep => Tick(f, s)
  }

  /** The state after a schedule of consumer calls and prefetch steps, in any order. */
  ghost function Run(f: File, schedule: seq<Action>): (s: State)
    requires f.chunk > 0
    ensures Inv(f, s)
  {
    if schedule == [] then
      BlankInv(f);
      Blank(f)
    else
      var n := |schedule| - 1;
      var s := Run(f, schedule[..n]);
      ActKeepsInv(f, s, schedule[n]);
      Act(f, s, schedule[n])
  }

  lemma ActKeepsInv(f: File, s: State, a: Action)
    requires Inv(f, s)
    ensures Inv(f, Act(f, s, a))
  {
    match a
    case CallNext => NextKeepsInv(f, s);
    case CallReset => ResetKeepsInv(f, s);
    case PrefetchStep => TickKeepsInv(f, s);
  }

  // ----- what the consumer sees -----

  datatype Event = Returned(o: Outcome) | Restarted

  /** The outcomes of the consumer's calls, in order; prefetch steps are not seen. */
  ghost function Seen(f: File, schedule: seq<Action>): seq<Event>
    requires f.chunk > 0
  {
    if schedule == [] then []
    else
      var n := |schedule| - 1;
      Seen(f, schedule[..n]) +
      match schedule[n]
      case CallNext => [Returned(NextStep(f, Run(f, schedule[..n])).1)]
      case CallReset => [Restarted]
      case PrefetchStep => []
  }

  /** A chunk was delivered since the last reset. */
  predicate GotSome(seen: seq<Event>) {
    seen != [] && seen[|seen| - 1].Returned? && (seen[|seen| - 1].o == Delivered || GotSome(seen[..|seen| - 1]))
  }

  /** Since the last reset a call failed after a chunk had been delivered. */
  predicate FailedLater(seen: seq<Event>) {
    && seen != [] && seen[|seen| - 1].Returned?
    && (FailedLater(seen[..|seen| - 1]) || (seen[|seen| - 1].o == ReadError && GotSome(seen[..|seen| - 1])))
  }

  /** Since the last reset another call followed such a failure. */
  predicate WentOn(seen: seq<Event>) {
    && seen != [] && seen[|seen| - 1].Returned?
    && (WentOn(seen[..|seen| - 1]) || FailedLater(seen[..|seen| - 1]))
  }

  /** How the hidden state reflects what was seen. */
  ghost predicate Reflects(f: File, s: State, seen: seq<Event>)
    requires Shape(f, s)
  {
    && (s.cursor > 0 <==> GotSome(seen)) && (s.pending ==> s.cursor > 0) && (s.misused <==> WentOn(seen))
    && (!s.misused ==> (FailedLater(seen) <==> s.pending && !s.live))
  }

  lemma LastSeen(seen: seq<Event>, e: Event)
    ensures GotSome(seen + [e]) <==> e.Returned? && (e.o == Delivered || GotSome(seen))
    ensures FailedLater(seen + [e]) <==> e.Returned? && (FailedLater(seen) || (e.o == ReadError && GotSome(seen)))
    ensures WentOn(seen + [e]) <==> e.Returned? && (WentOn(seen) || FailedLater(seen))
  {
    assert (seen + [e])[..|seen|] == seen;
  }

  lemma NextReflects(f: File, s: State, seen: seq<Event>)
    requires Inv(f, s) && Reflects(f, s, seen)
    ensures var (r, o) := NextStep(f, s); Reflects(f, r, seen + [Returned(o)])
  {
    hide Fill, LogOk, LastChunkOk, Join, GotSome, FailedLater, WentOn;
    JoinKeepsInv(f, s);
    if !s.live {
      JoinIdle(f, s);
    }
    LastSeen(seen, Returned(NextStep(f, s).1));
  }

  lemma {:induction false} RunReflects(f: File, schedule: seq<Action>)
    requires f.chunk > 0
    ensures Reflects(f, Run(f, schedule), Seen(f, schedule))
  {
    hide Inv, NextStep, Join, GotSome, FailedLater, WentOn;
    if schedule == [] {
      assert !GotSome([]) && !FailedLater([]) && !WentOn([]) by { NothingSeen(); }
    } else {
      var n := |schedule| - 1;
      var s := Run(f, schedule[..n]);
      RunReflects(f, schedule[..n]);
      match schedule[n]
      case CallNext =>
        NextReflects(f, s, Seen(f, schedule[..n]));
      case CallReset =>
        LastSeen(Seen(f, schedule[..n]), Restarted);
      case PrefetchStep =>
        assert Seen(f, schedule) == Seen(f, schedule[..n]);
    }
  }

  lemma NothingSeen()
    ensures !GotSome([]) && !FailedLater([]) && !WentOn([])
  {
  }

  /** Whatever the schedule: since the last reset the consumer got as many rows as the cursor says, with
      ids 0, 1, 2, ..., and they are the file's rows in order exactly if it did not call on after a call
      that failed with a chunk already delivered. */
  lemma DeliversFileInOrder(f: File, schedule: seq<Action>)
    requires f.chunk > 0
    ensures var s := Run(f, schedule);
      && |s.log| == |s.ids| == s.cursor <= f.count
      && (forall j :: 0 <= j < |s.ids| ==> s.ids[j] == j)
      && ((forall j :: 0 <= j < |s.log| ==> s.log[j] == Row(j)) <==> !WentOn(Seen(f, schedule)))
  {
    var s := Run(f, schedule);
    assert Inv(f, s);
    assert RowsFrom(s.log, 0) <==> forall j :: 0 <= j < |s.log| ==> s.log[j] == Row(j);
    RunReflects(f, schedule);
  }

  lemma OneMoreCall(f: File, schedule: seq<Action>)
    requires f.chunk > 0
    ensures Run(f, schedule + [CallNext]) == NextStep(f, Run(f, schedule)).0
    ensures Seen(f, schedule + [CallNext]) == Seen(f, schedule) + [Returned(NextStep(f, Run(f, schedule)).1)]
  {
    hide NextStep, Inv;
    assert (schedule + [CallNext])[..|schedule|] == schedule;
  }

  lemma OneMoreTick(f: File, schedule: seq<Action>)
    requires f.chunk > 0
    ensures Run(f, schedule + [PrefetchStep]) == Tick(f, Run(f, schedule))
  {
    hide Tick, Inv;
    assert (schedule + [PrefetchStep])[..|schedule|] == schedule;
  }

  /** The first of several chunks of one row is out and the second is to be read ahead. */
  function OneOut(): State {
    State([[Empty], [Row(0)]], 1, 1, true, 0, false, true, 0, 1, 1, [Row(0)], [0], false)
  }

  function NothingOut(): State {
    State([[Empty], [Empty]], 0, 0, false, 0, false, false, 0, 0, 0, [], [], false)
  }

  lemma FirstRead(f: File)
    requires f.count > 1 && f.avail > 0 && f.chunk == 1
    ensures SyncRead(f, NothingOut()) == (OneOut(), Delivered)
  {
    var s := NothingOut();
    assert Fill(f, [Row(0)], 0, 1, 1) == [Row(0)];
    assert Fill(f, [Empty], 0, 0, 1) == [Row(0)];
    var s2 := SetBuf(s, 1, [Row(0)]);
    assert s2.bufs == [[Empty], [Row(0)]];
    assert [Row(0)][..1] == [Row(0)] && NextIds(0, 1) == [0];
    assert Deliver(f, s2, 1, 1) == OneOut();
  }

  lemma FirstRowOut(f: File)
    requires f.count > 1 && f.avail > 0 && f.chunk == 1
    ensures NextStep(f, NothingOut()) == (OneOut(), Delivered)
    ensures Run(f, [CallNext]) == OneOut() && Seen(f, [CallNext]) == [Returned(Delivered)]
  {
    assert Blank(f) == NothingOut() by {
      assert Blank(f).bufs[0] == [Empty] && Blank(f).bufs[1] == [Empty];
    }
    hide SyncRead, Inv, Deliver, Fill;
    FirstRead(f);
    assert Join(f, NothingOut()) == NothingOut();
    assert Run(f, []) == NothingOut() && Seen(f, []) == [];
    OneMoreCall(f, []);
    assert [] + [CallNext] == [CallNext];
  }

  /** The second chunk could not be read ahead. */
  function AheadFailed(): State {
    OneOut().(live := false, failed := true)
  }

  lemma SecondCallFails()
    ensures NextStep(File(2, 1, 1), OneOut()) == (AheadFailed(), ReadError)
  {
    var f, s := File(2, 1, 1), OneOut();
    var t := s.(failed := true);
    assert Tick(f, s) == t && Join(f, t) == AheadFailed() && Join(f, s) == Join(f, t);
    hide Join, Deliver, SyncRead;
  }

  lemma ThirdCallDelivers()
    ensures NextStep(File(2, 1, 1), AheadFailed()).1 == Delivered
    ensures NextStep(File(2, 1, 1), AheadFailed()).0.log == [Row(0), Empty]
  {
    var f, s := File(2, 1, 1), AheadFailed();
    assert Join(f, s) == s;
    var t := s.(pending := false, misused := true);
    assert Deliver(f, t, 0, 1).log == [Row(0)] + [Empty][..1];
    assert [Empty][..1] == [Empty];
    hide Join, Deliver, SyncRead;
  }

  /** Two rows promised, one in the file, chunks of one row: the second call fails and the third hands out a
      buffer that was never filled. */
  lemma WrongRowAfterFailure()
    ensures Seen(File(2, 1, 1), [CallNext, CallNext, CallNext])
            == [Returned(Delivered), Returned(ReadError), Returned(Delivered)]
    ensures Run(File(2, 1, 1), [CallNext, CallNext, CallNext]).log == [Row(0), Empty]
  {
    hide *;
    var f := File(2, 1, 1);
    FirstRowOut(f);
    SecondCallFails();
    ThirdCallDelivers();
    OneMoreCall(f, [CallNext]);
    OneMoreCall(f, [CallNext, CallNext]);
    assert [CallNext] + [CallNext] == [CallNext, CallNext];
    assert [CallNext, CallNext] + [CallNext] == [CallNext, CallNext, CallNext];
  }

  /** The second of three chunks is out and the third is to be read ahead. */
  function TwoOut(): State {
    State([[Row(1)], [Row(0)]], 2, 0, true, 0, false, true, 1, 1, 1, [Row(0), Row(1)], [0, 1], false)
  }

  lemma SecondReadAhead()
    ensures Join(File(3, 3, 1), OneOut()) == OneOut().(bufs := [[Row(1)], [Row(0)]], live := false, progress := 1)
  {
    var f, s := File(3, 3, 1), OneOut();
    var t := s.(bufs := [[Row(1)], [Row(0)]], progress := 1);
    assert [Empty][0 := Row(1)] == [Row(1)];
    assert Tick(f, s) == t;
    assert Join(f, t) == t.(live := false) && Join(f, s) == Join(f, t);
  }

  lemma SecondDelivered(t: State)
    requires t == OneOut().(bufs := [[Row(1)], [Row(0)]], live := false, progress := 1, pending := false)
    ensures Deliver(File(3, 3, 1), t, 0, 1) == TwoOut()
  {
    assert [Row(1)][..1] == [Row(1)] && NextIds(1, 1) == [1];
  }

  lemma SecondRowOut()
    ensures NextStep(File(3, 3, 1), OneOut()).0 == TwoOut()
  {
    SecondReadAhead();
    SecondDelivered(Join(File(3, 3, 1), OneOut()).(pending := false));
    hide Join, SyncRead, Deliver, TwoOut;
  }

  lemma ThirdRowRead()
    ensures Tick(File(3, 3, 1), TwoOut()).bufs[1] == [Row(2)]
  {
    assert [Row(0)][0 := Row(2)] == [Row(2)];
  }

  lemma FirstRowKept()
    ensures OneOut().cur == 1 && OneOut().bufs[1] == [Row(0)]
  {
  }

  /** Three chunks of one row: the first one is overwritten by a single prefetch step after the next call. */
  lemma OverwrittenAfterOneCall()
    ensures var s := Run(File(3, 3, 1), [CallNext]);
      && s.bufs[s.cur] == [Row(0)]
      && Run(File(3, 3, 1), [CallNext, CallNext, PrefetchStep]).bufs[s.cur] == [Row(2)]
  {
    hide *;
    var f := File(3, 3, 1);
    FirstRowOut(f);
    SecondRowOut();
    ThirdRowRead();
    FirstRowKept();
    OneMoreCall(f, [CallNext]);
    OneMoreTick(f, [CallNext, CallNext]);
    assert [CallNext] + [CallNext] == [CallNext, CallNext];
    assert [CallNext, CallNext] + [PrefetchStep] == [CallNext, CallNext, PrefetchStep];
  }

  /** next reports the end exactly when the pass has delivered every row. */
  lemma EndMeansAllDelivered(f: File, schedule: seq<Action>)
    requires f.chunk > 0
    ensures var s := Run(f, schedule);
      NextStep(f, s).1 == EndOfFile <==> s.cursor == f.count && !s.pending
  {
    hide Join, Deliver, Fill, LogOk, LastChunkOk;
    var s := Run(f, schedule);
    JoinKeepsInv(f, s);
  }

  /** A complete file never fails and is never misread. */
  lemma {:induction false} CompleteFileNeverFails(f: File, schedule: seq<Action>)
    requires f.chunk > 0 && f.avail >= f.count
    ensures var s := Run(f, schedule); !s.failed && !s.misused && NextStep(f, s).1 != ReadError
  {
    hide NextStep, Inv;
    if schedule != [] {
      var n := |schedule| - 1;
      CompleteFileNeverFails(f, schedule[..n]);
      CompleteFileStep(f, Run(f, schedule[..n]), schedule[n]);
    }
    CompleteFileStep(f, Run(f, schedule), CallNext);
  }

  lemma CompleteFileStep(f: File, s: State, a: Action)
    requires Inv(f, s) && f.avail >= f.count && !s.failed && !s.misused
    ensures !Act(f, s, a).failed && !Act(f, s, a).misused
    ensures NextStep(f, s).1 != ReadError
  {
    hide Fill, LogOk, LastChunkOk, Join;
    JoinKeepsInv(f, s);
  }

  /** Until the next call, the chunk last handed out reads back as delivered, however far the
      prefetch gets. */
  lemma {:induction false} LastChunkSurvivesPrefetch(f: File, s: State, ticks: nat)
    requires Inv(f, s)
    ensures var r := Ticks(f, s, ticks); Inv(f, r) && r.bufs[s.cur] == s.bufs[s.cur] && r.cur == s.cur
  {
    hide Inv, Tick;
    if ticks > 0 {
      LastChunkSurvivesPrefetch(f, s, ticks - 1);
      var r := Ticks(f, s, ticks - 1);
      TickKeepsInv(f, r);
      TickKeepsCur(f, r);
    }
  }

  lemma TickKeepsCur(f: File, s: State)
    requires Inv(f, s)
    ensures Tick(f, s).cur == s.cur
  {
  }

  ghost function Ticks(f: File, s: State, n: nat): State
    requires Inv(f, s)
    ensures Inv(f, Ticks(f, s, n))
  {
    if n == 0 then s
    else
      TickKeepsInv(f, Ticks(f, s, n - 1));
      Tick(f, Ticks(f, s, n - 1))
  }

  /** The first row read ahead lands in the buffer's first slot and stays there. */
  lemma {:induction false} FirstSlotTaken(f: File, s: State, ticks: nat)
    requires Inv(f, s) && s.live && !s.failed && s.progress == 0 && s.cursor < f.avail && ticks > 0
    ensures var r := Ticks(f, s, ticks);
      && Inv(f, r) && r.pendBuf == s.pendBuf && r.cursor == s.cursor && r.live && r.progress > 0
      && r.bufs[s.pendBuf][0] == Row(s.cursor)
  {
    hide Inv, RowsFrom, Genuine;
    ShapeOf(f, s);
    if ticks > 1 {
      FirstSlotTaken(f, s, ticks - 1);
      ShapeOf(f, Ticks(f, s, ticks - 1));
    } else {
      assert Ticks(f, s, 0) == s;
    }
  }

  lemma ShapeOf(f: File, s: State)
    requires Inv(f, s)
    ensures Shape(f, s) && (s.pending ==> s.pendCount > 0) && (s.live ==> s.pending)
  {
  }

  /** With nothing to prefetch, or nothing left in the file, prefetch steps write nothing. */
  lemma {:induction false} NothingWritten(f: File, s: State, ticks: nat)
    requires Inv(f, s) && (!s.live || s.cursor + s.progress >= f.avail)
    ensures var r := Ticks(f, s, ticks);
      r.bufs == s.bufs && r.live == s.live && r.cursor == s.cursor && r.progress == s.progress
  {
    hide Inv, RowsFrom, Genuine;
    if ticks > 0 {
      NothingWritten(f, s, ticks - 1);
    }
  }

  /** The header promises that a chunk stays valid until two calls later. It does, for any number of
      prefetch steps after the next call, exactly if that call leaves nothing to prefetch: otherwise the
      first row read ahead lands in it. */
  lemma ValidForTwoCallsIffNothingLeft(f: File, s: State, ticks: nat)
    requires Inv(f, s) && !s.misused && s.lastCount > 0
    requires NextStep(f, s).1 == Delivered && !NextStep(f, s).0.misused
    ensures var r := NextStep(f, s).0;
      && Inv(f, r)
      && r.bufs[s.cur] == s.bufs[s.cur]
      && (Ticks(f, r, ticks).bufs[s.cur] == s.bufs[s.cur] <==> ticks == 0 || r.cursor >= f.count || r.cursor >= f.avail)
  {
    NextKeepsInv(f, s);
    FirstRowWasOld(f, s);
    AfterDelivery(f, s);
    hide NextStep, Inv, Tick;
    var r := NextStep(f, s).0;
    if r.cursor >= f.count || r.cursor >= f.avail {
      NothingWritten(f, r, ticks);
    } else if ticks > 0 {
      FirstSlotTaken(f, r, ticks);
    }
  }

  lemma AfterDelivery(f: File, s: State)
    requires Inv(f, s) && !s.misused && NextStep(f, s).1 == Delivered && !NextStep(f, s).0.misused
    ensures var r := NextStep(f, s).0;
      && r.bufs[s.cur] == s.bufs[s.cur] && r.progress >= 0 && r.cursor > s.cursor - s.lastCount
      && (r.live <==> r.cursor < f.count) && (r.live ==> r.progress == 0 && !r.failed && r.pendBuf == s.cur)
  {
    hide RowsFrom, Genuine, IdsFromZero, Join;
    JoinKeepsInv(f, s);
  }

  lemma FirstRowWasOld(f: File, s: State)
    requires Inv(f, s) && !s.misused && s.lastCount > 0
    ensures s.bufs[s.cur][0] == Row(s.cursor - s.lastCount) && s.cursor > 0
  {
    assert s.bufs[s.cur][..s.lastCount][0] == Row(s.cursor - s.lastCount + 0);
  }

  // ----- the object -----

  ghost function Contents(vec: array2<Cell>): (r: seq<seq<Cell>>)
    reads vec
    ensures |r| == vec.Length0 && forall b :: 0 <= b < |r| ==> |r[b]| == vec.Length1
    ensures forall b, j :: 0 <= b < |r| && 0 <= j < vec.Length1 ==> r[b][j] == vec[b, j]
  {
    seq(vec.Length0, b requires 0 <= b < vec.Length0 reads vec =>
      seq(vec.Length1, j requires 0 <= j < vec.Length1 reads vec => vec[b, j]))
  }

  class Source {
    const f: File
    const vec: array2<Cell>
    const rowid: array2<nat>
    var cursor: nat
    var cur: nat
    var live: bool
    var progress: nat
    var failed: bool
    var pending: bool
    var pendBuf: nat
    var pendCount: nat
    ghost var lastCount: nat
    ghost var log: seq<Cell>
    ghost var ids: seq<nat>
    ghost var misused: bool

    /** The object as a value of the state machine. */
    ghost function Abs(): State
      reads this, vec
    {
      State(Contents(vec), cursor, cur, live, progress, failed, pending, pendBuf, pendCount, lastCount, log, ids,
          misused)
    }

    ghost predicate Wf()
      reads this, vec
    {
      vec.Length0 == rowid.Length0 == 2 && vec.Length1 == rowid.Length1 == f.chunk && Shape(f, Abs())
    }

    ghost predicate Valid()
      reads this, vec
    {
      Wf() && Inv(f, Abs())
    }

    constructor (file: File)
      requires file.chunk > 0
      ensures Valid() && fresh(vec) && fresh(rowid) && f == file && Abs() == Blank(file)
    {
      f := file;
      vec := new Cell[2, file.chunk]((_, _) => Empty);
      rowid := new nat[2, file.chunk]((_, _) => 0);
      cursor, cur, live, progress, failed, pending, pendBuf, pendCount := 0, 0, false, 0, false, false, 0, 0;
      lastCount, log, ids, misused := 0, [], [], false;
      new;
      assert Contents(vec)[0] == Blank(file).bufs[0] && Contents(vec)[1] == Blank(file).bufs[1];
      assert Contents(vec) == Blank(file).bufs;
      BlankInv(file);
    }

    method Store(b: nat, j: nat, c: Cell)
      requires b < vec.Length0 && j < vec.Length1
      modifies vec
      ensures Contents(vec) == old(Contents(vec))[b := old(Contents(vec))[b][j := c]]
    {
      ghost var before := Contents(vec);
      vec[b, j] := c;
      forall k | 0 <= k < vec.Length0 ensures Contents(vec)[k] == before[b := before[b][j := c]][k] {
      }
    }

    /** One step of the background thread. */
    method PrefetchStep()
      requires Wf()
      modifies this, vec
      ensures Wf()
      ensures Abs() == Tick(f, old(Abs()))
      ensures old(Valid()) ==> Valid()
    {
      hide Inv, Contents;
      if old(Valid()) {
        TickKeepsInv(f, Abs());
      }
      if live && !failed && progress < pendCount {
        if cursor + progress >= f.avail {
          failed := true;
        } else {
          Store(pendBuf, progress, Row(cursor + progress));
          progress := progress + 1;
        }
      }
    }

    /** `pf_thread_.join()`: the thread runs to its end. */
    method JoinThread()
      requires Wf()
      modifies this, vec
      ensures Wf()
      ensures Abs() == Join(f, old(Abs()))
    {
      hide Contents;
      ghost var s := Abs();
      while live && !failed && progress < pendCount
        invariant Wf()
        invariant Join(f, Abs()) == Join(f, s)
        decreases live && !failed, pendCount - progress
      {
        PrefetchStep();
      }
      live := false;
    }

    method Reset()
      requires Valid()
      modifies this, vec
      ensures Valid()
      ensures Abs() == ResetStep(f, old(Abs()))
    {
      ResetKeepsInv(f, Abs());
      hide Inv, Join, Contents;
      JoinThread();
      ClearFields();
    }

    method ClearFields()
      requires Wf()
      modifies this
      ensures Wf()
      ensures Abs() == old(Abs()).(pending := false, failed := false, cursor := 0, lastCount := 0, log := [],
                                   ids := [], misused := false)
    {
      hide Contents;
      pending := false;
      failed := false;
      cursor := 0;
      lastCount, log, ids, misused := 0, [], [], false;
    }

    /** Blocking read of `n` rows from index `at` into buffer `b`; false where the file ends early. */
    method ReadChunk(b: nat, at: nat, n: nat) returns (ok: bool)
      requires b < vec.Length0 && n <= vec.Length1
      modifies vec
      ensures Contents(vec) == old(Contents(vec))[b := Fill(f, old(Contents(vec))[b], at, 0, n)]
      ensures ok <==> n == 0 || at + n <= f.avail
    {
      ghost var before := Contents(vec);
      var got := 0;
      ok := true;
      while got < n && ok
        invariant got <= n && (got == 0 || at + got <= f.avail)
        invariant Fill(f, Contents(vec)[b], at, got, n) == Fill(f, before[b], at, 0, n)
        invariant Contents(vec) == before[b := Contents(vec)[b]]
        invariant !ok ==> got < n && at + got >= f.avail
        decreases n - got, ok
      {
        if at + got >= f.avail {
          ok := false;
        } else {
          Store(b, got, Row(at + got));
          got := got + 1;
        }
      }
      assert Contents(vec) == before[b := Fill(f, before[b], at, 0, n)];
    }

    /** Collect or read the chunk, hand it out in buffer `cur`, and start the next prefetch. */
    method Next() returns (o: Outcome, n: nat)
      requires Valid()
      modifies this, vec, rowid
      ensures Valid()
      ensures (Abs(), o) == NextStep(f, old(Abs()))
      ensures o == Delivered ==> n == lastCount && cursor == old(cursor) + n
      ensures o == Delivered ==> forall i :: 0 <= i < n ==> rowid[cur, i] == old(cursor) + i
    {
      NextKeepsInv(f, Abs());
      hide Inv, Join, SyncRead, Deliver, Contents;
      JoinKeepsCursor(f, Abs());
      var wasLive := live;
      JoinThread();
      n := 0;
      if wasLive && failed {
        o := ReadError;
      } else if pending {
        n := TakePending();
        o := Delivered;
      } else if cursor >= f.count {
        o := EndOfFile;
      } else {
        o, n := ReadNow();
      }
    }

    /** Hands out what was read ahead, complete or not. */
    method TakePending() returns (n: nat)
      requires Wf() && pending
      modifies this, rowid
      ensures Wf() && Abs() == var s := old(Abs());
                               Deliver(f, s.(pending := false, misused := s.misused || s.failed), s.pendBuf,
                                       s.pendCount)
      ensures n == lastCount && cursor == old(cursor) + n
      ensures forall i :: 0 <= i < n ==> rowid[cur, i] == old(cursor) + i
    {
      hide Contents, Deliver;
      pending := false;
      misused := misused || failed;
      n := pendCount;
      HandOut(pendBuf, n);
    }

    /** The synchronous path: nothing was read ahead. */
    method ReadNow() returns (o: Outcome, n: nat)
      requires Wf() && !pending && !live && cursor < f.count
      modifies this, vec, rowid
      ensures Wf() && (Abs(), o) == SyncRead(f, old(Abs()))
      ensures o == Delivered ==> n == lastCount && cursor == old(cursor) + n
      ensures o == Delivered ==> forall i :: 0 <= i < n ==> rowid[cur, i] == old(cursor) + i
    {
      hide Fill, Deliver, Contents;
      n := Min(f.chunk, f.count - cursor);
      var buf := 1 - cur;
      var ok := ReadChunk(buf, cursor, n);
      if !ok {
        o := ReadError;
      } else {
        HandOut(buf, n);
        o := Delivered;
      }
    }

    method HandOut(buf: nat, n: nat)
      requires Wf() && !pending && buf < 2 && n <= f.chunk && cursor + n <= f.count
      modifies this, rowid
      ensures Wf()
      ensures Abs() == Deliver(f, old(Abs()), buf, n)
      ensures lastCount == n && cursor == old(cursor) + n && cur == buf
      ensures forall i :: 0 <= i < n ==> rowid[buf, i] == old(cursor) + i
    {
      hide Contents, NextIds, StartPrefetch;
      FillIds(rowid, buf, cursor, n);
      log := log + Contents(vec)[buf][..n];
      ids := ids + NextIds(cursor, n);
      cursor := cursor + n;
      cur := buf;
      lastCount := n;
      Launch();
    }

    method Launch()
      requires Wf() && !pending
      modifies this`pendBuf, this`pendCount, this`live, this`progress, this`pending
      ensures Wf() && Abs() == StartPrefetch(f, old(Abs()))
    {
      hide Contents;
      if cursor < f.count {
        pendBuf := 1 - cur;
        pendCount := Min(f.chunk, f.count - cursor);
        live := true;
        progress := 0;
        pending := true;
      }
    }
  }

  lemma {:induction false} JoinKeepsCursor(f: File, s: State)
    requires Shape(f, s)
    ensures Join(f, s).cursor == s.cursor
    decreases s.live && !s.failed, s.pendCount - s.progress
  {
    if !(!s.live || s.failed || s.progress == s.pendCount) {
      JoinKeepsCursor(f, Tick(f, s));
    }
  }

  method FillIds(rowid: array2<nat>, b: nat, at: nat, n: nat)
    requires b < rowid.Length0 && n <= rowid.Length1
    modifies rowid
    ensures forall i :: 0 <= i < n ==> rowid[b, i] == at + i
    ensures forall k, i :: 0 <= k < rowid.Length0 && 0 <= i < rowid.Length1 && k != b ==>
              rowid[k, i] == old(rowid[k, i])
  {
    for i := 0 to n
      invariant forall k :: 0 <= k < i ==> rowid[b, k] == at + k
      invariant forall k, i :: 0 <= k < rowid.Length0 && 0 <= i < rowid.Length1 && k != b ==>
                  rowid[k, i] == old(rowid[k, i])
    {
      rowid[b, i] := at + i;
    }
  }
}
