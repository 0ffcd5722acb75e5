/** Paging of the 1C event log: the extractor asks for pages from a cursor (a second, and how many
    events of that second it already has) and persists the cursor between runs. The log server is an
    oracle: all that is known of it is `Answers`. Times are whole seconds. */
module EventLog {
  import opened Options

  datatype Event = Event(ts: int, text: string)

  type Log = seq<Event>

  ghost predicate Ordered(log: Log) {
    forall i, j :: 0 <= i < j < |log| ==> log[i].ts <= log[j].ts
  }

  /** How many events happened before second `t`. */
  function Before(log: Log, t: int): (n: nat)
    ensures n <= |log|
  {
    if log == [] then 0 else Before(log[..|log| - 1], t) + if log[|log| - 1].ts < t then 1 else 0
  }

  lemma BeforeSplits(log: Log, t: int)
    requires Ordered(log)
    ensures forall i :: 0 <= i < |log| ==> (log[i].ts < t <==> i < Before(log, t))
  {
    if log != [] {
      var n := |log| - 1;
      BeforeSplits(log[..n], t);
      forall i | 0 <= i < |log|
        ensures log[i].ts < t <==> i < Before(log, t)
      {
        if i < n {
          assert log[..n][i] == log[i];
        }
        if log[n].ts < t && n > 0 {
          assert log[..n][n - 1].ts <= log[n].ts;
        }
      }
    }
  }

  lemma BeforeMonotone(log: Log, t: int, u: int)
    requires t <= u
    ensures Before(log, t) <= Before(log, u)
  {
  }

  /** Events that are appended later than second `t` do not change what was before it. */
  lemma BeforeOfPrefix(log: Log, v: nat, t: int)
    requires v <= |log| && forall i :: v <= i < |log| ==> log[i].ts >= t
    ensures Before(log[..v], t) == Before(log, t)
  {
    if v == |log| {
      assert log[..v] == log;
    } else {
      var n := |log| - 1;
      assert log[..n][..v] == log[..v];
      BeforeOfPrefix(log[..n], v, t);
    }
  }

  lemma BeforeOfPrefixAtMost(log: Log, v: nat, t: int)
    requires v <= |log|
    ensures Before(log[..v], t) <= Before(log, t)
  {
    if v == |log| {
      assert log[..v] == log;
    } else {
      var n := |log| - 1;
      assert log[..n][..v] == log[..v];
      BeforeOfPrefixAtMost(log[..n], v, t);
    }
  }

  // ----- The server's side of the protocol ----------------------------------------------

  datatype Cursor = Cursor(start: int, offset: nat)

  datatype Request = Request(cursor: Cursor, end: int, limit: nat)

  datatype Response = Response(data: Log, lastDate: Option<int>, nextOffset: nat, hasMore: bool)

  /** Where a cursor points in a log. */
  function Position(log: Log, c: Cursor): nat {
    Before(log, c.start) + c.offset
  }

  /** The contract of one page: the next events in order from the cursor up to and including `end`,
      at most `limit` of them, and a cursor that points behind them. Nothing is said about the cursor
      of an empty page. */
  ghost predicate Answers(log: Log, q: Request, r: Response) {
    var from, upto := Position(log, q.cursor), Before(log, q.end + 1);
    var n := if from >= upto then 0 else if upto - from < q.limit then upto - from else q.limit;
    && (from <= |log| ==> r.data == log[from..from + n])
    && (from > |log| ==> r.data == [])
    && r.hasMore == (from + n < upto)
    && (n > 0 ==>
      && r.lastDate == Some(log[from + n - 1].ts)
      && Position(log, Cursor(log[from + n - 1].ts, r.nextOffset)) == from + n)
  }

  /** What one run gets to see: page `i` is answered from `log[..visible(i)]`. */
  ghost predicate Grows(log: Log, visible: nat -> nat) {
    forall i, j :: 0 <= i <= j ==> visible(i) <= visible(j) <= |log|
  }

  /** Whatever is not yet in the log when the run starts happens at `end` or later. */
  ghost predicate Settled(log: Log, v: nat, end: int) {
    v <= |log| && forall i :: v <= i < |log| ==> log[i].ts >= end
  }

  // ----- One run ------------------------------------------------------------------------

  /** Where the extraction starts before any state is saved: at a configured second, or some seconds ago. */
  datatype Config = Config(initialStart: Option<int>, lookback: int, limit: nat)

  /** The cursor that a run ending at `end` starts from: the saved one, or the configured start. */
  function StartingCursor(cfg: Config, saved: Option<Cursor>, end: int): Cursor {
    if saved.Some? then saved.value
    else if cfg.initialStart.Some? then Cursor(cfg.initialStart.value, 0)
    else if cfg.lookback > 0 then Cursor(end - cfg.lookback, 0)
    else Cursor(end, 0)
  }

  /** A saved cursor is taken as it is; without one the run starts at its own end less the lookback, or at the
      configured second, with nothing of that second extracted. */
  lemma WhereRunsStart(cfg: Config, saved: Option<Cursor>, end: int)
    ensures forall c :: saved == Some(c) ==> StartingCursor(cfg, saved, end) == c
    ensures saved.None? ==> StartingCursor(cfg, saved, end).offset == 0
    ensures forall t :: saved.None? && cfg.initialStart == Some(t) ==> StartingCursor(cfg, saved, end).start == t
    ensures saved.None? && cfg.initialStart.None? ==>
      var start := StartingCursor(cfg, saved, end).start;
      start <= end && end - start == if cfg.lookback < 0 then 0 else cfg.lookback
  {
  }

  /** The extractor has whole seconds behind its cursor, or none of the current one. */
  predicate Usable(c: Cursor, end: int) {
    c.start < end || (c.start == end && c.offset == 0)
  }

  /** A run can start from a cursor: it is usable, or there are visible events behind it, so that the run will
      not come back empty-handed. Only a second run of the same second that finds nothing is shut out. */
  ghost predicate CanStart(log: Log, v: nat, c: Cursor, end: int)
    requires v <= |log|
  {
    Usable(c, end) || Position(log, c) < Before(log[..v], end + 1)
  }

  /** The cursor points into the events of its own second. */
  ghost predicate WithinSecond(log: Log, c: Cursor) {
    Position(log, c) <= Before(log, c.start + 1)
  }

  /** What a run does: it extracts the events from its cursor to some position `to` that covers
      everything that was visible up to `end`, and leaves a cursor for `to`. */
  ghost predicate Extracts(log: Log, v: nat, c0: Cursor, end: int, rows: Log, c1: Cursor, to: nat)
    requires v <= |log|
  {
    && Position(log, c0) <= to <= |log|
    && Before(log[..v], end + 1) <= to <= Before(log, end + 1)
    && rows == log[Position(log, c0)..to]
    && Position(log, c1) == to
    && c1.start <= end && WithinSecond(log, c1)
  }

  /** An empty run moves the cursor to the current second. It still points at the same event exactly
      when the old cursor was not already inside that second. */
  lemma EmptyRunKeepsPosition(log: Log, v: nat, c: Cursor, end: int)
    requires Ordered(log) && Settled(log, v, end) && WithinSecond(log, c) && c.start <= end
    requires Position(log, c) >= Before(log[..v], end + 1)
    ensures Position(log, Cursor(end, 0)) == Position(log, c) <==> Usable(c, end)
  {
    BeforeOfPrefix(log, v, end);
    BeforeMonotone(log[..v], end, end + 1);
    if c.start < end {
      BeforeMonotone(log, c.start + 1, end);
    }
  }

  lemma FreshCursor(log: Log, end: int)
    ensures WithinSecond(log, Cursor(end, 0))
  {
    BeforeMonotone(log, end, end + 1);
  }

  /** Two empty-handed runs in the same second make the second one forget an event it already has. */
  lemma SameSecondRepeats()
    ensures var log := [Event(7, "a")];
      var c := Cursor(7, 1);
      && Ordered(log) && Settled(log, 1, 7) && WithinSecond(log, c)
      && Position(log, c) == Before(log, 8) == 1
      && Position(log, Cursor(7, 0)) == 0
  {
    var log := [Event(7, "a")];
    assert log[..0] == [];
    assert Before(log, 7) == 0 && Before(log, 8) == 1;
  }

  /** The cursor that a run starts from lies no further than what the run is about to see. */
  lemma CursorIsVisible(log: Log, v: nat, c: Cursor, end: int)
    requires Ordered(log) && Settled(log, v, end) && WithinSecond(log, c) && CanStart(log, v, c, end)
    ensures Position(log, c) <= Before(log[..v], end + 1) && c.start <= end
  {
    BeforeOfPrefixAtMost(log, v, end + 1);
    if c.start > end {
      BeforeMonotone(log, end + 1, c.start);
    }
    BeforeOfPrefix(log, v, end);
    BeforeMonotone(log[..v], end, end + 1);
    BeforeMonotone(log, c.start, end);
    if c.start < end {
      BeforeMonotone(log, c.start + 1, end);
    }
  }

  lemma ViewsGrow(log: Log, visible: nat -> nat, page: nat)
    requires Grows(log, visible)
    ensures visible(0) <= visible(page) <= visible(page + 1) <= |log|
  {
  }

  lemma PrefixGrows(log: Log, v: nat, w: nat, t: int)
    requires v <= w <= |log|
    ensures Before(log[..v], t) <= Before(log[..w], t)
  {
    assert log[..w][..v] == log[..v];
    BeforeOfPrefixAtMost(log[..w], v, t);
  }

  lemma BehindPage(log: Log, w: nat, end: int, last: int, offset: nat, to: nat)
    requires Ordered(log) && w <= |log| && Settled(log, w, end)
    requires 0 <= last < w && log[last].ts <= end && to == last + 1
    requires Position(log[..w], Cursor(log[last].ts, offset)) == to
    ensures Position(log, Cursor(log[last].ts, offset)) == to
    ensures WithinSecond(log, Cursor(log[last].ts, offset))
  {
    BeforeOfPrefix(log, w, log[last].ts);
    BeforeSplits(log, log[last].ts + 1);
  }

  lemma LastOfPage(log: Log, w: nat, end: int, last: int)
    requires Ordered(log) && w <= |log| && 0 <= last < Before(log[..w], end + 1)
    ensures log[last].ts <= end && last < w
  {
    BeforeSplits(log[..w], end + 1);
    assert log[..w][last] == log[last];
  }

  /** The same positions, seen in the part of the log that the page is answered from. */
  lemma PageOfView(seen: Log, end: int, c: Cursor, limit: nat, r: Response)
    requires limit >= 1 && Answers(seen, Request(c, end, limit), r)
    requires Position(seen, c) <= Before(seen, end + 1)
    ensures var to := Position(seen, c);
      && to + |r.data| <= Before(seen, end + 1)
      && r.data == seen[to..to + |r.data|]
      && (r.hasMore <==> to + |r.data| < Before(seen, end + 1))
      && (to < Before(seen, end + 1) ==> r.data != [])
      && (r.data != [] ==>
        && r.lastDate == Some(seen[to + |r.data| - 1].ts)
        && Position(seen, Cursor(seen[to + |r.data| - 1].ts, r.nextOffset)) == to + |r.data|)
  {
    hide Before;
  }

  /** Under the contract, a page is the next stretch of the log, and its cursor points behind it. */
  lemma PageIsNext(log: Log, v: nat, w: nat, end: int, c: Cursor, to: nat, limit: nat, r: Response)
    requires Ordered(log) && v <= w <= |log| && Settled(log, v, end) && limit >= 1
    requires c.start <= end && Position(log, c) == to <= Before(log[..w], end + 1)
    requires Answers(log[..w], Request(c, end, limit), r)
    ensures to + |r.data| <= Before(log[..w], end + 1) <= Before(log, end + 1)
    ensures r.data == log[to..to + |r.data|]
    ensures r.hasMore <==> to + |r.data| < Before(log[..w], end + 1)
    ensures to < Before(log[..w], end + 1) ==> r.data != []
    ensures r.data != [] ==>
      && r.lastDate.Some? && r.lastDate.value == r.data[|r.data| - 1].ts <= end
      && Position(log, Cursor(r.lastDate.value, r.nextOffset)) == to + |r.data|
      && WithinSecond(log, Cursor(r.lastDate.value, r.nextOffset))
  {
    hide Answers, Before, WithinSecond, Ordered;
    var seen := log[..w];
    BeforeOfPrefix(log, w, c.start);
    BeforeOfPrefixAtMost(log, w, end + 1);
    PageOfView(seen, end, c, limit, r);
    assert to + |r.data| <= |seen| && seen[to..to + |r.data|] == log[to..to + |r.data|];
    if r.data != [] {
      var last := to + |r.data| - 1;
      LastOfPage(log, w, end, last);
      assert seen[last] == log[last];
      BehindPage(log, w, end, last, r.nextOffset, last + 1);
    }
  }

  // ----- Sequences of runs --------------------------------------------------------------

  /** A run of the extractor: when it happened, what of the log was there at its start, what it extracted, whether
      it wrote that to the landing directory, and whether the state was saved afterwards. */
  datatype Run = Run(end: int, visible: nat, rows: Log, next: Cursor, to: nat, landed: bool, saved: bool)

  /** The saved state after a run: a run that was not saved leaves it alone. */
  function SavedBy(saved: Option<Cursor>, r: Run): Option<Cursor> {
    if r.saved then Some(r.next) else saved
  }

  /** The run starts where it should, and can start there; it then behaves as `Extract` promises, and saves its state
      only after landing its rows. */
  ghost predicate Follows(log: Log, cfg: Config, saved: Option<Cursor>, r: Run) {
    var c := StartingCursor(cfg, saved, r.end);
    && Settled(log, r.visible, r.end) && (r.saved ==> r.landed)
    && CanStart(log, r.visible, c, r.end)
    && Extracts(log, r.visible, c, r.end, r.rows, r.next, r.to)
  }

  /** Any sequence of such runs, each from the state that the ones before it left. */
  ghost predicate History(log: Log, cfg: Config, saved: Option<Cursor>, runs: seq<Run>)
    decreases |runs|
  {
    && (saved.Some? ==> WithinSecond(log, saved.value))
    && (runs != [] ==>
      Follows(log, cfg, saved, runs[0]) && History(log, cfg, SavedBy(saved, runs[0]), runs[1..]))
  }

  function LastSaved(saved: Option<Cursor>, runs: seq<Run>): Option<Cursor>
    decreases |runs|
  {
    if runs == [] then saved else LastSaved(SavedBy(saved, runs[0]), runs[1..])
  }

  /** The cursor from which the first saved run started, or the saved one. */
  function Origin(cfg: Config, saved: Option<Cursor>, runs: seq<Run>): Option<Cursor>
    decreases |runs|
  {
    if saved.Some? then saved
    else if runs == [] then None
    else if runs[0].saved then Some(StartingCursor(cfg, None, runs[0].end))
    else Origin(cfg, None, runs[1..])
  }

  /** With a configured start all runs before the first save start there. */
  lemma {:induction false} ConfiguredOrigin(cfg: Config, saved: Option<Cursor>, runs: seq<Run>)
    requires saved.None? && cfg.initialStart.Some?
    ensures LastSaved(saved, runs).Some? ==> Origin(cfg, saved, runs) == Some(Cursor(cfg.initialStart.value, 0))
    decreases |runs|
  {
    if runs != [] && !runs[0].saved {
      ConfiguredOrigin(cfg, saved, runs[1..]);
    }
  }

  lemma {:induction false} OriginIsSaved(cfg: Config, saved: Option<Cursor>, runs: seq<Run>)
    ensures Origin(cfg, saved, runs).Some? <==> LastSaved(saved, runs).Some?
    decreases |runs|
  {
    if runs != [] {
      OriginIsSaved(cfg, SavedBy(saved, runs[0]), runs[1..]);
    }
  }

  /** Everything extracted by saved runs, in order. */
  function SavedRows(runs: seq<Run>): Log
    decreases |runs|
  {
    if runs == [] then [] else (if runs[0].saved then runs[0].rows else []) + SavedRows(runs[1..])
  }

  /** Everything that runs have written to the landing directory, in order. */
  function LandedRows(runs: seq<Run>): Log
    decreases |runs|
  {
    if runs == [] then [] else (if runs[0].landed then runs[0].rows else []) + LandedRows(runs[1..])
  }

  /** A clock that moves on by a second between runs is enough for every next run to be able to start. */
  lemma AdvancingRunCanStart(log: Log, cfg: Config, saved: Option<Cursor>, r: Run, v: nat, end: int)
    requires Ordered(log) && v <= |log| && Follows(log, cfg, saved, r) && end > r.end
    requires saved.Some? ==> WithinSecond(log, saved.value)
    ensures CanStart(log, v, StartingCursor(cfg, SavedBy(saved, r), end), end)
  {
    hide WithinSecond, Position, Before, Ordered, Settled;
    StartIsWithin(log, cfg, saved, r.end);
    CursorIsVisible(log, r.visible, StartingCursor(cfg, saved, r.end), r.end);
  }

  /** Each run behaves as `Follows` says if it can start. */
  ghost predicate Behaves(log: Log, cfg: Config, saved: Option<Cursor>, runs: seq<Run>)
    decreases |runs|
  {
    runs != [] ==>
      var r := runs[0];
      && Settled(log, r.visible, r.end)
      && (CanStart(log, r.visible, StartingCursor(cfg, saved, r.end), r.end) ==> Follows(log, cfg, saved, r))
      && Behaves(log, cfg, SavedBy(saved, r), runs[1..])
  }

  ghost predicate Advancing(runs: seq<Run>) {
    forall i, j :: 0 <= i < j < |runs| ==> runs[i].end < runs[j].end
  }

  /** A clock that moves on by a second between runs is enough for every run to start, if the first one can. */
  lemma {:induction false} AdvancingRunsCanStart(log: Log, cfg: Config, saved: Option<Cursor>, runs: seq<Run>)
    requires Ordered(log) && Behaves(log, cfg, saved, runs) && Advancing(runs)
    requires saved.Some? ==> WithinSecond(log, saved.value)
    requires runs != [] ==> CanStart(log, runs[0].visible, StartingCursor(cfg, saved, runs[0].end), runs[0].end)
    ensures History(log, cfg, saved, runs)
    decreases |runs|
  {
    hide WithinSecond, Ordered, Settled, CanStart, StartingCursor, Follows;
    if runs != [] {
      var r := runs[0];
      NextIsWithin(log, cfg, saved, r);
      if |runs| > 1 {
        assert r.end < runs[1].end;
        SettledIsInLog(log, runs[1].visible, runs[1].end);
        AdvancingRunCanStart(log, cfg, saved, r, runs[1].visible, runs[1].end);
      }
      assert Advancing(runs[1..]);
      AdvancingRunsCanStart(log, cfg, SavedBy(saved, r), runs[1..]);
    }
  }

  lemma SettledIsInLog(log: Log, v: nat, end: int)
    requires Settled(log, v, end)
    ensures v <= |log|
  {
  }

  lemma StartIsWithin(log: Log, cfg: Config, saved: Option<Cursor>, end: int)
    requires saved.Some? ==> WithinSecond(log, saved.value)
    ensures WithinSecond(log, StartingCursor(cfg, saved, end))
  {
    hide Before;
    var c := StartingCursor(cfg, saved, end);
    if saved.None? {
      BeforeMonotone(log, c.start, c.start + 1);
    }
  }

  lemma WithinIsInLog(log: Log, c: Cursor)
    requires WithinSecond(log, c)
    ensures Position(log, c) <= |log|
  {
  }

  /** Over any sequence of runs, the saved pages together are one stretch of the log: every event from the cursor of
      the first saved run to the last saved cursor, each exactly once, in order, with no gap at any run. */
  lemma {:induction false} ExactlyOnce(log: Log, cfg: Config, saved: Option<Cursor>, runs: seq<Run>)
    requires History(log, cfg, saved, runs)
    ensures Origin(cfg, saved, runs).None? ==> SavedRows(runs) == []
    ensures Origin(cfg, saved, runs).Some? ==>
      && LastSaved(saved, runs).Some?
      && Position(log, Origin(cfg, saved, runs).value) <= Position(log, LastSaved(saved, runs).value) <= |log|
      && SavedRows(runs) == log[Position(log, Origin(cfg, saved, runs).value)..Position(log, LastSaved(saved, runs).value)]
    decreases |runs|
  {
    hide Position, WithinSecond, Usable, Settled, CanStart, StartingCursor;
    if runs == [] {
      if saved.Some? {
        WithinIsInLog(log, saved.value);
      }
    } else {
      var r, next := runs[0], SavedBy(saved, runs[0]);
      ExactlyOnce(log, cfg, next, runs[1..]);
      OriginIsSaved(cfg, next, runs[1..]);
      if r.saved {
        WhereRunsStart(cfg, saved, r.end);
        var last := LastSaved(next, runs[1..]).value;
        Stretches(log, Position(log, StartingCursor(cfg, saved, r.end)), Position(log, r.next), Position(log, last));
      }
    }
  }

  lemma Stretches(log: Log, a: nat, b: nat, c: nat)
    ensures a <= b <= c <= |log| ==> log[a..b] + log[b..c] == log[a..c]
  {
  }

  /** How many rows were landed by runs whose state was not saved; a later run lands them again. */
  function Surplus(runs: seq<Run>): nat
    decreases |runs|
  {
    if runs == [] then 0 else (if runs[0].landed && !runs[0].saved then |runs[0].rows| else 0) + Surplus(runs[1..])
  }

  ghost predicate NothingUnsaved(runs: seq<Run>) {
    forall i :: 0 <= i < |runs| && runs[i].landed && !runs[i].saved ==> runs[i].rows == []
  }

  lemma {:induction false} SurplusIsExtra(log: Log, cfg: Config, saved: Option<Cursor>, runs: seq<Run>)
    requires History(log, cfg, saved, runs)
    ensures |LandedRows(runs)| == |SavedRows(runs)| + Surplus(runs)
    ensures Surplus(runs) == 0 ==> LandedRows(runs) == SavedRows(runs)
    ensures Surplus(runs) == 0 <==> NothingUnsaved(runs)
    decreases |runs|
  {
    hide Extracts, Settled, WithinSecond, CanStart, StartingCursor;
    if runs != [] {
      SurplusIsExtra(log, cfg, SavedBy(saved, runs[0]), runs[1..]);
      assert forall i :: 1 <= i < |runs| ==> runs[i] == runs[1..][i - 1];
      assert forall i :: 0 <= i < |runs[1..]| ==> runs[1..][i] == runs[i + 1];
    }
  }

  /** The rows are landed before the state is saved. So all that lands over any such runs is what the saved runs
      extracted, each event once, exactly when no run landed rows without saving its state. */
  lemma LandedOnceIff(log: Log, cfg: Config, saved: Option<Cursor>, runs: seq<Run>)
    requires History(log, cfg, saved, runs)
    ensures |LandedRows(runs)| == |SavedRows(runs)| + Surplus(runs)
    ensures LandedRows(runs) == SavedRows(runs) <==> NothingUnsaved(runs)
  {
    SurplusIsExtra(log, cfg, saved, runs);
  }

  /** After a saved run, everything that was in the log when it started and happened by its `end` has
      been extracted. */
  lemma {:induction false} NothingLeftBehind(log: Log, cfg: Config, saved: Option<Cursor>, runs: seq<Run>, i: nat, k: nat)
    requires Ordered(log) && History(log, cfg, saved, runs)
    requires i < |runs| && runs[i].saved && k < runs[i].visible <= |log| && log[k].ts <= runs[i].end
    ensures LastSaved(saved, runs).Some? && k < Position(log, LastSaved(saved, runs).value)
    decreases |runs|
  {
    hide Position, WithinSecond, Usable, CanStart, StartingCursor, Settled, SavedRows;
    var r := runs[0];
    var next := SavedBy(saved, r);
    if i == 0 {
      ExactlyOnce(log, cfg, next, runs[1..]);
      hide History, Origin, LastSaved;
      assert log[..r.visible][k] == log[k];
      BeforeSplits(log[..r.visible], r.end + 1);
    } else {
      NothingLeftBehind(log, cfg, next, runs[1..], i - 1, k);
    }
  }

  /** So it is among the extracted rows, unless it lies before the cursor that the first saved run started from. */
  lemma NothingMissing(log: Log, cfg: Config, saved: Option<Cursor>, runs: seq<Run>, i: nat, k: nat)
    requires Ordered(log) && History(log, cfg, saved, runs)
    requires i < |runs| && runs[i].saved && k < runs[i].visible <= |log| && log[k].ts <= runs[i].end
    ensures Origin(cfg, saved, runs).Some?
    ensures Position(log, Origin(cfg, saved, runs).value) <= k ==> log[k] in SavedRows(runs)
  {
    hide Position, History, Ordered, Origin, LastSaved, SavedRows;
    NothingLeftBehind(log, cfg, saved, runs, i, k);
    OriginIsSaved(cfg, saved, runs);
    ExactlyOnce(log, cfg, saved, runs);
    var from, to := Position(log, Origin(cfg, saved, runs).value), Position(log, LastSaved(saved, runs).value);
    if from <= k {
      assert log[from..to][k - from] == log[k];
    }
  }

  // ----- One more run -------------------------------------------------------------------

  lemma {:induction false} OneMoreRun(log: Log, cfg: Config, saved: Option<Cursor>, runs: seq<Run>, r: Run)
    requires History(log, cfg, saved, runs) && Follows(log, cfg, LastSaved(saved, runs), r)
    ensures History(log, cfg, saved, runs + [r])
    ensures LastSaved(saved, runs + [r]) == SavedBy(LastSaved(saved, runs), r)
    ensures LandedRows(runs + [r]) == LandedRows(runs) + if r.landed then r.rows else []
    decreases |runs|
  {
    hide WithinSecond, Follows, StartingCursor;
    var all := runs + [r];
    if runs == [] {
      NextIsWithin(log, cfg, saved, r);
      assert all == [r] && all[0] == r && all[1..] == [];
      assert History(log, cfg, SavedBy(saved, r), []);
    } else {
      assert all[0] == runs[0] && all[1..] == runs[1..] + [r];
      OneMoreRun(log, cfg, SavedBy(saved, runs[0]), runs[1..], r);
    }
  }

  lemma NextIsWithin(log: Log, cfg: Config, saved: Option<Cursor>, r: Run)
    requires Follows(log, cfg, saved, r) && (saved.Some? ==> WithinSecond(log, saved.value))
    ensures SavedBy(saved, r).Some? ==> WithinSecond(log, SavedBy(saved, r).value)
  {
  }

  lemma {:induction false} LastSavedIsWithin(log: Log, cfg: Config, saved: Option<Cursor>, runs: seq<Run>)
    requires History(log, cfg, saved, runs)
    ensures LastSaved(saved, runs).Some? ==> WithinSecond(log, LastSaved(saved, runs).value)
    decreases |runs|
  {
    hide WithinSecond, Follows, StartingCursor;
    if runs != [] {
      LastSavedIsWithin(log, cfg, SavedBy(saved, runs[0]), runs[1..]);
    }
  }

  // ----- The program --------------------------------------------------------------------

  /** Before page `page` is asked for from cursor `c`: `rows` is what was read, up to `to`, and there is more to read
      unless nothing was asked for yet. */
  ghost predicate Reading(log: Log, visible: nat -> nat, start: Cursor, end: int, page: nat, c: Cursor, rows: Log,
                          to: nat)
  {
    && visible(0) <= visible(page) <= |log|
    && Position(log, start) <= to <= |log| && rows == log[Position(log, start)..to]
    && c.start <= end && Position(log, c) == to && WithinSecond(log, c)
    && to <= Before(log[..visible(page)], end + 1) <= Before(log, end + 1)
    && if page == 0 then rows == [] else to < Before(log[..visible(page)], end + 1)
  }

  /** All pages were read; the cursor of the last one, if there was anything, points behind what was read. */
  ghost predicate HasRead(log: Log, v: nat, start: Cursor, end: int, rows: Log, lastDate: int, nextOffset: nat, to: nat) {
    && v <= |log| && Position(log, start) <= to <= |log| && rows == log[Position(log, start)..to]
    && Before(log[..v], end + 1) <= to <= Before(log, end + 1)
    && (rows != [] ==>
      && lastDate == rows[|rows| - 1].ts <= end && Position(log, Cursor(lastDate, nextOffset)) == to
      && WithinSecond(log, Cursor(lastDate, nextOffset)))
  }

  lemma StartReading(log: Log, visible: nat -> nat, start: Cursor, end: int)
    requires Ordered(log) && Grows(log, visible) && Settled(log, visible(0), end)
    requires WithinSecond(log, start) && CanStart(log, visible(0), start, end)
    ensures Reading(log, visible, start, end, 0, start, [], Position(log, start))
  {
    hide Before, Position, WithinSecond, Settled, Ordered, Grows, CanStart;
    ViewsGrow(log, visible, 0);
    CursorIsVisible(log, visible(0), start, end);
    BeforeOfPrefixAtMost(log, visible(0), end + 1);
  }

  lemma ReadPage(log: Log, visible: nat -> nat, start: Cursor, end: int, page: nat, c: Cursor, rows: Log, to: nat,
                 limit: nat, r: Response, lastDate: int)
    requires Ordered(log) && Grows(log, visible) && Settled(log, visible(0), end) && limit >= 1
    requires Reading(log, visible, start, end, page, c, rows, to)
    requires Answers(log[..visible(page)], Request(c, end, limit), r)
    ensures to + |r.data| <= |log|
    ensures r.hasMore ==>
      && r.lastDate.Some? && r.data != []
      && Reading(log, visible, start, end, page + 1, Cursor(r.lastDate.value, r.nextOffset), rows + r.data, to + |r.data|)
    ensures !r.hasMore ==>
      HasRead(log, visible(0), start, end, rows + r.data, if r.lastDate.Some? then r.lastDate.value else lastDate,
              r.nextOffset, to + |r.data|)
  {
    hide Before, Position, WithinSecond, Settled, Ordered, Grows, Answers;
    PageIsNext(log, visible(0), visible(page), end, c, to, limit, r);
    PageExtends(log, Position(log, start), to, rows, r.data);
    ViewsGrow(log, visible, page);
    ViewsGrow(log, visible, page + 1);
    PrefixGrows(log, visible(0), visible(page), end + 1);
    PrefixGrows(log, visible(page), visible(page + 1), end + 1);
    BeforeOfPrefixAtMost(log, visible(page + 1), end + 1);
  }

  lemma PageExtends(log: Log, from: nat, to: nat, rows: Log, data: Log)
    requires from <= to <= to + |data| <= |log| && rows == log[from..to] && data == log[to..to + |data|]
    ensures rows + data == log[from..to + |data|]
    ensures data != [] ==> (rows + data)[|rows + data| - 1] == data[|data| - 1]
  {
  }

  lemma StartedAndExtracted(log: Log, cfg: Config, saved: Option<Cursor>, r: Run)
    requires Settled(log, r.visible, r.end) && (r.saved ==> r.landed)
    requires CanStart(log, r.visible, StartingCursor(cfg, saved, r.end), r.end)
    requires Extracts(log, r.visible, StartingCursor(cfg, saved, r.end), r.end, r.rows, r.next, r.to)
    ensures Follows(log, cfg, saved, r)
    ensures saved.Some? ==> StartingCursor(cfg, saved, r.end) == saved.value
  {
  }

  /** How far a run gets after its last page: it may be killed before its rows are written, or before its state is. */
  datatype Fate = KilledBeforeLanding | KilledBeforeSaving | Finishes

  class Extractor {
    const cfg: Config
    var cursor: Option<Cursor>  // the persisted state
    var landed: Log             // what was written to the landing directory, run by run
    ghost var runs: seq<Run>    // what happened so far

    /** The persisted state and the landing directory are what the runs so far have left. */
    ghost predicate Valid(log: Log)
      reads this
    {
      && cfg.limit >= 1
      && History(log, cfg, None, runs)
      && cursor == LastSaved(None, runs)
      && landed == LandedRows(runs)
    }

    constructor (cfg: Config)
      requires cfg.limit >= 1
      ensures this.cfg == cfg && cursor == None && landed == [] && runs == []
      ensures forall log :: Valid(log)
    {
      this.cfg, cursor, landed, runs := cfg, None, [], [];
    }

    /** Asks for pages from a cursor until there are no more; the log may grow meanwhile. */
    method ReadPages(ghost log: Log, ghost visible: nat -> nat, server: (nat, Request) -> Response, start: Cursor,
                     end: int) returns (rows: Log, lastDate: int, nextOffset: nat, ghost to: nat)
      requires cfg.limit >= 1
      requires Ordered(log) && Grows(log, visible) && Settled(log, visible(0), end)
      requires forall page: nat, q :: Answers(log[..visible(page)], q, server(page, q))
      requires WithinSecond(log, start) && CanStart(log, visible(0), start, end)
      ensures HasRead(log, visible(0), start, end, rows, lastDate, nextOffset, to)
    {
      hide Answers, WithinSecond, Settled, Grows, CanStart, Ordered, Reading, HasRead;
      var c := start;
      rows := [];
      lastDate, nextOffset := c.start, c.offset;
      var page := 0;
      StartReading(log, visible, start, end);
      to := Position(log, start);
      while true
        invariant Reading(log, visible, start, end, page, c, rows, to)
        decreases |log| - to
      {
        var r := server(page, Request(c, end, cfg.limit));
        ViewsGrow(log, visible, page);
        assert Answers(log[..visible(page)], Request(c, end, cfg.limit), r);
        ReadPage(log, visible, start, end, page, c, rows, to, cfg.limit, r, lastDate);
        rows := rows + r.data;
        to := to + |r.data|;
        lastDate := if r.lastDate.Some? then r.lastDate.value else lastDate;
        nextOffset := r.nextOffset;
        if !r.hasMore {
          break;
        }
        c := Cursor(lastDate, nextOffset);
        page := page + 1;
      }
    }

    /** One run of the extractor: read, write what was read, save where to go on. */
    method Extract(ghost log: Log, ghost visible: nat -> nat, server: (nat, Request) -> Response, end: int, fate: Fate)
      returns (rows: Log, ghost to: nat, ghost next: Cursor)
      requires Valid(log)
      requires Ordered(log) && Grows(log, visible) && Settled(log, visible(0), end)
      requires forall page: nat, q :: Answers(log[..visible(page)], q, server(page, q))
      requires CanStart(log, visible(0), StartingCursor(cfg, cursor, end), end)
      modifies this
      ensures Valid(log)
      ensures runs == old(runs) + [Run(end, visible(0), rows, next, to, !fate.KilledBeforeLanding?, fate.Finishes?)]
      ensures old(cursor).Some? ==> Extracts(log, visible(0), old(cursor).value, end, rows, next, to)
      ensures old(cursor).None? ==> Extracts(log, visible(0), StartingCursor(cfg, None, end), end, rows, next, to)
      ensures if rows == [] then next == Cursor(end, 0) else next.start == rows[|rows| - 1].ts
      ensures cursor == if fate.Finishes? then Some(next) else old(cursor)
      ensures landed == old(landed) + if fate.KilledBeforeLanding? then [] else rows
    {
      hide Answers, WithinSecond, Grows, History, LastSaved, LandedRows, StartingCursor, Follows, Extracts, HasRead;
      LastSavedIsWithin(log, cfg, None, runs);
      StartIsWithin(log, cfg, cursor, end);
      var start := StartingCursor(cfg, cursor, end);
      var lastDate, nextOffset;
      rows, lastDate, nextOffset, to := ReadPages(log, visible, server, start, end);
      NextCursor(log, visible(0), start, end, rows, lastDate, nextOffset, to);
      next := if rows == [] then Cursor(end, 0) else Cursor(lastDate, nextOffset);
      ghost var run := Run(end, visible(0), rows, next, to, !fate.KilledBeforeLanding?, fate.Finishes?);
      StartedAndExtracted(log, cfg, cursor, run);
      OneMoreRun(log, cfg, None, runs, run);
      runs := runs + [run];
      if fate.KilledBeforeLanding? {
        return;
      }
      landed := landed + rows;
      if fate.KilledBeforeSaving? {
        return;
      }
      cursor := Some(if rows == [] then Cursor(end, 0) else Cursor(lastDate, nextOffset));
    }
  }

  lemma NextCursor(log: Log, v: nat, c: Cursor, end: int, rows: Log, lastDate: int, nextOffset: nat, to: nat)
    requires Ordered(log) && Settled(log, v, end) && WithinSecond(log, c) && CanStart(log, v, c, end)
    requires HasRead(log, v, c, end, rows, lastDate, nextOffset, to)
    ensures rows != [] ==> lastDate == rows[|rows| - 1].ts
    ensures Extracts(log, v, c, end, rows, if rows == [] then Cursor(end, 0) else Cursor(lastDate, nextOffset), to)
  {
    hide WithinSecond, Settled, Before, Position;
    if rows == [] {
      CursorIsVisible(log, v, c, end);
      EmptyRunKeepsPosition(log, v, c, end);
      FreshCursor(log, end);
    }
  }
}
