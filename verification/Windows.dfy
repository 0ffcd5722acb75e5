/** Incremental time windows of the query datasets. A run asks each dataset for the window since its
    saved cursor (with some lookback) and saves all cursors only when every dataset answered. Times are
    UTC; the clock is in microseconds, windows and cursors in whole seconds. */
module Windows {
  import opened Options

  datatype Incremental = Incremental(initialSince: Option<int>, lookback: int)
  {
    /** How far a window reaches back behind the saved cursor. */
    function Overlap(): (n: nat) {
      if lookback > 0 then lookback else 0
    }
  }

  function Seconds(micros: nat): nat {
    micros / 1_000_000
  }

  /** The second that an instant lies in. */
  lemma SecondsAreWhole(micros: nat)
    ensures Seconds(micros) * 1_000_000 <= micros < (Seconds(micros) + 1) * 1_000_000
  {
  }

  datatype Window = Window(since: int, until: int)

  /** The window requested at `now`, and its end, which is the next cursor. */
  function Bounds(inc: Incremental, cursor: Option<int>, now: nat): Window {
    var since :=
      if cursor.Some? then (if inc.lookback > 0 then cursor.value - inc.lookback else cursor.value)
      else if inc.initialSince.Some? then inc.initialSince.value
      else if inc.lookback > 0 then Seconds(now) - inc.lookback
      else Seconds(now);
    Window(since, Seconds(now))
  }

  // ----- The program --------------------------------------------------------------------

  type Name = string

  /** A window that a dataset answered, whether or not the run saved its state afterwards. */
  datatype Answered = Answered(dataset: Name, window: Window)

  class Extractor {
    const datasets: seq<Name>
    const specs: map<Name, Incremental>
    var state: map<Name, int>        // the persisted cursors
    var answered: seq<Answered>      // every answered request, in order
    ghost var rounds: seq<Round>     // the runs so far

    /** The persisted cursors and the answered requests are those of the runs so far. */
    ghost predicate Valid()
      reads this
    {
      && (forall d :: d in datasets ==> d in specs)
      && state == StateAfter(datasets, rounds)
      && answered == AnsweredAfter(datasets, specs, rounds)
      && (forall i, j :: 0 <= i < j < |datasets| ==> datasets[i] != datasets[j])
    }

    constructor (datasets: seq<Name>, specs: map<Name, Incremental>)
      requires forall d :: d in datasets ==> d in specs
      requires forall i, j :: 0 <= i < j < |datasets| ==> datasets[i] != datasets[j]
      ensures Valid() && state == map[] && answered == [] && rounds == []
      ensures this.datasets == datasets && this.specs == specs
    {
      this.datasets, this.specs, state, answered, rounds := datasets, specs, map[], [], [];
    }

    /** One run at `now` in which the first `answers` datasets answer; the next one raises an error. */
    method Run(now: nat, answers: nat) returns (saved: bool)
      requires Valid()
      modifies this
      ensures Valid() && rounds == old(rounds) + [Round(now, answers)]
      ensures saved == (answers >= |datasets|)
      ensures state == NextState(datasets, old(state), now, saved)
      ensures answered == old(answered) + Requests(datasets, specs, old(state), now, answers)
    {
      hide Bounds, Requests, Advance, CursorOf, Seconds, StateAfter, AnsweredAfter;
      NothingAdvanced(datasets, specs, state, now);
      var loaded := state;  // the state read at the start of the run, updated in memory
      var i := 0;
      while i < |datasets| && i < answers
        invariant 0 <= i <= |datasets| && i <= answers
        invariant state == old(state) && rounds == old(rounds)
        invariant loaded == Advance(datasets[..i], old(state), now)
        invariant answered == old(answered) + Requests(datasets, specs, old(state), now, i)
      {
        var d := datasets[i];
        AdvanceOthers(datasets[..i], old(state), now, d);
        AdvanceNext(datasets, specs, old(state), now, i);
        var w := Bounds(specs[d], CursorOf(loaded, d), now);
        answered := answered + [Answered(d, w)];
        loaded := loaded[d := w.until];
        i := i + 1;
      }
      saved := i == |datasets|;
      if saved {
        assert datasets[..|datasets|] == datasets;
        state := loaded;
      }
      RequestsCapped(datasets, specs, old(state), now, answers);
      OneMoreRound(datasets, specs, rounds, Round(now, answers));
      rounds := rounds + [Round(now, answers)];
    }
  }

  function CursorOf(state: map<Name, int>, d: Name): Option<int> {
    if d in state then Some(state[d]) else None
  }

  /** The cursors after the given datasets answered at `now`. */
  function Advance(datasets: seq<Name>, state: map<Name, int>, now: nat): map<Name, int> {
    if datasets == [] then state
    else Advance(datasets[..|datasets| - 1], state, now)[datasets[|datasets| - 1] := Seconds(now)]
  }

  lemma AdvanceOthers(datasets: seq<Name>, state: map<Name, int>, now: nat, d: Name)
    ensures CursorOf(Advance(datasets, state, now), d) == if d in datasets then Some(Seconds(now)) else CursorOf(state, d)
  {
    if datasets != [] {
      var n := |datasets| - 1;
      AdvanceOthers(datasets[..n], state, now, d);
      assert datasets == datasets[..n] + [datasets[n]];
    }
  }

  lemma NothingAdvanced(datasets: seq<Name>, specs: map<Name, Incremental>, state: map<Name, int>, now: nat)
    requires forall d :: d in datasets ==> d in specs
    ensures Advance(datasets[..0], state, now) == state && Requests(datasets, specs, state, now, 0) == []
  {
  }

  /** One more dataset answers. */
  lemma AdvanceNext(datasets: seq<Name>, specs: map<Name, Incremental>, state: map<Name, int>, now: nat, i: nat)
    requires i < |datasets| && forall d :: d in datasets ==> d in specs
    ensures Advance(datasets[..i + 1], state, now) == Advance(datasets[..i], state, now)[datasets[i] := Seconds(now)]
    ensures var w := Bounds(specs[datasets[i]], CursorOf(state, datasets[i]), now);
      w.until == Seconds(now)
      && Requests(datasets, specs, state, now, i + 1) == Requests(datasets, specs, state, now, i) + [Answered(datasets[i], w)]
  {
    assert datasets[..i + 1][..i] == datasets[..i];
    hide Advance;
    assert Requests(datasets, specs, state, now, i + 1)[..i] == Requests(datasets, specs, state, now, i);
  }

  function NextState(datasets: seq<Name>, state: map<Name, int>, now: nat, saved: bool): map<Name, int> {
    if saved then Advance(datasets, state, now) else state
  }

  /** The first `n` requests of a run. */
  function Requests(datasets: seq<Name>, specs: map<Name, Incremental>, state: map<Name, int>, now: nat,
                    n: nat): seq<Answered>
    requires forall d :: d in datasets ==> d in specs
  {
    seq(if n < |datasets| then n else |datasets|, i requires 0 <= i < |datasets| =>
      Answered(datasets[i], Bounds(specs[datasets[i]], CursorOf(state, datasets[i]), now)))
  }

  lemma RequestsCapped(datasets: seq<Name>, specs: map<Name, Incremental>, state: map<Name, int>, now: nat, n: nat)
    requires forall d :: d in datasets ==> d in specs
    ensures n >= |datasets| ==>
      Requests(datasets, specs, state, now, n) == Requests(datasets, specs, state, now, |datasets|)
  {
  }

  // ----- Histories of runs --------------------------------------------------------------

  /** One run as its dataset sees it: when it was, whether the dataset answered, whether all did. */
  datatype Visit = Visit(now: nat, answered: bool, saved: bool)

  ghost predicate Clocked(visits: seq<Visit>) {
    && (forall i, j :: 0 <= i < j < |visits| ==> visits[i].now <= visits[j].now)
    && (forall i :: 0 <= i < |visits| ==> visits[i].saved ==> visits[i].answered)
  }

  /** The cursor of the dataset after some runs. */
  function CursorAfter(cursor: Option<int>, visits: seq<Visit>): Option<int> {
    if visits == [] then cursor
    else
      var n := |visits| - 1;
      if visits[n].saved then Some(Seconds(visits[n].now)) else CursorAfter(cursor, visits[..n])
  }

  /** The window asked for in run `i`. */
  function WindowOf(inc: Incremental, visits: seq<Visit>, i: nat): Window
    requires i < |visits|
  {
    Bounds(inc, CursorAfter(None, visits[..i]), visits[i].now)
  }

  /** Some answered window contains the instant `t`. */
  ghost predicate Covered(inc: Incremental, visits: seq<Visit>, t: real) {
    exists i :: 0 <= i < |visits| && visits[i].answered && InWindow(WindowOf(inc, visits, i), t)
  }

  predicate InWindow(w: Window, t: real) {
    w.since as real <= t <= w.until as real
  }

  lemma CoveredLater(inc: Incremental, visits: seq<Visit>, n: nat, t: real)
    requires n <= |visits| && Covered(inc, visits[..n], t)
    ensures Covered(inc, visits, t)
  {
    var i :| 0 <= i < n && visits[..n][i].answered && InWindow(WindowOf(inc, visits[..n], i), t);
    assert visits[..n][..i] == visits[..i];
    assert InWindow(WindowOf(inc, visits, i), t);
  }

  predicate IsFirstSave(visits: seq<Visit>, f: nat) {
    f < |visits| && visits[f].saved && forall i :: 0 <= i < f ==> !visits[i].saved
  }

  lemma {:induction false} NoSaveNoCursor(visits: seq<Visit>, n: nat)
    requires n <= |visits| && forall i :: 0 <= i < n ==> !visits[i].saved
    ensures CursorAfter(None, visits[..n]) == None
  {
    if n > 0 {
      assert visits[..n][..n - 1] == visits[..n - 1];
      NoSaveNoCursor(visits, n - 1);
    }
  }

  lemma {:induction false} CursorIsPast(visits: seq<Visit>, n: nat)
    requires n < |visits| && Clocked(visits) && CursorAfter(None, visits[..n]).Some?
    ensures CursorAfter(None, visits[..n]).value <= Seconds(visits[n].now)
  {
    var m := n - 1;
    assert visits[..n][..m] == visits[..m];
    if visits[m].saved {
      assert visits[m].now <= visits[n].now;
    } else {
      CursorIsPast(visits, m);
      assert visits[m].now <= visits[n].now;
    }
  }

  /** Through any runs with a clock that does not run backwards, aborted ones included, every instant
      from the start of the first saved window up to the saved cursor lies in an answered window. */
  lemma {:induction false} NoGap(inc: Incremental, visits: seq<Visit>, f: nat, t: real)
    requires Clocked(visits) && IsFirstSave(visits, f)
    requires WindowOf(inc, visits, f).since as real <= t
    requires CursorAfter(None, visits).Some? && t <= CursorAfter(None, visits).value as real
    ensures Covered(inc, visits, t)
    decreases |visits|
  {
    var n := |visits| - 1;
    var before := visits[..n];
    if !visits[n].saved {
      assert IsFirstSave(before, f) && before[..f] == visits[..f];
      NoGap(inc, before, f, t);
      CoveredLater(inc, visits, n, t);
    } else if n == f {
      assert InWindow(WindowOf(inc, visits, n), t);
    } else {
      assert IsFirstSave(before, f) && before[..f] == visits[..f];
      SavedHasCursor(before, f);
      var c := CursorAfter(None, before).value;
      if t <= c as real {
        NoGap(inc, before, f, t);
        CoveredLater(inc, visits, n, t);
      } else {
        assert InWindow(WindowOf(inc, visits, n), t);
      }
    }
  }

  lemma {:induction false} SavedHasCursor(visits: seq<Visit>, f: nat)
    requires f < |visits| && visits[f].saved
    ensures CursorAfter(None, visits).Some?
  {
    var n := |visits| - 1;
    if f < n && !visits[n].saved {
      SavedHasCursor(visits[..n], f);
    }
  }

  // ----- How a dataset sees the runs of the program ---------------------------------------

  /** One run of `Extractor.Run`: when, and how many datasets answered before an error. */
  datatype Round = Round(now: nat, answers: nat)

  function StateAfter(datasets: seq<Name>, rounds: seq<Round>): map<Name, int> {
    if rounds == [] then map[]
    else
      var r := rounds[|rounds| - 1];
      NextState(datasets, StateAfter(datasets, rounds[..|rounds| - 1]), r.now, r.answers >= |datasets|)
  }

  /** Every request answered in some runs, in order. */
  function AnsweredAfter(datasets: seq<Name>, specs: map<Name, Incremental>, rounds: seq<Round>): seq<Answered>
    requires forall d :: d in datasets ==> d in specs
  {
    if rounds == [] then []
    else
      var before, r := rounds[..|rounds| - 1], rounds[|rounds| - 1];
      AnsweredAfter(datasets, specs, before) + Requests(datasets, specs, StateAfter(datasets, before), r.now, r.answers)
  }

  lemma OneMoreRound(datasets: seq<Name>, specs: map<Name, Incremental>, rounds: seq<Round>, r: Round)
    requires forall d :: d in datasets ==> d in specs
    ensures StateAfter(datasets, rounds + [r]) == NextState(datasets, StateAfter(datasets, rounds), r.now, r.answers >= |datasets|)
    ensures AnsweredAfter(datasets, specs, rounds + [r]) == AnsweredAfter(datasets, specs, rounds)
      + Requests(datasets, specs, StateAfter(datasets, rounds), r.now, r.answers)
  {
    hide NextState, Requests;
    assert (rounds + [r])[..|rounds|] == rounds;
  }

  function VisitOf(r: Round, j: nat, total: nat): Visit {
    Visit(r.now, r.answers > j, r.answers >= total)
  }

  /** The runs as dataset number `j` sees them. */
  function Visits(rounds: seq<Round>, j: nat, total: nat): seq<Visit> {
    seq(|rounds|, i requires 0 <= i < |rounds| => VisitOf(rounds[i], j, total))
  }

  /** The persisted cursor of every dataset is the one its own visits determine. */
  lemma {:induction false} StateIsPerDataset(datasets: seq<Name>, rounds: seq<Round>, j: nat)
    requires j < |datasets|
    ensures CursorOf(StateAfter(datasets, rounds), datasets[j]) == CursorAfter(None, Visits(rounds, j, |datasets|))
  {
    if rounds != [] {
      var n := |rounds| - 1;
      StateIsPerDataset(datasets, rounds[..n], j);
      assert Visits(rounds, j, |datasets|)[..n] == Visits(rounds[..n], j, |datasets|);
      AdvanceOthers(datasets, StateAfter(datasets, rounds[..n]), rounds[n].now, datasets[j]);
    }
  }

  /** Run `i` asks dataset `j`, when it gets that far, for exactly the window of that visit. */
  lemma RequestIsVisitWindow(datasets: seq<Name>, specs: map<Name, Incremental>, rounds: seq<Round>, i: nat, j: nat)
    requires (forall d :: d in datasets ==> d in specs) && j < |datasets| && i < |rounds|
    ensures var visits := Visits(rounds, j, |datasets|);
      var requests := Requests(datasets, specs, StateAfter(datasets, rounds[..i]), rounds[i].now, rounds[i].answers);
      && (visits[i].answered <==> j < |requests|)
      && (j < |requests| ==> requests[j] == Answered(datasets[j], WindowOf(specs[datasets[j]], visits, i)))
  {
    StateIsPerDataset(datasets, rounds[..i], j);
    assert Visits(rounds, j, |datasets|)[..i] == Visits(rounds[..i], j, |datasets|);
  }

  /** Every window after a save starts exactly the lookback before the saved cursor and reaches it. */
  lemma OverlapIsLookback(inc: Incremental, visits: seq<Visit>, n: nat)
    requires n < |visits| && Clocked(visits) && CursorAfter(None, visits[..n]).Some?
    ensures var w, c := WindowOf(inc, visits, n), CursorAfter(None, visits[..n]).value;
      w.since == c - inc.Overlap() && w.since <= c <= w.until
  {
    CursorIsPast(visits, n);
  }

  /** With a configured start, the first run of all and the first saved one ask from the same instant, so
      the coverage starts at the very first window. */
  lemma ConfiguredStart(inc: Incremental, visits: seq<Visit>, f: nat)
    requires IsFirstSave(visits, f) && inc.initialSince.Some?
    ensures WindowOf(inc, visits, 0).since == WindowOf(inc, visits, f).since
  {
    NoSaveNoCursor(visits, f);
    assert visits[..0] == [];
  }

  predicate IsFirstAnswer(visits: seq<Visit>, a: nat) {
    a < |visits| && visits[a].answered && forall i :: 0 <= i < a ==> !visits[i].answered
  }

  /** Runs `i` and `j` were answered and none between them was. */
  predicate Consecutive(visits: seq<Visit>, i: nat, j: nat) {
    i < j < |visits| && visits[i].answered && visits[j].answered && forall k :: i < k < j ==> !visits[k].answered
  }

  /** Up to the first saved run, no two consecutive answers are further apart than the windows overlap. */
  ghost predicate NoLongPause(inc: Incremental, visits: seq<Visit>, f: nat) {
    forall i: nat, j: nat :: Consecutive(visits, i, j) && j <= f ==>
      Seconds(visits[j].now) - Seconds(visits[i].now) <= inc.Overlap()
  }

  ghost predicate AllCovered(inc: Incremental, visits: seq<Visit>, a: nat)
    requires a < |visits| && CursorAfter(None, visits).Some?
  {
    forall t: real :: WindowOf(inc, visits, a).since as real <= t <= CursorAfter(None, visits).value as real ==>
      Covered(inc, visits, t)
  }

  /** Without a configured start a run before the first save asks for the overlap up to its own time. */
  lemma UnsavedWindow(inc: Incremental, visits: seq<Visit>, f: nat, i: nat)
    requires IsFirstSave(visits, f) && inc.initialSince.None? && i <= f
    ensures WindowOf(inc, visits, i) == Window(Seconds(visits[i].now) - inc.Overlap(), Seconds(visits[i].now))
  {
    NoSaveNoCursor(visits, i);
  }

  /** The last answered run before `j`. */
  lemma {:induction false} AnswerBefore(visits: seq<Visit>, a: nat, j: nat, n: nat) returns (i: nat)
    requires IsFirstAnswer(visits, a) && a < n <= j < |visits| && visits[j].answered
    requires forall k :: n <= k < j ==> !visits[k].answered
    ensures a <= i < n && Consecutive(visits, i, j)
    decreases n
  {
    if visits[n - 1].answered {
      i := n - 1;
    } else {
      i := AnswerBefore(visits, a, j, n - 1);
    }
  }

  lemma {:induction false} CoveredBeforeSave(inc: Incremental, visits: seq<Visit>, f: nat, a: nat, j: nat, t: real)
    requires Clocked(visits) && IsFirstSave(visits, f) && inc.initialSince.None? && IsFirstAnswer(visits, a)
    requires NoLongPause(inc, visits, f) && a <= j <= f && visits[j].answered
    requires WindowOf(inc, visits, a).since as real <= t <= Seconds(visits[j].now) as real
    ensures Covered(inc, visits, t)
    decreases j
  {
    UnsavedWindow(inc, visits, f, j);
    if WindowOf(inc, visits, j).since as real <= t {
      assert InWindow(WindowOf(inc, visits, j), t);
    } else {
      var i := AnswerBefore(visits, a, j, j);
      assert Seconds(visits[j].now) - Seconds(visits[i].now) <= inc.Overlap();
      CoveredBeforeSave(inc, visits, f, a, i, t);
    }
  }

  /** Every window from the first save on starts no earlier than that one. */
  lemma {:induction false} LaterWindowsStartLater(inc: Incremental, visits: seq<Visit>, f: nat, n: nat)
    requires Clocked(visits) && IsFirstSave(visits, f) && inc.initialSince.None? && f <= n < |visits|
    ensures n > f ==>
      CursorAfter(None, visits[..n]).Some? && CursorAfter(None, visits[..n]).value >= Seconds(visits[f].now)
    ensures WindowOf(inc, visits, n).since >= Seconds(visits[f].now) - inc.Overlap()
  {
    if n == f {
      UnsavedWindow(inc, visits, f, f);
    } else {
      var m := n - 1;
      assert visits[..n][..m] == visits[..m];
      LaterWindowsStartLater(inc, visits, f, m);
      assert visits[f].now <= visits[m].now;
    }
  }

  lemma SecondsGrow(visits: seq<Visit>, i: nat, j: nat)
    requires Clocked(visits) && i <= j < |visits|
    ensures Seconds(visits[i].now) <= Seconds(visits[j].now)
  {
    assert i < j ==> visits[i].now <= visits[j].now;
  }

  /** What lies between two consecutive answers, before the overlap of the later one, is in no window. */
  lemma PauseIsUncovered(inc: Incremental, visits: seq<Visit>, f: nat, i: nat, j: nat, t: real)
    requires Clocked(visits) && IsFirstSave(visits, f) && inc.initialSince.None?
    requires Consecutive(visits, i, j) && j <= f
    requires Seconds(visits[i].now) as real < t < (Seconds(visits[j].now) - inc.Overlap()) as real
    ensures !Covered(inc, visits, t)
  {
    hide Seconds, Clocked, CursorAfter, Bounds, WindowOf;
    forall k | 0 <= k < |visits| && visits[k].answered
      ensures !InWindow(WindowOf(inc, visits, k), t)
    {
      if k <= i {
        UnsavedWindow(inc, visits, f, k);
        SecondsGrow(visits, k, i);
      } else if k <= f {
        UnsavedWindow(inc, visits, f, k);
        SecondsGrow(visits, j, k);
      } else {
        LaterWindowsStartLater(inc, visits, f, k);
        SecondsGrow(visits, j, f);
      }
    }
  }

  /** Without a configured start, the runs before the first save can leave a gap: from the start of the first
      answered window to the saved cursor everything is covered exactly when no two consecutive answers up to the
      first save are further apart than the windows overlap. */
  lemma UnsavedStartCoveredIff(inc: Incremental, visits: seq<Visit>, f: nat, a: nat)
    requires Clocked(visits) && IsFirstSave(visits, f) && IsFirstAnswer(visits, a)
    ensures CursorAfter(None, visits).Some?
    ensures AllCovered(inc, visits, a) <==> inc.initialSince.Some? || NoLongPause(inc, visits, f)
  {
    hide Seconds, CursorAfter, Bounds, WindowOf;
    SavedHasCursor(visits, f);
    assert a <= f;
    if inc.initialSince.Some? || NoLongPause(inc, visits, f) {
      forall t: real | WindowOf(inc, visits, a).since as real <= t <= CursorAfter(None, visits).value as real
        ensures Covered(inc, visits, t)
      {
        if inc.initialSince.Some? {
          SameStart(inc, visits, f, a);
          NoGap(inc, visits, f, t);
        } else if t <= Seconds(visits[f].now) as real {
          CoveredBeforeSave(inc, visits, f, a, f, t);
        } else {
          UnsavedWindow(inc, visits, f, f);
          NoGap(inc, visits, f, t);
        }
      }
    } else {
      var i: nat, j: nat :| Consecutive(visits, i, j) && j <= f
        && Seconds(visits[j].now) - Seconds(visits[i].now) > inc.Overlap();
      LongPauseShows(inc, visits, f, a, i, j);
    }
  }

  lemma SameStart(inc: Incremental, visits: seq<Visit>, f: nat, a: nat)
    requires IsFirstSave(visits, f) && inc.initialSince.Some? && a <= f
    ensures WindowOf(inc, visits, a).since == WindowOf(inc, visits, f).since == inc.initialSince.value
  {
    NoSaveNoCursor(visits, a);
    NoSaveNoCursor(visits, f);
  }

  lemma LongPauseShows(inc: Incremental, visits: seq<Visit>, f: nat, a: nat, i: nat, j: nat)
    requires Clocked(visits) && IsFirstSave(visits, f) && IsFirstAnswer(visits, a) && inc.initialSince.None?
    requires Consecutive(visits, i, j) && j <= f && Seconds(visits[j].now) - Seconds(visits[i].now) > inc.Overlap()
    requires CursorAfter(None, visits).Some?
    ensures !AllCovered(inc, visits, a)
  {
    hide Seconds, Clocked, CursorAfter, Bounds, WindowOf, Covered;
    var t := (Seconds(visits[i].now) as real + (Seconds(visits[j].now) - inc.Overlap()) as real) / 2.0;
    PauseIsUncovered(inc, visits, f, i, j, t);
    UnsavedWindow(inc, visits, f, a);
    SecondsGrow(visits, a, i);
    SecondsGrow(visits, j, f);
    CursorReaches(visits, f);
    assert WindowOf(inc, visits, a).since as real <= t <= CursorAfter(None, visits).value as real;
  }

  lemma {:induction false} CursorReaches(visits: seq<Visit>, f: nat)
    requires Clocked(visits) && f < |visits| && visits[f].saved
    ensures CursorAfter(None, visits).Some? && CursorAfter(None, visits).value >= Seconds(visits[f].now)
  {
    var n := |visits| - 1;
    if visits[n].saved {
      assert f < n ==> visits[f].now <= visits[n].now;
    } else {
      CursorReaches(visits[..n], f);
    }
  }

  /** The smallest case: one answered run that was not saved, then a saved one. */
  lemma UnsavedPairCoveredIff(inc: Incremental, first: nat, second: nat)
    requires first <= second
    ensures AllCovered(inc, [Visit(first, true, false), Visit(second, true, true)], 0) <==>
      inc.initialSince.Some? || Seconds(second) - inc.Overlap() <= Seconds(first)
  {
    hide Seconds, AllCovered;
    var visits := [Visit(first, true, false), Visit(second, true, true)];
    UnsavedStartCoveredIff(inc, visits, 1, 0);
    assert Consecutive(visits, 0, 1);
    assert NoLongPause(inc, visits, 1) <==> Seconds(second) - Seconds(first) <= inc.Overlap();
  }
}
