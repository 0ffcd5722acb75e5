/** Filling the gaps of a company's daily activity, and the two weeks that are compared. Days are numbered;
    amounts are idealised as reals. */
module DailySeries {

  datatype DailyPoint = DailyPoint(day: int, docs: real, amount: real)

  function Blank(day: int): DailyPoint {
    DailyPoint(day, 0.0, 0.0)
  }

  /** The last point of a day, as a dictionary built from the points keeps it. */
  function PointOf(points: seq<DailyPoint>, day: int): DailyPoint {
    if points == [] then Blank(day)
    else if points[|points| - 1].day == day then points[|points| - 1]
    else PointOf(points[..|points| - 1], day)
  }

  /** One point for each of `n` days. */
  function Calendar(points: seq<DailyPoint>, first: int, n: nat): (filled: seq<DailyPoint>)
    ensures |filled| == n
    ensures forall i :: 0 <= i < n ==> filled[i].day == first + i
    ensures forall i :: 0 <= i < n ==> filled[i] == PointOf(points, first + i)
  {
    if n == 0 then []
    else
      PointOfDay(points, first + n - 1);
      Calendar(points, first, n - 1) + [PointOf(points, first + n - 1)]
  }

  lemma PointOfDay(points: seq<DailyPoint>, day: int)
    ensures PointOf(points, day).day == day
  {
  }

  function Span(points: seq<DailyPoint>): nat {
    if points == [] || points[|points| - 1].day < points[0].day then 0
    else points[|points| - 1].day - points[0].day + 1
  }

  function Filled(points: seq<DailyPoint>): seq<DailyPoint> {
    if points == [] then [] else Calendar(points, points[0].day, Span(points))
  }

  ghost predicate Indexes(byDay: map<int, DailyPoint>, points: seq<DailyPoint>) {
    forall d :: (if d in byDay then byDay[d] else Blank(d)) == PointOf(points, d)
  }

  lemma IndexesNext(byDay: map<int, DailyPoint>, points: seq<DailyPoint>, p: DailyPoint)
    requires Indexes(byDay, points)
    ensures Indexes(byDay[p.day := p], points + [p])
  {
    assert (points + [p])[..|points|] == points;
    assert forall d :: PointOf(points + [p], d) == if p.day == d then p else PointOf(points, d);
  }

  method FillDailySeries(points: seq<DailyPoint>) returns (filled: seq<DailyPoint>)
    ensures filled == Filled(points)
  {
    hide Indexes;
    if points == [] {
      return [];
    }
    var byDay: map<int, DailyPoint> := map[];
    NothingIndexed();
    for i := 0 to |points|
      invariant Indexes(byDay, points[..i])
    {
      IndexesNext(byDay, points[..i], points[i]);
      assert points[..i] + [points[i]] == points[..i + 1];
      byDay := byDay[points[i].day := points[i]];
    }
    assert points[..|points|] == points;
    var current, end := points[0].day, points[|points| - 1].day;
    filled := [];
    while current <= end
      invariant points[0].day <= current
      invariant current <= end + 1 || filled == []
      invariant current == points[0].day + |filled|
      invariant filled == Calendar(points, points[0].day, |filled|)
    {
      IndexedPoint(byDay, points, current);
      filled := filled + [if current in byDay then byDay[current] else Blank(current)];
      current := current + 1;
    }
  }

  lemma NothingIndexed()
    ensures Indexes(map[], [])
  {
  }

  lemma IndexedPoint(byDay: map<int, DailyPoint>, points: seq<DailyPoint>, day: int)
    requires Indexes(byDay, points)
    ensures (if day in byDay then byDay[day] else Blank(day)) == PointOf(points, day)
  {
  }

  // ----- Totals -------------------------------------------------------------------------

  /** A column of the series, zero on a blank day. */
  ghost predicate IsColumn(f: DailyPoint -> real) {
    forall d :: f(Blank(d)) == 0.0
  }

  function Total(points: seq<DailyPoint>, f: DailyPoint -> real): real {
    if points == [] then 0.0 else Total(points[..|points| - 1], f) + f(points[|points| - 1])
  }

  /** The sum over the points from day `lo` up to, not including, day `hi`. */
  function TotalBetween(points: seq<DailyPoint>, f: DailyPoint -> real, lo: int, hi: int): real {
    if points == [] then 0.0
    else
      var last := points[|points| - 1];
      TotalBetween(points[..|points| - 1], f, lo, hi) + if lo <= last.day < hi then f(last) else 0.0
  }

  /** What later points of the same day overwrote, within the same range. */
  function LostBetween(points: seq<DailyPoint>, f: DailyPoint -> real, lo: int, hi: int): real {
    if points == [] then 0.0
    else
      var init, last := points[..|points| - 1], points[|points| - 1];
      LostBetween(init, f, lo, hi) + if lo <= last.day < hi then f(PointOf(init, last.day)) else 0.0
  }

  lemma {:induction false} BetweenSplits(points: seq<DailyPoint>, f: DailyPoint -> real, lo: int, mid: int, hi: int)
    requires lo <= mid <= hi
    ensures TotalBetween(points, f, lo, hi) == TotalBetween(points, f, lo, mid) + TotalBetween(points, f, mid, hi)
    ensures LostBetween(points, f, lo, hi) == LostBetween(points, f, lo, mid) + LostBetween(points, f, mid, hi)
  {
    if points != [] {
      BetweenSplits(points[..|points| - 1], f, lo, mid, hi);
    }
  }

  /** What a day shows is what its points add up to, less what was overwritten. */
  lemma {:induction false} DayShows(points: seq<DailyPoint>, f: DailyPoint -> real, day: int)
    requires IsColumn(f)
    ensures f(PointOf(points, day)) == TotalBetween(points, f, day, day + 1) - LostBetween(points, f, day, day + 1)
  {
    if points != [] {
      DayShows(points[..|points| - 1], f, day);
    }
  }

  lemma {:induction false} CalendarTotal(points: seq<DailyPoint>, f: DailyPoint -> real, first: int, a: nat, b: nat,
                                        n: nat)
    requires IsColumn(f) && a <= b <= n
    ensures Total(Calendar(points, first, n)[a..b], f) ==
      TotalBetween(points, f, first + a, first + b) - LostBetween(points, f, first + a, first + b)
  {
    hide Calendar, PointOf, TotalBetween, LostBetween, IsColumn;
    var part := Calendar(points, first, n)[a..b];
    if a == b {
      EmptyRange(points, f, first + a);
    } else {
      CalendarTotal(points, f, first, a, b - 1, n);
      assert part[..|part| - 1] == Calendar(points, first, n)[a..b - 1];
      DayShows(points, f, first + b - 1);
      BetweenSplits(points, f, first + a, first + b - 1, first + b);
    }
  }

  lemma EmptyRange(points: seq<DailyPoint>, f: DailyPoint -> real, lo: int)
    ensures TotalBetween(points, f, lo, lo) == LostBetween(points, f, lo, lo) == 0.0
  {
  }

  /** The points of one company come sorted by day. */
  ghost predicate Sorted(points: seq<DailyPoint>) {
    forall i, j :: 0 <= i < j < |points| ==> points[i].day <= points[j].day
  }

  ghost predicate Within(points: seq<DailyPoint>, lo: int, hi: int) {
    forall i :: 0 <= i < |points| ==> lo <= points[i].day < hi
  }

  lemma {:induction false} NothingOutside(points: seq<DailyPoint>, f: DailyPoint -> real, lo: int, hi: int, a: int,
                                        b: int)
    requires Within(points, lo, hi) && (b <= lo || hi <= a)
    ensures TotalBetween(points, f, a, b) == LostBetween(points, f, a, b) == 0.0
  {
    if points != [] {
      NothingOutside(points[..|points| - 1], f, lo, hi, a, b);
    }
  }

  lemma {:induction false} AllWithin(points: seq<DailyPoint>, f: DailyPoint -> real, lo: int, hi: int)
    requires Within(points, lo, hi)
    ensures TotalBetween(points, f, lo, hi) == Total(points, f)
  {
    if points != [] {
      AllWithin(points[..|points| - 1], f, lo, hi);
    }
  }

  function Lost(points: seq<DailyPoint>, f: DailyPoint -> real): real {
    if points == [] then 0.0 else LostBetween(points, f, points[0].day, points[|points| - 1].day + 1)
  }

  /** Filling keeps every total, except for what a later point of the same day overwrote. */
  lemma FillConserves(points: seq<DailyPoint>, f: DailyPoint -> real)
    requires Sorted(points) && IsColumn(f)
    ensures Total(Filled(points), f) == Total(points, f) - Lost(points, f)
  {
    hide Calendar, TotalBetween, LostBetween;
    if points != [] {
      var first, n := points[0].day, Span(points);
      CalendarTotal(points, f, first, 0, n, n);
      assert Calendar(points, first, n)[0..n] == Calendar(points, first, n);
      AllWithin(points, f, first, first + n);
    }
  }

  ghost predicate OnePerDay(points: seq<DailyPoint>) {
    forall i, j :: 0 <= i < j < |points| ==> points[i].day < points[j].day
  }

  lemma NoPointOf(points: seq<DailyPoint>, day: int)
    requires forall i :: 0 <= i < |points| ==> points[i].day != day
    ensures PointOf(points, day) == Blank(day)
  {
  }

  lemma {:induction false} NothingLost(points: seq<DailyPoint>, f: DailyPoint -> real, lo: int, hi: int)
    requires OnePerDay(points) && IsColumn(f)
    ensures LostBetween(points, f, lo, hi) == 0.0
  {
    if points != [] {
      NothingLost(points[..|points| - 1], f, lo, hi);
      NoPointOf(points[..|points| - 1], points[|points| - 1].day);
    }
  }

  // ----- The two weeks ------------------------------------------------------------------

  /** Python's `filled[-a:-b]`, and `filled[-a:]` for b = 0. */
  function FromEnd(filled: seq<DailyPoint>, a: nat, b: nat): seq<DailyPoint>
    requires b <= a
  {
    filled[if a <= |filled| then |filled| - a else 0..if b <= |filled| then |filled| - b else 0]
  }

  function LastSeven(filled: seq<DailyPoint>): seq<DailyPoint> {
    FromEnd(filled, 7, 0)
  }

  function PreviousSeven(filled: seq<DailyPoint>): seq<DailyPoint> {
    FromEnd(filled, 14, 7)
  }

  lemma WindowTotal(points: seq<DailyPoint>, f: DailyPoint -> real, a: nat, b: nat)
    requires points != [] && Sorted(points) && IsColumn(f) && b <= a
    ensures var end := points[|points| - 1].day + 1;
      Total(FromEnd(Filled(points), a, b), f) ==
      TotalBetween(points, f, end - a, end - b) - LostBetween(points, f, end - a, end - b)
  {
    hide TotalBetween, LostBetween, Calendar;
    var first, n := points[0].day, Span(points);
    var end := first + n;
    var lo := if a <= n then n - a else 0;
    var hi := if b <= n then n - b else 0;
    CalendarTotal(points, f, first, lo, hi, n);
    if b > n {
      NothingOutside(points, f, first, end, end - a, end - b);
      EmptyRange(points, f, first);
    } else if a > n {
      NothingOutside(points, f, first, end, end - a, first);
      BetweenSplits(points, f, end - a, first, end - b);
    }
  }

  /** For a series with one point a day, of any length, the two weeks add up the original points of the
      seven days up to the last one and of the seven days before them. */
  lemma WeeksAreCalendarWeeks(points: seq<DailyPoint>, f: DailyPoint -> real)
    requires points != [] && OnePerDay(points) && IsColumn(f)
    ensures var end := points[|points| - 1].day + 1;
      && Total(LastSeven(Filled(points)), f) == TotalBetween(points, f, end - 7, end)
      && Total(PreviousSeven(Filled(points)), f) == TotalBetween(points, f, end - 14, end - 7)
  {
    hide Total, TotalBetween, FromEnd, Filled, OnePerDay, IsColumn;
    OneWeek(points, f, 7, 0);
    OneWeek(points, f, 14, 7);
  }

  lemma OneWeek(points: seq<DailyPoint>, f: DailyPoint -> real, a: nat, b: nat)
    requires points != [] && OnePerDay(points) && IsColumn(f) && b <= a
    ensures var end := points[|points| - 1].day + 1;
      Total(FromEnd(Filled(points), a, b), f) == TotalBetween(points, f, end - a, end - b)
  {
    hide Total, TotalBetween, LostBetween, FromEnd, Filled, IsColumn;
    var end := points[|points| - 1].day + 1;
    assert Sorted(points);
    WindowTotal(points, f, a, b);
    NothingLost(points, f, end - a, end - b);
  }

  /** The last week ends with the last day that has a point, not with today: if that point has documents and
      none is negative, the week's total is positive, however long ago it was. */
  lemma LastWeekIsNeverEmpty(points: seq<DailyPoint>, f: DailyPoint -> real)
    requires points != [] && OnePerDay(points) && IsColumn(f)
    requires forall i :: 0 <= i < |points| ==> f(points[i]) >= 0.0
    requires f(points[|points| - 1]) > 0.0
    ensures Total(LastSeven(Filled(points)), f) > 0.0
  {
    hide Total, LastSeven, PreviousSeven, Filled;
    var end := points[|points| - 1].day + 1;
    WeeksAreCalendarWeeks(points, f);
    NotNegative(points[..|points| - 1], f, end - 7, end);
  }

  lemma NotNegative(points: seq<DailyPoint>, f: DailyPoint -> real, lo: int, hi: int)
    requires forall i :: 0 <= i < |points| ==> f(points[i]) >= 0.0
    ensures TotalBetween(points, f, lo, hi) >= 0.0
  {
  }

  /** Two points of one day: the earlier one is lost. */
  lemma SecondPointOverwrites()
    ensures var points := [DailyPoint(1, 3.0, 0.0), DailyPoint(1, 4.0, 0.0)];
      Sorted(points) && Total(points, (p: DailyPoint) => p.docs) == 7.0
      && Total(Filled(points), (p: DailyPoint) => p.docs) == 4.0
  {
    var f := (p: DailyPoint) => p.docs;
    var points := [DailyPoint(1, 3.0, 0.0), DailyPoint(1, 4.0, 0.0)];
    assert points[..1] == [DailyPoint(1, 3.0, 0.0)];
    assert points[..1][..0] == [];
    assert Filled(points) == [DailyPoint(1, 4.0, 0.0)];
    assert Filled(points)[..0] == [];
  }
}
