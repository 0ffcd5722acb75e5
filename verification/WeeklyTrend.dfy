/** The weekly report over a history of manager briefs: one row per day, day-over-day differences, and the
    most important change of each company. */
module WeeklyTrend {
  import opened BriefDelta
  import opened Options

  datatype Column = CriticalTotal | BusyTotal | OpenCases | Detected

  /** The counts of a brief; an empty summary counts as zero everywhere. */
  datatype Summary = NoSummary | Summary(critical: int, busy: int, openCases: int, detected: int)
  {
    function Get(column: Column): int {
      if NoSummary? then 0
      else
        match column
        case CriticalTotal => critical
        case BusyTotal => busy
        case OpenCases => openCases
        case Detected => detected
    }
  }

  /** When a brief was generated: the date in its own time zone, and the instant. */
  datatype Stamp = Stamp(day: int, instant: int)

  /** A priority score as it was stored: missing, not a number, or a number. */
  datatype Stored = Missing | NotANumber | Number(value: real)

  datatype ListedChange = ListedChange(infobase: string, company: string, stored: Stored, significance: real, score: int, cases: int,
                       detections: int, locks: int)

  datatype Payload = Payload(stamp: Option<Stamp>, summary: Summary, changes: seq<ListedChange>)

  datatype Row = Row(day: int, summary: Summary, deltas: Summary)

  datatype Candidate = Candidate(item: ListedChange, priority: real)

  datatype Report = Report(daily: seq<Row>, top: map<(string, string), Candidate>)

  // ----- The latest brief of a day ------------------------------------------------------

  function PeriodStart(today: int, days: int): int {
    today - if days > 1 then days - 1 else 0
  }

  predicate Recent(p: Payload, start: int) {
    p.stamp.Some? && p.stamp.value.day >= start
  }

  function RecentOf(payloads: seq<Payload>, start: int): (recent: seq<Payload>)
    ensures forall p :: p in recent <==> p in payloads && Recent(p, start)
  {
    if payloads == [] then []
    else
      var last := payloads[|payloads| - 1];
      assert payloads == payloads[..|payloads| - 1] + [last];
      RecentOf(payloads[..|payloads| - 1], start) + if Recent(last, start) then [last] else []
  }

  /** The period is the given number of days, at least one, up to today. */
  lemma PeriodIs(p: Payload, today: int, days: int)
    ensures Recent(p, PeriodStart(today, days)) <==>
      p.stamp.Some? && today - p.stamp.value.day < if days < 1 then 1 else days
  {
  }

  predicate Stamped(payloads: seq<Payload>) {
    forall p :: p in payloads ==> p.stamp.Some?
  }

  /** A later one of the same day replaces what was kept; one of the same instant does not. */
  function LatestOn(payloads: seq<Payload>, day: int): (latest: Option<Payload>)
    requires Stamped(payloads)
    ensures latest.Some? ==> latest.value in payloads && latest.value.stamp.value.day == day
    ensures forall p :: p in payloads && p.stamp.value.day == day ==>
      latest.Some? && p.stamp.value.instant <= latest.value.stamp.value.instant
  {
    if payloads == [] then None
    else
      var init, last := payloads[..|payloads| - 1], payloads[|payloads| - 1];
      assert payloads == init + [last];
      var kept := LatestOn(init, day);
      if last.stamp.value.day == day && (kept.None? || last.stamp.value.instant > kept.value.stamp.value.instant)
      then Some(last) else kept
  }

  /** Of equally late payloads of a day, the one listed first is kept. */
  lemma {:induction false} LatestIsFirst(payloads: seq<Payload>, day: int) returns (i: nat)
    requires Stamped(payloads) && LatestOn(payloads, day).Some?
    ensures i < |payloads| && payloads[i] == LatestOn(payloads, day).value
    ensures forall j :: 0 <= j < i && payloads[j].stamp.Some? && payloads[j].stamp.value.day == day ==>
      payloads[i].stamp.Some? && payloads[j].stamp.value.instant < payloads[i].stamp.value.instant
    decreases |payloads|
  {
    var n := |payloads| - 1;
    var init := payloads[..n];
    assert payloads == init + [payloads[n]];
    if LatestOn(init, day) == LatestOn(payloads, day) {
      i := LatestIsFirst(init, day);
    } else {
      i := n;
      assert forall j :: 0 <= j < n ==> init[j] in init;
    }
  }

  ghost predicate KeepsLatest(byDay: map<int, Payload>, payloads: seq<Payload>)
    requires Stamped(payloads)
  {
    forall d :: (if d in byDay then Some(byDay[d]) else None) == LatestOn(payloads, d)
  }

  lemma KeepsLatestNext(byDay: map<int, Payload>, payloads: seq<Payload>, p: Payload)
    requires Stamped(payloads + [p]) && p.stamp.Some?
    requires Stamped(payloads) && KeepsLatest(byDay, payloads)
    ensures var day := p.stamp.value.day;
      KeepsLatest(
        if day !in byDay || (byDay[day].stamp.Some? && p.stamp.value.instant > byDay[day].stamp.value.instant)
        then byDay[day := p] else byDay, payloads + [p])
  {
    assert (payloads + [p])[..|payloads|] == payloads;
    var day := p.stamp.value.day;
    assert (if day in byDay then Some(byDay[day]) else None) == LatestOn(payloads, day);
    var next := if day !in byDay || (byDay[day].stamp.Some? && p.stamp.value.instant > byDay[day].stamp.value.instant)
      then byDay[day := p] else byDay;
    forall d
      ensures (if d in next then Some(next[d]) else None) == LatestOn(payloads + [p], d)
    {
      assert (if d in byDay then Some(byDay[d]) else None) == LatestOn(payloads, d);
    }
  }

  lemma StampedPrefix(payloads: seq<Payload>, i: nat)
    requires Stamped(payloads) && i <= |payloads|
    ensures Stamped(payloads[..i])
  {
    assert forall p :: p in payloads[..i] ==> p in payloads;
  }

  method LatestByDay(payloads: seq<Payload>) returns (byDay: map<int, Payload>)
    requires Stamped(payloads)
    ensures KeepsLatest(byDay, payloads)
  {
    hide LatestOn, KeepsLatest, Stamped;
    byDay := map[];
    NothingKept();
    for i := 0 to |payloads|
      invariant Stamped(payloads[..i]) && KeepsLatest(byDay, payloads[..i])
      invariant forall d :: d in byDay ==> byDay[d].stamp.Some?
    {
      var p := payloads[i];
      StampedPrefix(payloads, i + 1);
      StampedAt(payloads, i);
      assert payloads[..i + 1] == payloads[..i] + [p];
      KeepsLatestNext(byDay, payloads[..i], p);
      var day := p.stamp.value.day;
      if day !in byDay || p.stamp.value.instant > byDay[day].stamp.value.instant {
        byDay := byDay[day := p];
      }
    }
    assert payloads[..|payloads|] == payloads;
  }

  lemma StampedAt(payloads: seq<Payload>, i: nat)
    requires Stamped(payloads) && i < |payloads|
    ensures payloads[i].stamp.Some?
  {
    assert payloads[i] in payloads;
  }

  lemma NothingKept()
    ensures Stamped([]) && KeepsLatest(map[], [])
  {
  }

  // ----- The daily rows -----------------------------------------------------------------

  predicate Ascending(days: seq<int>) {
    forall i, j :: 0 <= i < j < |days| ==> days[i] < days[j]
  }

  predicate IsFirst(d: int, days: set<int>) {
    d in days && forall e :: e in days ==> d <= e
  }

  lemma FirstExists(days: set<int>)
    requires days != {}
    ensures exists d :: IsFirst(d, days)
  {
    var d := Pick(days);
    var rest := days - {d};
    assert days == rest + {d};
    if rest == {} {
      assert days == {d};
      assert IsFirst(d, days);
    } else {
      FirstExists(rest);
      var l :| IsFirst(l, rest);
      assert IsFirst(if l < d then l else d, days);
    }
  }

  lemma Pick<T>(s: set<T>) returns (x: T)
    requires s != {}
    ensures x in s
  {
    x :| x in s;
  }

  lemma FirstUnique(days: set<int>)
    ensures forall d, e :: IsFirst(d, days) && IsFirst(e, days) ==> d == e
  {
  }

  function SortedDays(days: set<int>): (sorted: seq<int>)
    ensures Ascending(sorted)
    ensures forall d :: d in sorted <==> d in days
  {
    if days == {} then []
    else
      FirstExists(days);
      FirstUnique(days);
      var d :| IsFirst(d, days);
      [d] + SortedDays(days - {d})
  }

  /** The differences to an earlier summary; none when there is no such summary or it is empty. */
  function DeltaFrom(previous: Summary, summary: Summary): Summary {
    if previous.NoSummary? then Summary(0, 0, 0, 0)
    else
      Summary(summary.Get(CriticalTotal) - previous.critical, summary.Get(BusyTotal) - previous.busy,
        summary.Get(OpenCases) - previous.openCases, summary.Get(Detected) - previous.detected)
  }

  function DayDelta(days: seq<Summary>, i: nat): Summary
    requires i < |days|
  {
    DeltaFrom(if i == 0 then NoSummary else days[i - 1], days[i])
  }

  function SummariesOf(rows: seq<Row>): (days: seq<Summary>)
    ensures |days| == |rows|
    ensures forall i :: 0 <= i < |rows| ==> days[i] == rows[i].summary
  {
    seq(|rows|, i requires 0 <= i < |rows| => rows[i].summary)
  }

  /** One row per day, in order, with the differences to the row before. */
  predicate DailyRows(rows: seq<Row>, byDay: map<int, Payload>) {
    && (forall i, j :: 0 <= i < j < |rows| ==> rows[i].day < rows[j].day)
    && (forall i :: 0 <= i < |rows| ==> rows[i].day in byDay && rows[i].summary == byDay[rows[i].day].summary)
    && (forall i :: 0 <= i < |rows| ==> rows[i].deltas == DayDelta(SummariesOf(rows), i))
  }

  lemma DeltaOfNext(rows: seq<Row>, next: Row, deltas: Summary)
    requires deltas == DayDelta(SummariesOf(rows + [next]), |rows|)
    requires forall j :: 0 <= j < |rows| ==> rows[j].deltas == DayDelta(SummariesOf(rows), j)
    requires next.deltas == deltas
    ensures forall j :: 0 <= j <= |rows| ==> (rows + [next])[j].deltas == DayDelta(SummariesOf(rows + [next]), j)
  {
    hide DayDelta;
    forall j | 0 <= j <= |rows|
      ensures (rows + [next])[j].deltas == DayDelta(SummariesOf(rows + [next]), j)
    {
      if j < |rows| {
        DeltaStays(rows, next, j);
      }
    }
  }

  lemma DeltaStays(rows: seq<Row>, next: Row, j: nat)
    requires j < |rows|
    ensures DayDelta(SummariesOf(rows + [next]), j) == DayDelta(SummariesOf(rows), j)
  {
    hide DeltaFrom;
    var before, after := SummariesOf(rows), SummariesOf(rows + [next]);
    assert after[j] == before[j];
    assert j > 0 ==> after[j - 1] == before[j - 1];
  }

  method BuildDaily(byDay: map<int, Payload>) returns (rows: seq<Row>)
    ensures DailyRows(rows, byDay)
    ensures |rows| == |SortedDays(byDay.Keys)| && forall i :: 0 <= i < |rows| ==> rows[i].day == SortedDays(byDay.Keys)[i]
  {
    hide SortedDays, DayDelta;
    var days := SortedDays(byDay.Keys);
    rows := [];
    var previous := NoSummary;
    for i := 0 to |days|
      invariant |rows| == i
      invariant forall j :: 0 <= j < i ==> rows[j].day == days[j]
      invariant forall j :: 0 <= j < i ==> rows[j].day in byDay && rows[j].summary == byDay[rows[j].day].summary
      invariant forall j :: 0 <= j < i ==> rows[j].deltas == DayDelta(SummariesOf(rows), j)
      invariant previous == if i == 0 then NoSummary else rows[i - 1].summary
    {
      assert days[i] in days;
      var summary := byDay[days[i]].summary;
      var deltas := DeltaFrom(previous, summary);
      DeltaFromLast(rows, Row(days[i], summary, deltas), previous);
      DeltaOfNext(rows, Row(days[i], summary, deltas), deltas);
      rows := rows + [Row(days[i], summary, deltas)];
      previous := summary;
    }
  }

  lemma DeltaFromLast(rows: seq<Row>, next: Row, previous: Summary)
    requires previous == if rows == [] then NoSummary else rows[|rows| - 1].summary
    ensures DeltaFrom(previous, next.summary) == DayDelta(SummariesOf(rows + [next]), |rows|)
  {
    var days := SummariesOf(rows + [next]);
    assert days[|rows|] == next.summary;
    if rows != [] {
      assert days[|rows| - 1] == rows[|rows| - 1].summary;
    }
  }

  // ----- Telescoping --------------------------------------------------------------------

  function DeltaSum(days: seq<Summary>, n: nat, column: Column): int
    requires n <= |days|
  {
    if n == 0 then 0 else DeltaSum(days, n - 1, column) + DayDelta(days, n - 1).Get(column)
  }

  /** The totals of the days that follow an empty summary: their rise from zero is not counted as a difference. */
  function Skipped(days: seq<Summary>, n: nat, column: Column): int
    requires n <= |days|
  {
    if n <= 1 then 0
    else Skipped(days, n - 1, column) + if days[n - 2].NoSummary? then days[n - 1].Get(column) else 0
  }

  /** What the digest reports for the week: the last day less the first. */
  function WeekDelta(days: seq<Summary>, column: Column): int {
    if days == [] then 0 else days[|days| - 1].Get(column) - days[0].Get(column)
  }

  lemma {:induction false} DeltasTelescope(days: seq<Summary>, n: nat, column: Column)
    requires 0 < n <= |days|
    ensures DeltaSum(days, n, column) == days[n - 1].Get(column) - days[0].Get(column) - Skipped(days, n, column)
  {
    if n > 1 {
      DeltasTelescope(days, n - 1, column);
    } else {
      assert DeltaSum(days, 0, column) == 0;
    }
  }

  /** The day-over-day differences add up to the week's difference, less the days skipped after a gap. */
  lemma WeekIsSumOfDays(days: seq<Summary>, column: Column)
    ensures DeltaSum(days, |days|, column) == WeekDelta(days, column) - Skipped(days, |days|, column)
  {
    if days != [] {
      DeltasTelescope(days, |days|, column);
    }
  }

  predicate NotNegative(days: seq<Summary>, column: Column) {
    forall i :: 0 <= i < |days| ==> days[i].Get(column) >= 0
  }

  /** After every gap the column stands at zero. */
  predicate ZeroAfterGaps(days: seq<Summary>, n: nat, column: Column)
    requires n <= |days|
  {
    forall i :: 0 < i < n && days[i - 1].NoSummary? ==> days[i].Get(column) == 0
  }

  lemma {:induction false} SkippedIff(days: seq<Summary>, n: nat, column: Column)
    requires n <= |days| && NotNegative(days, column)
    ensures Skipped(days, n, column) >= 0
    ensures Skipped(days, n, column) == 0 <==> ZeroAfterGaps(days, n, column)
  {
    if n > 1 {
      SkippedIff(days, n - 1, column);
      assert days[n - 1].Get(column) >= 0;
      var settled := days[n - 2].NoSummary? ==> days[n - 1].Get(column) == 0;
      assert ZeroAfterGaps(days, n, column) <==> ZeroAfterGaps(days, n - 1, column) && settled;
    }
  }

  /** Counts are not negative; the differences then add up to the week's exactly when every day after an empty
      summary counts zero, as when no summary is empty. */
  lemma TelescopesIff(days: seq<Summary>, column: Column)
    requires NotNegative(days, column)
    ensures DeltaSum(days, |days|, column) == WeekDelta(days, column) <==> ZeroAfterGaps(days, |days|, column)
    ensures (forall i :: 0 <= i < |days| ==> days[i].Summary?) ==> ZeroAfterGaps(days, |days|, column)
  {
    WeekIsSumOfDays(days, column);
    SkippedIff(days, |days|, column);
  }

  // ----- The top change of a company ----------------------------------------------------

  function NonNegative(x: real): real {
    if x < 0.0 then 0.0 else x
  }

  /** A stored score is used as it is; without one the score is put together from what the item tells. */
  function PriorityOf(item: ListedChange): real {
    match item.stored
    case Number(x) => x
    case NotANumber => 0.0
    case Missing =>
      Round2(NonNegative(item.significance) + AtLeast0(item.score) as real * 0.8
        + (AtLeast0(item.cases) * 8 + AtLeast0(item.detections) * 5 + AtLeast0(item.locks) * 10) as real)
  }

  /** A number that is stored counts as it is, anything else that is stored as nothing; without it the parts that the
      item tells are added up, but for rounding. */
  lemma PriorityOfIs(item: ListedChange)
    ensures forall x :: item.stored == Number(x) ==> PriorityOf(item) == x
    ensures item.stored == NotANumber ==> PriorityOf(item) == 0.0
    ensures item.stored == Missing ==>
      var sum := Max(item.significance, 0.0) + Max(item.score as real, 0.0) * 0.8 + 8.0 * Max(item.cases as real, 0.0)
        + 5.0 * Max(item.detections as real, 0.0) + 10.0 * Max(item.locks as real, 0.0);
      Abs(PriorityOf(item) - sum) <= 0.005
  {
    hide Round2;
    if item.stored == Missing {
      RoundingError(NonNegative(item.significance) + AtLeast0(item.score) as real * 0.8
        + (AtLeast0(item.cases) * 8 + AtLeast0(item.detections) * 5 + AtLeast0(item.locks) * 10) as real);
    }
  }

  function ItemKey(item: ListedChange): (string, string) {
    (item.infobase, item.company)
  }

  function ItemsOf(payloads: seq<Payload>): seq<ListedChange> {
    if payloads == [] then [] else ItemsOf(payloads[..|payloads| - 1]) + payloads[|payloads| - 1].changes
  }

  /** The first of the items with the highest priority among those with a key. */
  function BestOf(items: seq<ListedChange>, key: (string, string)): (best: Option<ListedChange>)
    ensures best.Some? ==> best.value in items && ItemKey(best.value) == key
    ensures forall x :: x in items && ItemKey(x) == key ==> best.Some? && PriorityOf(x) <= PriorityOf(best.value)
  {
    if items == [] then None
    else
      var init, last := items[..|items| - 1], items[|items| - 1];
      assert items == init + [last];
      var best := BestOf(init, key);
      if ItemKey(last) == key && (best.None? || PriorityOf(last) > PriorityOf(best.value)) then Some(last) else best
  }

  /** Of equally important changes of a company, the one listed first is kept. */
  lemma {:induction false} BestIsFirst(items: seq<ListedChange>, key: (string, string)) returns (i: nat)
    requires BestOf(items, key).Some?
    ensures i < |items| && items[i] == BestOf(items, key).value
    ensures items[i].infobase == key.0 && items[i].company == key.1
    ensures forall j :: 0 <= j < i && items[j].infobase == key.0 && items[j].company == key.1 ==>
      PriorityOf(items[j]) < PriorityOf(items[i])
    decreases |items|
  {
    hide PriorityOf;
    var n := |items| - 1;
    var init := items[..n];
    assert items == init + [items[n]];
    if BestOf(init, key) == BestOf(items, key) {
      i := BestIsFirst(init, key);
    } else {
      i := n;
      assert forall j :: 0 <= j < n ==> init[j] in init;
    }
  }

  ghost predicate KeepsBest(top: map<(string, string), Candidate>, items: seq<ListedChange>) {
    forall k :: (if k in top then Some(top[k]) else None) ==
      match BestOf(items, k) case Some(x) => Some(Candidate(x, PriorityOf(x))) case None => None
  }

  function Considered(top: map<(string, string), Candidate>, item: ListedChange): map<(string, string), Candidate> {
    var key := ItemKey(item);
    if key !in top || PriorityOf(item) > top[key].priority then top[key := Candidate(item, PriorityOf(item))] else top
  }

  lemma KeepsBestNext(top: map<(string, string), Candidate>, items: seq<ListedChange>, item: ListedChange)
    requires KeepsBest(top, items)
    ensures KeepsBest(Considered(top, item), items + [item])
  {
    hide PriorityOf;
    assert (items + [item])[..|items|] == items;
    var key := ItemKey(item);
    assert (if key in top then Some(top[key]) else None) ==
      match BestOf(items, key) case Some(x) => Some(Candidate(x, PriorityOf(x))) case None => None;
  }

  method TopChanges(payloads: seq<Payload>) returns (top: map<(string, string), Candidate>)
    ensures KeepsBest(top, ItemsOf(payloads))
  {
    hide KeepsBest, PriorityOf;
    top := map[];
    NothingBest();
    for i := 0 to |payloads|
      invariant KeepsBest(top, ItemsOf(payloads[..i]))
    {
      assert payloads[..i + 1][..i] == payloads[..i];
      var changes := payloads[i].changes;
      ghost var before := ItemsOf(payloads[..i]);
      assert before + changes[..0] == before;
      for j := 0 to |changes|
        invariant KeepsBest(top, before + changes[..j])
      {
        KeepsBestNext(top, before + changes[..j], changes[j]);
        assert before + changes[..j] + [changes[j]] == before + changes[..j + 1];
        var key := ItemKey(changes[j]);
        if key !in top || PriorityOf(changes[j]) > top[key].priority {
          top := top[key := Candidate(changes[j], PriorityOf(changes[j]))];
        }
      }
      assert changes[..|changes|] == changes;
    }
    assert payloads[..|payloads|] == payloads;
  }

  lemma NothingBest()
    ensures KeepsBest(map[], [])
  {
  }

  /** The item that a brief reports for a shift, without its stored score. */
  function Unscored(s: Shift, infobase: string, company: string): ListedChange {
    ListedChange(infobase, company, Missing, Round2(ChangeOf(s).significance), s.score, s.cases, s.detections, s.locks)
  }

  /** Losing its stored score never moves a reported change up: the substitute leaves out the severity and the
      forecast terms. */
  lemma SubstituteNeverOutranks(s: Shift, infobase: string, company: string)
    ensures PriorityOf(Unscored(s, infobase, company)) <= PriorityScore(s)
  {
    hide ChangeOf, RankedDrop, RoundEven;
    SignificanceTerms(s);
    Round2KeepsBounds(ChangeOf(s).significance, 0);
    var substitute := Round2(ChangeOf(s).significance) + AtLeast0(s.score) as real * 0.8
      + (AtLeast0(s.cases) * 8 + AtLeast0(s.detections) * 5 + AtLeast0(s.locks) * 10) as real;
    var full := Round2(ChangeOf(s).significance) + (UpRanks(s) * 24 + AtLeast0(s.cases) * 8 + AtLeast0(s.detections) * 5
      + AtLeast0(s.locks) * 10) as real + AtLeast0(s.score) as real * 0.8 + RankedDrop(s) * 0.6;
    RoundEvenMonotone(substitute * 100.0, full * 100.0);
  }

  // ----- The report ---------------------------------------------------------------------

  /** Each day of the period shows its latest brief; each company its most important change. */
  method BuildWeeklyTrendReport(payloads: seq<Payload>, today: int, days: int) returns (report: Report)
    ensures var recent := RecentOf(payloads, PeriodStart(today, days));
      && Stamped(recent)
      && (forall d :: (exists i :: 0 <= i < |report.daily| && report.daily[i].day == d) <==> LatestOn(recent, d).Some?)
      && (forall i :: 0 <= i < |report.daily| ==>
        LatestOn(recent, report.daily[i].day).Some?
        && report.daily[i].summary == LatestOn(recent, report.daily[i].day).value.summary
        && report.daily[i].deltas == DayDelta(SummariesOf(report.daily), i))
      && (forall i, j :: 0 <= i < j < |report.daily| ==> report.daily[i].day < report.daily[j].day)
      && KeepsBest(report.top, ItemsOf(recent))
  {
    hide RecentOf, LatestOn, SortedDays, KeepsBest, ItemsOf;
    var start := PeriodStart(today, days);
    var recent := [];
    EmptyRecent(start);
    for i := 0 to |payloads|
      invariant recent == RecentOf(payloads[..i], start)
    {
      RecentNext(payloads, i, start);
      if Recent(payloads[i], start) {
        recent := recent + [payloads[i]];
      }
    }
    assert payloads[..|payloads|] == payloads;
    var byDay := LatestByDay(recent);
    var daily := BuildDaily(byDay);
    var top := TopChanges(recent);
    DaysShown(daily, byDay, recent);
    report := Report(daily, top);
  }

  lemma EmptyRecent(start: int)
    ensures RecentOf([], start) == []
  {
  }

  lemma RecentNext(payloads: seq<Payload>, i: nat, start: int)
    requires i < |payloads|
    ensures RecentOf(payloads[..i + 1], start) ==
      RecentOf(payloads[..i], start) + if Recent(payloads[i], start) then [payloads[i]] else []
  {
    assert payloads[..i + 1][..i] == payloads[..i];
  }

  lemma DaysShown(daily: seq<Row>, byDay: map<int, Payload>, recent: seq<Payload>)
    requires Stamped(recent) && KeepsLatest(byDay, recent) && DailyRows(daily, byDay)
    requires |daily| == |SortedDays(byDay.Keys)|
    requires forall i :: 0 <= i < |daily| ==> daily[i].day == SortedDays(byDay.Keys)[i]
    ensures forall d :: (exists i :: 0 <= i < |daily| && daily[i].day == d) <==> LatestOn(recent, d).Some?
    ensures forall i :: 0 <= i < |daily| ==>
      LatestOn(recent, daily[i].day).Some? && daily[i].summary == LatestOn(recent, daily[i].day).value.summary
  {
    hide LatestOn, SortedDays;
    var days := SortedDays(byDay.Keys);
    forall d
      ensures (exists i :: 0 <= i < |daily| && daily[i].day == d) <==> LatestOn(recent, d).Some?
    {
      assert (if d in byDay then Some(byDay[d]) else None) == LatestOn(recent, d);
      if d in byDay {
        assert d in days;
        var i :| 0 <= i < |days| && days[i] == d;
        assert daily[i].day == d;
      }
    }
    forall i | 0 <= i < |daily|
      ensures LatestOn(recent, daily[i].day).Some? && daily[i].summary == LatestOn(recent, daily[i].day).value.summary
    {
      var d := daily[i].day;
      assert (if d in byDay then Some(byDay[d]) else None) == LatestOn(recent, d);
    }
  }
}
