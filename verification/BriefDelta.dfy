/** What changed between two manager briefs: counts of critical companies, and the change that is reported for
    each company. Floating-point numbers are idealised as reals. */
module BriefDelta {
  import opened Dictionaries
  import opened Options
  import opened Text

  datatype Item = Item(infobase: string, entityKey: string, counterparty: string, severity: string,
                       score: int, cases: int, detections: int, locks: int, forecast: real)

  type Key = (string, string)

  function KeyOf(item: Item): Key {
    (item.infobase, if item.entityKey != "" then item.entityKey else item.counterparty)
  }

  // ----- Critical companies -------------------------------------------------------------

  predicate Critical(item: Item) {
    item.severity == "critical"
  }

  /** How many rows of `a` have a partner in `b` that stands to them as `p` says. */
  function Partners(a: seq<Item>, b: seq<Item>, p: (Item, Item) -> bool): nat {
    if a == [] then 0
    else
      var last := a[|a| - 1];
      var found := LastOf(b, KeyOf, KeyOf(last));
      Partners(a[..|a| - 1], b, p) + if found.Some? && p(last, found.value) then 1 else 0
  }

  function Criticals(a: seq<Item>): nat {
    if a == [] then 0 else Criticals(a[..|a| - 1]) + if Critical(a[|a| - 1]) then 1 else 0
  }

  /** Critical rows of `a` whose key is not in `b`. */
  function CriticalOnlyIn(a: seq<Item>, b: seq<Item>): nat {
    if a == [] then 0
    else
      var last := a[|a| - 1];
      CriticalOnlyIn(a[..|a| - 1], b) + if Critical(last) && LastOf(b, KeyOf, KeyOf(last)).None? then 1 else 0
  }

  function Became(): (Item, Item) -> bool {
    (x: Item, y: Item) => Critical(x) && !Critical(y)
  }

  function Ceased(): (Item, Item) -> bool {
    (x: Item, y: Item) => !Critical(x) && Critical(y)
  }

  function Stayed(): (Item, Item) -> bool {
    (x: Item, y: Item) => Critical(x) && Critical(y)
  }

  lemma {:induction false} CriticalsSplit(a: seq<Item>, b: seq<Item>)
    ensures Criticals(a) == Partners(a, b, Became()) + Partners(a, b, Stayed()) + CriticalOnlyIn(a, b)
  {
    if a != [] {
      CriticalsSplit(a[..|a| - 1], b);
    }
  }

  function Keys(a: seq<Item>): set<Key> {
    set i | 0 <= i < |a| :: KeyOf(a[i])
  }

  /** The keys that both have, with rows that stand to each other as `p` says. */
  function PartnerKeys(a: seq<Item>, b: seq<Item>, p: (Item, Item) -> bool): set<Key> {
    set k | k in Keys(a) && LastOf(a, KeyOf, k).Some? && LastOf(b, KeyOf, k).Some? && p(LastOf(a, KeyOf, k).value, LastOf(b, KeyOf, k).value)
  }

  lemma FindsKeys(a: seq<Item>, k: Key)
    ensures LastOf(a, KeyOf, k).Some? <==> k in Keys(a)
    ensures LastOf(a, KeyOf, k).Some? ==> KeyOf(LastOf(a, KeyOf, k).value) == k
  {
    if a != [] {
      FindsKeys(a[..|a| - 1], k);
      assert forall i :: 0 <= i < |a| - 1 ==> a[..|a| - 1][i] == a[i];
    }
  }

  lemma {:induction false} PartnersCounted(a: seq<Item>, b: seq<Item>, p: (Item, Item) -> bool)
    requires UniqueKeys(a, KeyOf)
    ensures Partners(a, b, p) == |PartnerKeys(a, b, p)|
  {
    if a != [] {
      var init, last := a[..|a| - 1], a[|a| - 1];
      PartnersCounted(init, b, p);
      NewKey(init, last, a);
      PartnerKeysNext(a, b, p);
    }
  }

  lemma NewKey(init: seq<Item>, last: Item, a: seq<Item>)
    requires a == init + [last] && UniqueKeys(a, KeyOf)
    ensures KeyOf(last) !in Keys(init)
  {
    assert forall i :: 0 <= i < |init| ==> KeyOf(init[i]) == KeyOf(a[i]) && KeyOf(a[i]) != KeyOf(a[|init|]);
  }

  lemma PartnerKeysNext(a: seq<Item>, b: seq<Item>, p: (Item, Item) -> bool)
    requires a != [] && KeyOf(a[|a| - 1]) !in Keys(a[..|a| - 1])
    ensures var last := a[|a| - 1]; var found := LastOf(b, KeyOf, KeyOf(last));
      && KeyOf(last) !in PartnerKeys(a[..|a| - 1], b, p)
      && PartnerKeys(a, b, p) == PartnerKeys(a[..|a| - 1], b, p)
        + if found.Some? && p(last, found.value) then {KeyOf(last)} else {}
  {
    var init, last := a[..|a| - 1], a[|a| - 1];
    KeysNext(a);
    hide Keys;
    assert forall k :: k != KeyOf(last) ==> LastOf(a, KeyOf, k) == LastOf(init, KeyOf, k);
    assert LastOf(a, KeyOf, KeyOf(last)) == Some(last);
  }

  lemma KeysNext(a: seq<Item>)
    requires a != []
    ensures Keys(a) == Keys(a[..|a| - 1]) + {KeyOf(a[|a| - 1])}
  {
    var init, last := a[..|a| - 1], a[|a| - 1];
    forall k
      ensures k in Keys(a) <==> k in Keys(init) || k == KeyOf(last)
    {
      if k in Keys(init) {
        var i :| 0 <= i < |init| && KeyOf(init[i]) == k;
        assert KeyOf(a[i]) == k;
      }
      if k == KeyOf(last) {
        assert KeyOf(a[|a| - 1]) == k;
      }
    }
  }

  /** Counting partners from either side gives the same number. */
  lemma PartnersFromBothSides(a: seq<Item>, b: seq<Item>, p: (Item, Item) -> bool, q: (Item, Item) -> bool)
    requires UniqueKeys(a, KeyOf) && UniqueKeys(b, KeyOf)
    requires forall x, y :: p(x, y) == q(y, x)
    ensures Partners(a, b, p) == Partners(b, a, q)
  {
    hide LastOf, Keys, Partners;
    PartnersCounted(a, b, p);
    PartnersCounted(b, a, q);
    forall k
      ensures k in PartnerKeys(a, b, p) <==> k in PartnerKeys(b, a, q)
    {
      FindsKeys(a, k);
      FindsKeys(b, k);
    }
    assert PartnerKeys(a, b, p) == PartnerKeys(b, a, q);
  }

  /** When each summary counts its snapshot, the change of the critical total is explained by the companies that
      became critical, ceased to be, came critical, or left critical. */
  lemma CriticalConservation(current: seq<Item>, previous: seq<Item>)
    requires UniqueKeys(current, KeyOf) && UniqueKeys(previous, KeyOf)
    ensures Criticals(current) - Criticals(previous) ==
      Partners(current, previous, Became()) - Partners(current, previous, Ceased())
      + CriticalOnlyIn(current, previous) - CriticalOnlyIn(previous, current)
  {
    hide Partners, Criticals, CriticalOnlyIn, UniqueKeys;
    CriticalsSplit(current, previous);
    CriticalsSplit(previous, current);
    PartnersFromBothSides(current, previous, Stayed(), Stayed());
    PartnersFromBothSides(current, previous, Ceased(), Became());
  }

  lemma {:induction false} NoneOnlyIn(a: seq<Item>, b: seq<Item>)
    requires Keys(a) <= Keys(b)
    ensures CriticalOnlyIn(a, b) == 0
  {
    if a != [] {
      KeysNext(a);
      NoneOnlyIn(a[..|a| - 1], b);
      FindsKeys(b, KeyOf(a[|a| - 1]));
    }
  }

  /** With the same companies in both, the change is exactly new minus resolved; no company is both. */
  lemma SameCompanies(current: seq<Item>, previous: seq<Item>)
    requires UniqueKeys(current, KeyOf) && UniqueKeys(previous, KeyOf) && Keys(current) == Keys(previous)
    ensures Criticals(current) - Criticals(previous) ==
      Partners(current, previous, Became()) - Partners(current, previous, Ceased())
    ensures PartnerKeys(current, previous, Became()) !! PartnerKeys(current, previous, Ceased())
  {
    hide Partners, Criticals, CriticalOnlyIn, UniqueKeys, Keys, LastOf;
    CriticalConservation(current, previous);
    NoneOnlyIn(current, previous);
    NoneOnlyIn(previous, current);
  }

  // ----- The change of one company ------------------------------------------------------

  /** The differences between two rows of one company. */
  datatype Shift = Shift(ranks: int, score: int, cases: int, detections: int, locks: int,
                         forecastBefore: real, forecast: real)

  datatype Kind = Unchanged | SeverityUp | SeverityDown | CasesUp | LocksUp | ForecastDrop | ForecastGrowth | DetectionsUp

  datatype Change = Change(kind: Kind, significance: real)

  function SeverityRank(value: string): (rank: int)
    ensures 0 <= rank <= 4
  {
    var v := Lower(value);
    if v == "low" then 1 else if v == "medium" then 2 else if v == "high" then 3 else if v == "critical" then 4 else 0
  }

  function Abs(x: real): real {
    if x < 0.0 then -x else x
  }

  function AtLeast0(x: int): nat {
    if x < 0 then 0 else x
  }

  function Max(x: real, y: real): real {
    if x < y then y else x
  }

  /** Rounding to the nearest whole number, halves to the even one. */
  function RoundEven(x: real): int {
    var f := x.Floor;
    if x - f as real < 0.5 then f
    else if x - f as real > 0.5 then f + 1
    else if f % 2 == 0 then f else f + 1
  }

  function Round2(x: real): real {
    RoundEven(x * 100.0) as real / 100.0
  }

  lemma RoundingError(x: real)
    ensures Abs(Round2(x) - x) <= 0.005
  {
    var y := x * 100.0;
    assert Abs(RoundEven(y) as real - y) <= 0.5;
  }

  function ShiftOf(before: Item, after: Item): Shift {
    Shift(SeverityRank(after.severity) - SeverityRank(before.severity), after.score - before.score,
      after.cases - before.cases, after.detections - before.detections, after.locks - before.locks,
      before.forecast, Round2(after.forecast - before.forecast))
  }

  /** How far the forecast moved, in percent of what it was. */
  function Percent(moved: real, before: real): real {
    Abs(moved) / Max(Abs(before), 1.0) * 100.0
  }

  function ForecastPercent(s: Shift): real {
    Percent(s.forecast, s.forecastBefore)
  }

  function AfterSeverity(s: Shift): Change {
    if s.ranks > 0 then Change(SeverityUp, (s.ranks * 50 + AtLeast0(s.score)) as real)
    else if s.ranks < 0 then Change(SeverityDown, (-s.ranks * 40) as real + Abs(s.score as real))
    else Change(Unchanged, 0.0)
  }

  function AfterCases(c: Change, s: Shift): Change {
    if s.cases > 0 && (s.cases * 6) as real > c.significance then
      Change(CasesUp, (s.cases * 6 + AtLeast0(s.score)) as real)
    else c
  }

  function AfterLocks(c: Change, s: Shift): Change {
    if s.locks > 0 && (s.locks * 8) as real > c.significance then
      Change(LocksUp, (s.locks * 8 + AtLeast0(s.score)) as real)
    else c
  }

  function AfterForecast(c: Change, s: Shift): Change {
    if s.forecast < 0.0 && ForecastPercent(s) > c.significance then Change(ForecastDrop, ForecastPercent(s))
    else if s.forecast > 0.0 && ForecastPercent(s) > c.significance && c.kind == Unchanged then
      Change(ForecastGrowth, ForecastPercent(s))
    else c
  }

  function AfterDetections(c: Change, s: Shift): Change {
    if s.detections > 0 && (s.detections * 4) as real > c.significance then Change(DetectionsUp, (s.detections * 4) as real)
    else c
  }

  function ChangeOf(s: Shift): Change {
    AfterDetections(AfterForecast(AfterLocks(AfterCases(AfterSeverity(s), s), s), s), s)
  }

  /** The cascade of the loop body, as assignments to the change type and its significance. */
  method Classify(before: Item, after: Item) returns (change: Change)
    ensures change == ChangeOf(ShiftOf(before, after))
  {
    hide Round2, SeverityRank, Percent;
    ghost var s := ShiftOf(before, after);
    var ranks := SeverityRank(after.severity) - SeverityRank(before.severity);
    var score, cases := after.score - before.score, after.cases - before.cases;
    var detections, locks := after.detections - before.detections, after.locks - before.locks;
    var forecast := Round2(after.forecast - before.forecast);
    var kind, significance := Unchanged, 0.0;
    if ranks > 0 {
      kind := SeverityUp;
      significance := Max(significance, (ranks * 50 + AtLeast0(score)) as real);
    } else if ranks < 0 {
      kind := SeverityDown;
      significance := Max(significance, (-ranks * 40) as real + Abs(score as real));
    }
    assert Change(kind, significance) == AfterSeverity(s);
    hide AfterSeverity;
    if cases > 0 && (cases * 6) as real > significance {
      kind, significance := CasesUp, (cases * 6 + AtLeast0(score)) as real;
    }
    assert Change(kind, significance) == AfterCases(AfterSeverity(s), s);
    hide AfterCases;
    if locks > 0 && (locks * 8) as real > significance {
      kind, significance := LocksUp, (locks * 8 + AtLeast0(score)) as real;
    }
    assert Change(kind, significance) == AfterLocks(AfterCases(AfterSeverity(s), s), s);
    hide AfterLocks;
    if forecast < 0.0 {
      if Percent(forecast, before.forecast) > significance {
        kind, significance := ForecastDrop, Percent(forecast, before.forecast);
      }
    } else if forecast > 0.0 {
      if Percent(forecast, before.forecast) > significance && kind == Unchanged {
        kind, significance := ForecastGrowth, Percent(forecast, before.forecast);
      }
    }
    assert Change(kind, significance) == AfterForecast(AfterLocks(AfterCases(AfterSeverity(s), s), s), s);
    hide AfterForecast;
    if detections > 0 && (detections * 4) as real > significance {
      kind, significance := DetectionsUp, (detections * 4) as real;
    }
    change := Change(kind, significance);
  }

  function SeverityTerm(s: Shift): int {
    if s.ranks > 0 then 50 * s.ranks else -40 * s.ranks
  }

  function DropTerm(s: Shift): real {
    if s.forecast < 0.0 then ForecastPercent(s) else 0.0
  }

  /** The largest of the terms that compete for the change. */
  function LargestTerm(s: Shift): real {
    Max(Max(SeverityTerm(s) as real, Max((AtLeast0(s.cases) * 6) as real, (AtLeast0(s.locks) * 8) as real)),
      Max(DropTerm(s), (AtLeast0(s.detections) * 4) as real))
  }

  lemma PercentPositive(s: Shift)
    ensures ForecastPercent(s) >= 0.0
    ensures s.forecast != 0.0 ==> ForecastPercent(s) > 0.0
  {
    var d := Max(Abs(s.forecastBefore), 1.0);
    if s.forecast != 0.0 {
      Quotient(Abs(s.forecast), d);
    }
  }

  lemma Quotient(x: real, d: real)
    requires x > 0.0 && d > 0.0
    ensures x / d > 0.0
  {
    assert x / d * d == x;
    if x / d <= 0.0 {
      NotPositive(x / d, d);
    }
  }

  lemma NotPositive(x: real, d: real)
    requires x <= 0.0 && d > 0.0
    ensures x * d <= 0.0
  {
  }

  /** The terms that compete, as far as the stages up to one have looked at them. */
  function SoFar(s: Shift, stage: nat): real {
    var severity := SeverityTerm(s) as real;
    var cases := if stage < 1 then severity else Max(severity, (AtLeast0(s.cases) * 6) as real);
    var locks := if stage < 2 then cases else Max(cases, (AtLeast0(s.locks) * 8) as real);
    var drop := if stage < 3 then locks else Max(locks, DropTerm(s));
    if stage < 4 then drop else Max(drop, (AtLeast0(s.detections) * 4) as real)
  }

  /** A significance between the largest term and the score bonus above it; or that of a forecast that grew
      while nothing else moved. */
  predicate Between(c: Change, s: Shift, stage: nat) {
    && c.significance >= SoFar(s, stage)
    && (c.kind != ForecastGrowth ==> c.significance <= SoFar(s, stage) + Abs(s.score as real))
    && (c.kind == ForecastGrowth ==>
      s.ranks == 0 && s.cases <= 0 && s.locks <= 0 && c.significance == ForecastPercent(s))
    && (c.kind == Unchanged ==> c.significance == 0.0 && s.ranks == 0)
    && (c.kind == Unchanged && stage >= 2 ==> s.cases <= 0 && s.locks <= 0)
  }

  lemma EarlyStages(s: Shift)
    ensures Between(AfterLocks(AfterCases(AfterSeverity(s), s), s), s, 2)
  {
    hide ForecastPercent, DropTerm;
    assert Between(AfterSeverity(s), s, 0);
    assert Between(AfterCases(AfterSeverity(s), s), s, 1);
  }

  lemma LateStages(c: Change, s: Shift)
    requires Between(c, s, 2) && c.kind != ForecastGrowth
    ensures Between(AfterDetections(AfterForecast(c, s), s), s, 4)
  {
    hide ForecastPercent;
    PercentPositive(s);
    assert Between(AfterForecast(c, s), s, 3);
  }

  /** The reported significance is at least every competing term, and exceeds the largest by no more than the
      score moved, unless it is the growth of a forecast that nothing else competes with. */
  lemma SignificanceDominates(s: Shift)
    ensures ChangeOf(s).significance >= LargestTerm(s)
    ensures ChangeOf(s).kind != ForecastGrowth ==> ChangeOf(s).significance <= LargestTerm(s) + Abs(s.score as real)
    ensures ChangeOf(s).kind == ForecastGrowth ==>
      s.ranks == 0 && s.cases <= 0 && s.locks <= 0 && ChangeOf(s).significance == ForecastPercent(s)
  {
    hide ForecastPercent, AfterDetections, AfterForecast, DropTerm, SeverityTerm;
    EarlyStages(s);
    NoGrowthYet(s);
    LateStages(AfterLocks(AfterCases(AfterSeverity(s), s), s), s);
  }

  lemma NoGrowthYet(s: Shift)
    ensures AfterLocks(AfterCases(AfterSeverity(s), s), s).kind != ForecastGrowth
  {
  }

  /** Nothing is reported exactly when the severity rank is the same, nothing was added, and the rounded
      forecast did not move. */
  lemma UnreportedIff(s: Shift)
    ensures ChangeOf(s).kind == Unchanged <==>
      s.ranks == 0 && s.cases <= 0 && s.locks <= 0 && s.detections <= 0 && s.forecast == 0.0
  {
    hide ForecastPercent;
    PercentPositive(s);
  }

  /** A forecast moves, as the brief sees it, when it moves by more than half a hundredth. */
  lemma ForecastMovesIff(before: Item, after: Item)
    ensures ShiftOf(before, after).forecast == 0.0 <==> Abs(after.forecast - before.forecast) <= 0.005
  {
    hide SeverityRank;
    var x := (after.forecast - before.forecast) * 100.0;
    assert RoundEven(x) == 0 <==> Abs(x) <= 0.5;
  }

  /** The same shift with another number of new cases. */
  function WithCases(s: Shift, cases: int): Shift {
    s.(cases := cases)
  }

  /** The significance that locks compete with. */
  function BeforeLocks(s: Shift): real {
    AfterCases(AfterSeverity(s), s).significance
  }

  /** With the fewer cases the locks won, and got the score bonus on top; with the more cases the locks no longer
      win, what wins instead stays below that, and nothing later makes up for it. */
  predicate CasesBeatLocks(s: Shift, cases: int) {
    var many, locks, bonus := WithCases(s, cases), (s.locks * 8) as real, AtLeast0(s.score) as real;
    && s.locks > 0 && BeforeLocks(s) < locks <= BeforeLocks(many) < locks + bonus
    && locks + bonus > Max(DropTerm(s), (AtLeast0(s.detections) * 4) as real)
  }

  /** Without cases the forecast's growth was reported, which only counts when nothing else changed; the first new
      case is reported instead, and weighs less. */
  predicate CasesHideGrowth(s: Shift, cases: int) {
    && s.ranks == 0 && s.cases <= 0 < cases && s.locks <= 0 && s.forecast > 0.0
    && ForecastPercent(s) > Max((cases * 6 + AtLeast0(s.score)) as real, (AtLeast0(s.detections) * 4) as real)
  }

  /** Significance is not monotone in the new cases: more of them lower it exactly when they take the report from
      locks that had the score bonus, or from the growth of the forecast. */
  lemma MoreCasesLessSignificanceIff(s: Shift, cases: int)
    requires cases >= s.cases
    ensures ChangeOf(WithCases(s, cases)).significance < ChangeOf(s).significance <==>
      CasesBeatLocks(s, cases) || CasesHideGrowth(s, cases)
  {
    hide Percent;
    PercentPositive(s);
    var many := WithCases(s, cases);
    assert AfterSeverity(many) == AfterSeverity(s) && ForecastPercent(many) == ForecastPercent(s);
  }

  /** Both happen: ten cases beside eight locks weigh less than eight cases do, and one case beside a fivefold
      forecast takes the priority from the critical tier to the low one. */
  lemma MoreCasesLessSignificance()
    ensures var few := Shift(0, 10, 8, 0, 8, 0.0, 0.0);
      ChangeOf(WithCases(few, 10)).significance < ChangeOf(few).significance
    ensures CasesBeatLocks(Shift(0, 10, 8, 0, 8, 0.0, 0.0), 10)
    ensures CasesHideGrowth(Shift(0, 0, 0, 0, 0, 100.0, 500.0), 1)
    ensures var grown := Shift(0, 0, 0, 0, 0, 100.0, 500.0);
      && TierOf(PriorityScore(grown)) == CriticalTier
      && TierOf(PriorityScore(WithCases(grown, 1))) == LowTier
  {
    GrownForecast();
    hide PriorityScore;
  }

  lemma GrownForecast()
    ensures var grown := Shift(0, 0, 0, 0, 0, 100.0, 500.0);
      PriorityScore(grown) == 500.0 && PriorityScore(WithCases(grown, 1)) == 14.0
  {
    var grown := Shift(0, 0, 0, 0, 0, 100.0, 500.0);
    assert ForecastPercent(grown) == 500.0;
    assert ChangeOf(grown) == Change(ForecastGrowth, 500.0);
    assert ChangeOf(WithCases(grown, 1)) == Change(CasesUp, 6.0);
    hide ChangeOf;
    assert Round2(500.0) == 500.0 && Round2(6.0) == 6.0 && Round2(14.0) == 14.0;
  }

  // ----- Priority -----------------------------------------------------------------------

  datatype Tier = LowTier | MediumTier | HighTier | CriticalTier

  function UpRanks(s: Shift): nat {
    AtLeast0(s.ranks)
  }

  /** The drop of the forecast as the ranking sees it: in percent of the rounded forecast of before. */
  function RankedDrop(s: Shift): real {
    if s.forecast < 0.0 then Percent(s.forecast, Round2(s.forecastBefore)) else 0.0
  }

  /** The weighted sum that orders the reported changes. */
  function PriorityScore(s: Shift): real {
    Round2(Round2(ChangeOf(s).significance) + (UpRanks(s) * 24 + AtLeast0(s.cases) * 8 + AtLeast0(s.detections) * 5
      + AtLeast0(s.locks) * 10) as real + AtLeast0(s.score) as real * 0.8 + RankedDrop(s) * 0.6)
  }

  function TierOf(score: real): Tier {
    if score >= 140.0 then CriticalTier else if score >= 85.0 then HighTier else if score >= 40.0 then MediumTier else LowTier
  }

  lemma RoundEvenMonotone(x: real, y: real)
    requires x <= y
    ensures RoundEven(x) <= RoundEven(y)
  {
    assert x.Floor <= y.Floor;
  }

  lemma Round2KeepsBounds(x: real, n: int)
    requires x >= n as real
    ensures Round2(x) >= n as real
  {
    RoundEvenMonotone((100 * n) as real, x * 100.0);
    assert RoundEven((100 * n) as real) == 100 * n;
  }

  /** Each whole unit of growth counts twice: in the significance and again in the priority. A rise by two
      ranks, ten new cases, eight new locks or sixteen new detections alone reach the critical tier. */
  lemma PriorityIsAtLeast(s: Shift)
    ensures PriorityScore(s) >= (74 * UpRanks(s)) as real
    ensures PriorityScore(s) >= (14 * AtLeast0(s.cases)) as real
    ensures PriorityScore(s) >= (18 * AtLeast0(s.locks)) as real
    ensures PriorityScore(s) >= (9 * AtLeast0(s.detections)) as real
    ensures UpRanks(s) >= 2 || s.cases >= 10 || s.locks >= 8 || s.detections >= 16 ==>
      TierOf(PriorityScore(s)) == CriticalTier
  {
    hide ChangeOf, ForecastPercent, Round2, RankedDrop;
    SignificanceTerms(s);
    var sig := ChangeOf(s).significance;
    Round2KeepsBounds(sig, 50 * UpRanks(s));
    Round2KeepsBounds(sig, 6 * AtLeast0(s.cases));
    Round2KeepsBounds(sig, 8 * AtLeast0(s.locks));
    Round2KeepsBounds(sig, 4 * AtLeast0(s.detections));
    var sum := Round2(sig) + (UpRanks(s) * 24 + AtLeast0(s.cases) * 8 + AtLeast0(s.detections) * 5
      + AtLeast0(s.locks) * 10) as real + AtLeast0(s.score) as real * 0.8 + RankedDrop(s) * 0.6;
    Round2KeepsBounds(sum, 74 * UpRanks(s));
    Round2KeepsBounds(sum, 14 * AtLeast0(s.cases));
    Round2KeepsBounds(sum, 18 * AtLeast0(s.locks));
    Round2KeepsBounds(sum, 9 * AtLeast0(s.detections));
  }

  lemma RankedDropPositive(s: Shift)
    ensures RankedDrop(s) >= 0.0
  {
    hide Round2;
    PercentPositive(s.(forecastBefore := Round2(s.forecastBefore)));
  }

  lemma SignificanceTerms(s: Shift)
    ensures var sig := ChangeOf(s).significance;
      && sig >= (50 * UpRanks(s)) as real && sig >= (6 * AtLeast0(s.cases)) as real
      && sig >= (8 * AtLeast0(s.locks)) as real && sig >= (4 * AtLeast0(s.detections)) as real
      && RankedDrop(s) >= 0.0
  {
    hide ChangeOf, ForecastPercent, Round2;
    SignificanceDominates(s);
    PercentPositive(s);
    RankedDropPositive(s);
  }

  // ----- The whole delta ----------------------------------------------------------------

  datatype Reported = Reported(key: Key, change: Change, priority: real, tier: Tier)

  datatype Delta = Delta(newCritical: seq<string>, resolvedCritical: seq<string>, changes: seq<Reported>)

  /** The name a company is listed under. */
  function Shown(item: Item): string {
    if item.counterparty == "" then "-" else item.counterparty
  }

  /** What the rows of the current snapshot contribute, in their order. */
  function NamesOf(current: seq<Item>, previous: seq<Item>, p: (Item, Item) -> bool): (names: seq<string>)
    ensures |names| == Partners(current, previous, p)
  {
    if current == [] then []
    else
      var last := current[|current| - 1];
      var found := LastOf(previous, KeyOf, KeyOf(last));
      NamesOf(current[..|current| - 1], previous, p)
      + if found.Some? && p(last, found.value) then [Shown(last)] else []
  }

  function Report(key: Key, s: Shift): Reported {
    Reported(key, ChangeOf(s), PriorityScore(s), TierOf(PriorityScore(s)))
  }

  function ChangesOf(current: seq<Item>, previous: seq<Item>): seq<Reported> {
    if current == [] then []
    else
      var last := current[|current| - 1];
      var found := LastOf(previous, KeyOf, KeyOf(last));
      ChangesOf(current[..|current| - 1], previous)
      + if found.Some? && ChangeOf(ShiftOf(found.value, last)).kind != Unchanged
        then [Report(KeyOf(last), ShiftOf(found.value, last))] else []
  }

  method ComputeDelta(current: seq<Item>, previous: seq<Item>) returns (delta: Delta)
    ensures delta.newCritical == NamesOf(Dictionary(current, KeyOf), previous, Became())
    ensures delta.resolvedCritical == NamesOf(Dictionary(current, KeyOf), previous, Ceased())
    ensures delta.changes == ChangesOf(Dictionary(current, KeyOf), previous)
  {
    hide LastOf, ChangeOf, ShiftOf, Report, NamesOf, ChangesOf, Dictionary, KeyOf, Critical;
    var items := Build(current, KeyOf);
    var newCritical, resolved, changes := [], [], [];
    NothingReported(previous);
    assert items[..0] == [];
    for i := 0 to |items|
      invariant newCritical == NamesOf(items[..i], previous, Became())
      invariant resolved == NamesOf(items[..i], previous, Ceased())
      invariant changes == ChangesOf(items[..i], previous)
    {
      NextReported(items, previous, i);
      var item := items[i];
      var found := LastOf(previous, KeyOf, KeyOf(item));
      if found.Some? {
        if Critical(item) && !Critical(found.value) {
          newCritical := newCritical + [Shown(item)];
        }
        if Critical(found.value) && !Critical(item) {
          resolved := resolved + [Shown(item)];
        }
        var change := Classify(found.value, item);
        if change.kind != Unchanged {
          changes := changes + [Report(KeyOf(item), ShiftOf(found.value, item))];
        }
      }
    }
    assert items[..|items|] == items;
    delta := Delta(newCritical, resolved, changes);
  }

  lemma NothingReported(previous: seq<Item>)
    ensures NamesOf([], previous, Became()) == NamesOf([], previous, Ceased()) == [] && ChangesOf([], previous) == []
  {
  }

  lemma NextReported(items: seq<Item>, previous: seq<Item>, i: nat)
    requires i < |items|
    ensures var item := items[i]; var found := LastOf(previous, KeyOf, KeyOf(item));
      && NamesOf(items[..i + 1], previous, Became()) == NamesOf(items[..i], previous, Became())
        + (if found.Some? && Critical(item) && !Critical(found.value) then [Shown(item)] else [])
      && NamesOf(items[..i + 1], previous, Ceased()) == NamesOf(items[..i], previous, Ceased())
        + (if found.Some? && Critical(found.value) && !Critical(item) then [Shown(item)] else [])
      && ChangesOf(items[..i + 1], previous) == ChangesOf(items[..i], previous)
        + (if found.Some? && ChangeOf(ShiftOf(found.value, item)).kind != Unchanged
           then [Report(KeyOf(item), ShiftOf(found.value, item))] else [])
  {
    hide LastOf, ChangeOf, ShiftOf, Report, KeyOf, Critical;
    assert items[..i + 1][..i] == items[..i];
  }

  /** The reported lists of new and resolved critical companies explain the change of the critical total, up to
      the critical companies that are in one snapshot only. */
  lemma DeltaExplainsCriticals(current: seq<Item>, previous: seq<Item>)
    requires UniqueKeys(current, KeyOf) && UniqueKeys(previous, KeyOf)
    ensures Criticals(current) - Criticals(previous) ==
      |NamesOf(Dictionary(current, KeyOf), previous, Became())| - |NamesOf(Dictionary(current, KeyOf), previous, Ceased())|
      + CriticalOnlyIn(current, previous) - CriticalOnlyIn(previous, current)
  {
    hide Partners, Criticals, CriticalOnlyIn, UniqueKeys, Dictionary, NamesOf;
    DictionaryOfUnique(current, KeyOf);
    CriticalConservation(current, previous);
  }
}
