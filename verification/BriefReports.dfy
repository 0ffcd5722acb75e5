/** What a manager brief reports, said of the two snapshots themselves: which companies, which kind of change, and how
    significant it is. */
module BriefReports {
  import opened BriefDelta
  import opened Dictionaries
  import opened Options
  import opened Text

  // ----- One company --------------------------------------------------------------------

  /** Severities in ascending order; a text that is none of them counts as the lowest. Case does not matter. */
  lemma SeverityOrder(value: string)
    ensures SeverityRank("none") < SeverityRank("low") < SeverityRank("medium") < SeverityRank("high") < SeverityRank("critical")
    ensures SeverityRank(value) == SeverityRank(Lower(value))
    ensures Lower(value) !in {"low", "medium", "high", "critical"} ==> SeverityRank(value) == SeverityRank("none")
  {
    assert forall v :: Lower(Lower(v)) == Lower(v);
    assert Lower("none") == "none" && Lower("low") == "low" && Lower("medium") == "medium";
    assert Lower("high") == "high" && Lower("critical") == "critical";
  }

  /** Rows are of one company when their infobases and entity keys agree, or, without entity keys, the names that stand
      in for these. */
  lemma SameCompanyIff(x: Item, y: Item)
    ensures x.entityKey != "" && y.entityKey != "" ==>
      (KeyOf(x) == KeyOf(y) <==> x.infobase == y.infobase && x.entityKey == y.entityKey)
    ensures x.entityKey == "" == y.entityKey ==>
      (KeyOf(x) == KeyOf(y) <==> x.infobase == y.infobase && x.counterparty == y.counterparty)
  {
  }

  function ChangeBetween(before: Item, after: Item): Change {
    ChangeOf(ShiftOf(before, after))
  }

  lemma RoundedSign(x: real)
    ensures Round2(x) > 0.0 ==> x > 0.0
    ensures Round2(x) < 0.0 ==> x < 0.0
  {
    if x <= 0.0 {
      RoundEvenMonotone(x * 100.0, 0.0);
    }
    if x >= 0.0 {
      RoundEvenMonotone(0.0, x * 100.0);
    }
  }

  /** The significance that a change of each kind has, from the two rows of the company. */
  function Weight(kind: Kind, before: Item, after: Item): real {
    var ranks := SeverityRank(after.severity) - SeverityRank(before.severity);
    var score := after.score - before.score;
    var bonus := if score > 0 then score else 0;
    match kind
    case Unchanged => 0.0
    case SeverityUp => (50 * ranks + bonus) as real
    case SeverityDown => (-40 * ranks + if score < 0 then -score else score) as real
    case CasesUp => (6 * (after.cases - before.cases) + bonus) as real
    case LocksUp => (8 * (after.locks - before.locks) + bonus) as real
    case DetectionsUp => (4 * (after.detections - before.detections)) as real
    case _ => Share(Round2(after.forecast - before.forecast), before.forecast)
  }

  /** How much `moved` is in percent of a forecast; a forecast below one counts as one. */
  function Share(moved: real, forecast: real): real {
    var size := if forecast < 0.0 then -forecast else forecast;
    (if moved < 0.0 then -moved else moved) / (if size < 1.0 then 1.0 else size) * 100.0
  }

  lemma ShareIsPercent(moved: real, forecast: real)
    ensures Share(moved, forecast) == Percent(moved, forecast)
  {
  }

  /** What the kind of a change means: that the company moved that way between the two rows. */
  predicate Moved(kind: Kind, before: Item, after: Item) {
    match kind
    case Unchanged => true
    case SeverityUp => SeverityRank(after.severity) > SeverityRank(before.severity)
    case SeverityDown => SeverityRank(after.severity) < SeverityRank(before.severity)
    case CasesUp => after.cases > before.cases
    case LocksUp => after.locks > before.locks
    case DetectionsUp => after.detections > before.detections
    case ForecastDrop => after.forecast < before.forecast
    case ForecastGrowth => after.forecast > before.forecast
  }

  /** A change is reported only as something that happened, with the significance of that, and this is no less than
      six per new case, eight per new lock, four per new detection, fifty per rank up, forty per rank down and the
      percentage of a drop of the forecast. */
  lemma ReportedIsTrue(before: Item, after: Item)
    ensures var c := ChangeBetween(before, after);
      && Moved(c.kind, before, after)
      && c.significance == Weight(c.kind, before, after)
      && c.significance >= (6 * (after.cases - before.cases)) as real
      && c.significance >= (8 * (after.locks - before.locks)) as real
      && c.significance >= (4 * (after.detections - before.detections)) as real
      && c.significance >= (50 * (SeverityRank(after.severity) - SeverityRank(before.severity))) as real
      && c.significance >= (40 * (SeverityRank(before.severity) - SeverityRank(after.severity))) as real
      && (Round2(after.forecast - before.forecast) < 0.0 ==> c.significance >= Weight(ForecastDrop, before, after))
  {
    hide Round2, Percent, Share, SeverityRank;
    var s := ShiftOf(before, after);
    ShareIsPercent(s.forecast, before.forecast);
    SignificanceDominates(s);
    RoundedSign(after.forecast - before.forecast);
    ReportedWeight(before, after);
  }

  lemma ReportedWeight(before: Item, after: Item)
    ensures var c := ChangeBetween(before, after);
      c.significance == Weight(c.kind, before, after)
    ensures ChangeBetween(before, after).kind.ForecastDrop? ==> Round2(after.forecast - before.forecast) < 0.0
    ensures ChangeBetween(before, after).kind.ForecastGrowth? ==> Round2(after.forecast - before.forecast) > 0.0
    ensures var kind := ChangeBetween(before, after).kind;
      !kind.ForecastDrop? && !kind.ForecastGrowth? ==> Moved(kind, before, after)
  {
    hide Round2, Percent, Share, SeverityRank;
    ShareIsPercent(Round2(after.forecast - before.forecast), before.forecast);
  }

  /** Nothing is reported exactly when the severity rank stayed, nothing was added, and the forecast moved by no more
      than half a hundredth. */
  lemma UnreportedCompanyIff(before: Item, after: Item)
    ensures ChangeBetween(before, after).kind == Unchanged <==>
      && SeverityRank(after.severity) == SeverityRank(before.severity)
      && after.cases <= before.cases && after.locks <= before.locks && after.detections <= before.detections
      && Abs(after.forecast - before.forecast) <= 0.005
  {
    hide Round2, Percent, SeverityRank, ChangeOf;
    UnreportedIff(ShiftOf(before, after));
    ForecastMovesIff(before, after);
  }

  /** What adds up to the priority of a change, before rounding: its significance; what went up, by its weight; and a
      drop of the forecast, as a percentage of the rounded forecast of before. */
  function PriorityParts(before: Item, after: Item): real {
    var ranks := SeverityRank(after.severity) - SeverityRank(before.severity);
    var drop := if Round2(after.forecast - before.forecast) < 0.0
      then Share(Round2(after.forecast - before.forecast), Round2(before.forecast)) else 0.0;
    ChangeBetween(before, after).significance
    + (24 * AtLeast0(ranks) + 8 * AtLeast0(after.cases - before.cases)
      + 5 * AtLeast0(after.detections - before.detections) + 10 * AtLeast0(after.locks - before.locks)) as real
    + 0.8 * AtLeast0(after.score - before.score) as real + 0.6 * drop
  }

  /** The same sum with the significance rounded, as the ranking finds it. */
  function RankedSum(s: Shift): real {
    Round2(ChangeOf(s).significance) + (UpRanks(s) * 24 + AtLeast0(s.cases) * 8 + AtLeast0(s.detections) * 5
      + AtLeast0(s.locks) * 10) as real + AtLeast0(s.score) as real * 0.8 + RankedDrop(s) * 0.6
  }

  lemma RankedSumIsParts(before: Item, after: Item)
    ensures var s := ShiftOf(before, after);
      RankedSum(s) - Round2(ChangeOf(s).significance) + ChangeOf(s).significance == PriorityParts(before, after)
    ensures PriorityScore(ShiftOf(before, after)) == Round2(RankedSum(ShiftOf(before, after)))
  {
    hide Round2, Percent, Share, SeverityRank, ChangeOf, AtLeast0;
    ShareIsPercent(Round2(after.forecast - before.forecast), Round2(before.forecast));
  }

  /** The priority is that sum, but for two roundings, and the tiers begin at 40, 85 and 140. */
  lemma PriorityIsSum(before: Item, after: Item)
    ensures var priority := PriorityScore(ShiftOf(before, after));
      && Abs(priority - PriorityParts(before, after)) <= 0.01
      && (TierOf(priority) == CriticalTier <==> priority >= 140.0)
      && (TierOf(priority) == HighTier <==> 85.0 <= priority < 140.0)
      && (TierOf(priority) == MediumTier <==> 40.0 <= priority < 85.0)
      && (TierOf(priority) == LowTier <==> priority < 40.0)
  {
    hide Round2, ChangeOf, RankedSum, PriorityParts, PriorityScore, ShiftOf;
    var s := ShiftOf(before, after);
    RoundingError(ChangeOf(s).significance);
    RoundingError(RankedSum(s));
    RankedSumIsParts(before, after);
  }

  // ----- The lists ----------------------------------------------------------------------

  /** The rows that a company ends up with in both snapshots. */
  ghost predicate InBoth(current: seq<Item>, previous: seq<Item>, key: Key, before: Item, after: Item) {
    LastOf(current, KeyOf, key) == Some(after) && LastOf(previous, KeyOf, key) == Some(before)
  }

  lemma {:induction false} NamesHold(items: seq<Item>, previous: seq<Item>, p: (Item, Item) -> bool, name: string)
    ensures name in NamesOf(items, previous, p) <==>
      exists i :: 0 <= i < |items| && IsNamed(items[i], previous, p, name)
    decreases |items|
  {
    if items != [] {
      var n := |items| - 1;
      LastNamed(items, previous, p, name);
      hide IsNamed, NamesOf;
      NamesHold(items[..n], previous, p, name);
      assert forall i :: 0 <= i < n ==> items[..n][i] == items[i];
    }
  }

  lemma LastNamed(items: seq<Item>, previous: seq<Item>, p: (Item, Item) -> bool, name: string)
    requires items != []
    ensures var n := |items| - 1;
      name in NamesOf(items, previous, p) <==>
        name in NamesOf(items[..n], previous, p) || IsNamed(items[n], previous, p, name)
  {
    hide LastOf, KeyOf, Shown;
  }

  ghost predicate IsNamed(item: Item, previous: seq<Item>, p: (Item, Item) -> bool, name: string) {
    var found := LastOf(previous, KeyOf, KeyOf(item));
    found.Some? && p(item, found.value) && Shown(item) == name
  }

  lemma DictionaryRows(rows: seq<Item>, item: Item)
    ensures item in Dictionary(rows, KeyOf) <==> LastOf(rows, KeyOf, KeyOf(item)) == Some(item)
  {
    hide LastOf, Dictionary, KeyOf, UniqueKeys;
    DictionaryHolds(rows, KeyOf, KeyOf(item));
    HeldIffLast(Dictionary(rows, KeyOf), KeyOf, item);
  }

  lemma LastOfHasKey(rows: seq<Item>, key: Key)
    ensures LastOf(rows, KeyOf, key).Some? ==> KeyOf(LastOf(rows, KeyOf, key).value) == key
  {
  }

  lemma NamedIff(current: seq<Item>, previous: seq<Item>, p: (Item, Item) -> bool, name: string)
    ensures name in NamesOf(Dictionary(current, KeyOf), previous, p) <==>
      exists key, before, after :: InBoth(current, previous, key, before, after) && p(after, before) && Shown(after) == name
  {
    hide LastOf, Dictionary, KeyOf, NamesOf, Shown;
    var items := Dictionary(current, KeyOf);
    NamesHold(items, previous, p, name);
    if i :| 0 <= i < |items| && IsNamed(items[i], previous, p, name) {
      DictionaryRows(current, items[i]);
      assert items[i] in items;
      var before := LastOf(previous, KeyOf, KeyOf(items[i])).value;
      assert InBoth(current, previous, KeyOf(items[i]), before, items[i]);
    }
    if key, before, after :| InBoth(current, previous, key, before, after) && p(after, before) && Shown(after) == name {
      LastOfHasKey(current, key);
      DictionaryRows(current, after);
      var i :| 0 <= i < |items| && items[i] == after;
      assert IsNamed(items[i], previous, p, name);
    }
  }

  /** The companies that a brief lists as newly critical are those that are in both snapshots, critical now and not
      before; those it lists as resolved are the other way round. */
  lemma ListedCriticalsIff(current: seq<Item>, previous: seq<Item>, name: string)
    ensures name in NamesOf(Dictionary(current, KeyOf), previous, Became()) <==>
      exists key, before, after :: InBoth(current, previous, key, before, after)
        && after.severity == "critical" && before.severity != "critical" && Shown(after) == name
    ensures name in NamesOf(Dictionary(current, KeyOf), previous, Ceased()) <==>
      exists key, before, after :: InBoth(current, previous, key, before, after)
        && after.severity != "critical" && before.severity == "critical" && Shown(after) == name
    ensures forall item: Item :: Shown(item) == if item.counterparty != "" then item.counterparty else "-"
  {
    hide LastOf, Dictionary, KeyOf, NamesOf, InBoth;
    NamedIff(current, previous, Became(), name);
    NamedIff(current, previous, Ceased(), name);
  }

  lemma {:induction false} ChangesHold(items: seq<Item>, previous: seq<Item>, r: Reported)
    ensures r in ChangesOf(items, previous) <==> exists i :: 0 <= i < |items| && IsReported(items[i], previous, r)
    decreases |items|
  {
    hide IsReported, ChangesOf, NamesOf;
    if items == [] {
      NothingReported(previous);
    } else {
      var n := |items| - 1;
      LastReported(items, previous, r);
      ChangesHold(items[..n], previous, r);
      assert forall i :: 0 <= i < n ==> items[..n][i] == items[i];
    }
  }

  lemma LastReported(items: seq<Item>, previous: seq<Item>, r: Reported)
    requires items != []
    ensures var n := |items| - 1;
      r in ChangesOf(items, previous) <==> r in ChangesOf(items[..n], previous) || IsReported(items[n], previous, r)
  {
    hide LastOf, KeyOf, ChangeOf, ShiftOf, Report;
  }

  ghost predicate IsReported(item: Item, previous: seq<Item>, r: Reported) {
    var found := LastOf(previous, KeyOf, KeyOf(item));
    found.Some? && ChangeBetween(found.value, item).kind != Unchanged && r == Report(KeyOf(item), ShiftOf(found.value, item))
  }

  /** The change is that of a company between two rows. */
  predicate Describes(r: Reported, before: Item, after: Item) {
    && r.change == ChangeBetween(before, after) && r.change.kind != Unchanged
    && r.priority == PriorityScore(ShiftOf(before, after)) && r.tier == TierOf(r.priority)
  }

  /** The changes that a brief reports are those of the companies that are in both snapshots and moved: from the last
      row of the previous one to the last row of the current one, with the priority and the tier of that. */
  lemma ReportedChangesIff(current: seq<Item>, previous: seq<Item>, r: Reported)
    ensures r in ChangesOf(Dictionary(current, KeyOf), previous) <==>
      exists before, after :: InBoth(current, previous, r.key, before, after) && Describes(r, before, after)
  {
    hide LastOf, Dictionary, KeyOf, ChangesOf, ChangeOf, ShiftOf, PriorityScore, TierOf;
    var items := Dictionary(current, KeyOf);
    ChangesHold(items, previous, r);
    if i :| 0 <= i < |items| && IsReported(items[i], previous, r) {
      DictionaryRows(current, items[i]);
      assert items[i] in items;
      var before := LastOf(previous, KeyOf, KeyOf(items[i])).value;
      assert InBoth(current, previous, r.key, before, items[i]);
    }
    if before, after :| InBoth(current, previous, r.key, before, after) && Describes(r, before, after) {
      LastOfHasKey(current, r.key);
      DictionaryRows(current, after);
      var i :| 0 <= i < |items| && items[i] == after;
      assert IsReported(items[i], previous, r);
    }
  }
}
