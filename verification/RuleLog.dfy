/** The DLP rules of a host, kept as a log of events: the rules in force are what the log collapses to. */
module RuleLog {
  import opened Collapsing
  import opened Dictionaries
  import opened Options
  import opened Text

  datatype Fields = Fields(signalType: string, username: string, owner: string, documentName: string,
                           printerName: string, hostname: string)

  /** What a rule event says; `enabled` is false only for the literal `false`, a missing text is "". */
  datatype RuleData = RuleData(host: string, ruleId: string, enabled: bool, action: string, category: string,
                               comment: string, fields: Fields)

  type Rule = Event<RuleData>

  function Serialized(f: Fields): string {
    f.signalType + "|" + f.username + "|" + f.owner + "|" + f.documentName + "|" + f.printerName + "|" + f.hostname
  }

  /** The id of a rule that was written without one. */
  function DerivedId(rule: Rule): string {
    Serialized(rule.data.fields) + "|" + Trim(rule.data.category) + "|" + Trim(rule.data.action)
  }

  predicate NoBar(text: string) {
    '|' !in text
  }

  predicate NoBars(f: Fields) {
    && NoBar(f.signalType) && NoBar(f.username) && NoBar(f.owner) && NoBar(f.documentName) && NoBar(f.printerName)
    && NoBar(f.hostname)
  }

  lemma BarSplits(a: string, b: string, x: string, y: string)
    requires NoBar(a) && NoBar(b) && a + "|" + x == b + "|" + y
    ensures a == b && x == y
  {
    var s := a + "|" + x;
    assert forall i :: 0 <= i < |a| ==> s[i] == a[i] && a[i] in a;
    assert forall i :: 0 <= i < |b| ==> s[i] == b[i] && b[i] in b;
    assert s[|a|] == '|' && s[|b|] == '|';
    assert |a| == |b|;
    assert s[..|a|] == a && s[..|b|] == b;
    assert s[|a| + 1..] == x && s[|b| + 1..] == y;
  }

  lemma SerializedNested(f: Fields, rest: string)
    ensures Serialized(f) + "|" + rest == f.signalType + "|" + (f.username + "|" + (f.owner + "|" + (f.documentName + "|"
      + (f.printerName + "|" + (f.hostname + "|" + rest)))))
  {
  }

  /** As long as no bar occurs in them, derived ids tell rules apart by all their constraints, by category and by
      action. */
  lemma DerivedIdTellsApart(a: Rule, b: Rule)
    requires NoBars(a.data.fields) && NoBars(b.data.fields)
    requires NoBar(Trim(a.data.category)) && NoBar(Trim(b.data.category))
    ensures DerivedId(a) == DerivedId(b) <==>
      && a.data.fields == b.data.fields
      && Trim(a.data.category) == Trim(b.data.category) && Trim(a.data.action) == Trim(b.data.action)
  {
    hide Trim, NoBar, Serialized;
    var f, g := a.data.fields, b.data.fields;
    var x, y := Trim(a.data.category) + "|" + Trim(a.data.action), Trim(b.data.category) + "|" + Trim(b.data.action);
    assert DerivedId(a) == Serialized(f) + "|" + x && DerivedId(b) == Serialized(g) + "|" + y;
    SerializedNested(f, x);
    SerializedNested(g, y);
    if DerivedId(a) == DerivedId(b) {
      var f5, g5 := f.hostname + "|" + x, g.hostname + "|" + y;
      var f4, g4 := f.printerName + "|" + f5, g.printerName + "|" + g5;
      var f3, g3 := f.documentName + "|" + f4, g.documentName + "|" + g4;
      var f2, g2 := f.owner + "|" + f3, g.owner + "|" + g3;
      var f1, g1 := f.username + "|" + f2, g.username + "|" + g2;
      BarSplits(f.signalType, g.signalType, f1, g1);
      BarSplits(f.username, g.username, f2, g2);
      BarSplits(f.owner, g.owner, f3, g3);
      BarSplits(f.documentName, g.documentName, f4, g4);
      BarSplits(f.printerName, g.printerName, f5, g5);
      BarSplits(f.hostname, g.hostname, x, y);
      BarSplits(Trim(a.data.category), Trim(b.data.category), Trim(a.data.action), Trim(b.data.action));
    }
  }

  function RuleId(rule: Rule): string {
    if Trim(rule.data.ruleId) != "" then Trim(rule.data.ruleId) else DerivedId(rule)
  }

  // ----- Matching -----------------------------------------------------------------------

  function TrimmedFields(f: Fields): Fields {
    Fields(Trim(f.signalType), Trim(f.username), Trim(f.owner), Trim(f.documentName), Trim(f.printerName), Trim(f.hostname))
  }

  predicate Agrees(constraint: string, value: string) {
    Trim(constraint) == "" || Trim(constraint) == Trim(value)
  }

  predicate Matches(rule: Rule, event: Fields) {
    && Agrees(rule.data.fields.signalType, event.signalType) && Agrees(rule.data.fields.username, event.username)
    && Agrees(rule.data.fields.owner, event.owner) && Agrees(rule.data.fields.documentName, event.documentName)
    && Agrees(rule.data.fields.printerName, event.printerName) && Agrees(rule.data.fields.hostname, event.hostname)
  }

  /** The rule that the operator saves for an event. */
  function Saved(event: Fields, host: string, ruleId: string, action: string, category: string, comment: string,
                 now: int): Rule {
    Event(now, RuleData(host, ruleId, true, action, Trim(category), Trim(comment), TrimmedFields(event)))
  }

  lemma TrimTwice(s: string)
    ensures Trim(Trim(s)) == Trim(s)
  {
    TrimIsTrimmed(s);
    TrimKeepsTrimmed(Trim(s));
  }

  /** A saved rule matches the event it was saved from, and of the other events those that agree with it
      wherever it has a value. */
  lemma SavedMatches(event: Fields, host: string, ruleId: string, action: string, category: string, comment: string,
                     now: int, other: Fields)
    ensures Matches(Saved(event, host, ruleId, action, category, comment, now), event)
    ensures Matches(Saved(event, host, ruleId, action, category, comment, now), other) <==>
      Matches(Event(now, RuleData(host, ruleId, true, action, category, comment, event)), other)
  {
    hide Trim;
    TrimTwice(event.signalType);
    TrimTwice(event.username);
    TrimTwice(event.owner);
    TrimTwice(event.documentName);
    TrimTwice(event.printerName);
    TrimTwice(event.hostname);
  }

  /** A rule that is saved later than anything logged is active, under the id that it was given, and passes over the
      event it was saved from. */
  lemma SavedSuppresses(before: seq<Rule>, after: seq<Rule>, event: Fields, host: string, ruleId: string, action: string,
                        category: string, comment: string, now: int)
    requires LaterThan(now, before + after) && Trim(ruleId) != ""
    ensures var saved := Saved(event, host, ruleId, action, category, comment, now);
      SuppressedBy(before + [saved] + after, Trim(ruleId), event)
  {
    hide LastWrite, Trim, Matches;
    var saved := Saved(event, host, ruleId, action, category, comment, now);
    SavedMatches(event, host, ruleId, action, category, comment, now, event);
    LaterWriteWins(before, after, RuleId, saved, Trim(ruleId));
  }

  /** A constraint that was dropped, or kept as it was. */
  predicate Looser(kept: string, original: string) {
    Trim(kept) == "" || Trim(kept) == Trim(original)
  }

  predicate LooserFields(kept: Fields, original: Fields) {
    && Looser(kept.signalType, original.signalType) && Looser(kept.username, original.username)
    && Looser(kept.owner, original.owner) && Looser(kept.documentName, original.documentName)
    && Looser(kept.printerName, original.printerName) && Looser(kept.hostname, original.hostname)
  }

  /** Of two rules, one matches whatever the other does exactly when it only drops constraints of it. */
  lemma DroppingConstraintsIff(kept: Rule, original: Rule)
    ensures LooserFields(kept.data.fields, original.data.fields) <==> (forall event :: Matches(original, event) ==> Matches(kept, event))
  {
    hide Trim;
    if forall event :: Matches(original, event) ==> Matches(kept, event) {
      assert Matches(original, original.data.fields);
      assert Matches(kept, original.data.fields);
    }
  }

  // ----- Switching a rule ---------------------------------------------------------------

  /** The event written to enable or disable a rule. */
  function Switched(rule: Rule, host: string, enabled: bool, now: int): Rule {
    Event(now, RuleData(host, RuleId(rule), enabled, rule.data.action, rule.data.category, rule.data.comment, rule.data.fields))
  }

  lemma DerivedIdShape(rule: Rule)
    ensures var id := DerivedId(rule);
      && id != ""
      && id[0] == (if rule.data.fields.signalType == "" then '|' else rule.data.fields.signalType[0])
      && !IsSpace(id[|id| - 1])
  {
    hide Trim;
    TrimIsTrimmed(rule.data.action);
    var a := Trim(rule.data.action);
    var head := Serialized(rule.data.fields) + "|" + Trim(rule.data.category) + "|";
    var id := DerivedId(rule);
    assert id == head + a;
    assert head[|head| - 1] == '|';
    assert id[|id| - 1] == if a == "" then '|' else a[|a| - 1];
  }

  /** Switching writes under the id of the rule, unless that id is derived and starts with white space: it is
      then read back without it, as the id of another rule. */
  lemma SwitchedIdIff(rule: Rule, host: string, enabled: bool, now: int)
    ensures RuleId(Switched(rule, host, enabled, now)) == RuleId(rule) <==>
      Trim(rule.data.ruleId) != "" || rule.data.fields.signalType == "" || !IsSpace(rule.data.fields.signalType[0])
  {
    hide Trim, DerivedId;
    var written := Switched(rule, host, enabled, now);
    assert DerivedId(written) == DerivedId(rule) by { SameDerivedId(written, rule); }
    if Trim(rule.data.ruleId) != "" {
      TrimTwice(rule.data.ruleId);
    } else {
      var id := DerivedId(rule);
      DerivedIdShape(rule);
      TrimKeepsInk(id, |id| - 1);
      TrimIsTrimmed(id);
      if !IsSpace(id[0]) {
        TrimKeepsTrimmed(id);
      }
    }
  }

  lemma SameDerivedId(a: Rule, b: Rule)
    requires a.data.fields == b.data.fields && a.data.category == b.data.category && a.data.action == b.data.action
    ensures DerivedId(a) == DerivedId(b)
  {
  }

  /** A switched rule matches what it matched before. */
  lemma SwitchedMatchesSame(rule: Rule, host: string, enabled: bool, now: int, event: Fields)
    ensures Matches(Switched(rule, host, enabled, now), event) == Matches(rule, event)
  {
  }

  ghost predicate ActiveIn(events: seq<Rule>, id: string) {
    LastWrite(events, RuleId, id).Some? && LastWrite(events, RuleId, id).value.data.enabled
  }

  /** Switching a rule later than anything logged sets that rule as asked and leaves every other as it was. */
  lemma SwitchChangesOneRule(before: seq<Rule>, after: seq<Rule>, rule: Rule, host: string, enabled: bool, now: int,
                             id: string)
    requires LaterThan(now, before + after)
    requires Trim(rule.data.ruleId) != "" || rule.data.fields.signalType == "" || !IsSpace(rule.data.fields.signalType[0])
    ensures ActiveIn(before + [Switched(rule, host, enabled, now)] + after, id) <==>
      if id == RuleId(rule) then enabled else ActiveIn(before + after, id)
  {
    hide RuleId, LastWrite, Trim;
    SwitchedIdIff(rule, host, enabled, now);
    LaterWriteWins(before, after, RuleId, Switched(rule, host, enabled, now), id);
  }

  /** The rule in force under an id lets the program pass over an event. */
  ghost predicate SuppressedBy(events: seq<Rule>, id: string, event: Fields) {
    ActiveIn(events, id) && Matches(LastWrite(events, RuleId, id).value, event)
  }

  /** What a switch does to the events that rules suppress: under the switched id those that the rule matched
      all along, if it is enabled, and none otherwise; under every other id the same as before. */
  lemma SwitchChangesSuppression(before: seq<Rule>, after: seq<Rule>, rule: Rule, host: string, enabled: bool,
                                 now: int, id: string, event: Fields)
    requires LaterThan(now, before + after)
    requires Trim(rule.data.ruleId) != "" || rule.data.fields.signalType == ""
      || !IsSpace(rule.data.fields.signalType[0])
    ensures SuppressedBy(before + [Switched(rule, host, enabled, now)] + after, id, event) <==>
      if id == RuleId(rule) then enabled && Matches(rule, event) else SuppressedBy(before + after, id, event)
  {
    hide RuleId, LastWrite, Trim, Matches;
    SwitchedIdIff(rule, host, enabled, now);
    SwitchedMatchesSame(rule, host, enabled, now, event);
    LaterWriteWins(before, after, RuleId, Switched(rule, host, enabled, now), id);
  }

  // ----- The program --------------------------------------------------------------------

  function ActiveOf(rules: seq<Rule>): seq<Rule> {
    if rules == [] then []
    else ActiveOf(rules[..|rules| - 1]) + if rules[|rules| - 1].data.enabled then [rules[|rules| - 1]] else []
  }

  lemma ActiveOfHolds(rules: seq<Rule>, e: Rule)
    ensures e in ActiveOf(rules) <==> e in rules && e.data.enabled
  {
    if rules != [] {
      ActiveOfHolds(rules[..|rules| - 1], e);
      assert rules == rules[..|rules| - 1] + [rules[|rules| - 1]];
    }
  }

  method CollapseRuleEvents(events: seq<Rule>) returns (rules: seq<Rule>)
    ensures rules == Collapsed(events, RuleId)
  {
    rules := Collapse(events, RuleId);
  }

  method ActiveRules(rules: seq<Rule>) returns (active: seq<Rule>)
    ensures active == ActiveOf(rules)
  {
    active := [];
    for i := 0 to |rules|
      invariant active == ActiveOf(rules[..i])
    {
      assert rules[..i + 1][..i] == rules[..i];
      if rules[i].data.enabled {
        active := active + [rules[i]];
      }
    }
    assert rules[..|rules|] == rules;
  }

  /** The rules that the page holds for a host. */
  class DlpState {
    var rules: seq<Rule>
    var activeRules: seq<Rule>

    constructor ()
      ensures rules == [] && activeRules == []
    {
      rules, activeRules := [], [];
    }

    /** Takes over the events loaded from the log. */
    method Refresh(loaded: seq<Rule>)
      modifies this
      ensures rules == Collapsed(loaded, RuleId)
      ensures activeRules == ActiveOf(rules)
    {
      rules := CollapseRuleEvents(loaded);
      activeRules := ActiveRules(rules);
    }
  }

  /** The active rules of a refreshed page are, id by id, those whose last write enabled them. */
  lemma ActiveRulesAreLastWrites(loaded: seq<Rule>, e: Rule)
    ensures e in ActiveOf(Collapsed(loaded, RuleId)) <==> LastWrite(loaded, RuleId, RuleId(e)) == Some(e) && e.data.enabled
  {
    hide RuleId, Collapsed, LastWrite, ActiveOf;
    var rules := Collapsed(loaded, RuleId);
    ActiveOfHolds(rules, e);
    CollapseIsLastWriteWins(loaded, RuleId, RuleId(e));
    HeldIffLast(rules, RuleId, e);
  }
}
