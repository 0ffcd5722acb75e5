/** The DLP switch and the reading of its mode, said of single rules in the four rule groups. */
module DlpRules {
  import opened DlpPolicy
  import opened Text

  /** One of the groups that the switch is about. */
  predicate IsGroup(group: string) {
    group in {"clipboard", "usb", "print", "email"}
  }

  lemma GroupsAre(group: string)
    ensures group in GROUPS <==> IsGroup(group)
    ensures forall i, j :: 0 <= i < j < |GROUPS| ==> GROUPS[i] != GROUPS[j]
  {
    assert GROUPS == ["clipboard", "usb", "print", "email"];
    assert GROUPS[0] == "clipboard" && GROUPS[1] == "usb" && GROUPS[2] == "print" && GROUPS[3] == "email";
  }

  ghost predicate HasRules(policy: Policy, group: string) {
    policy.endpoint.Endpoint? && group in policy.endpoint.fields && policy.endpoint.fields[group].Rules?
  }

  /** The rule is in one of the groups. */
  ghost predicate Holds(policy: Policy, rule: Rule) {
    exists group :: IsGroup(group) && HasRules(policy, group) && rule in policy.endpoint.fields[group].rules
  }

  lemma {:induction false} RulesUpToHold(fields: map<string, Field>, n: nat, rule: Rule)
    requires n <= 4
    ensures rule in RulesUpTo(fields, n) <==> exists i :: 0 <= i < n && rule in RulesOf(fields, GROUPS[i])
    decreases n
  {
    hide RulesOf;
    if n > 0 {
      RulesUpToHold(fields, n - 1, rule);
    }
  }

  lemma PolicyRulesIff(policy: Policy, rule: Rule)
    ensures rule in PolicyRules(policy) <==> Holds(policy, rule)
  {
    hide RulesUpTo;
    if policy.endpoint.Endpoint? {
      var fields := policy.endpoint.fields;
      RulesUpToHold(fields, 4, rule);
      if i :| 0 <= i < 4 && rule in RulesOf(fields, GROUPS[i]) {
        GroupsAre(GROUPS[i]);
        assert IsGroup(GROUPS[i]) && HasRules(policy, GROUPS[i]);
      }
      if group :| IsGroup(group) && HasRules(policy, group) && rule in fields[group].rules {
        GroupsAre(group);
        var i :| 0 <= i < |GROUPS| && GROUPS[i] == group;
        assert rule in RulesOf(fields, GROUPS[i]);
      }
    }
  }

  /** What a switch makes of a rule: monitoring turns an active block into an alert; enforcement turns an active rule
      that logs, alerts or has no action into a block. Actions are read without surrounding white space and case. */
  function Turned(mode: Mode, rule: Rule): Rule {
    if rule.Scalar? || !rule.enabled then rule
    else if mode.Monitor? && Lower(Trim(rule.action)) == "block" then rule.(action := "alert")
    else if mode.Enforce? && Lower(Trim(rule.action)) in {"", "log", "alert"} then rule.(action := "block")
    else rule
  }

  lemma ConvertIsTurned(mode: Mode, rule: Rule)
    ensures Convert(mode, rule) == Turned(mode, rule)
  {
    hide Trim, Lower;
  }

  /** A switch turns every rule of every group, in its place. */
  lemma EachRuleIsTurned(mode: Mode, policy: Policy, now: string, group: string, i: nat)
    requires IsGroup(group) && HasRules(policy, group) && i < |policy.endpoint.fields[group].rules|
    ensures var after := SwitchTo(mode, policy, now).policy;
      && HasRules(after, group)
      && |after.endpoint.fields[group].rules| == |policy.endpoint.fields[group].rules|
      && after.endpoint.fields[group].rules[i] == Turned(mode, policy.endpoint.fields[group].rules[i])
  {
    hide LinesUpTo, Convert, Turned;
    GroupsAre(group);
    ConvertIsTurned(mode, policy.endpoint.fields[group].rules[i]);
  }

  // ----- Readings -----------------------------------------------------------------------

  /** An active rule of the policy has this action. */
  ghost predicate InForce(policy: Policy, rule: Rule, action: string) {
    Holds(policy, rule) && rule.Rule? && rule.enabled && Lower(Trim(rule.action)) == action
  }

  ghost predicate SomeBlock(policy: Policy) {
    exists rule :: InForce(policy, rule, "block")
  }

  /** If the rule is active and has an action, it blocks. */
  ghost predicate OnlyBlocks(policy: Policy, rule: Rule) {
    forall action :: InForce(policy, rule, action) ==> action in {"", "block"}
  }

  ghost predicate AllBlock(policy: Policy) {
    forall rule :: OnlyBlocks(policy, rule)
  }

  /** The rules read as monitoring when none blocks, as enforcement when some block and no active rule has another
      action, and as mixed otherwise. */
  lemma ReadingMeans(policy: Policy)
    ensures Reads(PolicyRules(policy), Pure(Monitor)) <==> !SomeBlock(policy)
    ensures Reads(PolicyRules(policy), Pure(Enforce)) <==> SomeBlock(policy) && AllBlock(policy)
    ensures Reads(PolicyRules(policy), Mixed) <==> SomeBlock(policy) && !AllBlock(policy)
  {
    hide Trim, Lower, Holds, PolicyRules, Blocks, Acts, InForce, OnlyBlocks;
    var rules := PolicyRules(policy);
    forall rule
      ensures rule in rules && Blocks(rule) <==> InForce(policy, rule, "block")
      ensures (rule in rules && Acts(rule) ==> Blocks(rule)) <==> OnlyBlocks(policy, rule)
    {
      RuleMeans(policy, rule);
    }
  }

  lemma RuleMeans(policy: Policy, rule: Rule)
    ensures rule in PolicyRules(policy) && Blocks(rule) <==> InForce(policy, rule, "block")
    ensures (rule in PolicyRules(policy) && Acts(rule) ==> Blocks(rule)) <==> OnlyBlocks(policy, rule)
  {
    hide Trim, Lower, Holds, PolicyRules;
    PolicyRulesIff(policy, rule);
    if rule.Rule? && Holds(policy, rule) {
      assert InForce(policy, rule, Lower(Trim(rule.action))) <==> rule.enabled;
    }
  }

  /** A mode is recorded when the recorded text is its name, without surrounding white space and case. */
  lemma RecordedModeIff(meta: Meta)
    ensures RecordedMode(meta) == [Monitor] <==> meta.Meta? && Lower(Trim(meta.mode)) == "monitor"
    ensures RecordedMode(meta) == [Enforce] <==> meta.Meta? && Lower(Trim(meta.mode)) == "enforce"
  {
    hide Trim, Lower;
  }

  // ----- What is reported ---------------------------------------------------------------

  /** How a changed rule is listed: its group and id, and its action before and after. */
  function Line(mode: Mode, group: string, rule: Rule): string
    requires rule.Rule?
  {
    var before := Lower(Trim(rule.action));
    "endpoint." + group + ":" + (if rule.id == "" then "?" else rule.id) + " "
    + (if before == "" then "alert" else before) + "->" + (if mode.Monitor? then "alert" else "block")
  }

  ghost predicate IsLineOf(mode: Mode, group: string, rules: seq<Rule>, line: string) {
    exists i :: 0 <= i < |rules| && Turned(mode, rules[i]) != rules[i] && rules[i].Rule? && line == Line(mode, group, rules[i])
  }

  lemma ChangedLine(mode: Mode, group: string, rule: Rule)
    ensures Changes(mode, rule) ==>
      Turned(mode, rule) != rule && rule.Rule? && ChangeLine(mode, group, rule) == Line(mode, group, rule)
  {
    hide Trim, Lower;
    ConvertIsTurned(mode, rule);
    ConvertRule(mode, rule);
  }

  lemma {:induction false} LinesAreOfRules(mode: Mode, group: string, rules: seq<Rule>, line: string)
    requires line in ChangeLines(mode, group, rules)
    ensures IsLineOf(mode, group, rules, line)
    decreases |rules|
  {
    hide Changes, ChangeLine, Turned, Line;
    var n := |rules| - 1;
    if line in ChangeLines(mode, group, rules[..n]) {
      LinesAreOfRules(mode, group, rules[..n], line);
      var i :| 0 <= i < n && Turned(mode, rules[..n][i]) != rules[..n][i] && rules[..n][i].Rule? && line == Line(mode, group, rules[..n][i]);
      assert rules[..n][i] == rules[i];
    } else {
      ChangedLine(mode, group, rules[n]);
    }
  }

  lemma {:induction false} LinesAreOfGroups(mode: Mode, fields: map<string, Field>, n: nat, line: string)
    requires n <= 4 && line in LinesUpTo(mode, fields, n)
    ensures exists group :: IsGroup(group) && IsLineOf(mode, group, RulesOf(fields, group), line)
    decreases n
  {
    hide ChangeLines, RulesOf, IsLineOf;
    var group := GROUPS[n - 1];
    if line in LinesUpTo(mode, fields, n - 1) {
      LinesAreOfGroups(mode, fields, n - 1, line);
    } else {
      GroupsAre(group);
      LinesAreOfRules(mode, group, RulesOf(fields, group), line);
    }
  }

  /** Every line that a switch lists is about a rule that it turned. */
  lemma ListedAreTurned(mode: Mode, policy: Policy, now: string, line: string)
    requires line in SwitchTo(mode, policy, now).changes
    ensures policy.endpoint.Endpoint?
    ensures exists group :: IsGroup(group) && IsLineOf(mode, group, RulesOf(policy.endpoint.fields, group), line)
  {
    hide LinesUpTo, IsLineOf, ConvertFields;
    assert line in LinesUpTo(mode, policy.endpoint.fields, 4);
    LinesAreOfGroups(mode, policy.endpoint.fields, 4, line);
  }
}
