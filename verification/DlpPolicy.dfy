/** Switching a DLP policy between monitoring and enforcement, and reading its mode back. */
module DlpPolicy {
  import opened Text

  /** An element of a rule list. `enabled` is false only for the literal `false`; `action` is the text of
      the action ("" when it is missing); `rest` stands for the other fields. */
  datatype Rule = Scalar(value: string) | Rule(id: string, enabled: bool, action: string, rest: string)

  datatype Field = Rules(rules: seq<Rule>) | OtherField(value: string)

  /** `_tsj_meta`: its recorded mode ("" when missing) and whatever else it holds. */
  datatype Meta = NoMeta | Meta(mode: string, updatedBy: string, updatedAt: string, rest: string)

  datatype Endpoint = NoEndpoint(value: string) | Endpoint(fields: map<string, Field>)

  datatype Policy = Policy(endpoint: Endpoint, meta: Meta, rest: string)

  datatype Mode = Monitor | Enforce

  /** What a scan or the recorded mode says. */
  datatype Reading = Pure(mode: Mode) | Mixed

  /** The switched policy, how many rules changed, and the first of the changes. */
  datatype Switched = Switched(policy: Policy, changed: nat, changes: seq<string>)

  const GROUPS := ["clipboard", "usb", "print", "email"]
  const REPORTED := 10

  function Normal(action: string): string {
    Lower(Trim(action))
  }

  predicate Active(rule: Rule) {
    rule.Rule? && rule.enabled
  }

  predicate Acts(rule: Rule) {
    Active(rule) && Normal(rule.action) != ""
  }

  predicate Blocks(rule: Rule) {
    Active(rule) && Normal(rule.action) == "block"
  }

  /** An action that enforcement can turn into a block, or that is one. */
  predicate Blockable(rule: Rule) {
    Active(rule) && Normal(rule.action) in ["", "log", "alert", "block"]
  }

  function OldAction(rule: Rule): string
    requires rule.Rule?
  {
    if Normal(rule.action) == "" then "alert" else Normal(rule.action)
  }

  function NewAction(mode: Mode, current: string): string {
    match mode
    case Monitor => if current == "block" then "alert" else current
    case Enforce => if current == "log" || current == "alert" then "block" else current
  }

  predicate Changes(mode: Mode, rule: Rule) {
    Active(rule) && NewAction(mode, OldAction(rule)) != OldAction(rule)
  }

  function Convert(mode: Mode, rule: Rule): Rule {
    if Changes(mode, rule) then rule.(action := NewAction(mode, OldAction(rule))) else rule
  }

  function ConvertAll(mode: Mode, rules: seq<Rule>): seq<Rule> {
    seq(|rules|, i requires 0 <= i < |rules| => Convert(mode, rules[i]))
  }

  function ChangeLine(mode: Mode, group: string, rule: Rule): string
    requires rule.Rule?
  {
    "endpoint." + group + ":" + (if rule.id == "" then "?" else rule.id) + " "
    + OldAction(rule) + "->" + NewAction(mode, OldAction(rule))
  }

  function ChangeLines(mode: Mode, group: string, rules: seq<Rule>): seq<string> {
    if rules == [] then []
    else
      ChangeLines(mode, group, rules[..|rules| - 1])
      + (var last := rules[|rules| - 1]; if Changes(mode, last) then [ChangeLine(mode, group, last)] else [])
  }

  function RulesOf(fields: map<string, Field>, group: string): seq<Rule> {
    if group in fields && fields[group].Rules? then fields[group].rules else []
  }

  /** The rules of the first `n` groups, in the order in which they are read. */
  function RulesUpTo(fields: map<string, Field>, n: nat): seq<Rule>
    requires n <= 4
  {
    if n == 0 then [] else RulesUpTo(fields, n - 1) + RulesOf(fields, GROUPS[n - 1])
  }

  function PolicyRules(policy: Policy): seq<Rule> {
    match policy.endpoint
    case NoEndpoint(_) => []
    case Endpoint(fields) => RulesUpTo(fields, 4)
  }

  // ----- Reading the mode ---------------------------------------------------------------

  /** What the rules themselves say: enforcement needs a blocking rule and no active rule that acts
      otherwise. */
  ghost predicate Reads(rules: seq<Rule>, reading: Reading) {
    match reading
    case Pure(Monitor) => forall r :: r in rules ==> !Blocks(r)
    case Pure(Enforce) => (exists r :: r in rules && Blocks(r)) && (forall r :: r in rules && Acts(r) ==> Blocks(r))
    case Mixed => (exists r :: r in rules && Blocks(r)) && (exists r :: r in rules && Acts(r) && !Blocks(r))
  }

  lemma ReadingIsUnique(rules: seq<Rule>, a: Reading, b: Reading)
    requires Reads(rules, a) && Reads(rules, b)
    ensures a == b
  {
    hide Blocks, Acts;
  }

  ghost predicate Counted(rules: seq<Rule>, total: nat, blocked: nat) {
    && blocked <= total
    && (blocked == 0 <==> forall r :: r in rules ==> !Blocks(r))
    && (blocked == total <==> forall r :: r in rules && Acts(r) ==> Blocks(r))
  }

  lemma CountedNext(rules: seq<Rule>, total: nat, blocked: nat, rule: Rule)
    requires Counted(rules, total, blocked)
    ensures Counted(rules + [rule], total + (if Acts(rule) then 1 else 0), blocked + (if Blocks(rule) then 1 else 0))
  {
    hide Acts, Blocks;
    var next := rules + [rule];
    assert forall r :: r in next <==> r in rules || r == rule;
    BlocksActs(rule);
  }

  lemma BlocksActs(rule: Rule)
    ensures Blocks(rule) ==> Acts(rule)
  {
  }

  function RecordedMode(meta: Meta): (mode: seq<Mode>)
    ensures |mode| <= 1
  {
    if meta.NoMeta? then []
    else if Normal(meta.mode) == "monitor" then [Monitor]
    else if Normal(meta.mode) == "enforce" then [Enforce]
    else []
  }

  /** Counts the rules of one group, after those read so far. */
  method CountGroup(ghost read: seq<Rule>, rules: seq<Rule>, total0: nat, blocked0: nat)
    returns (total: nat, blocked: nat)
    requires Counted(read, total0, blocked0)
    ensures Counted(read + rules, total, blocked)
  {
    hide Acts, Blocks, Counted;
    total, blocked := total0, blocked0;
    assert read + rules[..0] == read;
    for i := 0 to |rules|
      invariant Counted(read + rules[..i], total, blocked)
    {
      var rule := rules[i];
      CountedNext(read + rules[..i], total, blocked, rule);
      assert read + rules[..i] + [rule] == read + rules[..i + 1];
      BlocksActs(rule);
      if Acts(rule) {
        total := total + 1;
        if Blocks(rule) {
          blocked := blocked + 1;
        }
      }
    }
    assert rules[..|rules|] == rules;
  }

  /** A recorded mode wins; otherwise the rules are read. */
  method ModeFromPolicy(policy: Policy) returns (reading: Reading)
    ensures RecordedMode(policy.meta) != [] ==> reading == Pure(RecordedMode(policy.meta)[0])
    ensures RecordedMode(policy.meta) == [] ==> Reads(PolicyRules(policy), reading)
  {
    hide Acts, Blocks, Counted, Reads, RulesOf;
    var recorded := RecordedMode(policy.meta);
    if recorded != [] {
      return Pure(recorded[0]);
    }
    var total: nat, blocked: nat := 0, 0;
    NothingCounted();
    if policy.endpoint.Endpoint? {
      var fields := policy.endpoint.fields;
      for g := 0 to 4
        invariant Counted(RulesUpTo(fields, g), total, blocked)
      {
        total, blocked := CountGroup(RulesUpTo(fields, g), RulesOf(fields, GROUPS[g]), total, blocked);
      }
    }
    CountedReads(PolicyRules(policy), total, blocked);
    reading := if blocked == 0 then Pure(Monitor) else if blocked == total then Pure(Enforce) else Mixed;
  }

  lemma NothingCounted()
    ensures Counted([], 0, 0)
  {
  }

  lemma CountedReads(rules: seq<Rule>, total: nat, blocked: nat)
    requires Counted(rules, total, blocked)
    ensures Reads(rules, if blocked == 0 then Pure(Monitor) else if blocked == total then Pure(Enforce) else Mixed)
  {
    BlocksActsAll();
  }

  lemma BlocksActsAll()
    ensures forall r :: Blocks(r) ==> Acts(r)
  {
  }

  // ----- Switching the mode -------------------------------------------------------------

  function ConvertField(mode: Mode, field: Field): Field {
    match field
    case Rules(rules) => Rules(ConvertAll(mode, rules))
    case OtherField(_) => field
  }

  /** The rule lists of the four groups converted, every other field as it was. */
  function ConvertFields(mode: Mode, fields: map<string, Field>): map<string, Field> {
    map k | k in fields :: if k in GROUPS then ConvertField(mode, fields[k]) else fields[k]
  }

  function LinesUpTo(mode: Mode, fields: map<string, Field>, n: nat): seq<string>
    requires n <= 4
  {
    if n == 0 then [] else LinesUpTo(mode, fields, n - 1) + ChangeLines(mode, GROUPS[n - 1], RulesOf(fields, GROUPS[n - 1]))
  }

  function First(lines: seq<string>): seq<string> {
    if |lines| <= REPORTED then lines else lines[..REPORTED]
  }

  function ModeName(mode: Mode): string {
    match mode case Monitor => "monitor" case Enforce => "enforce"
  }

  function NewMeta(mode: Mode, meta: Meta, now: string): Meta {
    Meta(ModeName(mode), "tsj-guardian-bot", now, if meta.Meta? then meta.rest else "")
  }

  function SwitchTo(mode: Mode, policy: Policy, now: string): Switched {
    var endpoint := if policy.endpoint.Endpoint? then Endpoint(ConvertFields(mode, policy.endpoint.fields)) else policy.endpoint;
    var lines := if policy.endpoint.Endpoint? then LinesUpTo(mode, policy.endpoint.fields, 4) else [];
    Switched(Policy(endpoint, NewMeta(mode, policy.meta, now), policy.rest), |lines|, First(lines))
  }

  /** The rules of one group, changed one after the other. */
  method SwitchGroup(mode: Mode, group: string, before: seq<Rule>, changed0: nat, changes0: seq<string>)
    returns (rules: seq<Rule>, changed: nat, changes: seq<string>)
    requires |changes0| == if changed0 < REPORTED then changed0 else REPORTED
    ensures rules == ConvertAll(mode, before)
    ensures changed == changed0 + |ChangeLines(mode, group, before)|
    ensures changes == First(changes0 + ChangeLines(mode, group, before))
  {
    hide Changes, ChangeLine, Convert, ChangeLines, First, OldAction, NewAction;
    rules, changed, changes := before, changed0, changes0;
    LinesOfNone(mode, group, before, changes0);
    for i := 0 to |before|
      invariant PartConverted(mode, before, rules, i)
      invariant changed == changed0 + |ChangeLines(mode, group, before[..i])|
      invariant changes == First(changes0 + ChangeLines(mode, group, before[..i]))
      invariant |changes| == if changed < REPORTED then changed else REPORTED
    {
      var rule := rules[i];
      LinesNext(mode, group, before, i);
      ConvertChanges(mode, rule);
      FirstNext(changes0 + ChangeLines(mode, group, before[..i]), changes0, mode, group, before, i);
      if Changes(mode, rule) {
        rules := rules[i := rule.(action := NewAction(mode, OldAction(rule)))];
        changed := changed + 1;
        if |changes| < REPORTED {
          changes := changes + [ChangeLine(mode, group, rule)];
        }
      }
    }
    assert before[..|before|] == before;
  }

  /** The first `n` rules have been converted. */
  predicate PartConverted(mode: Mode, before: seq<Rule>, rules: seq<Rule>, n: nat) {
    && |rules| == |before|
    && forall j :: 0 <= j < |before| ==> rules[j] == if j < n then Convert(mode, before[j]) else before[j]
  }

  lemma LinesOfNone(mode: Mode, group: string, before: seq<Rule>, lines: seq<string>)
    requires |lines| <= REPORTED
    ensures ChangeLines(mode, group, before[..0]) == []
    ensures lines == First(lines + ChangeLines(mode, group, before[..0]))
  {
    assert lines + [] == lines;
  }

  lemma LinesNext(mode: Mode, group: string, before: seq<Rule>, i: nat)
    requires i < |before|
    ensures ChangeLines(mode, group, before[..i + 1]) == ChangeLines(mode, group, before[..i])
      + if Changes(mode, before[i]) then [ChangeLine(mode, group, before[i])] else []
  {
    assert before[..i + 1][..i] == before[..i];
  }

  lemma FirstNext(lines: seq<string>, lines0: seq<string>, mode: Mode, group: string, before: seq<Rule>, i: nat)
    requires i < |before| && lines == lines0 + ChangeLines(mode, group, before[..i])
    ensures |First(lines)| == if |lines| < REPORTED then |lines| else REPORTED
    ensures First(lines0 + ChangeLines(mode, group, before[..i + 1])) ==
      if Changes(mode, before[i]) && |First(lines)| < REPORTED then First(lines) + [ChangeLine(mode, group, before[i])]
      else First(lines)
  {
    hide Changes, ChangeLine, ChangeLines;
    LinesNext(mode, group, before, i);
    ConvertChanges(mode, before[i]);
    var next := lines0 + ChangeLines(mode, group, before[..i + 1]);
    if Changes(mode, before[i]) {
      assert next == lines + [ChangeLine(mode, group, before[i])];
    } else {
      assert next == lines;
    }
  }

  lemma ConvertChanges(mode: Mode, rule: Rule)
    ensures Changes(mode, rule) ==> rule.Rule? && Convert(mode, rule) == rule.(action := NewAction(mode, OldAction(rule)))
    ensures !Changes(mode, rule) ==> Convert(mode, rule) == rule
  {
  }

  method SwitchPolicy(policy: Policy, mode: Mode, now: string) returns (switched: Switched)
    ensures switched == SwitchTo(mode, policy, now)
  {
    hide ChangeLines, ConvertAll, First, ModeName;
    var endpoint := policy.endpoint;
    var changed: nat, changes: seq<string> := 0, [];
    FirstOfNone();
    if policy.endpoint.Endpoint? {
      var before := policy.endpoint.fields;
      var fields := before;
      for g := 0 to 4
        invariant fields.Keys == before.Keys
        invariant forall k :: k in before ==>
          fields[k] == if k in GROUPS[..g] then ConvertField(mode, before[k]) else before[k]
        invariant changed == |LinesUpTo(mode, before, g)|
        invariant changes == First(LinesUpTo(mode, before, g))
      {
        var group := GROUPS[g];
        assert group !in GROUPS[..g];
        assert GROUPS[..g + 1] == GROUPS[..g] + [group];
        FirstLength(LinesUpTo(mode, before, g));
        FirstOfFirst(LinesUpTo(mode, before, g), ChangeLines(mode, group, RulesOf(before, group)));
        if group in fields && fields[group].Rules? {
          var rules;
          rules, changed, changes := SwitchGroup(mode, group, fields[group].rules, changed, changes);
          fields := fields[group := Rules(rules)];
        } else {
          NoLines(mode, group);
          assert RulesOf(before, group) == [];
        }
      }
      assert GROUPS[..4] == GROUPS;
      assert fields == ConvertFields(mode, before);
      endpoint := Endpoint(fields);
    }
    switched := Switched(Policy(endpoint, NewMeta(mode, policy.meta, now), policy.rest), changed, changes);
  }

  datatype Result = Ok(switched: Switched) | UnsupportedMode(target: string)

  method PolicyForMode(policy: Policy, target: string, now: string) returns (result: Result)
    ensures result.UnsupportedMode? <==> target !in ["monitor", "enforce"]
    ensures target == "monitor" ==> result == Ok(SwitchTo(Monitor, policy, now))
    ensures target == "enforce" ==> result == Ok(SwitchTo(Enforce, policy, now))
  {
    if target !in ["monitor", "enforce"] {
      return UnsupportedMode(target);
    }
    var switched := SwitchPolicy(policy, if target == "monitor" then Monitor else Enforce, now);
    result := Ok(switched);
  }

  lemma NoLines(mode: Mode, group: string)
    ensures ChangeLines(mode, group, []) == []
  {
  }

  lemma FirstOfNone()
    ensures First([]) == []
  {
  }

  lemma FirstLength(lines: seq<string>)
    ensures |First(lines)| == if |lines| < REPORTED then |lines| else REPORTED
  {
  }

  lemma FirstOfFirst(a: seq<string>, b: seq<string>)
    ensures First(First(a) + b) == First(a + b)
    ensures First(First(a)) == First(a)
    ensures a + [] == a
  {
  }

  // ----- Properties ---------------------------------------------------------------------

  lemma NormalFixed(s: string)
    requires Trimmed(s) && forall c :: c in s ==> !('A' <= c <= 'Z')
    ensures Normal(s) == s
  {
    hide Trim;
    TrimKeepsTrimmed(s);
    assert forall i :: 0 <= i < |s| ==> s[i] in s;
    assert Lower(s) == s;
  }

  lemma NormalNames()
    ensures Normal("block") == "block" && Normal("alert") == "alert"
    ensures Normal("monitor") == "monitor" && Normal("enforce") == "enforce"
  {
    hide Normal;
    NormalFixed("block");
    NormalFixed("alert");
    NormalFixed("monitor");
    NormalFixed("enforce");
  }

  /** What conversion does to one rule: it settles after one step, it changes the action alone, and the
      actions that it produces read as the mode asks. */
  lemma ConvertRule(mode: Mode, rule: Rule)
    ensures !Changes(mode, Convert(mode, rule))
    ensures Convert(mode, rule) != rule <==> Changes(mode, rule)
    ensures !Active(rule) ==> Convert(mode, rule) == rule
    ensures Active(rule) ==> Active(Convert(mode, rule)) && Convert(mode, rule).(action := rule.action) == rule
    ensures mode.Monitor? ==> !Blocks(Convert(mode, rule))
    ensures mode.Enforce? ==> (Blocks(Convert(mode, rule)) <==> Blockable(rule))
    ensures mode.Enforce? ==> (Acts(Convert(mode, rule)) <==> Active(rule))
  {
    hide Normal;
    NormalNames();
  }

  /** Enforcing and going back to monitoring loses what was only logged or unset: a rule comes back as
      monitoring alone would leave it exactly when it is inactive, was not turned into a block, or said
      precisely "alert". */
  lemma BackToMonitorIff(rule: Rule)
    ensures Convert(Monitor, Convert(Enforce, rule)) == Convert(Monitor, rule) <==>
      !Active(rule) || Normal(rule.action) !in ["", "log", "alert"] || rule.action == "alert"
  {
    hide Normal;
    NormalNames();
  }

  lemma ConvertAllUpTo(mode: Mode, fields: map<string, Field>, n: nat)
    requires n <= 4
    ensures RulesUpTo(ConvertFields(mode, fields), n) == ConvertAll(mode, RulesUpTo(fields, n))
  {
    hide Convert;
    if n > 0 {
      ConvertAllUpTo(mode, fields, n - 1);
      var group := GROUPS[n - 1];
      assert group in GROUPS;
      assert RulesOf(ConvertFields(mode, fields), group) == ConvertAll(mode, RulesOf(fields, group));
    }
  }

  lemma SwitchedRules(mode: Mode, policy: Policy, now: string)
    ensures PolicyRules(SwitchTo(mode, policy, now).policy) == ConvertAll(mode, PolicyRules(policy))
  {
    hide ConvertFields, ConvertAll, RulesUpTo;
    match policy.endpoint
    case Endpoint(fields) => ConvertAllUpTo(mode, fields, 4);
    case NoEndpoint(_) => ConvertNone(mode);
  }

  lemma ConvertNone(mode: Mode)
    ensures ConvertAll(mode, []) == []
  {
  }

  lemma QuietLines(mode: Mode, group: string, rules: seq<Rule>)
    requires forall r :: r in rules ==> !Changes(mode, r)
    ensures ChangeLines(mode, group, rules) == []
  {
  }

  lemma QuietLinesUpTo(mode: Mode, fields: map<string, Field>, n: nat)
    requires n <= 4 && forall r :: r in RulesUpTo(fields, n) ==> !Changes(mode, r)
    ensures LinesUpTo(mode, fields, n) == []
  {
    hide Changes, ChangeLines;
    if n > 0 {
      QuietLinesUpTo(mode, fields, n - 1);
      QuietLines(mode, GROUPS[n - 1], RulesOf(fields, GROUPS[n - 1]));
    }
  }

  lemma ConvertAllSettles(mode: Mode, rules: seq<Rule>)
    ensures forall r :: r in ConvertAll(mode, rules) ==> !Changes(mode, r)
    ensures ConvertAll(mode, ConvertAll(mode, rules)) == ConvertAll(mode, rules)
  {
    hide Changes, Convert;
    forall i | 0 <= i < |rules|
      ensures !Changes(mode, Convert(mode, rules[i]))
      ensures Convert(mode, Convert(mode, rules[i])) == Convert(mode, rules[i])
    {
      ConvertRule(mode, rules[i]);
      ConvertChanges(mode, Convert(mode, rules[i]));
    }
  }

  lemma ConvertFieldsSettles(mode: Mode, fields: map<string, Field>)
    ensures ConvertFields(mode, ConvertFields(mode, fields)) == ConvertFields(mode, fields)
  {
    hide ConvertAll;
    var once := ConvertFields(mode, fields);
    forall k | k in fields
      ensures ConvertFields(mode, once)[k] == once[k]
    {
      if k in GROUPS && fields[k].Rules? {
        ConvertAllSettles(mode, fields[k].rules);
      }
    }
  }

  /** Switching to the mode a policy was just switched to changes nothing and reports no change. */
  lemma SwitchIsIdempotent(mode: Mode, policy: Policy, now: string)
    ensures var once := SwitchTo(mode, policy, now).policy;
      SwitchTo(mode, once, now) == Switched(once, 0, [])
  {
    hide ConvertFields, ConvertAll, LinesUpTo, RulesUpTo;
    match policy.endpoint
    case Endpoint(fields) =>
      ConvertFieldsSettles(mode, fields);
      ConvertAllUpTo(mode, fields, 4);
      ConvertAllSettles(mode, RulesUpTo(fields, 4));
      QuietLinesUpTo(mode, ConvertFields(mode, fields), 4);
    case NoEndpoint(_) =>
  }

  /** The same rules in the same places: only the action of an active one may differ. */
  predicate SameButActions(before: seq<Rule>, after: seq<Rule>) {
    && |before| == |after|
    && forall i :: 0 <= i < |before| ==>
      before[i] == after[i] || (Active(before[i]) && Active(after[i]) && after[i].(action := before[i].action) == before[i])
  }

  predicate FieldKept(key: string, before: Field, after: Field) {
    if key in GROUPS && before.Rules? then after.Rules? && SameButActions(before.rules, after.rules) else before == after
  }

  predicate PolicyKept(before: Policy, after: Policy) {
    && before.rest == after.rest
    && (before.endpoint.NoEndpoint? ==> after.endpoint == before.endpoint)
    && (before.endpoint.Endpoint? ==>
      && after.endpoint.Endpoint?
      && after.endpoint.fields.Keys == before.endpoint.fields.Keys
      && forall k :: k in before.endpoint.fields ==> FieldKept(k, before.endpoint.fields[k], after.endpoint.fields[k]))
  }

  /** Rule order, ids, inactive rules and every field outside the four groups survive, and of the meta data whatever
      is not about the switch. */
  lemma SwitchKeeps(mode: Mode, policy: Policy, now: string)
    ensures PolicyKept(policy, SwitchTo(mode, policy, now).policy)
    ensures SwitchTo(mode, policy, now).policy.meta == Meta(if mode.Monitor? then "monitor" else "enforce",
      "tsj-guardian-bot", now, match policy.meta case NoMeta => "" case Meta(_, _, _, rest) => rest)
  {
    hide LinesUpTo;
    if policy.endpoint.Endpoint? {
      var fields := policy.endpoint.fields;
      forall k | k in fields
        ensures FieldKept(k, fields[k], ConvertFields(mode, fields)[k])
      {
        if k in GROUPS && fields[k].Rules? {
          ConvertAllKeeps(mode, fields[k].rules);
        }
      }
    }
  }

  lemma ConvertAllKeeps(mode: Mode, rules: seq<Rule>)
    ensures SameButActions(rules, ConvertAll(mode, rules))
  {
    hide Convert;
    forall i | 0 <= i < |rules|
      ensures rules[i] == Convert(mode, rules[i])
        || (Active(rules[i]) && Active(Convert(mode, rules[i])) && Convert(mode, rules[i]).(action := rules[i].action) == rules[i])
    {
      ConvertRule(mode, rules[i]);
    }
  }

  /** After a switch to monitoring the rules read as monitoring, whatever they were. */
  lemma MonitorReadsMonitor(policy: Policy, now: string)
    ensures Reads(PolicyRules(SwitchTo(Monitor, policy, now).policy), Pure(Monitor))
  {
    hide SwitchTo, PolicyRules, Convert, Blocks;
    SwitchedRules(Monitor, policy, now);
    forall i | 0 <= i < |PolicyRules(policy)|
      ensures !Blocks(Convert(Monitor, PolicyRules(policy)[i]))
    {
      ConvertRule(Monitor, PolicyRules(policy)[i]);
    }
  }

  ghost predicate SomeBlockable(rules: seq<Rule>) {
    exists r :: r in rules && Blockable(r)
  }

  ghost predicate AllBlockable(rules: seq<Rule>) {
    forall r :: r in rules && Active(r) ==> Blockable(r)
  }

  /** After a switch to enforcement the rules read as enforcement exactly when some rule is active and
      every active action was blank, "log", "alert" or "block"; otherwise as monitoring or as mixed. */
  lemma EnforceReads(policy: Policy, now: string)
    ensures var rules := PolicyRules(policy);
      Reads(PolicyRules(SwitchTo(Enforce, policy, now).policy),
        if !SomeBlockable(rules) then Pure(Monitor) else if AllBlockable(rules) then Pure(Enforce) else Mixed)
  {
    hide SwitchTo, PolicyRules, Convert, Blocks, Acts, Active, Blockable;
    SwitchedRules(Enforce, policy, now);
    var rules := PolicyRules(policy);
    var after := ConvertAll(Enforce, rules);
    forall i | 0 <= i < |rules|
      ensures Blocks(after[i]) <==> Blockable(rules[i])
      ensures Acts(after[i]) <==> Active(rules[i])
    {
      ConvertRule(Enforce, rules[i]);
    }
    ReadsAlong(rules, after);
  }

  lemma ReadsAlong(rules: seq<Rule>, after: seq<Rule>)
    requires |rules| == |after|
    requires forall i :: 0 <= i < |rules| ==> (Blocks(after[i]) <==> Blockable(rules[i]))
    requires forall i :: 0 <= i < |rules| ==> (Acts(after[i]) <==> Active(rules[i]))
    ensures Reads(after,
      if !SomeBlockable(rules) then Pure(Monitor) else if AllBlockable(rules) then Pure(Enforce) else Mixed)
  {
    hide Blocks, Acts, Active, Blockable;
    if SomeBlockable(rules) {
      var r :| r in rules && Blockable(r);
      var i :| 0 <= i < |rules| && rules[i] == r;
      assert after[i] in after && Blocks(after[i]);
      if !AllBlockable(rules) {
        var t :| t in rules && Active(t) && !Blockable(t);
        var j :| 0 <= j < |rules| && rules[j] == t;
        assert after[j] in after && Acts(after[j]) && !Blocks(after[j]);
      }
    }
  }

  /** The recorded mode is the one switched to; the rules agree with a recorded enforcement exactly under
      the condition of `EnforceReads`. */
  lemma RecordedAgreesIff(mode: Mode, policy: Policy, now: string)
    ensures var after := SwitchTo(mode, policy, now).policy;
      && RecordedMode(after.meta) == [mode]
      && (Reads(PolicyRules(after), Pure(mode)) <==>
        mode.Enforce? ==> SomeBlockable(PolicyRules(policy)) && AllBlockable(PolicyRules(policy)))
  {
    hide Reads, Normal, PolicyRules, SomeBlockable, AllBlockable;
    NormalNames();
    var after := SwitchTo(mode, policy, now).policy;
    if mode.Monitor? {
      MonitorReadsMonitor(policy, now);
    } else {
      EnforceReads(policy, now);
      if Reads(PolicyRules(after), Pure(Enforce)) {
        var rules := PolicyRules(policy);
        ReadingIsUnique(PolicyRules(after), Pure(Enforce),
          if !SomeBlockable(rules) then Pure(Monitor) else if AllBlockable(rules) then Pure(Enforce) else Mixed);
      }
    }
  }

  /** In how many places two rule lists differ. */
  function Differences(a: seq<Rule>, b: seq<Rule>): nat
    requires |a| == |b|
  {
    if a == [] then 0
    else Differences(a[..|a| - 1], b[..|b| - 1]) + if a[|a| - 1] == b[|b| - 1] then 0 else 1
  }

  lemma DifferencesAppend(a: seq<Rule>, b: seq<Rule>, c: seq<Rule>, d: seq<Rule>)
    requires |a| == |b| && |c| == |d|
    ensures Differences(a + c, b + d) == Differences(a, b) + Differences(c, d)
  {
    if c == [] {
      assert a + c == a && b + d == b;
    } else {
      assert (a + c)[..|a + c| - 1] == a + c[..|c| - 1];
      assert (b + d)[..|b + d| - 1] == b + d[..|d| - 1];
      DifferencesAppend(a, b, c[..|c| - 1], d[..|d| - 1]);
    }
  }

  lemma {:induction false} LinesCountDifferences(mode: Mode, group: string, rules: seq<Rule>)
    ensures |ChangeLines(mode, group, rules)| == Differences(rules, ConvertAll(mode, rules))
  {
    hide Changes, Convert, ChangeLine;
    if rules != [] {
      var n := |rules| - 1;
      LinesCountDifferences(mode, group, rules[..n]);
      ConvertRule(mode, rules[n]);
      assert ConvertAll(mode, rules)[..n] == ConvertAll(mode, rules[..n]);
    }
  }

  lemma {:induction false} LinesUpToCountDifferences(mode: Mode, fields: map<string, Field>, n: nat)
    requires n <= 4
    ensures |LinesUpTo(mode, fields, n)| == Differences(RulesUpTo(fields, n), ConvertAll(mode, RulesUpTo(fields, n)))
  {
    hide ConvertAll, ChangeLines, Differences;
    if n > 0 {
      LinesUpToCountDifferences(mode, fields, n - 1);
      var a, c := RulesUpTo(fields, n - 1), RulesOf(fields, GROUPS[n - 1]);
      LinesCountDifferences(mode, GROUPS[n - 1], c);
      ConvertAllAppend(mode, a, c);
      DifferencesAppend(a, ConvertAll(mode, a), c, ConvertAll(mode, c));
    } else {
      NoDifferences(mode);
    }
  }

  lemma NoDifferences(mode: Mode)
    ensures ConvertAll(mode, []) == [] && Differences([], []) == 0
  {
  }

  lemma ConvertAllAppend(mode: Mode, a: seq<Rule>, c: seq<Rule>)
    ensures ConvertAll(mode, a + c) == ConvertAll(mode, a) + ConvertAll(mode, c)
    ensures |ConvertAll(mode, a)| == |a| && |ConvertAll(mode, c)| == |c|
  {
    hide Convert;
  }

  /** The reported number of changes is the number of rules that differ; the first ten are listed. */
  lemma ChangesAreCounted(mode: Mode, policy: Policy, now: string)
    ensures var switched := SwitchTo(mode, policy, now);
      && |PolicyRules(switched.policy)| == |PolicyRules(policy)|
      && switched.changed == Differences(PolicyRules(policy), PolicyRules(switched.policy))
      && |switched.changes| == if switched.changed < 10 then switched.changed else 10
  {
    hide ConvertAll, LinesUpTo, RulesUpTo, First, Differences, ConvertFields;
    SwitchedRules(mode, policy, now);
    ConvertAllAppend(mode, PolicyRules(policy), []);
    match policy.endpoint
    case Endpoint(fields) =>
      LinesUpToCountDifferences(mode, fields, 4);
      FirstLength(LinesUpTo(mode, fields, 4));
    case NoEndpoint(_) =>
      NoDifferences(mode);
      FirstLength([]);
  }
}
