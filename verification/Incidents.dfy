/** The incident life cycle of the guardian bot: failure quorum, opening and closing, paced automatic
    healing, and the operator timeout with its single fallback. Shell scripts, messages to the operator
    and the escalation target are inputs: what they return is arbitrary, but they do return. */
module Incidents {
  import opened Options
  import opened Text
  import opened TextOrder

  datatype Config = Config(quorum: nat, retrySec: int, operatorTimeout: int, fsImmediate: bool)

  datatype Incident = Incident(created: int, failures: seq<string>, lastAutoheal: int, attempts: nat,
                               acked: bool, escalated: bool, fallback: bool)

  /** The persisted state. */
  datatype State = State(pending: Option<Incident>, streakSignature: string, streakCount: nat, streakFirst: int)

  const FRESH := State(None, "", 0, 0)

  // ----- Failure lines ------------------------------------------------------------------

  function AsSet(lines: seq<string>): set<string> {
    set l | l in lines
  }

  /** The failures without order and repetitions, as one text. */
  function Signature(failures: seq<string>): string {
    JoinLines(Sorted(AsSet(failures)))
  }

  predicate AllLines(lines: seq<string>) {
    forall l :: l in lines ==> IsLine(l)
  }

  /** Signatures stand for failure sets: they are equal exactly when the sets are. */
  lemma SignatureIsSet(a: seq<string>, b: seq<string>)
    requires AllLines(a) && AllLines(b)
    ensures Signature(a) == Signature(b) <==> AsSet(a) == AsSet(b)
    ensures a != [] ==> Signature(a) != ""
  {
    var x, y := Sorted(AsSet(a)), Sorted(AsSet(b));
    if Signature(a) == Signature(b) {
      JoinLinesInjective(x, y);
      assert AsSet(a) == (set l | l in x) == (set l | l in y) == AsSet(b);
    }
    if a != [] {
      assert a[0] in x;
      JoinLinesNonEmpty(x);
    }
  }

  predicate Contains(s: string, part: string)
    requires part != ""
  {
    |part| <= |s| && (s[..|part|] == part || Contains(s[1..], part))
  }

  predicate HasFilesystemCritical(failures: seq<string>) {
    exists i :: 0 <= i < |failures| && Contains(Lower(failures[i]), "filesystem_usage")
  }

  // ----- Inputs -------------------------------------------------------------------------

  /** What one healing attempt meets: when it starts, whether its steps succeeded, and the re-check. */
  datatype Heal = Heal(now: int, stepsOk: bool, recheckRc: int, recheckFailures: seq<string>)

  datatype Input =
    | Check(now: int, rc: int, failures: seq<string>, aiOk: bool, heal: Heal)
    | HealCommand(heal: Heal)
    | Ack(now: int)
    | Resolve(now: int)
    | Tick(now: int, aiOk: bool)  // the timeout evaluation of the main loop

  function StartOf(input: Input): int {
    if input.HealCommand? then input.heal.now else input.now
  }

  function EndOf(input: Input): int {
    if input.Check? || input.HealCommand? then input.heal.now else input.now
  }

  predicate WellFormed(input: Input) {
    && 0 < StartOf(input) <= EndOf(input)
    && (input.Check? ==> AllLines(input.failures))
    && (input.Check? || input.HealCommand? ==> AllLines(input.heal.recheckFailures))
  }

  // ----- The journal: what happened so far ----------------------------------------------

  /** What a check cycle counts as. */
  datatype Mark = Clean | Failing(failures: set<string>) | Opened | Ongoing

  datatype Attempt = Attempt(ts: int, forced: bool)

  /** The marks of all check cycles, and the incident's number, healing attempts, automatic fallbacks and
      successful automatic escalations. */
  datatype Journal = Journal(clock: int, marks: seq<Mark>, serial: nat, attempts: seq<Attempt>,
                             fallbacks: seq<int>, escalations: nat)

  datatype Monitor = Monitor(state: State, journal: Journal)

  const START := Monitor(FRESH, Journal(0, [], 0, [], [], 0))

  // ----- Steps --------------------------------------------------------------------------

  function ResetStreak(s: State): State {
    s.(streakSignature := "", streakCount := 0, streakFirst := 0)
  }

  /** Whether a failure with no incident pending is put off, and the streak afterwards. */
  function Defer(cfg: Config, s: State, failures: seq<string>, now: int): (State, bool) {
    if cfg.quorum <= 1 || HasFilesystemCritical(failures) then (s, false)
    else
      var signature := Signature(failures);
      var t := if signature == s.streakSignature then s.(streakCount := s.streakCount + 1)
        else s.(streakSignature := signature, streakCount := 1, streakFirst := now);
      (t, t.streakCount < cfg.quorum)
  }

  function Autoheal(cfg: Config, m: Monitor, forced: bool, heal: Heal): Monitor {
    if m.state.pending.None? then m
    else
      var pi := m.state.pending.value;
      if !forced && pi.lastAutoheal != 0 && heal.now - pi.lastAutoheal < cfg.retrySec then m
      else
        var tried := pi.(lastAutoheal := heal.now, attempts := pi.attempts + 1);
        var journal := m.journal.(attempts := m.journal.attempts + [Attempt(heal.now, forced)]);
        if heal.recheckRc == 0 && heal.recheckFailures == [] && heal.stepsOk then
          Monitor(m.state.(pending := None), journal)
        else
          var failures := if heal.recheckFailures == [] then pi.failures else heal.recheckFailures;
          Monitor(m.state.(pending := Some(tried.(failures := failures))), journal)
  }

  /** Immediate escalation of a critical file system. */
  function EscalateFilesystem(cfg: Config, m: Monitor, aiOk: bool): Monitor {
    if m.state.pending.Some? && cfg.fsImmediate && HasFilesystemCritical(m.state.pending.value.failures)
       && !m.state.pending.value.escalated then
      Monitor(m.state.(pending := Some(m.state.pending.value.(escalated := aiOk))),
              m.journal.(escalations := m.journal.escalations + if aiOk then 1 else 0))
    else m
  }

  function Open(m: Monitor, failures: seq<string>, now: int): Monitor {
    Monitor(ResetStreak(m.state.(pending := Some(Incident(now, failures, 0, 0, false, false, false)))),
            m.journal.(marks := m.journal.marks + [Failing(AsSet(failures)), Opened],
                       serial := m.journal.serial + 1, attempts := [], fallbacks := [], escalations := 0))
  }

  function CheckCycle(cfg: Config, m: Monitor, input: Input): Monitor
    requires input.Check?
  {
    if input.rc == 0 && input.failures == [] then
      Monitor(ResetStreak(m.state.(pending := None)), m.journal.(marks := m.journal.marks + [Clean]))
    else if input.failures == [] then m
    else if m.state.pending.None? then
      var (deferred, defer) := Defer(cfg, m.state, input.failures, input.now);
      if defer then Monitor(deferred, m.journal.(marks := m.journal.marks + [Failing(AsSet(input.failures))]))
      else
        var begun := Open(Monitor(deferred, m.journal), input.failures, input.now);
        Autoheal(cfg, EscalateFilesystem(cfg, begun, input.aiOk), false, input.heal)
    else
      var known := Monitor(m.state.(pending := Some(m.state.pending.value.(failures := input.failures))),
                           m.journal.(marks := m.journal.marks + [Ongoing]));
      Autoheal(cfg, EscalateFilesystem(cfg, known, input.aiOk), false, input.heal)
  }

  predicate TimedOut(cfg: Config, s: State, now: int) {
    s.pending.Some? && !s.pending.value.acked && now - s.pending.value.created >= cfg.operatorTimeout
  }

  function Timeout(cfg: Config, m: Monitor, now: int, aiOk: bool): Monitor {
    if !TimedOut(cfg, m.state, now) then m
    else
      var pi := m.state.pending.value;
      Monitor(m.state.(pending := Some(pi.(escalated := pi.escalated || aiOk, fallback := true))),
              m.journal.(fallbacks := if pi.fallback then m.journal.fallbacks else m.journal.fallbacks + [now],
                         escalations := m.journal.escalations + if !pi.escalated && aiOk then 1 else 0))
  }

  function Step(cfg: Config, m0: Monitor, input: Input): Monitor {
    var m := Monitor(m0.state, m0.journal.(clock := EndOf(input)));
    match input
    case Check(_, _, _, _, _) => CheckCycle(cfg, m, input)
    case HealCommand(heal) => Autoheal(cfg, m, true, heal)
    case Ack(_) =>
      if m.state.pending.None? then m
      else m.(state := m.state.(pending := Some(m.state.pending.value.(acked := true))))
    case Resolve(_) => m.(state := m.state.(pending := None))
    case Tick(now, aiOk) => Timeout(cfg, m, now, aiOk)
  }

  // ----- The quorum ---------------------------------------------------------------------

  /** How many marks at the end are the same failure. */
  function TrailingRun(marks: seq<Mark>): nat {
    var n := |marks|;
    if n == 0 || !marks[n - 1].Failing? then 0
    else if n > 1 && marks[n - 2] == marks[n - 1] then 1 + TrailingRun(marks[..n - 1])
    else 1
  }

  ghost predicate LastAre(marks: seq<Mark>, k: nat, mark: Mark) {
    k <= |marks| && forall i :: |marks| - k <= i < |marks| ==> marks[i] == mark
  }

  /** The trailing run is the longest stretch of equal failures at the end. */
  lemma {:induction false} TrailingRunIsLongest(marks: seq<Mark>, k: nat)
    requires marks != [] && marks[|marks| - 1].Failing?
    ensures k <= TrailingRun(marks) <==> LastAre(marks, k, marks[|marks| - 1])
    decreases |marks|
  {
    var n := |marks|;
    if k > 1 && n > 1 && marks[n - 2] == marks[n - 1] {
      TrailingRunIsLongest(marks[..n - 1], k - 1);
      assert forall i :: 0 <= i < n - 1 ==> marks[..n - 1][i] == marks[i];
      if LastAre(marks[..n - 1], k - 1, marks[n - 1]) {
        forall i | n - k <= i < n
          ensures marks[i] == marks[n - 1]
        {
          assert i < n - 1 ==> marks[..n - 1][i] == marks[n - 1];
        }
      }
    } else if k > 1 && n > 1 && k <= n {
      assert n - k <= n - 2;
    }
  }

  ghost predicate QuorumReached(cfg: Config, marks: seq<Mark>, failures: seq<string>) {
    cfg.quorum <= |marks| + 1 && LastAre(marks + [Failing(AsSet(failures))], cfg.quorum, Failing(AsSet(failures)))
  }

  // ----- Invariants ---------------------------------------------------------------------

  ghost predicate StreakInv(cfg: Config, s: State, marks: seq<Mark>) {
    && s.streakCount == TrailingRun(marks)
    && (s.streakCount == 0 ==> s.streakSignature == "")
    && (s.streakCount > 0 ==> exists f :: AllLines(f) && f != [] && marks[|marks| - 1] == Failing(AsSet(f)) && s.streakSignature == Signature(f))
    && (s.streakCount > 0 ==> s.streakCount < cfg.quorum)
    && (s.pending.Some? ==> s.streakCount == 0 && s.pending.value.failures != [])
  }

  /** Unforced attempts keep their distance from every earlier attempt. */
  ghost predicate Paced(attempts: seq<Attempt>, retry: int) {
    forall i, j :: 0 <= i < j < |attempts| && !attempts[j].forced ==> attempts[j].ts - attempts[i].ts >= retry
  }

  ghost predicate Timed(attempts: seq<Attempt>, from: int, until: int) {
    && (forall i :: 0 <= i < |attempts| ==> from <= attempts[i].ts <= until)
    && (forall i, j :: 0 <= i < j < |attempts| ==> attempts[i].ts <= attempts[j].ts)
  }

  ghost predicate IncidentInv(cfg: Config, pi: Incident, j: Journal) {
    && 0 < pi.created <= j.clock
    && Timed(j.attempts, pi.created, j.clock)
    && pi.attempts == |j.attempts|
    && pi.lastAutoheal == (if j.attempts == [] then 0 else j.attempts[|j.attempts| - 1].ts)
    && |j.fallbacks| == (if pi.fallback then 1 else 0)
    && (forall i :: 0 <= i < |j.fallbacks| ==> j.fallbacks[i] - pi.created >= cfg.operatorTimeout)
    && j.escalations == if pi.escalated then 1 else 0
  }

  ghost predicate Inv(cfg: Config, m: Monitor) {
    && StreakInv(cfg, m.state, m.journal.marks)
    && Paced(m.journal.attempts, cfg.retrySec)
    && |m.journal.fallbacks| <= 1 && m.journal.escalations <= 1
    && (m.state.pending.Some? ==> IncidentInv(cfg, m.state.pending.value, m.journal))
  }

  // ----- Every step keeps them ----------------------------------------------------------

  lemma ClockMoves(cfg: Config, m: Monitor, t: int)
    requires Inv(cfg, m) && t >= m.journal.clock
    ensures Inv(cfg, Monitor(m.state, m.journal.(clock := t)))
  {
  }

  /** A healing attempt that is not forced is made only when the pause since the last one is over. */
  lemma AutohealKeeps(cfg: Config, m: Monitor, forced: bool, heal: Heal)
    requires Inv(cfg, m) && 0 < heal.now == m.journal.clock
    ensures Inv(cfg, Autoheal(cfg, m, forced, heal))
  {
    if m.state.pending.Some? {
      var pi, before := m.state.pending.value, m.journal.attempts;
      if forced || pi.lastAutoheal == 0 || heal.now - pi.lastAutoheal >= cfg.retrySec {
        AttemptKeeps(before, cfg.retrySec, pi.created, m.journal.clock, forced);
        hide Paced, Timed;
      }
    }
  }

  /** An attempt now keeps the distances, if it is forced or the last one is long enough ago. */
  lemma AttemptKeeps(before: seq<Attempt>, retry: int, from: int, now: int, forced: bool)
    requires Paced(before, retry) && Timed(before, from, now) && from <= now
    requires forced || before == [] || now - before[|before| - 1].ts >= retry
    ensures Paced(before + [Attempt(now, forced)], retry) && Timed(before + [Attempt(now, forced)], from, now)
  {
    var after := before + [Attempt(now, forced)];
    forall i, j | 0 <= i < j < |after| && !after[j].forced
      ensures after[j].ts - after[i].ts >= retry
    {
      if j == |before| {
        assert before[i].ts <= before[|before| - 1].ts;
      }
    }
  }

  lemma EscalateKeeps(cfg: Config, m: Monitor, aiOk: bool)
    requires Inv(cfg, m)
    ensures Inv(cfg, EscalateFilesystem(cfg, m, aiOk))
    ensures EscalateFilesystem(cfg, m, aiOk).journal.clock == m.journal.clock
  {
    hide HasFilesystemCritical;
  }

  lemma TimeoutKeeps(cfg: Config, m: Monitor, now: int, aiOk: bool)
    requires Inv(cfg, m) && now == m.journal.clock
    ensures Inv(cfg, Timeout(cfg, m, now, aiOk))
  {
  }

  lemma OpenKeeps(cfg: Config, m: Monitor, failures: seq<string>, now: int)
    requires failures != [] && 0 < now <= m.journal.clock
    ensures Inv(cfg, Open(m, failures, now))
    ensures Open(m, failures, now).journal.clock == m.journal.clock
  {
  }

  /** A failing cycle with nothing pending is put off exactly while the quorum is not reached. */
  lemma DeferFollowsQuorum(cfg: Config, s: State, marks: seq<Mark>, failures: seq<string>, now: int)
    requires StreakInv(cfg, s, marks) && s.pending.None? && failures != [] && AllLines(failures)
    ensures var (t, defer) := Defer(cfg, s, failures, now);
      && (!defer <==> cfg.quorum <= 1 || HasFilesystemCritical(failures) || QuorumReached(cfg, marks, failures))
      && (defer ==> StreakInv(cfg, t, marks + [Failing(AsSet(failures))]))
      && t.pending.None?
  {
    hide HasFilesystemCritical, Signature;
    var mark := Failing(AsSet(failures));
    var next := marks + [mark];
    TrailingRunIsLongest(next, cfg.quorum);
    assert next[..|marks|] == marks;
    SignatureIsSet(failures, failures);
    if s.streakCount > 0 {
      var f :| AllLines(f) && marks[|marks| - 1] == Failing(AsSet(f)) && s.streakSignature == Signature(f);
      SignatureIsSet(failures, f);
      assert next[|marks| - 1] == Failing(AsSet(f));
      TrailingRunPositive(marks);
    } else {
      TrailingRunPositive(marks);
    }
    assert TrailingRun(next) == if Signature(failures) == s.streakSignature then s.streakCount + 1 else 1;
  }

  lemma TrailingRunPositive(marks: seq<Mark>)
    ensures TrailingRun(marks) > 0 <==> marks != [] && marks[|marks| - 1].Failing?
  {
  }

  lemma CheckKeeps(cfg: Config, m: Monitor, input: Input)
    requires Inv(cfg, m) && input.Check? && WellFormed(input) && m.journal.clock == EndOf(input)
    ensures Inv(cfg, CheckCycle(cfg, m, input))
  {
    hide HasFilesystemCritical, Signature, Autoheal, EscalateFilesystem, IncidentInv, Paced;
    if input.failures == [] {
      if input.rc == 0 {
        CleanKeeps(cfg, m);
      }
    } else if m.state.pending.None? {
      DeferFollowsQuorum(cfg, m.state, m.journal.marks, input.failures, input.now);
      var (deferred, defer) := Defer(cfg, m.state, input.failures, input.now);
      if !defer {
        var begun := Open(Monitor(deferred, m.journal), input.failures, input.now);
        OpenKeeps(cfg, Monitor(deferred, m.journal), input.failures, input.now);
        EscalateKeeps(cfg, begun, input.aiOk);
        AutohealKeeps(cfg, EscalateFilesystem(cfg, begun, input.aiOk), false, input.heal);
      }
    } else {
      OngoingKeeps(cfg, m, input.failures);
      var known := Monitor(m.state.(pending := Some(m.state.pending.value.(failures := input.failures))),
                           m.journal.(marks := m.journal.marks + [Ongoing]));
      EscalateKeeps(cfg, known, input.aiOk);
      AutohealKeeps(cfg, EscalateFilesystem(cfg, known, input.aiOk), false, input.heal);
    }
  }

  lemma CleanKeeps(cfg: Config, m: Monitor)
    requires Inv(cfg, m)
    ensures Inv(cfg, Monitor(ResetStreak(m.state.(pending := None)), m.journal.(marks := m.journal.marks + [Clean])))
  {
  }

  lemma OngoingKeeps(cfg: Config, m: Monitor, failures: seq<string>)
    requires Inv(cfg, m) && m.state.pending.Some? && failures != []
    ensures Inv(cfg, Monitor(m.state.(pending := Some(m.state.pending.value.(failures := failures))),
                             m.journal.(marks := m.journal.marks + [Ongoing])))
  {
  }

  lemma StepKeeps(cfg: Config, m: Monitor, input: Input)
    requires Inv(cfg, m) && WellFormed(input) && StartOf(input) >= m.journal.clock
    ensures Inv(cfg, Step(cfg, m, input))
  {
    hide CheckCycle, Autoheal, Timeout;
    ClockMoves(cfg, m, EndOf(input));
    var timed := Monitor(m.state, m.journal.(clock := EndOf(input)));
    match input
    case Check(_, _, _, _, _) => CheckKeeps(cfg, timed, input);
    case HealCommand(heal) => AutohealKeeps(cfg, timed, true, heal);
    case Ack(_) =>
    case Resolve(_) =>
    case Tick(now, aiOk) => TimeoutKeeps(cfg, timed, now, aiOk);
  }

  // ----- Whole runs ---------------------------------------------------------------------

  /** Inputs in the order in which the main loop meets them, with a clock that does not run backwards. */
  ghost predicate Proper(clock: int, inputs: seq<Input>)
    decreases |inputs|
  {
    inputs != [] ==>
      && WellFormed(inputs[0]) && StartOf(inputs[0]) >= clock
      && Proper(EndOf(inputs[0]), inputs[1..])
  }

  function Run(cfg: Config, m: Monitor, inputs: seq<Input>): Monitor
    decreases |inputs|
  {
    if inputs == [] then m else Run(cfg, Step(cfg, m, inputs[0]), inputs[1..])
  }

  lemma StepClock(cfg: Config, m: Monitor, input: Input)
    ensures Step(cfg, m, input).journal.clock == EndOf(input)
  {
    hide HasFilesystemCritical, Signature;
  }

  /** Every reachable state: a pending incident has failures and a zero streak, the streak stays below the
      quorum, unforced attempts keep their distance, and there is at most one automatic fallback. */
  lemma {:induction false} RunKeeps(cfg: Config, m: Monitor, inputs: seq<Input>)
    requires Inv(cfg, m) && Proper(m.journal.clock, inputs)
    ensures Inv(cfg, Run(cfg, m, inputs))
    decreases |inputs|
  {
    hide Step, Inv;
    if inputs != [] {
      StepKeeps(cfg, m, inputs[0]);
      StepClock(cfg, m, inputs[0]);
      RunKeeps(cfg, Step(cfg, m, inputs[0]), inputs[1..]);
    }
  }

  lemma StartIsFine(cfg: Config)
    ensures Inv(cfg, START)
  {
  }

  lemma AutohealSameIncident(cfg: Config, m: Monitor, forced: bool, heal: Heal)
    ensures Autoheal(cfg, m, forced, heal).journal.serial == m.journal.serial
    ensures Autoheal(cfg, m, forced, heal).journal.marks == m.journal.marks
    ensures Autoheal(cfg, m, forced, heal).journal.fallbacks == m.journal.fallbacks
    ensures Autoheal(cfg, m, forced, heal).state.pending.Some? ==>
      m.state.pending.Some? && Autoheal(cfg, m, forced, heal).state.pending.value.acked == m.state.pending.value.acked
  {
  }

  lemma EscalateSameIncident(cfg: Config, m: Monitor, aiOk: bool)
    ensures EscalateFilesystem(cfg, m, aiOk).journal.serial == m.journal.serial
    ensures EscalateFilesystem(cfg, m, aiOk).journal.fallbacks == m.journal.fallbacks
    ensures EscalateFilesystem(cfg, m, aiOk).state.pending.Some? ==>
      m.state.pending.Some? && EscalateFilesystem(cfg, m, aiOk).state.pending.value.acked == m.state.pending.value.acked
  {
    hide HasFilesystemCritical;
  }

  /** When an incident is opened: exactly by a failing check cycle with nothing pending, and then exactly
      when the quorum is off, a file system is critical, or this and the cycles before it are `quorum`
      failing cycles in a row with the same failures. */
  lemma OpensIffQuorum(cfg: Config, inputs: seq<Input>, input: Input)
    requires Proper(START.journal.clock, inputs)
    requires WellFormed(input) && StartOf(input) >= Run(cfg, START, inputs).journal.clock
    ensures var m := Run(cfg, START, inputs);
      Step(cfg, m, input).journal.serial == m.journal.serial + 1
      <==> input.Check? && input.failures != [] && m.state.pending.None?
           && (cfg.quorum <= 1 || HasFilesystemCritical(input.failures) || QuorumReached(cfg, m.journal.marks, input.failures))
    ensures var m := Run(cfg, START, inputs);
      Step(cfg, m, input).journal.serial in {m.journal.serial, m.journal.serial + 1}
  {
    hide HasFilesystemCritical, Signature, QuorumReached, Autoheal, EscalateFilesystem, Defer, Run, Inv, IncidentInv;
    StartIsFine(cfg);
    RunKeeps(cfg, START, inputs);
    OpensIffQuorumStep(cfg, Run(cfg, START, inputs), input);
  }

  lemma InvStreak(cfg: Config, m: Monitor)
    requires Inv(cfg, m)
    ensures StreakInv(cfg, m.state, m.journal.marks)
  {
  }

  lemma OpensIffQuorumStep(cfg: Config, m: Monitor, input: Input)
    requires Inv(cfg, m) && WellFormed(input)
    ensures Step(cfg, m, input).journal.serial == m.journal.serial + 1
      <==> input.Check? && input.failures != [] && m.state.pending.None?
           && (cfg.quorum <= 1 || HasFilesystemCritical(input.failures) || QuorumReached(cfg, m.journal.marks, input.failures))
    ensures Step(cfg, m, input).journal.serial in {m.journal.serial, m.journal.serial + 1}
  {
    hide HasFilesystemCritical, Signature, QuorumReached, Autoheal, EscalateFilesystem, Defer, Inv, StreakInv;
    var timed := Monitor(m.state, m.journal.(clock := EndOf(input)));
    match input
    case Check(now, rc, failures, aiOk, heal) =>
      if failures != [] && timed.state.pending.None? {
        InvStreak(cfg, m);
        DeferFollowsQuorum(cfg, timed.state, timed.journal.marks, failures, now);
        var (deferred, defer) := Defer(cfg, timed.state, failures, now);
        var begun := Open(Monitor(deferred, timed.journal), failures, now);
        EscalateSameIncident(cfg, begun, aiOk);
        AutohealSameIncident(cfg, EscalateFilesystem(cfg, begun, aiOk), false, heal);
      } else if failures != [] {
        var known := Monitor(timed.state.(pending := Some(timed.state.pending.value.(failures := failures))),
                             timed.journal.(marks := timed.journal.marks + [Ongoing]));
        EscalateSameIncident(cfg, known, aiOk);
        AutohealSameIncident(cfg, EscalateFilesystem(cfg, known, aiOk), false, heal);
      }
    case HealCommand(heal) => AutohealSameIncident(cfg, timed, true, heal);
    case Ack(_) =>
    case Resolve(_) =>
    case Tick(_, _) =>
  }

  function Unforced(attempts: seq<Attempt>): nat {
    if attempts == [] then 0
    else Unforced(attempts[..|attempts| - 1]) + if attempts[|attempts| - 1].forced then 0 else 1
  }

  lemma PacedFront(attempts: seq<Attempt>, retry: int, from: int, until: int)
    requires Paced(attempts, retry) && Timed(attempts, from, until) && attempts != []
    ensures var n := |attempts| - 1;
      && Paced(attempts[..n], retry) && Timed(attempts[..n], from, until)
      && (n > 0 ==> Timed(attempts[..n], from, attempts[n - 1].ts) && from <= attempts[n - 1].ts)
      && (n > 0 && !attempts[n].forced ==> attempts[n - 1].ts + retry <= attempts[n].ts <= until)
  {
  }

  lemma OneMore(n: int, retry: int)
    ensures n * retry + retry == (n + 1) * retry
  {
  }

  lemma {:induction false} PacedBound(attempts: seq<Attempt>, retry: int, from: int, until: int)
    requires Paced(attempts, retry) && Timed(attempts, from, until) && from <= until
    ensures Unforced(attempts) > 0 ==> (Unforced(attempts) - 1) * retry <= until - from
    decreases |attempts|
  {
    if attempts != [] {
      var n := |attempts| - 1;
      PacedFront(attempts, retry, from, until);
      var u := Unforced(attempts[..n]);
      hide Paced, Timed;
      if attempts[n].forced {
        PacedBound(attempts[..n], retry, from, until);
      } else if u > 0 {
        PacedBound(attempts[..n], retry, from, attempts[n - 1].ts);
        OneMore(u - 1, retry);
      }
    }
  }

  /** Through any run, the healing attempts of an incident that nobody forced number at most one plus the
      time since it was opened over the retry pause. */
  lemma AutohealIsPaced(cfg: Config, inputs: seq<Input>)
    requires Proper(START.journal.clock, inputs) && cfg.retrySec > 0
    ensures var m := Run(cfg, START, inputs);
      m.state.pending.Some? && Unforced(m.journal.attempts) > 0 ==>
        (Unforced(m.journal.attempts) - 1) * cfg.retrySec <= m.journal.clock - m.state.pending.value.created
  {
    hide Run, StreakInv;
    StartIsFine(cfg);
    RunKeeps(cfg, START, inputs);
    var m := Run(cfg, START, inputs);
    if m.state.pending.Some? {
      PacedBound(m.journal.attempts, cfg.retrySec, m.state.pending.value.created, m.journal.clock);
    }
  }

  /** Once acknowledged, an incident gets no automatic fallback any more, whatever follows. */
  lemma {:induction false} NoFallbackAfterAck(cfg: Config, m: Monitor, inputs: seq<Input>)
    requires m.state.pending.Some? && m.state.pending.value.acked
    ensures var after := Run(cfg, m, inputs);
      after.journal.serial == m.journal.serial ==> after.journal.fallbacks == m.journal.fallbacks
    decreases |inputs|
  {
    QuietWhile(cfg, m, inputs);
  }

  /** Nothing pending, or only an acknowledged incident. */
  predicate Quiet(m: Monitor) {
    m.state.pending.None? || m.state.pending.value.acked
  }

  lemma {:induction false} QuietWhile(cfg: Config, m: Monitor, inputs: seq<Input>)
    requires Quiet(m)
    ensures Run(cfg, m, inputs).journal.serial >= m.journal.serial
    ensures Run(cfg, m, inputs).journal.serial == m.journal.serial ==>
      Run(cfg, m, inputs).journal.fallbacks == m.journal.fallbacks
    decreases |inputs|
  {
    hide Step;
    if inputs != [] {
      QuietStep(cfg, m, inputs[0]);
      SerialGrows(cfg, Step(cfg, m, inputs[0]), inputs[1..]);
      if Step(cfg, m, inputs[0]).journal.serial == m.journal.serial {
        QuietWhile(cfg, Step(cfg, m, inputs[0]), inputs[1..]);
      }
    }
  }

  lemma {:induction false} SerialGrows(cfg: Config, m: Monitor, inputs: seq<Input>)
    ensures Run(cfg, m, inputs).journal.serial >= m.journal.serial
    decreases |inputs|
  {
    hide Step;
    if inputs != [] {
      SerialStep(cfg, m, inputs[0]);
      SerialGrows(cfg, Step(cfg, m, inputs[0]), inputs[1..]);
    }
  }

  lemma SerialStep(cfg: Config, m: Monitor, input: Input)
    ensures Step(cfg, m, input).journal.serial >= m.journal.serial
  {
    hide HasFilesystemCritical, Signature;
  }

  lemma QuietStep(cfg: Config, m: Monitor, input: Input)
    requires Quiet(m)
    ensures Step(cfg, m, input).journal.serial >= m.journal.serial
    ensures Step(cfg, m, input).journal.serial == m.journal.serial ==>
      Quiet(Step(cfg, m, input)) && Step(cfg, m, input).journal.fallbacks == m.journal.fallbacks
  {
    hide HasFilesystemCritical, Signature;
  }

  /** An automatic fallback happens only to an incident that nobody acknowledged, not before the operator
      timeout, and not twice. */
  lemma FallbackOnlyOnTimeout(cfg: Config, m: Monitor, input: Input)
    requires Inv(cfg, m) && WellFormed(input)
    requires |Step(cfg, m, input).journal.fallbacks| > |m.journal.fallbacks|
    ensures input.Tick? && m.state.pending.Some? && !m.state.pending.value.acked
    ensures input.now - m.state.pending.value.created >= cfg.operatorTimeout
    ensures m.journal.fallbacks == []
  {
    hide HasFilesystemCritical, Signature;
  }
}
