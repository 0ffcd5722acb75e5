/** What becomes of a pending incident: what closes it, what it looks like otherwise, and when the bot acts on it.
    Everything is said of the input that the incident meets, and then of whole runs. */
module IncidentFates {
  import opened Incidents
  import opened Options
  import opened Text

  // ----- What an input does to an incident ----------------------------------------------

  predicate Healed(heal: Heal) {
    heal.stepsOk && heal.recheckRc == 0 && heal.recheckFailures == []
  }

  /** The input makes the bot try to heal: an operator's command always, a failing check cycle when nothing was tried
      before or the pause is over. */
  predicate Tries(cfg: Config, pi: Incident, input: Input) {
    || input.HealCommand?
    || (input.Check? && input.failures != []
        && (pi.lastAutoheal == 0 || input.heal.now - pi.lastAutoheal >= cfg.retrySec))
  }

  /** A clean check cycle, an operator's resolution, or an attempt whose steps succeed and whose re-check is clean. */
  predicate Closes(cfg: Config, pi: Incident, input: Input) {
    || (input.Check? && input.rc == 0 && input.failures == [])
    || input.Resolve?
    || (Tries(cfg, pi, input) && Healed(input.heal))
  }

  /** The operator's time is over. */
  predicate Overdue(cfg: Config, pi: Incident, input: Input) {
    input.Tick? && !pi.acked && input.now - pi.created >= cfg.operatorTimeout
  }

  /** A critical file system is reported and is to be escalated at once. */
  predicate Urgent(cfg: Config, input: Input) {
    input.Check? && cfg.fsImmediate && HasFilesystemCritical(input.failures)
  }

  /** The failures after an input: those of the re-check, else those of the check cycle, else the ones before. */
  function FailuresAfter(cfg: Config, pi: Incident, input: Input): seq<string> {
    if Tries(cfg, pi, input) && input.heal.recheckFailures != [] then input.heal.recheckFailures
    else if input.Check? && input.failures != [] then input.failures
    else pi.failures
  }

  /** A pending incident is closed exactly by a clean check cycle, a resolution or a successful attempt. Whatever else
      the bot meets, the same incident stays pending, with these failures, attempts and flags. */
  lemma ClosesIff(cfg: Config, m: Monitor, input: Input)
    requires m.state.pending.Some?
    ensures var pi, after := m.state.pending.value, Step(cfg, m, input);
      && after.journal.serial == m.journal.serial
      && (after.state.pending.None? <==> Closes(cfg, pi, input))
      && (!Closes(cfg, pi, input) ==> after.state.pending.value == Incident(
        pi.created,
        FailuresAfter(cfg, pi, input),
        if Tries(cfg, pi, input) then input.heal.now else pi.lastAutoheal,
        if Tries(cfg, pi, input) then pi.attempts + 1 else pi.attempts,
        pi.acked || input.Ack?,
        pi.escalated || ((Overdue(cfg, pi, input) || Urgent(cfg, input)) && input.aiOk),
        pi.fallback || Overdue(cfg, pi, input)))
  {
    hide HasFilesystemCritical, Signature;
    NothingIsCritical();
  }

  lemma NothingIsCritical()
    ensures !HasFilesystemCritical([])
  {
  }

  /** Attempts are made exactly when they are due or asked for; an automatic fallback exactly when the operator's time
      is over, for the first time. */
  lemma ActsIff(cfg: Config, m: Monitor, input: Input)
    requires m.state.pending.Some?
    ensures var pi, after := m.state.pending.value, Step(cfg, m, input);
      && after.journal.attempts == m.journal.attempts
        + (if Tries(cfg, pi, input) then [Attempt(input.heal.now, input.HealCommand?)] else [])
      && after.journal.fallbacks == m.journal.fallbacks
        + (if Overdue(cfg, pi, input) && !pi.fallback then [input.now] else [])
  {
    hide HasFilesystemCritical, Signature;
  }

  /** An incident that is opened is tried to heal at once; it stays pending, with nothing acknowledged or fallen back
      to, unless that succeeds. Without an opening nothing is pending. */
  lemma OpenedIsTried(cfg: Config, m: Monitor, input: Input)
    requires m.state.pending.None?
    ensures var after := Step(cfg, m, input);
      && (after.journal.serial == m.journal.serial ==> after.state.pending.None?)
      && (after.journal.serial != m.journal.serial ==>
        && input.Check?
        && after.journal.attempts == [Attempt(input.heal.now, false)] && after.journal.fallbacks == []
        && after.state.pending == if Healed(input.heal) then None else Some(Incident(
          input.now, if input.heal.recheckFailures != [] then input.heal.recheckFailures else input.failures,
          input.heal.now, 1, false, Urgent(cfg, input) && input.aiOk, false)))
  {
    hide HasFilesystemCritical, Signature;
  }

  // ----- Whole runs ---------------------------------------------------------------------

  lemma {:induction false} RunOfPrefix(cfg: Config, m: Monitor, inputs: seq<Input>, j: nat)
    requires 0 < j <= |inputs|
    ensures Run(cfg, m, inputs[..j]) == Run(cfg, Step(cfg, m, inputs[0]), inputs[1..][..j - 1])
  {
    hide Step;
    assert inputs[..j][0] == inputs[0] && inputs[..j][1..] == inputs[1..][..j - 1];
  }

  /** Input `j` closes the incident that was pending at the beginning. */
  ghost predicate ClosedBy(cfg: Config, m: Monitor, inputs: seq<Input>, j: int) {
    && 0 <= j < |inputs|
    && Run(cfg, m, inputs[..j]).journal.serial == m.journal.serial
    && Run(cfg, m, inputs[..j]).state.pending.Some?
    && Closes(cfg, Run(cfg, m, inputs[..j]).state.pending.value, inputs[j])
  }

  /** Over any run an incident is gone, or replaced by another one, exactly if one of the inputs closed it. */
  lemma {:induction false} GoneIffClosed(cfg: Config, m: Monitor, inputs: seq<Input>)
    requires m.state.pending.Some?
    ensures Run(cfg, m, inputs).state.pending.None? || Run(cfg, m, inputs).journal.serial != m.journal.serial
      <==> exists j :: ClosedBy(cfg, m, inputs, j)
    decreases |inputs|
  {
    hide Step, Closes, FailuresAfter, Tries, Overdue;
    if inputs != [] {
      assert inputs[..0] == [];
      var pi, next := m.state.pending.value, Step(cfg, m, inputs[0]);
      ClosesIff(cfg, m, inputs[0]);
      if Closes(cfg, pi, inputs[0]) {
        assert ClosedBy(cfg, m, inputs, 0);
        StaysGone(cfg, next, inputs[1..]);
      } else {
        GoneIffClosed(cfg, next, inputs[1..]);
        forall j | 0 < j < |inputs|
          ensures ClosedBy(cfg, m, inputs, j) <==> ClosedBy(cfg, next, inputs[1..], j - 1)
        {
          RunOfPrefix(cfg, m, inputs, j);
        }
        assert !ClosedBy(cfg, m, inputs, 0);
        assert forall j :: ClosedBy(cfg, next, inputs[1..], j) ==> ClosedBy(cfg, m, inputs, j + 1);
      }
    }
  }

  lemma {:induction false} StaysGone(cfg: Config, m: Monitor, inputs: seq<Input>)
    requires m.state.pending.None?
    ensures Run(cfg, m, inputs).state.pending.None? || Run(cfg, m, inputs).journal.serial > m.journal.serial
    decreases |inputs|
  {
    hide Step;
    if inputs != [] {
      var next := Step(cfg, m, inputs[0]);
      OpenedIsTried(cfg, m, inputs[0]);
      SerialStep(cfg, m, inputs[0]);
      if next.journal.serial == m.journal.serial {
        StaysGone(cfg, next, inputs[1..]);
      } else {
        SerialGrows(cfg, next, inputs[1..]);
      }
    }
  }

  // ----- Critical file systems ----------------------------------------------------------

  ghost predicate Occurs(s: string, part: string) {
    exists a: string, b: string :: s == a + part + b
  }

  lemma OccursLater(s: string, part: string)
    requires part != "" && |part| <= |s| && s[..|part|] != part
    ensures Occurs(s, part) <==> Occurs(s[1..], part)
  {
    if Occurs(s, part) {
      var a: string, b: string :| s == a + part + b;
      assert a != "" by {
        assert s[|a|..|a| + |part|] == part;
      }
      assert s[1..] == a[1..] + part + b;
    }
    if Occurs(s[1..], part) {
      var a: string, b: string :| s[1..] == a + part + b;
      assert s == ([s[0]] + a) + part + b;
    }
  }

  lemma {:induction false} ContainsIff(s: string, part: string)
    requires part != ""
    ensures Contains(s, part) <==> Occurs(s, part)
    decreases |s|
  {
    if |part| <= |s| {
      if s[..|part|] == part {
        assert s == "" + part + s[|part|..];
      } else {
        hide Occurs;
        OccursLater(s, part);
        ContainsIff(s[1..], part);
      }
    }
  }

  /** A failure is about a critical file system when `filesystem_usage` occurs in it, in whatever case. */
  lemma CriticalIff(failures: seq<string>)
    ensures HasFilesystemCritical(failures) <==>
      exists i :: 0 <= i < |failures| && Occurs(Lower(failures[i]), "filesystem_usage")
  {
    hide Contains, Occurs;
    forall i | 0 <= i < |failures|
      ensures Contains(Lower(failures[i]), "filesystem_usage") <==> Occurs(Lower(failures[i]), "filesystem_usage")
    {
      ContainsIff(Lower(failures[i]), "filesystem_usage");
    }
  }
}
