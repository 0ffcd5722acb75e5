/** The guardian bot's incident handling as methods over its persisted state. Each method is proved
    against the step of `Incidents` that the whole-run results are about. */
module IncidentBot {
  import opened Incidents
  import opened Options

  class GuardianBot {
    const cfg: Config
    var pendingIncident: Option<Incident>
    var streakSignature: string
    var streakCount: nat
    var streakFirst: int
    ghost var journal: Journal

    ghost function Monitor(): Incidents.Monitor
      reads this
    {
      Incidents.Monitor(State(pendingIncident, streakSignature, streakCount, streakFirst), journal)
    }

    constructor (cfg: Config)
      ensures this.cfg == cfg && Monitor() == START
    {
      this.cfg := cfg;
      pendingIncident, streakSignature, streakCount, streakFirst := None, "", 0, 0;
      journal := START.journal;
    }

    method ResetFailureStreak()
      modifies this
      ensures Monitor() == Incidents.Monitor(ResetStreak(old(Monitor()).state), old(journal))
    {
      streakSignature, streakCount, streakFirst := "", 0, 0;
    }

    method DeferTransientNewIncident(failures: seq<string>, now: int) returns (deferred: bool)
      modifies this
      ensures (Monitor().state, deferred) == Defer(cfg, old(Monitor()).state, failures, now)
      ensures journal == old(journal)
    {
      if cfg.quorum <= 1 || HasFilesystemCritical(failures) {
        return false;
      }
      var signature := Signature(failures);
      if signature == streakSignature {
        streakCount := streakCount + 1;
      } else {
        streakSignature := signature;
        streakCount := 1;
        streakFirst := now;
      }
      deferred := streakCount < cfg.quorum;
    }

    method AttemptAutoheal(forced: bool, heal: Heal)
      modifies this
      ensures Monitor() == Autoheal(cfg, old(Monitor()), forced, heal)
    {
      if pendingIncident.None? {
        return;
      }
      var pi := pendingIncident.value;
      if !forced && pi.lastAutoheal != 0 && heal.now - pi.lastAutoheal < cfg.retrySec {
        return;
      }
      pi := pi.(lastAutoheal := heal.now, attempts := pi.attempts + 1);
      pendingIncident := Some(pi);
      journal := journal.(attempts := journal.attempts + [Attempt(heal.now, forced)]);
      if heal.recheckRc == 0 && heal.recheckFailures == [] && heal.stepsOk {
        pendingIncident := None;
        return;
      }
      if heal.recheckFailures != [] {
        pi := pi.(failures := heal.recheckFailures);
      }
      pendingIncident := Some(pi);
    }

    method EscalateCriticalFilesystem(aiOk: bool)
      modifies this
      ensures Monitor() == EscalateFilesystem(cfg, old(Monitor()), aiOk)
    {
      if pendingIncident.Some? && cfg.fsImmediate && HasFilesystemCritical(pendingIncident.value.failures)
         && !pendingIncident.value.escalated {
        pendingIncident := Some(pendingIncident.value.(escalated := aiOk));
        journal := journal.(escalations := journal.escalations + if aiOk then 1 else 0);
      }
    }

    method HandleCheckCycle(now: int, rc: int, failures: seq<string>, aiOk: bool, heal: Heal)
      modifies this
      ensures Monitor() == Step(cfg, old(Monitor()), Check(now, rc, failures, aiOk, heal))
    {
      hide HasFilesystemCritical, Defer, Autoheal, EscalateFilesystem;
      journal := journal.(clock := heal.now);
      ghost var timed := Monitor();
      if rc == 0 && failures == [] {
        pendingIncident := None;
        ResetFailureStreak();
        journal := journal.(marks := journal.marks + [Clean]);
        return;
      }
      if failures == [] {
        return;
      }
      if pendingIncident.None? {
        var deferred := DeferTransientNewIncident(failures, now);
        if deferred {
          journal := journal.(marks := journal.marks + [Failing(AsSet(failures))]);
          return;
        }
        ghost var before := Monitor();
        pendingIncident := Some(Incident(now, failures, 0, 0, false, false, false));
        ResetFailureStreak();
        journal := journal.(marks := journal.marks + [Failing(AsSet(failures)), Opened],
                            serial := journal.serial + 1, attempts := [], fallbacks := [], escalations := 0);
        assert Monitor() == Open(before, failures, now);
      } else {
        pendingIncident := Some(pendingIncident.value.(failures := failures));
        journal := journal.(marks := journal.marks + [Ongoing]);
      }
      EscalateCriticalFilesystem(aiOk);
      AttemptAutoheal(false, heal);
    }

    method HealCommand(heal: Heal)
      modifies this
      ensures Monitor() == Step(cfg, old(Monitor()), Incidents.HealCommand(heal))
    {
      journal := journal.(clock := heal.now);
      AttemptAutoheal(true, heal);
    }

    method Acknowledge(now: int)
      modifies this
      ensures Monitor() == Step(cfg, old(Monitor()), Ack(now))
      ensures pendingIncident.Some? == old(pendingIncident).Some?
      ensures pendingIncident.Some? ==> pendingIncident.value == old(pendingIncident).value.(acked := true)
    {
      journal := journal.(clock := now);
      if pendingIncident.Some? {
        pendingIncident := Some(pendingIncident.value.(acked := true));
      }
    }

    method ResolveIncident(now: int)
      modifies this
      ensures Monitor() == Step(cfg, old(Monitor()), Resolve(now))
      ensures pendingIncident == None
    {
      journal := journal.(clock := now);
      pendingIncident := None;
    }

    method EvaluateTimeoutEscalation(now: int, aiOk: bool)
      modifies this
      ensures Monitor() == Step(cfg, old(Monitor()), Tick(now, aiOk))
    {
      journal := journal.(clock := now);
      if pendingIncident.None? {
        return;
      }
      var pi := pendingIncident.value;
      if pi.acked {
        return;
      }
      if now - pi.created < cfg.operatorTimeout {
        return;
      }
      var shouldEscalate, shouldFallback := !pi.escalated, !pi.fallback;
      if shouldEscalate {
        pi := pi.(escalated := aiOk);
        pendingIncident := Some(pi);
        journal := journal.(escalations := journal.escalations + if aiOk then 1 else 0);
      }
      if shouldFallback {
        pi := pi.(fallback := true);
        pendingIncident := Some(pi);
        journal := journal.(fallbacks := journal.fallbacks + [now]);
      }
    }
  }
}
