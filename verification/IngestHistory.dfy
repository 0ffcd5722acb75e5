/** How often a file is loaded over a history of cycles, while files arrive and grow old enough between them. */
module IngestHistory {
  import opened Ingest
  import opened IngestDerived
  import opened IngestExact
  import opened IngestSafety

  // ----- Histories ----------------------------------------------------------------------

  function Found(s: State, r: Round): State {
    s.(landing := r.landing)
  }

  function Next(s: State, r: Round): State {
    Cycle(r.cfg, Found(s, r), r.steps)
  }

  /** The round ends without an error and before it is killed. */
  predicate Complete(s: State, r: Round) {
    CyclePlan(r.cfg, Found(s, r)).ok && r.steps >= |CyclePlan(r.cfg, Found(s, r)).effects|
  }

  /** How many rounds are cut off. */
  function CutOff(s: State, rounds: seq<Round>): nat
    decreases |rounds|
  {
    if rounds == [] then 0
    else (if Complete(s, rounds[0]) then 0 else 1) + CutOff(Next(s, rounds[0]), rounds[1..])
  }

  ghost predicate NotDerived(landing: Landing, p: Path) {
    forall q :: !Derives(landing, q, p)
  }

  /** Only the cycles touch the file: between them it may grow old enough, but it keeps its content and is not put
      back when it is gone, and no round derives onto it. Anything may happen to the other files. */
  ghost predicate LeftAlone(s: State, rounds: seq<Round>, p: Path)
    decreases |rounds|
  {
    rounds != [] ==>
      && (p in s.landing <==> p in rounds[0].landing)
      && (p in s.landing ==> Aged(s.landing[p], rounds[0].landing[p]))
      && NotDerived(rounds[0].landing, p)
      && LeftAlone(Next(s, rounds[0]), rounds[1..], p)
  }

  /** The round finds the file old enough, and loads files of its dataset. */
  predicate Offered(r: Round, p: Path) {
    !r.cfg.dryRun && p.dataset in r.cfg.Datasets() && p in r.landing && r.landing[p].ready
  }

  ghost predicate EverOffered(rounds: seq<Round>, p: Path) {
    exists i :: 0 <= i < |rounds| && Offered(rounds[i], p)
  }

  ghost predicate AllRetire(rounds: seq<Round>) {
    forall i :: 0 <= i < |rounds| ==> rounds[i].cfg.Retires() || rounds[i].cfg.dryRun
  }

  /** What the landed file holds, if it is landed. */
  predicate HoldsOnly(landing: Landing, l: Load) {
    l.path in landing ==> landing[l.path].content == Rows(l.rows)
  }

  // ----- One round ----------------------------------------------------------------------

  lemma UnderivedStays(cfg: Config, s: State, p: Path)
    requires NotDerived(s.landing, p) && BuildPlan(cfg, s.landing).ok
    ensures SameAt(s.landing, Built(cfg, s).landing, p)
  {
    hide BuildPlan, Built;
    if cfg.dryRun {
      DryBuild(cfg, s);
    } else {
      BuiltAt(cfg, s, p, p);
    }
  }

  lemma CompleteIsAfter(s: State, r: Round)
    requires Complete(s, r)
    ensures Next(s, r) == After(r.cfg, Found(s, r))
    ensures BuildPlan(r.cfg, r.landing).ok
  {
    var es := CyclePlan(r.cfg, Found(s, r)).effects;
    assert es[..|es|] == es;
  }

  /** A complete round loads a file that it is offered, and takes it away if it retires files. */
  lemma CompleteRound(s: State, r: Round, l: Load)
    requires Complete(s, r) && NotDerived(r.landing, l.path) && HoldsOnly(r.landing, l) && l.rows != []
    ensures multiset(Next(s, r).core)[l] == multiset(s.core)[l] + Once(Offered(r, l.path))
    ensures if r.cfg.Retires() && Offered(r, l.path) then l.path !in Next(s, r).landing
      else SameAt(r.landing, Next(s, r).landing, l.path)
  {
    hide BuildPlan, Built, After, CyclePlan;
    var found := Found(s, r);
    if r.cfg.dryRun {
      DryRound(s, r);
    } else {
      CompleteIsAfter(s, r);
      assert CyclePlan(r.cfg, found).ok;
      UnderivedStays(r.cfg, found, l.path);
      CompleteCycleLoadsOnce(r.cfg, found, l);
      CompleteCycleLeaves(r.cfg, found, l.path);
    }
  }

  lemma DryRound(s: State, r: Round)
    requires r.cfg.dryRun
    ensures Next(s, r) == Found(s, r)
  {
    DryCycle(r.cfg, Found(s, r));
  }

  lemma {:induction false} NothingComesBack(s: State, es: seq<Effect>, p: Path)
    requires forall e :: e in es && e.Derive? ==> e.derivation.target != p
    ensures p in ApplyAll(s, es).landing ==> p in s.landing && ApplyAll(s, es).landing[p] == s.landing[p]
    decreases |es|
  {
    if es != [] {
      assert es[0] in es;
      NothingComesBack(Apply(s, es[0]), es[1..], p);
    }
  }

  lemma NotOnto(cfg: Config, s: State, p: Path, e: Effect)
    requires NotDerived(s.landing, p) && e in CyclePlan(cfg, s).effects
    ensures e.Derive? ==> e.derivation.target != p
  {
    hide BuildPlan, DatasetsPlan, ApplyAll, DerivationOf;
    if e in BuildPlan(cfg, s.landing).effects {
      BuildPlanOrigin(cfg, s.landing, e);
      var source := e.derivation.source;
      DerivationShape(cfg.rules, s.landing, Load(source, s.landing[source].content.rows));
      assert !Derives(s.landing, source, p);
    } else {
      LoadEffects(cfg, s, e);
    }
  }

  lemma InsertsOfCycle(cfg: Config, s: State, l: Load)
    requires NotDerived(s.landing, l.path)
    ensures Times(CyclePlan(cfg, s).effects, InsertCore(l)) <= Once(Takes(s.landing, l) && l.rows != [])
  {
    hide BuildPlan, DatasetsPlan, Built;
    var build, loads := BuildPlan(cfg, s.landing), LoadPlan(cfg, s).effects;
    if InsertCore(l) in build.effects {
      BuildPlanOrigin(cfg, s.landing, InsertCore(l));
    }
    if cfg.dryRun {
      DryCycle(cfg, s);
    } else if build.ok {
      UnderivedStays(cfg, s, l.path);
      DatasetsDistinct(cfg);
      DatasetsCounts(cfg, Built(cfg, s).landing, cfg.Datasets(), l);
      TimesConcat(build.effects, loads, InsertCore(l));
    }
  }

  /** However a round ends: it loads the file at most once, and only if it finds it; it does not bring it back. */
  lemma AnyRound(s: State, r: Round, l: Load)
    requires NotDerived(r.landing, l.path)
    ensures multiset(Next(s, r).core)[l] <= multiset(s.core)[l] + Once(Takes(r.landing, l) && l.rows != [])
    ensures l.path in Next(s, r).landing ==> l.path in r.landing
  {
    hide CyclePlan, ApplyAll;
    var found := Found(s, r);
    var es := CyclePlan(r.cfg, found).effects;
    CyclePrefix(r.cfg, found, r.steps);
    var k :| 0 <= k <= |es| && Next(s, r) == ApplyAll(found, es[..k]);
    InsertsOfCycle(r.cfg, found, l);
    PrefixTimes(es, k, InsertCore(l));
    CountsAfter(found, es[..k], l);
    forall e | e in es[..k] && e.Derive?
      ensures e.derivation.target != l.path
    {
      assert e in es;
      NotOnto(r.cfg, found, l.path, e);
    }
    NothingComesBack(found, es[..k], l.path);
  }

  // ----- Exactly once -------------------------------------------------------------------

  lemma {:induction false} GoneIsNeverOffered(s: State, rounds: seq<Round>, p: Path)
    requires LeftAlone(s, rounds, p) && p !in s.landing
    ensures !EverOffered(rounds, p)
    decreases |rounds|
  {
    hide Next;
    if rounds != [] {
      StaysGone(s, rounds[0], p);
      GoneIsNeverOffered(Next(s, rounds[0]), rounds[1..], p);
      OfferedSplit(rounds, p);
    }
  }

  lemma StaysGone(s: State, r: Round, p: Path)
    requires NotDerived(r.landing, p) && p !in r.landing
    ensures p !in Next(s, r).landing
  {
    AnyRound(s, r, Load(p, []));
  }

  lemma OfferedSplit(rounds: seq<Round>, p: Path)
    requires rounds != []
    ensures EverOffered(rounds, p) <==> Offered(rounds[0], p) || EverOffered(rounds[1..], p)
  {
    if EverOffered(rounds[1..], p) {
      var i :| 0 <= i < |rounds[1..]| && Offered(rounds[1..][i], p);
      assert Offered(rounds[i + 1], p);
    }
    if EverOffered(rounds, p) && !Offered(rounds[0], p) {
      var i :| 0 <= i < |rounds| && Offered(rounds[i], p);
      assert Offered(rounds[1..][i - 1], p);
    }
  }

  /** Over crash-free cycles that retire files, a file that only the cycles touch is loaded once if one of them finds
      it old enough, and never otherwise. Meanwhile other files arrive, age, change and leave. */
  lemma {:induction false} ExactlyOnce(s: State, rounds: seq<Round>, l: Load)
    requires CutOff(s, rounds) == 0 && AllRetire(rounds) && LeftAlone(s, rounds, l.path)
    requires HoldsOnly(s.landing, l) && l.rows != []
    ensures multiset(Run(s, rounds).core)[l] == multiset(s.core)[l] + Once(EverOffered(rounds, l.path))
    decreases |rounds|
  {
    hide Complete, NotDerived;
    if rounds != [] {
      var r := rounds[0];
      CompleteRound(s, r, l);
      hide Next;
      RetireRest(rounds);
      ExactlyOnce(Next(s, r), rounds[1..], l);
      OfferedSplit(rounds, l.path);
      RunStep(s, rounds);
      assert r.cfg.Retires() || r.cfg.dryRun;
      if Offered(r, l.path) {
        GoneIsNeverOffered(Next(s, r), rounds[1..], l.path);
      }
    }
  }

  lemma RetireRest(rounds: seq<Round>)
    requires rounds != [] && AllRetire(rounds)
    ensures AllRetire(rounds[1..])
  {
    assert forall i :: 0 <= i < |rounds[1..]| ==> rounds[1..][i] == rounds[i + 1];
  }

  lemma RunStep(s: State, rounds: seq<Round>)
    requires rounds != []
    ensures Run(s, rounds) == Run(Next(s, rounds[0]), rounds[1..])
  {
  }

  // ----- Crashes load again -------------------------------------------------------------

  /** Over any cycles that retire files, a file that only the cycles touch is loaded at most once more than there are
      cycles that were cut off. */
  lemma {:induction false} OnceMorePerCrash(s: State, rounds: seq<Round>, l: Load)
    requires AllRetire(rounds) && LeftAlone(s, rounds, l.path)
    ensures multiset(Run(s, rounds).core)[l] <=
      multiset(s.core)[l] + Once(l.path in s.landing) + CutOff(s, rounds)
    decreases |rounds|
  {
    hide Complete, NotDerived;
    if rounds != [] {
      var r := rounds[0];
      AnyRound(s, r, l);
      if Complete(s, r) {
        CompleteBound(s, r, l);
      }
      hide Next;
      RetireRest(rounds);
      OnceMorePerCrash(Next(s, r), rounds[1..], l);
      RunStep(s, rounds);
    }
  }

  lemma CompleteBound(s: State, r: Round, l: Load)
    requires Complete(s, r) && NotDerived(r.landing, l.path) && (r.cfg.Retires() || r.cfg.dryRun)
    ensures multiset(Next(s, r).core)[l] + Once(l.path in Next(s, r).landing) <=
      multiset(s.core)[l] + Once(l.path in r.landing)
  {
    hide Complete;
    AnyRound(s, r, l);
    if Takes(r.landing, l) && l.rows != [] {
      CompleteRound(s, r, l);
    }
  }

  // ----- The bound is attained ----------------------------------------------------------

  /** The point of the loading at which the file has just been loaded; it is still landed then. */
  lemma JustLoaded(cfg: Config, s: State, l: Load) returns (j: nat)
    requires Takes(s.landing, l) && l.rows != []
    requires Times(DatasetsPlan(Loading, cfg, s.landing, cfg.Datasets()).effects, InsertCore(l)) == 1
    ensures var loads := DatasetsPlan(Loading, cfg, s.landing, cfg.Datasets()).effects;
      j <= |loads| && Times(loads[..j], InsertCore(l)) == 1 && Takes(ApplyAll(s, loads[..j]).landing, l)
  {
    hide DatasetsPlan, ApplyAll;
    var loads := DatasetsPlan(Loading, cfg, s.landing, cfg.Datasets()).effects;
    var i :| 0 <= i < |loads| && loads[i] == InsertCore(l);
    assert loads[..i + 1] == loads[..i] + [loads[i]];
    TimesSnoc(loads[..i], loads[i], InsertCore(l));
    PrefixTimes(loads, i + 1, InsertCore(l));
    LoadsLoseNothing(cfg, s, cfg.Datasets(), i, l);
    CountsAfter(s, loads[..i], l);
    InsertKeepsLanding(s, loads[..i], l);
    j := i + 1;
  }

  /** A point of the cycle, before its end, at which the file is loaded and still landed. */
  lemma LoadedBeforeItLeaves(cfg: Config, s: State, l: Load) returns (k: nat)
    requires CyclePlan(cfg, s).ok && cfg.Retires() && IsLoadOf(cfg, s, l)
    ensures k < |CyclePlan(cfg, s).effects|
    ensures Times(CyclePlan(cfg, s).effects[..k], InsertCore(l)) == 1
    ensures Takes(ApplyAll(s, CyclePlan(cfg, s).effects[..k]).landing, l)
  {
    hide BuildPlan, DatasetsPlan, ApplyAll, Takes;
    var build, loads := BuildPlan(cfg, s.landing).effects, LoadPlan(cfg, s).effects;
    var es := CyclePlan(cfg, s).effects;
    DatasetsDistinct(cfg);
    DatasetsCounts(cfg, Built(cfg, s).landing, cfg.Datasets(), l);
    var j := JustLoaded(cfg, Built(cfg, s), l);
    k := |build| + j;
    assert es[..k] == build + loads[..j];
    ApplyConcat(s, build, loads[..j]);
    TimesConcat(build, loads[..j], InsertCore(l));
    if InsertCore(l) in build {
      BuildPlanOrigin(cfg, s.landing, InsertCore(l));
    }
    GoneAtTheEnd(cfg, s, l);
    assert es[..|es|] == es;
  }

  lemma GoneAtTheEnd(cfg: Config, s: State, l: Load)
    requires CyclePlan(cfg, s).ok && cfg.Retires() && IsLoadOf(cfg, s, l)
    ensures !Takes(ApplyAll(s, CyclePlan(cfg, s).effects).landing, l)
  {
    hide CyclePlan, ApplyAll, Built;
    CompleteCycleLeaves(cfg, s, l.path);
  }

  lemma InsertKeepsLanding(s: State, es: seq<Effect>, l: Load)
    ensures ApplyAll(s, es + [InsertCore(l)]).landing == ApplyAll(s, es).landing
  {
    ApplyConcat(s, es, [InsertCore(l)]);
    assert [InsertCore(l)][1..] == [];
    assert ApplyAll(ApplyAll(s, es), [InsertCore(l)]) == Apply(ApplyAll(s, es), InsertCore(l));
  }

  /** What is landed, and what a cycle does, depends on what is landed alone. */
  lemma {:induction false} LandingFollows(s: State, t: State, es: seq<Effect>)
    requires s.landing == t.landing
    ensures ApplyAll(s, es).landing == ApplyAll(t, es).landing
    decreases |es|
  {
    if es != [] {
      LandingFollows(Apply(s, es[0]), Apply(t, es[0]), es[1..]);
    }
  }

  lemma PlanFollows(cfg: Config, s: State, t: State)
    requires s.landing == t.landing
    ensures CyclePlan(cfg, s) == CyclePlan(cfg, t)
  {
    hide BuildPlan, DatasetsPlan;
    LandingFollows(s, t, BuildPlan(cfg, s.landing).effects);
  }

  /** The round, after `n` times the same round killed after `k` effects. */
  function KilledRounds(r: Round, k: nat, n: nat): (rounds: seq<Round>)
    ensures rounds != []
  {
    if n == 0 then [r] else [r.(steps := k)] + KilledRounds(r, k, n - 1)
  }

  /** The killed round loads the file and leaves it landed; the round itself is not killed. */
  ghost predicate KillLoads(s: State, r: Round, k: nat, l: Load) {
    var es := CyclePlan(r.cfg, Found(s, r)).effects;
    && Complete(s, r) && k < |es|
    && Times(es[..k], InsertCore(l)) == 1 && Takes(ApplyAll(Found(s, r), es[..k]).landing, l)
  }

  lemma KilledRound(s: State, r: Round, k: nat, l: Load)
    requires KillLoads(s, r, k, l)
    ensures var killed := r.(steps := k);
      && !Complete(s, killed) && Takes(Next(s, killed).landing, l)
      && multiset(Next(s, killed).core)[l] == multiset(s.core)[l] + 1
      && KillLoads(Next(s, killed), r, k, l)
  {
    hide CyclePlan, ApplyAll;
    var killed := r.(steps := k);
    var found := Found(s, r);
    var es := CyclePlan(r.cfg, found).effects;
    var next := Next(s, killed);
    assert Found(s, killed) == found && next == ApplyAll(found, es[..k]);
    CountsAfter(found, es[..k], l);
    PlanFollows(r.cfg, Found(next, r), found);
    LandingFollows(Found(next, r), found, es[..k]);
  }

  /** A history of retiring cycles, `n` of them cut off, that loads the file `n + 1` times. */
  ghost predicate LoadsPerCrash(s: State, rounds: seq<Round>, n: nat, l: Load) {
    && AllRetire(rounds) && LeftAlone(s, rounds, l.path) && CutOff(s, rounds) == n
    && multiset(Run(s, rounds).core)[l] == multiset(s.core)[l] + 1 + n
  }

  lemma LastRound(s: State, r: Round, l: Load)
    requires Complete(s, r) && r.cfg.Retires() && Offered(r, l.path) && l.rows != []
    requires Takes(s.landing, l) && Takes(r.landing, l) && NotDerived(r.landing, l.path)
    ensures LoadsPerCrash(s, [r], 0, l)
  {
    hide Complete, NotDerived, Cycle;
    var rounds := [r];
    CompleteRound(s, r, l);
    hide Next;
    assert rounds[0] == r && rounds[1..] == [];
    RunStep(s, rounds);
    assert AllRetire(rounds) && LeftAlone(s, rounds, l.path);
    assert CutOff(s, rounds) == 0;
  }

  lemma KilledBefore(s: State, r: Round, rest: seq<Round>, n: nat, l: Load)
    requires !Complete(s, r) && r.cfg.Retires() && LoadsPerCrash(Next(s, r), rest, n, l)
    requires Takes(s.landing, l) && Takes(r.landing, l) && NotDerived(r.landing, l.path)
    requires multiset(Next(s, r).core)[l] == multiset(s.core)[l] + 1
    ensures LoadsPerCrash(s, [r] + rest, n + 1, l)
  {
    hide Complete, NotDerived, Next;
    var rounds := [r] + rest;
    assert rounds[0] == r && rounds[1..] == rest;
    RunStep(s, rounds);
    hide Run;
    assert AllRetire(rounds) && LeftAlone(s, rounds, l.path);
    assert CutOff(s, rounds) == n + 1;
  }

  lemma {:induction false} KilledHistory(s: State, r: Round, k: nat, n: nat, l: Load)
    requires KillLoads(s, r, k, l) && Takes(s.landing, l) && l.rows != []
    requires r.cfg.Retires() && Offered(r, l.path) && Takes(r.landing, l) && NotDerived(r.landing, l.path)
    ensures LoadsPerCrash(s, KilledRounds(r, k, n), n, l)
    decreases n
  {
    hide Complete, NotDerived, Next, LoadsPerCrash, CyclePlan, ApplyAll;
    if n == 0 {
      LastRound(s, r, l);
    } else {
      KilledRound(s, r, k, l);
      KilledHistory(Next(s, r.(steps := k)), r, k, n - 1, l);
      KilledBefore(s, r.(steps := k), KilledRounds(r, k, n - 1), n - 1, l);
    }
  }

  /** The bound cannot be lowered: whatever the number of crashes, they can come so that the file is loaded by each
      crashing cycle and once more. */
  lemma BoundIsAttained(cfg: Config, s: State, l: Load, n: nat)
    requires CyclePlan(cfg, s).ok && cfg.Retires() && Takes(s.landing, l) && l.rows != []
    requires l.path.dataset in cfg.Datasets() && NotDerived(s.landing, l.path)
    ensures exists rounds: seq<Round> :: LoadsPerCrash(s, rounds, n, l)
  {
    hide CyclePlan, ApplyAll, BuildPlan, Built, LoadsPerCrash, NotDerived;
    PlanStarts(cfg, s);
    UnderivedStays(cfg, s, l.path);
    var k := LoadedBeforeItLeaves(cfg, s, l);
    var r := Round(s.landing, cfg, |CyclePlan(cfg, s).effects|);
    assert Found(s, r) == s;
    KilledHistory(s, r, k, n, l);
  }

  lemma PlanStarts(cfg: Config, s: State)
    requires CyclePlan(cfg, s).ok
    ensures BuildPlan(cfg, s.landing).ok
  {
  }
}
