/** What is landed after the derivation stage, whatever was landed before: derived names may be taken already, and
    several sources may share one. What this means for files that carry events of an earlier cycle. */
module IngestDerived {
  import opened Ingest
  import opened IngestEvents
  import opened IngestExact
  import opened IngestSafety
  import opened Options
  import Text
  import opened TextOrder

  // ----- The last source to write a derived file ----------------------------------------

  /** Of the ready sources that derive onto `p`, `q` comes last: they are of one dataset, and taken by name. */
  ghost predicate LastDeriver(landing: Landing, q: Path, p: Path) {
    Derives(landing, q, p) && forall r :: Derives(landing, r, p) ==> AtMost(r.name, q.name)
  }

  lemma DeriverIsSource(landing: Landing, q: Path, p: Path)
    requires Derives(landing, q, p)
    ensures q in landing && q.dataset in [Documents, Postings, Audit] && IsSource(q.dataset) && Target(q) == p
  {
  }

  lemma DeriversShareDataset(landing: Landing, q: Path, r: Path, p: Path)
    requires Derives(landing, q, p) && Derives(landing, r, p)
    ensures q.dataset == r.dataset
  {
    TargetInjective(q, r);
  }

  lemma LastDeriverUnique(landing: Landing, q: Path, r: Path, p: Path)
    requires LastDeriver(landing, q, p) && LastDeriver(landing, r, p)
    ensures q == r
  {
    DeriversShareDataset(landing, q, r, p);
    Antisymmetric(q.name, r.name);
  }

  lemma {:induction false} GreatestExists(names: set<string>) returns (x: string)
    requires names != {}
    ensures x in names && forall y :: y in names ==> AtMost(y, x)
    decreases names
  {
    var z :| z in names;
    var rest := names - {z};
    assert names == rest + {z};
    Total(z, z);
    if rest == {} {
      x := z;
    } else {
      var y := GreatestExists(rest);
      Total(z, y);
      x := if AtMost(z, y) then y else z;
      forall w | w in names
        ensures AtMost(w, x)
      {
        if w != z && x == z {
          Transitive(w, y, z);
        }
      }
    }
  }

  lemma LastDeriverExists(landing: Landing, q: Path, p: Path) returns (last: Path)
    requires Derives(landing, q, p)
    ensures LastDeriver(landing, last, p)
  {
    var names := set r | r in landing && Derives(landing, r, p) :: r.name;
    assert q.name in names;
    var x := GreatestExists(names);
    last :| last in landing && Derives(landing, last, p) && last.name == x;
  }

  // ----- What is landed after deriving --------------------------------------------------

  predicate SameAt(before: Landing, after: Landing, p: Path) {
    (p in before <==> p in after) && (p in before ==> before[p] == after[p])
  }

  /** The derived file holds these events; without events there is none. */
  predicate Made(landing: Landing, p: Path, events: seq<Row>) {
    if events == [] then p !in landing else p in landing && landing[p] == File(Rows(events), true)
  }

  lemma DerivingOne(ix: Indexes, cfg: Config, landing: Landing, q: Path, s: State, p: Path)
    requires IsSource(q.dataset) && !cfg.dryRun && FilePlan(Deriving(ix), cfg, landing, q).ok
    ensures var after := ApplyAll(s, FilePlan(Deriving(ix), cfg, landing, q).effects).landing;
      if Derives(landing, q, p)
      then landing[q].content.Rows? && Made(after, p, EventsOf(cfg.rules, q, landing[q].content.rows, ix))
      else SameAt(s.landing, after, p)
  {
    hide EventsOf, Target;
    var es := FilePlan(Deriving(ix), cfg, landing, q).effects;
    if es != [] {
      assert es[1..] == [];
      assert ApplyAll(s, es) == Apply(s, es[0]);
    }
  }

  ghost predicate NoneDerives(landing: Landing, dataset: Dataset, names: seq<string>, p: Path) {
    forall name :: name in names ==> !Derives(landing, Path(dataset, name), p)
  }

  ghost predicate LastAmong(landing: Landing, dataset: Dataset, names: seq<string>, q: Path, p: Path) {
    && q.dataset == dataset && q.name in names && Derives(landing, q, p)
    && forall name :: name in names && Derives(landing, Path(dataset, name), p) ==> AtMost(name, q.name)
  }

  lemma {:induction false} FilesMade(ix: Indexes, cfg: Config, landing: Landing, dataset: Dataset, names: seq<string>,
                                     s: State, q: Path, p: Path)
    requires IsSource(dataset) && !cfg.dryRun && Ascending(names)
    requires FilesPlan(Deriving(ix), cfg, landing, dataset, names).ok
    ensures var after := ApplyAll(s, FilesPlan(Deriving(ix), cfg, landing, dataset, names).effects).landing;
      && (NoneDerives(landing, dataset, names, p) ==> SameAt(s.landing, after, p))
      && (LastAmong(landing, dataset, names, q, p) ==>
        landing[q].content.Rows? && Made(after, p, EventsOf(cfg.rules, q, landing[q].content.rows, ix)))
    decreases |names|
  {
    hide FilePlan, EventsOf, Derives, Made, SameAt;
    if names == [] {
      SameItself(s.landing, p);
    } else {
      var head := FilePlan(Deriving(ix), cfg, landing, Path(dataset, names[0]));
      var rest := FilesPlan(Deriving(ix), cfg, landing, dataset, names[1..]);
      var mid := ApplyAll(s, head.effects);
      ApplyConcat(s, head.effects, rest.effects);
      hide ApplyAll;
      DerivingOne(ix, cfg, landing, Path(dataset, names[0]), s, p);
      FilesMade(ix, cfg, landing, dataset, names[1..], mid, q, p);
      assert forall name :: name in names <==> name == names[0] || name in names[1..];
      var after := ApplyAll(mid, rest.effects);
      if NoneDerives(landing, dataset, names, p) {
        SameTwice(s.landing, mid.landing, after.landing, p);
      }
      if LastAmong(landing, dataset, names, q, p) {
        DeriverIsSource(landing, q, p);
        if q.name == names[0] {
          forall name | name in names[1..]
            ensures !Derives(landing, Path(dataset, name), p)
          {
            LaterIsGreater(names, name);
          }
          MadeStays(mid.landing, after.landing, p, EventsOf(cfg.rules, q, landing[q].content.rows, ix));
        } else {
          assert LastAmong(landing, dataset, names[1..], q, p);
        }
      }
    }
  }

  lemma SameItself(landing: Landing, p: Path)
    ensures SameAt(landing, landing, p)
  {
  }

  lemma SameTwice(a: Landing, b: Landing, c: Landing, p: Path)
    requires SameAt(a, b, p) && SameAt(b, c, p)
    ensures SameAt(a, c, p)
  {
  }

  lemma MadeStays(a: Landing, b: Landing, p: Path, events: seq<Row>)
    requires Made(a, p, events) && SameAt(a, b, p)
    ensures Made(b, p, events)
  {
  }

  lemma LaterIsGreater(names: seq<string>, name: string)
    requires names != [] && Ascending(names) && name in names[1..]
    ensures !AtMost(name, names[0])
  {
    var i :| 0 <= i < |names[1..]| && names[1..][i] == name;
    assert names[i + 1] == name;
    if AtMost(name, names[0]) {
      Antisymmetric(name, names[0]);
    }
  }

  lemma {:induction false} DatasetsMade(ix: Indexes, cfg: Config, landing: Landing, datasets: seq<Dataset>, s: State,
                                        q: Path, p: Path)
    requires !cfg.dryRun && Distinct(datasets) && forall d :: d in datasets ==> IsSource(d)
    requires DatasetsPlan(Deriving(ix), cfg, landing, datasets).ok
    ensures var after := ApplyAll(s, DatasetsPlan(Deriving(ix), cfg, landing, datasets).effects).landing;
      && ((forall r :: Derives(landing, r, p) ==> r.dataset !in datasets) ==> SameAt(s.landing, after, p))
      && (LastDeriver(landing, q, p) && q.dataset in datasets ==>
        landing[q].content.Rows? && Made(after, p, EventsOf(cfg.rules, q, landing[q].content.rows, ix)))
    decreases |datasets|
  {
    hide FilesPlan, EventsOf, Derives, Made, SameAt;
    if datasets == [] {
      SameItself(s.landing, p);
    } else {
      var d := datasets[0];
      var head := DatasetPlan(Deriving(ix), cfg, landing, d);
      var rest := DatasetsPlan(Deriving(ix), cfg, landing, datasets[1..]);
      var mid := ApplyAll(s, head.effects);
      ApplyConcat(s, head.effects, rest.effects);
      hide ApplyAll;
      SortedAscending(Names(landing, d));
      FilesMade(ix, cfg, landing, d, Listing(landing, d), s, q, p);
      DatasetsMade(ix, cfg, landing, datasets[1..], mid, q, p);
      assert forall e :: e in datasets <==> e == d || e in datasets[1..];
      var after := ApplyAll(mid, rest.effects);
      ListedDerivers(landing, d, q, p);
      if forall r :: Derives(landing, r, p) ==> r.dataset !in datasets {
        SameTwice(s.landing, mid.landing, after.landing, p);
      }
      if LastDeriver(landing, q, p) && q.dataset == d {
        forall r | Derives(landing, r, p)
          ensures r.dataset !in datasets[1..]
        {
          DeriversShareDataset(landing, q, r, p);
        }
        MadeStays(mid.landing, after.landing, p, EventsOf(cfg.rules, q, landing[q].content.rows, ix));
      }
    }
  }

  lemma ListedDerivers(landing: Landing, d: Dataset, q: Path, p: Path)
    ensures (forall r :: Derives(landing, r, p) ==> r.dataset != d) ==> NoneDerives(landing, d, Listing(landing, d), p)
    ensures LastDeriver(landing, q, p) && q.dataset == d ==> LastAmong(landing, d, Listing(landing, d), q, p)
  {
    if LastDeriver(landing, q, p) && q.dataset == d {
      assert q.name in Names(landing, d);
    }
  }

  /** What the derivation stage derives from a source file. */
  ghost function DerivedRows(rules: Rules, landing: Landing, q: Path): seq<Row> {
    if q in landing && landing[q].content.Rows? && Indexable(landing) && IsSource(q.dataset)
    then DerivationOf(rules, landing, Load(q, landing[q].content.rows)).events
    else []
  }

  /** A completed derivation stage leaves at a derived name what the last source of that name gave, and every other
      path as it was, whatever was landed before. */
  lemma BuiltAt(cfg: Config, s: State, q: Path, p: Path)
    requires BuildPlan(cfg, s.landing).ok && !cfg.dryRun
    ensures (forall r :: !Derives(s.landing, r, p)) ==> SameAt(s.landing, Built(cfg, s).landing, p)
    ensures LastDeriver(s.landing, q, p) ==>
      s.landing[q].content.Rows? && Made(Built(cfg, s).landing, p, DerivedRows(cfg.rules, s.landing, q))
  {
    hide DatasetsPlan, ApplyAll, EventsOf, Derives;
    var ix := BuildIndexes(cfg.rules, s.landing);
    assert SOURCES == [Documents, Postings, Audit];
    DatasetsMade(ix, cfg, s.landing, SOURCES, s, q, p);
    if LastDeriver(s.landing, q, p) {
      DeriverIsSource(s.landing, q, p);
    }
  }

  // ----- When a cycle runs to its end ---------------------------------------------------

  ghost predicate DerivedOnto(landing: Landing, p: Path) {
    exists q :: Derives(landing, q, p)
  }

  /** A file that stops the loading of its dataset: ready, unreadable, and not about to be written over. */
  ghost predicate Stops(cfg: Config, landing: Landing, p: Path) {
    p.dataset in cfg.Datasets() && Poison(landing, p) && (cfg.dryRun || !DerivedOnto(landing, p))
  }

  /** What the landing directory must be like for a cycle to run to its end: no ready file that derivation reads is
      unreadable, and no other one of the datasets to load is, unless derivation writes over it. An unreadable file
      that derivation reads keeps the cycle from loading anything. */
  lemma CompletesIff(cfg: Config, s: State)
    ensures CyclePlan(cfg, s).ok <==>
      Readable(s.landing, BUILD_INPUTS) && forall p :: p in s.landing ==> !Stops(cfg, s.landing, p)
    ensures !Readable(s.landing, BUILD_INPUTS) ==> forall e :: e in CyclePlan(cfg, s).effects ==> e.Derive?
  {
    hide BuildPlan, Built, CyclePlan, Derives;
    CompletesIffReadable(cfg, s);
    BuildOk(cfg, s.landing);
    if Readable(s.landing, BUILD_INPUTS) {
      if cfg.dryRun {
        DryBuild(cfg, s);
      } else {
        PoisonAfterDerivation(cfg, s);
      }
    }
  }

  lemma DryBuild(cfg: Config, s: State)
    requires cfg.dryRun
    ensures BuildPlan(cfg, s.landing).effects == [] && Built(cfg, s) == s
  {
    if BuildPlan(cfg, s.landing).effects != [] {
      BuildPlanOrigin(cfg, s.landing, BuildPlan(cfg, s.landing).effects[0]);
    }
  }

  lemma PoisonAfterDerivation(cfg: Config, s: State)
    requires BuildPlan(cfg, s.landing).ok && !cfg.dryRun
    ensures forall p :: Poison(Built(cfg, s).landing, p) <==> Poison(s.landing, p) && !DerivedOnto(s.landing, p)
  {
    hide BuildPlan, Built, Derives, DerivedRows;
    forall p
      ensures Poison(Built(cfg, s).landing, p) <==> Poison(s.landing, p) && !DerivedOnto(s.landing, p)
    {
      if DerivedOnto(s.landing, p) {
        var r :| Derives(s.landing, r, p);
        var q := LastDeriverExists(s.landing, r, p);
        BuiltAt(cfg, s, q, p);
      } else {
        BuiltAt(cfg, s, p, p);
      }
    }
  }

  // ----- Which landed files reach the core tables ---------------------------------------

  /** The last source to derive onto the file, if there is one, derives the rows that it holds. */
  ghost predicate KeptByDerivation(rules: Rules, landing: Landing, l: Load) {
    forall q :: LastDeriver(landing, q, l.path) ==> DerivedRows(rules, landing, q) == l.rows
  }

  lemma KeptIff(cfg: Config, s: State, l: Load)
    requires BuildPlan(cfg, s.landing).ok && !cfg.dryRun && Takes(s.landing, l) && l.rows != []
    ensures Takes(Built(cfg, s).landing, l) <==> KeptByDerivation(cfg.rules, s.landing, l)
  {
    hide BuildPlan, Built, Derives, DerivedRows;
    if exists r :: Derives(s.landing, r, l.path) {
      var r :| Derives(s.landing, r, l.path);
      var q := LastDeriverExists(s.landing, r, l.path);
      BuiltAt(cfg, s, q, l.path);
      forall t | LastDeriver(s.landing, t, l.path)
        ensures t == q
      {
        LastDeriverUnique(s.landing, t, q, l.path);
      }
    } else {
      BuiltAt(cfg, s, l.path, l.path);
    }
  }

  /** In a complete cycle a ready file, of whatever name, reaches the core table exactly when no source replaces it
      by other rows. One that is replaced is nowhere afterwards: neither loaded nor landed. */
  lemma ReachesCoreIff(cfg: Config, s: State, l: Load)
    requires CyclePlan(cfg, s).ok && !cfg.dryRun && l.path.dataset in cfg.Datasets()
    requires Takes(s.landing, l) && l.rows != []
    ensures multiset(After(cfg, s).core)[l] ==
      multiset(s.core)[l] + Once(KeptByDerivation(cfg.rules, s.landing, l))
    ensures !KeptByDerivation(cfg.rules, s.landing, l) ==> !Takes(After(cfg, s).landing, l)
  {
    hide BuildPlan, Built, After, KeptByDerivation;
    assert BuildPlan(cfg, s.landing).ok;
    KeptIff(cfg, s, l);
    CompleteCycleLoadsOnce(cfg, s, l);
    CompleteCycleLeaves(cfg, s, l.path);
  }

  // ----- The events of a source that has left -------------------------------------------

  /** The file derived from a source with some state of the indexes. */
  function EventFile(rules: Rules, l: Load, ix: Indexes): Load
    requires IsSource(l.path.dataset)
  {
    Load(Target(l.path), EventsOf(rules, l.path, l.rows, ix))
  }

  /** The source file itself is landed, or the events derived from all its rows, by one of the given rules, are
      landed or were loaded. */
  ghost predicate Accounted(allowed: iset<Rules>, s: State, l: Load)
    requires IsSource(l.path.dataset)
  {
    || Takes(s.landing, l)
    || exists rules, ix :: rules in allowed && Carries(rules, s, l, ix)
  }

  ghost predicate Carries(rules: Rules, s: State, l: Load, ix: Indexes)
    requires IsSource(l.path.dataset)
  {
    Takes(s.landing, EventFile(rules, l, ix)) || EventFile(rules, l, ix) in s.core
  }

  /** No ready source but the unchanged file itself has its stem. */
  ghost predicate SoleSource(landing: Landing, l: Load)
    requires IsSource(l.path.dataset)
  {
    forall q :: Derives(landing, q, Target(l.path)) ==> q == l.path && Takes(landing, l)
  }

  lemma SourceGivesEvents(cfg: Config, s: State, l: Load) returns (ix: Indexes)
    requires BuildPlan(cfg, s.landing).ok && !cfg.dryRun
    requires Takes(s.landing, l) && l.rows != [] && IsSource(l.path.dataset) && SoleSource(s.landing, l)
    ensures Takes(Built(cfg, s).landing, EventFile(cfg.rules, l, ix))
  {
    hide BuildPlan, Built, Target, DatasetsPlan, EventsOf;
    var p := Target(l.path);
    assert Derives(s.landing, l.path, p);
    Total(l.path.name, l.path.name);
    assert LastDeriver(s.landing, l.path, p);
    BuiltAt(cfg, s, l.path, p);
    IndexableBuild(cfg, s.landing);
    ix := BuildIndexes(cfg.rules, s.landing);
    SameLength(cfg.rules, l, ix);
    assert DerivedRows(cfg.rules, s.landing, l.path) == EventsOf(cfg.rules, l.path, l.rows, ix);
  }

  lemma IndexableBuild(cfg: Config, landing: Landing)
    requires BuildPlan(cfg, landing).ok
    ensures Indexable(landing)
  {
  }

  lemma SameLength(rules: Rules, l: Load, ix: Indexes)
    ensures |EventsOf(rules, l.path, l.rows, ix)| == |l.rows|
  {
  }

  /** One cycle, cut off anywhere, keeps the account of a source's events. */
  lemma AccountedCycle(allowed: iset<Rules>, cfg: Config, s: State, steps: nat, l: Load)
    requires IsSource(l.path.dataset) && l.rows != [] && cfg.rules in allowed
    requires Accounted(allowed, s, l) && SoleSource(s.landing, l)
    ensures Accounted(allowed, Cycle(cfg, s, steps), l)
  {
    hide Cycle, CyclePlan, BuildPlan, DatasetsPlan, Target, EventsOf, Built;
    if Takes(s.landing, l) {
      LandedSourceCycle(allowed, cfg, s, steps, l);
    } else {
      var rules, ix :| rules in allowed && Carries(rules, s, l, ix);
      var d := EventFile(rules, l, ix);
      SameLength(rules, l, ix);
      if d in s.core {
        CycleKeepsCore(cfg, s, steps, d);
      } else {
        assert Undisturbed(cfg.rules, s.landing, d);
        NothingLost(cfg, s, steps, d);
        assert multiset(Cycle(cfg, s, steps).core)[d] > 0 ==> d in Cycle(cfg, s, steps).core;
      }
      assert Carries(rules, Cycle(cfg, s, steps), l, ix);
    }
  }

  lemma CycleKeepsCore(cfg: Config, s: State, steps: nat, d: Load)
    requires d in s.core
    ensures d in Cycle(cfg, s, steps).core
  {
    hide CyclePlan;
    CyclePrefix(cfg, s, steps);
    var k :| 0 <= k <= |CyclePlan(cfg, s).effects| && Cycle(cfg, s, steps) == ApplyAll(s, CyclePlan(cfg, s).effects[..k]);
    CountsAfter(s, CyclePlan(cfg, s).effects[..k], d);
    assert multiset(Cycle(cfg, s, steps).core)[d] > 0;
  }

  lemma LandedSourceCycle(allowed: iset<Rules>, cfg: Config, s: State, steps: nat, l: Load)
    requires cfg.rules in allowed
    requires IsSource(l.path.dataset) && l.rows != [] && Takes(s.landing, l) && SoleSource(s.landing, l)
    ensures Accounted(allowed, Cycle(cfg, s, steps), l)
  {
    hide CyclePlan, BuildPlan, DatasetsPlan, Target, EventsOf, ApplyAll;
    CyclePrefix(cfg, s, steps);
    var k :| 0 <= k <= |CyclePlan(cfg, s).effects| && Cycle(cfg, s, steps) == ApplyAll(s, CyclePlan(cfg, s).effects[..k]);
    CyclePrefixSplit(cfg, s, k);
    var build := BuildPlan(cfg, s.landing);
    SourcesAreNoTargets(l.path);
    if k <= |build.effects| {
      forall e | e in build.effects[..k]
        ensures e.Derive? && e.derivation.target != l.path
      {
        assert e in build.effects;
        NotOntoSource(cfg, s, l, e);
      }
      DerivesLeaveAlone(s, build.effects[..k], l.path);
    } else if cfg.dryRun {
      DryCycle(cfg, s);
      assert false;
    } else {
      var ix := SourceGivesEvents(cfg, s, l);
      var d := EventFile(cfg.rules, l, ix);
      SameLength(cfg.rules, l, ix);
      LoadsLoseNothing(cfg, Built(cfg, s), cfg.Datasets(), k - |build.effects|, d);
      assert multiset(Cycle(cfg, s, steps).core)[d] > 0 ==> d in Cycle(cfg, s, steps).core;
      assert Carries(cfg.rules, Cycle(cfg, s, steps), l, ix);
    }
  }

  lemma NotOntoSource(cfg: Config, s: State, l: Load, e: Effect)
    requires !IsTarget(l.path) && e in BuildPlan(cfg, s.landing).effects
    ensures e.Derive? && e.derivation.target != l.path
  {
    BuildPlanOrigin(cfg, s.landing, e);
  }

  lemma DryCycle(cfg: Config, s: State)
    requires cfg.dryRun
    ensures CyclePlan(cfg, s).effects == []
  {
    hide BuildPlan, DatasetsPlan;
    var build, loads := BuildPlan(cfg, s.landing).effects, DatasetsPlan(Loading, cfg, Built(cfg, s).landing, cfg.Datasets()).effects;
    if build != [] {
      BuildPlanOrigin(cfg, s.landing, build[0]);
    }
    if loads != [] {
      LoadPlanOrigin(cfg, Built(cfg, s).landing, cfg.Datasets(), loads[0]);
    }
  }

  /** Every round enriches by one of the given rules and finds no other ready source of the file's stem. */
  ghost predicate Attended(allowed: iset<Rules>, rounds: seq<Round>, l: Load)
    requires IsSource(l.path.dataset)
  {
    forall i :: 0 <= i < |rounds| ==> rounds[i].cfg.rules in allowed && SoleSource(rounds[i].landing, l)
  }

  /** Through any history of crashing cycles: as long as no other file of its stem arrives, a documents, postings or
      audit file is landed, or the events of all its rows are landed or loaded, as one of the cycles derived them. In
      particular none of them is lost when the source was archived and the cycle stopped before its events were
      loaded. The cycles may enrich differently; the program's differ in the time that a blank timestamp reads. */
  lemma {:induction false} EventsSurvive(allowed: iset<Rules>, s: State, rounds: seq<Round>, l: Load)
    requires IsSource(l.path.dataset) && l.rows != []
    requires Accounted(allowed, s, l) && OnlyArrivals(s, rounds) && Attended(allowed, rounds, l)
    ensures Accounted(allowed, Run(s, rounds), l)
    decreases |rounds|
  {
    hide Cycle, SoleSource, Target, EventsOf;
    if rounds != [] {
      var found := s.(landing := rounds[0].landing);
      assert SoleSource(rounds[0].landing, l) && rounds[0].cfg.rules in allowed;
      AccountedAfterArrivals(allowed, s, found, l);
      AccountedCycle(allowed, rounds[0].cfg, found, rounds[0].steps, l);
      AttendedRest(allowed, rounds, l);
      EventsSurvive(allowed, Cycle(rounds[0].cfg, found, rounds[0].steps), rounds[1..], l);
    }
  }

  lemma AttendedRest(allowed: iset<Rules>, rounds: seq<Round>, l: Load)
    requires IsSource(l.path.dataset) && rounds != [] && Attended(allowed, rounds, l)
    ensures Attended(allowed, rounds[1..], l)
  {
    hide SoleSource;
    assert forall i :: 0 <= i < |rounds[1..]| ==> rounds[1..][i] == rounds[i + 1];
  }

  lemma AccountedAfterArrivals(allowed: iset<Rules>, s: State, found: State, l: Load)
    requires IsSource(l.path.dataset) && Accounted(allowed, s, l) && found.core == s.core
    requires forall p :: p in s.landing ==> p in found.landing && Aged(s.landing[p], found.landing[p])
    ensures Accounted(allowed, found, l)
  {
    hide Target, EventsOf;
    if !Takes(s.landing, l) {
      var rules, ix :| rules in allowed && Carries(rules, s, l, ix);
      assert Carries(rules, found, l, ix);
    }
  }

  /** The program's normalisation at a time: a blank timestamp reads as that time. */
  function AtTime(n: Normalisers, now: string): Normalisers {
    n.(timestamp := written => if Text.Trim(written) == "" then now else n.timestamp(written))
  }

  ghost function ProgramRules(n: Normalisers): iset<Rules> {
    iset now: string :: Enrichment(AtTime(n, now))
  }

  /** For the program itself: its cycles, at whatever times, keep the events of a source in the same way. */
  lemma {:induction false} ProgramEventsSurvive(n: Normalisers, s: State, rounds: seq<Round>, times: seq<string>, l: Load)
    requires IsSource(l.path.dataset) && l.rows != [] && Takes(s.landing, l) && OnlyArrivals(s, rounds)
    requires |times| == |rounds|
    requires forall i :: 0 <= i < |rounds| ==>
      rounds[i].cfg.rules == Enrichment(AtTime(n, times[i])) && SoleSource(rounds[i].landing, l)
    ensures Accounted(ProgramRules(n), Run(s, rounds), l)
  {
    hide SoleSource, OnlyArrivals, Run, Enrichment, AtTime, Target;
    EventsSurvive(ProgramRules(n), s, rounds, l);
  }

  // ----- The file that is lost ----------------------------------------------------------

  lemma RowsNeverStop(cfg: Config, landing: Landing)
    requires forall p :: p in landing ==> landing[p].content.Rows?
    ensures Readable(landing, BUILD_INPUTS) && forall p :: p in landing ==> !Stops(cfg, landing, p)
  {
  }

  /** A cycle was cut off between archiving `a` and loading the two events derived from it; another file of that
      name arrives. The next cycle runs to its end, and the two events are neither loaded nor landed. */
  lemma NewNamesakeLosesEvents(rules: Rules, row: Row)
    ensures var source := Path(Documents, "a");
      var events := Load(Target(source), [row, row]);
      var s := State(map[source := File(Rows([row]), true), events.path := File(Rows([row, row]), true)], [], [], [], []);
      var cfg := Config(rules, true, false, false, false, None);
      && Takes(s.landing, events) && CyclePlan(cfg, s).ok
      && events !in After(cfg, s).core && !Takes(After(cfg, s).landing, events)
  {
    hide BuildPlan, Built, After, CyclePlan, Target, Takes, Indexable, Readable, Stops;
    var source := Path(Documents, "a");
    TargetOfDocuments(source);
    var events := Load(Target(source), [row, row]);
    var s := State(map[source := File(Rows([row]), true), events.path := File(Rows([row, row]), true)], [], [], [], []);
    var cfg := Config(rules, true, false, false, false, None);
    RowsNeverStop(cfg, s.landing);
    BuildOk(cfg, s.landing);
    CompletesIff(cfg, s);
    LostHere(cfg, s, source, events, row);
    ReachesCoreIff(cfg, s, events);
    assert multiset(After(cfg, s).core)[events] == 0;
  }

  lemma TargetOfDocuments(p: Path)
    requires p.dataset.Documents?
    ensures Target(p).dataset == BusinessEvents
  {
  }

  lemma LostHere(cfg: Config, s: State, source: Path, events: Load, row: Row)
    requires source == Path(Documents, "a") && events == Load(Target(source), [row, row]) && events.path != source
    requires s.landing == map[source := File(Rows([row]), true), events.path := File(Rows([row, row]), true)]
    requires BuildPlan(cfg, s.landing).ok
    ensures Takes(s.landing, events) && events.path.dataset in DATASETS
    ensures !KeptByDerivation(cfg.rules, s.landing, events)
  {
    hide BuildPlan, EventsOf, Indexable;
    TargetOfDocuments(source);
    assert DATASETS[2] == BusinessEvents;
    Total(source.name, source.name);
    assert Derives(s.landing, source, events.path);
    forall r | Derives(s.landing, r, events.path)
      ensures r == source
    {
    }
    assert LastDeriver(s.landing, source, events.path);
    IndexableBuild(cfg, s.landing);
    DerivationShape(cfg.rules, s.landing, Load(source, [row]));
    assert |DerivedRows(cfg.rules, s.landing, source)| == 1;
  }
}
