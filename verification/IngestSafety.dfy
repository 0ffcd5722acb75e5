/** What every crash of every ingest cycle leaves intact. */
module IngestSafety {
  import opened Ingest
  import opened IngestEvents

  // ----- Counting effects ---------------------------------------------------------------

  ghost function Times(es: seq<Effect>, e: Effect): nat {
    multiset(es)[e]
  }

  ghost function Archivings(es: seq<Effect>, l: Load): nat {
    Times(es, Rename(l)) + Times(es, CopyToArchive(l))
  }

  ghost function Departures(es: seq<Effect>, l: Load): nat {
    Times(es, Rename(l)) + Times(es, Remove(l))
  }

  lemma TimesConcat(a: seq<Effect>, b: seq<Effect>, e: Effect)
    ensures Times(a + b, e) == Times(a, e) + Times(b, e)
  {
  }

  /** The effects can be counted in the state: each layer grows by exactly its own effects. */
  lemma {:induction false} CountsAfter(s: State, es: seq<Effect>, l: Load)
    ensures multiset(ApplyAll(s, es).raw)[l] == multiset(s.raw)[l] + Times(es, InsertRaw(l))
    ensures multiset(ApplyAll(s, es).core)[l] == multiset(s.core)[l] + Times(es, InsertCore(l))
    ensures multiset(ApplyAll(s, es).archive)[l] == multiset(s.archive)[l] + Archivings(es, l)
    decreases |es|
  {
    if es != [] {
      assert es == [es[0]] + es[1..];
      CountsOne(s, es[0], l);
      CountsAfter(Apply(s, es[0]), es[1..], l);
    }
  }

  lemma CountsOne(s: State, e: Effect, l: Load)
    ensures multiset(Apply(s, e).raw)[l] == multiset(s.raw)[l] + Times([e], InsertRaw(l))
    ensures multiset(Apply(s, e).core)[l] == multiset(s.core)[l] + Times([e], InsertCore(l))
    ensures multiset(Apply(s, e).archive)[l] == multiset(s.archive)[l] + Archivings([e], l)
  {
  }

  // ----- Ordering of the effects on one file --------------------------------------------

  ghost predicate InOrder(es: seq<Effect>, l: Load) {
    l.rows != [] ==>
      && Archivings(es, l) <= Times(es, InsertCore(l)) <= Times(es, InsertRaw(l))
      && Departures(es, l) <= Times(es, InsertCore(l))
  }

  /** At every point, a non-empty file was loaded raw, then core, before it is archived or leaves. */
  ghost predicate Orderly(es: seq<Effect>) {
    forall k, l :: 0 <= k <= |es| ==> InOrder(es[..k], l)
  }

  lemma OrderlyConcat(a: seq<Effect>, b: seq<Effect>)
    requires Orderly(a) && Orderly(b)
    ensures Orderly(a + b)
  {
    forall k, l | 0 <= k <= |a + b|
      ensures InOrder((a + b)[..k], l)
    {
      if k <= |a| {
        assert (a + b)[..k] == a[..k];
      } else {
        assert (a + b)[..k] == a + b[..k - |a|];
        assert a[..|a|] == a;
        assert InOrder(a[..|a|], l) && InOrder(b[..k - |a|], l);
      }
    }
  }

  lemma OrderlySnoc(es: seq<Effect>, e: Effect)
    requires Orderly(es)
    requires forall l :: InOrder(es + [e], l)
    ensures Orderly(es + [e])
  {
    forall k, l | 0 <= k <= |es + [e]|
      ensures InOrder((es + [e])[..k], l)
    {
      assert (es + [e])[..k] == if k <= |es| then es[..k] else es + [e];
    }
  }

  function Inserts(r: Load): seq<Effect> {
    if r.rows == [] then [] else [InsertRaw(r), InsertCore(r)]
  }

  lemma TimesSnoc(es: seq<Effect>, last: Effect, e: Effect)
    ensures Times(es + [last], e) == Times(es, e) + if e == last then 1 else 0
  {
  }

  lemma InsertsOrderly(r: Load)
    ensures Orderly(Inserts(r))
    ensures r.rows != [] ==> Times(Inserts(r), InsertCore(r)) == 1
    ensures forall l :: Archivings(Inserts(r), l) == Departures(Inserts(r), l) == 0
  {
    OrderlySnoc([], InsertRaw(r));
    assert [] + [InsertRaw(r)] == [InsertRaw(r)];
    OrderlySnoc([InsertRaw(r)], InsertCore(r));
    assert [InsertRaw(r)] + [InsertCore(r)] == [InsertRaw(r), InsertCore(r)];
  }

  lemma LeaveOnce(r: Load, e: Effect)
    requires e in {Rename(r), CopyToArchive(r), Remove(r)}
    ensures Orderly(Inserts(r) + [e])
    ensures r.rows != [] ==> Times(Inserts(r) + [e], InsertCore(r)) == 1
    ensures e == CopyToArchive(r) ==> forall l :: Departures(Inserts(r) + [e], l) == 0
  {
    InsertsOrderly(r);
    var es := Inserts(r);
    forall l
      ensures InOrder(es + [e], l)
      ensures e == CopyToArchive(r) ==> Departures(es + [e], l) == 0
    {
      assert es[..|es|] == es && InOrder(es[..|es|], l);
      TimesSnoc(es, e, InsertRaw(l));
      TimesSnoc(es, e, InsertCore(l));
      TimesSnoc(es, e, Rename(l));
      TimesSnoc(es, e, CopyToArchive(l));
      TimesSnoc(es, e, Remove(l));
    }
    TimesSnoc(es, e, InsertCore(r));
    OrderlySnoc(es, e);
  }

  lemma LeaveByCopy(r: Load)
    ensures Orderly(Inserts(r) + [CopyToArchive(r)] + [Remove(r)])
  {
    LeaveOnce(r, CopyToArchive(r));
    var es, e := Inserts(r) + [CopyToArchive(r)], Remove(r);
    forall l
      ensures InOrder(es + [e], l)
    {
      assert es[..|es|] == es && InOrder(es[..|es|], l);
      TimesSnoc(es, e, InsertRaw(l));
      TimesSnoc(es, e, InsertCore(l));
      TimesSnoc(es, e, Rename(l));
      TimesSnoc(es, e, CopyToArchive(l));
      TimesSnoc(es, e, Remove(l));
      assert Departures(es, l) == 0;
    }
    OrderlySnoc(es, e);
  }

  lemma OrderlyRows(cfg: Config, r: Load)
    ensures Orderly(LoadRows(cfg, r))
  {
    var es, ins := LoadRows(cfg, r), Inserts(r);
    InsertsOrderly(r);
    if cfg.dryRun {
      assert es == [];
    } else if cfg.archive && cfg.crossDevice {
      LeaveByCopy(r);
      assert es == ins + [CopyToArchive(r)] + [Remove(r)];
    } else if cfg.archive {
      LeaveOnce(r, Rename(r));
      assert es == ins + [Rename(r)];
    } else if cfg.deleteAfterLoad {
      LeaveOnce(r, Remove(r));
      assert es == ins + [Remove(r)];
    } else {
      assert es == ins;
    }
  }

  lemma OrderlyDerive(d: Derivation)
    ensures Orderly([Derive(d)])
    ensures Orderly([])
  {
    forall k, l | 0 <= k <= 1
      ensures InOrder([Derive(d)][..k], l)
    {
      assert [Derive(d)][..k] == [] || [Derive(d)][..k] == [Derive(d)];
    }
  }

  /** A ready, readable file of a landing directory. */
  predicate Takes(landing: Landing, l: Load) {
    l.path in landing && landing[l.path] == File(Rows(l.rows), true)
  }

  lemma LoadingFile(cfg: Config, landing: Landing, p: Path)
    ensures var es := FilePlan(Loading, cfg, landing, p).effects;
      es == [] || (p in landing && landing[p].content.Rows?
        && Takes(landing, Load(p, landing[p].content.rows)) && es == LoadRows(cfg, Load(p, landing[p].content.rows)))
  {
  }

  lemma DerivingFile(ix: Indexes, cfg: Config, landing: Landing, p: Path)
    requires IsSource(p.dataset)
    ensures var es := FilePlan(Deriving(ix), cfg, landing, p).effects;
      es == [] || (!cfg.dryRun && p in landing && landing[p].content.Rows?
        && Takes(landing, Load(p, landing[p].content.rows))
        && es == [Derive(Derivation(p, Target(p), EventsOf(cfg.rules, p, landing[p].content.rows, ix)))])
  {
  }

  lemma OrderlyFile(stage: Stage, cfg: Config, landing: Landing, p: Path)
    requires stage.Deriving? ==> IsSource(p.dataset)
    ensures Orderly(FilePlan(stage, cfg, landing, p).effects)
  {
    match stage
    case Deriving(ix) =>
      DerivingFile(ix, cfg, landing, p);
      if p in landing && landing[p].content.Rows? {
        OrderlyDerive(Derivation(p, Target(p), EventsOf(cfg.rules, p, landing[p].content.rows, ix)));
      }
    case Loading =>
      LoadingFile(cfg, landing, p);
      if p in landing && landing[p].content.Rows? {
        OrderlyRows(cfg, Load(p, landing[p].content.rows));
      }
  }

  lemma {:induction false} OrderlyFiles(stage: Stage, cfg: Config, landing: Landing, dataset: Dataset,
                                        names: seq<string>)
    requires stage.Deriving? ==> IsSource(dataset)
    ensures Orderly(FilesPlan(stage, cfg, landing, dataset, names).effects)
    decreases |names|
  {
    if names != [] {
      var file := FilePlan(stage, cfg, landing, Path(dataset, names[0]));
      OrderlyFile(stage, cfg, landing, Path(dataset, names[0]));
      OrderlyFiles(stage, cfg, landing, dataset, names[1..]);
      OrderlyConcat(file.effects, FilesPlan(stage, cfg, landing, dataset, names[1..]).effects);
    }
  }

  lemma {:induction false} OrderlyDatasets(stage: Stage, cfg: Config, landing: Landing, datasets: seq<Dataset>)
    requires stage.Deriving? ==> forall d :: d in datasets ==> IsSource(d)
    ensures Orderly(DatasetsPlan(stage, cfg, landing, datasets).effects)
    decreases |datasets|
  {
    if datasets != [] {
      OrderlyFiles(stage, cfg, landing, datasets[0], Listing(landing, datasets[0]));
      OrderlyDatasets(stage, cfg, landing, datasets[1..]);
      OrderlyConcat(DatasetPlan(stage, cfg, landing, datasets[0]).effects,
                    DatasetsPlan(stage, cfg, landing, datasets[1..]).effects);
    }
  }

  lemma OrderlyBuild(cfg: Config, landing: Landing)
    ensures Orderly(BuildPlan(cfg, landing).effects)
  {
    var companyRows := ReadReady(landing, Companies, Listing(landing, Companies));
    var documentRows := ReadReady(landing, Documents, Listing(landing, Documents));
    if companyRows.Some? && documentRows.Some? {
      OrderlyDatasets(Deriving(cfg.rules.index(companyRows.value, documentRows.value)), cfg, landing, SOURCES);
    }
  }

  lemma OrderlyCycle(cfg: Config, s: State)
    ensures Orderly(CyclePlan(cfg, s).effects)
  {
    OrderlyBuild(cfg, s.landing);
    OrderlyDatasets(Loading, cfg, Built(cfg, s).landing, cfg.Datasets());
    OrderlyConcat(BuildPlan(cfg, s.landing).effects,
                  DatasetsPlan(Loading, cfg, Built(cfg, s).landing, cfg.Datasets()).effects);
  }

  // ----- Whole histories ----------------------------------------------------------------

  /** One cycle of a history: what it finds landed, how it is configured, how far it gets. */
  datatype Round = Round(landing: Landing, cfg: Config, steps: nat)

  function Run(s: State, rounds: seq<Round>): State
    decreases |rounds|
  {
    if rounds == [] then s
    else Run(Cycle(rounds[0].cfg, s.(landing := rounds[0].landing), rounds[0].steps), rounds[1..])
  }

  /** No core load without its raw load, and nothing non-empty in the archive without a core load. */
  ghost predicate Conserved(s: State, l: Load) {
    && multiset(s.core)[l] <= multiset(s.raw)[l]
    && (l.rows != [] ==> multiset(s.archive)[l] <= multiset(s.core)[l])
  }

  lemma CyclePrefix(cfg: Config, s: State, steps: nat)
    ensures var es := CyclePlan(cfg, s).effects;
      exists k :: 0 <= k <= |es| && Cycle(cfg, s, steps) == ApplyAll(s, es[..k])
  {
    var es := CyclePlan(cfg, s).effects;
    var k := if steps < |es| then steps else |es|;
    assert es[..|es|] == es;
    assert Cycle(cfg, s, steps) == ApplyAll(s, es[..k]);
  }

  lemma ConservedCycle(cfg: Config, s: State, steps: nat, l: Load)
    requires Conserved(s, l)
    ensures Conserved(Cycle(cfg, s, steps), l)
  {
    var es := CyclePlan(cfg, s).effects;
    CyclePrefix(cfg, s, steps);
    var k :| 0 <= k <= |es| && Cycle(cfg, s, steps) == ApplyAll(s, es[..k]);
    OrderlyCycle(cfg, s);
    CountsAfter(s, es[..k], l);
    assert InOrder(es[..k], l);
    if l.rows == [] {
      NoEmptyInsertCycle(cfg, s, l);
      PrefixTimes(es, k, InsertCore(l));
    }
  }

  lemma PrefixTimes(es: seq<Effect>, k: int, e: Effect)
    requires 0 <= k <= |es|
    ensures Times(es[..k], e) <= Times(es, e)
  {
    assert es == es[..k] + es[k..];
  }

  /** In every state any history of cycles and crashes can reach, loads and archive stay conserved,
      whatever arrives in (or vanishes from) the landing directories between the cycles. */
  lemma {:induction false} ConservedForever(s: State, rounds: seq<Round>, l: Load)
    requires Conserved(s, l)
    ensures Conserved(Run(s, rounds), l)
    decreases |rounds|
  {
    if rounds != [] {
      var found := s.(landing := rounds[0].landing);
      ConservedCycle(rounds[0].cfg, found, rounds[0].steps, l);
      ConservedForever(Cycle(rounds[0].cfg, found, rounds[0].steps), rounds[1..], l);
    }
  }

  // ----- Membership: where an effect of the plan comes from ------------------------------

  lemma {:induction false} FilesPlanOrigin(stage: Stage, cfg: Config, landing: Landing, dataset: Dataset,
                                        names: seq<string>, e: Effect)
    requires stage.Deriving? ==> IsSource(dataset)
    requires e in FilesPlan(stage, cfg, landing, dataset, names).effects
    ensures exists name :: name in names && e in FilePlan(stage, cfg, landing, Path(dataset, name)).effects
    decreases |names|
  {
    var file := FilePlan(stage, cfg, landing, Path(dataset, names[0]));
    if e in file.effects {
      assert names[0] in names;
    } else {
      FilesPlanOrigin(stage, cfg, landing, dataset, names[1..], e);
    }
  }

  lemma {:induction false} DatasetsPlanOrigin(stage: Stage, cfg: Config, landing: Landing, datasets: seq<Dataset>,
                                        e: Effect)
    requires stage.Deriving? ==> forall d :: d in datasets ==> IsSource(d)
    requires e in DatasetsPlan(stage, cfg, landing, datasets).effects
    ensures exists p: Path :: p in landing && p.dataset in datasets && e in FilePlan(stage, cfg, landing, p).effects
    decreases |datasets|
  {
    var head := DatasetPlan(stage, cfg, landing, datasets[0]);
    if e in head.effects {
      FilesPlanOrigin(stage, cfg, landing, datasets[0], Listing(landing, datasets[0]), e);
      var name :| name in Listing(landing, datasets[0]) && e in FilePlan(stage, cfg, landing, Path(datasets[0], name)).effects;
      assert Path(datasets[0], name) in landing;
    } else {
      DatasetsPlanOrigin(stage, cfg, landing, datasets[1..], e);
    }
  }

  lemma BuildPlanOrigin(cfg: Config, landing: Landing, e: Effect)
    requires e in BuildPlan(cfg, landing).effects
    ensures e.Derive? && IsSource(e.derivation.source.dataset) && !cfg.dryRun
    ensures e.derivation.source in landing && landing[e.derivation.source].content.Rows?
    ensures Indexable(landing)
    ensures var l := Load(e.derivation.source, landing[e.derivation.source].content.rows);
      Takes(landing, l) && e.derivation == DerivationOf(cfg.rules, landing, l)
  {
    var companyRows := ReadReady(landing, Companies, Listing(landing, Companies));
    var documentRows := ReadReady(landing, Documents, Listing(landing, Documents));
    var ix := cfg.rules.index(companyRows.value, documentRows.value);
    DatasetsPlanOrigin(Deriving(ix), cfg, landing, SOURCES, e);
    var p :| p in landing && p.dataset in SOURCES && e in FilePlan(Deriving(ix), cfg, landing, p).effects;
    DerivingFile(ix, cfg, landing, p);
  }

  lemma LoadPlanOrigin(cfg: Config, landing: Landing, datasets: seq<Dataset>, e: Effect)
    requires e in DatasetsPlan(Loading, cfg, landing, datasets).effects
    ensures exists l :: Takes(landing, l) && l.path.dataset in datasets && e in LoadRows(cfg, l)
  {
    DatasetsPlanOrigin(Loading, cfg, landing, datasets, e);
    var p :| p in landing && p.dataset in datasets && e in FilePlan(Loading, cfg, landing, p).effects;
    LoadingFile(cfg, landing, p);
  }

  lemma InsertedIsNonEmpty(cfg: Config, r: Load, l: Load)
    requires InsertCore(l) in LoadRows(cfg, r)
    ensures l == r && l.rows != [] && !cfg.dryRun
  {
  }

  lemma NoEmptyInsertCycle(cfg: Config, s: State, l: Load)
    requires l.rows == []
    ensures Times(CyclePlan(cfg, s).effects, InsertCore(l)) == 0
  {
    if InsertCore(l) in CyclePlan(cfg, s).effects {
      if InsertCore(l) in BuildPlan(cfg, s.landing).effects {
        BuildPlanOrigin(cfg, s.landing, InsertCore(l));
      } else {
        LoadPlanOrigin(cfg, Built(cfg, s).landing, cfg.Datasets(), InsertCore(l));
        var r :| InsertCore(l) in LoadRows(cfg, r);
        InsertedIsNonEmpty(cfg, r, l);
      }
      assert false;
    }
  }

  // ----- Derived before loaded ----------------------------------------------------------

  lemma {:induction false} FilesPlanComplete(stage: Stage, cfg: Config, landing: Landing, dataset: Dataset,
                                        names: seq<string>,
                                             name: string, e: Effect)
    requires stage.Deriving? ==> IsSource(dataset)
    requires FilesPlan(stage, cfg, landing, dataset, names).ok && name in names
    requires e in FilePlan(stage, cfg, landing, Path(dataset, name)).effects
    ensures e in FilesPlan(stage, cfg, landing, dataset, names).effects
    decreases |names|
  {
    if names[0] != name {
      FilesPlanComplete(stage, cfg, landing, dataset, names[1..], name, e);
    }
  }

  lemma {:induction false} DatasetsPlanComplete(stage: Stage, cfg: Config, landing: Landing, datasets: seq<Dataset>,
                                        p: Path, e: Effect)
    requires stage.Deriving? ==> forall d :: d in datasets ==> IsSource(d)
    requires DatasetsPlan(stage, cfg, landing, datasets).ok && p in landing && p.dataset in datasets
    requires e in FilePlan(stage, cfg, landing, p).effects
    ensures e in DatasetsPlan(stage, cfg, landing, datasets).effects
    decreases |datasets|
  {
    if datasets[0] == p.dataset {
      assert p.name in Names(landing, p.dataset);
      FilesPlanComplete(stage, cfg, landing, p.dataset, Listing(landing, p.dataset), p.name, e);
    } else {
      DatasetsPlanComplete(stage, cfg, landing, datasets[1..], p, e);
    }
  }

  /** The company and document files can be read, so that a build gets to deriving. */
  predicate Indexable(landing: Landing) {
    && ReadReady(landing, Companies, Listing(landing, Companies)).Some?
    && ReadReady(landing, Documents, Listing(landing, Documents)).Some?
  }

  /** The indexes a build enriches with. */
  function BuildIndexes(rules: Rules, landing: Landing): Indexes
    requires Indexable(landing)
  {
    rules.index(ReadReady(landing, Companies, Listing(landing, Companies)).value,
                ReadReady(landing, Documents, Listing(landing, Documents)).value)
  }

  /** What a build derives from a source file. */
  function DerivationOf(rules: Rules, landing: Landing, l: Load): (d: Derivation)
    requires Indexable(landing) && IsSource(l.path.dataset)
  {
    Derivation(l.path, Target(l.path), EventsOf(rules, l.path, l.rows, BuildIndexes(rules, landing)))
  }

  /** A completed build has written (or removed) the derived file of every ready source file. */
  lemma BuildPlanComplete(cfg: Config, landing: Landing, l: Load)
    requires BuildPlan(cfg, landing).ok && !cfg.dryRun && Takes(landing, l) && IsSource(l.path.dataset)
    ensures Derive(DerivationOf(cfg.rules, landing, l)) in BuildPlan(cfg, landing).effects
  {
    var companyRows := ReadReady(landing, Companies, Listing(landing, Companies));
    var documentRows := ReadReady(landing, Documents, Listing(landing, Documents));
    var ix := cfg.rules.index(companyRows.value, documentRows.value);
    var d := DerivationOf(cfg.rules, landing, l);
    DerivingFile(ix, cfg, landing, l.path);
    assert Derive(d) in FilePlan(Deriving(ix), cfg, landing, l.path).effects;
    assert l.path.dataset in SOURCES by {
      assert SOURCES[0] == Documents && SOURCES[1] == Postings && SOURCES[2] == Audit;
    }
    DatasetsPlanComplete(Deriving(ix), cfg, landing, SOURCES, l.path, Derive(d));
  }

  /** Some source file has its derived file at `p`. */
  ghost predicate IsTarget(p: Path) {
    exists q: Path :: IsSource(q.dataset) && Target(q) == p
  }

  lemma SourcesAreNoTargets(p: Path)
    requires IsSource(p.dataset)
    ensures !IsTarget(p)
  {
  }

  lemma {:induction false} DerivesLeaveAlone(s: State, es: seq<Effect>, p: Path)
    requires forall e :: e in es ==> e.Derive? && e.derivation.target != p
    ensures p in ApplyAll(s, es).landing <==> p in s.landing
    ensures p in s.landing ==> ApplyAll(s, es).landing[p] == s.landing[p]
    decreases |es|
  {
    if es != [] {
      assert es[0] in es;
      DerivesLeaveAlone(Apply(s, es[0]), es[1..], p);
    }
  }

  lemma BuildLeavesAlone(cfg: Config, s: State, p: Path)
    requires !IsTarget(p)
    ensures p in Built(cfg, s).landing <==> p in s.landing
    ensures p in s.landing ==> Built(cfg, s).landing[p] == s.landing[p]
  {
    var es := BuildPlan(cfg, s.landing).effects;
    forall e | e in es
      ensures e.Derive? && e.derivation.target != p
    {
      BuildPlanOrigin(cfg, s.landing, e);
    }
    DerivesLeaveAlone(s, es, p);
  }

  ghost predicate DerivedBefore(es: seq<Effect>, k: int, l: Load) {
    exists j :: 0 <= j < k <= |es| && es[j].Derive? && es[j].derivation.source == l.path
      && es[j].derivation.target == DerivedTarget(l.path) && |es[j].derivation.events| == |l.rows|
  }

  function DerivedTarget(p: Path): Path {
    if IsSource(p.dataset) then Target(p) else p
  }

  /** A documents, postings or audit file is loaded, archived or removed only after its derived file
      was written with as many rows, within the same cycle; so it is too when the cycle crashes. */
  lemma LoadedOnlyAfterDerived(cfg: Config, s: State, k: nat)
    requires k < |CyclePlan(cfg, s).effects| && !CyclePlan(cfg, s).effects[k].Derive?
    requires IsSource(CyclePlan(cfg, s).effects[k].load.path.dataset)
    ensures DerivedBefore(CyclePlan(cfg, s).effects, k, CyclePlan(cfg, s).effects[k].load)
  {
    var build := BuildPlan(cfg, s.landing);
    var e := CyclePlan(cfg, s).effects[k];
    CycleIsBuildThenLoad(cfg, s, k);
    hide CyclePlan, BuildPlan, DatasetsPlan, DerivationOf;
    if k < |build.effects| {
      BuildPlanOrigin(cfg, s.landing, e);
      assert false;
    } else {
      LoadPlanOrigin(cfg, Built(cfg, s).landing, cfg.Datasets(), e);
      var l :| Takes(Built(cfg, s).landing, l) && l.path.dataset in cfg.Datasets() && e in LoadRows(cfg, l);
      LoadRowsShape(cfg, l, e);
      SourcesAreNoTargets(l.path);
      BuildLeavesAlone(cfg, s, l.path);
      BuildPlanComplete(cfg, s.landing, l);
      DerivedEarlier(cfg, s, k, l);
    }
  }

  lemma CycleIsBuildThenLoad(cfg: Config, s: State, k: nat)
    requires k < |CyclePlan(cfg, s).effects|
    ensures var e := CyclePlan(cfg, s).effects[k];
      if k < |BuildPlan(cfg, s.landing).effects| then e in BuildPlan(cfg, s.landing).effects
      else e in DatasetsPlan(Loading, cfg, Built(cfg, s).landing, cfg.Datasets()).effects
  {
    hide BuildPlan, DatasetsPlan;
  }

  lemma DerivedEarlier(cfg: Config, s: State, k: nat, l: Load)
    requires |BuildPlan(cfg, s.landing).effects| <= k < |CyclePlan(cfg, s).effects|
    requires Indexable(s.landing) && IsSource(l.path.dataset)
    requires Derive(DerivationOf(cfg.rules, s.landing, l)) in BuildPlan(cfg, s.landing).effects
    ensures DerivedBefore(CyclePlan(cfg, s).effects, k, l)
  {
    hide BuildPlan, DatasetsPlan, EventsOf, BuildIndexes, Indexable;
    var d := DerivationOf(cfg.rules, s.landing, l);
    var build := BuildPlan(cfg, s.landing);
    var j :| 0 <= j < |build.effects| && build.effects[j] == Derive(d);
    assert CyclePlan(cfg, s).effects[j] == Derive(d);
  }

  lemma LoadRowsShape(cfg: Config, l: Load, e: Effect)
    requires e in LoadRows(cfg, l)
    ensures !e.Derive? && e.load == l && !cfg.dryRun
  {
  }

  // ----- Nothing is lost ----------------------------------------------------------------

  /** `q` is a ready source file whose derived file is `p`. */
  predicate Derives(landing: Landing, q: Path, p: Path) {
    q in landing && landing[q].ready && IsSource(q.dataset) && Target(q) == p
  }

  /** No ready source file derives other rows onto the path of `l` than those it holds: for most files because
      theirs is not the name of a derived file, for a derived file because its source is gone or unchanged. */
  ghost predicate Undisturbed(rules: Rules, landing: Landing, l: Load) {
    forall q :: Derives(landing, q, l.path) && landing[q].content.Rows? && Indexable(landing) ==>
      DerivationOf(rules, landing, Load(q, landing[q].content.rows)).events == l.rows
  }

  lemma {:induction false} StaysUntilDeparture(s: State, es: seq<Effect>, l: Load)
    requires Takes(s.landing, l) && l.rows != []
    requires forall e :: e in es && e.Derive? && e.derivation.target == l.path ==> e.derivation.events == l.rows
    requires forall e :: e in es && (e.Rename? || e.Remove?) && e.load.path == l.path ==> e.load == l
    ensures Takes(ApplyAll(s, es).landing, l) || Departures(es, l) > 0
    decreases |es|
  {
    if es != [] {
      assert es[0] in es && es == [es[0]] + es[1..];
      if Takes(Apply(s, es[0]).landing, l) {
        StaysUntilDeparture(Apply(s, es[0]), es[1..], l);
        assert Departures(es, l) >= Departures(es[1..], l);
      } else {
        assert es[0] == Rename(l) || es[0] == Remove(l);
      }
    }
  }

  lemma UndisturbedBuild(cfg: Config, s: State, l: Load, e: Effect)
    requires Undisturbed(cfg.rules, s.landing, l) && e in BuildPlan(cfg, s.landing).effects
    ensures e.Derive? && (e.derivation.target == l.path ==> e.derivation.events == l.rows)
  {
    hide BuildPlan, DerivationOf, Indexable;
    BuildPlanOrigin(cfg, s.landing, e);
    var source := e.derivation.source;
    DerivationShape(cfg.rules, s.landing, Load(source, s.landing[source].content.rows));
    assert e.derivation.target == l.path ==> Derives(s.landing, e.derivation.source, l.path);
  }

  lemma {:induction false} UndisturbedStays(s: State, es: seq<Effect>, l: Load)
    requires Takes(s.landing, l) && l.rows != []
    requires forall e :: e in es ==> e.Derive? && (e.derivation.target == l.path ==> e.derivation.events == l.rows)
    ensures Takes(ApplyAll(s, es).landing, l)
    decreases |es|
  {
    if es != [] {
      assert es[0] in es;
      UndisturbedStays(Apply(s, es[0]), es[1..], l);
    }
  }

  /** Loading may stop anywhere: what was landed when it began is still landed, or newly in the core table. */
  lemma LoadsLoseNothing(cfg: Config, s: State, datasets: seq<Dataset>, k: nat, l: Load)
    requires Takes(s.landing, l) && l.rows != []
    requires k <= |DatasetsPlan(Loading, cfg, s.landing, datasets).effects|
    ensures var after := ApplyAll(s, DatasetsPlan(Loading, cfg, s.landing, datasets).effects[..k]);
      Takes(after.landing, l) || multiset(after.core)[l] > multiset(s.core)[l]
  {
    hide DatasetsPlan, ApplyAll;
    var es := DatasetsPlan(Loading, cfg, s.landing, datasets).effects;
    forall e | e in es[..k]
      ensures !e.Derive? && ((e.Rename? || e.Remove?) && e.load.path == l.path ==> e.load == l)
    {
      assert e in es;
      LoadPlanOrigin(cfg, s.landing, datasets, e);
      var r :| Takes(s.landing, r) && r.path.dataset in datasets && e in LoadRows(cfg, r);
      LoadRowsShape(cfg, r, e);
    }
    StaysUntilDeparture(s, es[..k], l);
    OrderlyDatasets(Loading, cfg, s.landing, datasets);
    assert InOrder(es[..k], l);
    CountsAfter(s, es[..k], l);
  }

  /** A prefix of a cycle is a prefix of its derivations, or all of them and a prefix of its loads. */
  lemma CyclePrefixSplit(cfg: Config, s: State, k: nat)
    requires k <= |CyclePlan(cfg, s).effects|
    ensures var build, loads := BuildPlan(cfg, s.landing), DatasetsPlan(Loading, cfg, Built(cfg, s).landing, cfg.Datasets());
      if k <= |build.effects| then CyclePlan(cfg, s).effects[..k] == build.effects[..k]
      else (
        && build.ok && k - |build.effects| <= |loads.effects|
        && ApplyAll(s, CyclePlan(cfg, s).effects[..k]) == ApplyAll(Built(cfg, s), loads.effects[..k - |build.effects|]))
  {
    hide BuildPlan, DatasetsPlan, ApplyAll;
    var build, loads := BuildPlan(cfg, s.landing), DatasetsPlan(Loading, cfg, Built(cfg, s).landing, cfg.Datasets());
    if k > |build.effects| {
      assert CyclePlan(cfg, s).effects[..k] == build.effects + loads.effects[..k - |build.effects|];
      ApplyConcat(s, build.effects, loads.effects[..k - |build.effects|]);
    } else {
      assert CyclePlan(cfg, s).effects[..k] == build.effects[..k];
    }
  }

  lemma BuildKeepsCore(cfg: Config, s: State)
    ensures Built(cfg, s).core == s.core
  {
    var es := BuildPlan(cfg, s.landing).effects;
    forall e | e in es
      ensures e.Derive?
    {
      BuildPlanOrigin(cfg, s.landing, e);
    }
    DerivesKeepCore(s, es);
  }

  lemma {:induction false} DerivesKeepCore(s: State, es: seq<Effect>)
    requires forall e :: e in es ==> e.Derive?
    ensures ApplyAll(s, es).core == s.core
    decreases |es|
  {
    if es != [] {
      assert es[0] in es;
      DerivesKeepCore(Apply(s, es[0]), es[1..]);
    }
  }

  /** Wherever a cycle stops: a ready non-empty file that no source derives other rows onto is still landed
      unchanged, or it is in the core table. */
  lemma NothingLost(cfg: Config, s: State, steps: nat, l: Load)
    requires Takes(s.landing, l) && l.rows != [] && Undisturbed(cfg.rules, s.landing, l)
    ensures var after := Cycle(cfg, s, steps);
      Takes(after.landing, l) || multiset(after.core)[l] > multiset(s.core)[l]
  {
    hide CyclePlan, BuildPlan, DatasetsPlan, ApplyAll, Undisturbed;
    CyclePrefix(cfg, s, steps);
    var k :| 0 <= k <= |CyclePlan(cfg, s).effects| && Cycle(cfg, s, steps) == ApplyAll(s, CyclePlan(cfg, s).effects[..k]);
    CyclePrefixSplit(cfg, s, k);
    var build := BuildPlan(cfg, s.landing).effects;
    forall e | e in build
      ensures e.Derive? && (e.derivation.target == l.path ==> e.derivation.events == l.rows)
    {
      UndisturbedBuild(cfg, s, l, e);
    }
    if k <= |build| {
      assert forall e :: e in build[..k] ==> e in build;
      UndisturbedStays(s, build[..k], l);
    } else {
      UndisturbedStays(s, build, l);
      BuildKeepsCore(cfg, s);
      LoadsLoseNothing(cfg, Built(cfg, s), cfg.Datasets(), k - |build|, l);
    }
  }

  /** That no source derives other rows onto a file is also needed: otherwise a cycle that stops right after that
      derivation has lost the file. */
  lemma NothingLostIff(cfg: Config, s: State, l: Load)
    requires Takes(s.landing, l) && l.rows != [] && BuildPlan(cfg, s.landing).ok && !cfg.dryRun
    ensures (forall steps: nat :: Survives(cfg, s, steps, l)) <==> Undisturbed(cfg.rules, s.landing, l)
  {
    hide BuildPlan, Cycle, DerivationOf, Indexable;
    if Undisturbed(cfg.rules, s.landing, l) {
      forall steps: nat
        ensures Survives(cfg, s, steps, l)
      {
        NothingLost(cfg, s, steps, l);
      }
    } else {
      var q :| Derives(s.landing, q, l.path) && s.landing[q].content.Rows? && Indexable(s.landing)
        && DerivationOf(cfg.rules, s.landing, Load(q, s.landing[q].content.rows)).events != l.rows;
      var r := Load(q, s.landing[q].content.rows);
      BuildPlanComplete(cfg, s.landing, r);
      DerivationShape(cfg.rules, s.landing, r);
      StopAfterDerivation(cfg, s, l, DerivationOf(cfg.rules, s.landing, r));
    }
  }

  ghost predicate Survives(cfg: Config, s: State, steps: nat, l: Load) {
    Takes(Cycle(cfg, s, steps).landing, l) || multiset(Cycle(cfg, s, steps).core)[l] > multiset(s.core)[l]
  }

  lemma DerivationShape(rules: Rules, landing: Landing, l: Load)
    requires Indexable(landing) && IsSource(l.path.dataset)
    ensures DerivationOf(rules, landing, l).source == l.path && DerivationOf(rules, landing, l).target == Target(l.path)
    ensures |DerivationOf(rules, landing, l).events| == |l.rows|
  {
  }

  lemma StopAfterDerivation(cfg: Config, s: State, l: Load, d: Derivation)
    requires Derive(d) in BuildPlan(cfg, s.landing).effects && d.target == l.path && d.events != l.rows
    ensures exists steps: nat :: !Survives(cfg, s, steps, l)
  {
    hide BuildPlan, DatasetsPlan;
    var build, es := BuildPlan(cfg, s.landing).effects, CyclePlan(cfg, s).effects;
    var k :| 0 <= k < |build| && build[k] == Derive(d);
    CyclePrefixSplit(cfg, s, k + 1);
    assert build[..k + 1] == build[..k] + [Derive(d)];
    ApplyConcat(s, build[..k], [Derive(d)]);
    forall e | e in build[..k + 1]
      ensures e.Derive?
    {
      assert e in build;
      BuildPlanOrigin(cfg, s.landing, e);
    }
    DerivesKeepCore(s, build[..k + 1]);
    assert es[..|es|] == es;
    assert Cycle(cfg, s, k + 1) == ApplyAll(s, es[..k + 1]);
    var mid := ApplyAll(s, build[..k]);
    assert [Derive(d)][1..] == [];
    assert ApplyAll(mid, [Derive(d)]) == Apply(mid, Derive(d));
    assert !Survives(cfg, s, k + 1, l);
  }

  /** Between cycles files may arrive and grow old enough, but nobody else touches what is landed. */
  predicate Aged(before: File, after: File) {
    before.content == after.content && (before.ready ==> after.ready)
  }

  ghost predicate OnlyArrivals(s: State, rounds: seq<Round>)
    decreases |rounds|
  {
    rounds != [] ==>
      && (forall p :: p in s.landing ==> p in rounds[0].landing && Aged(s.landing[p], rounds[0].landing[p]))
      && OnlyArrivals(Cycle(rounds[0].cfg, s.(landing := rounds[0].landing), rounds[0].steps), rounds[1..])
  }

  /** In no round a source derives other rows onto the file. */
  ghost predicate NeverDisturbed(rounds: seq<Round>, l: Load) {
    forall i :: 0 <= i < |rounds| ==> Undisturbed(rounds[i].cfg.rules, rounds[i].landing, l)
  }

  /** Through any history of crashing cycles, every ready non-empty file that is never derived anew with other
      rows is still landed or was loaded. */
  lemma {:induction false} NothingLostEver(s: State, rounds: seq<Round>, l: Load)
    requires Takes(s.landing, l) && l.rows != []
    requires OnlyArrivals(s, rounds) && NeverDisturbed(rounds, l)
    ensures Takes(Run(s, rounds).landing, l) || l in Run(s, rounds).core
    decreases |rounds|
  {
    hide Cycle, Undisturbed;
    if rounds != [] {
      var found := s.(landing := rounds[0].landing);
      var after := Cycle(rounds[0].cfg, found, rounds[0].steps);
      assert Undisturbed(rounds[0].cfg.rules, rounds[0].landing, l);
      NothingLost(rounds[0].cfg, found, rounds[0].steps, l);
      if Takes(after.landing, l) {
        NothingLostEver(after, rounds[1..], l);
      } else {
        assert multiset(after.core)[l] > 0;
        CoreOnlyGrows(after, rounds[1..], l);
      }
    }
  }

  lemma {:induction false} CoreOnlyGrows(s: State, rounds: seq<Round>, l: Load)
    ensures multiset(Run(s, rounds).core)[l] >= multiset(s.core)[l]
    decreases |rounds|
  {
    if rounds != [] {
      var found := s.(landing := rounds[0].landing);
      CyclePrefix(rounds[0].cfg, found, rounds[0].steps);
      var es := CyclePlan(rounds[0].cfg, found).effects;
      var k :| 0 <= k <= |es| && Cycle(rounds[0].cfg, found, rounds[0].steps) == ApplyAll(found, es[..k]);
      CountsAfter(found, es[..k], l);
      CoreOnlyGrows(Cycle(rounds[0].cfg, found, rounds[0].steps), rounds[1..], l);
    }
  }
}
