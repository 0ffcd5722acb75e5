/** What one ingest cycle that runs to its end achieves: when it does, and what is loaded then. */
module IngestExact {
  import opened Ingest
  import opened IngestSafety
  import opened TextOrder

  // ----- When a cycle runs to its end ---------------------------------------------------

  predicate Poison(landing: Landing, p: Path) {
    p in landing && landing[p].ready && landing[p].content.Unreadable?
  }

  lemma {:induction false} FilesPlanOk(stage: Stage, cfg: Config, landing: Landing, dataset: Dataset,
                                       names: seq<string>)
    requires stage.Deriving? ==> IsSource(dataset)
    ensures FilesPlan(stage, cfg, landing, dataset, names).ok <==>
      forall name :: name in names ==> !Poison(landing, Path(dataset, name))
    ensures ReadReady(landing, dataset, names).Some? <==>
      forall name :: name in names ==> !Poison(landing, Path(dataset, name))
    decreases |names|
  {
    if names != [] {
      FilesPlanOk(stage, cfg, landing, dataset, names[1..]);
      assert forall name :: name in names <==> name == names[0] || name in names[1..];
    }
  }

  ghost predicate Readable(landing: Landing, datasets: seq<Dataset>) {
    forall p :: p in landing && p.dataset in datasets ==> !Poison(landing, p)
  }

  lemma ListingReadable(landing: Landing, dataset: Dataset)
    ensures (forall name :: name in Listing(landing, dataset) ==> !Poison(landing, Path(dataset, name)))
      <==> Readable(landing, [dataset])
  {
    if forall name :: name in Listing(landing, dataset) ==> !Poison(landing, Path(dataset, name)) {
      forall p | p in landing && p.dataset in [dataset]
        ensures !Poison(landing, p)
      {
        assert p.name in Listing(landing, dataset);
        assert p == Path(dataset, p.name);
      }
    } else {
      var name :| name in Listing(landing, dataset) && Poison(landing, Path(dataset, name));
      assert Path(dataset, name) in landing;
    }
  }

  lemma {:induction false} DatasetsPlanOk(stage: Stage, cfg: Config, landing: Landing, datasets: seq<Dataset>)
    requires stage.Deriving? ==> forall d :: d in datasets ==> IsSource(d)
    ensures DatasetsPlan(stage, cfg, landing, datasets).ok <==> Readable(landing, datasets)
    decreases |datasets|
  {
    if datasets != [] {
      FilesPlanOk(stage, cfg, landing, datasets[0], Listing(landing, datasets[0]));
      ListingReadable(landing, datasets[0]);
      DatasetsPlanOk(stage, cfg, landing, datasets[1..]);
      assert Readable(landing, datasets) <==> Readable(landing, [datasets[0]]) && Readable(landing, datasets[1..]) by {
        assert forall d :: d in datasets <==> d in [datasets[0]] || d in datasets[1..];
      }
    }
  }

  /** The datasets a build reads. */
  const BUILD_INPUTS: seq<Dataset> := [Companies, Documents, Postings, Audit]

  lemma IndexableIff(cfg: Config, landing: Landing)
    ensures Indexable(landing) <==> Readable(landing, [Companies]) && Readable(landing, [Documents])
  {
    hide FilesPlan, ReadReady, Readable, Poison;
    FilesPlanOk(Loading, cfg, landing, Companies, Listing(landing, Companies));
    FilesPlanOk(Loading, cfg, landing, Documents, Listing(landing, Documents));
    ListingReadable(landing, Companies);
    ListingReadable(landing, Documents);
  }

  lemma BuildOk(cfg: Config, landing: Landing)
    ensures BuildPlan(cfg, landing).ok <==> Readable(landing, BUILD_INPUTS)
  {
    IndexableIff(cfg, landing);
    hide DatasetsPlan, ReadReady;
    assert Readable(landing, BUILD_INPUTS) <==> Indexable(landing) && Readable(landing, SOURCES) by {
      assert forall d: Dataset :: d in BUILD_INPUTS <==> d in [Companies] || d in [Documents] || d in SOURCES by {
        assert SOURCES == [Documents, Postings, Audit];
        assert BUILD_INPUTS == [Companies] + SOURCES;
      }
    }
    if Indexable(landing) {
      DatasetsPlanOk(Deriving(BuildIndexes(cfg.rules, landing)), cfg, landing, SOURCES);
    }
  }

  /** A cycle runs to its end exactly when no ready file that it reads is unreadable. One bad file
      among the build inputs stops the loading of every dataset. */
  lemma CompletesIffReadable(cfg: Config, s: State)
    ensures CyclePlan(cfg, s).ok <==>
      Readable(s.landing, BUILD_INPUTS) && Readable(Built(cfg, s).landing, cfg.Datasets())
    ensures !Readable(s.landing, BUILD_INPUTS) ==>
      forall e :: e in CyclePlan(cfg, s).effects ==> e.Derive?
  {
    BuildOk(cfg, s.landing);
    DatasetsPlanOk(Loading, cfg, Built(cfg, s).landing, cfg.Datasets());
    if !Readable(s.landing, BUILD_INPUTS) {
      forall e | e in CyclePlan(cfg, s).effects
        ensures e.Derive?
      {
        BuildPlanOrigin(cfg, s.landing, e);
      }
    }
  }

  /** The state after a cycle that nothing interrupts. */
  function After(cfg: Config, s: State): State {
    ApplyAll(s, CyclePlan(cfg, s).effects)
  }

  // ----- Exactly one load per file ------------------------------------------------------

  ghost predicate Distinct<T>(a: seq<T>) {
    forall i, j :: 0 <= i < j < |a| ==> a[i] != a[j]
  }

  ghost function Once(b: bool): nat {
    if b then 1 else 0
  }

  lemma LoadRowsCounts(cfg: Config, r: Load, l: Load)
    requires !cfg.dryRun
    ensures Times(LoadRows(cfg, r), InsertCore(l)) == Once(l == r && l.rows != [])
    ensures Times(LoadRows(cfg, r), InsertRaw(l)) == Once(l == r && l.rows != [])
  {
    var ins := if r.rows == [] then [] else [InsertRaw(r), InsertCore(r)];
    var out := Retire(cfg, r);
    assert LoadRows(cfg, r) == ins + out;
    TimesConcat(ins, out, InsertCore(l));
    TimesConcat(ins, out, InsertRaw(l));
    assert forall e :: e in out ==> !e.InsertCore? && !e.InsertRaw?;
    assert Times(out, InsertCore(l)) == 0 == Times(out, InsertRaw(l));
  }

  lemma FileCounts(cfg: Config, landing: Landing, p: Path, l: Load)
    requires !cfg.dryRun
    ensures Times(FilePlan(Loading, cfg, landing, p).effects, InsertCore(l)) == Once(l.path == p && Takes(landing, l) && l.rows != [])
    ensures Times(FilePlan(Loading, cfg, landing, p).effects, InsertRaw(l)) == Once(l.path == p && Takes(landing, l) && l.rows != [])
  {
    if p in landing && landing[p].ready && landing[p].content.Rows? {
      var r := Load(p, landing[p].content.rows);
      assert Takes(landing, r);
      LoadRowsCounts(cfg, r, l);
    }
  }

  /** The plan loads `l` at most `n` times into either layer, and exactly `n` times if it runs to its end. */
  ghost predicate CountedUpTo(plan: Plan, l: Load, n: nat) {
    && Times(plan.effects, InsertCore(l)) <= n && Times(plan.effects, InsertRaw(l)) <= n
    && (plan.ok ==> Times(plan.effects, InsertCore(l)) == n == Times(plan.effects, InsertRaw(l)))
  }

  lemma {:induction false} FilesCounts(cfg: Config, landing: Landing, dataset: Dataset, names: seq<string>, l: Load)
    requires !cfg.dryRun && Distinct(names)
    ensures var n := Once(l.path.dataset == dataset && l.path.name in names && Takes(landing, l) && l.rows != []);
      CountedUpTo(FilesPlan(Loading, cfg, landing, dataset, names), l, n)
    decreases |names|
  {
    if names != [] {
      FileCounts(cfg, landing, Path(dataset, names[0]), l);
      FilesCounts(cfg, landing, dataset, names[1..], l);
      assert names[0] !in names[1..];
      assert l.path == Path(l.path.dataset, l.path.name);
    }
  }

  lemma {:induction false} DatasetsCounts(cfg: Config, landing: Landing, datasets: seq<Dataset>, l: Load)
    requires !cfg.dryRun && Distinct(datasets)
    ensures var n := Once(l.path.dataset in datasets && Takes(landing, l) && l.rows != []);
      CountedUpTo(DatasetsPlan(Loading, cfg, landing, datasets), l, n)
    decreases |datasets|
  {
    if datasets != [] {
      ListingDistinct(landing, datasets[0]);
      FilesCounts(cfg, landing, datasets[0], Listing(landing, datasets[0]), l);
      DatasetsCounts(cfg, landing, datasets[1..], l);
      assert datasets[0] !in datasets[1..];
      if Takes(landing, l) && l.path.dataset == datasets[0] {
        assert l.path.name in Names(landing, datasets[0]);
      }
    }
  }

  lemma ListingDistinct(landing: Landing, dataset: Dataset)
    ensures Distinct(Listing(landing, dataset))
  {
    SortedAscending(Names(landing, dataset));
  }

  lemma DatasetsDistinct(cfg: Config)
    ensures Distinct(cfg.Datasets())
  {
    assert DATASETS[0] == Documents && DATASETS[1] == Postings && DATASETS[2] == BusinessEvents
        && DATASETS[3] == DocumentChanges && DATASETS[4] == Companies && DATASETS[5] == Reglog
        && DATASETS[6] == Audit && DATASETS[7] == Host;
  }

  lemma FullCycleCovers(cfg: Config, d: Dataset)
    requires cfg.only.None?
    ensures d in cfg.Datasets()
  {
    var i := match d
      case Documents => 0 case Postings => 1 case BusinessEvents => 2 case DocumentChanges => 3
      case Companies => 4 case Reglog => 5 case Audit => 6 case Host => 7;
    assert DATASETS[i] == d;
  }

  /** A cycle loads one dataset when it is given one, and all of them otherwise. */
  lemma DatasetsOfCycle(cfg: Config, d: Dataset)
    ensures d in cfg.Datasets() <==> cfg.only.None? || cfg.only.value == d
  {
    if cfg.only.None? {
      FullCycleCovers(cfg, d);
    }
  }

  /** `l` is a ready, non-empty file of the cycle's datasets once the derived files are written. */
  ghost predicate IsLoadOf(cfg: Config, s: State, l: Load) {
    l.path.dataset in cfg.Datasets() && Takes(Built(cfg, s).landing, l) && l.rows != []
  }

  /** A cycle that runs to its end adds one raw and one core load for every ready non-empty file of
      its datasets, counting the files it derived, and adds no other load. */
  lemma CompleteCycleLoadsOnce(cfg: Config, s: State, l: Load)
    requires CyclePlan(cfg, s).ok && !cfg.dryRun
    ensures multiset(After(cfg, s).core)[l] == multiset(s.core)[l] + Once(IsLoadOf(cfg, s, l))
    ensures multiset(After(cfg, s).raw)[l] == multiset(s.raw)[l] + Once(IsLoadOf(cfg, s, l))
  {
    var build, loads := BuildPlan(cfg, s.landing).effects, LoadPlan(cfg, s).effects;
    CountsAfter(s, CyclePlan(cfg, s).effects, l);
    DatasetsDistinct(cfg);
    DatasetsCounts(cfg, Built(cfg, s).landing, cfg.Datasets(), l);
    TimesConcat(build, loads, InsertCore(l));
    TimesConcat(build, loads, InsertRaw(l));
    if InsertCore(l) in build {
      BuildPlanOrigin(cfg, s.landing, InsertCore(l));
    }
    if InsertRaw(l) in build {
      BuildPlanOrigin(cfg, s.landing, InsertRaw(l));
    }
  }

  // ----- Exactly one archiving per file -------------------------------------------------

  lemma LoadRowsArchives(cfg: Config, r: Load, l: Load)
    requires !cfg.dryRun
    ensures Archivings(LoadRows(cfg, r), l) == Once(l == r && cfg.archive)
  {
    var ins := if r.rows == [] then [] else [InsertRaw(r), InsertCore(r)];
    var out := Retire(cfg, r);
    assert LoadRows(cfg, r) == ins + out;
    TimesConcat(ins, out, Rename(l));
    TimesConcat(ins, out, CopyToArchive(l));
    assert forall e :: e in ins ==> !e.Rename? && !e.CopyToArchive?;
    assert Archivings(ins, l) == 0;
  }

  lemma FileArchives(cfg: Config, landing: Landing, p: Path, l: Load)
    requires !cfg.dryRun
    ensures Archivings(FilePlan(Loading, cfg, landing, p).effects, l) == Once(l.path == p && Takes(landing, l) && cfg.archive)
  {
    if p in landing && landing[p].ready && landing[p].content.Rows? {
      LoadRowsArchives(cfg, Load(p, landing[p].content.rows), l);
    }
  }

  lemma {:induction false} FilesArchive(cfg: Config, landing: Landing, dataset: Dataset, names: seq<string>, l: Load)
    requires !cfg.dryRun && Distinct(names) && FilesPlan(Loading, cfg, landing, dataset, names).ok
    ensures Archivings(FilesPlan(Loading, cfg, landing, dataset, names).effects, l)
      == Once(l.path.dataset == dataset && l.path.name in names && Takes(landing, l) && cfg.archive)
    decreases |names|
  {
    if names != [] {
      FileArchives(cfg, landing, Path(dataset, names[0]), l);
      FilesArchive(cfg, landing, dataset, names[1..], l);
      assert names[0] !in names[1..];
      assert l.path == Path(l.path.dataset, l.path.name);
    }
  }

  lemma {:induction false} DatasetsArchive(cfg: Config, landing: Landing, datasets: seq<Dataset>, l: Load)
    requires !cfg.dryRun && Distinct(datasets) && DatasetsPlan(Loading, cfg, landing, datasets).ok
    ensures Archivings(DatasetsPlan(Loading, cfg, landing, datasets).effects, l)
      == Once(l.path.dataset in datasets && Takes(landing, l) && cfg.archive)
    decreases |datasets|
  {
    hide Archivings;
    if datasets == [] {
      ArchivingsConcat([], [], l);
    } else {
      ListingDistinct(landing, datasets[0]);
      FilesArchive(cfg, landing, datasets[0], Listing(landing, datasets[0]), l);
      DatasetsArchive(cfg, landing, datasets[1..], l);
      ArchivingsConcat(DatasetPlan(Loading, cfg, landing, datasets[0]).effects,
                       DatasetsPlan(Loading, cfg, landing, datasets[1..]).effects, l);
      assert datasets[0] !in datasets[1..];
      if Takes(landing, l) && l.path.dataset == datasets[0] {
        assert l.path.name in Names(landing, datasets[0]);
      }
    }
  }

  lemma ArchivingsConcat(a: seq<Effect>, b: seq<Effect>, l: Load)
    ensures Archivings([], l) == 0
    ensures Archivings(a + b, l) == Archivings(a, l) + Archivings(b, l)
  {
    TimesConcat(a, b, Rename(l));
    TimesConcat(a, b, CopyToArchive(l));
  }

  /** A cycle that runs to its end and has an archive adds every ready file of its datasets to it once, empty ones and
      those it derived included; without an archive none. */
  lemma CompleteCycleArchives(cfg: Config, s: State, l: Load)
    requires CyclePlan(cfg, s).ok && !cfg.dryRun
    ensures multiset(After(cfg, s).archive)[l] == multiset(s.archive)[l]
      + Once(cfg.archive && l.path.dataset in cfg.Datasets() && Takes(Built(cfg, s).landing, l))
  {
    var build, loads := BuildPlan(cfg, s.landing).effects, LoadPlan(cfg, s).effects;
    CountsAfter(s, CyclePlan(cfg, s).effects, l);
    DatasetsDistinct(cfg);
    DatasetsArchive(cfg, Built(cfg, s).landing, cfg.Datasets(), l);
    ArchivingsConcat(build, loads, l);
    if Rename(l) in build {
      BuildPlanOrigin(cfg, s.landing, Rename(l));
    }
    if CopyToArchive(l) in build {
      BuildPlanOrigin(cfg, s.landing, CopyToArchive(l));
    }
  }

  // ----- What is left in the landing directories ----------------------------------------

  lemma {:induction false} AbsentStaysAbsent(s: State, es: seq<Effect>, p: Path)
    requires forall e :: e in es ==> !e.Derive?
    requires p !in s.landing
    ensures p !in ApplyAll(s, es).landing
    decreases |es|
  {
    if es != [] {
      assert es[0] in es;
      AbsentStaysAbsent(Apply(s, es[0]), es[1..], p);
    }
  }

  lemma {:induction false} GoneAfterDeparture(s: State, es: seq<Effect>, l: Load)
    requires forall e :: e in es ==> !e.Derive?
    requires Rename(l) in es || Remove(l) in es
    ensures l.path !in ApplyAll(s, es).landing
    decreases |es|
  {
    if es[0] == Rename(l) || es[0] == Remove(l) {
      AbsentStaysAbsent(Apply(s, es[0]), es[1..], l.path);
    } else {
      GoneAfterDeparture(Apply(s, es[0]), es[1..], l);
    }
  }

  lemma {:induction false} StaysWithoutDeparture(s: State, es: seq<Effect>, p: Path)
    requires forall e :: e in es ==> !e.Derive? && (e.Rename? || e.Remove? ==> e.load.path != p)
    ensures p in ApplyAll(s, es).landing <==> p in s.landing
    ensures p in s.landing ==> ApplyAll(s, es).landing[p] == s.landing[p]
    decreases |es|
  {
    if es != [] {
      assert es[0] in es;
      StaysWithoutDeparture(Apply(s, es[0]), es[1..], p);
    }
  }

  function LoadPlan(cfg: Config, s: State): Plan {
    DatasetsPlan(Loading, cfg, Built(cfg, s).landing, cfg.Datasets())
  }

  lemma LoadEffects(cfg: Config, s: State, e: Effect)
    requires e in LoadPlan(cfg, s).effects
    ensures !e.Derive? && Takes(Built(cfg, s).landing, e.load) && e.load.path.dataset in cfg.Datasets()
    ensures e.Rename? || e.Remove? ==> cfg.Retires()
  {
    hide BuildPlan, DatasetsPlan, ApplyAll;
    LoadPlanOrigin(cfg, Built(cfg, s).landing, cfg.Datasets(), e);
    var l :| Takes(Built(cfg, s).landing, l) && l.path.dataset in cfg.Datasets() && e in LoadRows(cfg, l);
    LoadRowsShape(cfg, l, e);
    assert e.load == l;
  }

  lemma AfterIsBuiltThenLoaded(cfg: Config, s: State)
    requires BuildPlan(cfg, s.landing).ok
    ensures After(cfg, s) == ApplyAll(Built(cfg, s), LoadPlan(cfg, s).effects)
  {
    ApplyConcat(s, BuildPlan(cfg, s.landing).effects, LoadPlan(cfg, s).effects);
  }

  lemma ReadyFileDeparts(cfg: Config, s: State, l: Load)
    requires LoadPlan(cfg, s).ok && cfg.Retires()
    requires Takes(Built(cfg, s).landing, l) && l.path.dataset in cfg.Datasets()
    ensures Rename(l) in LoadPlan(cfg, s).effects || Remove(l) in LoadPlan(cfg, s).effects
  {
    var built := Built(cfg, s).landing;
    var e := if cfg.archive && !cfg.crossDevice then Rename(l) else Remove(l);
    RetireContains(cfg, l);
    assert FilePlan(Loading, cfg, built, l.path).effects == LoadRows(cfg, l);
    DatasetsPlanComplete(Loading, cfg, built, cfg.Datasets(), l.path, e);
  }

  /** After a complete cycle that retires files, the ready files of its datasets are gone, and nothing else is. */
  lemma CompleteCycleLeaves(cfg: Config, s: State, p: Path)
    requires CyclePlan(cfg, s).ok && !cfg.dryRun
    ensures var built, after := Built(cfg, s).landing, After(cfg, s).landing;
      if cfg.Retires() && p in built && built[p].ready && p.dataset in cfg.Datasets() then p !in after
      else (p in after <==> p in built) && (p in built ==> after[p] == built[p])
  {
    var built, loads := Built(cfg, s).landing, LoadPlan(cfg, s);
    AfterIsBuiltThenLoaded(cfg, s);
    forall e | e in loads.effects
      ensures !e.Derive? && Takes(built, e.load) && e.load.path.dataset in cfg.Datasets()
      ensures e.Rename? || e.Remove? ==> cfg.Retires()
    {
      LoadEffects(cfg, s, e);
    }
    if cfg.Retires() && p in built && built[p].ready && p.dataset in cfg.Datasets() {
      DatasetsPlanOk(Loading, cfg, built, cfg.Datasets());
      assert !Poison(built, p);
      var l := Load(p, built[p].content.rows);
      ReadyFileDeparts(cfg, s, l);
      GoneAfterDeparture(Built(cfg, s), loads.effects, l);
    } else {
      StaysWithoutDeparture(Built(cfg, s), loads.effects, p);
    }
  }

  lemma RetireContains(cfg: Config, l: Load)
    requires cfg.Retires()
    ensures (if cfg.archive && !cfg.crossDevice then Rename(l) else Remove(l)) in LoadRows(cfg, l)
  {
    var out := Retire(cfg, l);
    assert out[|out| - 1] == if cfg.archive && !cfg.crossDevice then Rename(l) else Remove(l);
    var ins := if l.rows == [] || cfg.dryRun then [] else [InsertRaw(l), InsertCore(l)];
    assert LoadRows(cfg, l) == ins + out;
  }

  // ----- Crash-free cycles in a row -----------------------------------------------------

  /** No landed file is old enough to be taken. */
  ghost predicate Quiet(landing: Landing) {
    forall p :: p in landing ==> !landing[p].ready
  }

  lemma {:induction false} NoReadyNoFiles(stage: Stage, cfg: Config, landing: Landing, dataset: Dataset,
                                        names: seq<string>)
    requires stage.Deriving? ==> IsSource(dataset)
    requires Quiet(landing)
    ensures FilesPlan(stage, cfg, landing, dataset, names) == Plan([], true)
    ensures ReadReady(landing, dataset, names).Some?
    decreases |names|
  {
    if names != [] {
      NoReadyNoFiles(stage, cfg, landing, dataset, names[1..]);
    }
  }

  lemma {:induction false} NoReadyNoDatasets(stage: Stage, cfg: Config, landing: Landing, datasets: seq<Dataset>)
    requires stage.Deriving? ==> forall d :: d in datasets ==> IsSource(d)
    requires Quiet(landing)
    ensures DatasetsPlan(stage, cfg, landing, datasets) == Plan([], true)
    decreases |datasets|
  {
    if datasets != [] {
      NoReadyNoFiles(stage, cfg, landing, datasets[0], Listing(landing, datasets[0]));
      NoReadyNoDatasets(stage, cfg, landing, datasets[1..]);
    }
  }

  lemma NoReadyIdle(cfg: Config, s: State)
    requires Quiet(s.landing)
    ensures CyclePlan(cfg, s) == Plan([], true)
  {
    NoReadyNoFiles(Loading, cfg, s.landing, Companies, Listing(s.landing, Companies));
    NoReadyNoFiles(Loading, cfg, s.landing, Documents, Listing(s.landing, Documents));
    NoReadyNoDatasets(Deriving(BuildIndexes(cfg.rules, s.landing)), cfg, s.landing, SOURCES);
    assert BuildPlan(cfg, s.landing) == Plan([], true);
    assert Built(cfg, s) == s;
    NoReadyNoDatasets(Loading, cfg, s.landing, cfg.Datasets());
  }

  /** The state after `n` crash-free cycles in a row without arrivals. */
  function Cycles(cfg: Config, s: State, n: nat): State
    decreases n
  {
    if n == 0 then s else Cycles(cfg, After(cfg, s), n - 1)
  }

  /** When nothing arrives or grows old enough between them, crash-free full cycles with an archive (or deletion)
      load every ready file, derived ones included, exactly once: the first does, and the others are idle. */
  lemma {:induction false} OnceWithoutArrivals(cfg: Config, s: State, n: nat, l: Load)
    requires CyclePlan(cfg, s).ok && cfg.Retires() && cfg.only.None? && n >= 1
    ensures multiset(Cycles(cfg, s, n).core)[l]
      == multiset(s.core)[l] + Once(Takes(Built(cfg, s).landing, l) && l.rows != [])
  {
    OneCycleIsEnough(cfg, s, n);
    FullCycleCovers(cfg, l.path.dataset);
    CompleteCycleLoadsOnce(cfg, s, l);
  }

  lemma {:induction false} OneCycleIsEnough(cfg: Config, s: State, n: nat)
    requires CyclePlan(cfg, s).ok && cfg.Retires() && cfg.only.None? && n >= 1
    ensures Cycles(cfg, s, n) == After(cfg, s)
  {
    hide After, CyclePlan;
    NothingReadyLeft(cfg, s);
    IdleForever(cfg, After(cfg, s), n - 1);
  }

  lemma NothingReadyLeft(cfg: Config, s: State)
    requires CyclePlan(cfg, s).ok && cfg.Retires() && cfg.only.None?
    ensures Quiet(After(cfg, s).landing)
  {
    var after := After(cfg, s).landing;
    forall p | p in after
      ensures !after[p].ready
    {
      FullCycleCovers(cfg, p.dataset);
      CompleteCycleLeaves(cfg, s, p);
    }
  }

  lemma {:induction false} IdleForever(cfg: Config, s: State, n: nat)
    requires Quiet(s.landing)
    ensures Cycles(cfg, s, n) == s
    decreases n
  {
    if n > 0 {
      NoReadyIdle(cfg, s);
      IdleForever(cfg, s, n - 1);
    }
  }

  /** Whether the next crash-free cycle loads a source file again: exactly when nothing retires it. */
  lemma LoadedAgainIffNotRetired(cfg: Config, s: State, l: Load)
    requires !cfg.dryRun && cfg.only.None? && CyclePlan(cfg, s).ok
    requires Takes(s.landing, l) && l.rows != [] && !IsTarget(l.path)
    requires CyclePlan(cfg, Cycles(cfg, s, 1)).ok
    ensures multiset(Cycles(cfg, s, 2).core)[l] == multiset(s.core)[l] + (if cfg.Retires() then 1 else 2)
  {
    FullCycleCovers(cfg, l.path.dataset);
    BuildLeavesAlone(cfg, s, l.path);
    var after := After(cfg, s);
    assert Cycles(cfg, s, 1) == Cycles(cfg, after, 0) == after;
    assert Cycles(cfg, s, 2) == Cycles(cfg, after, 1);
    if cfg.Retires() {
      OnceWithoutArrivals(cfg, s, 2, l);
    } else {
      CompleteCycleLoadsOnce(cfg, s, l);
      CompleteCycleLeaves(cfg, s, l.path);
      BuildLeavesAlone(cfg, after, l.path);
      CompleteCycleLoadsOnce(cfg, after, l);
      assert Cycles(cfg, after, 1) == Cycles(cfg, After(cfg, after), 0);
    }
  }
}
