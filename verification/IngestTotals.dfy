/** Row conservation of a complete ingest cycle: how many business events and document changes it loads. */
module IngestTotals {
  import opened Ingest
  import opened IngestDerived
  import opened IngestExact
  import opened IngestSafety
  import TextOrder

  // ----- Row totals over sets of paths --------------------------------------------------

  /** The rows that a ready, readable file contributes. */
  function Weight(landing: Landing, p: Path): nat {
    if p in landing && landing[p].ready && landing[p].content.Rows? then |landing[p].content.rows| else 0
  }

  ghost function Total(landing: Landing, paths: set<Path>): nat {
    if paths == {} then 0
    else
      var p :| p in paths;
      Weight(landing, p) + Total(landing, paths - {p})
  }

  lemma {:induction false} TotalTake(landing: Landing, paths: set<Path>, p: Path)
    requires p in paths
    ensures Total(landing, paths) == Weight(landing, p) + Total(landing, paths - {p})
    decreases paths
  {
    var q :| q in paths && Total(landing, paths) == Weight(landing, q) + Total(landing, paths - {q});
    if q != p {
      TotalTake(landing, paths - {q}, p);
      TotalTake(landing, paths - {p}, q);
      assert paths - {q} - {p} == paths - {p} - {q};
    }
  }

  lemma {:induction false} TotalUnion(landing: Landing, a: set<Path>, b: set<Path>)
    requires a !! b
    ensures Total(landing, a + b) == Total(landing, a) + Total(landing, b)
    decreases a
  {
    if a == {} {
      assert a + b == b;
    } else {
      var p :| p in a;
      TotalTake(landing, a, p);
      TotalTake(landing, a + b, p);
      assert a + b - {p} == (a - {p}) + b;
      TotalUnion(landing, a - {p}, b);
    }
  }

  lemma {:induction false} TotalSame(before: Landing, after: Landing, paths: set<Path>)
    requires forall p :: p in paths ==> Weight(before, p) == Weight(after, p)
    ensures Total(before, paths) == Total(after, paths)
    decreases paths
  {
    if paths != {} {
      var p :| p in paths;
      TotalTake(before, paths, p);
      TotalTake(after, paths, p);
      TotalSame(before, after, paths - {p});
    }
  }

  lemma {:induction false} TotalOfNothing(landing: Landing, paths: set<Path>)
    requires forall p :: p in paths ==> Weight(landing, p) == 0
    ensures Total(landing, paths) == 0
    decreases paths
  {
    if paths != {} {
      var p :| p in paths;
      TotalTake(landing, paths, p);
      TotalOfNothing(landing, paths - {p});
    }
  }

  ghost function Targets(sources: set<Path>): set<Path>
    requires forall p :: p in sources ==> IsSource(p.dataset)
  {
    set p | p in sources :: Target(p)
  }

  /** Deriving one target per source with as many rows moves the total over. */
  lemma {:induction false} TotalOfTargets(before: Landing, after: Landing, sources: set<Path>)
    requires forall p :: p in sources ==> IsSource(p.dataset) && Weight(after, Target(p)) == Weight(before, p)
    requires forall p, q :: p in sources && q in sources && Target(p) == Target(q) ==> p == q
    ensures Total(after, Targets(sources)) == Total(before, sources)
    decreases sources
  {
    hide Target, Weight;
    if sources != {} {
      var p :| p in sources;
      TotalTake(before, sources, p);
      TotalTake(after, Targets(sources), Target(p));
      assert Targets(sources) - {Target(p)} == Targets(sources - {p});
      TotalOfTargets(before, after, sources - {p});
    }
  }

  // ----- Rows loaded --------------------------------------------------------------------

  function LoadedRows(core: seq<Load>, dataset: Dataset): nat {
    if core == [] then 0 else LoadedRows(core[..|core| - 1], dataset) + RowsFor(core[|core| - 1], dataset)
  }

  function RowsFor(l: Load, dataset: Dataset): nat {
    if l.path.dataset == dataset then |l.rows| else 0
  }

  function EffectRows(es: seq<Effect>, dataset: Dataset): nat {
    if es == [] then 0
    else (if es[0].InsertCore? then RowsFor(es[0].load, dataset) else 0) + EffectRows(es[1..], dataset)
  }

  lemma {:induction false} EffectRowsConcat(a: seq<Effect>, b: seq<Effect>, dataset: Dataset)
    ensures EffectRows(a + b, dataset) == EffectRows(a, dataset) + EffectRows(b, dataset)
    decreases |a|
  {
    if a == [] {
      assert a + b == b;
    } else {
      assert (a + b)[0] == a[0] && (a + b)[1..] == a[1..] + b;
      EffectRowsConcat(a[1..], b, dataset);
    }
  }

  lemma {:induction false} LoadedRowsAfter(s: State, es: seq<Effect>, dataset: Dataset)
    ensures LoadedRows(ApplyAll(s, es).core, dataset) == LoadedRows(s.core, dataset) + EffectRows(es, dataset)
    decreases |es|
  {
    if es != [] {
      LoadedRowsOne(s, es[0], dataset);
      LoadedRowsAfter(Apply(s, es[0]), es[1..], dataset);
    }
  }

  lemma LoadedRowsOne(s: State, e: Effect, dataset: Dataset)
    ensures LoadedRows(Apply(s, e).core, dataset) == LoadedRows(s.core, dataset)
      + if e.InsertCore? then RowsFor(e.load, dataset) else 0
  {
    if e.InsertCore? {
      assert (s.core + [e.load])[..|s.core|] == s.core;
    }
  }

  lemma {:induction false} NoInsertNoRows(es: seq<Effect>, dataset: Dataset)
    requires forall e :: e in es ==> !e.InsertCore? || e.load.path.dataset != dataset
    ensures EffectRows(es, dataset) == 0
    decreases |es|
  {
    if es != [] {
      assert es[0] in es;
      NoInsertNoRows(es[1..], dataset);
    }
  }

  lemma FileRows(cfg: Config, landing: Landing, p: Path, dataset: Dataset)
    requires !cfg.dryRun
    ensures EffectRows(FilePlan(Loading, cfg, landing, p).effects, dataset) == if p.dataset == dataset then Weight(landing, p) else 0
  {
    if p in landing && landing[p].ready && landing[p].content.Rows? {
      var l := Load(p, landing[p].content.rows);
      var ins := if l.rows == [] then [] else [InsertRaw(l), InsertCore(l)];
      assert FilePlan(Loading, cfg, landing, p).effects == ins + Retire(cfg, l);
      hide FilePlan;
      EffectRowsConcat(ins, Retire(cfg, l), dataset);
      NoInsertNoRows(Retire(cfg, l), dataset);
      InsertedRows(l, dataset);
    }
  }

  lemma InsertedRows(l: Load, dataset: Dataset)
    ensures EffectRows([InsertRaw(l), InsertCore(l)], dataset) == if l.path.dataset == dataset then |l.rows| else 0
  {
    var ins := [InsertRaw(l), InsertCore(l)];
    assert ins[1..] == [InsertCore(l)];
    assert [InsertCore(l)][1..] == [];
    assert EffectRows([InsertCore(l)], dataset) == RowsFor(l, dataset);
    assert EffectRows(ins, dataset) == EffectRows(ins[1..], dataset);
  }

  ghost function PathsNamed(dataset: Dataset, names: seq<string>): set<Path> {
    set name | name in names :: Path(dataset, name)
  }

  lemma {:induction false} FilesRows(cfg: Config, landing: Landing, from: Dataset, names: seq<string>, dataset: Dataset)
    requires !cfg.dryRun && Distinct(names) && FilesPlan(Loading, cfg, landing, from, names).ok
    ensures EffectRows(FilesPlan(Loading, cfg, landing, from, names).effects, dataset)
      == if from == dataset then Total(landing, PathsNamed(from, names)) else 0
    decreases |names|
  {
    if names != [] {
      var p := Path(from, names[0]);
      FileRows(cfg, landing, p, dataset);
      FilesRows(cfg, landing, from, names[1..], dataset);
      EffectRowsConcat(FilePlan(Loading, cfg, landing, p).effects,
                       FilesPlan(Loading, cfg, landing, from, names[1..]).effects, dataset);
      assert names[0] !in names[1..];
      assert PathsNamed(from, names) - {p} == PathsNamed(from, names[1..]) by {
        assert forall name :: name in names <==> name == names[0] || name in names[1..];
      }
      TotalTake(landing, PathsNamed(from, names), p);
    }
  }

  function PathsOf(landing: Landing, dataset: Dataset): set<Path> {
    set p | p in landing && p.dataset == dataset
  }

  lemma {:induction false} DatasetsRows(cfg: Config, landing: Landing, datasets: seq<Dataset>, dataset: Dataset)
    requires !cfg.dryRun && Distinct(datasets) && DatasetsPlan(Loading, cfg, landing, datasets).ok
    ensures EffectRows(DatasetsPlan(Loading, cfg, landing, datasets).effects, dataset)
      == if dataset in datasets then Total(landing, PathsOf(landing, dataset)) else 0
    decreases |datasets|
  {
    if datasets != [] {
      var d := datasets[0];
      TextOrderFacts(landing, d);
      FilesRows(cfg, landing, d, Listing(landing, d), dataset);
      DatasetsRows(cfg, landing, datasets[1..], dataset);
      EffectRowsConcat(DatasetPlan(Loading, cfg, landing, d).effects,
                       DatasetsPlan(Loading, cfg, landing, datasets[1..]).effects, dataset);
      assert d !in datasets[1..];
    }
  }

  lemma TextOrderFacts(landing: Landing, dataset: Dataset)
    ensures Distinct(Listing(landing, dataset))
    ensures PathsNamed(dataset, Listing(landing, dataset)) == PathsOf(landing, dataset)
  {
    ListingDistinct(landing, dataset);
    forall p | p in PathsOf(landing, dataset)
      ensures p in PathsNamed(dataset, Listing(landing, dataset))
    {
      assert p.name in Names(landing, dataset) && p == Path(dataset, p.name);
    }
  }

  // ----- What is landed after deriving --------------------------------------------------

  /** The ready source whose rows its derived file ends up with; earlier ones of its stem are written over. */
  ghost predicate IsLast(landing: Landing, q: Path) {
    IsSource(q.dataset) && LastDeriver(landing, q, Target(q))
  }

  /** The sources whose rows are derived into a dataset. */
  ghost function LastSources(landing: Landing, dataset: Dataset): (sources: set<Path>)
    ensures forall q :: q in sources ==> IsSource(q.dataset)
  {
    set q | q in landing && IsLast(landing, q) && Target(q).dataset == dataset
  }

  /** The landed files of a dataset that derivation writes over: derived files of an earlier cycle. */
  ghost function Overwritten(landing: Landing, dataset: Dataset): set<Path> {
    set p | p in landing && p.dataset == dataset && DerivedOnto(landing, p)
  }

  /** Whatever was landed under its name before, the derived file has as many rows as its last ready source. */
  lemma DerivedWeight(cfg: Config, s: State, q: Path)
    requires BuildPlan(cfg, s.landing).ok && !cfg.dryRun && IsLast(s.landing, q)
    ensures Weight(Built(cfg, s).landing, Target(q)) == Weight(s.landing, q)
  {
    hide BuildPlan, Built, Target, Indexable;
    BuiltAt(cfg, s, q, Target(q));
    IndexableBuild(cfg, s.landing);
    DerivationShape(cfg.rules, s.landing, Load(q, s.landing[q].content.rows));
  }

  lemma UntouchedPath(cfg: Config, s: State, p: Path)
    requires BuildPlan(cfg, s.landing).ok && !cfg.dryRun && !DerivedOnto(s.landing, p)
    ensures p in Built(cfg, s).landing <==> p in s.landing
    ensures Weight(Built(cfg, s).landing, p) == Weight(s.landing, p)
  {
    hide BuildPlan, Built, Derives;
    BuiltAt(cfg, s, p, p);
  }

  /** The derived files of a dataset hold one row per row of its last sources. */
  lemma DerivedTotal(cfg: Config, s: State, dataset: Dataset)
    requires BuildPlan(cfg, s.landing).ok && !cfg.dryRun
    ensures Total(Built(cfg, s).landing, Targets(LastSources(s.landing, dataset)))
      == Total(s.landing, LastSources(s.landing, dataset))
  {
    hide Built, BuildPlan, Weight, LastDeriver;
    var sources := LastSources(s.landing, dataset);
    forall q | q in sources
      ensures Weight(Built(cfg, s).landing, Target(q)) == Weight(s.landing, q)
    {
      DerivedWeight(cfg, s, q);
    }
    forall q, r | q in sources && r in sources && Target(q) == Target(r)
      ensures q == r
    {
      LastDeriverUnique(s.landing, q, r, Target(q));
    }
    TotalOfTargets(s.landing, Built(cfg, s).landing, sources);
  }

  lemma BuiltPaths(cfg: Config, s: State, dataset: Dataset, p: Path)
    requires BuildPlan(cfg, s.landing).ok && !cfg.dryRun && p.dataset == dataset
    ensures DerivedOnto(s.landing, p) <==> p in Targets(LastSources(s.landing, dataset))
    ensures !DerivedOnto(s.landing, p) ==> (p in Built(cfg, s).landing <==> p in s.landing)
  {
    hide Built, BuildPlan, Target;
    if DerivedOnto(s.landing, p) {
      var r :| Derives(s.landing, r, p);
      var q := LastDeriverExists(s.landing, r, p);
      DeriverIsSource(s.landing, q, p);
      assert q in LastSources(s.landing, dataset);
    } else {
      UntouchedPath(cfg, s, p);
      assert forall q :: q in LastSources(s.landing, dataset) ==> Derives(s.landing, q, Target(q));
    }
  }

  /** After deriving, a dataset holds what was landed in it, less what derivation wrote over, plus one row per row of
      its last sources. */
  lemma BuiltTotal(cfg: Config, s: State, dataset: Dataset)
    requires BuildPlan(cfg, s.landing).ok && !cfg.dryRun
    ensures Total(Built(cfg, s).landing, PathsOf(Built(cfg, s).landing, dataset)) ==
      Total(s.landing, PathsOf(s.landing, dataset) - Overwritten(s.landing, dataset))
      + Total(s.landing, LastSources(s.landing, dataset))
  {
    hide Built, BuildPlan, LastSources, Targets, DerivedOnto, Weight;
    var built := Built(cfg, s).landing;
    var kept := PathsOf(s.landing, dataset) - Overwritten(s.landing, dataset);
    var derived, now := Targets(LastSources(s.landing, dataset)), PathsOf(built, dataset);
    DerivedTotal(cfg, s, dataset);
    TargetsInDataset(s.landing, dataset);
    forall p: Path | p.dataset == dataset
      ensures DerivedOnto(s.landing, p) <==> p in derived
      ensures !DerivedOnto(s.landing, p) ==> (p in built <==> p in s.landing)
    {
      BuiltPaths(cfg, s, dataset, p);
    }
    forall p | p in kept
      ensures Weight(s.landing, p) == Weight(built, p)
    {
      UntouchedPath(cfg, s, p);
    }
    TotalSame(s.landing, built, kept);
    TotalUnion(built, kept, derived);
    forall p | p in kept + derived - now
      ensures Weight(built, p) == 0
    {
      AbsentWeighsNothing(built, p);
    }
    TotalOfNothing(built, kept + derived - now);
    TotalUnion(built, now, kept + derived - now);
    assert now + (kept + derived - now) == kept + derived;
  }

  lemma TargetsInDataset(landing: Landing, dataset: Dataset)
    ensures forall p :: p in Targets(LastSources(landing, dataset)) ==> p.dataset == dataset
  {
  }

  lemma AbsentWeighsNothing(landing: Landing, p: Path)
    requires p !in landing
    ensures Weight(landing, p) == 0
  {
  }

  /** From every landing directory, also one that a crashed cycle left, a complete cycle adds to the core table of
      each dataset exactly the ready rows landed in it, less those that derivation wrote over, plus the rows of the
      last ready source of every derived name. */
  lemma RowConservation(cfg: Config, s: State, dataset: Dataset)
    requires CyclePlan(cfg, s).ok && !cfg.dryRun && dataset in cfg.Datasets()
    ensures LoadedRows(After(cfg, s).core, dataset) == LoadedRows(s.core, dataset)
      + Total(s.landing, PathsOf(s.landing, dataset) - Overwritten(s.landing, dataset))
      + Total(s.landing, LastSources(s.landing, dataset))
  {
    var build, loads := BuildPlan(cfg, s.landing).effects, LoadPlan(cfg, s).effects;
    hide Built, LastSources, Overwritten, BuildPlan, DatasetsPlan;
    LoadedRowsAfter(s, CyclePlan(cfg, s).effects, dataset);
    EffectRowsConcat(build, loads, dataset);
    BuildInsertsNothing(cfg, s, dataset);
    DatasetsDistinct(cfg);
    DatasetsRows(cfg, Built(cfg, s).landing, cfg.Datasets(), dataset);
    BuiltTotal(cfg, s, dataset);
  }

  // ----- Distinct stems -----------------------------------------------------------------

  predicate SameStem(q: Path, r: Path) {
    q.dataset == r.dataset && IsSource(q.dataset) && Stem(q.name) == Stem(r.name)
  }

  predicate IsReady(landing: Landing, q: Path) {
    q in landing && landing[q].ready
  }

  /** The ready source files of a dataset are told apart by their stems. */
  ghost predicate DistinctStems(landing: Landing) {
    forall q, r :: IsReady(landing, q) && IsReady(landing, r) && SameStem(q, r) ==> q == r
  }

  /** The datasets whose files are derived into `dataset`. */
  function SourcesFor(landing: Landing, dataset: Dataset): (sources: set<Path>)
    ensures forall p :: p in sources ==> p in landing && IsSource(p.dataset) && Target(p).dataset == dataset
  {
    match dataset
    case BusinessEvents => PathsOf(landing, Documents) + PathsOf(landing, Postings)
    case DocumentChanges => PathsOf(landing, Audit)
    case _ => {}
  }

  lemma ReadySourceIsLast(landing: Landing, q: Path)
    requires DistinctStems(landing) && q in landing && landing[q].ready && IsSource(q.dataset)
    ensures IsLast(landing, q)
  {
    TextOrder.Total(q.name, q.name);
    forall r | Derives(landing, r, Target(q))
      ensures r == q
    {
      TargetInjective(q, r);
      assert IsReady(landing, q) && IsReady(landing, r) && SameStem(q, r);
    }
  }

  lemma LastSourcesAreAll(landing: Landing, dataset: Dataset)
    requires DistinctStems(landing)
    ensures Total(landing, LastSources(landing, dataset)) == Total(landing, SourcesFor(landing, dataset))
  {
    hide DistinctStems, LastDeriver, Stem;
    var all, last := SourcesFor(landing, dataset), LastSources(landing, dataset);
    forall q | q in last
      ensures q in all
    {
    }
    forall q | q in all - last
      ensures Weight(landing, q) == 0
    {
      if landing[q].ready {
        ReadySourceIsLast(landing, q);
      }
    }
    TotalOfNothing(landing, all - last);
    TotalUnion(landing, last, all - last);
    assert last + (all - last) == all;
  }

  /** With distinct stems, core business events grow by exactly the ready document and posting rows plus the ready
      business-event rows landed before, and document changes likewise with audit rows; less the rows that
      derivation wrote over, and there are none when no derived file was left from before. */
  lemma DistinctStemsConserve(cfg: Config, s: State, dataset: Dataset)
    requires CyclePlan(cfg, s).ok && !cfg.dryRun && dataset in cfg.Datasets() && DistinctStems(s.landing)
    ensures LoadedRows(After(cfg, s).core, dataset) == LoadedRows(s.core, dataset)
      + Total(s.landing, PathsOf(s.landing, dataset)) - Total(s.landing, Overwritten(s.landing, dataset))
      + Total(s.landing, SourcesFor(s.landing, dataset))
    ensures (forall p :: p in s.landing && IsSource(p.dataset) ==> Target(p) !in s.landing) ==>
      Total(s.landing, Overwritten(s.landing, dataset)) == 0
  {
    hide CyclePlan, After, Derives, DistinctStems, LastSources, SourcesFor;
    RowConservation(cfg, s, dataset);
    LastSourcesAreAll(s.landing, dataset);
    var all, over := PathsOf(s.landing, dataset), Overwritten(s.landing, dataset);
    TotalUnion(s.landing, all - over, over);
    assert all - over + over == all;
    if forall p :: p in s.landing && IsSource(p.dataset) ==> Target(p) !in s.landing {
      NothingOverwritten(s.landing, dataset);
    }
  }

  lemma NothingOverwritten(landing: Landing, dataset: Dataset)
    requires forall p :: p in landing && IsSource(p.dataset) ==> Target(p) !in landing
    ensures Total(landing, Overwritten(landing, dataset)) == 0
  {
    assert Overwritten(landing, dataset) == {};
  }

  lemma BuildInsertsNothing(cfg: Config, s: State, dataset: Dataset)
    ensures EffectRows(BuildPlan(cfg, s.landing).effects, dataset) == 0
  {
    forall e | e in BuildPlan(cfg, s.landing).effects
      ensures e.Derive?
    {
      BuildPlanOrigin(cfg, s.landing, e);
    }
    NoInsertNoRows(BuildPlan(cfg, s.landing).effects, dataset);
  }
}
