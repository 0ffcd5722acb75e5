/** The ingest cycle as a program over its files and tables. It carries out the plan of `Ingest` one
    effect after the other; `steps` is how many effects still succeed before one fails. */
module IngestCycle {
  import opened Ingest
  import opened IngestEvents
  import opened IngestExact
  import opened Options

  /** What carrying out a plan with `n0` effects to go leaves, and whether it got to the end. */
  ghost predicate Executed(s0: State, n0: nat, p: Plan, s1: State, n1: nat, ok: bool) {
    if n0 < |p.effects| then !ok && n1 == 0 && s1 == ApplyAll(s0, p.effects[..n0])
    else ok == p.ok && n1 == n0 - |p.effects| && s1 == ApplyAll(s0, p.effects)
  }

  lemma ExecutedThen(s0: State, n0: nat, p: Plan, s1: State, n1: nat, q: Plan, s2: State, n2: nat, ok: bool)
    requires Executed(s0, n0, p, s1, n1, true) && Executed(s1, n1, q, s2, n2, ok)
    ensures Executed(s0, n0, Then(p, q), s2, n2, ok)
  {
    if n1 < |q.effects| {
      assert (p.effects + q.effects)[..n0] == p.effects + q.effects[..n1];
      ApplyConcat(s0, p.effects, q.effects[..n1]);
    } else {
      ApplyConcat(s0, p.effects, q.effects);
    }
  }

  lemma ExecutedStop(s0: State, n0: nat, p: Plan, s1: State, n1: nat, q: Plan)
    requires Executed(s0, n0, p, s1, n1, false)
    ensures Executed(s0, n0, Then(p, q), s1, n1, false)
  {
    if n0 < |p.effects| {
      assert Then(p, q).effects[..n0] == p.effects[..n0];
    }
  }

  lemma ExecutedEffect(s: State, n: nat, e: Effect)
    ensures n > 0 ==> Executed(s, n, Plan([e], true), Apply(s, e), n - 1, true)
    ensures n == 0 ==> Executed(s, n, Plan([e], true), s, 0, false)
  {
    assert [e][..0] == [];
    assert ApplyAll(Apply(s, e), []) == Apply(s, e);
  }

  lemma {:induction false} FilesPlanSplit(stage: Stage, cfg: Config, landing: Landing, dataset: Dataset,
                                        a: seq<string>, b: seq<string>)
    requires stage.Deriving? ==> IsSource(dataset)
    ensures FilesPlan(stage, cfg, landing, dataset, a + b)
      == Then(FilesPlan(stage, cfg, landing, dataset, a), FilesPlan(stage, cfg, landing, dataset, b))
    decreases |a|
  {
    hide FilePlan;
    if a == [] {
      assert a + b == b;
    } else {
      assert (a + b)[0] == a[0] && (a + b)[1..] == a[1..] + b;
      FilesPlanSplit(stage, cfg, landing, dataset, a[1..], b);
      ThenAssociative(FilePlan(stage, cfg, landing, Path(dataset, a[0])), FilesPlan(stage, cfg, landing, dataset, a[1..]),
                      FilesPlan(stage, cfg, landing, dataset, b));
    }
  }

  lemma ThenAssociative(p: Plan, q: Plan, r: Plan)
    ensures Then(Then(p, q), r) == Then(p, Then(q, r))
  {
  }

  lemma FilesPlanNext(stage: Stage, cfg: Config, landing: Landing, dataset: Dataset, names: seq<string>, i: nat)
    requires stage.Deriving? ==> IsSource(dataset)
    requires i < |names|
    ensures FilesPlan(stage, cfg, landing, dataset, names[..i + 1])
      == Then(FilesPlan(stage, cfg, landing, dataset, names[..i]), FilePlan(stage, cfg, landing, Path(dataset, names[i])))
  {
    hide FilePlan;
    var one := FilePlan(stage, cfg, landing, Path(dataset, names[i]));
    assert names[..i + 1] == names[..i] + [names[i]];
    FilesPlanSplit(stage, cfg, landing, dataset, names[..i], [names[i]]);
    assert FilesPlan(stage, cfg, landing, dataset, [names[i]]) == Then(one, Plan([], true)) == one;
  }

  lemma FilesPlanStop(stage: Stage, cfg: Config, landing: Landing, dataset: Dataset, names: seq<string>, i: nat,
                      s0: State, n0: nat, s1: State, n1: nat)
    requires stage.Deriving? ==> IsSource(dataset)
    requires i < |names|
    requires Executed(s0, n0, FilesPlan(stage, cfg, landing, dataset, names[..i + 1]), s1, n1, false)
    ensures Executed(s0, n0, FilesPlan(stage, cfg, landing, dataset, names), s1, n1, false)
  {
    hide FilePlan, Executed;
    assert names == names[..i + 1] + names[i + 1..];
    FilesPlanSplit(stage, cfg, landing, dataset, names[..i + 1], names[i + 1..]);
    ExecutedStop(s0, n0, FilesPlan(stage, cfg, landing, dataset, names[..i + 1]), s1, n1,
                 FilesPlan(stage, cfg, landing, dataset, names[i + 1..]));
  }

  function Continued(acc: seq<Row>, rest: Option<seq<Row>>): Option<seq<Row>> {
    if rest.None? then None else Some(acc + rest.value)
  }

  lemma ReadReadyStart(landing: Landing, dataset: Dataset, names: seq<string>)
    ensures ReadReady(landing, dataset, names) == Continued([], ReadReady(landing, dataset, names[0..]))
  {
    assert names[0..] == names;
    var r := ReadReady(landing, dataset, names);
    assert r.Some? ==> [] + r.value == r.value;
  }

  lemma ReadReadyNext(landing: Landing, dataset: Dataset, names: seq<string>, i: nat, acc: seq<Row>)
    requires i < |names|
    ensures var p := Path(dataset, names[i]);
      Continued(acc, ReadReady(landing, dataset, names[i..])) ==
      if p !in landing || !landing[p].ready then Continued(acc, ReadReady(landing, dataset, names[i + 1..]))
      else if landing[p].content.Unreadable? then None
      else Continued(acc + landing[p].content.rows, ReadReady(landing, dataset, names[i + 1..]))
  {
    assert names[i..][0] == names[i] && names[i..][1..] == names[i + 1..];
    var p, rest := Path(dataset, names[i]), ReadReady(landing, dataset, names[i + 1..]);
    if p in landing && landing[p].ready && landing[p].content.Rows? && rest.Some? {
      assert acc + (landing[p].content.rows + rest.value) == (acc + landing[p].content.rows) + rest.value;
    }
  }

  class IngestCycle {
    const cfg: Config
    const normalisers: Normalisers
    var landing: Landing
    var raw: seq<Load>
    var core: seq<Load>
    var archive: seq<Load>
    var derived: seq<Derivation>
    var steps: nat

    function Current(): State
      reads this
    {
      State(landing, raw, core, archive, derived)
    }

    /** The cycle enriches with the program's own rules. */
    ghost predicate Valid() {
      cfg.rules == Enrichment(normalisers)
    }

    constructor (cfg: Config, normalisers: Normalisers, landing: Landing, steps: nat)
      requires cfg.rules == Enrichment(normalisers)
      ensures Valid()
      ensures this.cfg == cfg && this.normalisers == normalisers && this.steps == steps
      ensures Current() == State(landing, [], [], [], [])
    {
      this.cfg, this.normalisers, this.landing, this.steps := cfg, normalisers, landing, steps;
      raw, core, archive, derived := [], [], [], [];
    }

    // ----- Single effects ---------------------------------------------------------------

    /** Whether the next effect still succeeds. */
    method Step() returns (ok: bool)
      modifies this`steps
      ensures ok == (old(steps) > 0)
      ensures steps == if ok then old(steps) - 1 else 0
    {
      ok := steps > 0;
      if ok {
        steps := steps - 1;
      }
    }

    method WriteGenerated(d: Derivation) returns (ok: bool)
      modifies this
      ensures Executed(old(Current()), old(steps), Plan([Derive(d)], true), Current(), steps, ok)
      ensures forall q :: q != d.target ==> SameFile(old(landing), landing, q)
    {
      ExecutedEffect(Current(), steps, Derive(d));
      ok := Step();
      if ok {
        if d.events == [] {
          landing := landing - {d.target};
        } else {
          landing := landing[d.target := File(Rows(d.events), true)];
        }
        derived := derived + [d];
      }
    }

    method InsertRows(l: Load) returns (ok: bool)
      modifies this
      ensures Executed(old(Current()), old(steps), Plan([InsertRaw(l), InsertCore(l)], true), Current(), steps, ok)
      ensures landing == old(landing)
    {
      ghost var s0, n0 := Current(), steps;
      ExecutedEffect(s0, n0, InsertRaw(l));
      assert Then(Plan([InsertRaw(l)], true), Plan([InsertCore(l)], true)) == Plan([InsertRaw(l), InsertCore(l)], true);
      ok := Step();
      if ok {
        raw := raw + [l];
        ghost var s1, n1 := Current(), steps;
        ExecutedEffect(s1, n1, InsertCore(l));
        ok := Step();
        if ok {
          core := core + [l];
        }
        ExecutedThen(s0, n0, Plan([InsertRaw(l)], true), s1, n1, Plan([InsertCore(l)], true), Current(), steps, ok);
      } else {
        ExecutedStop(s0, n0, Plan([InsertRaw(l)], true), Current(), steps, Plan([InsertCore(l)], true));
      }
    }

    method ArchiveOrDelete(l: Load) returns (ok: bool)
      modifies this
      ensures Executed(old(Current()), old(steps), Plan(Retire(cfg, l), true), Current(), steps, ok)
      ensures forall p :: p != l.path ==> SameFile(old(landing), landing, p)
    {
      ghost var s0, n0 := Current(), steps;
      ok := true;
      if cfg.dryRun {
        return;
      }
      if cfg.archive {
        if !cfg.crossDevice {
          ExecutedEffect(s0, n0, Rename(l));
          ok := Step();
          if ok {
            landing, archive := landing - {l.path}, archive + [l];
          }
        } else {
          ExecutedEffect(s0, n0, CopyToArchive(l));
          assert Then(Plan([CopyToArchive(l)], true), Plan([Remove(l)], true)) == Plan([CopyToArchive(l), Remove(l)], true);
          ok := Step();
          if ok {
            archive := archive + [l];
            ghost var s1, n1 := Current(), steps;
            ExecutedEffect(s1, n1, Remove(l));
            ok := Step();
            if ok {
              landing := landing - {l.path};
            }
            ExecutedThen(s0, n0, Plan([CopyToArchive(l)], true), s1, n1, Plan([Remove(l)], true), Current(), steps, ok);
          } else {
            ExecutedStop(s0, n0, Plan([CopyToArchive(l)], true), Current(), steps, Plan([Remove(l)], true));
          }
        }
      } else if cfg.deleteAfterLoad {
        ExecutedEffect(s0, n0, Remove(l));
        ok := Step();
        if ok {
          landing := landing - {l.path};
        }
      }
    }

    // ----- One file ---------------------------------------------------------------------

    method LoadFile(p: Path) returns (ok: bool)
      modifies this
      ensures Executed(old(Current()), old(steps), FilePlan(Loading, cfg, old(landing), p), Current(), steps, ok)
      ensures forall q :: q != p ==> SameFile(old(landing), landing, q)
    {
      if p !in landing || !landing[p].ready {
        ok := true;
        return;
      }
      if landing[p].content.Unreadable? {
        ok := false;
        return;
      }
      var l := Load(p, landing[p].content.rows);
      ghost var s0, n0 := Current(), steps;
      ghost var ins := Plan(if l.rows == [] || cfg.dryRun then [] else [InsertRaw(l), InsertCore(l)], true);
      ghost var out := Plan(Retire(cfg, l), true);
      assert FilePlan(Loading, cfg, landing, p) == Then(ins, out);
      ok := true;
      if l.rows != [] && !cfg.dryRun {
        ok := InsertRows(l);
      }
      if !ok {
        ExecutedStop(s0, n0, ins, Current(), steps, out);
        return;
      }
      ghost var s1, n1 := Current(), steps;
      ok := ArchiveOrDelete(l);
      ExecutedThen(s0, n0, ins, s1, n1, out, Current(), steps, ok);
    }

    method DeriveFile(p: Path, ix: Indexes) returns (ok: bool)
      requires IsSource(p.dataset)
      modifies this
      ensures Executed(old(Current()), old(steps), FilePlan(Deriving(ix), cfg, old(landing), p), Current(), steps, ok)
      ensures forall q: Path :: IsSource(q.dataset) ==> SameFile(old(landing), landing, q)
    {
      if p !in landing || !landing[p].ready {
        ok := true;
        return;
      }
      if landing[p].content.Unreadable? {
        ok := false;
        return;
      }
      var events := EventsOf(cfg.rules, p, landing[p].content.rows, ix);
      if cfg.dryRun {
        ok := true;
        return;
      }
      hide ApplyAll, EventsOf;
      ok := WriteGenerated(Derivation(p, Target(p), events));
    }

    // ----- Reading for the indexes ------------------------------------------------------

    method ReadAll(dataset: Dataset) returns (rows: Option<seq<Row>>)
      ensures rows == ReadReady(landing, dataset, Listing(landing, dataset))
    {
      var names := Listing(landing, dataset);
      var acc: seq<Row> := [];
      ReadReadyStart(landing, dataset, names);
      for i := 0 to |names|
        invariant ReadReady(landing, dataset, names) == Continued(acc, ReadReady(landing, dataset, names[i..]))
      {
        ReadReadyNext(landing, dataset, names, i, acc);
        var p := Path(dataset, names[i]);
        if p in landing && landing[p].ready {
          if landing[p].content.Unreadable? {
            return None;
          }
          acc := acc + landing[p].content.rows;
        }
      }
      assert names[|names|..] == [] && acc + [] == acc;
      rows := Some(acc);
    }

    // ----- One dataset ------------------------------------------------------------------

    method DeriveFiles(dataset: Dataset, ix: Indexes) returns (ok: bool)
      requires IsSource(dataset)
      modifies this
      ensures Executed(old(Current()), old(steps), DatasetPlan(Deriving(ix), cfg, old(landing), dataset), Current(), steps, ok)
      ensures forall q: Path :: IsSource(q.dataset) ==> SameFile(old(landing), landing, q)
    {
      ghost var s0, n0, stage := Current(), steps, Deriving(ix);
      var names := Listing(landing, dataset);
      ok := true;
      for i := 0 to |names|
        invariant ok && Executed(s0, n0, FilesPlan(stage, cfg, s0.landing, dataset, names[..i]), Current(), steps, ok)
        invariant forall q: Path :: IsSource(q.dataset) ==> SameFile(s0.landing, landing, q)
      {
        hide Executed, FilePlan, FilesPlan;
        ghost var s1, n1, p := Current(), steps, Path(dataset, names[i]);
        FilePlanFrame(stage, cfg, s0.landing, landing, p);
        FilesPlanNext(stage, cfg, s0.landing, dataset, names, i);
        ok := DeriveFile(Path(dataset, names[i]), ix);
        ExecutedThen(s0, n0, FilesPlan(stage, cfg, s0.landing, dataset, names[..i]), s1, n1,
                     FilePlan(stage, cfg, s0.landing, p), Current(), steps, ok);
        if !ok {
          FilesPlanStop(stage, cfg, s0.landing, dataset, names, i, s0, n0, Current(), steps);
          return;
        }
      }
      assert names[..|names|] == names;
    }

    method LoadFiles(dataset: Dataset) returns (ok: bool)
      modifies this
      ensures Executed(old(Current()), old(steps), DatasetPlan(Loading, cfg, old(landing), dataset), Current(), steps, ok)
      ensures forall q: Path :: q.dataset != dataset ==> SameFile(old(landing), landing, q)
    {
      ghost var s0, n0 := Current(), steps;
      var names := Listing(landing, dataset);
      ListingDistinct(landing, dataset);
      ok := true;
      assert names[0..] == names;
      for i := 0 to |names|
        invariant ok && Executed(s0, n0, FilesPlan(Loading, cfg, s0.landing, dataset, names[..i]), Current(), steps, ok)
        invariant Pending(s0.landing, landing, dataset, names[i..])
      {
        hide Executed, FilePlan, FilesPlan, Pending;
        ghost var s1, n1, p := Current(), steps, Path(dataset, names[i]);
        PendingFirst(s0.landing, landing, dataset, names, i);
        FilePlanFrame(Loading, cfg, s0.landing, landing, p);
        FilesPlanNext(Loading, cfg, s0.landing, dataset, names, i);
        ok := LoadFile(Path(dataset, names[i]));
        ExecutedThen(s0, n0, FilesPlan(Loading, cfg, s0.landing, dataset, names[..i]), s1, n1,
                     FilePlan(Loading, cfg, s0.landing, p), Current(), steps, ok);
        PendingNext(s0.landing, s1.landing, landing, dataset, names, i);
        if !ok {
          FilesPlanStop(Loading, cfg, s0.landing, dataset, names, i, s0, n0, Current(), steps);
          PendingOthers(s0.landing, landing, dataset, names[i + 1..]);
          return;
        }
      }
      assert names[..|names|] == names;
    }

    // ----- The cycle --------------------------------------------------------------------

    method BuildBusinessExports() returns (ok: bool)
      requires Valid()
      modifies this
      ensures Executed(old(Current()), old(steps), BuildPlan(cfg, old(landing)), Current(), steps, ok)
    {
      var companyRows := ReadAll(Companies);
      if companyRows.None? {
        return false;
      }
      var companies := BuildCompanyIndex(normalisers, companyRows.value);
      var documentRows := ReadAll(Documents);
      if documentRows.None? {
        return false;
      }
      var byId, byNumber := BuildDocumentIndex(normalisers, documentRows.value, companies);
      var ix := Indexes(companies, byId, byNumber);
      assert ix == IndexesOf(normalisers, companyRows.value, documentRows.value);
      ok := RunDatasets(Deriving(ix), SOURCES);
    }

    method RunDatasets(stage: Stage, datasets: seq<Dataset>) returns (ok: bool)
      requires stage.Deriving? ==> forall d :: d in datasets ==> IsSource(d)
      requires Distinct(datasets)
      modifies this
      ensures Executed(old(Current()), old(steps), DatasetsPlan(stage, cfg, old(landing), datasets), Current(), steps, ok)
    {
      ghost var s0, n0 := Current(), steps;
      ok := true;
      for i := 0 to |datasets|
        invariant ok && Executed(s0, n0, DatasetsPlan(stage, cfg, s0.landing, datasets[..i]), Current(), steps, ok)
        invariant AllPending(s0.landing, landing, datasets[i..])
      {
        hide Executed, DatasetPlan, DatasetsPlan, AllPending;
        ghost var s1, n1, done := Current(), steps, datasets[..i];
        var dataset := datasets[i];
        assert dataset in datasets;
        AllPendingFirst(s0.landing, landing, datasets, i);
        DatasetPlanFrame(stage, cfg, s0.landing, landing, dataset);
        DatasetsPlanNext(stage, cfg, s0.landing, datasets, i);
        match stage {
          case Deriving(ix) => ok := DeriveFiles(dataset, ix);
          case Loading => ok := LoadFiles(dataset);
        }
        ExecutedThen(s0, n0, DatasetsPlan(stage, cfg, s0.landing, done), s1, n1,
                     DatasetPlan(stage, cfg, s0.landing, dataset), Current(), steps, ok);
        if !ok {
          DatasetsPlanStop(stage, cfg, s0.landing, datasets, i, s0, n0, Current(), steps);
          return;
        }
        AllPendingNext(stage, s0.landing, s1.landing, landing, datasets, i);
      }
      assert datasets[..|datasets|] == datasets;
    }

    /** Derive, then load: the state afterwards is that of the planned cycle, cut off where it failed. */
    method Run() returns (ok: bool)
      requires Valid()
      modifies this
      ensures Current() == Cycle(cfg, old(Current()), old(steps))
      ensures ok <==> CyclePlan(cfg, old(Current())).ok && old(steps) >= |CyclePlan(cfg, old(Current())).effects|
    {
      ghost var s0, n0 := Current(), steps;
      ok := BuildBusinessExports();
      ghost var build := BuildPlan(cfg, s0.landing);
      ghost var loads := DatasetsPlan(Loading, cfg, Built(cfg, s0).landing, cfg.Datasets());
      if !ok {
        ExecutedStop(s0, n0, build, Current(), steps, loads);
        ExecutedIsCycle(cfg, s0, n0, Current(), steps, ok);
        return;
      }
      ghost var s1, n1 := Current(), steps;
      DatasetsDistinct(cfg);
      ok := RunDatasets(Loading, cfg.Datasets());
      ExecutedThen(s0, n0, build, s1, n1, loads, Current(), steps, ok);
      ExecutedIsCycle(cfg, s0, n0, Current(), steps, ok);
    }
  }

  /** Nothing but the listed files of `dataset` that are no longer in `names` was touched. */
  ghost predicate Pending(before: Landing, after: Landing, dataset: Dataset, names: seq<string>) {
    forall q: Path :: q.dataset != dataset || q.name in names ==> SameFile(before, after, q)
  }

  lemma PendingFirst(before: Landing, after: Landing, dataset: Dataset, names: seq<string>, i: nat)
    requires i < |names| && Pending(before, after, dataset, names[i..])
    ensures SameFile(before, after, Path(dataset, names[i]))
  {
    assert names[i] in names[i..];
  }

  lemma PendingNext(before: Landing, mid: Landing, after: Landing, dataset: Dataset, names: seq<string>, i: nat)
    requires i < |names| && Distinct(names) && Pending(before, mid, dataset, names[i..])
    requires forall q :: q != Path(dataset, names[i]) ==> SameFile(mid, after, q)
    ensures Pending(before, after, dataset, names[i + 1..])
  {
    forall q: Path | q.dataset != dataset || q.name in names[i + 1..]
      ensures SameFile(before, after, q)
    {
      assert names[i] !in names[i + 1..];
      assert q.name in names[i + 1..] ==> q.name in names[i..];
      assert SameFile(before, mid, q) && SameFile(mid, after, q);
    }
  }

  lemma PendingOthers(before: Landing, after: Landing, dataset: Dataset, names: seq<string>)
    requires Pending(before, after, dataset, names)
    ensures forall q: Path :: q.dataset != dataset ==> SameFile(before, after, q)
  {
  }

  ghost predicate AllPending(before: Landing, after: Landing, datasets: seq<Dataset>) {
    forall q: Path :: q.dataset in datasets ==> SameFile(before, after, q)
  }

  lemma AllPendingFirst(before: Landing, after: Landing, datasets: seq<Dataset>, i: nat)
    requires i < |datasets| && AllPending(before, after, datasets[i..])
    ensures forall q: Path :: q.dataset == datasets[i] ==> SameFile(before, after, q)
  {
    assert datasets[i] in datasets[i..];
  }

  lemma AllPendingNext(stage: Stage, before: Landing, mid: Landing, after: Landing, datasets: seq<Dataset>, i: nat)
    requires i < |datasets| && Distinct(datasets) && AllPending(before, mid, datasets[i..])
    requires stage.Deriving? ==> forall d :: d in datasets ==> IsSource(d)
    requires stage.Deriving? ==> forall q: Path :: IsSource(q.dataset) ==> SameFile(mid, after, q)
    requires stage.Loading? ==> forall q: Path :: q.dataset != datasets[i] ==> SameFile(mid, after, q)
    ensures AllPending(before, after, datasets[i + 1..])
  {
    forall q: Path | q.dataset in datasets[i + 1..]
      ensures SameFile(before, after, q)
    {
      var j :| i + 1 <= j < |datasets| && datasets[j] == q.dataset;
      assert datasets[j] in datasets[i..] && datasets[j] in datasets;
      assert SameFile(before, mid, q) && SameFile(mid, after, q);
    }
  }

  lemma ExecutedIsCycle(cfg: Config, s0: State, n0: nat, s1: State, n1: nat, ok: bool)
    requires Executed(s0, n0, CyclePlan(cfg, s0), s1, n1, ok)
    ensures s1 == Cycle(cfg, s0, n0)
    ensures ok <==> CyclePlan(cfg, s0).ok && n0 >= |CyclePlan(cfg, s0).effects|
  {
    hide CyclePlan, ApplyAll;
  }

  lemma FilePlanFrame(stage: Stage, cfg: Config, before: Landing, after: Landing, p: Path)
    requires stage.Deriving? ==> IsSource(p.dataset)
    requires SameFile(before, after, p)
    ensures FilePlan(stage, cfg, before, p) == FilePlan(stage, cfg, after, p)
  {
  }

  lemma {:induction false} FilesPlanFrame(stage: Stage, cfg: Config, before: Landing, after: Landing,
                                        dataset: Dataset, names: seq<string>)
    requires stage.Deriving? ==> IsSource(dataset)
    requires forall q: Path :: q.dataset == dataset ==> SameFile(before, after, q)
    ensures FilesPlan(stage, cfg, before, dataset, names) == FilesPlan(stage, cfg, after, dataset, names)
    decreases |names|
  {
    hide FilePlan;
    if names != [] {
      FilePlanFrame(stage, cfg, before, after, Path(dataset, names[0]));
      FilesPlanFrame(stage, cfg, before, after, dataset, names[1..]);
    }
  }

  lemma DatasetPlanFrame(stage: Stage, cfg: Config, before: Landing, after: Landing, dataset: Dataset)
    requires stage.Deriving? ==> IsSource(dataset)
    requires forall q: Path :: q.dataset == dataset ==> SameFile(before, after, q)
    ensures DatasetPlan(stage, cfg, before, dataset) == DatasetPlan(stage, cfg, after, dataset)
  {
    hide FilesPlan;
    assert Names(before, dataset) == Names(after, dataset) by {
      forall p: Path | p.dataset == dataset
        ensures p in before <==> p in after
      {
        assert SameFile(before, after, p);
      }
    }
    FilesPlanFrame(stage, cfg, before, after, dataset, Listing(before, dataset));
  }

  lemma {:induction false} DatasetsPlanSplit(stage: Stage, cfg: Config, landing: Landing, a: seq<Dataset>,
                                        b: seq<Dataset>)
    requires stage.Deriving? ==> forall d :: d in a || d in b ==> IsSource(d)
    ensures DatasetsPlan(stage, cfg, landing, a + b)
      == Then(DatasetsPlan(stage, cfg, landing, a), DatasetsPlan(stage, cfg, landing, b))
    decreases |a|
  {
    hide DatasetPlan;
    if a == [] {
      assert a + b == b;
    } else {
      assert (a + b)[0] == a[0] && (a + b)[1..] == a[1..] + b;
      DatasetsPlanSplit(stage, cfg, landing, a[1..], b);
      ThenAssociative(DatasetPlan(stage, cfg, landing, a[0]), DatasetsPlan(stage, cfg, landing, a[1..]),
                      DatasetsPlan(stage, cfg, landing, b));
    }
  }

  lemma DatasetsPlanNext(stage: Stage, cfg: Config, landing: Landing, datasets: seq<Dataset>, i: nat)
    requires stage.Deriving? ==> forall d :: d in datasets ==> IsSource(d)
    requires i < |datasets|
    ensures DatasetsPlan(stage, cfg, landing, datasets[..i + 1])
      == Then(DatasetsPlan(stage, cfg, landing, datasets[..i]), DatasetPlan(stage, cfg, landing, datasets[i]))
  {
    hide DatasetPlan;
    var one := DatasetPlan(stage, cfg, landing, datasets[i]);
    assert datasets[..i + 1] == datasets[..i] + [datasets[i]];
    DatasetsPlanSplit(stage, cfg, landing, datasets[..i], [datasets[i]]);
    assert DatasetsPlan(stage, cfg, landing, [datasets[i]]) == Then(one, Plan([], true)) == one;
  }

  lemma DatasetsPlanStop(stage: Stage, cfg: Config, landing: Landing, datasets: seq<Dataset>, i: nat,
                         s0: State, n0: nat, s1: State, n1: nat)
    requires stage.Deriving? ==> forall d :: d in datasets ==> IsSource(d)
    requires i < |datasets|
    requires Executed(s0, n0, DatasetsPlan(stage, cfg, landing, datasets[..i + 1]), s1, n1, false)
    ensures Executed(s0, n0, DatasetsPlan(stage, cfg, landing, datasets), s1, n1, false)
  {
    hide DatasetPlan, Executed;
    assert datasets == datasets[..i + 1] + datasets[i + 1..];
    DatasetsPlanSplit(stage, cfg, landing, datasets[..i + 1], datasets[i + 1..]);
    ExecutedStop(s0, n0, DatasetsPlan(stage, cfg, landing, datasets[..i + 1]), s1, n1,
                 DatasetsPlan(stage, cfg, landing, datasets[i + 1..]));
  }

  ghost predicate SameFile(before: Landing, after: Landing, p: Path) {
    (p in after <==> p in before) && (p in before ==> after[p] == before[p])
  }
}
