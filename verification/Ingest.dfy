/** One cycle of the file ingest, as the sequence of effects it has on the landing directories, the
    two layers of tables and the archive. A crash, or an effect that fails, stops the cycle after any
    prefix of that sequence; the next cycle starts over from what is on disk. */
module Ingest {
  import opened IngestEvents
  import opened Options
  import opened TextOrder

  // ----- Files and state ----------------------------------------------------------------

  datatype Dataset = Documents | Postings | BusinessEvents | DocumentChanges | Companies | Reglog | Audit | Host

  /** The datasets in loading order. */
  const DATASETS: seq<Dataset> :=
    [Documents, Postings, BusinessEvents, DocumentChanges, Companies, Reglog, Audit, Host]

  datatype Path = Path(dataset: Dataset, name: string)

  datatype Content = Rows(rows: seq<Row>) | Unreadable

  /** A landed file; `ready` says that it is old enough to be taken. */
  datatype File = File(content: Content, ready: bool)

  type Landing = map<Path, File>

  /** How derived rows are made: the indexes of the ready company and document rows, and the row derived
      from row `i` of a source file. The ordering and conservation results hold for any rules. */
  datatype Rules = Rules(index: (seq<Row>, seq<Row>) -> Indexes, derive: (Path, nat, Row, Indexes) -> Row)

  datatype Config = Config(rules: Rules, archive: bool, crossDevice: bool, deleteAfterLoad: bool, dryRun: bool,
                           only: Option<Dataset>)
  {
    predicate Retires() {
      !dryRun && (archive || deleteAfterLoad)
    }

    function Datasets(): seq<Dataset> {
      if only.Some? then [only.value] else DATASETS
    }
  }

  datatype Load = Load(path: Path, rows: seq<Row>)

  datatype Derivation = Derivation(source: Path, target: Path, events: seq<Row>)

  datatype State = State(landing: Landing, raw: seq<Load>, core: seq<Load>, archive: seq<Load>,
                         derived: seq<Derivation>)

  datatype Effect =
    | Derive(derivation: Derivation)  // write the derived file, or remove it when there are no events
    | InsertRaw(load: Load)
    | InsertCore(load: Load)
    | Rename(load: Load)              // from landing into the archive, atomically
    | CopyToArchive(load: Load)       // first half of the fallback for another file system
    | Remove(load: Load)              // from landing

  function Apply(s: State, e: Effect): State {
    match e
    case Derive(d) =>
      var landing := if d.events == [] then s.landing - {d.target} else s.landing[d.target := File(Rows(d.events), true)];
      s.(landing := landing, derived := s.derived + [d])
    case InsertRaw(l) => s.(raw := s.raw + [l])
    case InsertCore(l) => s.(core := s.core + [l])
    case Rename(l) => s.(landing := s.landing - {l.path}, archive := s.archive + [l])
    case CopyToArchive(l) => s.(archive := s.archive + [l])
    case Remove(l) => s.(landing := s.landing - {l.path})
  }

  function ApplyAll(s: State, es: seq<Effect>): State
    decreases |es|
  {
    if es == [] then s else ApplyAll(Apply(s, es[0]), es[1..])
  }

  lemma {:induction false} ApplyConcat(s: State, a: seq<Effect>, b: seq<Effect>)
    ensures ApplyAll(s, a + b) == ApplyAll(ApplyAll(s, a), b)
    decreases |a|
  {
    if a == [] {
      assert a + b == b;
    } else {
      assert (a + b)[0] == a[0] && (a + b)[1..] == a[1..] + b;
      ApplyConcat(Apply(s, a[0]), a[1..], b);
    }
  }

  // ----- Names --------------------------------------------------------------------------

  /** Position of the last dot, or -1. */
  function LastDot(name: string): (i: int)
    ensures -1 <= i < |name|
  {
    if name == [] then -1
    else if name[|name| - 1] == '.' then |name| - 1
    else LastDot(name[..|name| - 1])
  }

  /** The file name without its extension; a leading dot does not start an extension. */
  function Stem(name: string): string {
    var dot := LastDot(name);
    if dot <= 0 then name else name[..dot]
  }

  lemma {:induction false} LastDotIsLast(name: string, i: nat)
    requires i < |name| && name[i] == '.' && forall j :: i < j < |name| ==> name[j] != '.'
    ensures LastDot(name) == i
    decreases |name|
  {
    if i < |name| - 1 {
      LastDotIsLast(name[..|name| - 1], i);
    }
  }

  /** A stem is what precedes the last dot. */
  lemma StemDropsExtension(base: string, extension: string)
    requires base != "" && '.' !in extension
    ensures Stem(base + "." + extension) == base
  {
    var name := base + "." + extension;
    assert forall j :: |base| < j < |name| ==> name[j] == extension[j - |base| - 1];
    LastDotIsLast(name, |base|);
  }

  lemma {:induction false} NoLastDot(name: string)
    requires '.' !in name
    ensures LastDot(name) == -1
    decreases |name|
  {
    if name != [] {
      NoLastDot(name[..|name| - 1]);
    }
  }

  const DOCUMENT_PREFIX := "business-events-documents-"
  const POSTING_PREFIX := "business-events-postings-"
  const AUDIT_PREFIX := "document-changes-audit-"

  predicate IsSource(dataset: Dataset) {
    dataset.Documents? || dataset.Postings? || dataset.Audit?
  }

  /** Where the file derived from a source file goes. */
  function Target(source: Path): Path
    requires IsSource(source.dataset)
  {
    match source.dataset
    case Documents => Path(BusinessEvents, DOCUMENT_PREFIX + Stem(source.name) + ".jsonl")
    case Postings => Path(BusinessEvents, POSTING_PREFIX + Stem(source.name) + ".jsonl")
    case _ => Path(DocumentChanges, AUDIT_PREFIX + Stem(source.name) + ".jsonl")
  }

  /** The file derived from `base.extension` is named after its dataset and `base`, and is a JSONL file. */
  lemma TargetIsNamedAfter(base: string, extension: string)
    requires base != "" && '.' !in extension
    ensures Target(Path(Documents, base + "." + extension)) == Path(BusinessEvents, "business-events-documents-" + base + ".jsonl")
    ensures Target(Path(Postings, base + "." + extension)) == Path(BusinessEvents, "business-events-postings-" + base + ".jsonl")
    ensures Target(Path(Audit, base + "." + extension)) == Path(DocumentChanges, "document-changes-audit-" + base + ".jsonl")
    ensures '.' !in base ==> Stem(base) == base
  {
    StemDropsExtension(base, extension);
    if '.' !in base {
      NoLastDot(base);
    }
  }

  lemma TargetInjective(p: Path, q: Path)
    requires IsSource(p.dataset) && IsSource(q.dataset) && Target(p) == Target(q)
    ensures p.dataset == q.dataset && Stem(p.name) == Stem(q.name)
  {
    var a, b := Target(p).name, Target(q).name;
    assert p.dataset.Documents? ==> a[16] == 'd';
    assert p.dataset.Postings? ==> a[16] == 'p';
    assert q.dataset.Documents? ==> b[16] == 'd';
    assert q.dataset.Postings? ==> b[16] == 'p';
    var n := if p.dataset.Documents? then 26 else if p.dataset.Postings? then 25 else 23;
    assert p.dataset == q.dataset;
    assert a[n..|a| - 6] == Stem(p.name);
    assert b[n..|b| - 6] == Stem(q.name);
  }

  // ----- What a cycle does --------------------------------------------------------------

  /** Effects in order; `ok` says that the cycle did not stop with an error after them. */
  datatype Plan = Plan(effects: seq<Effect>, ok: bool)

  function Then(p: Plan, q: Plan): Plan {
    if p.ok then Plan(p.effects + q.effects, q.ok) else p
  }

  function Names(landing: Landing, dataset: Dataset): set<string> {
    set p | p in landing && p.dataset == dataset :: p.name
  }

  /** The file names of a dataset in ascending order. */
  function Listing(landing: Landing, dataset: Dataset): seq<string> {
    Sorted(Names(landing, dataset))
  }

  /** The rows of all ready files, or nothing when one of them cannot be read. */
  function ReadReady(landing: Landing, dataset: Dataset, names: seq<string>): Option<seq<Row>> {
    if names == [] then Some([])
    else
      var p := Path(dataset, names[0]);
      var rest := ReadReady(landing, dataset, names[1..]);
      if p !in landing || !landing[p].ready then rest
      else if landing[p].content.Unreadable? || rest.None? then None
      else Some(landing[p].content.rows + rest.value)
  }

  function EventsOf(rules: Rules, source: Path, rows: seq<Row>, ix: Indexes): (events: seq<Row>)
    ensures |events| == |rows|
  {
    seq(|rows|, i requires 0 <= i < |rows| => rules.derive(source, i, rows[i], ix))
  }

  function DeriveRow(n: Normalisers, source: Path, i: nat, row: Row, ix: Indexes): Row {
    match source.dataset
    case Documents => DocumentEvent(n, row, source.name, ix)
    case Postings => PostingEvent(n, row, i, source.name, ix)
    case _ => ChangeEvent(n, row, source.name, ix)
  }

  /** The rules of the program: business events and document changes, enriched from the indexes. */
  function Enrichment(n: Normalisers): Rules {
    Rules((companyRows: seq<Row>, documentRows: seq<Row>) => IndexesOf(n, companyRows, documentRows),
          (source: Path, i: nat, row: Row, ix: Indexes) => DeriveRow(n, source, i, row, ix))
  }

  /** How a loaded file leaves the landing directory. */
  function Retire(cfg: Config, l: Load): seq<Effect> {
    if cfg.dryRun then []
    else if cfg.archive then (if cfg.crossDevice then [CopyToArchive(l), Remove(l)] else [Rename(l)])
    else if cfg.deleteAfterLoad then [Remove(l)]
    else []
  }

  function LoadRows(cfg: Config, l: Load): seq<Effect> {
    (if l.rows == [] || cfg.dryRun then [] else [InsertRaw(l), InsertCore(l)]) + Retire(cfg, l)
  }

  datatype Stage = Deriving(ix: Indexes) | Loading

  /** What one stage does with one listed file. */
  function FilePlan(stage: Stage, cfg: Config, landing: Landing, p: Path): Plan
    requires stage.Deriving? ==> IsSource(p.dataset)
  {
    if p !in landing || !landing[p].ready then Plan([], true)
    else if landing[p].content.Unreadable? then Plan([], false)
    else
      var rows := landing[p].content.rows;
      match stage
      case Deriving(ix) => Plan(if cfg.dryRun then [] else [Derive(Derivation(p, Target(p), EventsOf(cfg.rules, p, rows, ix)))], true)
      case Loading => Plan(LoadRows(cfg, Load(p, rows)), true)
  }

  function FilesPlan(stage: Stage, cfg: Config, landing: Landing, dataset: Dataset, names: seq<string>): Plan
    requires stage.Deriving? ==> IsSource(dataset)
  {
    if names == [] then Plan([], true)
    else Then(FilePlan(stage, cfg, landing, Path(dataset, names[0])), FilesPlan(stage, cfg, landing, dataset, names[1..]))
  }

  function DatasetPlan(stage: Stage, cfg: Config, landing: Landing, dataset: Dataset): Plan
    requires stage.Deriving? ==> IsSource(dataset)
  {
    FilesPlan(stage, cfg, landing, dataset, Listing(landing, dataset))
  }

  function DatasetsPlan(stage: Stage, cfg: Config, landing: Landing, datasets: seq<Dataset>): Plan
    requires stage.Deriving? ==> forall d :: d in datasets ==> IsSource(d)
  {
    if datasets == [] then Plan([], true)
    else Then(DatasetPlan(stage, cfg, landing, datasets[0]), DatasetsPlan(stage, cfg, landing, datasets[1..]))
  }

  /** The datasets that events are derived from, in order. */
  const SOURCES: seq<Dataset> := [Documents, Postings, Audit]

  function BuildPlan(cfg: Config, landing: Landing): Plan {
    var companyRows := ReadReady(landing, Companies, Listing(landing, Companies));
    var documentRows := ReadReady(landing, Documents, Listing(landing, Documents));
    if companyRows.None? || documentRows.None? then Plan([], false)
    else DatasetsPlan(Deriving(cfg.rules.index(companyRows.value, documentRows.value)), cfg, landing, SOURCES)
  }

  /** What is landed once the derived files are written. */
  function Built(cfg: Config, s: State): State {
    ApplyAll(s, BuildPlan(cfg, s.landing).effects)
  }

  function CyclePlan(cfg: Config, s: State): Plan {
    Then(BuildPlan(cfg, s.landing), DatasetsPlan(Loading, cfg, Built(cfg, s).landing, cfg.Datasets()))
  }

  /** The state after the first `steps` effects of a cycle: all of them, or a crash. */
  function Cycle(cfg: Config, s: State, steps: nat): State {
    var es := CyclePlan(cfg, s).effects;
    ApplyAll(s, if steps < |es| then es[..steps] else es)
  }
}
