/** What the derived files hold, row by row, and which landed rows they are enriched from. */
module IngestRows {
  import opened Ingest
  import opened IngestDerived
  import opened IngestEvents
  import opened IngestSafety
  import opened Options
  import opened TextOrder

  // ----- Landed rows in order -----------------------------------------------------------

  /** A row of a file of some dataset. */
  datatype Place = Place(name: string, row: nat)

  /** The ready files of the dataset hold this row at that place. */
  ghost predicate HoldsRow(landing: Landing, dataset: Dataset, at: Place, row: Row) {
    var p := Path(dataset, at.name);
    && p in landing && landing[p].ready && landing[p].content.Rows?
    && at.row < |landing[p].content.rows| && landing[p].content.rows[at.row] == row
  }

  /** Files are read by name, and each from its first row to its last. */
  predicate Before(a: Place, b: Place) {
    if a.name == b.name then a.row < b.row else AtMost(a.name, b.name)
  }

  /** Where row `k` of what is read lies. */
  function PlaceOf(landing: Landing, dataset: Dataset, names: seq<string>, k: nat): Place
    requires ReadReady(landing, dataset, names).Some? && k < |ReadReady(landing, dataset, names).value|
  {
    var p := Path(dataset, names[0]);
    if p !in landing || !landing[p].ready then PlaceOf(landing, dataset, names[1..], k)
    else if k < |landing[p].content.rows| then Place(names[0], k)
    else PlaceOf(landing, dataset, names[1..], k - |landing[p].content.rows|)
  }

  lemma {:induction false} PlaceHolds(landing: Landing, dataset: Dataset, names: seq<string>, k: nat)
    requires ReadReady(landing, dataset, names).Some? && k < |ReadReady(landing, dataset, names).value|
    ensures var at := PlaceOf(landing, dataset, names, k);
      at.name in names && HoldsRow(landing, dataset, at, ReadReady(landing, dataset, names).value[k])
    decreases |names|
  {
    var p := Path(dataset, names[0]);
    if p !in landing || !landing[p].ready {
      PlaceHolds(landing, dataset, names[1..], k);
    } else if k >= |landing[p].content.rows| {
      PlaceHolds(landing, dataset, names[1..], k - |landing[p].content.rows|);
    }
  }

  lemma {:induction false} PlacesAscend(landing: Landing, dataset: Dataset, names: seq<string>, j: nat, k: nat)
    requires Ascending(names) && ReadReady(landing, dataset, names).Some?
    requires j < k < |ReadReady(landing, dataset, names).value|
    ensures Before(PlaceOf(landing, dataset, names, j), PlaceOf(landing, dataset, names, k))
    decreases |names|
  {
    hide AtMost;
    var p := Path(dataset, names[0]);
    if p !in landing || !landing[p].ready {
      PlacesAscend(landing, dataset, names[1..], j, k);
    } else {
      var n := |landing[p].content.rows|;
      if j >= n {
        PlacesAscend(landing, dataset, names[1..], j - n, k - n);
      } else if k >= n {
        PlaceHolds(landing, dataset, names[1..], k - n);
        LaterIsAbove(names, PlaceOf(landing, dataset, names[1..], k - n).name);
      }
    }
  }

  lemma LaterIsAbove(names: seq<string>, name: string)
    requires names != [] && Ascending(names) && name in names[1..]
    ensures AtMost(names[0], name) && names[0] != name
  {
    var i :| 0 <= i < |names[1..]| && names[1..][i] == name;
    assert names[i + 1] == name;
  }

  lemma {:induction false} EveryPlaceIsRead(landing: Landing, dataset: Dataset, names: seq<string>, at: Place, row: Row)
    returns (k: nat)
    requires ReadReady(landing, dataset, names).Some?
    requires HoldsRow(landing, dataset, at, row) && at.name in names
    ensures k < |ReadReady(landing, dataset, names).value|
    ensures PlaceOf(landing, dataset, names, k) == at && ReadReady(landing, dataset, names).value[k] == row
    decreases |names|
  {
    if at.name == names[0] {
      k := at.row;
    } else {
      var p := Path(dataset, names[0]);
      k := EveryPlaceIsRead(landing, dataset, names[1..], at, row);
      if p in landing && landing[p].ready {
        k := k + |landing[p].content.rows|;
      }
    }
  }

  /** The rows that an index of the dataset is made of. */
  function ReadyRows(landing: Landing, dataset: Dataset): seq<Row>
    requires ReadReady(landing, dataset, Listing(landing, dataset)).Some?
  {
    ReadReady(landing, dataset, Listing(landing, dataset)).value
  }

  lemma ListedIfHeld(landing: Landing, dataset: Dataset, at: Place, row: Row)
    requires HoldsRow(landing, dataset, at, row)
    ensures at.name in Listing(landing, dataset)
  {
    assert Path(dataset, at.name).name in Names(landing, dataset);
  }

  lemma RowsAreHeld(landing: Landing, dataset: Dataset, k: nat)
    requires ReadReady(landing, dataset, Listing(landing, dataset)).Some? && k < |ReadyRows(landing, dataset)|
    ensures HoldsRow(landing, dataset, PlaceOf(landing, dataset, Listing(landing, dataset), k), ReadyRows(landing, dataset)[k])
  {
    PlaceHolds(landing, dataset, Listing(landing, dataset), k);
  }

  // ----- The document that a row is enriched from ---------------------------------------

  /** The row is indexed under this key: its infobase, and the first of the fields that it fills. */
  predicate HasKey(row: Row, fields: seq<string>, key: Key) {
    Field(row, "infobase") == key.0 != "" && FirstOf(row, fields) == key.1 != ""
  }

  lemma KeyOfIs(row: Row, fields: seq<string>, key: Key)
    ensures KeyOf(row, fields) == Some(key) <==> HasKey(row, fields, key)
  {
  }

  /** The last ready document row with a key under some of its fields. */
  ghost predicate LastDocument(landing: Landing, fields: seq<string>, key: Key, at: Place, document: Row) {
    && HoldsRow(landing, Documents, at, document) && HasKey(document, fields, key)
    && forall other, row :: HoldsRow(landing, Documents, other, row) && HasKey(row, fields, key) ==>
      other == at || Before(other, at)
  }

  ghost predicate NoDocument(landing: Landing, fields: seq<string>, key: Key) {
    forall at, row :: HoldsRow(landing, Documents, at, row) ==> !HasKey(row, fields, key)
  }

  lemma NotBothBefore(a: Place, b: Place)
    ensures !Before(a, b) || !Before(b, a)
  {
    if AtMost(a.name, b.name) && AtMost(b.name, a.name) {
      Antisymmetric(a.name, b.name);
    }
  }

  lemma LastDocumentIsLastEntry(n: Normalisers, landing: Landing, fields: seq<string>, key: Key, at: Place,
                                document: Row, companies: map<string, string>) returns (k: nat)
    requires Indexable(landing) && LastDocument(landing, fields, key, at, document)
    ensures k < |ReadyRows(landing, Documents)| && ReadyRows(landing, Documents)[k] == document
    ensures IsLastWithKey(Entries(n, ReadyRows(landing, Documents), fields, companies), key, k)
  {
    hide KeyOf, HasKey, DocumentMeta, HoldsRow, Before, ReadReady;
    var names, rows := Listing(landing, Documents), ReadyRows(landing, Documents);
    ListedIfHeld(landing, Documents, at, document);
    SortedAscending(Names(landing, Documents));
    k := EveryPlaceIsRead(landing, Documents, names, at, document);
    KeyOfIs(document, fields, key);
    forall j | k < j < |rows|
      ensures KeyOf(rows[j], fields) != Some(key)
    {
      KeyOfIs(rows[j], fields, key);
      if KeyOf(rows[j], fields) == Some(key) {
        RowsAreHeld(landing, Documents, j);
        PlacesAscend(landing, Documents, names, k, j);
        var other := PlaceOf(landing, Documents, names, j);
        NotBothBefore(at, other);
      }
    }
  }

  lemma NoDocumentNoEntry(n: Normalisers, landing: Landing, fields: seq<string>, key: Key, companies: map<string, string>)
    requires Indexable(landing) && NoDocument(landing, fields, key)
    ensures NoEntryWith(Entries(n, ReadyRows(landing, Documents), fields, companies), key)
  {
    hide KeyOf, HasKey, DocumentMeta, HoldsRow, ReadReady;
    var rows := ReadyRows(landing, Documents);
    forall j | 0 <= j < |rows|
      ensures KeyOf(rows[j], fields) != Some(key)
    {
      KeyOfIs(rows[j], fields, key);
      RowsAreHeld(landing, Documents, j);
    }
  }

  /** The ready document row whose data a posting or audit row takes over: the last one with its registrar as id, or,
      when there is none, the last one with its document number. */
  ghost predicate DocumentFor(landing: Landing, row: Row, at: Place, document: Row) {
    var byId := (Field(row, "infobase"), FirstOf(row, ["registrar", "document_id", "doc_id"]));
    var byNumber := (Field(row, "infobase"), FirstOf(row, ["document_number", "doc_number"]));
    || LastDocument(landing, ["doc_id", "document_id"], byId, at, document)
    || (NoDocument(landing, ["doc_id", "document_id"], byId)
        && LastDocument(landing, ["doc_number", "document_number"], byNumber, at, document))
  }

  ghost predicate WithoutDocument(landing: Landing, row: Row) {
    && NoDocument(landing, ["doc_id", "document_id"],
                  (Field(row, "infobase"), FirstOf(row, ["registrar", "document_id", "doc_id"])))
    && NoDocument(landing, ["doc_number", "document_number"],
                  (Field(row, "infobase"), FirstOf(row, ["document_number", "doc_number"])))
  }

  /** The company index of what is landed. */
  function Companies(n: Normalisers, landing: Landing): map<string, string>
    requires Indexable(landing)
  {
    CompanyIndex(n, ReadyRows(landing, Dataset.Companies))
  }

  lemma LookupFindsLanded(n: Normalisers, landing: Landing, row: Row, at: Place, document: Row)
    requires Indexable(landing) && DocumentFor(landing, row, at, document)
    ensures LookupMeta(row, BuildIndexes(Enrichment(n), landing)) == Some(DocumentMeta(n, document, Companies(n, landing)))
  {
    hide KeyOf, HasKey, DocumentMeta, HoldsRow, Before, ReadReady, LookupMeta, CompanyIndex, DocumentIndex, LastDocument;
    hide NoDocument, Entries, FirstOf, IndexesOf;
    var companies := Companies(n, landing);
    var documents := ReadyRows(landing, Documents);
    BuildIndexesOf(n, landing);
    var byId, byNumber := RegistrarKey(row), NumberKey(row);
    if LastDocument(landing, ID_FIELDS, byId, at, document) {
      var k := LastDocumentIsLastEntry(n, landing, ID_FIELDS, byId, at, document, companies);
      LookupFindsDocument(n, row, ReadyRows(landing, Dataset.Companies), documents, k);
    } else {
      NoDocumentNoEntry(n, landing, ID_FIELDS, byId, companies);
      var k := LastDocumentIsLastEntry(n, landing, NUMBER_FIELDS, byNumber, at, document, companies);
      LookupFindsDocument(n, row, ReadyRows(landing, Dataset.Companies), documents, k);
    }
  }

  lemma LookupFindsNoneLanded(n: Normalisers, landing: Landing, row: Row)
    requires Indexable(landing) && WithoutDocument(landing, row)
    ensures LookupMeta(row, BuildIndexes(Enrichment(n), landing)) == None
  {
    hide KeyOf, HasKey, DocumentMeta, HoldsRow, ReadReady, LookupMeta, CompanyIndex, DocumentIndex, NoDocument, Entries, FirstOf;
    hide IndexesOf;
    BuildIndexesOf(n, landing);
    NoDocumentNoEntry(n, landing, ID_FIELDS, RegistrarKey(row), Companies(n, landing));
    NoDocumentNoEntry(n, landing, NUMBER_FIELDS, NumberKey(row), Companies(n, landing));
    LookupFindsNothing(n, row, ReadyRows(landing, Dataset.Companies), ReadyRows(landing, Documents));
  }

  lemma BuildIndexesOf(n: Normalisers, landing: Landing)
    requires Indexable(landing)
    ensures BuildIndexes(Enrichment(n), landing) ==
      IndexesOf(n, ReadyRows(landing, Dataset.Companies), ReadyRows(landing, Documents))
    ensures BuildIndexes(Enrichment(n), landing).companies == Companies(n, landing)
  {
    hide CompanyIndex, DocumentIndex, ReadReady;
  }

  // ----- The company that a row belongs to ----------------------------------------------

  /** The newest ready company row of an infobase, and the last one among equally new ones. */
  ghost predicate NewestCompany(n: Normalisers, landing: Landing, infobase: string, at: Place, company: Row) {
    && HoldsRow(landing, Dataset.Companies, at, company) && Field(company, "infobase") == infobase
    && forall other, row :: HoldsRow(landing, Dataset.Companies, other, row) && Field(row, "infobase") == infobase ==>
      && AtMost(Timestamp(n, row, ["ts"]), Timestamp(n, company, ["ts"]))
      && (Timestamp(n, row, ["ts"]) == Timestamp(n, company, ["ts"]) ==> other == at || Before(other, at))
  }

  lemma NewestIsIndexed(n: Normalisers, landing: Landing, infobase: string, at: Place, company: Row, i: nat)
    requires Indexable(landing) && infobase != "" && NewestCompany(n, landing, infobase, at, company)
    requires IsNewest(CompanySightings(n, ReadyRows(landing, Dataset.Companies)), infobase, i)
    ensures ReadyRows(landing, Dataset.Companies)[i] == company
  {
    hide HoldsRow, Before, ReadReady, Field, Written, CanonicalKey;
    var names, rows := Listing(landing, Dataset.Companies), ReadyRows(landing, Dataset.Companies);
    var sightings := CompanySightings(n, rows);
    ListedIfHeld(landing, Dataset.Companies, at, company);
    SortedAscending(Names(landing, Dataset.Companies));
    var k := EveryPlaceIsRead(landing, Dataset.Companies, names, at, company);
    RowsAreHeld(landing, Dataset.Companies, i);
    var other := PlaceOf(landing, Dataset.Companies, names, i);
    assert sightings[k] == CompanySighting(n, company) && sightings[i] == CompanySighting(n, rows[i]);
    SameIfBoth(sightings[i].ts, sightings[k].ts);
    if i > k {
      PlacesAscend(landing, Dataset.Companies, names, k, i);
      NotBothBefore(at, other);
      NotBothBefore(at, at);
    }
  }

  lemma SameIfBoth(a: string, b: string)
    ensures AtMost(a, b) && AtMost(b, a) ==> a == b
  {
    if AtMost(a, b) && AtMost(b, a) {
      Antisymmetric(a, b);
    }
  }

  /** The company index knows an infobase by the key of its newest landed company row: its base id, else its base path,
      else the infobase itself. */
  lemma CompanyFollowsNewest(n: Normalisers, landing: Landing, infobase: string, at: Place, company: Row)
    requires Indexable(landing) && infobase != "" && NewestCompany(n, landing, infobase, at, company)
    ensures infobase in Companies(n, landing)
    ensures Companies(n, landing)[infobase] ==
      CanonicalKey(n, Field(company, "base_id"), Field(company, "base_path"), infobase)
  {
    hide HoldsRow, Before, ReadReady, Field, Written, CanonicalKey, Newest, AtMost;
    var names, rows := Listing(landing, Dataset.Companies), ReadyRows(landing, Dataset.Companies);
    var sightings := CompanySightings(n, rows);
    ListedIfHeld(landing, Dataset.Companies, at, company);
    var k := EveryPlaceIsRead(landing, Dataset.Companies, names, at, company);
    assert sightings[k].infobase == infobase;
    NewestIsNewest(sightings, infobase);
    var i :| IsNewest(sightings, infobase, i) && Newest(sightings)[infobase] == sightings[i];
    NewestIsIndexed(n, landing, infobase, at, company, i);
  }

  /** It knows no infobase that no ready company row mentions, and none without a name. */
  lemma UnmentionedIsUnknown(n: Normalisers, landing: Landing, infobase: string)
    requires Indexable(landing)
    requires infobase == ""
      || forall at, row :: HoldsRow(landing, Dataset.Companies, at, row) ==> Field(row, "infobase") != infobase
    ensures infobase !in Companies(n, landing)
  {
    hide HoldsRow, ReadReady, Field, Written, CanonicalKey, Newest;
    var rows := ReadyRows(landing, Dataset.Companies);
    var sightings := CompanySightings(n, rows);
    if infobase == "" {
      BlankIsUnknown(sightings);
    } else {
      forall i | 0 <= i < |sightings|
        ensures sightings[i].infobase != infobase
      {
        RowsAreHeld(landing, Dataset.Companies, i);
      }
      NewestIsNewest(sightings, infobase);
    }
  }

  lemma {:induction false} BlankIsUnknown(sightings: seq<Sighting>)
    ensures "" !in Newest(sightings)
  {
    if sightings != [] {
      BlankIsUnknown(sightings[..|sightings| - 1]);
    }
  }

  // ----- The derived files, row by row --------------------------------------------------

  /** The file at `p` is ready and holds `count` rows; there is none when there would be no row. */
  predicate HasRows(landing: Landing, p: Path, count: nat) {
    if count == 0 then p !in landing
    else p in landing && landing[p].ready && landing[p].content.Rows? && |landing[p].content.rows| == count
  }

  /** A completed derivation leaves at a derived name one row for each row of the last ready source of that name, in
      their order, each derived from that very row. */
  lemma EachRowIsDerived(cfg: Config, s: State, q: Path, p: Path)
    requires BuildPlan(cfg, s.landing).ok && !cfg.dryRun && LastDeriver(s.landing, q, p)
    ensures Indexable(s.landing) && q in s.landing && s.landing[q].content.Rows?
    ensures var rows, after := s.landing[q].content.rows, Built(cfg, s).landing;
      && HasRows(after, p, |rows|)
      && forall i :: 0 <= i < |rows| ==>
        after[p].content.rows[i] == cfg.rules.derive(q, i, rows[i], BuildIndexes(cfg.rules, s.landing))
  {
    hide BuildPlan, Built, Derives, BuildIndexes, Indexable;
    IndexableBuild(cfg, s.landing);
    BuiltAt(cfg, s, q, p);
    assert Derives(s.landing, q, p);
    DeriverIsSource(s.landing, q, p);
    var ix := BuildIndexes(cfg.rules, s.landing);
    assert DerivedRows(cfg.rules, s.landing, q) == EventsOf(cfg.rules, q, s.landing[q].content.rows, ix);
  }

  /** Row `i` of a derived business-event file of postings says what the posting in row `i` of the source says; who
      and what it is about it takes from the document for that posting, if there is one among the landed documents. */
  lemma LandedPosting(n: Normalisers, cfg: Config, s: State, q: Path, p: Path, i: nat)
    requires BuildPlan(cfg, s.landing).ok && !cfg.dryRun && cfg.rules == Enrichment(n)
    requires LastDeriver(s.landing, q, p) && q.dataset.Postings?
    requires s.landing[q].content.Rows? ==> i < |s.landing[q].content.rows|
    ensures Indexable(s.landing) && s.landing[q].content.Rows?
    ensures HasRows(Built(cfg, s).landing, p, |s.landing[q].content.rows|)
    ensures var row, event := s.landing[q].content.rows[i], Built(cfg, s).landing[p].content.rows[i];
      var companies := Companies(n, s.landing);
      && KeepsPosting(n, event, row, i, q.name)
      && (forall at, document :: DocumentFor(s.landing, row, at, document) ==>
        TakesOver(n, event, document, companies) && TakesOperation(event, row, document))
      && (WithoutDocument(s.landing, row) ==> SpeaksForItself(n, event, row, companies))
  {
    hide BuildPlan, Built, Derives, BuildIndexes, Indexable, Companies, HasRows;
    hide DocumentFor, WithoutDocument, PostingEvent, KeepsPosting, TakesOver, TakesOperation, SpeaksForItself;
    EachRowIsDerived(cfg, s, q, p);
    var row, ix := s.landing[q].content.rows[i], BuildIndexes(cfg.rules, s.landing);
    HasRow(Built(cfg, s).landing, p, |s.landing[q].content.rows|, i);
    assert Built(cfg, s).landing[p].content.rows[i] == PostingEvent(n, row, i, q.name, ix);
    PostingKeepsItsOwn(n, row, i, q.name, ix);
    BuildIndexesOf(n, s.landing);
    forall at, document | DocumentFor(s.landing, row, at, document)
      ensures var event := PostingEvent(n, row, i, q.name, ix);
        TakesOver(n, event, document, Companies(n, s.landing)) && TakesOperation(event, row, document)
    {
      LookupFindsLanded(n, s.landing, row, at, document);
      PostingFollowsMeta(n, row, i, q.name, ix, document, Companies(n, s.landing));
    }
    if WithoutDocument(s.landing, row) {
      LookupFindsNoneLanded(n, s.landing, row);
      OwnFields(n, row, i, q.name, ix);
    }
  }

  lemma HasRow(landing: Landing, p: Path, count: nat, i: nat)
    requires HasRows(landing, p, count) && i < count
    ensures p in landing && landing[p].content.Rows? && i < |landing[p].content.rows|
  {
  }

  /** Row `i` of a derived file of documents says what the document in row `i` of the source says. */
  lemma LandedDocument(n: Normalisers, cfg: Config, s: State, q: Path, p: Path, i: nat)
    requires BuildPlan(cfg, s.landing).ok && !cfg.dryRun && cfg.rules == Enrichment(n)
    requires LastDeriver(s.landing, q, p) && q.dataset.Documents?
    requires s.landing[q].content.Rows? ==> i < |s.landing[q].content.rows|
    ensures Indexable(s.landing) && s.landing[q].content.Rows?
    ensures HasRows(Built(cfg, s).landing, p, |s.landing[q].content.rows|)
    ensures KeepsDocument(n, Built(cfg, s).landing[p].content.rows[i], s.landing[q].content.rows[i], q.name,
                          Companies(n, s.landing))
  {
    hide BuildPlan, Built, Derives, BuildIndexes, Indexable, Companies, HasRows, DocumentEvent, KeepsDocument;
    EachRowIsDerived(cfg, s, q, p);
    var row, ix := s.landing[q].content.rows[i], BuildIndexes(cfg.rules, s.landing);
    HasRow(Built(cfg, s).landing, p, |s.landing[q].content.rows|, i);
    assert Built(cfg, s).landing[p].content.rows[i] == DocumentEvent(n, row, q.name, ix);
    BuildIndexesOf(n, s.landing);
    DocumentEventKeeps(n, row, q.name, ix);
  }

  /** Row `i` of a derived file of document changes says what the audit row `i` of the source says, about the document
      for that row, if there is one among the landed documents. */
  lemma LandedChange(n: Normalisers, cfg: Config, s: State, q: Path, p: Path, i: nat)
    requires BuildPlan(cfg, s.landing).ok && !cfg.dryRun && cfg.rules == Enrichment(n)
    requires LastDeriver(s.landing, q, p) && q.dataset.Audit?
    requires s.landing[q].content.Rows? ==> i < |s.landing[q].content.rows|
    ensures Indexable(s.landing) && s.landing[q].content.Rows?
    ensures HasRows(Built(cfg, s).landing, p, |s.landing[q].content.rows|)
    ensures var row, change := s.landing[q].content.rows[i], Built(cfg, s).landing[p].content.rows[i];
      var companies := Companies(n, s.landing);
      && KeepsChange(n, change, row, q.name)
      && (forall at, document :: DocumentFor(s.landing, row, at, document) ==>
        ChangeTakesOver(n, change, document, companies))
      && (WithoutDocument(s.landing, row) ==> ChangeSpeaksForItself(n, change, row, companies))
  {
    hide BuildPlan, Built, Derives, BuildIndexes, Indexable, Companies, HasRows;
    hide DocumentFor, WithoutDocument, ChangeEvent, KeepsChange, ChangeTakesOver, ChangeSpeaksForItself;
    EachRowIsDerived(cfg, s, q, p);
    var row, ix := s.landing[q].content.rows[i], BuildIndexes(cfg.rules, s.landing);
    HasRow(Built(cfg, s).landing, p, |s.landing[q].content.rows|, i);
    assert Built(cfg, s).landing[p].content.rows[i] == ChangeEvent(n, row, q.name, ix);
    ChangeKeepsItsOwn(n, row, q.name, ix);
    BuildIndexesOf(n, s.landing);
    forall at, document | DocumentFor(s.landing, row, at, document)
      ensures ChangeTakesOver(n, ChangeEvent(n, row, q.name, ix), document, Companies(n, s.landing))
    {
      LookupFindsLanded(n, s.landing, row, at, document);
      ChangeFollowsMeta(n, row, q.name, ix, document, Companies(n, s.landing));
    }
    if WithoutDocument(s.landing, row) {
      LookupFindsNoneLanded(n, s.landing, row);
      ChangeOwnFields(n, row, q.name, ix);
    }
  }
}
