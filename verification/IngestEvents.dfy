/** Derivation of business events and document changes from landed rows, with the company and
    document indexes used to enrich them. A row is a record of texts; a missing field reads as "". */
module IngestEvents {
  import opened Options
  import opened Text
  import opened TextOrder

  type Row = map<string, string>

  /** Who a document belongs to, and what it is. */
  datatype Meta = Meta(companyEntityKey: string, organization: string, department: string,
                       documentId: string, documentNumber: string, documentType: string,
                       operationType: string, user: string, counterparty: string)

  type Key = (string, string)  // infobase, and document id or number

  // ----- Field access -------------------------------------------------------------------

  function Field(row: Row, key: string): string {
    if key in row then Trim(row[key]) else ""
  }

  /** The first non-empty of several fields. */
  function FirstOf(row: Row, keys: seq<string>): string {
    if keys == [] then ""
    else if Field(row, keys[0]) != "" then Field(row, keys[0])
    else FirstOf(row, keys[1..])
  }

  predicate NoneBefore(row: Row, keys: seq<string>, n: nat)
    requires n <= |keys|
  {
    forall j :: 0 <= j < n ==> Field(row, keys[j]) == ""
  }

  lemma {:induction false} FirstOfIsFirst(row: Row, keys: seq<string>)
    ensures if FirstOf(row, keys) == "" then forall i :: 0 <= i < |keys| ==> Field(row, keys[i]) == ""
      else exists i :: 0 <= i < |keys| && FirstOf(row, keys) == Field(row, keys[i]) && NoneBefore(row, keys, i)
  {
    if keys != [] {
      FirstOfIsFirst(row, keys[1..]);
      if Field(row, keys[0]) == "" && FirstOf(row, keys) != "" {
        var i :| 0 <= i < |keys[1..]| && FirstOf(row, keys[1..]) == Field(row, keys[1..][i])
          && NoneBefore(row, keys[1..], i);
        assert forall j :: 0 < j <= i ==> keys[j] == keys[1..][j - 1];
        assert keys[i + 1] == keys[1..][i];
      } else if FirstOf(row, keys) == "" {
        assert forall i :: 0 < i < |keys| ==> keys[i] == keys[1..][i - 1];
      }
    }
  }

  function FieldOr(row: Row, key: string, default: string): string {
    if Field(row, key) == "" then default else Field(row, key)
  }

  /** What the program makes of a base path, of an infobase name, and of a timestamp as written (a blank one becomes
      the current time). Everything here holds for any normalisation. */
  datatype Normalisers = Normalisers(basePath: string -> string, infobase: string -> string, timestamp: string -> string)

  /** The first present field, blank or not. */
  function Written(row: Row, keys: seq<string>): string {
    if keys == [] then ""
    else if keys[0] in row then row[keys[0]]
    else Written(row, keys[1..])
  }

  function Timestamp(n: Normalisers, row: Row, keys: seq<string>): string {
    n.timestamp(Written(row, keys))
  }

  /** The parts a stable id is computed from, in order. */
  function IdParts(parts: seq<string>): string {
    if parts == [] then ""
    else if |parts| == 1 then parts[0]
    else parts[0] + "|" + IdParts(parts[1..])
  }

  /** The timestamp is made of the first field that is there at all, be it blank. */
  lemma {:induction false} WrittenIsFirst(row: Row, keys: seq<string>, i: nat)
    requires i < |keys| && keys[i] in row && forall j :: 0 <= j < i ==> keys[j] !in row
    ensures Written(row, keys) == row[keys[i]]
    decreases |keys|
  {
    if i > 0 {
      WrittenIsFirst(row, keys[1..], i - 1);
    }
  }

  /** The parts of an id follow each other, separated by bars. */
  lemma {:induction false} PartsFollow(parts: seq<string>, last: string)
    requires parts != []
    ensures IdParts(parts + [last]) == IdParts(parts) + "|" + last
    decreases |parts|
  {
    var all := parts + [last];
    assert all[0] == parts[0] && all[1..] == parts[1..] + [last];
    if |parts| == 1 {
      assert all[1..] == [last];
    } else {
      PartsFollow(parts[1..], last);
    }
  }

  // ----- Company keys -------------------------------------------------------------------

  function CanonicalKey(n: Normalisers, baseId: string, basePath: string, infobase: string): string {
    if Trim(baseId) != "" then "baseid:" + Trim(baseId)
    else if Trim(basePath) != "" && n.basePath(basePath) != "" then "basepath:" + n.basePath(basePath)
    else if n.infobase(infobase) != "" then "infobase:" + n.infobase(infobase)
    else ""
  }

  function EntityKey(n: Normalisers, row: Row, companies: map<string, string>): string {
    var infobase := Field(row, "infobase");
    if Field(row, "company_entity_key") != "" then Field(row, "company_entity_key")
    else if infobase in companies && companies[infobase] != "" then companies[infobase]
    else CanonicalKey(n, Field(row, "base_id"), Field(row, "base_path"), infobase)
  }

  /** Who owns a row: whom it names itself; else whom the company rows know by its infobase; else its base id, else
      its base path, else its infobase, as far as they name anything. */
  lemma OwnerOfRow(n: Normalisers, row: Row, companies: map<string, string>)
    ensures var owner, infobase := EntityKey(n, row, companies), Field(row, "infobase");
      var known := if infobase in companies then companies[infobase] else "";
      var path := if Field(row, "base_path") == "" then "" else n.basePath(Field(row, "base_path"));
      && (Field(row, "company_entity_key") != "" ==> owner == Field(row, "company_entity_key"))
      && (Field(row, "company_entity_key") == "" && known != "" ==> owner == known)
      && (Field(row, "company_entity_key") == "" == known ==>
        owner == if Field(row, "base_id") != "" then "baseid:" + Field(row, "base_id")
          else if path != "" then "basepath:" + path
          else if n.infobase(infobase) != "" then "infobase:" + n.infobase(infobase) else "")
  {
    hide Trim;
    FieldIsTrimmed(row, "base_id");
    FieldIsTrimmed(row, "base_path");
  }

  lemma FieldIsTrimmed(row: Row, key: string)
    ensures Trim(Field(row, key)) == Field(row, key)
  {
    if key in row {
      TrimIsTrimmed(row[key]);
      TrimKeepsTrimmed(Trim(row[key]));
    } else {
      TrimKeepsTrimmed("");
    }
  }

  /** What one company row says: the key of an infobase at a time. */
  datatype Sighting = Sighting(infobase: string, ts: string, key: string)

  function CompanySighting(n: Normalisers, row: Row): Sighting {
    var infobase := Field(row, "infobase");
    Sighting(infobase, Timestamp(n, row, ["ts"]),
             CanonicalKey(n, Field(row, "base_id"), Field(row, "base_path"), infobase))
  }

  function CompanySightings(n: Normalisers, rows: seq<Row>): (r: seq<Sighting>) {
    seq(|rows|, i requires 0 <= i < |rows| => CompanySighting(n, rows[i]))
  }

  /** A sighting replaces what is known of its infobase unless that is strictly newer. */
  function Newest(sightings: seq<Sighting>): map<string, Sighting> {
    if sightings == [] then map[]
    else
      Learn(Newest(sightings[..|sightings| - 1]), sightings[|sightings| - 1])
  }

  function Learn(newest: map<string, Sighting>, seen: Sighting): map<string, Sighting> {
    if seen.infobase == "" then newest
    else if seen.infobase in newest && !AtMost(newest[seen.infobase].ts, seen.ts) then newest
    else newest[seen.infobase := seen]
  }

  function CompanyIndex(n: Normalisers, rows: seq<Row>): map<string, string> {
    var newest := Newest(CompanySightings(n, rows));
    map infobase | infobase in newest :: newest[infobase].key
  }

  /** Sighting `i` is the newest of its infobase, and the last among equally new ones. */
  ghost predicate IsNewest(sightings: seq<Sighting>, infobase: string, i: int) {
    && 0 <= i < |sightings| && sightings[i].infobase == infobase
    && forall j :: 0 <= j < |sightings| && sightings[j].infobase == infobase ==>
      AtMost(sightings[j].ts, sightings[i].ts) && (j > i ==> sightings[j].ts != sightings[i].ts)
  }

  ghost predicate Mentions(sightings: seq<Sighting>, infobase: string) {
    exists i :: 0 <= i < |sightings| && sightings[i].infobase == infobase
  }

  /** The index knows every infobase that is mentioned, by its newest sighting. */
  lemma {:induction false} NewestIsNewest(sightings: seq<Sighting>, infobase: string)
    requires infobase != ""
    ensures infobase in Newest(sightings) <==> Mentions(sightings, infobase)
    ensures infobase in Newest(sightings) ==>
      exists i :: IsNewest(sightings, infobase, i) && Newest(sightings)[infobase] == sightings[i]
  {
    if sightings != [] {
      var n := |sightings| - 1;
      var front, last := sightings[..n], sightings[n];
      NewestIsNewest(front, infobase);
      assert sightings == front + [last];
      Total(last.ts, last.ts);
      if infobase in Newest(front) {
        var i :| IsNewest(front, infobase, i) && Newest(front)[infobase] == front[i];
        assert sightings[i].infobase == infobase;
        if last.infobase == infobase {
          NewestAfterRival(front, last, i);
        } else {
          assert IsNewest(sightings, infobase, i);
        }
      } else if last.infobase == infobase {
        assert !Mentions(front, infobase);
        assert forall j :: 0 <= j < n ==> sightings[j] == front[j];
        assert IsNewest(sightings, infobase, n);
      } else {
        assert !Mentions(front, infobase);
        assert forall j :: 0 <= j < n ==> sightings[j] == front[j];
      }
    }
  }

  lemma NewestAfterRival(front: seq<Sighting>, last: Sighting, i: int)
    requires IsNewest(front, last.infobase, i)
    ensures IsNewest(front + [last], last.infobase, if AtMost(front[i].ts, last.ts) then |front| else i)
  {
    Total(front[i].ts, last.ts);
    Total(last.ts, last.ts);
    if AtMost(front[i].ts, last.ts) {
      forall j | 0 <= j < |front| && front[j].infobase == last.infobase
        ensures AtMost(front[j].ts, last.ts)
      {
        Transitive(front[j].ts, front[i].ts, last.ts);
      }
    }
  }

  lemma NewestNext(sightings: seq<Sighting>, i: nat)
    requires i < |sightings|
    ensures Newest(sightings[..i + 1]) == Learn(Newest(sightings[..i]), sightings[i])
  {
    assert sightings[..i + 1][..i] == sightings[..i];
  }

  /** The loop that keeps the newest key of every infobase. */
  method BuildCompanyIndex(n: Normalisers, rows: seq<Row>) returns (index: map<string, string>)
    ensures index == CompanyIndex(n, rows)
  {
    var newest: map<string, Sighting> := map[];
    ghost var sightings := CompanySightings(n, rows);
    for i := 0 to |rows|
      invariant newest == Newest(sightings[..i])
    {
      NewestNext(sightings, i);
      assert sightings[i] == CompanySighting(n, rows[i]);
      newest := Learn(newest, CompanySighting(n, rows[i]));
    }
    assert sightings[..|rows|] == sightings;
    index := map infobase | infobase in newest :: newest[infobase].key;
  }

  // ----- Document index -----------------------------------------------------------------

  function DocumentMeta(n: Normalisers, row: Row, companies: map<string, string>): Meta {
    Meta(EntityKey(n, row, companies), Field(row, "organization"), Field(row, "department"),
         FirstOf(row, ["doc_id", "document_id"]), FirstOf(row, ["doc_number", "document_number"]),
         FirstOf(row, ["doc_type", "document_type"]), Field(row, "operation_type"),
         FirstOf(row, ["author", "user"]), Field(row, "counterparty"))
  }

  const ID_FIELDS := ["doc_id", "document_id"]
  const NUMBER_FIELDS := ["doc_number", "document_number"]

  /** The key under which `row` is indexed by the given fields, if any. */
  function KeyOf(row: Row, fields: seq<string>): Option<Key> {
    if Field(row, "infobase") == "" || FirstOf(row, fields) == "" then None
    else Some((Field(row, "infobase"), FirstOf(row, fields)))
  }

  datatype Entry = Entry(key: Option<Key>, meta: Meta)

  function Entries(n: Normalisers, rows: seq<Row>, fields: seq<string>, companies: map<string, string>): seq<Entry> {
    seq(|rows|, i requires 0 <= i < |rows| => Entry(KeyOf(rows[i], fields), DocumentMeta(n, rows[i], companies)))
  }

  /** Inserting entries in order: a later entry replaces an earlier one with its key. */
  function LastWins(entries: seq<Entry>): map<Key, Meta> {
    if entries == [] then map[]
    else
      var last := entries[|entries| - 1];
      Remember(LastWins(entries[..|entries| - 1]), last.key, last.meta)
  }

  function Remember(index: map<Key, Meta>, key: Option<Key>, meta: Meta): map<Key, Meta> {
    if key.None? then index else index[key.value := meta]
  }

  ghost predicate IsLastWithKey(entries: seq<Entry>, k: Key, i: int) {
    && 0 <= i < |entries| && entries[i].key == Some(k)
    && forall j :: i < j < |entries| ==> entries[j].key != Some(k)
  }

  /** The index knows exactly the keys that occur, each with its last entry. */
  lemma {:induction false} LastWinsIsLast(entries: seq<Entry>, k: Key)
    ensures k in LastWins(entries) <==> exists i :: 0 <= i < |entries| && entries[i].key == Some(k)
    ensures forall i :: IsLastWithKey(entries, k, i) ==> k in LastWins(entries) && LastWins(entries)[k] == entries[i].meta
  {
    if entries != [] {
      var n := |entries| - 1;
      var front, last := entries[..n], entries[n];
      LastWinsIsLast(front, k);
      assert entries == front + [last];
      if last.key != Some(k) {
        forall i | IsLastWithKey(entries, k, i)
          ensures IsLastWithKey(front, k, i)
        {
        }
        if k in LastWins(front) {
          var i :| 0 <= i < |front| && front[i].key == Some(k);
          assert entries[i].key == Some(k);
        }
      }
    }
  }

  lemma LastWinsNext(entries: seq<Entry>, i: nat)
    requires i < |entries|
    ensures LastWins(entries[..i + 1]) == Remember(LastWins(entries[..i]), entries[i].key, entries[i].meta)
  {
    assert entries[..i + 1][..i] == entries[..i];
  }

  function DocumentIndex(n: Normalisers, rows: seq<Row>, fields: seq<string>, companies: map<string, string>): map<Key, Meta> {
    LastWins(Entries(n, rows, fields, companies))
  }

  /** The loop that fills both indexes in one pass over the ready document rows. */
  method BuildDocumentIndex(n: Normalisers, rows: seq<Row>, companies: map<string, string>)
    returns (byId: map<Key, Meta>, byNumber: map<Key, Meta>)
    ensures byId == DocumentIndex(n, rows, ID_FIELDS, companies)
    ensures byNumber == DocumentIndex(n, rows, NUMBER_FIELDS, companies)
  {
    byId, byNumber := map[], map[];
    ghost var ids, numbers := Entries(n, rows, ID_FIELDS, companies), Entries(n, rows, NUMBER_FIELDS, companies);
    for i := 0 to |rows|
      invariant byId == LastWins(ids[..i])
      invariant byNumber == LastWins(numbers[..i])
    {
      LastWinsNext(ids, i);
      LastWinsNext(numbers, i);
      var meta := DocumentMeta(n, rows[i], companies);
      byId := Remember(byId, KeyOf(rows[i], ID_FIELDS), meta);
      byNumber := Remember(byNumber, KeyOf(rows[i], NUMBER_FIELDS), meta);
    }
    assert ids[..|rows|] == ids && numbers[..|rows|] == numbers;
  }

  // ----- Derived rows -------------------------------------------------------------------

  datatype Indexes = Indexes(companies: map<string, string>, byId: map<Key, Meta>, byNumber: map<Key, Meta>)

  function IndexesOf(n: Normalisers, companyRows: seq<Row>, documentRows: seq<Row>): Indexes {
    var companies := CompanyIndex(n, companyRows);
    Indexes(companies, DocumentIndex(n, documentRows, ID_FIELDS, companies),
            DocumentIndex(n, documentRows, NUMBER_FIELDS, companies))
  }

  function LookupMeta(row: Row, ix: Indexes): Option<Meta> {
    var byId, byNumber := RegistrarKey(row), NumberKey(row);
    if byId in ix.byId then Some(ix.byId[byId])
    else if byNumber in ix.byNumber then Some(ix.byNumber[byNumber])
    else None
  }

  function DocumentEvent(n: Normalisers, row: Row, sourceFile: string, ix: Indexes): Row {
    var ts := Timestamp(n, row, ["ts", "posted_at", "created_at"]);
    var infobase := Field(row, "infobase");
    var documentId := FirstOf(row, ["doc_id", "document_id"]);
    var documentNumber := FirstOf(row, ["doc_number", "document_number"]);
    var reference := FirstOf(row, ["doc_id", "doc_number", "document_id", "document_number"]);
    map["ts" := ts,
        "event_id" := "document_snapshot:" + IdParts([sourceFile, infobase, documentId, documentNumber, ts]),
        "infobase" := infobase,
        "company_entity_key" := EntityKey(n, row, ix.companies),
        "organization" := Field(row, "organization"),
        "department" := Field(row, "department"),
        "document_id" := documentId,
        "document_number" := documentNumber,
        "document_type" := FirstOf(row, ["doc_type", "document_type"]),
        "registrar" := reference,
        "operation_type" := Field(row, "operation_type"),
        "event_kind" := "document_snapshot",
        "user" := FirstOf(row, ["author", "user"]),
        "counterparty" := Field(row, "counterparty"),
        "amount" := Field(row, "amount"),
        "line_no" := "0",
        "evidence_ref" := "document:" + reference]
  }

  function LineNumber(row: Row, index: nat): string {
    if Field(row, "line_no") != "" && AllDigits(Field(row, "line_no")) then Field(row, "line_no")
    else Decimal(index + 1)
  }

  function PostingEvent(n: Normalisers, row: Row, index: nat, sourceFile: string, ix: Indexes): Row {
    var ts := Timestamp(n, row, ["ts"]);
    var infobase := Field(row, "infobase");
    var registrar := Field(row, "registrar");
    var line := LineNumber(row, index);
    var own := Meta(EntityKey(n, row, ix.companies), Field(row, "organization"), Field(row, "department"),
                    registrar, Field(row, "document_number"), Field(row, "document_type"), "",
                    FirstOf(row, ["user", "author"]), Field(row, "counterparty"));
    var meta := match LookupMeta(row, ix) case Some(m) => m case None => own;
    map["ts" := ts,
        "event_id" := "posting:" + IdParts([sourceFile, infobase, registrar, line, ts]),
        "infobase" := infobase,
        "company_entity_key" := meta.companyEntityKey,
        "organization" := meta.organization,
        "department" := meta.department,
        "document_id" := meta.documentId,
        "document_number" := meta.documentNumber,
        "document_type" := meta.documentType,
        "registrar" := registrar,
        "operation_type" := FieldOr(row, "operation_type", meta.operationType),
        "event_kind" := "posting",
        "user" := meta.user,
        "counterparty" := meta.counterparty,
        "debit_account" := FirstOf(row, ["account_dt", "debit_account"]),
        "credit_account" := FirstOf(row, ["account_ct", "credit_account"]),
        "amount" := Field(row, "amount"),
        "line_no" := line,
        "evidence_ref" := "posting:" + registrar + ":" + line]
  }

  function ChangeEvent(n: Normalisers, row: Row, sourceFile: string, ix: Indexes): Row {
    var ts := Timestamp(n, row, ["ts"]);
    var infobase := Field(row, "infobase");
    var objectType := Field(row, "object_type");
    var objectId := Field(row, "object_id");
    var ownId := if objectType == "document" then objectId else Field(row, "document_id");
    var own := Meta(EntityKey(n, row, ix.companies), Field(row, "organization"), "", ownId,
                    Field(row, "document_number"), Field(row, "document_type"), "", "", "");
    var meta := match LookupMeta(row, ix) case Some(m) => m case None => own;
    map["ts" := ts,
        "change_id" := "change:" + IdParts([sourceFile, infobase, objectType, objectId, Field(row, "action"), ts]),
        "infobase" := infobase,
        "company_entity_key" := meta.companyEntityKey,
        "organization" := meta.organization,
        "document_id" := meta.documentId,
        "document_number" := meta.documentNumber,
        "document_type" := meta.documentType,
        "change_kind" := FirstOf(row, ["change_kind", "action", "object_type"]),
        "field_name" := FirstOf(row, ["field_name", "object_type"]),
        "user" := FirstOf(row, ["user", "author"]),
        "before_value" := FirstOf(row, ["before_value", "before_hash"]),
        "after_value" := FirstOf(row, ["after_value", "after_hash"]),
        "risk_tag" := Field(row, "risk_tag"),
        "evidence_ref" := "audit:" + objectType + ":" + objectId]
  }

  function RegistrarKey(row: Row): Key {
    (Field(row, "infobase"), FirstOf(row, ["registrar", "document_id", "doc_id"]))
  }

  function NumberKey(row: Row): Key {
    (Field(row, "infobase"), FirstOf(row, ["document_number", "doc_number"]))
  }

  /** Document row `i` is the one that a row is enriched from: the last with its registrar as id, or, when no document
      has that id, the last with its number. */
  ghost predicate IsDocumentOf(n: Normalisers, row: Row, companies: map<string, string>, documentRows: seq<Row>, i: nat) {
    var ids, numbers := Entries(n, documentRows, ID_FIELDS, companies), Entries(n, documentRows, NUMBER_FIELDS, companies);
    || IsLastWithKey(ids, RegistrarKey(row), i)
    || (NoEntryWith(ids, RegistrarKey(row)) && IsLastWithKey(numbers, NumberKey(row), i))
  }

  ghost predicate NoEntryWith(entries: seq<Entry>, k: Key) {
    forall i :: 0 <= i < |entries| ==> entries[i].key != Some(k)
  }

  lemma LookupFindsDocument(n: Normalisers, row: Row, companyRows: seq<Row>, documentRows: seq<Row>, i: nat)
    requires i < |documentRows| && IsDocumentOf(n, row, CompanyIndex(n, companyRows), documentRows, i)
    ensures LookupMeta(row, IndexesOf(n, companyRows, documentRows))
      == Some(DocumentMeta(n, documentRows[i], CompanyIndex(n, companyRows)))
  {
    hide CompanyIndex, DocumentMeta, KeyOf, LastWins, FirstOf;
    var companies := CompanyIndex(n, companyRows);
    LastWinsIsLast(Entries(n, documentRows, ID_FIELDS, companies), RegistrarKey(row));
    LastWinsIsLast(Entries(n, documentRows, NUMBER_FIELDS, companies), NumberKey(row));
  }

  lemma LookupFindsNothing(n: Normalisers, row: Row, companyRows: seq<Row>, documentRows: seq<Row>)
    requires NoEntryWith(Entries(n, documentRows, ID_FIELDS, CompanyIndex(n, companyRows)), RegistrarKey(row))
    requires NoEntryWith(Entries(n, documentRows, NUMBER_FIELDS, CompanyIndex(n, companyRows)), NumberKey(row))
    ensures LookupMeta(row, IndexesOf(n, companyRows, documentRows)) == None
  {
    hide CompanyIndex, DocumentMeta, KeyOf, LastWins, FirstOf;
    var companies := CompanyIndex(n, companyRows);
    LastWinsIsLast(Entries(n, documentRows, ID_FIELDS, companies), RegistrarKey(row));
    LastWinsIsLast(Entries(n, documentRows, NUMBER_FIELDS, companies), NumberKey(row));
  }

  /** The fields that a posting takes over from a document. */
  predicate TakesOver(n: Normalisers, event: Row, document: Row, companies: map<string, string>) {
    && event.Keys >= {"company_entity_key", "organization", "department", "document_id", "document_number",
                      "document_type", "user", "counterparty"}
    && event["company_entity_key"] == EntityKey(n, document, companies)
    && event["organization"] == Field(document, "organization")
    && event["department"] == Field(document, "department")
    && event["document_id"] == FirstOf(document, ["doc_id", "document_id"])
    && event["document_number"] == FirstOf(document, ["doc_number", "document_number"])
    && event["document_type"] == FirstOf(document, ["doc_type", "document_type"])
    && event["user"] == FirstOf(document, ["author", "user"])
    && event["counterparty"] == Field(document, "counterparty")
  }

  /** The operation is that of the posting, if it names one, and else that of the document. */
  predicate TakesOperation(event: Row, row: Row, document: Row) {
    && "operation_type" in event
    && event["operation_type"] ==
      Field(if Field(row, "operation_type") != "" then row else document, "operation_type")
  }

  lemma PostingFollowsMeta(n: Normalisers, row: Row, index: nat, sourceFile: string, ix: Indexes, document: Row,
                           companies: map<string, string>)
    requires LookupMeta(row, ix) == Some(DocumentMeta(n, document, companies))
    ensures var event := PostingEvent(n, row, index, sourceFile, ix);
      TakesOver(n, event, document, companies) && TakesOperation(event, row, document)
  {
    hide LookupMeta, EntityKey, Field, FirstOf, Written, LineNumber, IdParts;
  }

  /** The event of a posting carries the owner, the names and the number of the last document with its registrar as
      id, or else of the last one with its number. */
  lemma PostingFollowsLastDocument(n: Normalisers, row: Row, index: nat, sourceFile: string, companyRows: seq<Row>,
                                   documentRows: seq<Row>, i: nat)
    requires i < |documentRows| && IsDocumentOf(n, row, CompanyIndex(n, companyRows), documentRows, i)
    ensures var event := PostingEvent(n, row, index, sourceFile, IndexesOf(n, companyRows, documentRows));
      && TakesOver(n, event, documentRows[i], CompanyIndex(n, companyRows))
      && TakesOperation(event, row, documentRows[i])
  {
    hide LookupMeta, IndexesOf, CompanyIndex, PostingEvent, DocumentMeta, TakesOver, TakesOperation;
    LookupFindsDocument(n, row, companyRows, documentRows, i);
    PostingFollowsMeta(n, row, index, sourceFile, IndexesOf(n, companyRows, documentRows), documentRows[i],
                       CompanyIndex(n, companyRows));
  }

  /** The same fields as the posting row gives them. */
  predicate SpeaksForItself(n: Normalisers, event: Row, row: Row, companies: map<string, string>) {
    && event.Keys >= {"company_entity_key", "organization", "department", "document_id", "document_number",
                      "document_type", "user", "counterparty", "operation_type"}
    && event["operation_type"] == Field(row, "operation_type")
    && event["company_entity_key"] == EntityKey(n, row, companies)
    && event["organization"] == Field(row, "organization")
    && event["department"] == Field(row, "department")
    && event["document_id"] == Field(row, "registrar")
    && event["document_number"] == Field(row, "document_number")
    && event["document_type"] == Field(row, "document_type")
    && event["user"] == FirstOf(row, ["user", "author"])
    && event["counterparty"] == Field(row, "counterparty")
  }

  lemma OwnFields(n: Normalisers, row: Row, index: nat, sourceFile: string, ix: Indexes)
    requires LookupMeta(row, ix) == None
    ensures SpeaksForItself(n, PostingEvent(n, row, index, sourceFile, ix), row, ix.companies)
  {
    hide LookupMeta, EntityKey, Field, FirstOf, Written, LineNumber, IdParts;
  }

  /** Without such a document it carries what the posting row says itself. */
  lemma PostingWithoutDocument(n: Normalisers, row: Row, index: nat, sourceFile: string, companyRows: seq<Row>,
                               documentRows: seq<Row>)
    requires NoEntryWith(Entries(n, documentRows, ID_FIELDS, CompanyIndex(n, companyRows)), RegistrarKey(row))
    requires NoEntryWith(Entries(n, documentRows, NUMBER_FIELDS, CompanyIndex(n, companyRows)), NumberKey(row))
    ensures SpeaksForItself(n, PostingEvent(n, row, index, sourceFile, IndexesOf(n, companyRows, documentRows)), row,
                            CompanyIndex(n, companyRows))
  {
    hide LookupMeta, IndexesOf, CompanyIndex, PostingEvent, SpeaksForItself, Entries, NoEntryWith;
    LookupFindsNothing(n, row, companyRows, documentRows);
    IndexedCompanies(n, companyRows, documentRows);
    OwnFields(n, row, index, sourceFile, IndexesOf(n, companyRows, documentRows));
  }

  lemma IndexedCompanies(n: Normalisers, companyRows: seq<Row>, documentRows: seq<Row>)
    ensures IndexesOf(n, companyRows, documentRows).companies == CompanyIndex(n, companyRows)
  {
  }

  /** What a posting's event says of the posting itself. */
  predicate KeepsPosting(n: Normalisers, event: Row, row: Row, index: nat, sourceFile: string) {
    var line := if Field(row, "line_no") != "" && AllDigits(Field(row, "line_no")) then Field(row, "line_no")
      else Decimal(index + 1);
    var parts := [sourceFile, Field(row, "infobase"), Field(row, "registrar"), line, Timestamp(n, row, ["ts"])];
    && event.Keys >= {"ts", "event_id", "infobase", "registrar", "event_kind", "debit_account", "credit_account",
                      "amount", "line_no", "evidence_ref"}
    && event["ts"] == Timestamp(n, row, ["ts"])
    && event["event_id"] == "posting:" + IdParts(parts)
    && event["infobase"] == Field(row, "infobase")
    && event["registrar"] == Field(row, "registrar")
    && event["event_kind"] == "posting"
    && event["debit_account"] == FirstOf(row, ["account_dt", "debit_account"])
    && event["credit_account"] == FirstOf(row, ["account_ct", "credit_account"])
    && event["amount"] == Field(row, "amount")
    && event["line_no"] == line
    && event["evidence_ref"] == "posting:" + Field(row, "registrar") + ":" + line
  }

  lemma PostingKeepsItsOwn(n: Normalisers, row: Row, index: nat, sourceFile: string, ix: Indexes)
    ensures KeepsPosting(n, PostingEvent(n, row, index, sourceFile, ix), row, index, sourceFile)
  {
    hide LookupMeta, EntityKey, Field, FirstOf, FieldOr, Written, IdParts, AllDigits, Decimal;
  }

  /** What a document's event says of the document. */
  predicate KeepsDocument(n: Normalisers, event: Row, row: Row, sourceFile: string, companies: map<string, string>) {
    var ts := Timestamp(n, row, ["ts", "posted_at", "created_at"]);
    var parts := [sourceFile, Field(row, "infobase"), FirstOf(row, ["doc_id", "document_id"]),
                  FirstOf(row, ["doc_number", "document_number"]), ts];
    var reference := FirstOf(row, ["doc_id", "doc_number", "document_id", "document_number"]);
    && TakesOver(n, event, row, companies)
    && event.Keys >= {"ts", "event_id", "infobase", "registrar", "operation_type", "event_kind", "amount", "line_no",
                      "evidence_ref"}
    && event["ts"] == ts
    && event["event_id"] == "document_snapshot:" + IdParts(parts)
    && event["infobase"] == Field(row, "infobase")
    && event["registrar"] == reference
    && event["operation_type"] == Field(row, "operation_type")
    && event["event_kind"] == "document_snapshot"
    && event["amount"] == Field(row, "amount")
    && event["line_no"] == "0"
    && event["evidence_ref"] == "document:" + reference
  }

  lemma DocumentEventKeeps(n: Normalisers, row: Row, sourceFile: string, ix: Indexes)
    ensures KeepsDocument(n, DocumentEvent(n, row, sourceFile, ix), row, sourceFile, ix.companies)
  {
    hide EntityKey, Field, FirstOf, Written, IdParts;
  }

  /** What a change takes over from a document. */
  predicate ChangeTakesOver(n: Normalisers, change: Row, document: Row, companies: map<string, string>) {
    && change.Keys >= {"company_entity_key", "organization", "document_id", "document_number", "document_type"}
    && change["company_entity_key"] == EntityKey(n, document, companies)
    && change["organization"] == Field(document, "organization")
    && change["document_id"] == FirstOf(document, ["doc_id", "document_id"])
    && change["document_number"] == FirstOf(document, ["doc_number", "document_number"])
    && change["document_type"] == FirstOf(document, ["doc_type", "document_type"])
  }

  /** The same fields as the audit row gives them. */
  predicate ChangeSpeaksForItself(n: Normalisers, change: Row, row: Row, companies: map<string, string>) {
    && change.Keys >= {"company_entity_key", "organization", "document_id", "document_number", "document_type"}
    && change["company_entity_key"] == EntityKey(n, row, companies)
    && change["organization"] == Field(row, "organization")
    && change["document_id"] == Field(row, if Field(row, "object_type") == "document" then "object_id" else "document_id")
    && change["document_number"] == Field(row, "document_number")
    && change["document_type"] == Field(row, "document_type")
  }

  /** What a change says of the audit row in any case. */
  predicate KeepsChange(n: Normalisers, change: Row, row: Row, sourceFile: string) {
    var parts := [sourceFile, Field(row, "infobase"), Field(row, "object_type"), Field(row, "object_id"),
                  Field(row, "action"), Timestamp(n, row, ["ts"])];
    && change.Keys >= {"ts", "change_id", "infobase", "change_kind", "field_name", "user", "before_value", "after_value",
                       "risk_tag", "evidence_ref"}
    && change["ts"] == Timestamp(n, row, ["ts"])
    && change["change_id"] == "change:" + IdParts(parts)
    && change["infobase"] == Field(row, "infobase")
    && change["change_kind"] == FirstOf(row, ["change_kind", "action", "object_type"])
    && change["field_name"] == FirstOf(row, ["field_name", "object_type"])
    && change["user"] == FirstOf(row, ["user", "author"])
    && change["before_value"] == FirstOf(row, ["before_value", "before_hash"])
    && change["after_value"] == FirstOf(row, ["after_value", "after_hash"])
    && change["risk_tag"] == Field(row, "risk_tag")
    && change["evidence_ref"] == "audit:" + Field(row, "object_type") + ":" + Field(row, "object_id")
  }

  lemma ChangeKeepsItsOwn(n: Normalisers, row: Row, sourceFile: string, ix: Indexes)
    ensures KeepsChange(n, ChangeEvent(n, row, sourceFile, ix), row, sourceFile)
  {
    hide LookupMeta, EntityKey, Field, FirstOf, Written, IdParts;
  }

  lemma ChangeOwnFields(n: Normalisers, row: Row, sourceFile: string, ix: Indexes)
    requires LookupMeta(row, ix) == None
    ensures ChangeSpeaksForItself(n, ChangeEvent(n, row, sourceFile, ix), row, ix.companies)
  {
    hide LookupMeta, EntityKey, Field, FirstOf, Written, IdParts;
  }

  lemma ChangeFollowsMeta(n: Normalisers, row: Row, sourceFile: string, ix: Indexes, document: Row,
                          companies: map<string, string>)
    requires LookupMeta(row, ix) == Some(DocumentMeta(n, document, companies))
    ensures ChangeTakesOver(n, ChangeEvent(n, row, sourceFile, ix), document, companies)
  {
    hide LookupMeta, EntityKey, Field, FirstOf, Written, IdParts;
  }
}
