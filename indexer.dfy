/** The search indexer's construction of an Elasticsearch bulk body from the generated CSV
    file (`SearchEngineIndexer.__create_documents` and its two templates). The file check,
    the CSV reading and the clock are inputs. */
module Indexer {
  import opened Wrappers

  /** The JSON-like values the bulk body is made of; `JTime` is a `datetime` value. */
  datatype Json = JNull | JStr(s: string) | JTime(instant: nat) | JObj(fields: map<string, Json>)

  /** One CSV row read with the field names `documentId` and `documentText`; a row with a
      single field has no text, which `DictReader` fills in with `None`. */
  datatype Row = Row(documentId: string, documentText: Option<string>)

  /** `__create_base_document`. */
  function CreateBaseDocument(): (r: Json)
    ensures r.JObj? && r.fields.Keys == {"text", "timestamp"}
    ensures r.fields["text"] == JStr("") && r.fields["timestamp"] == JStr("")
  {
    JObj(map["text" := JStr(""), "timestamp" := JStr("")])
  }

  /** `__create_indexer_model`. */
  function CreateIndexerModel(): (r: Json)
    ensures r.JObj? && r.fields.Keys == {"index"}
    ensures var inner := r.fields["index"];
      && inner.JObj? && inner.fields.Keys == {"_id", "_type", "_index"}
      && forall k :: k in inner.fields ==> inner.fields[k] == JStr("")
  {
    JObj(map["index" := JObj(map["_id" := JStr(""), "_type" := JStr(""), "_index" := JStr("")])])
  }

  /** `obj[key] = value` on a dictionary. */
  function SetField(obj: Json, key: string, value: Json): (r: Json)
    requires obj.JObj?
    ensures r.JObj? && r.fields.Keys == obj.fields.Keys + {key}
    ensures r.fields[key] == value
    ensures forall k :: k in obj.fields && k != key ==> r.fields[k] == obj.fields[k]
  {
    JObj(obj.fields[key := value])
  }

  /** `obj[outer][key] = value` on a dictionary holding a dictionary under `outer`. */
  function SetNested(obj: Json, outer: string, key: string, value: Json): (r: Json)
    requires obj.JObj? && outer in obj.fields && obj.fields[outer].JObj?
    ensures r.JObj? && r.fields.Keys == obj.fields.Keys
    ensures r.fields[outer] == SetField(obj.fields[outer], key, value)
    ensures forall k :: k in obj.fields && k != outer ==> r.fields[k] == obj.fields[k]
  {
    SetField(obj, outer, SetField(obj.fields[outer], key, value))
  }

  /** The `None` a missing text becomes. */
  function TextValue(text: Option<string>): Json
  {
    match text
    case None => JNull
    case Some(t) => JStr(t)
  }

  /** The bulk action for a row: index `indexName`, id `documentId`, type `document`. */
  function Action(indexName: string, documentId: string): Json
  {
    JObj(map["index" := JObj(map["_id" := JStr(documentId), "_type" := JStr("document"),
                                 "_index" := JStr(indexName)])])
  }

  /** The document for a row, stamped at `instant`. */
  function Document(text: Option<string>, instant: nat): Json
  {
    JObj(map["text" := TextValue(text), "timestamp" := JTime(instant)])
  }

  /** Filling the templates field by field, in the loop's order, gives exactly the action
      and the document: no template field is left over and none is added. */
  lemma TemplatesFilled(indexName: string, row: Row, instant: nat)
    ensures var m := SetNested(SetNested(SetNested(CreateIndexerModel(), "index", "_index", JStr(indexName)),
                                         "index", "_id", JStr(row.documentId)),
                               "index", "_type", JStr("document"));
      m == Action(indexName, row.documentId)
    ensures SetField(SetField(CreateBaseDocument(), "text", TextValue(row.documentText)), "timestamp", JTime(instant))
            == Document(row.documentText, instant)
  {
    var m1 := SetNested(CreateIndexerModel(), "index", "_index", JStr(indexName));
    var m2 := SetNested(m1, "index", "_id", JStr(row.documentId));
    var m3 := SetNested(m2, "index", "_type", JStr("document"));
    assert m3.fields["index"].fields == Action(indexName, row.documentId).fields["index"].fields;
    assert m3.fields == Action(indexName, row.documentId).fields;
    var d := SetField(SetField(CreateBaseDocument(), "text", TextValue(row.documentText)), "timestamp", JTime(instant));
    assert d.fields == Document(row.documentText, instant).fields;
  }

  /** Every action holds the single key `index`, mapping to exactly `_id`, `_type` and
      `_index`; every document has exactly the keys `text` and `timestamp`. */
  lemma EntryKeys(indexName: string, row: Row, instant: nat)
    ensures Action(indexName, row.documentId).fields.Keys == {"index"}
    ensures Action(indexName, row.documentId).fields["index"].fields.Keys == {"_id", "_type", "_index"}
    ensures Document(row.documentText, instant).fields.Keys == {"text", "timestamp"}
  {
  }

  /** The row loop of `__create_documents` (indexer.py:72-93). A missing file gives an
      empty body. Otherwise each row, in order, appends its action and then its document,
      both built from fresh templates; the `i`-th `datetime.now()` returns `clock(i)`. A
      reader error ends the loop and keeps what was appended: that is the body of the rows
      read before it, which is what `rows` then holds. */
  method CreateDocuments(fileExists: bool, rows: seq<Row>, indexName: string, clock: nat -> nat)
    returns (bulkData: seq<Json>)
    ensures !fileExists ==> bulkData == []
    ensures fileExists ==>
      && |bulkData| == 2 * |rows|
      && forall i :: 0 <= i < |rows| ==>
           && bulkData[2 * i] == Action(indexName, rows[i].documentId)
           && bulkData[2 * i + 1] == Document(rows[i].documentText, clock(i))
  {
    bulkData := [];
    if !fileExists {
      return;
    }
    for i := 0 to |rows|
      invariant |bulkData| == 2 * i
      invariant forall k :: 0 <= k < i ==>
        && bulkData[2 * k] == Action(indexName, rows[k].documentId)
        && bulkData[2 * k + 1] == Document(rows[k].documentText, clock(k))
    {
      var row := rows[i];
      var searchIndexModel := CreateIndexerModel();
      var docModel := CreateBaseDocument();
      searchIndexModel := SetNested(searchIndexModel, "index", "_index", JStr(indexName));
      searchIndexModel := SetNested(searchIndexModel, "index", "_id", JStr(row.documentId));
      searchIndexModel := SetNested(searchIndexModel, "index", "_type", JStr("document"));
      docModel := SetField(docModel, "text", TextValue(row.documentText));
      docModel := SetField(docModel, "timestamp", JTime(clock(i)));
      TemplatesFilled(indexName, row, clock(i));
      bulkData := bulkData + [searchIndexModel, docModel];
    }
  }
}
