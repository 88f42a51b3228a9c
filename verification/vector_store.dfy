/**
 * The schema store (`initialize_schema_vector_db`, `query_schema`): the
 * schema record becomes one document per table description and per
 * usable column, which are embedded and added to a collection once; the
 * collection is later searched for the parts that best match a question.
 *
 * The embedding providers and the vector database are not modelled. An
 * embedder is a function from the texts to embed to the vectors it gave
 * back (None when it failed), and a collection is the sequence of its
 * entries.
 */
module VectorStoreService {
  import opened Data
  import opened Text

  /** One column of the schema record; a key missing from the record is None. */
  datatype ColumnSpec = ColumnSpec(name: Option<string>, colType: Option<string>, description: Option<string>)

  /** The schema record; a key missing from it is None. */
  datatype SchemaSpec = SchemaSpec(
    tableName: Option<string>, description: Option<string>, columns: Option<seq<ColumnSpec>>)

  const DefaultTableName := "unknown_table"

  /** The table name, defaulting to "unknown_table". */
  function TableName(schema: SchemaSpec): string {
    schema.tableName.GetOr(DefaultTableName)
  }

  /** The columns, defaulting to none. */
  function Columns(schema: SchemaSpec): seq<ColumnSpec> {
    schema.columns.GetOr([])
  }

  /** The `type` field of a document's metadata. */
  datatype DocKind = TableDescription | ColumnInfo

  /** The metadata stored next to a document; only column documents name a column. */
  datatype Metadata = Metadata(table: string, column: Option<string>, kind: DocKind)

  /** The three parallel lists handed to the collection. */
  datatype DocBatch = DocBatch(documents: seq<string>, metadatas: seq<Metadata>, ids: seq<string>) {
    predicate Aligned() {
      |documents| == |metadatas| == |ids|
    }
  }

  const IdPrefix := "table_"
  const ColumnIdInfix := "_col_"

  function TableId(table: string): string {
    IdPrefix + table
  }

  function ColumnId(table: string, column: string): string {
    IdPrefix + table + ColumnIdInfix + column
  }

  function TableDoc(table: string, description: string): string {
    "Table: " + table + ". Description: " + description
  }

  /** The text of a column document: the description sentence is added only when there is a description. */
  function ColumnDoc(table: string, column: string, colType: string, description: Option<string>): string {
    var base := "Table: " + table + ". Column: " + column + " (Type: " + colType + ").";
    if Truthy(description) then base + " Description: " + description.value else base
  }

  /** A column yields a document only when it has a non-empty name and a non-empty type. */
  predicate Usable(col: ColumnSpec) {
    Truthy(col.name) && Truthy(col.colType)
  }

  /** The usable columns in their original order. */
  function UsableColumns(cols: seq<ColumnSpec>): (r: seq<ColumnSpec>)
    ensures |r| <= |cols|
    ensures forall k | 0 <= k < |r| :: Usable(r[k]) && r[k] in cols
    ensures forall k | 0 <= k < |cols| :: Usable(cols[k]) ==> cols[k] in r
  {
    if |cols| == 0 then []
    else
      var init := UsableColumns(cols[..|cols| - 1]);
      assert forall k | 0 <= k < |cols| - 1 :: cols[..|cols| - 1][k] == cols[k];
      if Usable(cols[|cols| - 1]) then init + [cols[|cols| - 1]] else init
  }

  /** Filtering a concatenation filters each part, keeping their order. */
  lemma {:induction false} UsableColumnsAppend(a: seq<ColumnSpec>, b: seq<ColumnSpec>)
    ensures UsableColumns(a + b) == UsableColumns(a) + UsableColumns(b)
    decreases |b|
  {
    if |b| == 0 {
      assert a + b == a;
    } else {
      var ab := a + b;
      assert ab[..|ab| - 1] == a + b[..|b| - 1];
      assert ab[|ab| - 1] == b[|b| - 1];
      UsableColumnsAppend(a, b[..|b| - 1]);
    }
  }

  /** A single column is kept, once, exactly when it is usable. */
  lemma UsableColumnsSingle(c: ColumnSpec)
    ensures UsableColumns([c]) == if Usable(c) then [c] else []
  {
    assert [c][..0] == [];
  }

  /** The documents of one usable column. */
  function ColumnBatch(table: string, col: ColumnSpec): DocBatch
    requires Usable(col)
  {
    DocBatch(
      [ColumnDoc(table, col.name.value, col.colType.value, col.description)],
      [Metadata(table, Some(col.name.value), ColumnInfo)],
      [ColumnId(table, col.name.value)])
  }

  function Concat(a: DocBatch, b: DocBatch): DocBatch {
    DocBatch(a.documents + b.documents, a.metadatas + b.metadatas, a.ids + b.ids)
  }

  /**
   * The column documents, built by walking the columns in order and
   * appending one entry per usable column: entry `k` describes the `k`-th
   * usable column.
   */
  function ColumnDocs(table: string, cols: seq<ColumnSpec>): (b: DocBatch)
    ensures b.Aligned() && |b.ids| == |UsableColumns(cols)|
    ensures forall k | 0 <= k < |b.ids| ::
      var col := UsableColumns(cols)[k];
      && b.documents[k] == ColumnDoc(table, col.name.value, col.colType.value, col.description)
      && b.metadatas[k] == Metadata(table, Some(col.name.value), ColumnInfo)
      && b.ids[k] == ColumnId(table, col.name.value)
  {
    if |cols| == 0 then DocBatch([], [], [])
    else
      var init := ColumnDocs(table, cols[..|cols| - 1]);
      var col := cols[|cols| - 1];
      if Usable(col) then Concat(init, ColumnBatch(table, col)) else init
  }

  /** Whether the record yields a table document (its description is non-empty). */
  predicate HasTableDoc(schema: SchemaSpec) {
    Truthy(schema.description)
  }

  /**
   * The documents derived from the schema record: the table document first
   * when there is a description, then one per usable column, in order.
   */
  function BuildDocuments(schema: SchemaSpec): (b: DocBatch)
    ensures b.Aligned()
    ensures |b.ids| == (if HasTableDoc(schema) then 1 else 0) + |UsableColumns(Columns(schema))|
    ensures HasTableDoc(schema) ==>
      && b.documents[0] == TableDoc(TableName(schema), schema.description.value)
      && b.metadatas[0] == Metadata(TableName(schema), None, TableDescription)
      && b.ids[0] == TableId(TableName(schema))
    ensures
      var offset := if HasTableDoc(schema) then 1 else 0;
      forall k | 0 <= k < |UsableColumns(Columns(schema))| ::
        var col := UsableColumns(Columns(schema))[k];
        && b.documents[offset + k] == ColumnDoc(TableName(schema), col.name.value, col.colType.value, col.description)
        && b.metadatas[offset + k] == Metadata(TableName(schema), Some(col.name.value), ColumnInfo)
        && b.ids[offset + k] == ColumnId(TableName(schema), col.name.value)
  {
    var table := TableName(schema);
    var columns := ColumnDocs(table, Columns(schema));
    if HasTableDoc(schema) then
      Concat(DocBatch([TableDoc(table, schema.description.value)], [Metadata(table, None, TableDescription)],
                      [TableId(table)]), columns)
    else columns
  }

  /** Every document belongs to the schema's table, and only the first can describe the table itself. */
  lemma BuildDocumentsMetadata(schema: SchemaSpec)
    ensures var b := BuildDocuments(schema);
      forall k | 0 <= k < |b.metadatas| ::
        && b.metadatas[k].table == TableName(schema)
        && (b.metadatas[k].kind == TableDescription <==> k == 0 && HasTableDoc(schema))
  {
    var b := BuildDocuments(schema);
    forall k | 0 <= k < |b.metadatas|
      ensures b.metadatas[k].table == TableName(schema)
      ensures b.metadatas[k].kind == TableDescription <==> k == 0 && HasTableDoc(schema)
    {
      MetadataAt(schema, k);
    }
  }

  /** The metadata of entry `k`: the table description first, when there is one, then column entries. */
  lemma MetadataAt(schema: SchemaSpec, k: int)
    requires 0 <= k < |BuildDocuments(schema).metadatas|
    ensures k == 0 && HasTableDoc(schema) ==>
      BuildDocuments(schema).metadatas[k] == Metadata(TableName(schema), None, TableDescription)
    ensures !(k == 0 && HasTableDoc(schema)) ==>
      exists c :: BuildDocuments(schema).metadatas[k] == Metadata(TableName(schema), Some(c), ColumnInfo)
  {
    var b := BuildDocuments(schema);
    var cols := UsableColumns(Columns(schema));
    var offset := if HasTableDoc(schema) then 1 else 0;
    if k >= offset {
      var m := k - offset;
      assert b.metadatas[offset + m] == Metadata(TableName(schema), Some(cols[m].name.value), ColumnInfo);
    }
  }

  /** Column ids of one table determine the column. */
  lemma ColumnIdInjective(table: string, c1: string, c2: string)
    requires ColumnId(table, c1) == ColumnId(table, c2)
    ensures c1 == c2
  {
    var n := |IdPrefix + table + ColumnIdInfix|;
    assert ColumnId(table, c1)[n..] == c1;
    assert ColumnId(table, c2)[n..] == c2;
  }

  /** Whether the usable columns have pairwise different names. */
  predicate DistinctNames(cols: seq<ColumnSpec>) {
    forall i, j | 0 <= i < j < |cols| :: cols[i].name != cols[j].name
  }

  /** When the usable columns have different names, every document gets a different id. */
  lemma IdsUnique(schema: SchemaSpec)
    requires DistinctNames(UsableColumns(Columns(schema)))
    ensures var ids := BuildDocuments(schema).ids;
      forall i, j | 0 <= i < j < |ids| :: ids[i] != ids[j]
  {
    var ids := BuildDocuments(schema).ids;
    forall i, j | 0 <= i < j < |ids|
      ensures ids[i] != ids[j]
    {
      IdsDiffer(schema, i, j);
    }
  }

  lemma IdsDiffer(schema: SchemaSpec, i: int, j: int)
    requires DistinctNames(UsableColumns(Columns(schema)))
    requires 0 <= i < j < |BuildDocuments(schema).ids|
    ensures BuildDocuments(schema).ids[i] != BuildDocuments(schema).ids[j]
  {
    var table := TableName(schema);
    var cols := UsableColumns(Columns(schema));
    var offset := if HasTableDoc(schema) then 1 else 0;
    var cj := cols[j - offset];
    IdAt(schema, j);
    IdAt(schema, i);
    if i < offset {
      TableIdShorter(table, cj.name.value);
    } else {
      var ci := cols[i - offset];
      assert ci.name != cj.name;
      if ColumnId(table, ci.name.value) == ColumnId(table, cj.name.value) {
        ColumnIdInjective(table, ci.name.value, cj.name.value);
      }
    }
  }

  /** The id at a position: the table id first when there is a description, then the column ids. */
  lemma IdAt(schema: SchemaSpec, k: int)
    requires 0 <= k < |BuildDocuments(schema).ids|
    ensures
      var offset := if HasTableDoc(schema) then 1 else 0;
      && (k < offset ==> BuildDocuments(schema).ids[k] == TableId(TableName(schema)))
      && (k >= offset ==>
            && k - offset < |UsableColumns(Columns(schema))|
            && BuildDocuments(schema).ids[k] ==
               ColumnId(TableName(schema), UsableColumns(Columns(schema))[k - offset].name.value))
  {
    var b := BuildDocuments(schema);
    var cols := UsableColumns(Columns(schema));
    var offset := if HasTableDoc(schema) then 1 else 0;
    if k >= offset {
      var m := k - offset;
      assert m < |cols|;
      assert b.ids[offset + m] == ColumnId(TableName(schema), cols[m].name.value);
    } else {
      assert b.ids[0] == TableId(TableName(schema));
    }
  }

  /** A table's own id is shorter than the id of any of its columns. */
  lemma TableIdShorter(table: string, column: string)
    ensures |TableId(table)| < |ColumnId(table, column)|
  {
  }

  /** A column without a name or a type contributes nothing. */
  lemma UnusableColumnSkipped(schema: SchemaSpec, col: ColumnSpec)
    requires !Usable(col)
    ensures BuildDocuments(schema.(columns := Some(Columns(schema) + [col]))) == BuildDocuments(schema)
  {
    var cols := Columns(schema) + [col];
    assert cols[..|cols| - 1] == Columns(schema);
  }

  type Embedding = seq<real>

  /** The two embedding providers: the primary one and the local fallback. */
  datatype Embedder = Gemini | SentenceTransformer

  /** One stored document with its vector, metadata and id. */
  datatype Entry = Entry(document: string, embedding: Embedding, metadata: Metadata, id: string)

  /** The entries for a batch and one vector per document, index by index. */
  function Entries(batch: DocBatch, vectors: seq<Embedding>): (r: seq<Entry>)
    requires batch.Aligned() && |vectors| == |batch.documents|
    ensures |r| == |batch.documents|
    ensures forall k | 0 <= k < |r| ::
      r[k] == Entry(batch.documents[k], vectors[k], batch.metadatas[k], batch.ids[k])
  {
    seq(|vectors|, k requires 0 <= k < |vectors| =>
      Entry(batch.documents[k], vectors[k], batch.metadatas[k], batch.ids[k]))
  }

  /** An embedding batch is usable when there is one vector per document. */
  predicate Fits(vectors: Option<seq<Embedding>>, documents: seq<string>) {
    vectors.Some? && |vectors.value| == |documents|
  }

  /**
   * What initialization leaves behind: the collection (None when it could
   * not be opened or created) and the embedders that were called, in order.
   */
  datatype InitResult = InitResult(collection: Option<seq<Entry>>, embedCalls: seq<Embedder>)

  /**
   * `initialize_schema_vector_db`. `store` is what opening or creating the
   * collection gave (None when that raised; a created collection is empty),
   * `primary` and `fallback` are the two embedders, and `addAccepted` says
   * whether the collection accepted the insertion (it raises otherwise).
   */
  function InitializeSchemaStore(
    store: Option<seq<Entry>>, schema: SchemaSpec,
    primary: seq<string> -> Option<seq<Embedding>>, fallback: seq<string> -> Option<seq<Embedding>>,
    addAccepted: bool): (r: InitResult)
    // a populated collection is left alone, without embedding anything
    ensures store.Some? && |store.value| > 0 ==> r == InitResult(store, [])
    // without documents nothing is embedded or inserted
    ensures |BuildDocuments(schema).documents| == 0 ==> r == InitResult(store, [])
    // an empty collection with documents to store always calls the primary embedder first
    ensures r.embedCalls != [] <==> store == Some([]) && |BuildDocuments(schema).documents| > 0
    ensures r.embedCalls != [] ==> r.embedCalls[0] == Gemini
    // the fallback is tried once, and only after the primary embedder failed
    ensures r.embedCalls in [[], [Gemini], [Gemini, SentenceTransformer]]
    ensures r.embedCalls == [Gemini, SentenceTransformer] <==>
      && store == Some([]) && |BuildDocuments(schema).documents| > 0
      && !Fits(primary(BuildDocuments(schema).documents), BuildDocuments(schema).documents)
    // the collection changes only by filling an empty one with a batch that has one vector per document
    ensures r.collection != store ==>
      && store == Some([]) && addAccepted
      && var docs := BuildDocuments(schema);
      && (|| (Fits(primary(docs.documents), docs.documents)
              && r.collection == Some(Entries(docs, primary(docs.documents).value)))
          || (!Fits(primary(docs.documents), docs.documents) && Fits(fallback(docs.documents), docs.documents)
              && r.collection == Some(Entries(docs, fallback(docs.documents).value))))
    // and it does change when some embedder fits and the insertion is accepted
    ensures
      var docs := BuildDocuments(schema).documents;
      (store == Some([]) && addAccepted && |docs| > 0 && (Fits(primary(docs), docs) || Fits(fallback(docs), docs)))
      ==> r.collection.Some? && |r.collection.value| == |docs|
  {
    if store.None? then InitResult(None, [])
    else if |store.value| > 0 then InitResult(store, [])
    else
      var docs := BuildDocuments(schema);
      if |docs.documents| == 0 then InitResult(store, [])
      else
        var first := primary(docs.documents);
        if Fits(first, docs.documents) then
          InitResult(if addAccepted then Some(Entries(docs, first.value)) else store, [Gemini])
        else
          var second := fallback(docs.documents);
          if Fits(second, docs.documents) then
            InitResult(if addAccepted then Some(Entries(docs, second.value)) else store,
                       [Gemini, SentenceTransformer])
          else InitResult(store, [Gemini, SentenceTransformer])
  }

  /**
   * Initializing twice with the same embedder and insertion outcomes is
   * initializing once: the second run finds the collection either
   * populated or exactly as the first run found it.
   */
  lemma InitializeIdempotent(
    store: Option<seq<Entry>>, schema: SchemaSpec,
    primary: seq<string> -> Option<seq<Embedding>>, fallback: seq<string> -> Option<seq<Embedding>>,
    addAccepted: bool)
    ensures
      var once := InitializeSchemaStore(store, schema, primary, fallback, addAccepted);
      InitializeSchemaStore(once.collection, schema, primary, fallback, addAccepted).collection == once.collection
  {
  }

  /**
   * Once the collection has been filled, a further run, whatever its
   * embedders and insertion do, embeds nothing and leaves it as it is.
   */
  lemma InitializeAfterPopulateEmbedsNothing(
    store: Option<seq<Entry>>, schema: SchemaSpec,
    primary: seq<string> -> Option<seq<Embedding>>, fallback: seq<string> -> Option<seq<Embedding>>,
    addAccepted: bool,
    primary2: seq<string> -> Option<seq<Embedding>>, fallback2: seq<string> -> Option<seq<Embedding>>,
    addAccepted2: bool)
    requires InitializeSchemaStore(store, schema, primary, fallback, addAccepted).collection != store
    ensures
      var once := InitializeSchemaStore(store, schema, primary, fallback, addAccepted);
      InitializeSchemaStore(once.collection, schema, primary2, fallback2, addAccepted2) == InitResult(once.collection, [])
  {
  }

  /** A populated collection survives any run unchanged, without an embedding call. */
  lemma PopulatedSurvivesAnyRun(
    store: Option<seq<Entry>>, schema: SchemaSpec,
    primary: seq<string> -> Option<seq<Embedding>>, fallback: seq<string> -> Option<seq<Embedding>>,
    addAccepted: bool,
    primary2: seq<string> -> Option<seq<Embedding>>, fallback2: seq<string> -> Option<seq<Embedding>>,
    addAccepted2: bool)
    requires
      var once := InitializeSchemaStore(store, schema, primary, fallback, addAccepted);
      once.collection.Some? && |once.collection.value| > 0
    ensures
      var once := InitializeSchemaStore(store, schema, primary, fallback, addAccepted);
      InitializeSchemaStore(once.collection, schema, primary2, fallback2, addAccepted2) == InitResult(once.collection, [])
  {
  }

  /**
   * A run whose embedders both fail leaves an empty collection empty, and a
   * later run whose primary embedder succeeds fills it: with embedder
   * outcomes that change between runs, initialization is not idempotent.
   */
  lemma SecondRunCanDiffer(schema: SchemaSpec, vectors: seq<Embedding>)
    requires |BuildDocuments(schema).documents| > 0 && |vectors| == |BuildDocuments(schema).documents|
    ensures
      var failing := (texts: seq<string>) => None;
      var working := (texts: seq<string>) => Some(vectors);
      var once := InitializeSchemaStore(Some([]), schema, failing, failing, true);
      && once.collection == Some([])
      && InitializeSchemaStore(once.collection, schema, working, failing, true).collection
         == Some(Entries(BuildDocuments(schema), vectors))
  {
    var failing := (texts: seq<string>) => None;
    var working := (texts: seq<string>) => Some(vectors);
    assert !Fits(failing(BuildDocuments(schema).documents), BuildDocuments(schema).documents);
    assert Fits(working(BuildDocuments(schema).documents), BuildDocuments(schema).documents);
  }

  /** What searching the collection gave: an exception, or the response with its `documents` field (None when absent). */
  datatype SearchOutcome = SearchRaised | SearchAnswered(documents: Option<seq<seq<string>>>)

  /**
   * `query_schema`. `collection` is None when the collection does not
   * exist, `embed` is the embedder applied to the one-element list holding
   * the question, and `search` is the database's nearest-neighbour query.
   */
  function QuerySchema(
    collection: Option<seq<Entry>>, question: string, n: int,
    embed: seq<string> -> Option<seq<Embedding>>,
    search: (seq<Entry>, seq<Embedding>, int) -> SearchOutcome): (r: seq<string>)
    // every failure gives the empty list
    ensures collection.None? ==> r == []
    ensures embed([question]).None? || embed([question]) == Some([]) ==> r == []
    ensures (collection.Some? && embed([question]).Some? &&
             search(collection.value, embed([question]).value, n) == SearchRaised) ==> r == []
    // a search that answers with at least one result list gives its first list
    ensures
      (&& collection.Some? && embed([question]).Some? && |embed([question]).value| > 0
       && var found := search(collection.value, embed([question]).value, n);
       && found.SearchAnswered? && found.documents.Some? && |found.documents.value| > 0) ==>
        r == search(collection.value, embed([question]).value, n).documents.value[0]
    // a non-empty answer is the first result list of the search for the question's embedding
    ensures r != [] ==>
      && collection.Some? && embed([question]).Some? && |embed([question]).value| > 0
      && var found := search(collection.value, embed([question]).value, n);
      && found.SearchAnswered? && found.documents.Some? && |found.documents.value| > 0
      && r == found.documents.value[0]
  {
    if collection.None? then []
    else
      var vectors := embed([question]);
      if vectors.None? || |vectors.value| == 0 then []
      else
        match search(collection.value, vectors.value, n)
        case SearchRaised => []
        case SearchAnswered(documents) =>
          // a missing field reads as `[[]]`; an empty list raises on `[0]` and is caught
          if documents.None? || |documents.value| == 0 then [] else documents.value[0]
  }
}
