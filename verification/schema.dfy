/**
 The search-index tables of the catalog schema: which table each search
 field type is indexed in, and the primary key every search table carries.
 */
module Schema {
  import opened Values

  /** The three search tables, one per index kind. */
  datatype SearchTable = DatasetSearchString | DatasetSearchNumeric | DatasetSearchDateTime

  /** The SQL name of a search table. */
  function TableName(t: SearchTable): string {
    match t
    case DatasetSearchString => "dataset_search_string"
    case DatasetSearchNumeric => "dataset_search_num"
    case DatasetSearchDateTime => "dataset_search_datetime"
  }

  /** The three index kinds. */
  const IndexKinds: set<string> := {"string", "numeric", "datetime"}

  /** Field type name to index kind; `float-range` is kept as an alias of
      `numeric-range`. */
  const SearchFieldMap: map<string, string> := map[
    "numeric-range" := "numeric",
    "double-range" := "numeric",
    "integer-range" := "numeric",
    "datetime-range" := "datetime",
    "string" := "string",
    "numeric" := "numeric",
    "double" := "numeric",
    "integer" := "numeric",
    "datetime" := "datetime",
    "float-range" := "numeric"
  ]

  /** Index kind to search table. */
  const SearchFieldIndexes: map<string, SearchTable> := map[
    "string" := DatasetSearchString,
    "numeric" := DatasetSearchNumeric,
    "datetime" := DatasetSearchDateTime
  ]

  /** The index kind a search table serves. */
  function KindOf(t: SearchTable): (r: string)
    ensures r in SearchFieldIndexes && SearchFieldIndexes[r] == t
  {
    match t
    case DatasetSearchString => "string"
    case DatasetSearchNumeric => "numeric"
    case DatasetSearchDateTime => "datetime"
  }

  /** Field type name to search table: the composition of the two maps. */
  function SearchFieldIndexMap(): (m: map<string, SearchTable>)
    ensures m.Keys == SearchFieldMap.Keys
    ensures forall k :: k in m ==> KindOf(m[k]) == SearchFieldMap[k]
  {
    map k | k in SearchFieldMap :: SearchFieldIndexes[SearchFieldMap[k]]
  }

  /** Every type name is sent to exactly one of the three index kinds, and
      every kind has its table. */
  lemma EveryTypeHasOneKind()
    ensures SearchFieldIndexes.Keys == IndexKinds
    ensures forall k :: k in SearchFieldMap ==> SearchFieldMap[k] in IndexKinds
    ensures forall k :: k in SearchFieldMap ==> SearchFieldMap[k] in SearchFieldIndexes
  {
  }

  /** The numeric, integer and double types, scalar or range, and the
      `float-range` alias share the numeric kind. */
  lemma NumericFamily()
    ensures forall k :: k in SearchFieldMap ==>
              (SearchFieldMap[k] == "numeric" <==>
                 k in {"numeric", "integer", "double", "numeric-range", "integer-range", "double-range", "float-range"})
  {
  }

  /** The two date types share the datetime kind. */
  lemma DateFamily()
    ensures forall k :: k in SearchFieldMap ==>
              (SearchFieldMap[k] == "datetime" <==> k in {"datetime", "datetime-range"})
  {
  }

  /** Only `string` is a string kind. */
  lemma StringFamily()
    ensures forall k :: k in SearchFieldMap ==> (SearchFieldMap[k] == "string" <==> k == "string")
  {
  }

  /** The three tables have distinct names. */
  lemma TableNamesDistinct(a: SearchTable, b: SearchTable)
    ensures TableName(a) == TableName(b) <==> a == b
  {
  }

  /** The type name to table map, entry by entry. */
  lemma IndexMapContents()
    ensures var m := SearchFieldIndexMap();
            && m["string"] == DatasetSearchString
            && m["datetime"] == m["datetime-range"] == DatasetSearchDateTime
            && m["numeric"] == m["integer"] == m["double"] == DatasetSearchNumeric
            && m["numeric-range"] == m["integer-range"] == m["double-range"] == m["float-range"] == DatasetSearchNumeric
  {
  }

  /** A dataset identifier. */
  type Uuid = nat

  /** One row of a search table: the value of one search field of one
      dataset. */
  datatype Row = Row(datasetRef: Uuid, searchKey: string, searchVal: Value)

  /** The primary key `(dataset_ref, search_key)` holds: no two rows share
      it. */
  predicate PrimaryKeyHolds(rows: seq<Row>) {
    forall i, j :: 0 <= i < j < |rows| ==>
      (rows[i].datasetRef, rows[i].searchKey) != (rows[j].datasetRef, rows[j].searchKey)
  }

  /** Whether a row with the key is present. */
  predicate HasKey(rows: seq<Row>, ref: Uuid, key: string) {
    exists k :: 0 <= k < |rows| && rows[k].datasetRef == ref && rows[k].searchKey == key
  }

  /** Inserting a row, refused when its key is already present. */
  function Insert(rows: seq<Row>, row: Row): (r: Result<seq<Row>>)
    ensures r.Ok? <==> !HasKey(rows, row.datasetRef, row.searchKey)
    ensures r.Err? ==> r.error == IntegrityError
    ensures r.Ok? ==> multiset(r.value) == multiset(rows) + multiset{row}
  {
    if exists k :: 0 <= k < |rows| && rows[k].datasetRef == row.datasetRef && rows[k].searchKey == row.searchKey
    then Err(IntegrityError)
    else Ok(rows + [row])
  }

  /** Inserting keeps the primary key. */
  lemma InsertKeepsPrimaryKey(rows: seq<Row>, row: Row)
    requires PrimaryKeyHolds(rows)
    requires Insert(rows, row).Ok?
    ensures PrimaryKeyHolds(Insert(rows, row).value)
  {
    var out := Insert(rows, row).value;
    forall i, j | 0 <= i < j < |out|
      ensures (out[i].datasetRef, out[i].searchKey) != (out[j].datasetRef, out[j].searchKey)
    {
      if j == |rows| {
        assert out[i] == rows[i];
      }
    }
  }

  /** Under the primary key a dataset has at most one value per search
      field. */
  lemma AtMostOneValue(rows: seq<Row>, i: nat, j: nat)
    requires PrimaryKeyHolds(rows)
    requires i < |rows| && j < |rows|
    requires rows[i].datasetRef == rows[j].datasetRef && rows[i].searchKey == rows[j].searchKey
    ensures i == j
  {
  }
}
