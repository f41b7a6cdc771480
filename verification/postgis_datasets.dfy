/**
 Decision rules of the postgis dataset resource that do not need the
 database. This index keeps at most one location per dataset, so adding a
 location and updating a dataset reject a second one. A bulk add sorts the
 search values it extracts into the three search tables. Purging deletes
 archived datasets only, unless asked otherwise. Looking ids up in bulk
 and counting through time follow the same rules as the postgres
 resource, modelled there.
 */
module PostgisDatasets {
  import opened Values
  import opened Schema

  /** What adding a location does. */
  datatype AddLocationOutcome = NotAdded | InsertLocation(uri: string)

  /** Adding a location to a dataset whose current location is `existing`:
      an empty URI and the URI already recorded add nothing, and a second,
      different URI is refused. */
  function AddLocation(uri: string, existing: Option<string>): (r: Result<AddLocationOutcome>)
    ensures r == Ok(InsertLocation(uri)) <==> |uri| > 0 && existing.None?
    ensures r == Ok(NotAdded) <==> |uri| == 0 || existing == Some(uri)
    ensures r.Err? <==> |uri| > 0 && existing.Some? && existing.value != uri
    ensures r.Err? ==> r.error == ValueError(MultipleLocations)
  {
    if |uri| == 0 then Ok(NotAdded)
    else if existing == Some(uri) then Ok(NotAdded)
    else if existing.Some? then Err(ValueError(MultipleLocations))
    else Ok(InsertLocation(uri))
  }

  /** The location recorded after an add. */
  function LocationAfter(existing: Option<string>, outcome: AddLocationOutcome): Option<string> {
    match outcome
    case NotAdded => existing
    case InsertLocation(u) => Some(u)
  }

  /** Adds that succeed never leave a dataset with more than the one
      location it started with or was first given, and repeating an add
      changes nothing. */
  lemma AddLocationKeepsOne(uri: string, existing: Option<string>)
    requires AddLocation(uri, existing).Ok?
    ensures var after := LocationAfter(existing, AddLocation(uri, existing).value);
            && (existing.Some? ==> after == existing)
            && (after.Some? ==> after == existing || after == Some(uri))
            && AddLocation(uri, after).Ok?
            && LocationAfter(after, AddLocation(uri, after).value) == after
  {
  }

  /** Whether adding a new dataset records a location, and which: the
      dataset's URIs may hold at most one. Only a newly inserted dataset
      gets one. */
  function AddStoresLocation(isNew: bool, uris: seq<string>): (r: Result<Option<string>>)
    ensures r.Err? <==> isNew && |uris| > 1
    ensures r.Err? ==> r.error == ValueError(MultipleLocations)
    ensures r.Ok? && r.value.Some? <==> isNew && |uris| == 1
    ensures r.Ok? && r.value.Some? ==> r.value.value == uris[0]
  {
    if isNew && |uris| > 0 then
      if |uris| > 1 then Err(ValueError(MultipleLocations)) else Ok(Some(uris[0]))
    else Ok(None)
  }

  /** Whether a dataset may be updated: it must exist, keep its product and
      have at most one location; then the update may proceed exactly when
      there are no unsafe changes. */
  function CanUpdate<Change>(existingProduct: Option<string>, productName: string, uriCount: nat, unsafeChanges: seq<Change>): (r: Result<bool>)
    ensures existingProduct.None? ==> r == Err(ValueError(UnknownDataset))
    ensures existingProduct.Some? && existingProduct.value != productName ==> r == Err(ValueError(ProductChanged))
    ensures existingProduct == Some(productName) && uriCount > 1 ==> r == Err(ValueError(MultipleLocations))
    ensures r.Ok? <==> existingProduct == Some(productName) && uriCount <= 1
    ensures r.Ok? ==> (r.value <==> |unsafeChanges| == 0)
  {
    if existingProduct.None? then Err(ValueError(UnknownDataset))
    else if existingProduct.value != productName then Err(ValueError(ProductChanged))
    else if uriCount > 1 then Err(ValueError(MultipleLocations))
    else Ok(|unsafeChanges| == 0)
  }

  /** Whether a stored dataset may be purged: archived ones always, active
      ones only when allowed. `stored` maps an id to whether it is
      archived. */
  predicate Purgeable(stored: map<Uuid, bool>, id: Uuid, allowDeleteActive: bool) {
    id in stored && (stored[id] || allowDeleteActive)
  }

  /** The position of the first occurrence. */
  function FirstIndex(s: seq<Uuid>, x: Uuid): (r: nat)
    requires x in s
    ensures r < |s| && s[r] == x && x !in s[..r]
  {
    if s[0] == x then 0 else 1 + FirstIndex(s[1..], x)
  }

  /** The purged ids are the purgeable ones among the first `k`. */
  ghost predicate PurgedAre(ids: seq<Uuid>, k: nat, stored: map<Uuid, bool>, allowDeleteActive: bool, purged: seq<Uuid>)
    requires k <= |ids|
  {
    forall x :: x in purged <==> x in ids[..k] && Purgeable(stored, x, allowDeleteActive)
  }

  /** The purged ids come from the first `k`, in the order they were first
      requested. */
  ghost predicate InRequestOrder(ids: seq<Uuid>, k: nat, purged: seq<Uuid>) {
    && (forall i :: 0 <= i < |purged| ==> purged[i] in ids && FirstIndex(ids, purged[i]) < k)
    && (forall i, j :: 0 <= i < j < |purged| ==> FirstIndex(ids, purged[i]) < FirstIndex(ids, purged[j]))
  }

  /** The store has lost exactly the purged ids. */
  ghost predicate Remains(stored: map<Uuid, bool>, purged: seq<Uuid>, remaining: map<Uuid, bool>) {
    && (forall x :: x in remaining <==> x in stored && x !in purged)
    && (forall x :: x in remaining ==> remaining[x] == stored[x])
  }

  /** Nothing among the first `k` ids is still purgeable. */
  ghost predicate NoneLeft(ids: seq<Uuid>, k: nat, remaining: map<Uuid, bool>, allowDeleteActive: bool)
    requires k <= |ids|
  {
    forall x :: x in ids[..k] ==> !Purgeable(remaining, x, allowDeleteActive)
  }

  /** What holds after purging the first `k` ids. */
  ghost predicate PurgedUpTo(ids: seq<Uuid>, k: nat, stored: map<Uuid, bool>, allowDeleteActive: bool,
                             purged: seq<Uuid>, remaining: map<Uuid, bool>)
    requires k <= |ids|
  {
    && PurgedAre(ids, k, stored, allowDeleteActive, purged)
    && InRequestOrder(ids, k, purged)
    && Remains(stored, purged, remaining)
    && NoneLeft(ids, k, remaining, allowDeleteActive)
  }

  lemma PurgedAreNext(ids: seq<Uuid>, k: nat, stored: map<Uuid, bool>, allowDeleteActive: bool, purged: seq<Uuid>)
    requires k < |ids| && PurgedAre(ids, k, stored, allowDeleteActive, purged)
    requires Purgeable(stored, ids[k], allowDeleteActive)
    ensures PurgedAre(ids, k + 1, stored, allowDeleteActive, purged + [ids[k]])
  {
    assert ids[..k + 1] == ids[..k] + [ids[k]];
    forall x
      ensures x in purged + [ids[k]] <==> x in ids[..k + 1] && Purgeable(stored, x, allowDeleteActive)
    {
      assert x in purged + [ids[k]] <==> x in purged || x == ids[k];
      assert x in ids[..k + 1] <==> x in ids[..k] || x == ids[k];
    }
  }

  lemma InRequestOrderNext(ids: seq<Uuid>, k: nat, purged: seq<Uuid>)
    requires k < |ids| && InRequestOrder(ids, k, purged) && ids[k] !in ids[..k]
    ensures InRequestOrder(ids, k + 1, purged + [ids[k]])
  {
    var purged' := purged + [ids[k]];
    assert FirstIndex(ids, ids[k]) == k;
    forall i | 0 <= i < |purged'|
      ensures purged'[i] in ids && FirstIndex(ids, purged'[i]) < k + 1
    {
      if i < |purged| {
        assert purged'[i] == purged[i];
      }
    }
    forall i, j | 0 <= i < j < |purged'|
      ensures FirstIndex(ids, purged'[i]) < FirstIndex(ids, purged'[j])
    {
      assert purged'[i] == purged[i];
      if j < |purged| {
        assert purged'[j] == purged[j];
      }
    }
  }

  lemma RemainsNext(stored: map<Uuid, bool>, purged: seq<Uuid>, remaining: map<Uuid, bool>, id: Uuid)
    requires Remains(stored, purged, remaining)
    ensures Remains(stored, purged + [id], remaining - {id})
  {
    forall x
      ensures x in remaining - {id} <==> x in stored && x !in purged + [id]
    {
      assert x in purged + [id] <==> x in purged || x == id;
    }
  }

  lemma NoneLeftNext(ids: seq<Uuid>, k: nat, remaining: map<Uuid, bool>, allowDeleteActive: bool)
    requires k < |ids| && NoneLeft(ids, k, remaining, allowDeleteActive)
    ensures NoneLeft(ids, k + 1, remaining - {ids[k]}, allowDeleteActive)
  {
    assert ids[..k + 1] == ids[..k] + [ids[k]];
    forall x | x in ids[..k + 1]
      ensures !Purgeable(remaining - {ids[k]}, x, allowDeleteActive)
    {
      assert x in ids[..k] || x == ids[k];
    }
  }

  /** Purging the next id, when it is still purgeable, keeps the state. */
  lemma PurgeNext(ids: seq<Uuid>, k: nat, stored: map<Uuid, bool>, allowDeleteActive: bool,
                  purged: seq<Uuid>, remaining: map<Uuid, bool>)
    requires k < |ids| && PurgedUpTo(ids, k, stored, allowDeleteActive, purged, remaining)
    requires Purgeable(remaining, ids[k], allowDeleteActive)
    ensures PurgedUpTo(ids, k + 1, stored, allowDeleteActive, purged + [ids[k]], remaining - {ids[k]})
  {
    assert ids[k] !in ids[..k];
    PurgedAreNext(ids, k, stored, allowDeleteActive, purged);
    InRequestOrderNext(ids, k, purged);
    RemainsNext(stored, purged, remaining, ids[k]);
    NoneLeftNext(ids, k, remaining, allowDeleteActive);
  }

  /** Skipping the next id, when it is not purgeable, keeps the state. */
  lemma SkipNext(ids: seq<Uuid>, k: nat, stored: map<Uuid, bool>, allowDeleteActive: bool,
                 purged: seq<Uuid>, remaining: map<Uuid, bool>)
    requires k < |ids| && PurgedUpTo(ids, k, stored, allowDeleteActive, purged, remaining)
    requires !Purgeable(remaining, ids[k], allowDeleteActive)
    ensures PurgedUpTo(ids, k + 1, stored, allowDeleteActive, purged, remaining)
  {
    assert ids[..k + 1] == ids[..k] + [ids[k]];
  }

  /** Purges the ids in order, skipping those not stored and the active
      ones unless allowed; a purged dataset is gone for the ids after it.
      Returns the purged ids and what stays stored. */
  method Purge(ids: seq<Uuid>, stored: map<Uuid, bool>, allowDeleteActive: bool) returns (purged: seq<Uuid>, remaining: map<Uuid, bool>)
    ensures forall x :: x in purged <==> x in ids && Purgeable(stored, x, allowDeleteActive)
    ensures forall i, j :: 0 <= i < j < |purged| ==> FirstIndex(ids, purged[i]) < FirstIndex(ids, purged[j])
    ensures forall x :: x in remaining <==> x in stored && x !in purged
    ensures forall x :: x in remaining ==> remaining[x] == stored[x]
  {
    purged := [];
    remaining := stored;
    var k := 0;
    while k < |ids|
      invariant 0 <= k <= |ids|
      invariant PurgedUpTo(ids, k, stored, allowDeleteActive, purged, remaining)
    {
      if Purgeable(remaining, ids[k], allowDeleteActive) {
        PurgeNext(ids, k, stored, allowDeleteActive, purged, remaining);
        purged := purged + [ids[k]];
        remaining := remaining - {ids[k]};
      } else {
        SkipNext(ids, k, stored, allowDeleteActive, purged, remaining);
      }
      k := k + 1;
    }
    assert ids[..k] == ids;
  }

  /** One item of a bulk add: the dataset's id, the URI it was given (a
      list of URIs is allowed, and only its first is kept) and the search
      values extracted from its document, each as field name, field type
      and value. */
  datatype BatchItem = BatchItem(id: Uuid, uri: Value, searchValues: seq<(string, string, Value)>)

  /** What a bulk add writes: one location per dataset and the rows of the
      search tables, by index kind. */
  datatype Batch = Batch(uris: seq<Value>, searchIndexes: map<string, seq<Row>>)

  /** The URI kept for a dataset: the first of a list. */
  function FirstUri(uri: Value): (r: Result<Value>)
    ensures uri.List? && |uri.items| == 0 ==> r == Err(IndexError)
    ensures uri.List? && |uri.items| > 0 ==> r == Ok(uri.items[0])
    ensures !uri.List? ==> r == Ok(uri)
  {
    match uri
    case List(items) => if |items| == 0 then Err(IndexError) else Ok(items[0])
    case _ => Ok(uri)
  }

  /** A range is stored as the list of its two ends; anything else as it
      is. */
  function StoredValue(v: Value): (r: Value)
    ensures v.Range? ==> r == List([v.begin, v.end])
    ensures !v.Range? ==> r == v
  {
    if v.Range? then List([v.begin, v.end]) else v
  }

  /** The search-table row of one extracted value, tagged with its index
      kind. */
  function ItemRow(id: Uuid, v: (string, string, Value)): (r: (string, Row))
    requires v.1 in SearchFieldMap
    ensures r.0 in IndexKinds
  {
    (SearchFieldMap[v.1], Row(id, v.0, StoredValue(v.2)))
  }

  /** An item the bulk add accepts: its URI, if a list, is not empty, and
      every field type it uses has an index kind. */
  predicate Accepted(item: BatchItem) {
    && FirstUri(item.uri).Ok?
    && forall j :: 0 <= j < |item.searchValues| ==> item.searchValues[j].1 in SearchFieldMap
  }

  /** A tagged row comes from one of the items' values. */
  predicate Produces(items: seq<BatchItem>, e: (string, Row)) {
    exists k, j :: 0 <= k < |items| && 0 <= j < |items[k].searchValues| &&
                   items[k].searchValues[j].1 in SearchFieldMap && e == ItemRow(items[k].id, items[k].searchValues[j])
  }

  /** The number of values extracted from all the items. */
  function TotalValues(items: seq<BatchItem>): nat {
    if |items| == 0 then 0 else TotalValues(items[..|items| - 1]) + |items[|items| - 1].searchValues|
  }

  /** The tagged rows of one item, in the order of its values. */
  function SearchRows(id: Uuid, values: seq<(string, string, Value)>): (r: Result<seq<(string, Row)>>)
    ensures r.Ok? <==> forall j :: 0 <= j < |values| ==> values[j].1 in SearchFieldMap
    ensures r.Err? ==> r.error.KeyError?
    ensures r.Ok? ==> |r.value| == |values|
    ensures r.Ok? ==> forall j :: 0 <= j < |values| ==> r.value[j] == ItemRow(id, values[j])
  {
    if |values| == 0 then Ok([])
    else if values[0].1 !in SearchFieldMap then Err(KeyError(Str(values[0].1)))
    else
      var rest :- SearchRows(id, values[1..]);
      assert forall j :: 1 <= j < |values| ==> values[j] == values[1..][j - 1];
      Ok([ItemRow(id, values[0])] + rest)
  }

  /** A row produced by a prefix of the items or by the last item. */
  lemma ProducesSplit(items: seq<BatchItem>, e: (string, Row))
    requires |items| > 0
    ensures var last := items[|items| - 1];
            Produces(items, e) <==>
              Produces(items[..|items| - 1], e) ||
              exists j :: 0 <= j < |last.searchValues| && last.searchValues[j].1 in SearchFieldMap &&
                          e == ItemRow(last.id, last.searchValues[j])
  {
    var front := items[..|items| - 1];
    assert forall k :: 0 <= k < |front| ==> front[k] == items[k];
  }

  /** The rows of the earlier items followed by those of the last item are
      the rows of all the items. */
  lemma ProducesAppend(items: seq<BatchItem>, done: seq<(string, Row)>, more: seq<(string, Row)>)
    requires |items| > 0
    requires forall e :: e in done <==> Produces(items[..|items| - 1], e)
    requires SearchRows(items[|items| - 1].id, items[|items| - 1].searchValues) == Ok(more)
    ensures forall e :: e in done + more <==> Produces(items, e)
  {
    forall e
      ensures e in done + more <==> Produces(items, e)
    {
      ProducesSplit(items, e);
    }
  }

  /** The locations and tagged rows of all the items, in item order. */
  function CollectBatch(items: seq<BatchItem>): (r: Result<(seq<Value>, seq<(string, Row)>)>)
    ensures r.Ok? <==> forall k :: 0 <= k < |items| ==> Accepted(items[k])
    ensures r.Err? ==> r.error == IndexError || r.error.KeyError?
    ensures r.Ok? ==> |r.value.0| == |items|
    ensures r.Ok? ==> forall k :: 0 <= k < |items| ==> r.value.0[k] == FirstUri(items[k].uri).value
    ensures r.Ok? ==> |r.value.1| == TotalValues(items)
    ensures r.Ok? ==> forall e :: e in r.value.1 <==> Produces(items, e)
    decreases |items|
  {
    if |items| == 0 then Ok(([], []))
    else
      var front := items[..|items| - 1];
      var last := items[|items| - 1];
      assert forall k :: 0 <= k < |front| ==> front[k] == items[k];
      var done :- CollectBatch(front);
      var uri :- FirstUri(last.uri);
      var more :- SearchRows(last.id, last.searchValues);
      ProducesAppend(items, done.1, more);
      Ok((done.0 + [uri], done.1 + more))
  }

  /** The rows of one index kind, in order. */
  function Bucket(rows: seq<(string, Row)>, kind: string): (r: seq<Row>)
    ensures forall row :: row in r <==> (kind, row) in rows
  {
    if |rows| == 0 then []
    else (if rows[0].0 == kind then [rows[0].1] else []) + Bucket(rows[1..], kind)
  }

  /** A bulk add: every item's location, and every extracted value in the
      search table of its field type's index kind. */
  function AddBatch(items: seq<BatchItem>): (r: Result<Batch>)
    ensures r.Ok? <==> forall k :: 0 <= k < |items| ==> Accepted(items[k])
    ensures r.Ok? ==> |r.value.uris| == |items|
    ensures r.Ok? ==> forall k :: 0 <= k < |items| ==> r.value.uris[k] == FirstUri(items[k].uri).value
    ensures r.Ok? ==> r.value.searchIndexes.Keys == {"string", "numeric", "datetime"}
    ensures r.Ok? ==> forall kind, row :: kind in r.value.searchIndexes ==>
                        (row in r.value.searchIndexes[kind] <==> Produces(items, (kind, row)))
  {
    var collected :- CollectBatch(items);
    Ok(Batch(collected.0, map kind | kind in IndexKinds :: Bucket(collected.1, kind)))
  }

  /** The three buckets split the rows: each row lands in exactly one of
      them. */
  lemma {:induction false} BucketsPartition(rows: seq<(string, Row)>)
    requires forall e :: e in rows ==> e.0 in IndexKinds
    ensures |Bucket(rows, "string")| + |Bucket(rows, "numeric")| + |Bucket(rows, "datetime")| == |rows|
  {
    if |rows| > 0 {
      assert rows[0] in rows;
      assert forall e :: e in rows[1..] ==> e in rows;
      BucketsPartition(rows[1..]);
    }
  }

  /** A bulk add writes exactly one search row per extracted value. */
  lemma AddBatchKeepsEveryValue(items: seq<BatchItem>)
    requires AddBatch(items).Ok?
    ensures var b := AddBatch(items).value.searchIndexes;
            |b["string"]| + |b["numeric"]| + |b["datetime"]| == TotalValues(items)
  {
    var rows := CollectBatch(items).value.1;
    forall e | e in rows
      ensures e.0 in IndexKinds
    {
      var k, j :| 0 <= k < |items| && 0 <= j < |items[k].searchValues| &&
                  items[k].searchValues[j].1 in SearchFieldMap && e == ItemRow(items[k].id, items[k].searchValues[j]);
    }
    BucketsPartition(rows);
  }

  /** The rows of a single date-range value. */
  lemma DateRangeRow(id: Uuid, uri: Value, name: string, v: Value)
    requires !uri.List? && v.Range?
    ensures CollectBatch([BatchItem(id, uri, [(name, "datetime-range", v)])])
            == Ok(([uri], [("datetime", Row(id, name, List([v.begin, v.end])))]))
  {
    var item := BatchItem(id, uri, [(name, "datetime-range", v)]);
    var row := ("datetime", Row(id, name, List([v.begin, v.end])));
    assert SearchFieldMap["datetime-range"] == "datetime";
    assert item.searchValues[1..] == [];
    assert SearchRows(id, item.searchValues[1..]) == Ok([]);
    assert [row] + [] == [row];
    assert SearchRows(id, item.searchValues) == Ok([row]);
    assert [item][..0] == [];
    assert CollectBatch([item][..0]) == Ok(([], []));
    assert [] + [uri] == [uri] && [] + [row] == [row];
  }

  /** A date range found in a dataset goes to the datetime table as the
      list of its two ends, and the other tables get nothing. */
  lemma DateRangeIsStoredAsPair(id: Uuid, uri: Value, name: string, v: Value)
    requires !uri.List? && v.Range?
    ensures var b := AddBatch([BatchItem(id, uri, [(name, "datetime-range", v)])]);
            && b.Ok? && b.value.uris == [uri]
            && b.value.searchIndexes["datetime"] == [Row(id, name, List([v.begin, v.end]))]
            && b.value.searchIndexes["string"] == [] && b.value.searchIndexes["numeric"] == []
  {
    DateRangeRow(id, uri, name, v);
    var row: (string, Row) := ("datetime", Row(id, name, List([v.begin, v.end])));
    var rows: seq<(string, Row)> := [row];
    var none: seq<Row> := [];
    assert Bucket(rows[1..], "datetime") == none && [row.1] + none == [row.1];
    assert Bucket([row], "datetime") == [row.1];
    assert Bucket([row], "string") == none;
    assert Bucket([row], "numeric") == none;
  }
}
