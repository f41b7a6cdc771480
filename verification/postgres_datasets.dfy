/**
 Decision rules of the postgres dataset resource that do not need the
 database: which locations to record when a dataset is added or updated,
 which of a list of ids are already indexed, which products a query can
 concern, and the checks made before counting datasets through time.
 The database's answers are parameters.
 */
module PostgresDatasets {
  import opened Values
  import opened Fields
  import opened Schema
  import opened Products

  /** A change to the locations recorded for one dataset. */
  datatype LocationChange = RemoveLocation(uri: string) | InsertLocation(uri: string)

  /** The locations already recorded: none when there is no existing
      dataset. */
  function RecordedUris(existing: Option<seq<string>>): (r: set<string>)
    ensures existing.None? ==> r == {}
    ensures existing.Some? ==> forall u :: u in r <==> u in existing.value
  {
    if existing.None? then {} else set u | u in existing.value
  }

  /** Inserts of the URIs that are not recorded yet, walking the list from
      its end. */
  function InsertMissing(recorded: set<string>, uris: seq<string>): (r: seq<LocationChange>)
    ensures forall c :: c in r ==> c.InsertLocation? && c.uri in uris && c.uri !in recorded
    ensures forall u :: u in uris && u !in recorded ==> InsertLocation(u) in r
    decreases |uris|
  {
    if |uris| == 0 then []
    else
      var last := uris[|uris| - 1];
      var front := uris[..|uris| - 1];
      assert forall u :: u in uris <==> u == last || u in front;
      (if last in recorded then [] else [InsertLocation(last)]) + InsertMissing(recorded, front)
  }

  /** A single new URI replaces at most one recorded URI. */
  predicate Replaces(recorded: set<string>, newUris: seq<string>) {
    |recorded| <= 1 && |newUris| == 1 && newUris[0] !in recorded
  }

  /** The location changes recorded for a dataset with URIs `newUris`,
      given the existing dataset's URIs. */
  function EnsureNewLocations(existing: Option<seq<string>>, newUris: seq<string>): (r: seq<LocationChange>)
    ensures Replaces(RecordedUris(existing), newUris) ==>
              && |r| == 1 + |RecordedUris(existing)|
              && r[|r| - 1] == InsertLocation(newUris[0])
              && (|r| == 2 ==> r[0].RemoveLocation? && RecordedUris(existing) == {r[0].uri})
    ensures !Replaces(RecordedUris(existing), newUris) ==>
              && (forall c :: c in r ==> c.InsertLocation?)
              && (forall u :: InsertLocation(u) in r <==> u in newUris && u !in RecordedUris(existing))
  {
    var recorded := RecordedUris(existing);
    if Replaces(recorded, newUris) then
      if |recorded| == 1 then
        var gone := existing.value[0];
        assert recorded == {gone} by { OnlyMember(recorded, gone); }
        [RemoveLocation(gone), InsertLocation(newUris[0])]
      else
        [InsertLocation(newUris[0])]
    else
      InsertMissing(recorded, newUris)
  }

  /** A set with one member is that member alone. */
  lemma OnlyMember(s: set<string>, x: string)
    requires |s| == 1 && x in s
    ensures s == {x}
  {
    assert s * {x} == {x};
    assert |s - {x}| == 0;
    assert s - {x} == {};
  }

  /** The recorded locations after applying changes in order. */
  function Apply(locations: set<string>, changes: seq<LocationChange>): set<string>
    decreases |changes|
  {
    if |changes| == 0 then locations
    else
      var next := match changes[0]
        case RemoveLocation(u) => locations - {u}
        case InsertLocation(u) => locations + {u};
      Apply(next, changes[1..])
  }

  /** Applying only inserts adds exactly their URIs. */
  lemma {:induction false} ApplyInserts(locations: set<string>, changes: seq<LocationChange>)
    requires forall c :: c in changes ==> c.InsertLocation?
    ensures Apply(locations, changes) == locations + set c | c in changes :: c.uri
    decreases |changes|
  {
    if |changes| > 0 {
      var rest := changes[1..];
      assert forall c :: c in rest ==> c in changes;
      assert changes[0] in changes;
      assert Apply(locations, changes) == Apply(locations + {changes[0].uri}, rest);
      ApplyInserts(locations + {changes[0].uri}, rest);
      assert (set c | c in changes :: c.uri) == {changes[0].uri} + set c | c in rest :: c.uri by {
        assert forall c :: c in changes <==> c == changes[0] || c in rest;
      }
    }
  }

  /** A single new URI replaces what was recorded. */
  lemma ReplacementLeavesNewUri(existing: Option<seq<string>>, newUris: seq<string>)
    requires Replaces(RecordedUris(existing), newUris)
    ensures Apply(RecordedUris(existing), EnsureNewLocations(existing, newUris)) == {newUris[0]}
  {
    var recorded := RecordedUris(existing);
    var r := EnsureNewLocations(existing, newUris);
    if |recorded| == 1 {
      assert Apply(recorded, r) == Apply(recorded - {r[0].uri}, r[1..]);
      assert recorded - {r[0].uri} == {};
      assert r[1..][1..] == [];
    } else {
      assert recorded == {};
      assert r[1..] == [];
    }
  }

  /** Otherwise every new URI is added to what was recorded. */
  lemma InsertsKeepRecorded(existing: Option<seq<string>>, newUris: seq<string>)
    requires !Replaces(RecordedUris(existing), newUris)
    ensures Apply(RecordedUris(existing), EnsureNewLocations(existing, newUris))
            == RecordedUris(existing) + set u | u in newUris
  {
    var recorded := RecordedUris(existing);
    var r := EnsureNewLocations(existing, newUris);
    ApplyInserts(recorded, r);
    forall u | u in newUris && u !in recorded
      ensures u in (set c | c in r :: c.uri)
    {
      assert InsertLocation(u) in r;
    }
  }

  /** After the changes, the dataset is recorded at exactly its one new URI
      when that URI replaces the old one, and at the old and the new URIs
      otherwise. */
  lemma LocationsAfterChanges(existing: Option<seq<string>>, newUris: seq<string>)
    ensures var recorded := RecordedUris(existing);
            Apply(recorded, EnsureNewLocations(existing, newUris))
            == if Replaces(recorded, newUris) then {newUris[0]} else recorded + set u | u in newUris
  {
    if Replaces(RecordedUris(existing), newUris) {
      ReplacementLeavesNewUri(existing, newUris);
    } else {
      InsertsKeepRecorded(existing, newUris);
    }
  }

  /** A sequence in reverse order. */
  function Reverse<T>(s: seq<T>): (r: seq<T>)
    ensures |r| == |s|
  {
    if |s| == 0 then [] else Reverse(s[1..]) + [s[0]]
  }

  /** The URIs not recorded yet, in their order. */
  function Unrecorded(recorded: set<string>, uris: seq<string>): seq<string> {
    if |uris| == 0 then []
    else (if uris[0] in recorded then [] else [uris[0]]) + Unrecorded(recorded, uris[1..])
  }

  /** An insert of each URI, in order. */
  function Inserts(uris: seq<string>): (r: seq<LocationChange>)
    ensures |r| == |uris| && forall k :: 0 <= k < |uris| ==> r[k] == InsertLocation(uris[k])
  {
    seq(|uris|, k requires 0 <= k < |uris| => InsertLocation(uris[k]))
  }

  lemma {:induction false} ReverseAppend<T>(s: seq<T>, x: T)
    ensures Reverse(s + [x]) == [x] + Reverse(s)
    decreases |s|
  {
    if |s| > 0 {
      assert (s + [x])[1..] == s[1..] + [x];
      ReverseAppend(s[1..], x);
    } else {
      assert s + [x] == [x];
    }
  }

  lemma {:induction false} UnrecordedAppend(recorded: set<string>, a: seq<string>, b: seq<string>)
    ensures Unrecorded(recorded, a + b) == Unrecorded(recorded, a) + Unrecorded(recorded, b)
    decreases |a|
  {
    if |a| > 0 {
      assert (a + b)[1..] == a[1..] + b;
      UnrecordedAppend(recorded, a[1..], b);
    } else {
      assert a + b == b;
    }
  }

  lemma InsertsAppend(a: seq<string>, b: seq<string>)
    ensures Inserts(a + b) == Inserts(a) + Inserts(b)
  {
  }

  /** The inserts are those of the unrecorded URIs, taken in reverse list
      order. */
  lemma {:induction false} InsertMissingIsReversed(recorded: set<string>, uris: seq<string>)
    ensures InsertMissing(recorded, uris) == Inserts(Unrecorded(recorded, Reverse(uris)))
    decreases |uris|
  {
    if |uris| > 0 {
      var last, front := uris[|uris| - 1], uris[..|uris| - 1];
      assert uris == front + [last];
      InsertMissingIsReversed(recorded, front);
      ReverseAppend(front, last);
      UnrecordedAppend(recorded, [last], Reverse(front));
      assert Unrecorded(recorded, [last]) == if last in recorded then [] else [last];
      InsertsAppend(Unrecorded(recorded, [last]), Unrecorded(recorded, Reverse(front)));
    }
  }

  /** Unless a single new URI replaces the recorded one, the new URIs that
      are not recorded yet are inserted from the last to the first. */
  lemma InsertsInReverseOrder(existing: Option<seq<string>>, newUris: seq<string>)
    requires !Replaces(RecordedUris(existing), newUris)
    ensures EnsureNewLocations(existing, newUris) == Inserts(Unrecorded(RecordedUris(existing), Reverse(newUris)))
  {
    InsertMissingIsReversed(RecordedUris(existing), newUris);
  }

  /** Two new URIs next to a recorded third are inserted second first. */
  lemma TwoNewUrisInReverse(a: string, b: string, c: string)
    requires a != c && b != c
    ensures EnsureNewLocations(Some([c, c]), [a, b]) == [InsertLocation(b), InsertLocation(a)]
  {
    var recorded := RecordedUris(Some([c, c]));
    assert recorded == {c};
    assert !Replaces(recorded, [a, b]);
    assert [a, b][..1] == [a];
    assert [a][..0] == [];
    assert InsertMissing(recorded, [a]) == [InsertLocation(a)];
  }

  /** A dataset id as a caller gives it: text or an id already. */
  datatype DatasetId = IdText(text: string) | IdValue(id: Uuid)

  /** The id a caller means; text goes through UUID parsing, which may
      fail. */
  function Normalise(x: DatasetId, parseUuid: string -> Result<Uuid>): Result<Uuid> {
    match x
    case IdText(t) => parseUuid(t)
    case IdValue(u) => Ok(u)
  }

  /** For every id, in order, whether a dataset with that id is stored; the
      first text that is not a UUID raises its parse error. */
  method BulkHas(ids: seq<DatasetId>, stored: set<Uuid>, parseUuid: string -> Result<Uuid>) returns (r: Result<seq<bool>>)
    ensures r.Ok? <==> forall k :: 0 <= k < |ids| ==> Normalise(ids[k], parseUuid).Ok?
    ensures r.Err? ==> exists k :: 0 <= k < |ids| && Normalise(ids[k], parseUuid) == Err(r.error) &&
                                   forall j :: 0 <= j < k ==> Normalise(ids[j], parseUuid).Ok?
    ensures r.Ok? ==> |r.value| == |ids|
    ensures r.Ok? ==> forall k :: 0 <= k < |ids| ==> (r.value[k] <==> Normalise(ids[k], parseUuid).value in stored)
  {
    var found: seq<bool> := [];
    var k := 0;
    while k < |ids|
      invariant 0 <= k <= |ids| && |found| == k
      invariant forall j :: 0 <= j < k ==> Normalise(ids[j], parseUuid).Ok?
      invariant forall j :: 0 <= j < k ==> (found[j] <==> Normalise(ids[j], parseUuid).value in stored)
    {
      var id := Normalise(ids[k], parseUuid);
      if id.Err? {
        return Err(id.error);
      }
      found := found + [id.value in stored];
      k := k + 1;
    }
    return Ok(found);
  }

  /** The names of a query's keys, in order. */
  function QueryKeys(query: seq<(string, Value)>): (r: seq<string>)
    ensures |r| == |query| && forall k :: 0 <= k < |query| ==> r[k] == query[k].0
  {
    if |query| == 0 then [] else [query[0].0] + QueryKeys(query[1..])
  }

  /** The products a query can concern: the product it names, or else the
      products whose metadata type has every field the query uses. */
  function DatasetTypes<P(==)>(query: seq<(string, Value)>, byName: Value -> Result<P>, withFields: seq<string> -> set<P>): (r: Result<set<P>>)
    ensures Defines(query, "product") ==>
              var named := byName(Get(query, "product", Null));
              r == if named.Err? then Err(named.error) else Ok({named.value})
    ensures !Defines(query, "product") ==>
              (r.Err? <==> withFields(QueryKeys(query)) == {})
    ensures !Defines(query, "product") && r.Err? ==> r.error == ValueError(NoTypeHasFields)
    ensures !Defines(query, "product") && r.Ok? ==> r.value == withFields(QueryKeys(query))
  {
    if Defines(query, "product") then
      var p :- byName(Get(query, "product", Null));
      Ok({p})
    else
      var types := withFields(QueryKeys(query));
      if types == {} then Err(ValueError(NoTypeHasFields)) else Ok(types)
  }

  /** What counting through time goes on to do: the time range and the
      product queries it counts over. */
  datatype CountPlan = CountPlan(start: Value, end: Value, queries: seq<(Product, seq<(string, Value)>)>)

  /** The checks made before counting through time. The query must have a
      `time` entry holding a pair; the rest of the query goes to product
      matching; a count that must concern a single product fails when none
      or several match. */
  function TimeCountPlan(products: seq<Product>, query: seq<(string, Value)>, ensureSingle: bool, evaluate: Evaluator, p: Parsers): (r: Result<CountPlan>)
    ensures !Defines(query, "time") ==> r == Err(ValueError(NoTimeRange))
    ensures r.Ok? ==> Defines(query, "time") && Unpack(Get(query, "time", Null)) == Ok((r.value.start, r.value.end))
    ensures r.Ok? ==> SearchRobust(products, Without(query, "time"), evaluate, p) == Ok(r.value.queries)
    ensures r.Ok? && ensureSingle ==> |r.value.queries| == 1
    ensures Defines(query, "time") && Unpack(Get(query, "time", Null)).Ok? ==>
              var found := SearchRobust(products, Without(query, "time"), evaluate, p);
              && (found.Err? ==> r == Err(found.error))
              && (found.Ok? && ensureSingle && |found.value| == 0 ==> r == Err(ValueError(NoProductMatches)))
              && (found.Ok? && ensureSingle && |found.value| > 1 ==> r == Err(ValueError(MultipleProductMatches)))
              && (found.Ok? && (!ensureSingle || |found.value| == 1) ==> r.Ok?)
  {
    if !Defines(query, "time") then Err(ValueError(NoTimeRange))
    else
      var range :- Unpack(Get(query, "time", Null));
      var queries :- SearchRobust(products, Without(query, "time"), evaluate, p);
      if ensureSingle && |queries| == 0 then Err(ValueError(NoProductMatches))
      else if ensureSingle && |queries| > 1 then Err(ValueError(MultipleProductMatches))
      else Ok(CountPlan(range.0, range.1, queries))
  }
}
