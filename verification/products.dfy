/**
 Matching products against a search query in memory.

 A query maps field names to values. The `product` and `metadata_type`
 keys, when given, list the accepted names and are always consumed. Every
 other key must name a search field of the product's metadata type; it is
 consumed when the field, read from the product's own metadata document,
 satisfies the query value, and kept for the dataset search when the field
 is not read from the document or the document does not define it.
 */
module Products {
  import opened Values
  import opened Fields

  /** A search field of a metadata type: one read from documents, or a
      native column that cannot be read from a document. */
  datatype SearchField = Document(field: Field) | Native

  /** A product as the matcher sees it. */
  datatype Product = Product(name: string, metadataType: string, metadataDoc: Value, fields: map<string, SearchField>)

  /** What a query key does to a product: it is kept for the dataset
      search, consumed as matched, or excludes the product. */
  datatype Verdict = Keep | Drop | Exclude

  /** Evaluation of a query value as an expression on a field against a
      document. */
  type Evaluator = (Field, Value, Value) -> Result<bool>

  /** A value as a list of values: tuples (the catalog's own `Range` and
      `Not` among them) become their elements, lists stay as they are, and
      anything else is a one-element list. */
  function Listify(v: Value): (r: seq<Value>)
    ensures v.List? || v.Tuple? ==> r == v.items
    ensures v.Range? ==> r == [v.begin, v.end]
    ensures v.Not? ==> r == [v.value]
    ensures !(v.List? || v.Tuple? || v.Range? || v.Not?) ==> r == [v]
  {
    match v
    case Tuple(items) => items
    case List(items) => items
    case Range(b, e) => [b, e]
    case Not(x) => [x]
    case _ => [v]
  }

  /** A name is among the listed values, compared with `==`; only the
      string itself equals a string. */
  predicate Lists(v: Value, name: string): (r: bool)
    ensures r <==> Str(name) in Listify(v)
  {
    exists k :: 0 <= k < |Listify(v)| && Equal(Listify(v)[k], Str(name))
  }

  /** The verdict of one query key on a product. */
  function KeyVerdict(prod: Product, key: string, value: Value, evaluate: Evaluator, p: Parsers): (r: Result<Verdict>)
    ensures key !in prod.fields ==> r == Ok(Exclude)
    ensures key in prod.fields && prod.fields[key].Native? ==> r == Ok(Keep)
    ensures key in prod.fields && prod.fields[key].Document? ==>
              var x := Extract(prod.fields[key].field, prod.metadataDoc, p);
              && (x.Err? ==> r == Err(x.error))
              && (x == Ok(Null) ==> r == Ok(Keep))
              && (x.Ok? && x.value != Null ==>
                    var b := evaluate(prod.fields[key].field, value, prod.metadataDoc);
                    r == if b.Err? then Err(b.error) else if b.value then Ok(Drop) else Ok(Exclude))
  {
    if key !in prod.fields then Ok(Exclude)
    else match prod.fields[key]
      case Native => Ok(Keep)
      case Document(f) =>
        var x :- Extract(f, prod.metadataDoc, p);
        if x == Null then Ok(Keep)
        else
          var b :- evaluate(f, value, prod.metadataDoc);
          if b then Ok(Drop) else Ok(Exclude)
  }

  /** The key at `k` excludes the product, and every earlier key was
      evaluated without an error. */
  predicate FirstExclusion(prod: Product, entries: seq<(string, Value)>, k: nat, evaluate: Evaluator, p: Parsers)
    requires k < |entries|
  {
    && KeyVerdict(prod, entries[k].0, entries[k].1, evaluate, p) == Ok(Exclude)
    && forall j :: 0 <= j < k ==> KeyVerdict(prod, entries[j].0, entries[j].1, evaluate, p).Ok?
  }

  /** A first exclusion among the later keys, after a head key that was
      evaluated, is a first exclusion of all the keys. */
  lemma ExclusionShifts(prod: Product, entries: seq<(string, Value)>, k: nat, evaluate: Evaluator, p: Parsers)
    requires 0 < |entries| && k < |entries| - 1
    requires KeyVerdict(prod, entries[0].0, entries[0].1, evaluate, p).Ok?
    requires FirstExclusion(prod, entries[1..], k, evaluate, p)
    ensures FirstExclusion(prod, entries, k + 1, evaluate, p)
  {
    assert forall j :: 1 <= j <= k + 1 ==> entries[j] == entries[1..][j - 1];
  }

  /** Checks the query keys in order; `Some` of the keys kept, `None` when
      a key excludes the product. */
  function CheckKeys(prod: Product, entries: seq<(string, Value)>, evaluate: Evaluator, p: Parsers): (r: Result<Option<seq<(string, Value)>>>)
    ensures r.Ok? && r.value.Some? ==> forall e :: e in r.value.value ==> e in entries
    decreases |entries|
  {
    if |entries| == 0 then Ok(Some([]))
    else
      var head := entries[0];
      var v :- KeyVerdict(prod, head.0, head.1, evaluate, p);
      if v == Exclude then Ok(None)
      else
        var rest :- CheckKeys(prod, entries[1..], evaluate, p);
        match rest
        case None => Ok(None)
        case Some(kept) => Ok(Some(if v == Keep then [head] + kept else kept))
  }

  /** A product passes the key checks exactly when no key excludes it, and
      then the keys kept are exactly those whose field was not read from
      the product's document; a product is refused at the first key that
      excludes it, after keys that were all evaluated without an error. */
  lemma {:induction false} CheckKeysVerdicts(prod: Product, entries: seq<(string, Value)>, evaluate: Evaluator, p: Parsers)
    ensures var r := CheckKeys(prod, entries, evaluate, p);
            && (r == Ok(None) ==> exists k :: 0 <= k < |entries| && FirstExclusion(prod, entries, k, evaluate, p))
            && (r.Ok? && r.value.Some? ==>
                  forall k :: 0 <= k < |entries| ==>
                    KeyVerdict(prod, entries[k].0, entries[k].1, evaluate, p) in {Ok(Keep), Ok(Drop)})
            && (r.Ok? && r.value.Some? ==>
                  forall e :: e in r.value.value <==> e in entries && KeyVerdict(prod, e.0, e.1, evaluate, p) == Ok(Keep))
    decreases |entries|
  {
    if |entries| > 0 {
      var head := entries[0];
      var verdict := KeyVerdict(prod, head.0, head.1, evaluate, p);
      if verdict == Ok(Exclude) {
        assert FirstExclusion(prod, entries, 0, evaluate, p);
      } else if verdict.Ok? {
        var tail := entries[1..];
        CheckKeysVerdicts(prod, tail, evaluate, p);
        var rest := CheckKeys(prod, tail, evaluate, p);
        assert forall k :: 1 <= k < |entries| ==> entries[k] == tail[k - 1];
        assert forall e :: e in entries <==> e == head || e in tail;
        if rest == Ok(None) {
          var k :| 0 <= k < |tail| && FirstExclusion(prod, tail, k, evaluate, p);
          ExclusionShifts(prod, entries, k, evaluate, p);
        }
      }
    }
  }

  /** Evaluating the key at `k` raises, and every earlier key was kept or
      consumed. */
  predicate FirstError(prod: Product, entries: seq<(string, Value)>, k: nat, evaluate: Evaluator, p: Parsers)
    requires k < |entries|
  {
    && KeyVerdict(prod, entries[k].0, entries[k].1, evaluate, p).Err?
    && forall j :: 0 <= j < k ==> KeyVerdict(prod, entries[j].0, entries[j].1, evaluate, p) in {Ok(Keep), Ok(Drop)}
  }

  /** After a head key that was kept or consumed, a first error among the
      later keys is a first error of all the keys, and conversely. */
  lemma ErrorShifts(prod: Product, entries: seq<(string, Value)>, k: nat, evaluate: Evaluator, p: Parsers)
    requires 0 < |entries| && k < |entries| - 1
    requires KeyVerdict(prod, entries[0].0, entries[0].1, evaluate, p) in {Ok(Keep), Ok(Drop)}
    ensures FirstError(prod, entries, k + 1, evaluate, p) <==> FirstError(prod, entries[1..], k, evaluate, p)
  {
    assert forall j :: 1 <= j <= k + 1 ==> entries[j] == entries[1..][j - 1];
  }

  /** The key checks raise exactly when some key raises after keys that
      were all kept or consumed, and then they raise that key's error. */
  lemma {:induction false} CheckKeysErrors(prod: Product, entries: seq<(string, Value)>, evaluate: Evaluator, p: Parsers)
    ensures var r := CheckKeys(prod, entries, evaluate, p);
            && (r.Err? <==> exists k :: 0 <= k < |entries| && FirstError(prod, entries, k, evaluate, p))
            && (r.Err? ==> exists k :: 0 <= k < |entries| && FirstError(prod, entries, k, evaluate, p) &&
                                       r.error == KeyVerdict(prod, entries[k].0, entries[k].1, evaluate, p).error)
    decreases |entries|
  {
    if |entries| > 0 {
      var head := entries[0];
      var verdict := KeyVerdict(prod, head.0, head.1, evaluate, p);
      if verdict.Err? {
        assert FirstError(prod, entries, 0, evaluate, p);
      } else if verdict == Ok(Exclude) {
        forall k | 0 <= k < |entries|
          ensures !FirstError(prod, entries, k, evaluate, p)
        {
          if k > 0 {
            assert verdict !in {Ok(Keep), Ok(Drop)};
          }
        }
      } else {
        var tail := entries[1..];
        CheckKeysErrors(prod, tail, evaluate, p);
        assert !FirstError(prod, entries, 0, evaluate, p);
        if CheckKeys(prod, tail, evaluate, p).Err? {
          var k :| 0 <= k < |tail| && FirstError(prod, tail, k, evaluate, p) &&
                   CheckKeys(prod, tail, evaluate, p).error == KeyVerdict(prod, tail[k].0, tail[k].1, evaluate, p).error;
          ErrorShifts(prod, entries, k, evaluate, p);
          assert entries[k + 1] == tail[k];
        } else {
          forall k | 0 <= k < |entries|
            ensures !FirstError(prod, entries, k, evaluate, p)
          {
            if k > 0 {
              ErrorShifts(prod, entries, k - 1, evaluate, p);
            }
          }
        }
      }
    }
  }

  /** A product whose keys are all kept or consumed passes the checks. */
  lemma {:induction false} AllKeysPass(prod: Product, entries: seq<(string, Value)>, evaluate: Evaluator, p: Parsers)
    requires forall k :: 0 <= k < |entries| ==>
               KeyVerdict(prod, entries[k].0, entries[k].1, evaluate, p) in {Ok(Keep), Ok(Drop)}
    ensures CheckKeys(prod, entries, evaluate, p).Ok? && CheckKeys(prod, entries, evaluate, p).value.Some?
    decreases |entries|
  {
    if |entries| > 0 {
      var tail := entries[1..];
      assert forall k :: 0 <= k < |tail| ==> tail[k] == entries[k + 1];
      AllKeysPass(prod, tail, evaluate, p);
      assert KeyVerdict(prod, entries[0].0, entries[0].1, evaluate, p) in {Ok(Keep), Ok(Drop)};
    }
  }

  /** The verdict on one product: `None` when it does not match, and the
      part of the query left for the dataset search when it does. */
  function MatchProduct(prod: Product, query: seq<(string, Value)>, evaluate: Evaluator, p: Parsers): (r: Result<Option<seq<(string, Value)>>>)
    ensures !Lists(Get(query, "product", Str(prod.name)), prod.name) ==> r == Ok(None)
    ensures !Lists(Get(query, "metadata_type", Str(prod.metadataType)), prod.metadataType) ==> r == Ok(None)
    ensures r.Ok? && r.value.Some? ==>
              forall e :: e in r.value.value ==> e in query && e.0 != "product" && e.0 != "metadata_type"
    ensures Lists(Get(query, "product", Str(prod.name)), prod.name) &&
            Lists(Get(query, "metadata_type", Str(prod.metadataType)), prod.metadataType) ==>
              r == CheckKeys(prod, Without(Without(query, "product"), "metadata_type"), evaluate, p)
  {
    var products := Get(query, "product", Str(prod.name));
    var rest := Without(query, "product");
    if !Lists(products, prod.name) then Ok(None)
    else
      assert Get(rest, "metadata_type", Str(prod.metadataType)) == Get(query, "metadata_type", Str(prod.metadataType)) by {
        GetWithoutOther(query, "product", "metadata_type", Str(prod.metadataType));
      }
      var types := Get(rest, "metadata_type", Str(prod.metadataType));
      if !Lists(types, prod.metadataType) then Ok(None)
      else CheckKeys(prod, Without(rest, "metadata_type"), evaluate, p)
  }

  /** Removing one key does not change what another key holds. */
  lemma {:induction false} GetWithoutOther(entries: seq<(string, Value)>, gone: string, key: string, default: Value)
    requires gone != key
    ensures Get(Without(entries, gone), key, default) == Get(entries, key, default)
  {
    if |entries| > 0 {
      GetWithoutOther(entries[1..], gone, key, default);
      if entries[0].0 != gone {
        assert Without(entries, gone) == [entries[0]] + Without(entries[1..], gone);
        assert ([entries[0]] + Without(entries[1..], gone))[1..] == Without(entries[1..], gone);
      }
    }
  }

  /** Keeps, in order, the elements `f` accepts, each paired with what
      `f` returned for it; the first error `f` raises is raised. */
  function Select<A, B>(f: A -> Result<Option<B>>, xs: seq<A>): (r: Result<seq<(A, B)>>)
    ensures r.Ok? <==> forall k :: 0 <= k < |xs| ==> f(xs[k]).Ok?
  {
    if |xs| == 0 then Ok([])
    else
      var verdict :- f(xs[0]);
      var rest :- Select(f, xs[1..]);
      assert forall k :: 1 <= k < |xs| ==> xs[k] == xs[1..][k - 1];
      match verdict
      case None => Ok(rest)
      case Some(b) => Ok([(xs[0], b)] + rest)
  }

  /** A successful selection holds exactly the accepted elements, each with
      its own result. */
  lemma {:induction false} SelectMembers<A, B>(f: A -> Result<Option<B>>, xs: seq<A>)
    requires Select(f, xs).Ok?
    ensures forall m :: m in Select(f, xs).value ==> m.0 in xs && f(m.0) == Ok(Some(m.1))
    ensures forall k :: 0 <= k < |xs| && f(xs[k]).value.Some? ==> (xs[k], f(xs[k]).value.value) in Select(f, xs).value
  {
    if |xs| > 0 {
      var tail := xs[1..];
      SelectMembers(f, tail);
      assert forall k :: 1 <= k < |xs| ==> xs[k] == tail[k - 1];
    }
  }

  /** The products that match, each with the part of the query left for
      its dataset search, in catalog order. */
  function SearchRobust(products: seq<Product>, query: seq<(string, Value)>, evaluate: Evaluator, p: Parsers): (r: Result<seq<(Product, seq<(string, Value)>)>>)
    ensures r.Ok? <==> forall k :: 0 <= k < |products| ==> MatchProduct(products[k], query, evaluate, p).Ok?
  {
    Select(prod => MatchProduct(prod, query, evaluate, p), products)
  }

  /** A successful search yields exactly the products that match, each
      paired with the part of the query it leaves for the dataset search. */
  lemma SearchRobustMatches(products: seq<Product>, query: seq<(string, Value)>, evaluate: Evaluator, p: Parsers)
    requires SearchRobust(products, query, evaluate, p).Ok?
    ensures var found := SearchRobust(products, query, evaluate, p).value;
            && (forall m :: m in found ==> m.0 in products && MatchProduct(m.0, query, evaluate, p) == Ok(Some(m.1)))
            && (forall k :: 0 <= k < |products| && MatchProduct(products[k], query, evaluate, p).value.Some? ==>
                  (products[k], MatchProduct(products[k], query, evaluate, p).value.value) in found)
  {
    SelectMembers(prod => MatchProduct(prod, query, evaluate, p), products);
  }

  /** A key the metadata type has no field for excludes the product,
      unless an earlier key already did; the keys before it must have been
      evaluated without an error. */
  lemma {:induction false} UnknownKeyExcludes(prod: Product, entries: seq<(string, Value)>, k: nat, evaluate: Evaluator, p: Parsers)
    requires k < |entries| && entries[k].0 !in prod.fields
    requires forall j :: 0 <= j < k ==> KeyVerdict(prod, entries[j].0, entries[j].1, evaluate, p).Ok?
    ensures CheckKeys(prod, entries, evaluate, p) == Ok(None)
    decreases k
  {
    if k > 0 && KeyVerdict(prod, entries[0].0, entries[0].1, evaluate, p) != Ok(Exclude) {
      var tail := entries[1..];
      assert forall j :: 0 <= j < k - 1 ==> tail[j] == entries[j + 1];
      assert KeyVerdict(prod, entries[0].0, entries[0].1, evaluate, p).Ok?;
      UnknownKeyExcludes(prod, tail, k - 1, evaluate, p);
    }
  }

  /** A query naming another product skips the product outright. */
  lemma OtherProductIsSkipped(prod: Product, other: string, rest: seq<(string, Value)>, evaluate: Evaluator, p: Parsers)
    requires other != prod.name
    ensures MatchProduct(prod, [("product", Str(other))] + rest, evaluate, p) == Ok(None)
  {
    var q := [("product", Str(other))] + rest;
    assert Get(q, "product", Str(prod.name)) == Str(other);
    assert Listify(Str(other)) == [Str(other)];
  }

  /** Whether a product update may proceed: the new definition must be
      valid (`validation` is the error validating it raises, if any), the
      product must exist, and unsafe changes need the caller's permission. */
  function CanUpdate<Change>(validation: Option<Error>, found: bool, allowUnsafe: bool, unsafeChanges: seq<Change>): (r: Result<bool>)
    ensures r.Err? <==> validation.Some? || !found
    ensures validation.Some? ==> r == Err(validation.value)
    ensures validation.None? && !found ==> r == Err(ValueError(UnknownProduct))
    ensures r.Ok? ==> (r.value <==> allowUnsafe || |unsafeChanges| == 0)
  {
    if validation.Some? then Err(validation.value)
    else if !found then Err(ValueError(UnknownProduct))
    else Ok(allowUnsafe || |unsafeChanges| == 0)
  }
}
