/**
 Dynamic values of the dataset catalog.

 Dataset documents, the values parsed out of them by search fields, and the
 values a caller puts into a query are all untyped in the catalog. This module
 gives them one closed datatype, together with the truthiness, equality,
 ordering and key-path lookup the field engine relies on, and the error kinds
 the engine raises.
 */
module Values {

  /** A timezone-normalised timestamp: its calendar year and the instant
      within that year, counted from January 1st 00:00 of that year. */
  datatype Instant = Instant(year: int, tick: nat)

  /** Chronological order of instants. */
  predicate Before(a: Instant, b: Instant) {
    a.year < b.year || (a.year == b.year && a.tick < b.tick)
  }

  /** January 1st 00:00 of a year. */
  function YearStart(year: int): (r: Instant)
    ensures r.year == year
    ensures forall a: Instant :: a.year == year ==> !Before(a, r)
  {
    Instant(year, 0)
  }

  /** A document, field or query value. `Range` and `Not` are the catalog's
      own two small tuple types; `NaN` is a float NaN and `DecimalNaN` a
      decimal NaN, kept apart because only the former is refused by indexing. */
  datatype Value =
    | Null
    | Bool(b: bool)
    | Int(i: int)
    | Float(x: real)
    | NaN
    | Decimal(d: real)
    | DecimalNaN
    | Str(s: string)
    | Time(t: Instant)
    | List(items: seq<Value>)
    | Tuple(items: seq<Value>)
    | Dict(entries: seq<(string, Value)>)
    | Range(begin: Value, end: Value)
    | Not(value: Value)

  datatype Option<+T> = None | Some(value: T)

  /** Why an operation failed, in the terms of the message it raises. */
  datatype Why =
    | NoOffset
    | NotSubscriptable
    | Unhashable
    | Incomparable
    | NotConvertible
    | NotADecimalTuple
    | CannotConvertNaN
    | YearOutOfRange(year: int)
    | UnknownSelection(selection: Value)
    | UnknownFieldType(field: string, given: Value)
    | UnexpectedArgument(field: string, typeName: string)
    | NotAMapping
    | MissingBounds
    | NotADateRange(low: Value, high: Value)
    | NotReadableAsDate
    | NotUnpackable
    | ApplicationNameNotString
    | NoTimeRange
    | NoProductMatches
    | MultipleProductMatches
    | NoTypeHasFields
    | MultipleLocations
    | UnknownDataset
    | ProductChanged
    | UnknownProduct

  /** The exception kinds the engine raises. */
  datatype Error =
    | ValueError(why: Why)
    | TypeError(why: Why)
    | KeyError(key: Value)
    | AttributeError
    | InvalidOperation
    | UnindexableValue
    | NotImplemented
    | RuntimeError(why: Why)
    | IntegrityError
    | IndexError
    | OverflowError

  /** Either a value or the exception raised instead; usable with `:-`. */
  datatype Result<+T> = Ok(value: T) | Err(error: Error) {
    predicate IsFailure() {
      Err?
    }

    function PropagateFailure<U>(): Result<U>
      requires Err?
    {
      Err(error)
    }

    function Extract(): T
      requires Ok?
    {
      value
    }
  }

  /** Truth value of a value in a condition (`if v:`, `not v`): numbers
      are true when non-zero, and everything that can be iterated is true
      when it yields something. */
  predicate Truthy(v: Value): (r: bool)
    ensures Number(v) ==> (r <==> Magnitude(v) != 0.0)
    ensures Elements(v).Some? ==> (r <==> |Elements(v).value| > 0)
  {
    match v
    case Null => false
    case Bool(b) => b
    case Int(i) => i != 0
    case Float(x) => x != 0.0
    case NaN => true
    case Decimal(d) => d != 0.0
    case DecimalNaN => true
    case Str(s) => |s| > 0
    case Time(_) => true
    case List(items) => |items| > 0
    case Tuple(items) => |items| > 0
    case Dict(entries) => |entries| > 0
    case Range(_, _) => true
    case Not(_) => true
  }

  /** Booleans, integers, floats and decimals, NaNs included. */
  predicate Numeric(v: Value) {
    v.Bool? || v.Int? || v.Float? || v.NaN? || v.Decimal? || v.DecimalNaN?
  }

  /** A numeric value that is not a NaN. */
  predicate Number(v: Value) {
    v.Bool? || v.Int? || v.Float? || v.Decimal?
  }

  /** The mathematical value of a number (floats are taken as exact). */
  function Magnitude(v: Value): real
    requires Number(v)
  {
    match v
    case Bool(b) => if b then 1.0 else 0.0
    case Int(i) => i as real
    case Float(x) => x
    case Decimal(d) => d
  }

  /** Whether a value can be a dictionary key or a set member. */
  predicate Hashable(v: Value) {
    match v
    case List(_) => false
    case Dict(_) => false
    case Tuple(items) => forall k :: 0 <= k < |items| ==> Hashable(items[k])
    case Range(b, e) => Hashable(b) && Hashable(e)
    case Not(x) => Hashable(x)
    case _ => true
  }

  /** The tuples: plain tuples and the catalog's two named tuples. */
  predicate TupleLike(v: Value) {
    v.Tuple? || v.Range? || v.Not?
  }

  /** The elements of a tuple, in order. */
  function Items(v: Value): (r: seq<Value>)
    requires TupleLike(v)
    ensures Elements(v) == Some(r)
  {
    match v
    case Tuple(items) => items
    case Range(b, e) => [b, e]
    case Not(x) => [x]
  }

  /** Equality (`==`): numbers by magnitude whatever their representation,
      NaNs equal to nothing; lists with lists and tuples with tuples (a
      named tuple is a tuple) element by element; mappings by their keys
      and the values under them, in any order; everything else
      structurally. A mapping's keys are taken to be distinct. */
  predicate Equal(a: Value, b: Value): (r: bool)
    ensures Number(a) && Number(b) ==> (r <==> Magnitude(a) == Magnitude(b))
    ensures a.NaN? || a.DecimalNaN? || b.NaN? || b.DecimalNaN? ==> !r
    ensures r && (a.List? || a.Dict? || a.Str? || a.Time?) ==> b.List? == a.List? && b.Dict? == a.Dict? && b.Str? == a.Str? && b.Time? == a.Time?
    ensures r && TupleLike(a) ==> TupleLike(b)
    ensures r && Numeric(a) ==> Number(b)
    decreases a
  {
    if Numeric(a) && Numeric(b) then
      Number(a) && Number(b) && Magnitude(a) == Magnitude(b)
    else if a.List? && b.List? then
      && |a.items| == |b.items|
      && forall k :: 0 <= k < |a.items| ==> Equal(a.items[k], b.items[k])
    else if TupleLike(a) && TupleLike(b) then
      && |Items(a)| == |Items(b)|
      && forall k :: 0 <= k < |Items(a)| ==> Equal(Items(a)[k], Items(b)[k])
    else if a.Dict? && b.Dict? then
      && (forall j :: 0 <= j < |a.entries| ==> Defines(b.entries, a.entries[j].0))
      && (forall k :: 0 <= k < |b.entries| ==> Defines(a.entries, b.entries[k].0))
      && (forall j, k :: 0 <= j < |a.entries| && 0 <= k < |b.entries| && a.entries[j].0 == b.entries[k].0 ==>
            Equal(a.entries[j].1, b.entries[k].1))
    else
      a == b
  }

  /** Lexicographic order of strings by code point. */
  predicate LexLess(s: string, t: string) {
    if |t| == 0 then false
    else if |s| == 0 then true
    else if s[0] != t[0] then s[0] < t[0]
    else LexLess(s[1..], t[1..])
  }

  /** Two sequences `<` compares element by element: two lists, or two
      tuples. */
  predicate SequencePair(a: Value, b: Value) {
    (a.List? && b.List?) || (TupleLike(a) && TupleLike(b))
  }

  /** The elements of a list or a tuple. */
  function SequenceItems(v: Value): (r: seq<Value>)
    requires v.List? || TupleLike(v)
    ensures Elements(v) == Some(r)
  {
    if v.List? then v.items else Items(v)
  }

  /** The first position at which two sequences hold unequal elements, or
      the length of the shorter one when there is none. */
  function FirstDifference(xs: seq<Value>, ys: seq<Value>): (i: nat)
    ensures i <= |xs| && i <= |ys|
    ensures forall j :: 0 <= j < i ==> Equal(xs[j], ys[j])
    ensures i < |xs| && i < |ys| ==> !Equal(xs[i], ys[i])
  {
    if |xs| == 0 || |ys| == 0 || !Equal(xs[0], ys[0]) then 0
    else
      var i := FirstDifference(xs[1..], ys[1..]);
      assert forall j :: 1 <= j < i + 1 ==> xs[j] == xs[1..][j - 1] && ys[j] == ys[1..][j - 1];
      1 + i
  }

  /** The `<` operator. Strings, instants and numbers compare within their
      own class; a float NaN compares false with every number, a decimal
      taking part in a comparison with any NaN signals an invalid operation.
      Two lists, or two tuples, compare at the first position where they
      differ, and by length when one is a prefix of the other. Values of
      different classes cannot be compared. */
  function Less(a: Value, b: Value): (r: Result<bool>)
    ensures !SequencePair(a, b) ==>
              (r.Ok? <==> (a.Str? && b.Str?) || (a.Time? && b.Time?) ||
                          (Numeric(a) && Numeric(b) && !DecimalMeetsNaN(a, b)))
    ensures r.Ok? && (a.NaN? || b.NaN?) ==> !r.value
    ensures r.Err? ==> r.error == TypeError(Incomparable) || r.error == InvalidOperation
    decreases a
  {
    if a.Str? && b.Str? then Ok(LexLess(a.s, b.s))
    else if a.Time? && b.Time? then Ok(Before(a.t, b.t))
    else if SequencePair(a, b) then
      var xs, ys := SequenceItems(a), SequenceItems(b);
      var i := FirstDifference(xs, ys);
      if i == |xs| || i == |ys| then Ok(|xs| < |ys|) else Less(xs[i], ys[i])
    else if !Numeric(a) || !Numeric(b) then Err(TypeError(Incomparable))
    else if DecimalMeetsNaN(a, b) then Err(InvalidOperation)
    else if a.NaN? || b.NaN? then Ok(false)
    else Ok(Magnitude(a) < Magnitude(b))
  }

  /** A decimal NaN, or a decimal next to a float NaN: ordering them raises. */
  predicate DecimalMeetsNaN(a: Value, b: Value) {
    a.DecimalNaN? || b.DecimalNaN? || ((a.Decimal? || b.Decimal?) && (a.NaN? || b.NaN?))
  }

  /** The elements of a value that can be iterated: sequences, the two
      catalog tuples, the characters of a string and the keys of a mapping. */
  function Elements(v: Value): (r: Option<seq<Value>>)
    ensures (v.List? || v.Tuple?) ==> r == Some(v.items)
    ensures (v.Null? || Numeric(v) || v.Time?) ==> r.None?
  {
    match v
    case List(items) => Some(items)
    case Tuple(items) => Some(items)
    case Range(b, e) => Some([b, e])
    case Not(x) => Some([x])
    case Str(s) => Some(seq(|s|, k requires 0 <= k < |s| => Str([s[k]])))
    case Dict(entries) => Some(seq(|entries|, k requires 0 <= k < |entries| => Str(entries[k].0)))
    case _ => None
  }

  /** Position `i` of a sequence of length `n`, negative positions counting
      from the end. */
  function Position(n: nat, i: int): (r: Option<nat>)
    ensures r.Some? ==> r.value < n
    ensures r.Some? <==> -(n as int) <= i < n
  {
    if 0 <= i < n then Some(i)
    else if -(n as int) <= i < 0 then Some(n + i)
    else None
  }

  /** One step of a key path: a string key into a mapping, an integer
      position into a sequence or string. A step that does not apply yields
      Null, as a missing key does. */
  function Step(v: Value, key: Value): Value {
    match v
    case Dict(entries) => if key.Str? then Get(entries, key.s, Null) else Null
    case List(items) => if key.Int? then (match Position(|items|, key.i) case Some(k) => items[k] case None => Null) else Null
    case Tuple(items) => if key.Int? then (match Position(|items|, key.i) case Some(k) => items[k] case None => Null) else Null
    case Str(s) => if key.Int? then (match Position(|s|, key.i) case Some(k) => Str([s[k]]) case None => Null) else Null
    case _ => Null
  }

  /** Walks a sequence of keys down from a value. */
  function Walk(keys: seq<Value>, v: Value): (r: Value)
    ensures v.Null? ==> r.Null?
    ensures |keys| == 0 ==> r == v
  {
    if |keys| == 0 then v else Walk(keys[1..], Step(v, keys[0]))
  }

  /** The value at a key path inside a document; Null when the path is
      missing at any level or is not a sequence of keys at all. */
  function GetIn(path: Value, doc: Value): (r: Value)
    ensures doc.Null? ==> r.Null?
  {
    match Elements(path)
    case Some(keys) => Walk(keys, doc)
    case None => Null
  }

  /** The value under a key of a mapping, or a default when the key is
      absent. */
  function Get(entries: seq<(string, Value)>, key: string, default: Value): (r: Value)
    ensures (forall k :: 0 <= k < |entries| ==> entries[k].0 != key) ==> r == default
    ensures (exists k :: 0 <= k < |entries| && entries[k].0 == key) ==>
              exists k :: 0 <= k < |entries| && entries[k] == (key, r)
  {
    if |entries| == 0 then default
    else if entries[0].0 == key then entries[0].1
    else Get(entries[1..], key, default)
  }

  /** The mapping without a key. */
  function Without(entries: seq<(string, Value)>, key: string): (r: seq<(string, Value)>)
    ensures forall e :: e in r <==> e in entries && e.0 != key
  {
    if |entries| == 0 then []
    else if entries[0].0 == key then Without(entries[1..], key)
    else [entries[0]] + Without(entries[1..], key)
  }

  /** The mapping has an entry for a key. */
  predicate Defines(entries: seq<(string, Value)>, key: string) {
    exists k :: 0 <= k < |entries| && entries[k].0 == key
  }

  /** Mapping keys are distinct, as they are in a parsed document. */
  predicate DistinctKeys<T>(entries: seq<(string, T)>) {
    forall j, k :: 0 <= j < k < |entries| ==> entries[j].0 != entries[k].0
  }
}
