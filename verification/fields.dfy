/**
 Search fields over dataset documents and the query predicates built from
 them.

 A scalar field reads one value from a document through one key path or
 several alternative key paths, combining several found values with its
 selection policy. A range field owns two such scalar sub-fields, the lower
 one combined with `least` and the greater one with `greatest`. Numeric and
 date scalar values are indexed as degenerate closed ranges `[v, v]`, so a
 `between` on them is a range overlap, like a `between` on a range field.
 */
module Fields {
  import opened Values
  import opened Ordering
  import opened Selection

  /** The value domain of a scalar field or of the ends of a range field. */
  datatype Kind = Text | Numeric | Integer | Double | Date

  /** Outcome of reading a number out of text. */
  datatype NumberText = Finite(r: real) | NotANumber | Malformed

  /** The text and timestamp parsing the engine delegates to libraries:
      decimal, float and integer literals, the catalog's lenient timestamp
      parser, and ISO-8601 timestamps. */
  datatype Parsers = Parsers(
    decimalText: string -> NumberText,
    floatText: string -> NumberText,
    intText: string -> Option<int>,
    parseTime: Value -> Option<Instant>,
    isoTime: string -> Option<Instant>)

  /** A search field of a metadata type. */
  datatype Field =
    | Simple(name: string, description: Value, indexed: bool, kind: Kind, offset: Value, policy: Policy)
    | Ranged(name: string, description: Value, indexed: bool, kind: Kind, minOffset: Value, maxOffset: Value)

  /** The closed-interval index representation, or a plain value. */
  datatype IndexValue = Plain(v: Value) | Closed(low: Value, high: Value)

  /** A query predicate on a field. `RangeBetween` and `RangeContains`
      compare against closed `[]` ranges. */
  datatype Expr =
    | Equals(field: Field, value: Value)
    | ValueBetween(field: Field, low: Value, high: Value)
    | RangeBetween(field: Field, low: Value, high: Value)
    | RangeContains(field: Field, value: Value)

  /** The comparison a `ValueBetween` stands for. */
  datatype Condition = Within(low: Value, high: Value) | AtLeast(low: Value) | AtMost(high: Value)

  /** The type name a field class is registered and indexed under. */
  function KindTypeName(ranged: bool, kind: Kind): string {
    if !ranged then
      match kind
      case Text => "string"
      case Numeric => "numeric"
      case Integer => "integer"
      case Double => "double"
      case Date => "datetime"
    else
      match kind
      case Text => "range"
      case Numeric => "numeric-range"
      case Integer => "integer-range"
      case Double => "double-range"
      case Date => "datetime-range"
  }

  /** The type name a field is registered and indexed under. */
  function TypeName(f: Field): string {
    KindTypeName(f.Ranged?, f.kind)
  }

  /** Different classes have different type names. */
  lemma KindTypeNameInjective(r1: bool, k1: Kind, r2: bool, k2: Kind)
    requires KindTypeName(r1, k1) == KindTypeName(r2, k2)
    ensures r1 == r2 && k1 == k2
  {
  }

  predicate NumericKind(k: Kind) {
    k == Numeric || k == Integer || k == Double
  }

  /** The lower end of a range field: an unindexed scalar field over the
      minimum offsets, keeping the least value found. */
  function Lower(f: Field): (r: Field)
    requires f.Ranged?
    ensures r.Simple? && r.kind == f.kind && r.offset == f.minOffset
    ensures r.policy == Least && !r.indexed
    ensures r.name == f.name + "_lower"
  {
    Simple(f.name + "_lower", f.description, false, f.kind, f.minOffset, Least)
  }

  /** The greater end of a range field: an unindexed scalar field over the
      maximum offsets, keeping the greatest value found. */
  function Greater(f: Field): (r: Field)
    requires f.Ranged?
    ensures r.Simple? && r.kind == f.kind && r.offset == f.maxOffset
    ensures r.policy == Greatest && !r.indexed
    ensures r.name == f.name + "_greater"
  {
    Simple(f.name + "_greater", f.description, false, f.kind, f.maxOffset, Greatest)
  }

  /** Integer conversion of a real: truncation toward zero. */
  function Trunc(x: real): (r: int)
    ensures 0.0 <= x ==> 0 <= r && r as real <= x < r as real + 1.0
    ensures x < 0.0 ==> r <= 0 && r as real - 1.0 < x <= r as real
  {
    if 0.0 <= x then x.Floor else -((-x).Floor)
  }

  function BoolMagnitude(b: bool): int {
    if b then 1 else 0
  }

  /** An integer as the decimal constructor accepts one: a boolean is an
      integer. */
  predicate IntegerLike(v: Value) {
    v.Int? || v.Bool?
  }

  function IntegerOf(v: Value): int
    requires IntegerLike(v)
  {
    if v.Bool? then BoolMagnitude(v.b) else v.i
  }

  /** A decimal digit. */
  predicate Digit(v: Value) {
    IntegerLike(v) && 0 <= IntegerOf(v) <= 9
  }

  /** Every element is a decimal digit. */
  predicate Digits(digits: seq<Value>) {
    forall k :: 0 <= k < |digits| ==> Digit(digits[k])
  }

  /** The number some digits spell, most significant first. */
  function Coefficient(digits: seq<Value>): nat
    requires Digits(digits)
  {
    if |digits| == 0 then 0
    else
      var last := digits[|digits| - 1];
      assert Digit(last);
      Coefficient(digits[..|digits| - 1]) * 10 + IntegerOf(last)
  }

  function Power10(n: nat): (r: nat)
    ensures r > 0
  {
    if n == 0 then 1 else 10 * Power10(n - 1)
  }

  /** Ten to an integer power. */
  function Scale(e: int): (r: real)
    ensures r > 0.0
  {
    if e >= 0 then Power10(e) as real else 1.0 / Power10(-e) as real
  }

  /** The magnitude a coefficient and an exponent denote. */
  function Shifted(c: nat, e: int): real {
    c as real * Scale(e)
  }

  /** `Decimal((sign, digits, exponent))`: a sign of 0 or 1, a list or tuple
      of digits, and an integer exponent, or `'n'` for a NaN. Any other
      shape is refused with a value error. */
  function DecimalFromTriple(items: seq<Value>): (r: Result<Value>)
    ensures |items| != 3 ==> r == Err(ValueError(NotADecimalTuple))
    ensures r.Err? ==> r.error == ValueError(NotADecimalTuple)
    ensures r.Ok? ==> r.value.Decimal? || r.value.DecimalNaN?
  {
    if |items| != 3 then Err(ValueError(NotADecimalTuple))
    else
      var sign, digits, exponent := items[0], items[1], items[2];
      if !(Digit(sign) && IntegerOf(sign) <= 1) then Err(ValueError(NotADecimalTuple))
      else if !(digits.List? || TupleLike(digits)) then Err(ValueError(NotADecimalTuple))
      else
        var ds := SequenceItems(digits);
        if !Digits(ds) then Err(ValueError(NotADecimalTuple))
        else if exponent == Str("n") then Ok(DecimalNaN)
        else if !IntegerLike(exponent) then Err(ValueError(NotADecimalTuple))
        else
          var magnitude := Shifted(Coefficient(ds), IntegerOf(exponent));
          Ok(Decimal(if IntegerOf(sign) == 1 then -magnitude else magnitude))
  }

  /** `Decimal(v)`: numbers keep their magnitude, NaNs become the decimal
      NaN, text is read as a decimal literal, lists and tuples are read as
      a (sign, digits, exponent) triple, and nothing else converts. */
  function ToDecimal(v: Value, p: Parsers): (r: Result<Value>)
    ensures Number(v) ==> r == Ok(Decimal(Magnitude(v)))
    ensures v.NaN? || v.DecimalNaN? ==> r == Ok(DecimalNaN)
    ensures (v.List? || TupleLike(v)) && |SequenceItems(v)| != 3 ==> r == Err(ValueError(NotADecimalTuple))
    ensures (v.List? || TupleLike(v)) && r.Err? ==> r.error == ValueError(NotADecimalTuple)
    ensures v.Null? || v.Time? || v.Dict? ==> r == Err(TypeError(NotConvertible))
    ensures r.Ok? ==> r.value.Decimal? || r.value.DecimalNaN?
  {
    match v
    case Bool(b) => Ok(Decimal(BoolMagnitude(b) as real))
    case Int(i) => Ok(Decimal(i as real))
    case Float(x) => Ok(Decimal(x))
    case NaN => Ok(DecimalNaN)
    case Decimal(_) => Ok(v)
    case DecimalNaN => Ok(v)
    case Str(s) =>
      (match p.decimalText(s)
       case Finite(r) => Ok(Decimal(r))
       case NotANumber => Ok(DecimalNaN)
       case Malformed => Err(InvalidOperation))
    case List(items) => DecimalFromTriple(items)
    case Tuple(items) => DecimalFromTriple(items)
    case Range(_, _) => DecimalFromTriple(Items(v))
    case Not(_) => DecimalFromTriple(Items(v))
    case _ => Err(TypeError(NotConvertible))
  }

  /** One more unit of exponent is worth a factor of ten. */
  lemma ScaleStep(e: int)
    ensures Scale(e + 1) == 10.0 * Scale(e)
  {
    if e < 0 {
      var n := Power10(-(e + 1)) as real;
      assert Power10(-e) as real == 10.0 * n;
      if e + 1 < 0 {
        assert Scale(e + 1) == 1.0 / n;
      } else {
        assert n == 1.0;
      }
      assert 10.0 * (1.0 / (10.0 * n)) == 1.0 / n;
    }
  }

  /** A well-formed triple with an integer exponent is a finite decimal. */
  lemma FiniteTriple(sign: Value, ds: seq<Value>, e: int)
    requires Digit(sign) && IntegerOf(sign) <= 1
    requires Digits(ds)
    ensures var m := Shifted(Coefficient(ds), e);
            DecimalFromTriple([sign, Tuple(ds), Int(e)]) == Ok(Decimal(if IntegerOf(sign) == 1 then -m else m))
  {
    var items := [sign, Tuple(ds), Int(e)];
    assert items[1] == Tuple(ds) && items[2] == Int(e) && items[0] == sign;
    assert SequenceItems(Tuple(ds)) == ds;
    assert IntegerOf(Int(e)) == e;
    assert Int(e) != Str("n");
  }

  /** Moving a unit of exponent into a trailing zero digit denotes the same
      decimal: `(s, ds, e + 1)` and `(s, ds + [0], e)` are one number. */
  lemma ExponentIntoTrailingZero(sign: Value, ds: seq<Value>, e: int)
    requires Digit(sign) && IntegerOf(sign) <= 1
    requires Digits(ds)
    ensures DecimalFromTriple([sign, Tuple(ds), Int(e + 1)]) == DecimalFromTriple([sign, Tuple(ds + [Int(0)]), Int(e)])
  {
    var longer := ds + [Int(0)];
    var c := Coefficient(ds);
    assert Coefficient(longer) == c * 10 by {
      assert longer[..|longer| - 1] == ds;
    }
    assert Shifted(c, e + 1) == Shifted(Coefficient(longer), e) by {
      ScaleStep(e);
      assert c as real * Scale(e + 1) == (c as real * 10.0) * Scale(e);
    }
    assert Digits(longer) by {
      forall k | 0 <= k < |longer| ensures Digit(longer[k]) {
        if k < |ds| {
          assert longer[k] == ds[k];
        }
      }
    }
    FiniteTriple(sign, ds, e + 1);
    FiniteTriple(sign, longer, e);
  }

  /** The triple form read on examples: digits 1414 at exponent -3 are
      1.414, and a sign of 1 negates. */
  lemma DecimalTripleExamples(p: Parsers)
    ensures ToDecimal(Tuple([Int(0), Tuple([Int(1), Int(4), Int(1), Int(4)]), Int(-3)]), p) == Ok(Decimal(1.414))
    ensures ToDecimal(List([Int(1), List([Int(2)]), Int(2)]), p) == Ok(Decimal(-200.0))
  {
    var ds := [Int(1), Int(4), Int(1), Int(4)];
    assert Coefficient(ds) == 1414 by {
      assert ds[..3] == [Int(1), Int(4), Int(1)];
      assert ds[..3][..2] == [Int(1), Int(4)];
      assert ds[..3][..2][..1] == [Int(1)];
      assert [Int(1)][..0] == [];
      assert Coefficient([Int(1)]) == 1;
      assert Coefficient([Int(1), Int(4)]) == 14;
      assert Coefficient([Int(1), Int(4), Int(1)]) == 141;
    }
    assert Scale(-3) == 1.0 / 1000.0;
    assert Coefficient([Int(2)]) == 2 by {
      assert [Int(2)][..0] == [];
    }
  }

  /** A bad sign or digit, or a tuple of the wrong length, is a value
      error. */
  lemma DecimalTripleRefusals(p: Parsers)
    ensures ToDecimal(Tuple([Int(2), Tuple([]), Int(0)]), p) == Err(ValueError(NotADecimalTuple))
    ensures ToDecimal(Tuple([Int(0), Tuple([Int(10)]), Int(0)]), p) == Err(ValueError(NotADecimalTuple))
    ensures ToDecimal(Range(Int(1), Int(2)), p) == Err(ValueError(NotADecimalTuple))
  {
    assert !Digit(Tuple([Int(10)]).items[0]);
  }

  /** `int(v)`: numbers are truncated toward zero, a NaN cannot be
      converted, text is read as an integer literal, and nothing else
      converts. */
  function ToInt(v: Value, p: Parsers): (r: Result<Value>)
    ensures Number(v) ==> r == Ok(Int(Trunc(Magnitude(v))))
    ensures v.NaN? || v.DecimalNaN? ==> r == Err(ValueError(CannotConvertNaN))
    ensures !Values.Numeric(v) && !v.Str? ==> r == Err(TypeError(NotConvertible))
    ensures r.Ok? ==> r.value.Int?
  {
    match v
    case Bool(b) => Ok(Int(BoolMagnitude(b)))
    case Int(_) => Ok(v)
    case Float(x) => Ok(Int(Trunc(x)))
    case NaN => Err(ValueError(CannotConvertNaN))
    case Decimal(d) => Ok(Int(Trunc(d)))
    case DecimalNaN => Err(ValueError(CannotConvertNaN))
    case Str(s) =>
      (match p.intText(s)
       case Some(i) => Ok(Int(i))
       case None => Err(ValueError(NotConvertible)))
    case _ => Err(TypeError(NotConvertible))
  }

  /** `float(v)`: numbers keep their magnitude, NaNs become the float NaN,
      text is read as a float literal, and nothing else converts. */
  function ToFloat(v: Value, p: Parsers): (r: Result<Value>)
    ensures Number(v) ==> r == Ok(Float(Magnitude(v)))
    ensures v.NaN? || v.DecimalNaN? ==> r == Ok(NaN)
    ensures !Values.Numeric(v) && !v.Str? ==> r == Err(TypeError(NotConvertible))
    ensures r.Ok? ==> r.value.Float? || r.value.NaN?
  {
    match v
    case Bool(b) => Ok(Float(BoolMagnitude(b) as real))
    case Int(i) => Ok(Float(i as real))
    case Float(_) => Ok(v)
    case NaN => Ok(v)
    case Decimal(d) => Ok(Float(d))
    case DecimalNaN => Ok(NaN)
    case Str(s) =>
      (match p.floatText(s)
       case Finite(r) => Ok(Float(r))
       case NotANumber => Ok(NaN)
       case Malformed => Err(ValueError(NotConvertible)))
    case _ => Err(TypeError(NotConvertible))
  }

  /** Parses a raw document value into the field's domain. String fields
      keep the document value as it is. */
  function ParseValue(kind: Kind, v: Value, p: Parsers): (r: Result<Value>)
    ensures kind == Text ==> r == Ok(v)
    ensures !v.Null? && r.Ok? ==> !r.value.Null?
    ensures r.Ok? && kind == Numeric ==> r.value.Decimal? || r.value.DecimalNaN?
    ensures r.Ok? && kind == Integer ==> r.value.Int?
    ensures r.Ok? && kind == Double ==> r.value.Float? || r.value.NaN?
    ensures r.Ok? && kind == Date ==> r.value.Time?
    ensures NumericKind(kind) && Number(v) ==> r.Ok? && Number(r.value)
    ensures (kind == Numeric || kind == Double) && Number(v) ==> Magnitude(r.value) == Magnitude(v)
    ensures kind == Integer && Number(v) ==> r.value == Int(Trunc(Magnitude(v)))
    ensures kind == Integer && v.NaN? ==> r == Err(ValueError(CannotConvertNaN))
    ensures kind == Double && v.NaN? ==> r == Ok(NaN)
    ensures kind == Numeric && (v.List? || TupleLike(v)) && |SequenceItems(v)| != 3 ==> r == Err(ValueError(NotADecimalTuple))
    ensures kind == Numeric && (v.List? || TupleLike(v)) && r.Err? ==> r.error == ValueError(NotADecimalTuple)
    ensures (kind == Integer || kind == Double) && !Values.Numeric(v) && !v.Str? ==> r == Err(TypeError(NotConvertible))
  {
    match kind
    case Text => Ok(v)
    case Numeric => ToDecimal(v, p)
    case Integer => ToInt(v, p)
    case Double => ToFloat(v, p)
    case Date =>
      (match p.parseTime(v)
       case Some(t) => Ok(Time(t))
       case None => Err(ValueError(NotReadableAsDate)))
  }

  /** The key paths an offset specification denotes. A specification whose
      first element is a string is one path; otherwise each element is a
      path. An empty specification is refused. */
  function OffsetPaths(offsets: Value): (r: Result<seq<Value>>)
    ensures !Truthy(offsets) ==> r == Err(ValueError(NoOffset))
    ensures (offsets.List? || offsets.Tuple?) && |offsets.items| > 0 ==>
              r == (if offsets.items[0].Str? then Ok([offsets]) else Ok(offsets.items))
    ensures offsets.Str? && Truthy(offsets) ==> r == Ok([offsets])
  {
    if !Truthy(offsets) then Err(ValueError(NoOffset))
    else match offsets
      case List(items) => if items[0].Str? then Ok([offsets]) else Ok(items)
      case Tuple(items) => if items[0].Str? then Ok([offsets]) else Ok(items)
      case Range(b, e) => if b.Str? then Ok([offsets]) else Ok([b, e])
      case Not(x) => if x.Str? then Ok([offsets]) else Ok([x])
      case Str(_) => Ok([offsets])
      case Dict(_) => Err(KeyError(Int(0)))
      case _ => Err(TypeError(NotSubscriptable))
  }

  /** The value at each path, in order. */
  function Resolve(paths: seq<Value>, doc: Value): (r: seq<Value>)
    ensures |r| == |paths|
    ensures forall k :: 0 <= k < |paths| ==> r[k] == GetIn(paths[k], doc)
  {
    seq(|paths|, k requires 0 <= k < |paths| => GetIn(paths[k], doc))
  }

  /** The values that are not Null, in order. */
  function Present(vs: seq<Value>): (r: seq<Value>)
    ensures forall x :: x in r <==> x in vs && !x.Null?
    ensures |r| <= |vs|
  {
    if |vs| == 0 then []
    else if vs[0].Null? then Present(vs[1..])
    else [vs[0]] + Present(vs[1..])
  }

  /** Parses every value, failing with the first failure. */
  function ParseAll(kind: Kind, vs: seq<Value>, p: Parsers): (r: Result<seq<Value>>)
    ensures r.Ok? <==> forall k :: 0 <= k < |vs| ==> ParseValue(kind, vs[k], p).Ok?
    ensures r.Ok? ==> |r.value| == |vs| &&
                      forall k :: 0 <= k < |vs| ==> ParseValue(kind, vs[k], p) == Ok(r.value[k])
  {
    if |vs| == 0 then Ok([])
    else
      var head :- ParseValue(kind, vs[0], p);
      var tail :- ParseAll(kind, vs[1..], p);
      assert forall k :: 1 <= k < |vs| ==> vs[k] == vs[1..][k - 1];
      Ok([head] + tail)
  }

  /** The parsed values found at the offsets of a specification. */
  function Found(doc: Value, offsets: Value, kind: Kind, p: Parsers): (r: Result<seq<Value>>)
    ensures OffsetPaths(offsets).Err? ==> r == Err(OffsetPaths(offsets).error)
    ensures r.Ok? ==> |r.value| <= |OffsetPaths(offsets).value|
    ensures r.Ok? ==> forall k :: 0 <= k < |r.value| ==> !r.value[k].Null?
  {
    var paths :- OffsetPaths(offsets);
    ParseAll(kind, Present(Resolve(paths, doc)), p)
  }

  /** The value of an offset specification in a document: Null when no path
      is present, the one parsed value when one is, and the policy's
      combination of the parsed values when several are. */
  function ExtractOffsetValue(doc: Value, offsets: Value, kind: Kind, policy: Policy, p: Parsers): (r: Result<Value>)
    ensures !Truthy(offsets) ==> r == Err(ValueError(NoOffset))
    ensures Found(doc, offsets, kind, p).Err? ==> r.Err?
    ensures Found(doc, offsets, kind, p).Ok? ==>
              var vs := Found(doc, offsets, kind, p).value;
              && (|vs| == 0 ==> r == Ok(Null))
              && (|vs| == 1 ==> r == Ok(vs[0]))
              && (|vs| > 1 ==> r == Combine(policy, vs))
  {
    var vs :- Found(doc, offsets, kind, p);
    if |vs| == 0 then Ok(Null)
    else if |vs| == 1 then Ok(vs[0])
    else Combine(policy, vs)
  }

  /** The value of a field in a document. A range field yields Null when
      neither end is truthy, and the `Range` of its two ends otherwise. */
  function Extract(f: Field, doc: Value, p: Parsers): (r: Result<Value>)
    ensures f.Simple? ==> r == ExtractOffsetValue(doc, f.offset, f.kind, f.policy, p)
    ensures f.Ranged? && r.Ok? ==>
              var lo := ExtractOffsetValue(doc, f.minOffset, f.kind, Least, p);
              var hi := ExtractOffsetValue(doc, f.maxOffset, f.kind, Greatest, p);
              && lo.Ok? && hi.Ok?
              && (r.value == Null <==> !Truthy(lo.value) && !Truthy(hi.value))
              && (r.value != Null ==> r.value == Range(lo.value, hi.value))
    ensures f.Ranged? ==>
              var lo := ExtractOffsetValue(doc, f.minOffset, f.kind, Least, p);
              var hi := ExtractOffsetValue(doc, f.maxOffset, f.kind, Greatest, p);
              && (lo.Err? ==> r == Err(lo.error))
              && (lo.Ok? && hi.Err? ==> r == Err(hi.error))
    decreases f.Ranged?
  {
    match f
    case Simple(_, _, _, kind, offset, policy) => ExtractOffsetValue(doc, offset, kind, policy, p)
    case Ranged(_, _, _, _, _, _) =>
      var lo :- Extract(Lower(f), doc, p);
      var hi :- Extract(Greater(f), doc, p);
      if !Truthy(lo) && !Truthy(hi) then Ok(Null) else Ok(Range(lo, hi))
  }

  /** Splits a value into exactly two parts, as `low, high = value` does. */
  function Unpack(v: Value): (r: Result<(Value, Value)>)
    ensures v.Range? ==> r == Ok((v.begin, v.end))
    ensures (v.List? || v.Tuple?) ==> (r.Ok? <==> |v.items| == 2)
  {
    match Elements(v)
    case None => Err(TypeError(NotUnpackable))
    case Some(parts) => if |parts| == 2 then Ok((parts[0], parts[1])) else Err(ValueError(NotUnpackable))
  }

  /** A scalar value converted for comparison with a column of the kind;
      date fields read strings as ISO-8601 and refuse non-dates. */
  function Cast(kind: Kind, v: Value, p: Parsers): (r: Result<Value>)
    ensures kind != Date ==> r == Ok(v)
    ensures kind == Date && r.Ok? ==> r.value.Time?
    ensures kind == Date && v.Time? ==> r == Ok(v)
    ensures kind == Date && !v.Time? && !v.Str? ==> r == Err(ValueError(NotReadableAsDate))
  {
    if kind != Date then Ok(v)
    else match v
      case Time(_) => Ok(v)
      case Str(s) =>
        (match p.isoTime(s)
         case Some(t) => Ok(Time(t))
         case None => Err(ValueError(NotReadableAsDate)))
      case _ => Err(ValueError(NotReadableAsDate))
  }

  /** A value as compared with the field's document column: scalars are
      cast, range values become closed ranges. No NaN is refused here. */
  function ValueToColumn(f: Field, v: Value, p: Parsers): (r: Result<IndexValue>)
    requires f.Ranged? ==> f.kind != Text
    ensures f.Simple? && NumericKind(f.kind) ==> r == Ok(Plain(v))
    ensures f.Ranged? && r.Ok? ==> r.value.Closed?
    ensures f.Ranged? ==> (r.Ok? <==> Unpack(v).Ok?)
  {
    match f
    case Simple(_, _, _, kind, _, _) =>
      var c :- Cast(kind, v, p);
      Ok(Plain(c))
    case Ranged(_, _, _, _, _, _) =>
      var (lo, hi) :- Unpack(v);
      Ok(Closed(lo, hi))
  }

  /** A value as stored in and compared with the search index. Numeric and
      date scalars become the degenerate closed range `[v, v]`; a float NaN
      cannot be indexed, neither as a scalar nor as either end of a range. */
  function SearchValue(f: Field, v: Value): (r: Result<IndexValue>)
    requires f.Ranged? ==> f.kind != Text
    ensures f.Simple? && f.kind == Text ==> r == Ok(Plain(v))
    ensures f.Simple? && NumericKind(f.kind) && v.NaN? ==> r == Err(UnindexableValue)
    ensures f.Simple? && f.kind != Text && !(NumericKind(f.kind) && v.NaN?) ==> r == Ok(Closed(v, v))
    ensures f.Ranged? && NumericKind(f.kind) && Unpack(v).Ok? ==>
              var (lo, hi) := Unpack(v).value;
              r == (if lo.NaN? || hi.NaN? then Err(UnindexableValue) else Ok(Closed(lo, hi)))
    ensures f.Ranged? && f.kind == Date && Unpack(v).Ok? ==> r == Ok(Closed(Unpack(v).value.0, Unpack(v).value.1))
    ensures f.Ranged? && Unpack(v).Err? ==> r.Err? && r.error != UnindexableValue
  {
    match f
    case Simple(_, _, _, kind, _, _) =>
      if kind == Text then Ok(Plain(v))
      else if NumericKind(kind) && v.NaN? then Err(UnindexableValue)
      else Ok(Closed(v, v))
    case Ranged(_, _, _, kind, _, _) =>
      var (lo, hi) :- Unpack(v);
      if NumericKind(kind) && lo.NaN? then Err(UnindexableValue)
      else if NumericKind(kind) && hi.NaN? then Err(UnindexableValue)
      else Ok(Closed(lo, hi))
  }

  /** A bare year, integer or float, read as January 1st of that year;
      any other value is kept. The year must lie in 1..9999. */
  function NumberImpliesYear(v: Value): (r: Result<Value>)
    ensures (v.Int? && 1 <= v.i <= 9999) ==> r == Ok(Time(YearStart(v.i)))
    ensures (v.Float? && 1 <= Trunc(v.x) <= 9999) ==> r == Ok(Time(YearStart(Trunc(v.x))))
    ensures !(v.Int? || v.Bool? || v.Float? || v.NaN?) ==> r == Ok(v)
    ensures r.Ok? && (v.Int? || v.Bool? || v.Float?) ==> r.value.Time? && r.value.t.tick == 0
    ensures v.Int? && CInt(v.i) && !(1 <= v.i <= 9999) ==> r == Err(ValueError(YearOutOfRange(v.i)))
    ensures v.Float? && CInt(Trunc(v.x)) && !(1 <= Trunc(v.x) <= 9999) ==> r == Err(ValueError(YearOutOfRange(Trunc(v.x))))
    ensures v.Int? && !CInt(v.i) ==> r == Err(OverflowError)
    ensures v.Float? && !CInt(Trunc(v.x)) ==> r == Err(OverflowError)
    ensures v.Bool? ==> r == if v.b then Ok(Time(YearStart(1))) else Err(ValueError(YearOutOfRange(0)))
    ensures v.NaN? ==> r == Err(ValueError(CannotConvertNaN))
  {
    match v
    case Bool(b) => Year(BoolMagnitude(b))
    case Int(i) => Year(i)
    case Float(x) => Year(Trunc(x))
    case NaN => Err(ValueError(CannotConvertNaN))
    case _ => Ok(v)
  }

  /** Whether an integer fits the C `int` that `datetime` reads a year into. */
  predicate CInt(n: int) {
    -0x8000_0000 <= n < 0x8000_0000
  }

  /** `datetime(year, 1, 1)`: the year is read as a C `int` first, which
      overflows for larger magnitudes, and then range-checked. */
  function Year(year: int): (r: Result<Value>)
    ensures r.Ok? <==> 1 <= year <= 9999
    ensures r.Ok? ==> r.value == Time(YearStart(year))
    ensures r.Err? ==> (r.error == OverflowError <==> !CInt(year))
    ensures r.Err? && CInt(year) ==> r.error == ValueError(YearOutOfRange(year))
  {
    if !CInt(year) then Err(OverflowError)
    else if 1 <= year <= 9999 then Ok(Time(YearStart(year)))
    else Err(ValueError(YearOutOfRange(year)))
  }

  /** `field == value`: equality on a scalar field, containment of the cast
      value on a range field. */
  function EqualsPredicate(f: Field, v: Value, p: Parsers): (r: Result<Expr>)
    requires f.Ranged? ==> f.kind != Text
    ensures f.Simple? ==> r == Ok(Equals(f, v))
    ensures f.Ranged? ==> (r.Ok? <==> Cast(f.kind, v, p).Ok?)
    ensures f.Ranged? && r.Ok? ==> r.value == RangeContains(f, Cast(f.kind, v, p).value)
    ensures f.Ranged? && NumericKind(f.kind) ==> r == Ok(RangeContains(f, v))
  {
    match f
    case Simple(_, _, _, _, _, _) => Ok(Equals(f, v))
    case Ranged(_, _, _, kind, _, _) =>
      var c :- ValueToColumn(Lower(f), v, p);
      Ok(RangeContains(f, c.v))
  }

  /** `field.between(low, high)`. String fields have none; numeric scalars,
      indexed as ranges, and range fields overlap the closed range
      `[low, high]`; date scalars compare with both bounds; date ranges read
      bare years first and then require both bounds to be dates. */
  function BetweenPredicate(f: Field, low: Value, high: Value): (r: Result<Expr>)
    requires f.Ranged? ==> f.kind != Text
    ensures f.Simple? && f.kind == Text ==> r == Err(NotImplemented)
    ensures f.Simple? && NumericKind(f.kind) ==> r == Ok(RangeBetween(f, low, high))
    ensures f.Simple? && f.kind == Date ==> r == Ok(ValueBetween(f, low, high))
    ensures f.Ranged? && NumericKind(f.kind) ==> r == Ok(RangeBetween(f, low, high))
    ensures f.Ranged? && f.kind == Date && r.Ok? ==>
              r.value.RangeBetween? && r.value.low.Time? && r.value.high.Time?
    ensures f.Ranged? && f.kind == Date && NumberImpliesYear(low).Ok? && NumberImpliesYear(high).Ok? ==>
              var (lo, hi) := (NumberImpliesYear(low).value, NumberImpliesYear(high).value);
              r == (if lo.Time? && hi.Time? then Ok(RangeBetween(f, lo, hi))
                    else Err(ValueError(NotADateRange(lo, hi))))
  {
    match f
    case Simple(_, _, _, kind, _, _) =>
      if kind == Text then Err(NotImplemented)
      else if kind == Date then Ok(ValueBetween(f, low, high))
      else Ok(RangeBetween(f, low, high))
    case Ranged(_, _, _, kind, _, _) =>
      if kind != Date then Ok(RangeBetween(f, low, high))
      else
        var lo :- NumberImpliesYear(low);
        var hi :- NumberImpliesYear(high);
        if lo.Time? && hi.Time? then Ok(RangeBetween(f, lo, hi))
        else Err(ValueError(NotADateRange(lo, hi)))
  }

  /** The comparison of a value-between predicate: both bounds, one bound,
      or an error when neither is given. */
  function BetweenCondition(low: Value, high: Value): (r: Result<Condition>)
    ensures r.Err? <==> low.Null? && high.Null?
    ensures r.Err? ==> r.error == ValueError(MissingBounds)
    ensures r.Ok? ==> (r.value.Within? <==> !low.Null? && !high.Null?)
    ensures r.Ok? ==> (r.value.AtLeast? <==> !low.Null? && high.Null?)
    ensures r.Ok? ==> (r.value.Within? || r.value.AtLeast? ==> r.value.low == low)
    ensures r.Ok? ==> (r.value.Within? || r.value.AtMost? ==> r.value.high == high)
  {
    if !low.Null? && !high.Null? then Ok(Within(low, high))
    else if !low.Null? then Ok(AtLeast(low))
    else if !high.Null? then Ok(AtMost(high))
    else Err(ValueError(MissingBounds))
  }

  /** Evaluates `field == value` against a document in memory. */
  function EvaluateEquals(f: Field, v: Value, doc: Value, p: Parsers): (r: Result<bool>)
    requires f.Simple?
    ensures r.Ok? <==> Extract(f, doc, p).Ok?
    ensures r.Ok? ==> (r.value <==> Equal(Extract(f, doc, p).value, v))
  {
    var x :- Extract(f, doc, p);
    Ok(Equal(x, v))
  }
}
