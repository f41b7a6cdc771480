/**
 The field registry: turning a metadata type's `search_fields` document
 into search fields.

 Each entry names a field and describes it with a mapping: its `type`
 (`string` when absent), an optional `description`, an `indexed` flag
 (true when absent) and the constructor arguments of the field class the
 type names. `float-range` is kept as an alias of `numeric-range`. The
 scalar `numeric` class is not registered, so `numeric` is an unknown type
 name here even though the index schema knows it.
 */
module Registry {
  import opened Values
  import opened Selection
  import opened Fields
  import Schema

  /** The type names the registry accepts. */
  const RegisteredTypes: set<string> := {
    "string", "integer", "double", "datetime",
    "numeric-range", "integer-range", "double-range", "datetime-range", "float-range"
  }

  /** The type name a registered name stands for: `float-range` is an
      alias of `numeric-range`, every other name stands for itself. */
  function CanonicalTypeName(t: string): string {
    if t == "float-range" then "numeric-range" else t
  }

  /** What a registered type name builds: a scalar or a range field, and
      its value domain. */
  datatype FieldClass = FieldClass(ranged: bool, kind: Kind)

  /** A class the registry can build: no text ranges and no scalar of the
      unregistered numeric class. */
  predicate Buildable(cls: FieldClass) {
    if cls.ranged then cls.kind != Text else cls.kind != Numeric
  }

  /** The registered type name of every buildable class. */
  lemma BuildableIsRegistered(f: Field)
    requires Buildable(FieldClass(f.Ranged?, f.kind))
    ensures TypeName(f) in RegisteredTypes - {"float-range"}
  {
  }

  /** ASCII lower case. No other character lowers to a letter of "true",
      so comparing the result with "true" is exact. */
  function AsciiLower(s: string): (r: string)
    ensures |r| == |s|
    ensures forall k :: 0 <= k < |s| ==>
              r[k] == if 'A' <= s[k] <= 'Z' then (s[k] as int + 32) as char else s[k]
  {
    if |s| == 0 then ""
    else [if 'A' <= s[0] <= 'Z' then (s[0] as int + 32) as char else s[0]] + AsciiLower(s[1..])
  }

  /** The `indexed` setting: a string means true exactly when it spells
      "true" in any letter case; any other value counts by its truthiness. */
  function IndexedFlag(v: Value): (r: bool)
    ensures v.Str? ==> (r <==> |v.s| == 4 && v.s[0] in "tT" && v.s[1] in "rR" && v.s[2] in "uU" && v.s[3] in "eE")
    ensures !v.Str? ==> r == Truthy(v)
  {
    match v
    case Str(s) => AsciiLower(s) == "true"
    case _ => Truthy(v)
  }

  /** The class a type name is registered under. An unhashable type name
      cannot be looked up; any other unregistered one is refused naming the
      field and the type. */
  function ClassNamed(name: string, typeName: Value): (r: Result<FieldClass>)
    ensures r.Ok? <==> typeName.Str? && typeName.s in RegisteredTypes
    ensures r.Err? && Hashable(typeName) ==> r.error == ValueError(UnknownFieldType(name, typeName))
    ensures r.Err? && !Hashable(typeName) ==> r.error == TypeError(Unhashable)
    ensures r.Ok? ==> (r.value.ranged <==> typeName.s in {"numeric-range", "integer-range", "double-range", "datetime-range", "float-range"})
    ensures r.Ok? ==> (r.value.kind == Text <==> typeName.s == "string")
    ensures r.Ok? ==> Buildable(r.value)
    ensures r.Ok? ==> KindTypeName(r.value.ranged, r.value.kind) == CanonicalTypeName(typeName.s)
  {
    if !Hashable(typeName) then Err(TypeError(Unhashable))
    else match typeName
      case Str(s) =>
        if s == "string" then Ok(FieldClass(false, Text))
        else if s == "integer" then Ok(FieldClass(false, Integer))
        else if s == "double" then Ok(FieldClass(false, Double))
        else if s == "datetime" then Ok(FieldClass(false, Date))
        else if s == "numeric-range" || s == "float-range" then Ok(FieldClass(true, Numeric))
        else if s == "integer-range" then Ok(FieldClass(true, Integer))
        else if s == "double-range" then Ok(FieldClass(true, Double))
        else if s == "datetime-range" then Ok(FieldClass(true, Date))
        else Err(ValueError(UnknownFieldType(name, typeName)))
      case _ => Err(ValueError(UnknownFieldType(name, typeName)))
  }

  /** The keyword arguments a field class takes besides the common ones. */
  function Parameters(cls: FieldClass): set<string> {
    if cls.ranged then {"min_offset", "max_offset"} else {"offset", "selection"}
  }

  /** Calls the field class with the remaining descriptor entries as
      keyword arguments. Binding an argument the class does not take, or
      looking up an unhashable selection, raises a type error, reported as
      a runtime error naming the field and the type. */
  function Construct(name: string, typeName: string, cls: FieldClass, description: Value, indexed: bool,
                     args: seq<(string, Value)>): (r: Result<Field>)
    ensures (exists k :: 0 <= k < |args| && args[k].0 !in Parameters(cls)) ==>
              r == Err(RuntimeError(UnexpectedArgument(name, typeName)))
    ensures r.Ok? ==> r.value.name == name && r.value.kind == cls.kind && r.value.Ranged? == cls.ranged
    ensures r.Ok? ==> r.value.description == description && r.value.indexed == indexed
    ensures r.Ok? && r.value.Simple? ==>
              r.value.offset == Get(args, "offset", Null) &&
              PolicyNamed(Get(args, "selection", Str("first"))) == Ok(r.value.policy)
    ensures r.Ok? && r.value.Ranged? ==>
              r.value.minOffset == Get(args, "min_offset", Null) &&
              r.value.maxOffset == Get(args, "max_offset", Null)
    ensures r.Ok? <==> (forall k :: 0 <= k < |args| ==> args[k].0 in Parameters(cls)) &&
                       (cls.ranged || PolicyNamed(Get(args, "selection", Str("first"))).Ok?)
    ensures !cls.ranged && (forall k :: 0 <= k < |args| ==> args[k].0 in Parameters(cls)) ==>
              var selection := Get(args, "selection", Str("first"));
              && (PolicyNamed(selection).Err? && Hashable(selection) ==> r == Err(ValueError(UnknownSelection(selection))))
              && (!Hashable(selection) ==> r == Err(RuntimeError(UnexpectedArgument(name, typeName))))
  {
    if exists k :: 0 <= k < |args| && args[k].0 !in Parameters(cls) then
      Err(RuntimeError(UnexpectedArgument(name, typeName)))
    else if cls.ranged then
      Ok(Ranged(name, description, indexed, cls.kind, Get(args, "min_offset", Null), Get(args, "max_offset", Null)))
    else
      match PolicyNamed(Get(args, "selection", Str("first")))
      case Ok(policy) => Ok(Simple(name, description, indexed, cls.kind, Get(args, "offset", Null), policy))
      case Err(TypeError(_)) => Err(RuntimeError(UnexpectedArgument(name, typeName)))
      case Err(e) => Err(e)
  }

  /** The descriptor entries left for the field class: all but `type`,
      `description` and `indexed`. */
  function Arguments(entries: seq<(string, Value)>): (r: seq<(string, Value)>)
    ensures forall e :: e in r <==> e in entries && e.0 !in {"type", "description", "indexed"}
  {
    Without(Without(Without(entries, "type"), "description"), "indexed")
  }

  /** One field from its name and descriptor. The descriptor must be a
      mapping: a list has no keyed `pop`, and other values have no `copy`. */
  function ParseField(name: string, descriptor: Value): (r: Result<Field>)
    ensures !descriptor.Dict? && !descriptor.List? ==> r == Err(AttributeError)
    ensures descriptor.List? ==> r == Err(TypeError(NotAMapping))
    ensures descriptor.Dict? ==>
              var typeName := Get(descriptor.entries, "type", Str("string"));
              && (ClassNamed(name, typeName).Err? ==> r == Err(ClassNamed(name, typeName).error))
              && (r.Ok? ==> typeName.Str? && typeName.s in RegisteredTypes)
              && (r.Ok? ==> r.value.description == Get(descriptor.entries, "description", Null))
              && (r.Ok? ==> r.value.indexed == IndexedFlag(Get(descriptor.entries, "indexed", Str("true"))))
    ensures r.Ok? ==> r.value.name == name
    ensures r.Ok? ==> TypeName(r.value) in RegisteredTypes - {"float-range"}
    ensures descriptor.Dict? && r.Ok? ==>
              TypeName(r.value) == CanonicalTypeName(Get(descriptor.entries, "type", Str("string")).s)
  {
    match descriptor
    case Dict(entries) =>
      var typeName := Get(entries, "type", Str("string"));
      var description := Get(entries, "description", Null);
      var indexed := IndexedFlag(Get(entries, "indexed", Str("true")));
      var args := Arguments(entries);
      var cls :- ClassNamed(name, typeName);
      var r := Construct(name, typeName.s, cls, description, indexed, args);
      if r.Ok? then BuildableIsRegistered(r.value); r else r
    case List(_) => Err(TypeError(NotAMapping))
    case _ => Err(AttributeError)
  }

  /** The names of a mapping's entries. */
  function Names(entries: seq<(string, Value)>): (r: set<string>)
    ensures forall n :: n in r <==> exists k :: 0 <= k < |entries| && entries[k].0 == n
  {
    set k | 0 <= k < |entries| :: entries[k].0
  }

  /** Applies a fallible function to every element in order, failing with
      the first failure. */
  function Collect<A, B>(f: A -> Result<B>, xs: seq<A>): (r: Result<seq<B>>)
    ensures r.Ok? <==> forall k :: 0 <= k < |xs| ==> f(xs[k]).Ok?
    ensures r.Ok? ==> |r.value| == |xs| && forall k :: 0 <= k < |xs| ==> r.value[k] == f(xs[k]).value
  {
    if |xs| == 0 then Ok([])
    else
      var head :- f(xs[0]);
      var tail :- Collect(f, xs[1..]);
      assert forall k :: 1 <= k < |xs| ==> xs[k] == xs[1..][k - 1];
      Ok([head] + tail)
  }

  /** The error of a failed collection is that of the first element that
      fails. */
  lemma {:induction false} CollectFirstError<A, B>(f: A -> Result<B>, xs: seq<A>)
    requires Collect(f, xs).Err?
    ensures exists k :: 0 <= k < |xs| && f(xs[k]).Err? && Collect(f, xs).error == f(xs[k]).error &&
                        forall j :: 0 <= j < k ==> f(xs[j]).Ok?
  {
    if f(xs[0]).Ok? {
      var tail := xs[1..];
      CollectFirstError(f, tail);
      var k :| 0 <= k < |tail| && f(tail[k]).Err? && Collect(f, tail).error == f(tail[k]).error &&
               forall j :: 0 <= j < k ==> f(tail[j]).Ok?;
      assert xs[k + 1] == tail[k];
      assert forall j :: 1 <= j < k + 1 ==> xs[j] == tail[j - 1];
    }
  }

  /** Parses every entry of a `search_fields` document in order. */
  function ParseEach(entries: seq<(string, Value)>): (r: Result<seq<Field>>)
    ensures r.Ok? <==> forall k :: 0 <= k < |entries| ==> ParseField(entries[k].0, entries[k].1).Ok?
    ensures r.Ok? ==> |r.value| == |entries| &&
                      forall k :: 0 <= k < |entries| ==> r.value[k] == ParseField(entries[k].0, entries[k].1).value
  {
    Collect((e: (string, Value)) => ParseField(e.0, e.1), entries)
  }

  /** The error of a failed parse is that of the first entry that fails. */
  lemma ParseEachFirstError(entries: seq<(string, Value)>)
    requires ParseEach(entries).Err?
    ensures exists k :: 0 <= k < |entries| && ParseField(entries[k].0, entries[k].1).Err? &&
                        ParseEach(entries).error == ParseField(entries[k].0, entries[k].1).error &&
                        forall j :: 0 <= j < k ==> ParseField(entries[j].0, entries[j].1).Ok?
  {
    CollectFirstError((e: (string, Value)) => ParseField(e.0, e.1), entries);
  }

  /** The names of some fields. */
  function FieldNames(fields: seq<Field>): (r: set<string>)
    ensures forall n :: n in r <==> exists k :: 0 <= k < |fields| && fields[k].name == n
  {
    set k | 0 <= k < |fields| :: fields[k].name
  }

  /** Fields by name; of two fields with one name the later is kept. */
  function ByName(fields: seq<Field>): (m: map<string, Field>)
    ensures m.Keys == FieldNames(fields)
    ensures forall n :: n in m ==> m[n].name == n
  {
    if |fields| == 0 then map[]
    else
      var rest := ByName(fields[1..]);
      assert FieldNames(fields) == {fields[0].name} + FieldNames(fields[1..]) by {
        assert forall k :: 1 <= k < |fields| ==> fields[k] == fields[1..][k - 1];
      }
      if fields[0].name in rest then rest else rest[fields[0].name := fields[0]]
  }

  /** A field whose name no later field repeats is the one kept under its
      name. */
  lemma {:induction false} ByNameKeepsLatest(fields: seq<Field>, k: nat)
    requires k < |fields|
    requires forall j :: k < j < |fields| ==> fields[j].name != fields[k].name
    ensures ByName(fields)[fields[k].name] == fields[k]
  {
    var rest := ByName(fields[1..]);
    if k > 0 {
      assert fields[1..][k - 1] == fields[k];
      assert forall j :: k - 1 < j < |fields[1..]| ==> fields[1..][j].name != fields[1..][k - 1].name by {
        assert forall j :: k - 1 < j < |fields[1..]| ==> fields[1..][j] == fields[j + 1];
      }
      ByNameKeepsLatest(fields[1..], k - 1);
    }
  }

  /** Fields named after the entries, one by one, have the entries' names. */
  lemma SameNames(fields: seq<Field>, entries: seq<(string, Value)>)
    requires |fields| == |entries|
    requires forall k :: 0 <= k < |entries| ==> fields[k].name == entries[k].0
    ensures FieldNames(fields) == Names(entries)
  {
  }

  /** The parsed fields carry the entries' names. */
  lemma ParsedNames(entries: seq<(string, Value)>)
    requires ParseEach(entries).Ok?
    ensures FieldNames(ParseEach(entries).value) == Names(entries)
  {
    var fields := ParseEach(entries).value;
    forall k | 0 <= k < |entries|
      ensures fields[k].name == entries[k].0
    {
      assert fields[k] == ParseField(entries[k].0, entries[k].1).value;
    }
    SameNames(fields, entries);
  }

  /** The search fields a `search_fields` document defines, by name. */
  function ParseFields(doc: Value): (r: Result<map<string, Field>>)
    ensures !doc.Dict? ==> r == Err(AttributeError)
    ensures doc.Dict? ==> (r.Ok? <==> ParseEach(doc.entries).Ok?)
    ensures doc.Dict? && r.Err? ==> r.error == ParseEach(doc.entries).error
    ensures r.Ok? ==> r.value.Keys == Names(doc.entries)
    ensures r.Ok? ==> forall n :: n in r.value ==> r.value[n].name == n
  {
    match doc
    case Dict(entries) =>
      var fields :- ParseEach(entries);
      ParsedNames(entries);
      Ok(ByName(fields))
    case _ => Err(AttributeError)
  }

  /** With distinct names, each entry's field is the one registered under
      its name. */
  lemma ParseFieldsPerEntry(doc: Value, k: nat)
    requires doc.Dict? && DistinctKeys(doc.entries) && k < |doc.entries|
    requires ParseFields(doc).Ok?
    ensures ParseFields(doc).value[doc.entries[k].0] == ParseField(doc.entries[k].0, doc.entries[k].1).value
  {
    var fields := ParseEach(doc.entries).value;
    assert forall j :: 0 <= j < |fields| ==> fields[j].name == doc.entries[j].0;
    ByNameKeepsLatest(fields, k);
  }

  lemma GetHead(key: string, v: Value, rest: seq<(string, Value)>, default: Value)
    ensures Get([(key, v)] + rest, key, default) == v
  {
  }

  lemma WithoutAbsent(entries: seq<(string, Value)>, key: string)
    requires forall k :: 0 <= k < |entries| ==> entries[k].0 != key
    ensures Without(entries, key) == entries
  {
    if |entries| > 0 {
      WithoutAbsent(entries[1..], key);
      assert entries == [entries[0]] + entries[1..];
    }
  }

  /** The steps of parsing a mapping descriptor. */
  lemma ParseFieldSteps(name: string, entries: seq<(string, Value)>)
    ensures var typeName := Get(entries, "type", Str("string"));
            var cls := ClassNamed(name, typeName);
            ParseField(name, Dict(entries)) ==
              if cls.Err? then Err(cls.error)
              else Construct(name, typeName.s, cls.value, Get(entries, "description", Null),
                             IndexedFlag(Get(entries, "indexed", Str("true"))), Arguments(entries))
  {
    var typeName := Get(entries, "type", Str("string"));
    var cls := ClassNamed(name, typeName);
    if cls.Ok? {
      var r := Construct(name, typeName.s, cls.value, Get(entries, "description", Null),
                         IndexedFlag(Get(entries, "indexed", Str("true"))), Arguments(entries));
      assert ParseField(name, Dict(entries)) == r;
    }
  }

  lemma ConstructDefaultScalar(name: string, kind: Kind, offset: Value)
    ensures Construct(name, "string", FieldClass(false, kind), Null, true, [("offset", offset)])
            == Ok(Simple(name, Null, true, kind, offset, First))
  {
    var args := [("offset", offset)];
    assert Get(args, "selection", Str("first")) == Str("first");
    GetHead("offset", offset, [], Null);
    assert args == [("offset", offset)] + [];
  }

  lemma DefaultDescriptor(offset: Value)
    ensures var entries := [("offset", offset)];
            && Get(entries, "type", Str("string")) == Str("string")
            && Get(entries, "description", Null) == Null
            && IndexedFlag(Get(entries, "indexed", Str("true")))
            && Arguments(entries) == entries
  {
    var entries := [("offset", offset)];
    assert Get(entries, "indexed", Str("true")) == Str("true");
    WithoutAbsent(entries, "type");
    WithoutAbsent(entries, "description");
    WithoutAbsent(entries, "indexed");
  }

  lemma ClassOfString(name: string)
    ensures ClassNamed(name, Str("string")) == Ok(FieldClass(false, Text))
  {
  }

  /** A descriptor that only gives an offset defines an indexed string
      field selecting the first present value. */
  lemma DefaultIsIndexedString(name: string, offset: Value)
    ensures ParseField(name, Dict([("offset", offset)])) == Ok(Simple(name, Null, true, Text, offset, First))
  {
    ParseFieldSteps(name, [("offset", offset)]);
    DefaultDescriptor(offset);
    ClassOfString(name);
    ConstructDefaultScalar(name, Text, offset);
  }

  /** Parsing a mapping descriptor succeeds exactly when its type is
      registered, every remaining entry is an argument the class takes, and
      a scalar's selection names a policy. */
  lemma ParseFieldSucceeds(name: string, entries: seq<(string, Value)>)
    ensures var typeName := Get(entries, "type", Str("string"));
            var args := Arguments(entries);
            ParseField(name, Dict(entries)).Ok? <==>
              && typeName.Str? && typeName.s in RegisteredTypes
              && (forall k :: 0 <= k < |args| ==> args[k].0 in Parameters(ClassNamed(name, typeName).value))
              && (ClassNamed(name, typeName).value.ranged || PolicyNamed(Get(args, "selection", Str("first"))).Ok?)
  {
    ParseFieldSteps(name, entries);
  }

  /** A descriptor without a `type` entry describes a string field: if it
      parses, it is a scalar field of text. */
  lemma UntypedIsString(name: string, entries: seq<(string, Value)>)
    requires forall k :: 0 <= k < |entries| ==> entries[k].0 != "type"
    ensures var r := ParseField(name, Dict(entries));
            r.Ok? ==> r.value.Simple? && r.value.kind == Text
  {
    var r := ParseField(name, Dict(entries));
    if r.Ok? {
      KindTypeNameInjective(r.value.Ranged?, r.value.kind, false, Text);
    }
  }

  lemma ClassOfAlias(name: string)
    ensures ClassNamed(name, Str("float-range")) == ClassNamed(name, Str("numeric-range")) == Ok(FieldClass(true, Numeric))
  {
  }

  lemma SameArguments(name: string, rest: seq<(string, Value)>, t1: string, t2: string)
    ensures var e1, e2 := [("type", Str(t1))] + rest, [("type", Str(t2))] + rest;
            && Arguments(e1) == Arguments(e2)
            && Get(e1, "description", Null) == Get(e2, "description", Null)
            && Get(e1, "indexed", Str("true")) == Get(e2, "indexed", Str("true"))
  {
    var e1, e2 := [("type", Str(t1))] + rest, [("type", Str(t2))] + rest;
    assert e1[1..] == rest == e2[1..];
    assert Without(e1, "type") == Without(e2, "type");
  }

  lemma RangeConstructIgnoresTypeName(name: string, t1: string, t2: string, description: Value, indexed: bool,
                                      args: seq<(string, Value)>)
    ensures var r1 := Construct(name, t1, FieldClass(true, Numeric), description, indexed, args);
            var r2 := Construct(name, t2, FieldClass(true, Numeric), description, indexed, args);
            (r1.Ok? <==> r2.Ok?) && (r1.Ok? ==> r1 == r2)
  {
  }

  /** `float-range` builds exactly what `numeric-range` builds. */
  lemma FloatRangeIsNumericRange(name: string, rest: seq<(string, Value)>)
    ensures var r1 := ParseField(name, Dict([("type", Str("float-range"))] + rest));
            var r2 := ParseField(name, Dict([("type", Str("numeric-range"))] + rest));
            && (r1.Ok? <==> r2.Ok?)
            && (r1.Ok? ==> r1 == r2 && TypeName(r1.value) == "numeric-range" && r1.value.Ranged?)
  {
    var e1, e2 := [("type", Str("float-range"))] + rest, [("type", Str("numeric-range"))] + rest;
    ParseFieldSteps(name, e1);
    ParseFieldSteps(name, e2);
    GetHead("type", Str("float-range"), rest, Str("string"));
    GetHead("type", Str("numeric-range"), rest, Str("string"));
    SameArguments(name, rest, "float-range", "numeric-range");
    ClassOfAlias(name);
    RangeConstructIgnoresTypeName(name, "float-range", "numeric-range", Get(e1, "description", Null),
      IndexedFlag(Get(e1, "indexed", Str("true"))), Arguments(e1));
  }

  lemma ClassOfNumeric(name: string)
    ensures ClassNamed(name, Str("numeric")) == Err(ValueError(UnknownFieldType(name, Str("numeric"))))
  {
  }

  /** The scalar `numeric` type is not registered: it is refused as an
      unknown type naming the field. */
  lemma NumericIsUnknown(name: string, rest: seq<(string, Value)>)
    ensures ParseField(name, Dict([("type", Str("numeric"))] + rest))
            == Err(ValueError(UnknownFieldType(name, Str("numeric"))))
  {
    GetHead("type", Str("numeric"), rest, Str("string"));
    ClassOfNumeric(name);
  }

  /** A field given an argument its class does not take, such as a range
      bound on a scalar type, is refused with a runtime error naming the
      field and its type. */
  lemma UnexpectedArgumentIsRuntimeError(name: string, t: string, rest: seq<(string, Value)>, bad: string)
    requires t in RegisteredTypes
    requires bad !in {"type", "description", "indexed"}
    requires bad !in Parameters(ClassNamed(name, Str(t)).value)
    requires exists k :: 0 <= k < |rest| && rest[k].0 == bad
    ensures ParseField(name, Dict([("type", Str(t))] + rest)) == Err(RuntimeError(UnexpectedArgument(name, t)))
  {
    var entries := [("type", Str(t))] + rest;
    ParseFieldSteps(name, entries);
    GetHead("type", Str(t), rest, Str("string"));
    var k :| 0 <= k < |rest| && rest[k].0 == bad;
    assert rest[k] in entries;
    assert rest[k] in Arguments(entries);
  }

  /** An integer field given a minimum offset is refused. */
  lemma MinOffsetOnScalarIsRuntimeError(name: string, offset: Value)
    ensures ParseField(name, Dict([("type", Str("integer")), ("min_offset", offset)]))
            == Err(RuntimeError(UnexpectedArgument(name, "integer")))
  {
    assert [("type", Str("integer")), ("min_offset", offset)] == [("type", Str("integer"))] + [("min_offset", offset)];
    assert [("min_offset", offset)][0].0 == "min_offset";
    UnexpectedArgumentIsRuntimeError(name, "integer", [("min_offset", offset)], "min_offset");
  }

  /** The search table that indexes a field of each domain. */
  function TableFor(kind: Kind): Schema.SearchTable {
    match kind
    case Text => Schema.DatasetSearchString
    case Date => Schema.DatasetSearchDateTime
    case _ => Schema.DatasetSearchNumeric
  }

  /** The table of every type name the registry builds. */
  lemma BuiltTypesAreIndexed(f: Field)
    requires TypeName(f) in RegisteredTypes - {"float-range"}
    ensures TypeName(f) in Schema.SearchFieldIndexMap()
    ensures Schema.SearchFieldIndexMap()[TypeName(f)] == TableFor(f.kind)
  {
    Schema.IndexMapContents();
  }

  lemma {:induction false} ByNameMember(fields: seq<Field>, n: string)
    requires n in ByName(fields)
    ensures ByName(fields)[n] in fields
  {
    var rest := ByName(fields[1..]);
    if n in rest {
      ByNameMember(fields[1..], n);
      assert rest[n] in fields[1..];
    }
  }

  /** Every field the registry builds has a search table, the one of its
      value domain, whether it is a scalar or a range. */
  lemma RegisteredFieldsAreIndexable(doc: Value, n: string)
    requires ParseFields(doc).Ok? && n in ParseFields(doc).value
    ensures var f := ParseFields(doc).value[n];
            && TypeName(f) in Schema.SearchFieldIndexMap()
            && Schema.SearchFieldIndexMap()[TypeName(f)] == TableFor(f.kind)
  {
    var fields := ParseEach(doc.entries).value;
    var f := ParseFields(doc).value[n];
    assert f == ByName(fields)[n];
    ByNameMember(fields, n);
    var k :| 0 <= k < |fields| && fields[k] == f;
    assert TypeName(f) in RegisteredTypes - {"float-range"};
    BuiltTypesAreIndexed(f);
  }
}
