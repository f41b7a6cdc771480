/**
 Properties of reading field values out of documents: which path wins under
 `first`, order independence under `least`, and the range-field examples
 the catalog's own design documents use.
 */
module Extraction {
  import opened Values
  import opened Ordering
  import opened Selection
  import opened Fields

  /** The first present value of a sequence is preceded only by Nulls. */
  lemma {:induction false} PresentHead(vs: seq<Value>)
    requires |Present(vs)| > 0
    ensures exists j :: 0 <= j < |vs| && vs[j] == Present(vs)[0] && !vs[j].Null? &&
                        forall i :: 0 <= i < j ==> vs[i].Null?
  {
    if vs[0].Null? {
      PresentHead(vs[1..]);
      var j :| 0 <= j < |vs[1..]| && vs[1..][j] == Present(vs[1..])[0] && !vs[1..][j].Null? &&
               forall i :: 0 <= i < j ==> vs[1..][i].Null?;
      assert vs[j + 1] == Present(vs)[0];
      forall i | 0 <= i < j + 1
        ensures vs[i].Null?
      {
        if i > 0 {
          assert vs[i] == vs[1..][i - 1];
        }
      }
    } else {
      assert vs[0] == Present(vs)[0];
    }
  }

  /** Under `first`, the value is the first value found, or Null when
      nothing is found. */
  lemma FirstOfFound(doc: Value, offsets: Value, kind: Kind, p: Parsers)
    requires Found(doc, offsets, kind, p).Ok?
    ensures var vs := Found(doc, offsets, kind, p).value;
            ExtractOffsetValue(doc, offsets, kind, First, p) == if |vs| == 0 then Ok(Null) else Ok(vs[0])
  {
    var vs := Found(doc, offsets, kind, p).value;
    if |vs| > 1 {
      assert vs[0] in vs;
      assert Combine(First, vs) == Ok(Coalesce(vs));
    }
  }

  /** No value is present exactly when every path reads None; otherwise the
      first present value comes from the earliest path that does not. */
  lemma EarliestPresent(paths: seq<Value>, doc: Value)
    ensures var vs := Present(Resolve(paths, doc));
            && (|vs| == 0 <==> forall k :: 0 <= k < |paths| ==> GetIn(paths[k], doc).Null?)
            && (|vs| > 0 ==> exists j :: 0 <= j < |paths| && GetIn(paths[j], doc) == vs[0] && !vs[0].Null? &&
                                         forall i :: 0 <= i < j ==> GetIn(paths[i], doc).Null?)
  {
    var resolved := Resolve(paths, doc);
    if |Present(resolved)| == 0 {
      forall k | 0 <= k < |paths|
        ensures GetIn(paths[k], doc).Null?
      {
        assert resolved[k] in resolved;
      }
    } else {
      PresentHead(resolved);
    }
    if forall k :: 0 <= k < |paths| ==> GetIn(paths[k], doc).Null? {
      if |Present(resolved)| > 0 {
        assert Present(resolved)[0] in Present(resolved);
      }
    }
  }

  /** Under `first`, a field yields the parsed value of the earliest path
      that is present in the document, or Null when none is. */
  lemma FirstTakesEarliestPresentPath(doc: Value, offsets: Value, kind: Kind, p: Parsers)
    requires OffsetPaths(offsets).Ok? && Found(doc, offsets, kind, p).Ok?
    ensures var paths := OffsetPaths(offsets).value;
            var r := ExtractOffsetValue(doc, offsets, kind, First, p);
            && r.Ok?
            && (r.value.Null? <==> forall k :: 0 <= k < |paths| ==> GetIn(paths[k], doc).Null?)
            && (!r.value.Null? ==>
                  exists j :: 0 <= j < |paths| && !GetIn(paths[j], doc).Null? &&
                              ParseValue(kind, GetIn(paths[j], doc), p) == Ok(r.value) &&
                              forall i :: 0 <= i < j ==> GetIn(paths[i], doc).Null?)
  {
    var paths := OffsetPaths(offsets).value;
    var present := Present(Resolve(paths, doc));
    var vs := Found(doc, offsets, kind, p).value;
    FirstOfFound(doc, offsets, kind, p);
    EarliestPresent(paths, doc);
    assert |vs| == |present|;
    if |vs| > 0 {
      assert ParseValue(kind, present[0], p) == Ok(vs[0]);
    }
  }

  /** An offset specification that is a single key path reads that one
      path. */
  lemma SinglePathFound(doc: Value, path: Value, kind: Kind, p: Parsers)
    requires path.List? && |path.items| > 0 && path.items[0].Str?
    ensures var x := GetIn(path, doc);
            Found(doc, path, kind, p) ==
              if x.Null? then Ok([])
              else if ParseValue(kind, x, p).Ok? then Ok([ParseValue(kind, x, p).value])
              else Err(ParseValue(kind, x, p).error)
  {
    var x := GetIn(path, doc);
    assert OffsetPaths(path) == Ok([path]);
    assert Resolve([path], doc) == [x];
    assert [x][1..] == [];
    assert Present([x]) == if x.Null? then [] else [x];
    if !x.Null? {
      assert ParseAll(kind, [x][1..], p) == Ok([]);
      var r := ParseValue(kind, x, p);
      if r.Ok? {
        assert [r.value] + [] == [r.value];
        assert ParseAll(kind, [x], p) == Ok([r.value]);
      } else {
        assert ParseAll(kind, [x], p) == Err(r.error);
      }
    }
  }

  /** Through a single key path that is present, a field of any policy
      yields the parsed value at that path. */
  lemma SinglePathExtract(doc: Value, path: Value, kind: Kind, policy: Policy, p: Parsers)
    requires path.List? && |path.items| > 0 && path.items[0].Str?
    requires !GetIn(path, doc).Null?
    ensures ExtractOffsetValue(doc, path, kind, policy, p) == ParseValue(kind, GetIn(path, doc), p)
  {
    SinglePathFound(doc, path, kind, p);
  }

  /** A string field read through one key path that is present yields the
      document's value there as it is, and `==` compares that value. */
  lemma StringFieldComparesRawValue(f: Field, doc: Value, v: Value, p: Parsers)
    requires f.Simple? && f.kind == Text
    requires f.offset.List? && |f.offset.items| > 0 && f.offset.items[0].Str?
    requires !GetIn(f.offset, doc).Null?
    ensures EvaluateEquals(f, v, doc, p) == Ok(Equal(GetIn(f.offset, doc), v))
  {
    SinglePathExtract(doc, f.offset, Text, f.policy, p);
  }

  /** On a string field, `==` compares a mapping by its content whatever
      the order of its keys. */
  lemma StringFieldComparesMappingsByContent(f: Field, p: Parsers)
    requires f.Simple? && f.kind == Text && f.offset == List([Str("a")])
    ensures EvaluateEquals(f, Dict([("y", Int(2)), ("x", Int(1))]),
                           Dict([("a", Dict([("x", Int(1)), ("y", Int(2))]))]), p) == Ok(true)
  {
    var inner := Dict([("x", Int(1)), ("y", Int(2))]);
    var doc := Dict([("a", inner)]);
    assert Walk([Str("a")], doc) == inner;
    StringFieldComparesRawValue(f, doc, Dict([("y", Int(2)), ("x", Int(1))]), p);
    MappingsIgnoreKeyOrder(Int(1), Int(2));
  }

  /** On a string field, `==` compares a list element by element. */
  lemma StringFieldComparesListsByElement(f: Field, p: Parsers)
    requires f.Simple? && f.kind == Text && f.offset == List([Str("a")])
    ensures EvaluateEquals(f, List([Float(1.0)]), Dict([("a", List([Int(1)]))]), p) == Ok(true)
  {
    var doc := Dict([("a", List([Int(1)]))]);
    assert Walk([Str("a")], doc) == List([Int(1)]);
    StringFieldComparesRawValue(f, doc, List([Float(1.0)]), p);
    ListsCompareElementsByValue();
  }

  /** A range field combines the values of its two ends. */
  lemma RangeFromEnds(f: Field, doc: Value, p: Parsers, lo: Value, hi: Value)
    requires f.Ranged?
    requires Extract(Lower(f), doc, p) == Ok(lo) && Extract(Greater(f), doc, p) == Ok(hi)
    ensures Extract(f, doc, p) == if !Truthy(lo) && !Truthy(hi) then Ok(Null) else Ok(Range(lo, hi))
  {
  }

  /** A list of two key paths reads the two paths in order. */
  lemma TwoPathsFound(doc: Value, a: Value, b: Value, kind: Kind, p: Parsers)
    requires a.List? && b.List?
    ensures Found(doc, List([a, b]), kind, p) == ParseAll(kind, Present([GetIn(a, doc), GetIn(b, doc)]), p)
  {
    assert Resolve([a, b], doc) == [GetIn(a, doc), GetIn(b, doc)];
  }

  lemma PresentOfTwo(x: Value, y: Value)
    ensures Present([x, y]) == (if x.Null? then [] else [x]) + (if y.Null? then [] else [y])
  {
    assert [x, y][1..] == [y] && [y][1..] == [];
  }

  lemma ParseOne(kind: Kind, x: Value, p: Parsers)
    ensures ParseAll(kind, [x], p) ==
              if ParseValue(kind, x, p).Ok? then Ok([ParseValue(kind, x, p).value])
              else Err(ParseValue(kind, x, p).error)
  {
    assert [x][1..] == [];
    if ParseValue(kind, x, p).Ok? {
      assert [ParseValue(kind, x, p).value] + [] == [ParseValue(kind, x, p).value];
    }
  }

  lemma ParseTwo(kind: Kind, x: Value, y: Value, p: Parsers)
    ensures ParseAll(kind, [x, y], p).Ok? <==> ParseValue(kind, x, p).Ok? && ParseValue(kind, y, p).Ok?
    ensures ParseAll(kind, [x, y], p).Ok? ==>
              ParseAll(kind, [x, y], p).value == [ParseValue(kind, x, p).value, ParseValue(kind, y, p).value]
  {
    assert [x, y][1..] == [y];
    ParseOne(kind, y, p);
    if ParseValue(kind, x, p).Ok? && ParseValue(kind, y, p).Ok? {
      assert [ParseValue(kind, x, p).value] + [ParseValue(kind, y, p).value]
          == [ParseValue(kind, x, p).value, ParseValue(kind, y, p).value];
    }
  }

  lemma MultisetSwap(a: Value, b: Value)
    ensures multiset([a, b]) == multiset([b, a])
  {
  }

  /** Swapping two values permutes what parsing their present ones yields. */
  lemma SwapParsed(kind: Kind, x: Value, y: Value, p: Parsers)
    requires ParseAll(kind, Present([x, y]), p).Ok?
    ensures ParseAll(kind, Present([y, x]), p).Ok?
    ensures multiset(ParseAll(kind, Present([x, y]), p).value) == multiset(ParseAll(kind, Present([y, x]), p).value)
  {
    PresentOfTwo(x, y);
    PresentOfTwo(y, x);
    if !x.Null? && !y.Null? {
      assert Present([x, y]) == [x, y] && Present([y, x]) == [y, x];
      ParseTwo(kind, x, y, p);
      ParseTwo(kind, y, x, p);
      MultisetSwap(ParseValue(kind, x, p).value, ParseValue(kind, y, p).value);
    } else if !x.Null? {
      assert Present([x, y]) == Present([y, x]) == [x];
    } else if !y.Null? {
      assert Present([x, y]) == Present([y, x]) == [y];
    } else {
      assert Present([x, y]) == Present([y, x]) == [];
    }
  }

  /** Swapping two key paths permutes the values found. */
  lemma SwapFound(doc: Value, a: Value, b: Value, kind: Kind, p: Parsers)
    requires a.List? && b.List?
    requires Found(doc, List([a, b]), kind, p).Ok?
    ensures Found(doc, List([b, a]), kind, p).Ok?
    ensures multiset(Found(doc, List([a, b]), kind, p).value) == multiset(Found(doc, List([b, a]), kind, p).value)
  {
    TwoPathsFound(doc, a, b, kind, p);
    TwoPathsFound(doc, b, a, kind, p);
    SwapParsed(kind, GetIn(a, doc), GetIn(b, doc), p);
  }

  /** A permutation of comparable values has the same length, the same
      single value when there is one, and an equal `least`. */
  lemma LeastOfPermutation(vs: seq<Value>, ws: seq<Value>)
    requires multiset(vs) == multiset(ws) && Comparable(vs)
    ensures |vs| == |ws|
    ensures |vs| == 1 ==> vs[0] == ws[0]
    ensures |vs| > 1 ==> Minimum(vs).Ok? && Minimum(ws).Ok? && Equal(Minimum(vs).value, Minimum(ws).value)
  {
    assert |vs| == |multiset(vs)| == |ws|;
    if |vs| == 1 {
      assert vs[0] in multiset(ws);
    } else if |vs| > 1 {
      MinimumIgnoresOrder(vs, ws);
    }
  }

  /** Under `least`, listing two offsets in either order yields equal
      values, as long as the values found are comparable. */
  lemma LeastIgnoresOffsetOrder(doc: Value, a: Value, b: Value, kind: Kind, p: Parsers)
    requires a.List? && b.List?
    requires Found(doc, List([a, b]), kind, p).Ok?
    requires Comparable(Found(doc, List([a, b]), kind, p).value)
    ensures var r1 := ExtractOffsetValue(doc, List([a, b]), kind, Least, p);
            var r2 := ExtractOffsetValue(doc, List([b, a]), kind, Least, p);
            r1.Ok? && r2.Ok? && (r1.value == r2.value || Equal(r1.value, r2.value))
  {
    SwapFound(doc, a, b, kind, p);
    var vs := Found(doc, List([a, b]), kind, p).value;
    var ws := Found(doc, List([b, a]), kind, p).value;
    LeastOfPermutation(vs, ws);
    var r1 := ExtractOffsetValue(doc, List([a, b]), kind, Least, p);
    var r2 := ExtractOffsetValue(doc, List([b, a]), kind, Least, p);
    if |vs| == 0 {
      assert r1 == r2 == Ok(Null);
    } else if |vs| == 1 {
      assert r1 == Ok(vs[0]) && r2 == Ok(ws[0]);
    } else {
      assert r1 == Minimum(vs) && r2 == Minimum(ws);
    }
  }

  /** The two single-key paths `["a"]` and `["b"]` read a two-key mapping. */
  lemma TwoKeyDocument(m: Value, n: Value)
    ensures GetIn(List([Str("a")]), Dict([("a", m), ("b", n)])) == m
    ensures GetIn(List([Str("b")]), Dict([("a", m), ("b", n)])) == n
  {
    var doc := Dict([("a", m), ("b", n)]);
    assert Walk([Str("a")], doc) == Walk([], m);
    assert Get(doc.entries[1..], "b", Null) == n;
    assert Walk([Str("b")], doc) == Walk([], n);
  }

  /** The integers at keys `a` and `b`, parsed as integers, are found in
      that order. */
  lemma FoundTwoIntegers(m: int, n: int, p: Parsers)
    ensures Found(Dict([("a", Int(m)), ("b", Int(n))]), List([List([Str("a")]), List([Str("b")])]), Integer, p)
            == Ok([Int(m), Int(n)])
  {
    var doc := Dict([("a", Int(m)), ("b", Int(n))]);
    TwoKeyDocument(Int(m), Int(n));
    TwoPathsFound(doc, List([Str("a")]), List([Str("b")]), Integer, p);
    PresentOfTwo(Int(m), Int(n));
    ParseTwo(Integer, Int(m), Int(n), p);
  }

  /** `least` of two integers is the smaller. */
  lemma MinimumOfTwo(m: int, n: int)
    ensures Minimum([Int(m), Int(n)]) == Ok(Int(if n < m then n else m))
  {
    var vs := [Int(m), Int(n)];
    assert vs[0] == Int(m) && vs[1..] == [Int(n)] && [Int(n)][1..] == [];
    assert Less(Int(n), Int(m)) == Ok(n < m);
    var next := if n < m then Int(n) else Int(m);
    assert MinimumFrom(Int(m), [Int(n)]) == MinimumFrom(next, []);
  }

  /** Offsets `[["a"], ["b"]]` under `least` on `{a: m, b: n}` give the
      smaller of the two integers. */
  lemma LeastOfTwoKeys(m: int, n: int, p: Parsers)
    ensures ExtractOffsetValue(
              Dict([("a", Int(m)), ("b", Int(n))]),
              List([List([Str("a")]), List([Str("b")])]), Integer, Least, p)
            == Ok(Int(if n < m then n else m))
  {
    FoundTwoIntegers(m, n, p);
    MinimumOfTwo(m, n);
    assert Combine(Least, [Int(m), Int(n)]) == Minimum([Int(m), Int(n)]);
  }

  /** A single key path to an integer reads, for a numeric field, the
      integer as a decimal, whatever the policy. */
  lemma IntegerAtPath(doc: Value, path: Value, policy: Policy, x: int, p: Parsers)
    requires path.List? && |path.items| > 0 && path.items[0].Str?
    requires GetIn(path, doc) == Int(x)
    ensures ExtractOffsetValue(doc, path, Numeric, policy, p) == Ok(Decimal(x as real))
  {
    SinglePathExtract(doc, path, Numeric, policy, p);
  }

  /** A numeric range field whose two offsets are single key paths to the
      integers `m` and `n` reads the range of the two decimals, or Null
      when both are zero. */
  lemma RangeOfIntegerEnds(f: Field, doc: Value, m: int, n: int, p: Parsers)
    requires f.Ranged? && f.kind == Numeric
    requires f.minOffset.List? && |f.minOffset.items| > 0 && f.minOffset.items[0].Str?
    requires f.maxOffset.List? && |f.maxOffset.items| > 0 && f.maxOffset.items[0].Str?
    requires GetIn(f.minOffset, doc) == Int(m) && GetIn(f.maxOffset, doc) == Int(n)
    ensures Extract(f, doc, p)
            == if m == 0 && n == 0 then Ok(Null) else Ok(Range(Decimal(m as real), Decimal(n as real)))
  {
    var lov, hiv := Decimal(m as real), Decimal(n as real);
    IntegerAtPath(doc, f.minOffset, Least, m, p);
    IntegerAtPath(doc, f.maxOffset, Greatest, n, p);
    assert Extract(Lower(f), doc, p) == Ok(lov);
    assert Extract(Greater(f), doc, p) == Ok(hiv);
    RangeFromEnds(f, doc, p, lov, hiv);
    assert !Truthy(lov) && !Truthy(hiv) <==> m == 0 && n == 0;
  }

  /** A numeric range field with offsets `["a"]` and `["b"]` reads
      `{a: m, b: n}` as the range of the two decimals, and as Null when
      both ends are zero, exactly as when both are absent: the ends are
      tested for truthiness, not for presence. */
  lemma RangeOfTwoKeys(m: int, n: int, p: Parsers)
    ensures var f := Ranged("r", Null, true, Numeric, List([Str("a")]), List([Str("b")]));
            Extract(f, Dict([("a", Int(m)), ("b", Int(n))]), p)
            == if m == 0 && n == 0 then Ok(Null) else Ok(Range(Decimal(m as real), Decimal(n as real)))
  {
    TwoKeyDocument(Int(m), Int(n));
    RangeOfIntegerEnds(Ranged("r", Null, true, Numeric, List([Str("a")]), List([Str("b")])),
                       Dict([("a", Int(m)), ("b", Int(n))]), m, n, p);
  }
}
