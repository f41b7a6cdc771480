/**
 Order and equality facts about the `<` and `==` operators of module
 Values: `==` is symmetric and compares containers by content; `<` orders
 sequences at their first difference, and on values of one comparable
 class (non-NaN numbers, strings, instants) it is a strict total order up
 to equality.
 */
module Ordering {
  import opened Values

  /** `a < b` evaluates to true. */
  predicate Lt(a: Value, b: Value) {
    Less(a, b) == Ok(true)
  }

  /** Two values `<` can order without raising and without NaN surprises. */
  predicate SameClass(a: Value, b: Value) {
    (Number(a) && Number(b)) || (a.Str? && b.Str?) || (a.Time? && b.Time?)
  }

  /** All elements belong to one comparable class. */
  predicate Comparable(vs: seq<Value>) {
    || (forall k :: 0 <= k < |vs| ==> Number(vs[k]))
    || (forall k :: 0 <= k < |vs| ==> vs[k].Str?)
    || (forall k :: 0 <= k < |vs| ==> vs[k].Time?)
  }

  lemma ComparableMembers(vs: seq<Value>, a: Value, b: Value)
    requires Comparable(vs)
    requires a in vs && b in vs
    ensures SameClass(a, b)
  {
  }

  /** Values drawn from a comparable sequence are comparable. */
  lemma ComparableSubset(vs: seq<Value>, ws: seq<Value>)
    requires Comparable(vs)
    requires forall x :: x in ws ==> x in vs
    ensures Comparable(ws)
  {
    assert forall k :: 0 <= k < |ws| ==> ws[k] in vs;
  }

  lemma {:induction false} LexLessIrreflexive(s: string)
    ensures !LexLess(s, s)
  {
    if |s| > 0 {
      LexLessIrreflexive(s[1..]);
    }
  }

  lemma {:induction false} LexLessTransitive(s: string, t: string, u: string)
    requires LexLess(s, t) && LexLess(t, u)
    ensures LexLess(s, u)
  {
    if |s| > 0 && s[0] == t[0] && t[0] == u[0] {
      LexLessTransitive(s[1..], t[1..], u[1..]);
    }
  }

  lemma {:induction false} LexLessTotal(s: string, t: string)
    ensures LexLess(s, t) || LexLess(t, s) || s == t
  {
    if |s| > 0 && |t| > 0 && s[0] == t[0] {
      LexLessTotal(s[1..], t[1..]);
      if s[1..] == t[1..] {
        assert s == [s[0]] + s[1..] && t == [t[0]] + t[1..];
      }
    }
  }

  lemma LessIrreflexive(a: Value)
    requires SameClass(a, a)
    ensures !Lt(a, a)
  {
    if a.Str? {
      LexLessIrreflexive(a.s);
    }
  }

  lemma LessTransitive(a: Value, b: Value, c: Value)
    requires SameClass(a, b) && SameClass(b, c)
    requires Lt(a, b) && Lt(b, c)
    ensures Lt(a, c)
  {
    if a.Str? {
      LexLessTransitive(a.s, b.s, c.s);
    }
  }

  /** Two values of one class are ordered one way or the other, or equal. */
  lemma LessTotal(a: Value, b: Value)
    requires SameClass(a, b)
    ensures Lt(a, b) || Lt(b, a) || Equal(a, b)
  {
    if a.Str? {
      LexLessTotal(a.s, b.s);
    }
  }

  lemma LessAsymmetric(a: Value, b: Value)
    requires SameClass(a, b)
    requires Lt(a, b)
    ensures !Lt(b, a)
  {
    if Lt(b, a) {
      LessTransitive(a, b, a);
      LessIrreflexive(a);
    }
  }

  /** `==` does not depend on the order of its operands. */
  lemma {:induction false} EqualSymmetric(a: Value, b: Value)
    ensures Equal(a, b) <==> Equal(b, a)
    decreases a, 1
  {
    if a.List? && b.List? {
      ListsEqualSymmetric(a, b);
    } else if TupleLike(a) && TupleLike(b) {
      TuplesEqualSymmetric(a, b);
    } else if a.Dict? && b.Dict? {
      MappingsEqualSymmetric(a, b);
    }
  }

  lemma {:induction false} ListsEqualSymmetric(a: Value, b: Value)
    requires a.List? && b.List?
    ensures Equal(a, b) <==> Equal(b, a)
    decreases a, 0
  {
    if |a.items| == |b.items| {
      forall k | 0 <= k < |a.items|
        ensures Equal(a.items[k], b.items[k]) <==> Equal(b.items[k], a.items[k])
      {
        EqualSymmetric(a.items[k], b.items[k]);
      }
    }
  }

  lemma {:induction false} TuplesEqualSymmetric(a: Value, b: Value)
    requires TupleLike(a) && TupleLike(b)
    ensures Equal(a, b) <==> Equal(b, a)
    decreases a, 0
  {
    if |Items(a)| == |Items(b)| {
      forall k | 0 <= k < |Items(a)|
        ensures Equal(Items(a)[k], Items(b)[k]) <==> Equal(Items(b)[k], Items(a)[k])
      {
        EqualSymmetric(Items(a)[k], Items(b)[k]);
      }
    }
  }

  lemma {:induction false} MappingsEqualSymmetric(a: Value, b: Value)
    requires a.Dict? && b.Dict?
    ensures Equal(a, b) <==> Equal(b, a)
    decreases a, 0
  {
    forall j, k | 0 <= j < |a.entries| && 0 <= k < |b.entries|
      ensures Equal(a.entries[j].1, b.entries[k].1) <==> Equal(b.entries[k].1, a.entries[j].1)
    {
      EqualSymmetric(a.entries[j].1, b.entries[k].1);
    }
  }

  /** Two mappings with the same keys and equal values under each key are
      equal. */
  lemma MappingsEqualByKeys(a: seq<(string, Value)>, b: seq<(string, Value)>)
    requires forall j :: 0 <= j < |a| ==> Defines(b, a[j].0)
    requires forall k :: 0 <= k < |b| ==> Defines(a, b[k].0)
    requires forall j, k :: 0 <= j < |a| && 0 <= k < |b| && a[j].0 == b[k].0 ==> Equal(a[j].1, b[k].1)
    ensures Equal(Dict(a), Dict(b))
  {
  }

  /** A mapping equals any reordering of its entries: Python compares
      dictionaries by key and value, never by insertion order. */
  lemma ReorderedMappingsAreEqual(a: seq<(string, Value)>, b: seq<(string, Value)>)
    requires DistinctKeys(a) && multiset(a) == multiset(b)
    requires forall j :: 0 <= j < |a| ==> Equal(a[j].1, a[j].1)
    ensures Equal(Dict(a), Dict(b)) && Equal(Dict(b), Dict(a))
  {
    forall j | 0 <= j < |a|
      ensures Defines(b, a[j].0)
    {
      assert a[j] in multiset(a);
      var k :| 0 <= k < |b| && b[k] == a[j];
    }
    forall k | 0 <= k < |b|
      ensures Defines(a, b[k].0)
    {
      assert b[k] in multiset(b);
      var j :| 0 <= j < |a| && a[j] == b[k];
    }
    forall j, k | 0 <= j < |a| && 0 <= k < |b| && a[j].0 == b[k].0
      ensures Equal(a[j].1, b[k].1)
    {
      assert b[k] in multiset(b);
      var m :| 0 <= m < |a| && a[m] == b[k];
      assert m == j;
    }
    MappingsEqualByKeys(a, b);
    EqualSymmetric(Dict(a), Dict(b));
  }

  /** A key present in one mapping and absent from the other makes them
      unequal, in either order, whatever the values. */
  lemma MissingKeyMakesUnequal(a: seq<(string, Value)>, b: seq<(string, Value)>, key: string)
    requires Defines(a, key) && !Defines(b, key)
    ensures !Equal(Dict(a), Dict(b)) && !Equal(Dict(b), Dict(a))
  {
  }

  /** Mappings are equal whatever the order of their keys. */
  lemma MappingsIgnoreKeyOrder(x: Value, y: Value)
    requires Equal(x, x) && Equal(y, y)
    ensures Equal(Dict([("x", x), ("y", y)]), Dict([("y", y), ("x", x)]))
  {
    var a, b := [("x", x), ("y", y)], [("y", y), ("x", x)];
    assert Defines(b, "x") && Defines(b, "y") by {
      assert b[1].0 == "x" && b[0].0 == "y";
    }
    assert Defines(a, "x") && Defines(a, "y") by {
      assert a[0].0 == "x" && a[1].0 == "y";
    }
    forall j, k | 0 <= j < |a| && 0 <= k < |b| && a[j].0 == b[k].0
      ensures Equal(a[j].1, b[k].1)
    {
      assert j + k == 1;
    }
    MappingsEqualByKeys(a, b);
  }

  /** Lists compare their elements with `==`, so numbers of different
      representations make equal lists. */
  lemma ListsCompareElementsByValue()
    ensures Equal(List([Int(1)]), List([Float(1.0)]))
    ensures !Equal(List([Int(1)]), Tuple([Int(1)]))
  {
    assert Equal(List([Int(1)]).items[0], List([Float(1.0)]).items[0]);
  }

  /** A named tuple is a tuple: `Range(1, 2) == (1, 2)`. */
  lemma RangeEqualsPlainTuple()
    ensures Equal(Range(Int(1), Int(2)), Tuple([Int(1), Int(2)]))
    ensures Equal(Not(Str("x")), Tuple([Str("x")]))
  {
    assert Items(Range(Int(1), Int(2))) == [Int(1), Int(2)];
    assert Items(Not(Str("x"))) == [Str("x")];
  }

  /** Two lists, or two tuples, compare at the first position where their
      elements differ. */
  lemma LessAtFirstDifference(a: Value, b: Value, i: nat)
    requires SequencePair(a, b)
    requires i < |SequenceItems(a)| && i < |SequenceItems(b)|
    requires forall j :: 0 <= j < i ==> Equal(SequenceItems(a)[j], SequenceItems(b)[j])
    requires !Equal(SequenceItems(a)[i], SequenceItems(b)[i])
    ensures Less(a, b) == Less(SequenceItems(a)[i], SequenceItems(b)[i])
  {
    var xs, ys := SequenceItems(a), SequenceItems(b);
    var d := FirstDifference(xs, ys);
    assert d == i;
  }

  /** A sequence whose elements equal the first elements of a longer one
      is less than it. */
  lemma PrefixIsLess(a: Value, b: Value)
    requires SequencePair(a, b)
    requires |SequenceItems(a)| < |SequenceItems(b)|
    requires forall j :: 0 <= j < |SequenceItems(a)| ==> Equal(SequenceItems(a)[j], SequenceItems(b)[j])
    ensures Less(a, b) == Ok(true)
    ensures Less(b, a) == Ok(false)
  {
    var xs, ys := SequenceItems(a), SequenceItems(b);
    forall j | 0 <= j < |xs|
      ensures Equal(ys[j], xs[j])
    {
      EqualSymmetric(xs[j], ys[j]);
    }
    assert FirstDifference(xs, ys) == |xs|;
    assert FirstDifference(ys, xs) == |xs|;
  }

  /** Lists order lexicographically. */
  lemma ListsOrderLexicographically()
    ensures Less(List([Int(1), Int(5)]), List([Int(2)])) == Ok(true)
    ensures Less(List([Str("b")]), List([Str("a"), Str("z")])) == Ok(false)
  {
    LessAtFirstDifference(List([Int(1), Int(5)]), List([Int(2)]), 0);
    assert LexLess("a", "b");
    LessAtFirstDifference(List([Str("b")]), List([Str("a"), Str("z")]), 0);
  }

  /** A list and a tuple do not compare. */
  lemma ListAndTupleIncomparable()
    ensures Less(List([Int(1)]), Tuple([Int(2)])) == Err(TypeError(Incomparable))
  {
  }
}
