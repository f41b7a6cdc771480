/**
 How a search field chooses among the values found at several offsets:
 the three selection policies `first` (coalesce), `least` and `greatest`.
 */
module Selection {
  import opened Values
  import opened Ordering

  datatype Policy = First | Least | Greatest

  /** The policy a field definition names; `first` when it names none.
      An unhashable name cannot even be looked up. */
  function PolicyNamed(name: Value): (r: Result<Policy>)
    ensures r == Ok(First) <==> name == Str("first")
    ensures r == Ok(Least) <==> name == Str("least")
    ensures r == Ok(Greatest) <==> name == Str("greatest")
    ensures r.Err? && Hashable(name) ==> r.error == ValueError(UnknownSelection(name))
    ensures r.Err? && !Hashable(name) ==> r.error == TypeError(Unhashable)
  {
    if name == Str("first") then Ok(First)
    else if name == Str("least") then Ok(Least)
    else if name == Str("greatest") then Ok(Greatest)
    else if !Hashable(name) then Err(TypeError(Unhashable))
    else Err(ValueError(UnknownSelection(name)))
  }

  /** The first value that is not Null, or Null when there is none. */
  function Coalesce(vs: seq<Value>): (r: Value)
    ensures r.Null? <==> forall k :: 0 <= k < |vs| ==> vs[k].Null?
    ensures !r.Null? ==> exists k :: 0 <= k < |vs| && vs[k] == r &&
                                     forall j :: 0 <= j < k ==> vs[j].Null?
  {
    if |vs| == 0 then Null
    else if !vs[0].Null? then vs[0]
    else
      var r := Coalesce(vs[1..]);
      assert forall k :: 1 <= k < |vs| ==> vs[k] == vs[1..][k - 1];
      r
  }

  /** The smallest value: each later value replaces the current one when it
      is strictly less, so ties and NaNs keep the earlier value. A pair that
      cannot be ordered raises the comparison's error. */
  function Minimum(vs: seq<Value>): (r: Result<Value>)
    requires |vs| > 0
    ensures r.Ok? ==> r.value in vs
    ensures r.Err? ==> r.error == TypeError(Incomparable) || r.error == InvalidOperation
    ensures |vs| == 1 ==> r == Ok(vs[0])
  {
    assert vs == [vs[0]] + vs[1..];
    MinimumFrom(vs[0], vs[1..])
  }

  function MinimumFrom(best: Value, rest: seq<Value>): (r: Result<Value>)
    ensures r.Ok? ==> r.value in [best] + rest
    ensures r.Err? ==> r.error == TypeError(Incomparable) || r.error == InvalidOperation
    decreases |rest|
  {
    if |rest| == 0 then Ok(best)
    else
      var smaller :- Less(rest[0], best);
      MinimumFrom(if smaller then rest[0] else best, rest[1..])
  }

  /** The largest value: each later value replaces the current one when it
      is strictly greater. */
  function Maximum(vs: seq<Value>): (r: Result<Value>)
    requires |vs| > 0
    ensures r.Ok? ==> r.value in vs
    ensures r.Err? ==> r.error == TypeError(Incomparable) || r.error == InvalidOperation
    ensures |vs| == 1 ==> r == Ok(vs[0])
  {
    assert vs == [vs[0]] + vs[1..];
    MaximumFrom(vs[0], vs[1..])
  }

  function MaximumFrom(best: Value, rest: seq<Value>): (r: Result<Value>)
    ensures r.Ok? ==> r.value in [best] + rest
    ensures r.Err? ==> r.error == TypeError(Incomparable) || r.error == InvalidOperation
    decreases |rest|
  {
    if |rest| == 0 then Ok(best)
    else
      var larger :- Less(best, rest[0]);
      MaximumFrom(if larger then rest[0] else best, rest[1..])
  }

  /** Combines the values found at several offsets with a policy: `first`
      never raises, and a value chosen by any policy is one of the values,
      or None when `first` finds only None. */
  function Combine(policy: Policy, vs: seq<Value>): (r: Result<Value>)
    requires |vs| > 0
    ensures policy == First ==> r.Ok?
    ensures r.Ok? && !r.value.Null? ==> r.value in vs
    ensures r.Ok? && r.value.Null? && policy == First ==> forall k :: 0 <= k < |vs| ==> vs[k].Null?
    ensures |vs| == 1 ==> r == Ok(vs[0])
  {
    match policy
    case First => Ok(Coalesce(vs))
    case Least => Minimum(vs)
    case Greatest => Maximum(vs)
  }

  lemma {:induction false} MinimumFromIsLeast(best: Value, rest: seq<Value>)
    requires Comparable([best] + rest)
    ensures MinimumFrom(best, rest).Ok?
    ensures MinimumFrom(best, rest).value in [best] + rest
    ensures forall x :: x in [best] + rest ==> !Lt(x, MinimumFrom(best, rest).value)
    decreases |rest|
  {
    var all := [best] + rest;
    if |rest| > 0 {
      ComparableMembers(all, rest[0], best);
      var smaller := Less(rest[0], best).value;
      var next := if smaller then rest[0] else best;
      var tail := [next] + rest[1..];
      assert forall x :: x in tail ==> x in all;
      ComparableSubset(all, tail);
      MinimumFromIsLeast(next, rest[1..]);
      var m := MinimumFrom(next, rest[1..]).value;
      assert MinimumFrom(best, rest) == MinimumFrom(next, rest[1..]);
      forall x | x in all
        ensures !Lt(x, m)
      {
        if x in tail {
        } else {
          assert x == best || x == rest[0];
          ComparableMembers(all, x, next);
          ComparableMembers(all, next, m);
          ComparableMembers(all, x, m);
          if Lt(x, m) {
            if x == best && smaller {
              LessTransitive(rest[0], best, m);
            } else if x == rest[0] && !smaller {
              LessTotal(rest[0], best);
              if Lt(best, rest[0]) {
                LessTransitive(best, rest[0], m);
              } else {
                assert Equal(rest[0], best);
                EqualLessLeft(rest[0], best, m);
              }
            }
          }
        }
      }
    } else {
      ComparableMembers(all, best, best);
      LessIrreflexive(best);
    }
  }

  lemma {:induction false} MaximumFromIsGreatest(best: Value, rest: seq<Value>)
    requires Comparable([best] + rest)
    ensures MaximumFrom(best, rest).Ok?
    ensures MaximumFrom(best, rest).value in [best] + rest
    ensures forall x :: x in [best] + rest ==> !Lt(MaximumFrom(best, rest).value, x)
    decreases |rest|
  {
    var all := [best] + rest;
    if |rest| > 0 {
      ComparableMembers(all, best, rest[0]);
      var larger := Less(best, rest[0]).value;
      var next := if larger then rest[0] else best;
      var tail := [next] + rest[1..];
      assert forall x :: x in tail ==> x in all;
      ComparableSubset(all, tail);
      MaximumFromIsGreatest(next, rest[1..]);
      var m := MaximumFrom(next, rest[1..]).value;
      assert MaximumFrom(best, rest) == MaximumFrom(next, rest[1..]);
      forall x | x in all
        ensures !Lt(m, x)
      {
        if x in tail {
        } else {
          assert x == best || x == rest[0];
          ComparableMembers(all, x, next);
          ComparableMembers(all, next, m);
          ComparableMembers(all, x, m);
          if Lt(m, x) {
            if x == best && larger {
              LessTransitive(m, best, rest[0]);
            } else if x == rest[0] && !larger {
              LessTotal(rest[0], best);
              if Lt(rest[0], best) {
                LessTransitive(m, rest[0], best);
              } else {
                assert Equal(rest[0], best);
                EqualLessRight(m, rest[0], best);
              }
            }
          }
        }
      }
    } else {
      ComparableMembers(all, best, best);
      LessIrreflexive(best);
    }
  }

  /** Equal values are interchangeable on the left of `<`. */
  lemma EqualLessLeft(a: Value, b: Value, c: Value)
    requires SameClass(a, b) && SameClass(b, c)
    requires Equal(a, b) && Lt(a, c)
    ensures Lt(b, c)
  {
  }

  /** Equal values are interchangeable on the right of `<`. */
  lemma EqualLessRight(a: Value, b: Value, c: Value)
    requires SameClass(a, b) && SameClass(b, c)
    requires Equal(b, c) && Lt(a, b)
    ensures Lt(a, c)
  {
  }

  /** `least` yields an element no other element is less than. */
  lemma MinimumIsLeast(vs: seq<Value>)
    requires |vs| > 0 && Comparable(vs)
    ensures Minimum(vs).Ok?
    ensures Minimum(vs).value in vs
    ensures forall x :: x in vs ==> !Lt(x, Minimum(vs).value)
  {
    assert vs == [vs[0]] + vs[1..];
    MinimumFromIsLeast(vs[0], vs[1..]);
  }

  /** `greatest` yields an element less than no other element. */
  lemma MaximumIsGreatest(vs: seq<Value>)
    requires |vs| > 0 && Comparable(vs)
    ensures Maximum(vs).Ok?
    ensures Maximum(vs).value in vs
    ensures forall x :: x in vs ==> !Lt(Maximum(vs).value, x)
  {
    assert vs == [vs[0]] + vs[1..];
    MaximumFromIsGreatest(vs[0], vs[1..]);
  }

  /** Reordering the offsets of a `least` field does not change the value
      it extracts, up to equality, as long as the values are comparable. */
  lemma MinimumIgnoresOrder(vs: seq<Value>, ws: seq<Value>)
    requires |vs| > 0 && Comparable(vs) && multiset(vs) == multiset(ws)
    ensures Minimum(vs).Ok? && Minimum(ws).Ok?
    ensures Equal(Minimum(vs).value, Minimum(ws).value)
  {
    assert forall x :: x in ws ==> x in multiset(vs);
    ComparableSubset(vs, ws);
    assert |ws| == |multiset(ws)| == |vs|;
    MinimumIsLeast(vs);
    MinimumIsLeast(ws);
    var a, b := Minimum(vs).value, Minimum(ws).value;
    assert a in multiset(ws) && b in multiset(vs);
    ComparableMembers(vs, a, b);
    LessTotal(a, b);
  }

  /** The same for `greatest`. */
  lemma MaximumIgnoresOrder(vs: seq<Value>, ws: seq<Value>)
    requires |vs| > 0 && Comparable(vs) && multiset(vs) == multiset(ws)
    ensures Maximum(vs).Ok? && Maximum(ws).Ok?
    ensures Equal(Maximum(vs).value, Maximum(ws).value)
  {
    assert forall x :: x in ws ==> x in multiset(vs);
    ComparableSubset(vs, ws);
    assert |ws| == |multiset(ws)| == |vs|;
    MaximumIsGreatest(vs);
    MaximumIsGreatest(ws);
    var a, b := Maximum(vs).value, Maximum(ws).value;
    assert a in multiset(ws) && b in multiset(vs);
    ComparableMembers(vs, a, b);
    LessTotal(a, b);
  }

  /** With a float NaN among the values, `least` depends on their order. */
  lemma MinimumWithNaNDependsOnOrder()
    ensures Minimum([NaN, Int(1)]) == Ok(NaN)
    ensures Minimum([Int(1), NaN]) == Ok(Int(1))
  {
  }

  /** `first` depends on declaration order: with both values present the
      earlier offset wins; a missing earlier value defers to the later. */
  lemma CoalesceDependsOnOrder()
    ensures Coalesce([Int(2), Int(7)]) == Int(2)
    ensures Coalesce([Int(7), Int(2)]) == Int(7)
    ensures Coalesce([Null, Int(7)]) == Coalesce([Int(7), Null]) == Int(7)
  {
  }
}
