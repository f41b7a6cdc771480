/**
 What the predicates built by the field engine mean, for numbers.

 The search index stores every numeric value as a closed range; a scalar
 `v` is stored as `[v, v]`. This module gives closed ranges their meaning on
 the real line and proves that storing points as degenerate ranges keeps
 the intended meaning of `==` and `between`.
 */
module IndexSemantics {
  import opened Values
  import opened Fields

  /** `x` lies in the closed range `[low, high]`. */
  predicate InClosed(low: real, high: real, x: real) {
    low <= x <= high
  }

  /** Two closed ranges share a point. */
  ghost predicate Overlap(a: real, b: real, c: real, d: real) {
    exists x: real :: InClosed(a, b, x) && InClosed(c, d, x)
  }

  /** The numeric closed range an index value holds, when it holds one. */
  predicate NumericRange(iv: IndexValue) {
    iv.Closed? && Number(iv.low) && Number(iv.high)
  }

  /** A value-between comparison holds of a number. */
  predicate Satisfies(c: Condition, x: real)
    requires c.Within? || c.AtLeast? ==> Number(c.low)
    requires c.Within? || c.AtMost? ==> Number(c.high)
  {
    match c
    case Within(low, high) => Magnitude(low) <= x <= Magnitude(high)
    case AtLeast(low) => Magnitude(low) <= x
    case AtMost(high) => x <= Magnitude(high)
  }

  /** Two non-empty closed ranges overlap exactly when each starts no later
      than the other ends. */
  lemma OverlapCriterion(a: real, b: real, c: real, d: real)
    ensures Overlap(a, b, c, d) <==> a <= b && c <= d && a <= d && c <= b
  {
    if a <= b && c <= d && a <= d && c <= b {
      var x := if a <= c then c else a;
      assert InClosed(a, b, x) && InClosed(c, d, x);
    }
  }

  /** A non-NaN number indexed on a numeric scalar field is the point range
      `[v, v]`, which contains exactly the numbers equal to `v`. */
  lemma PointIndexContainsOnlyItself(f: Field, v: Value, x: real)
    requires f.Simple? && NumericKind(f.kind) && Number(v)
    ensures SearchValue(f, v) == Ok(Closed(v, v))
    ensures InClosed(Magnitude(v), Magnitude(v), x) <==> x == Magnitude(v)
  {
  }

  /** On a numeric scalar field, `between(low, high)` builds a range
      overlap against the stored point range, and that overlap holds
      exactly when the value satisfies `low <= v <= high`, the comparison
      a value-between predicate with both bounds stands for. */
  lemma PointOverlapIsBetween(f: Field, v: Value, low: Value, high: Value)
    requires f.Simple? && NumericKind(f.kind)
    requires Number(v) && Number(low) && Number(high)
    ensures BetweenPredicate(f, low, high) == Ok(RangeBetween(f, low, high))
    ensures SearchValue(f, v) == Ok(Closed(v, v))
    ensures BetweenCondition(low, high) == Ok(Within(low, high))
    ensures Overlap(Magnitude(v), Magnitude(v), Magnitude(low), Magnitude(high))
            <==> Satisfies(Within(low, high), Magnitude(v))
  {
    OverlapCriterion(Magnitude(v), Magnitude(v), Magnitude(low), Magnitude(high));
  }

  /** On a numeric range field, `between` never fails, whatever the order
      of its bounds; with `low > high` it matches no stored range. */
  lemma RangeBetweenNeverRaises(f: Field, low: Value, high: Value, stored: IndexValue)
    requires f.Ranged? && NumericKind(f.kind)
    requires Number(low) && Number(high) && NumericRange(stored)
    ensures BetweenPredicate(f, low, high).Ok?
    ensures Magnitude(low) > Magnitude(high) ==>
              !Overlap(Magnitude(stored.low), Magnitude(stored.high), Magnitude(low), Magnitude(high))
  {
    OverlapCriterion(Magnitude(stored.low), Magnitude(stored.high), Magnitude(low), Magnitude(high));
  }

  /** A range field's `==` is containment in the stored range, so a stored
      point `[v, v]` contains the queried value exactly when they are equal. */
  lemma RangeEqualsIsContainment(f: Field, v: Value, stored: Value, p: Parsers)
    requires f.Ranged? && NumericKind(f.kind) && Number(v) && Number(stored)
    ensures EqualsPredicate(f, v, p) == Ok(RangeContains(f, v))
    ensures InClosed(Magnitude(stored), Magnitude(stored), Magnitude(v)) <==> Equal(v, stored)
  {
  }

  /** Bare years given to a date range's `between` mean January 1st of
      those years: `between(1994, 2000)` is
      `between(datetime(1994, 1, 1), datetime(2000, 1, 1))`. */
  lemma BareYearsMeanJanuaryFirst(f: Field, y1: int, y2: int)
    requires f.Ranged? && f.kind == Date
    requires 1 <= y1 <= 9999 && 1 <= y2 <= 9999
    ensures BetweenPredicate(f, Int(y1), Int(y2))
            == BetweenPredicate(f, Time(YearStart(y1)), Time(YearStart(y2)))
            == Ok(RangeBetween(f, Time(Instant(y1, 0)), Time(Instant(y2, 0))))
  {
  }
}
