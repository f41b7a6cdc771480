/**
 The catalog's `Range(begin, end)` query value and the overlap test on it.
 A range includes its begin and excludes its end.
 */
module Base {
  import opened Values

  /** A range whose two ends are numbers. */
  predicate NumericSpan(r: Value) {
    r.Range? && Number(r.begin) && Number(r.end)
  }

  function Begin(r: Value): real
    requires NumericSpan(r)
  {
    Magnitude(r.begin)
  }

  function End(r: Value): real
    requires NumericSpan(r)
  {
    Magnitude(r.end)
  }

  /** `x` lies in the half-open range `[begin, end)`. */
  predicate Contains(r: Value, x: real)
    requires NumericSpan(r)
  {
    Begin(r) <= x < End(r)
  }

  /** A value `ranges_overlap` can order: a number or a timestamp. */
  predicate Endpoint(x: Value) {
    Number(x) || x.Time?
  }

  /** A range whose ends are numbers or timestamps, possibly one of each. */
  predicate Span(r: Value) {
    r.Range? && Endpoint(r.begin) && Endpoint(r.end)
  }

  /** A range whose two ends are timestamps. */
  predicate TimeSpan(r: Value) {
    r.Range? && r.begin.Time? && r.end.Time?
  }

  /** The overlap test: the range that begins first must end after the
      other begins. Its three comparisons are Python's, so a number met
      with a timestamp raises TypeError. For non-empty ranges this is the
      usual criterion, each beginning before the other ends. */
  function RangesOverlap(ra: Value, rb: Value): (r: Result<bool>)
    requires Span(ra) && Span(rb)
    ensures r.Err? ==> r.error == TypeError(Incomparable)
    ensures (Number(ra.begin) && rb.begin.Time?) || (ra.begin.Time? && Number(rb.begin)) ==> r.Err?
    ensures NumericSpan(ra) && NumericSpan(rb) ==> r.Ok?
    ensures NumericSpan(ra) && NumericSpan(rb) && Begin(ra) < End(ra) && Begin(rb) < End(rb) ==>
              (r.value <==> Begin(ra) < End(rb) && Begin(rb) < End(ra))
    ensures NumericSpan(ra) && NumericSpan(rb) && Begin(ra) == Begin(rb) ==> (r.value <==> Begin(ra) < End(ra))
    ensures TimeSpan(ra) && TimeSpan(rb) ==> r.Ok?
    ensures TimeSpan(ra) && TimeSpan(rb) && Before(ra.begin.t, ra.end.t) && Before(rb.begin.t, rb.end.t) ==>
              (r.value <==> Before(ra.begin.t, rb.end.t) && Before(rb.begin.t, ra.end.t))
  {
    var later :- Less(rb.begin, ra.begin);
    if !later then Less(rb.begin, ra.end) else Less(ra.begin, rb.end)
  }

  /** Two ranges share a point. */
  ghost predicate SharePoint(ra: Value, rb: Value)
    requires NumericSpan(ra) && NumericSpan(rb)
  {
    exists x: real :: Contains(ra, x) && Contains(rb, x)
  }

  /** For non-empty ranges the test is exact: it holds precisely when the
      half-open ranges share a point. */
  lemma OverlapIsSharedPoint(ra: Value, rb: Value)
    requires NumericSpan(ra) && NumericSpan(rb)
    requires Begin(ra) < End(ra) && Begin(rb) < End(rb)
    ensures RangesOverlap(ra, rb) == Ok(SharePoint(ra, rb))
  {
    if RangesOverlap(ra, rb).value {
      var x := if Begin(ra) <= Begin(rb) then Begin(rb) else Begin(ra);
      assert Contains(ra, x) && Contains(rb, x);
    }
  }

  /** Ranges that meet end to begin do not overlap, in either order. */
  lemma AdjacentRangesDoNotOverlap(ra: Value, rb: Value)
    requires NumericSpan(ra) && NumericSpan(rb)
    requires Begin(ra) < End(ra) && End(ra) == Begin(rb) && Begin(rb) < End(rb)
    ensures RangesOverlap(ra, rb) == Ok(false) && RangesOverlap(rb, ra) == Ok(false)
  {
  }

  /** For non-empty ranges the argument order does not matter. */
  lemma OverlapIsSymmetric(ra: Value, rb: Value)
    requires NumericSpan(ra) && NumericSpan(rb)
    requires Begin(ra) < End(ra) && Begin(rb) < End(rb)
    ensures RangesOverlap(ra, rb) == RangesOverlap(rb, ra)
  {
  }

  /** An empty range `[v, v)` lying inside another is reported as
      overlapping it, though it holds no point. */
  lemma EmptyRangeInsideOverlaps()
    ensures NumericSpan(Range(Int(1), Int(1))) && NumericSpan(Range(Int(0), Int(5)))
    ensures RangesOverlap(Range(Int(1), Int(1)), Range(Int(0), Int(5))) == Ok(true)
    ensures !SharePoint(Range(Int(1), Int(1)), Range(Int(0), Int(5)))
  {
  }

  /** An instant lies in a range of timestamps `[begin, end)`. */
  predicate ContainsInstant(r: Value, t: Instant)
    requires TimeSpan(r)
  {
    !Before(t, r.begin.t) && Before(t, r.end.t)
  }

  /** Two ranges of timestamps share an instant. */
  ghost predicate ShareInstant(ra: Value, rb: Value)
    requires TimeSpan(ra) && TimeSpan(rb)
  {
    exists t: Instant :: ContainsInstant(ra, t) && ContainsInstant(rb, t)
  }

  /** For non-empty ranges of timestamps the test is exact too. */
  lemma TimeOverlapIsSharedInstant(ra: Value, rb: Value)
    requires TimeSpan(ra) && TimeSpan(rb)
    requires Before(ra.begin.t, ra.end.t) && Before(rb.begin.t, rb.end.t)
    ensures RangesOverlap(ra, rb) == Ok(ShareInstant(ra, rb))
  {
    if RangesOverlap(ra, rb).value {
      var t := if Before(rb.begin.t, ra.begin.t) then ra.begin.t else rb.begin.t;
      assert ContainsInstant(ra, t) && ContainsInstant(rb, t);
    }
  }

  /** A range of numbers never overlaps-tests against a range of
      timestamps: the first comparison raises. */
  lemma NumbersAndTimesDoNotCompare(ra: Value, rb: Value)
    requires NumericSpan(ra) && TimeSpan(rb)
    ensures RangesOverlap(ra, rb) == Err(TypeError(Incomparable))
    ensures RangesOverlap(rb, ra) == Err(TypeError(Incomparable))
  {
  }
}
