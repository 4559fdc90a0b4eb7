// Anchored uncertainty intervals, containment and precision strength.
module Temporal {
  import opened Basics

  datatype Precision = ExactDatetime | ExactDay | Week | Month | Quarter | Year | DateRange | ApproximateRange | Unknown

  // Instants are UTC, in days.
  datatype OccurredAt = OccurredAt(start: Option<real>, end: Option<real>, precision: Precision)

  datatype Interval = Interval(start: Option<real>, end: Option<real>, empty: bool) {
    predicate Unbounded() { !empty && end.None? }
    predicate Timeline() { Unbounded() && start.None? }
    predicate UnboundedAbove() { Unbounded() && start.Some? }
  }

  predicate IsRange(p: Precision) { p == DateRange || p == ApproximateRange }

  function MaxWidth(p: Precision): real
    requires !IsRange(p) && p != Unknown
  {
    match p
    case ExactDatetime => 0.0
    case ExactDay => 1.0
    case Week => 7.0
    case Month => 31.0
    case Quarter => 92.0
    case Year => 366.0
  }

  // The shapes the model accepts.
  predicate ValidShape(o: OccurredAt) {
    if o.precision == Unknown then o.start.None? && o.end.None?
    else if IsRange(o.precision) then o.start.Some? && (o.end.Some? ==> o.start.value < o.end.value)
    else o.start.Some? && o.end.None?
  }

  type Placement = o: OccurredAt | ValidShape(o) witness OccurredAt(None, None, Unknown)

  // By the bounds given: only a range has an end, and only "unknown" has no start.
  lemma ShapesAccepted(start: real, end: real, p: Precision)
    ensures ValidShape(OccurredAt(Some(start), Some(end), p)) <==> p in {DateRange, ApproximateRange} && start < end
    ensures ValidShape(OccurredAt(Some(start), None, p)) <==> p != Unknown
    ensures ValidShape(OccurredAt(None, None, p)) <==> p == Unknown
    ensures !ValidShape(OccurredAt(None, Some(end), p))
  {
  }

  // ---- What a placement says ----

  // It may have happened at `t`: at the instant, within the widest stretch of its
  // precision, within the range, or at any time.
  ghost predicate Possible(o: Placement, t: real) {
    match o.precision
    case Unknown => true
    case DateRange => o.start.value <= t && (o.end.Some? ==> t < o.end.value)
    case ApproximateRange => o.start.value <= t && (o.end.Some? ==> t < o.end.value)
    case ExactDatetime => t == o.start.value
    case ExactDay => o.start.value <= t < o.start.value + 1.0
    case Week => o.start.value <= t < o.start.value + 7.0
    case Month => o.start.value <= t < o.start.value + 31.0
    case Quarter => o.start.value <= t < o.start.value + 92.0
    case Year => o.start.value <= t < o.start.value + 366.0
  }

  // Two instants at which it may have happened lie `d` apart.
  ghost predicate Spans(o: Placement, d: real) {
    d >= 0.0 && exists t :: Possible(o, t) && Possible(o, t + d)
  }

  // It leaves less open, or the same and is not an approximation where the other is one.
  ghost predicate Sharper(a: Placement, b: Placement) {
    || (exists d :: Spans(b, d) && !Spans(a, d))
    || ((forall d :: Spans(a, d) <==> Spans(b, d)) && a.precision != ApproximateRange
        && b.precision == ApproximateRange)
  }

  function Width(o: Placement): Option<real> {
    if o.precision == Unknown then None
    else if IsRange(o.precision) then (if o.end.None? then None else Some(o.end.value - o.start.value))
    else Some(MaxWidth(o.precision))
  }

  function IntervalOf(o: Placement): Interval {
    if o.precision == Unknown then Interval(None, None, false)
    else if IsRange(o.precision) then Interval(o.start, o.end, false)
    else Interval(o.start, Some(o.start.value + MaxWidth(o.precision)), false)
  }

  // Bounds in order; only the whole timeline has no start.
  predicate WellFormed(i: Interval) {
    !i.empty ==> (i.start.None? ==> i.end.None?) && (i.start.Some? && i.end.Some? ==> i.start.value <= i.end.value)
  }

  function IntervalContains(outer: Interval, inner: Interval): bool
    requires WellFormed(outer) && WellFormed(inner)
  {
    if outer.empty then false
    else if inner.empty then true
    else if outer.Timeline() then true
    else if inner.Timeline() then false
    else if outer.UnboundedAbove() then inner.start.value >= outer.start.value
    else if inner.UnboundedAbove() then false
    else if inner.start == inner.end then
      if outer.start == outer.end then inner.start == outer.start
      else outer.start.value <= inner.start.value < outer.end.value
    else if outer.start == outer.end then false
    else outer.start.value <= inner.start.value && inner.end.value <= outer.end.value
  }

  // ---- What an interval means ----

  // The instants of dense time in the interval.
  predicate Holds(i: Interval, t: real)
    requires WellFormed(i)
  {
    if i.empty then false
    else if i.start.None? then true
    else if i.end.None? then i.start.value <= t
    else if i.start == i.end then t == i.start.value
    else i.start.value <= t < i.end.value
  }

  ghost predicate Included(inner: Interval, outer: Interval)
    requires WellFormed(outer) && WellFormed(inner)
  {
    forall t | Holds(inner, t) :: Holds(outer, t)
  }

  // An instant of the inner interval outside the outer one.
  function Outside(outer: Interval, inner: Interval): real
    requires WellFormed(outer) && WellFormed(inner) && !outer.empty && !inner.empty && outer.start.Some?
  {
    if inner.start.None? then outer.start.value - 1.0
    else if inner.start.value < outer.start.value then inner.start.value
    else if outer.end.None? then inner.start.value
    else if inner.end.None? then inner.start.value + outer.end.value - outer.start.value + 1.0
    else if inner.start == inner.end then inner.start.value
    else if outer.start == outer.end then
      if inner.start == outer.start then (inner.start.value + inner.end.value) / 2.0 else inner.start.value
    else if outer.end.value < inner.start.value then inner.start.value else outer.end.value
  }

  /** Containment is inclusion of the instants, except that the empty interval
      contains nothing, not even itself. */
  lemma ContainsIsInclusion(outer: Interval, inner: Interval)
    requires WellFormed(outer) && WellFormed(inner)
    ensures IntervalContains(outer, inner) <==> Included(inner, outer) && !outer.empty
  {
    if !outer.empty && !inner.empty && outer.start.Some? && !IntervalContains(outer, inner) {
      assert Holds(inner, Outside(outer, inner)) && !Holds(outer, Outside(outer, inner));
    }
  }

  // The interval of a placement holds exactly the instants it leaves possible.
  lemma PlacementInterval(o: Placement)
    ensures WellFormed(IntervalOf(o)) && !IntervalOf(o).empty
    ensures forall t :: Holds(IntervalOf(o), t) <==> Possible(o, t)
    ensures exists t :: Holds(IntervalOf(o), t)
  {
    var t := if o.start.None? then 0.0 else o.start.value;
    assert Holds(IntervalOf(o), t);
  }

  // Containment of the intervals of two placements is inclusion of what they leave possible.
  lemma ContainsPossible(outer: Placement, inner: Placement)
    ensures IntervalContains(IntervalOf(outer), IntervalOf(inner))
            <==> forall t | Possible(inner, t) :: Possible(outer, t)
  {
    PlacementInterval(outer);
    PlacementInterval(inner);
    ContainsIsInclusion(IntervalOf(outer), IntervalOf(inner));
    assert forall t :: Holds(IntervalOf(inner), t) <==> Possible(inner, t);
    assert forall t :: Holds(IntervalOf(outer), t) <==> Possible(outer, t);
  }

  // ---- Governing records ----

  predicate OpenEnded(o: Placement) {
    IsRange(o.precision) && o.end.None?
  }

  predicate Bounded(o: Placement) {
    o.precision != Unknown && !OpenEnded(o)
  }

  function GoverningContains(governing: Placement, recordedAt: real, candidate: Placement): bool {
    if !OpenEnded(governing) || candidate.precision == Unknown then
      IntervalContains(IntervalOf(governing), IntervalOf(candidate))
    else if OpenEnded(candidate) then IntervalContains(IntervalOf(governing), IntervalOf(candidate))
    else
      var start := governing.start.value;
      IntervalContains(Interval(Some(start), Some(recordedAt), recordedAt <= start), IntervalOf(candidate))
  }

  ghost predicate OverBy(o: Placement, last: real) {
    forall t | Possible(o, t) :: t <= last
  }

  ghost predicate Ends(o: Placement) {
    exists last :: OverBy(o, last)
  }

  lemma EndsIfBounded(o: Placement)
    ensures Ends(o) <==> Bounded(o)
  {
    if Bounded(o) {
      var last := if o.end.Some? then o.end.value else o.start.value + 366.0;
      assert OverBy(o, last);
    } else if last :| OverBy(o, last) {
      var t := if o.start.Some? && o.start.value > last then o.start.value else last;
      assert Possible(o, t + 1.0);
    }
  }

  /** A governing record contains a candidate exactly when the record leaves
      every instant of the candidate possible, and a record with a start and no
      end vouches for a candidate with an end only up to the moment it was recorded. */
  lemma GoverningMeans(governing: Placement, recordedAt: real, candidate: Placement)
    ensures GoverningContains(governing, recordedAt, candidate) <==>
      forall t | Possible(candidate, t) ::
        Possible(governing, t) && (governing.start.Some? && !Ends(governing) && Ends(candidate) ==> t < recordedAt)
  {
    PlacementInterval(governing);
    PlacementInterval(candidate);
    EndsIfBounded(governing);
    EndsIfBounded(candidate);
    ContainsPossible(governing, candidate);
    if OpenEnded(governing) && Bounded(candidate) {
      var start := governing.start.value;
      var attested := Interval(Some(start), Some(recordedAt), recordedAt <= start);
      ContainsIsInclusion(attested, IntervalOf(candidate));
      assert forall t :: Holds(attested, t) <==> Possible(governing, t) && t < recordedAt;
      assert forall t :: Holds(IntervalOf(candidate), t) <==> Possible(candidate, t);
    }
  }

  lemma GoverningIsContainment(governing: Placement, recordedAt: real, candidate: Placement)
    requires GoverningContains(governing, recordedAt, candidate)
    ensures IntervalContains(IntervalOf(governing), IntervalOf(candidate))
  {
    GoverningMeans(governing, recordedAt, candidate);
    ContainsPossible(governing, candidate);
  }

  // ---- Strength ----

  predicate Exact(o: Placement) { o.precision != ApproximateRange }

  // Unbounded widths are equal to each other and weaker than every finite one.
  predicate Narrower(a: Option<real>, b: Option<real>) {
    a.Some? && (b.None? || a.value < b.value)
  }

  // Narrower, or exact where the other is approximate at equal width.
  predicate Stronger(a: Placement, b: Placement) {
    Narrower(Width(a), Width(b)) || (Width(a) == Width(b) && Exact(a) && !Exact(b))
  }

  // A placement spans every distance below its width, and 0 in any case.
  lemma SpansBelowWidth(o: Placement, d: real)
    ensures Spans(o, d) <==> d == 0.0 || (d > 0.0 && (Width(o).None? || d < Width(o).value))
  {
    var t := if o.start.Some? then o.start.value else 0.0;
    assert Possible(o, t);
    if d >= 0.0 && (Width(o).None? || d < Width(o).value || d == 0.0) {
      assert t + 0.0 == t && Possible(o, t + d);
    }
  }

  lemma StrongerIsSharper(a: Placement, b: Placement)
    ensures Stronger(a, b) <==> Sharper(a, b)
  {
    forall d ensures Spans(a, d) <==> d == 0.0 || (d > 0.0 && (Width(a).None? || d < Width(a).value)) {
      SpansBelowWidth(a, d);
    }
    forall d ensures Spans(b, d) <==> d == 0.0 || (d > 0.0 && (Width(b).None? || d < Width(b).value)) {
      SpansBelowWidth(b, d);
    }
    if Narrower(Width(a), Width(b)) { NarrowerSpansLess(a, b); }
    if Narrower(Width(b), Width(a)) { NarrowerSpansLess(b, a); }
  }

  lemma NarrowerSpansLess(a: Placement, b: Placement)
    requires Narrower(Width(a), Width(b))
    ensures exists d :: Spans(b, d) && !Spans(a, d)
  {
    var d := if Width(a).value > 0.0 then Width(a).value else if Width(b).Some? then Width(b).value / 2.0 else 1.0;
    SpansBelowWidth(a, d);
    SpansBelowWidth(b, d);
    assert Width(a).value >= 0.0;
  }

  /** One pass finds whether the candidate is sharper than every support, in
      whatever order the supports come. */
  method StrengthExceedsSupport(candidate: Placement, supports: seq<Placement>) returns (r: bool)
    ensures r <==> forall s | s in supports :: Sharper(candidate, s)
  {
    forall s | s in supports ensures Stronger(candidate, s) <==> Sharper(candidate, s) {
      StrongerIsSharper(candidate, s);
    }
    r := StrongerThanAll(candidate, supports);
  }

  method StrongerThanAll(candidate: Placement, supports: seq<Placement>) returns (r: bool)
    ensures r <==> forall s | s in supports :: Stronger(candidate, s)
  {
    var key := Width(candidate);
    var strongest: Option<Option<real>> := None;
    var exactAtStrongest := false;
    for i := 0 to |supports|
      invariant strongest.None? <==> i == 0
      invariant strongest.Some? ==> forall s | s in supports[..i] :: !Narrower(Width(s), strongest.value)
      invariant strongest.Some? ==> exists s :: s in supports[..i] && Width(s) == strongest.value
      invariant strongest.Some? ==>
        (exactAtStrongest <==> exists s :: s in supports[..i] && Width(s) == strongest.value && Exact(s))
    {
      var support := supports[i];
      assert supports[..i + 1] == supports[..i] + [support];
      if strongest.None? || Narrower(Width(support), strongest.value) {
        strongest, exactAtStrongest := Some(Width(support)), Exact(support);
      } else if Width(support) == strongest.value {
        exactAtStrongest := exactAtStrongest || Exact(support);
      }
    }
    assert supports[..|supports|] == supports;
    if strongest.None? { return true; }
    if Narrower(key, strongest.value) { return true; }
    return key == strongest.value && Exact(candidate) && !exactAtStrongest;
  }

  // ---- One placement supporting another ----

  predicate PlacementSupports(candidate: Placement, support: Placement) {
    IntervalContains(IntervalOf(candidate), IntervalOf(support)) && !Stronger(candidate, support)
  }

  /** A selected placement entails a candidate exactly when the candidate leaves
      possible all that the selected one does and is not the sharper of the two. */
  method CheckPlacement(candidate: Placement, support: Placement) returns (r: bool)
    ensures r <==> PlacementSupports(candidate, support)
    ensures r <==> (forall t | Possible(support, t) :: Possible(candidate, t)) && !Sharper(candidate, support)
  {
    ContainsPossible(candidate, support);
    StrongerIsSharper(candidate, support);
    var exceeds := StrengthExceedsSupport(candidate, [support]);
    assert support in [support];
    r := IntervalContains(IntervalOf(candidate), IntervalOf(support)) && !exceeds;
  }

  /** Every placement supports itself, and support composes. */
  lemma SupportIsPreorder(a: Placement, b: Placement, c: Placement)
    ensures PlacementSupports(a, a)
    ensures PlacementSupports(a, b) && PlacementSupports(b, c) ==> PlacementSupports(a, c)
  {
    PlacementInterval(a);
    PlacementInterval(b);
    PlacementInterval(c);
    ContainsIsInclusion(IntervalOf(a), IntervalOf(a));
    ContainsIsInclusion(IntervalOf(a), IntervalOf(b));
    ContainsIsInclusion(IntervalOf(b), IntervalOf(c));
    ContainsIsInclusion(IntervalOf(a), IntervalOf(c));
  }

  /** "Unknown" is not implied by everything: it counts as exact, so the one
      placement that does not support it is an open approximate range. */
  lemma UnknownIsSupportedBy(support: Placement)
    ensures PlacementSupports(OccurredAt(None, None, Unknown), support)
            <==> !(support.precision == ApproximateRange && support.end.None?)
  {
  }
}
