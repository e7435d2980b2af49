/** The narrowing half of a GET: keep the reviews at the requested
    location, then those inside the requested date range, then apply the
    allow-list gate. */
module QueryFilter {
  import opened Wrappers
  import opened DateTimes
  import opened Seqs
  import opened Reviews

  // ---------------------------------------------------------------------
  // Location

  /** Holds of reviews filed under exactly `location`. */
  function AtLocation(location: string): Review -> bool
  {
    (x: Review) => x.location == location
  }

  /** With a `location` parameter, the reviews whose location equals its
      first value (exact, case-sensitive); without one, every review. */
  function FilterByLocation(rs: seq<Review>, q: Params): (r: seq<Review>)
    requires WellFormedParams(q)
    ensures "location" !in q ==> r == rs
    ensures "location" in q ==>
      && IsSubsequence(r, rs)
      && forall x :: multiset(r)[x] == if x.location == First(q, "location") then multiset(rs)[x] else 0
  {
    if "location" in q then
      var p := AtLocation(First(q, "location"));
      FilterIsFilterOf(rs, p);
      Filter(rs, p)
    else rs
  }

  // ---------------------------------------------------------------------
  // Date range

  /** Some supplied date does not parse; the filter then gives up. */
  predicate DateParamMalformed(q: Params)
    requires WellFormedParams(q)
  {
    || ("start_date" in q && ParseDate(First(q, "start_date")).None?)
    || ("end_date" in q && ParseDate(First(q, "end_date")).None?)
  }

  /** At least one date bound is supplied and every supplied one parses, so
      the stored timestamps are read. */
  predicate DateBoundsApply(q: Params)
    requires WellFormedParams(q)
  {
    ("start_date" in q || "end_date" in q) && !DateParamMalformed(q)
  }

  /** The instant a date parameter denotes: midnight of the given day, or
      nothing when the parameter is absent or malformed. */
  function Bound(q: Params, k: string): Option<DateTime>
    requires WellFormedParams(q)
  {
    if k in q then ParseDate(First(q, k)) else None
  }

  /** `x`'s timestamp lies in the closed window `[lo, hi]`; a missing bound
      does not constrain. */
  predicate InWindow(x: Review, lo: Option<DateTime>, hi: Option<DateTime>)
  {
    var t := ParseTimestamp(x.timestamp);
    && (lo.None? || (t.Some? && NotAfter(lo.value, t.value)))
    && (hi.None? || (t.Some? && NotAfter(t.value, hi.value)))
  }

  /** The three comprehensions of the date filter. */
  function Between(lo: DateTime, hi: DateTime): Review -> bool
  {
    (x: Review) => var t := ParseTimestamp(x.timestamp); t.Some? && NotAfter(lo, t.value) && NotAfter(t.value, hi)
  }

  function From(lo: DateTime): Review -> bool
  {
    (x: Review) => var t := ParseTimestamp(x.timestamp); t.Some? && NotAfter(lo, t.value)
  }

  function Until(hi: DateTime): Review -> bool
  {
    (x: Review) => var t := ParseTimestamp(x.timestamp); t.Some? && NotAfter(t.value, hi)
  }

  /** The window the supplied dates describe, as one predicate. */
  function InRequestedWindow(q: Params): Review -> bool
    requires WellFormedParams(q)
  {
    (x: Review) => InWindow(x, Bound(q, "start_date"), Bound(q, "end_date"))
  }

  /** `filter_by_date_range`. A malformed date returns the input untouched
      (dropping the other bound as well); otherwise the reviews whose
      timestamp lies in the inclusive window the supplied dates give, each
      date meaning midnight of its day. The source reads every timestamp
      as soon as a bound applies, and fails on one it cannot parse: the
      second precondition. */
  function FilterByDateRange(rs: seq<Review>, q: Params): (r: seq<Review>)
    requires WellFormedParams(q)
    requires DateBoundsApply(q) ==> AllTimestampsParse(rs)
    ensures DateParamMalformed(q) ==> r == rs
    ensures "start_date" !in q && "end_date" !in q ==> r == rs
    ensures !DateParamMalformed(q) ==> r == Filter(rs, InRequestedWindow(q))
  {
    if "start_date" in q && ParseDate(First(q, "start_date")).None? then rs
    else if "end_date" in q && ParseDate(First(q, "end_date")).None? then rs
    else if "start_date" in q && "end_date" in q then
      var lo, hi := ParseDate(First(q, "start_date")).value, ParseDate(First(q, "end_date")).value;
      FilterExt(rs, Between(lo, hi), InRequestedWindow(q));
      Filter(rs, Between(lo, hi))
    else if "start_date" in q then
      var lo := ParseDate(First(q, "start_date")).value;
      FilterExt(rs, From(lo), InRequestedWindow(q));
      Filter(rs, From(lo))
    else if "end_date" in q then
      var hi := ParseDate(First(q, "end_date")).value;
      FilterExt(rs, Until(hi), InRequestedWindow(q));
      Filter(rs, Until(hi))
    else
      FilterAll(rs, InRequestedWindow(q));
      rs
  }

  /** With the supplied dates well formed, the date filter keeps exactly
      the reviews inside the window, in their original order. */
  lemma DateFilterKeepsWindow(rs: seq<Review>, q: Params)
    requires WellFormedParams(q)
    requires DateBoundsApply(q) ==> AllTimestampsParse(rs)
    requires !DateParamMalformed(q)
    ensures IsSubsequence(FilterByDateRange(rs, q), rs)
    ensures forall x :: multiset(FilterByDateRange(rs, q))[x] ==
                         if InWindow(x, Bound(q, "start_date"), Bound(q, "end_date")) then multiset(rs)[x] else 0
  {
    FilterIsFilterOf(rs, InRequestedWindow(q));
  }

  /** The end date means midnight, not end of day: a review stamped later
      on the end day itself is dropped. */
  lemma EndDateExcludesRestOfDay(rs: seq<Review>, q: Params, x: Review)
    requires WellFormedParams(q)
    requires DateBoundsApply(q) ==> AllTimestampsParse(rs)
    requires "end_date" in q && !DateParamMalformed(q)
    requires ParseTimestamp(x.timestamp).Some?
    requires var t, e := ParseTimestamp(x.timestamp).value, Bound(q, "end_date").value;
      t.year == e.year && t.month == e.month && t.day == e.day && !IsMidnight(t)
    ensures x !in FilterByDateRange(rs, q)
  {
    DateFilterKeepsWindow(rs, q);
    assert multiset(FilterByDateRange(rs, q))[x] == 0;
  }

  // ---------------------------------------------------------------------
  // Allow-list gate and the whole selection

  /** An unknown `location` empties the result, whatever matched. */
  function AllowListGate(rs: seq<Review>, q: Params): seq<Review>
    requires WellFormedParams(q)
  {
    if "location" in q && !IsAllowed(First(q, "location")) then [] else rs
  }

  /** Whether a GET with parameters `q` returns review `x`, stated directly:
      its location is the requested one and on the allow-list (when a
      location is requested), and its timestamp is in the requested window
      (unless a date is malformed). */
  predicate Admits(q: Params, x: Review)
    requires WellFormedParams(q)
  {
    && ("location" in q ==> x.location == First(q, "location") && IsAllowed(x.location))
    && (DateParamMalformed(q) || InWindow(x, Bound(q, "start_date"), Bound(q, "end_date")))
  }

  function AdmittedBy(q: Params): Review -> bool
    requires WellFormedParams(q)
  {
    (x: Review) => Admits(q, x)
  }

  /** The GET narrowing: location filter, date filter, allow-list gate, in
      the source's order. The result is the single filter of the store by
      `Admits`: the reviews the query admits, in store order. */
  function Select(store: seq<Review>, q: Params): (r: seq<Review>)
    requires WellFormedParams(q)
    requires DateBoundsApply(q) ==> AllTimestampsParse(FilterByLocation(store, q))
    ensures "location" in q && !IsAllowed(First(q, "location")) ==> r == []
    ensures r == Filter(store, AdmittedBy(q))
  {
    var byLocation := FilterByLocation(store, q);
    var r := AllowListGate(FilterByDateRange(byLocation, q), q);
    SelectIsOneFilter(store, q);
    r
  }

  /** The composed pipeline equals one filter by `Admits`. */
  lemma SelectIsOneFilter(store: seq<Review>, q: Params)
    requires WellFormedParams(q)
    requires DateBoundsApply(q) ==> AllTimestampsParse(FilterByLocation(store, q))
    ensures AllowListGate(FilterByDateRange(FilterByLocation(store, q), q), q) == Filter(store, AdmittedBy(q))
  {
    var byLocation := FilterByLocation(store, q);
    var byDate := FilterByDateRange(byLocation, q);
    var window := if DateParamMalformed(q) then (x: Review) => true else InRequestedWindow(q);
    if "location" in q && !IsAllowed(First(q, "location")) {
      FilterNone(store, AdmittedBy(q));
    } else {
      if DateParamMalformed(q) {
        FilterAll(byLocation, window);
      }
      assert byDate == Filter(byLocation, window);
      if "location" in q {
        var at := AtLocation(First(q, "location"));
        FilterFilter(store, at, window);
        FilterExt(store, Both(at, window), AdmittedBy(q));
      } else {
        FilterExt(store, window, AdmittedBy(q));
      }
    }
  }
}
