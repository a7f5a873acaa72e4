/** The sidebar row filter: exact matches on state and quarter, inclusive
    slider ranges on four counts, and an optional "any selected cause"
    test. */
module Filtering {

  import opened Records
  import opened Sequences

  /** An inclusive slider range `[min, max]`. Each bound comes from its own
      slider, so nothing forces `min <= max`. */
  datatype Range = Range(min: nat, max: nat)

  predicate InRange(v: nat, b: Range)
  {
    b.min <= v <= b.max
  }

  /** The values picked in the sidebar. `causes` is the multiselect list; an
      empty list means no cause was picked. */
  datatype Criteria = Criteria(
    state: string,
    quarter: string,
    injured: Range,
    killed: Range,
    crashes: Range,
    vehicles: Range,
    causes: seq<Cause>)

  /** The ten-way conjunction of the state/quarter/range mask. */
  predicate MatchesBase(r: Record, c: Criteria)
  {
    && r.state == c.state
    && r.quarter == c.quarter
    && InRange(r.numInjured, c.injured)
    && InRange(r.numKilled, c.killed)
    && InRange(r.totalCrashes, c.crashes)
    && InRange(r.totalVehiclesInvolved, c.vehicles)
  }

  /** `any(axis=1)` over the selected indicator columns: some selected
      indicator is non-zero in this row. */
  predicate AnySelectedCause(r: Record, causes: seq<Cause>)
  {
    exists i :: 0 <= i < |causes| && CauseIndicator(r, causes[i]) != 0
  }

  /** Everything the filter asks of one row. */
  predicate Matches(r: Record, c: Criteria)
  {
    MatchesBase(r, c) && (c.causes == [] || AnySelectedCause(r, c.causes))
  }

  /** The state/quarter/range mask applied to the table. */
  function BaseFilter(rows: seq<Record>, c: Criteria): (r: seq<Record>)
    ensures IsSubsequence(r, rows)
    ensures forall x :: multiset(r)[x] == if MatchesBase(x, c) then multiset(rows)[x] else 0
    ensures forall x :: x in r <==> x in rows && MatchesBase(x, c)
  {
    Where(rows, x => MatchesBase(x, c))
  }

  /** The filtered view: the base mask, then, if any cause was picked, the
      cause mask applied to what the base mask kept. The result is the table
      with exactly the matching rows, each as often as it occurs, in table
      order. */
  function Filter(rows: seq<Record>, c: Criteria): (r: seq<Record>)
    ensures IsSubsequence(r, rows)
    ensures forall x :: multiset(r)[x] == if Matches(x, c) then multiset(rows)[x] else 0
    ensures forall x :: x in r <==>
      && x in rows
      && MatchesBase(x, c)
      && (c.causes == [] || AnySelectedCause(x, c.causes))
  {
    var base := BaseFilter(rows, c);
    if c.causes == [] then base
    else
      WhereWhere(rows, x => MatchesBase(x, c), x => AnySelectedCause(x, c.causes), x => Matches(x, c));
      Where(base, x => AnySelectedCause(x, c.causes))
  }

  /** The filtered view is never longer than the table. */
  lemma FilterLength(rows: seq<Record>, c: Criteria)
    ensures |Filter(rows, c)| <= |rows|
  {
    SubsequenceLength(Filter(rows, c), rows);
  }

  /** The two-stage filter equals a single mask with the whole predicate. */
  lemma FilterIsSingleMask(rows: seq<Record>, c: Criteria)
    ensures Filter(rows, c) == Where(rows, x => Matches(x, c))
  {
    if c.causes == [] {
      WhereCongruent(rows, x => MatchesBase(x, c), x => Matches(x, c));
    } else {
      WhereWhere(rows, x => MatchesBase(x, c), x => AnySelectedCause(x, c.causes), x => Matches(x, c));
    }
  }

  /** With no cause picked, the filtered view is the base mask's result. */
  lemma NoCauseIsBaseFilter(rows: seq<Record>, c: Criteria)
    requires c.causes == []
    ensures Filter(rows, c) == BaseFilter(rows, c)
  {
  }

  /** Filtering an already filtered view with the same criteria changes
      nothing. */
  lemma FilterIdempotent(rows: seq<Record>, c: Criteria)
    ensures Filter(Filter(rows, c), c) == Filter(rows, c)
  {
    var f := Filter(rows, c);
    FilterIsSingleMask(f, c);
    WhereAll(f, x => Matches(x, c));
  }

  /** A slider range whose minimum exceeds its maximum empties the view. */
  lemma EmptyWhenRangeCrossed(rows: seq<Record>, c: Criteria)
    requires || c.injured.min > c.injured.max
             || c.killed.min > c.killed.max
             || c.crashes.min > c.crashes.max
             || c.vehicles.min > c.vehicles.max
    ensures Filter(rows, c) == []
  {
    EmptyWhenNoMember(Filter(rows, c));
  }
}
