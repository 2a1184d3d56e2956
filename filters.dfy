/**
 * The filter behind the bubble chart: inclusive ranges on `Prevalence` and
 * `Median Household Income`, then an optional set of selected states; and the
 * default slider bounds computed from the unified table.
 */
module Filters {
  import opened Wrappers
  import opened Frames
  import opened Tables

  /** An inclusive interval of whole numbers, as a two-handled slider returns it. */
  datatype Range = Range(low: int, high: int)

  /** `low <= c <= high`; a missing value fails both comparisons. */
  predicate Within(c: Cell, rg: Range)
  {
    c.Num? && rg.low as real <= c.value <= rg.high as real
  }

  /** The boolean mask of code.py:55-60. */
  predicate InRanges(r: Row, prevalence: Range, income: Range)
  {
    Within(r.prevalence, prevalence) && Within(r.income, income)
  }

  function RangeMask(prevalence: Range, income: Range): Row -> bool
  {
    (r: Row) => InRanges(r, prevalence, income)
  }

  function StateMask(selected: set<string>): Row -> bool
  {
    (r: Row) => r.state in selected
  }

  /** `df[mask]`: the rows inside both ranges, in their order. */
  function RangeFilter(df: seq<Row>, prevalence: Range, income: Range): (r: seq<Row>)
    ensures forall row :: row in r <==> row in df && InRanges(row, prevalence, income)
  {
    Where(df, RangeMask(prevalence, income))
  }

  /** `if selected_states: filtered_df = filtered_df[filtered_df["State"].isin(selected_states)]`. */
  function SelectStates(t: seq<Row>, selected: set<string>): (r: seq<Row>)
    ensures selected == {} ==> r == t
    ensures selected != {} ==> forall row :: row in r <==> row in t && row.state in selected
  {
    if selected == {} then t else Where(t, StateMask(selected))
  }

  /** Whether the full filter keeps a row: both ranges, and the selection when there is one. */
  predicate Keeps(r: Row, prevalence: Range, income: Range, selected: set<string>)
  {
    InRanges(r, prevalence, income) && (selected == {} || r.state in selected)
  }

  function KeepsMask(prevalence: Range, income: Range, selected: set<string>): Row -> bool
  {
    (r: Row) => Keeps(r, prevalence, income, selected)
  }

  /** `filtered_df` of code.py:55-64. */
  function Filtered(df: seq<Row>, prevalence: Range, income: Range, selected: set<string>): (r: seq<Row>)
    ensures forall row :: row in r <==> row in df && Keeps(row, prevalence, income, selected)
  {
    SelectStates(RangeFilter(df, prevalence, income), selected)
  }

  /**
   * The two steps of the filter are one selection by the combined mask, so
   * every kept row occurs in `filtered_df` as often as it occurs in `df`.
   */
  lemma FilteredIsWhere(df: seq<Row>, prevalence: Range, income: Range, selected: set<string>)
    ensures Filtered(df, prevalence, income, selected) == Where(df, KeepsMask(prevalence, income, selected))
  {
    if selected == {} {
      WhereSameMask(df, RangeMask(prevalence, income), KeepsMask(prevalence, income, selected));
    } else {
      WhereWhere(df, RangeMask(prevalence, income), StateMask(selected), KeepsMask(prevalence, income, selected));
    }
  }

  /** The filtered table is the input with rows deleted, the kept ones in their order. */
  lemma FilteredIsSubsequence(df: seq<Row>, prevalence: Range, income: Range, selected: set<string>)
    ensures IsSubsequence(Filtered(df, prevalence, income, selected), df)
  {
    var mid := RangeFilter(df, prevalence, income);
    WhereIsSubsequence(df, RangeMask(prevalence, income));
    if selected != {} {
      WhereIsSubsequence(mid, StateMask(selected));
      SubsequenceTransitive(Filtered(df, prevalence, income, selected), mid, df);
    }
  }

  /** Filtering the filtered table again with the same widget values changes nothing. */
  lemma FilteredIdempotent(df: seq<Row>, prevalence: Range, income: Range, selected: set<string>)
    ensures Filtered(Filtered(df, prevalence, income, selected), prevalence, income, selected)
            == Filtered(df, prevalence, income, selected)
  {
    var f := Filtered(df, prevalence, income, selected);
    WhereAll(f, RangeMask(prevalence, income));
    if selected != {} {
      WhereAll(f, StateMask(selected));
    }
  }

  /** With nothing selected, the result is exactly the range-filtered table. */
  lemma EmptySelection(df: seq<Row>, prevalence: Range, income: Range)
    ensures Filtered(df, prevalence, income, {}) == RangeFilter(df, prevalence, income)
  {
  }

  /** Both ends of a range are inclusive; one unit past either end is outside. */
  lemma RangeEndsInclusive(rg: Range)
    requires rg.low <= rg.high
    ensures Within(Num(rg.low as real), rg) && Within(Num(rg.high as real), rg)
    ensures !Within(Num((rg.low - 1) as real), rg) && !Within(Num((rg.high + 1) as real), rg)
    ensures !Within(Missing, rg)
  {
  }

  // ---- default slider bounds (code.py:40-51) ----

  /** Python's `int()` on a float: truncation toward zero. */
  function Trunc(x: real): (n: int)
    ensures x >= 0.0 ==> n as real <= x < n as real + 1.0
    ensures x < 0.0 ==> n as real - 1.0 < x <= n as real
  {
    if x >= 0.0 then x.Floor else -((-x).Floor)
  }

  /** The numbers present in a column, in row order: what pandas' `min`/`max` skip missing values to see. */
  function Present(t: seq<Row>, col: Column): (xs: seq<real>)
    ensures forall x :: x in xs <==> exists r :: r in t && Get(r, col) == Num(x)
  {
    if t == [] then []
    else (if Get(t[0], col).Num? then [Get(t[0], col).value] else []) + Present(t[1..], col)
  }

  function Min(xs: seq<real>): (m: real)
    requires xs != []
    ensures m in xs && forall x :: x in xs ==> m <= x
  {
    if |xs| == 1 then xs[0]
    else
      var rest := Min(xs[1..]);
      assert xs == [xs[0]] + xs[1..];
      if xs[0] <= rest then xs[0] else rest
  }

  function Max(xs: seq<real>): (m: real)
    requires xs != []
    ensures m in xs && forall x :: x in xs ==> x <= m
  {
    if |xs| == 1 then xs[0]
    else
      var rest := Max(xs[1..]);
      assert xs == [xs[0]] + xs[1..];
      if xs[0] >= rest then xs[0] else rest
  }

  /**
   * `(int(df[col].min()), int(df[col].max()))`, the slider's limits and its
   * default value. With no number in the column the minimum is NaN and `int`
   * raises, which ends the page: that is `None`.
   */
  function SliderLimits(t: seq<Row>, col: Column): (lim: Option<Range>)
    ensures lim.None? <==> Present(t, col) == []
    ensures lim.Some? ==> lim.value == Range(Trunc(Min(Present(t, col))), Trunc(Max(Present(t, col))))
    ensures lim.Some? ==> lim.value.low <= lim.value.high
  {
    var xs := Present(t, col);
    if xs == [] then None
    else
      assert Min(xs) <= Max(xs);
      Some(Range(Trunc(Min(xs)), Trunc(Max(xs))))
  }

  /**
   * On data with no negative number, the default lower bound keeps every row
   * whose value is present, and a present value is inside the default range
   * exactly when it does not exceed the truncated maximum.
   */
  lemma DefaultRange(t: seq<Row>, col: Column, r: Row)
    requires SliderLimits(t, col).Some?
    requires forall x :: x in Present(t, col) ==> x >= 0.0
    requires r in t && Get(r, col).Num?
    ensures SliderLimits(t, col).value.low as real <= Get(r, col).value
    ensures Within(Get(r, col), SliderLimits(t, col).value) <==> Get(r, col).value <= SliderLimits(t, col).value.high as real
  {
    var xs := Present(t, col);
    assert Get(r, col).value in xs;
  }

  /**
   * A fractional maximum lies above the slider's top, so the row holding it
   * fails the range test for every value the slider can take, the default
   * included.
   */
  lemma FractionalMaxExcluded(t: seq<Row>, col: Column, r: Row, rg: Range)
    requires SliderLimits(t, col).Some?
    requires r in t && Get(r, col).Num? && Get(r, col).value == Max(Present(t, col))
    requires Get(r, col).value >= 0.0 && Trunc(Get(r, col).value) as real != Get(r, col).value
    requires rg.high <= SliderLimits(t, col).value.high
    ensures !Within(Get(r, col), rg)
  {
  }
}
