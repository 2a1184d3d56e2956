/**
 * The dashboard script as one run: the three tables as loaded, the widget
 * values as chosen, and the two tables handed to the charts.
 */
module Dashboard {
  import opened Wrappers
  import opened Text
  import opened Frames
  import opened Tables
  import opened Coercion
  import opened Filters
  import opened Regions

  /** What one run hands to the presentation layer. */
  datatype View = View(
    prevalenceLimits: Range,     // limits and default of the prevalence slider
    incomeLimits: Range,         // limits and default of the income slider
    bubble: seq<Row>,            // `filtered_df`, for the bubble chart
    choropleth: seq<CodedRow>)   // the region-coded table, for the map

  /** The unified table `df` of code.py:17-28. */
  function Unified(obesity: seq<SourceRow>, household: seq<SourceRow>, gdp: seq<SourceRow>,
                   parse: string -> Option<real>): (df: seq<Row>)
    ensures Numeric(df)
  {
    CoerceAll(MergeGdp(MergeHousehold(NormalizeKeys(obesity), NormalizeKeys(household)), NormalizeKeys(gdp)), parse)
  }

  /** A state of the unified table is a trimmed key that all three trimmed sources have. */
  lemma UnifiedStates(obesity: seq<SourceRow>, household: seq<SourceRow>, gdp: seq<SourceRow>,
                      parse: string -> Option<real>, r: Row)
    requires r in Unified(obesity, household, gdp, parse)
    ensures IsStripped(r.state)
    ensures r.state in KeySet(NormalizeKeys(obesity), SourceState)
    ensures r.state in KeySet(NormalizeKeys(household), SourceState)
    ensures r.state in KeySet(NormalizeKeys(gdp), SourceState)
  {
    var ob, hh, gd := NormalizeKeys(obesity), NormalizeKeys(household), NormalizeKeys(gdp);
    var joined := MergeGdp(MergeHousehold(ob, hh), gd);
    var i :| 0 <= i < |Unified(obesity, household, gdp, parse)| && Unified(obesity, household, gdp, parse)[i] == r;
    assert joined[i] in joined && joined[i].state == r.state;
    assert r.state in KeySet(joined, RowState);
    var o :| o in ob && o.state == r.state;
  }

  /**
   * One run of the script. `parse` is how `pd.to_numeric` reads text; the
   * selection and the two ranges are what the widgets return. The run stops
   * (`None`) where the script raises: when the prevalence or income column
   * has no number, `int(min)` fails before either chart is drawn.
   */
  method Run(obesity: seq<SourceRow>, household: seq<SourceRow>, gdp: seq<SourceRow>,
             parse: string -> Option<real>,
             selected: set<string>, prevalenceRange: Range, incomeRange: Range)
    returns (view: Option<View>)
    ensures var df := Unified(obesity, household, gdp, parse);
            view.None? <==> (SliderLimits(df, Prevalence).None? || SliderLimits(df, Income).None?)
    ensures var df := Unified(obesity, household, gdp, parse);
            view.Some? ==>
              && view.value.prevalenceLimits == SliderLimits(df, Prevalence).value
              && view.value.incomeLimits == SliderLimits(df, Income).value
    ensures var df := Unified(obesity, household, gdp, parse);
            view.Some? ==>
              && view.value.bubble == Where(df, KeepsMask(prevalenceRange, incomeRange, selected))
              && IsSubsequence(view.value.bubble, df)
              && forall r :: r in view.value.bubble <==> r in df && Keeps(r, prevalenceRange, incomeRange, selected)
    ensures var df := Unified(obesity, household, gdp, parse);
            view.Some? ==>
              && RowsOf(view.value.choropleth) == Where(df, HasCode)
              && forall c :: c in view.value.choropleth ==>
                   c.row.state in StateAbbrev && c.code == StateAbbrev[c.row.state] && IsPostalCode(c.code)
  {
    // code.py:17-19
    var ob := NormalizeKeys(obesity);
    var hh := NormalizeKeys(household);
    var gd := NormalizeKeys(gdp);
    // code.py:22-23
    var df := MergeHousehold(ob, hh);
    var merged := MergeGdp(df, gd);
    // code.py:26-28
    var unified := CoerceColumn(merged, Prevalence, parse);
    unified := CoerceColumn(unified, Income, parse);
    unified := CoerceColumn(unified, Gdp, parse);
    assert unified == Unified(obesity, household, gdp, parse);
    // code.py:38-52
    var prevalenceLimits := SliderLimits(unified, Prevalence);
    if prevalenceLimits.None? {
      return None;
    }
    var incomeLimits := SliderLimits(unified, Income);
    if incomeLimits.None? {
      return None;
    }
    // code.py:55-64
    var filtered := RangeFilter(unified, prevalenceRange, incomeRange);
    if selected != {} {
      filtered := Where(filtered, StateMask(selected));
    }
    assert filtered == Filtered(unified, prevalenceRange, incomeRange, selected);
    BubbleRows(unified, prevalenceRange, incomeRange, selected);
    // code.py:167-168
    var coded := Resolve(unified);
    // code.py:171-173
    var choropleth := CoerceCodedColumn(coded, Prevalence, parse);
    choropleth := CoerceCodedColumn(choropleth, Income, parse);
    choropleth := CoerceCodedColumn(choropleth, Gdp, parse);
    ChoroplethRows(unified, parse);
    view := Some(View(prevalenceLimits.value, incomeLimits.value, filtered, choropleth));
  }

  /** `filtered_df` is one selection of `df` by the combined mask: the kept rows, each as often as in `df`, in order. */
  lemma BubbleRows(df: seq<Row>, prevalence: Range, income: Range, selected: set<string>)
    ensures var f := Filtered(df, prevalence, income, selected);
            && f == Where(df, KeepsMask(prevalence, income, selected))
            && IsSubsequence(f, df)
            && forall r :: r in f <==> r in df && Keeps(r, prevalence, income, selected)
  {
    FilteredIsSubsequence(df, prevalence, income, selected);
    FilteredIsWhere(df, prevalence, income, selected);
  }

  /** The choropleth table of code.py:167-173: the rows of listed states, in order, with their codes, which the second coercion leaves as they are. */
  function Choropleth(df: seq<Row>, parse: string -> Option<real>): seq<CodedRow>
  {
    CoerceCodedColumn(CoerceCodedColumn(CoerceCodedColumn(Resolve(df), Prevalence, parse), Income, parse), Gdp, parse)
  }

  /** On the unified (numeric) table, the choropleth table is the rows of listed states, in order, each with its postal code. */
  lemma ChoroplethRows(df: seq<Row>, parse: string -> Option<real>)
    requires Numeric(df)
    ensures RowsOf(Choropleth(df, parse)) == Where(df, HasCode)
    ensures forall c :: c in Choropleth(df, parse) ==>
              c.row.state in StateAbbrev && c.code == StateAbbrev[c.row.state] && IsPostalCode(c.code)
  {
    var coded := Resolve(df);
    ResolvedCodes(df);
    assert Numeric(RowsOf(coded));
    RecoerceCodedIsIdentity(coded, Prevalence, parse);
    RecoerceCodedIsIdentity(coded, Income, parse);
    RecoerceCodedIsIdentity(coded, Gdp, parse);
  }

  const ExampleObesity := [SourceRow("Alabama", Num(39.0)), SourceRow("Vermont", Num(28.0))]
  const ExampleHousehold := [SourceRow("Alabama", Num(52000.0)), SourceRow("Vermont", Num(67000.0))]
  const ExampleGdp := [SourceRow("Alabama", Num(250000.0)), SourceRow("Vermont", Num(40000.0))]
  const ExampleAlabama := Row("Alabama", Num(39.0), Num(52000.0), Num(250000.0))
  const ExampleVermont := Row("Vermont", Num(28.0), Num(67000.0), Num(40000.0))

  lemma ExampleKeys()
    ensures NormalizeKeys(ExampleObesity) == ExampleObesity
    ensures NormalizeKeys(ExampleHousehold) == ExampleHousehold
    ensures NormalizeKeys(ExampleGdp) == ExampleGdp
  {
    assert IsStripped("Alabama") && IsStripped("Vermont");
    NormalizeKeysFixes(ExampleObesity);
    NormalizeKeysFixes(ExampleHousehold);
    NormalizeKeysFixes(ExampleGdp);
  }

  lemma ExampleMergeHousehold()
    ensures MergeHousehold(ExampleObesity, ExampleHousehold)
            == [PartialRow("Alabama", Num(39.0), Num(52000.0)), PartialRow("Vermont", Num(28.0), Num(67000.0))]
  {
    var ob, hh := ExampleObesity, ExampleHousehold;
    assert Matches(ob[1], hh[1..], SourceState, SourceState, CombineHousehold) == [CombineHousehold(ob[1], hh[1])];
    assert Matches(ob[0], hh[1..], SourceState, SourceState, CombineHousehold) == [];
  }

  lemma ExampleMergeGdp()
    ensures MergeGdp([PartialRow("Alabama", Num(39.0), Num(52000.0)), PartialRow("Vermont", Num(28.0), Num(67000.0))], ExampleGdp)
            == [ExampleAlabama, ExampleVermont]
  {
    var pair := [PartialRow("Alabama", Num(39.0), Num(52000.0)), PartialRow("Vermont", Num(28.0), Num(67000.0))];
    var gd := ExampleGdp;
    assert Matches(pair[1], gd[1..], PartialState, SourceState, CombineGdp) == [CombineGdp(pair[1], gd[1])];
    assert Matches(pair[0], gd[1..], PartialState, SourceState, CombineGdp) == [];
  }

  lemma ExampleNumeric()
    ensures Numeric([ExampleAlabama, ExampleVermont])
  {
  }

  /** Alabama and Vermont in all three tables give a unified table of both, in order. */
  lemma ExampleUnified(parse: string -> Option<real>)
    ensures Unified(ExampleObesity, ExampleHousehold, ExampleGdp, parse) == [ExampleAlabama, ExampleVermont]
  {
    ExampleKeys();
    ExampleMergeHousehold();
    ExampleMergeGdp();
    var df := [ExampleAlabama, ExampleVermont];
    assert MergeGdp(MergeHousehold(NormalizeKeys(ExampleObesity), NormalizeKeys(ExampleHousehold)), NormalizeKeys(ExampleGdp)) == df;
    ExampleNumeric();
    RecoerceIsIdentity(df, Prevalence, parse);
    RecoerceIsIdentity(df, Income, parse);
    RecoerceIsIdentity(df, Gdp, parse);
    assert CoerceAll(df, parse) == df;
  }

  /**
   * On that table the prevalence slider spans [28, 39] and the income
   * slider [52000, 67000]. The prevalence range [35, 39] keeps Alabama
   * alone.
   */
  lemma ExampleFilter()
    ensures SliderLimits([ExampleAlabama, ExampleVermont], Prevalence) == Some(Range(28, 39))
    ensures SliderLimits([ExampleAlabama, ExampleVermont], Income) == Some(Range(52000, 67000))
    ensures Filtered([ExampleAlabama, ExampleVermont], Range(35, 39), Range(52000, 67000), {}) == [ExampleAlabama]
  {
    var df := [ExampleAlabama, ExampleVermont];
    assert Present(df[1..], Income) == [67000.0];
    assert Present(df, Income) == [52000.0, 67000.0];
    assert Present(df[1..], Prevalence) == [28.0];
    assert Present(df, Prevalence) == [39.0, 28.0];
    assert Where(df[1..], RangeMask(Range(35, 39), Range(52000, 67000))) == [];
  }
}
