/**
 * The dashboard's three source tables, the unified table they are merged
 * into, and the two column-wise steps applied to them: trimming the `State`
 * key and the permissive numeric coercion of the measure columns.
 */
module Tables {
  import opened Wrappers
  import opened Text
  import opened Frames

  /**
   * A cell of a measure column as the CSV reader leaves it: a number, raw
   * text, or an empty cell. The reader types whole columns: once one cell of
   * a column does not read as a number (a footnote marker, a thousands
   * separator), every cell of that column stays text, numeric-looking ones
   * included.
   */
  datatype Cell = Num(value: real) | Raw(text: string) | Missing

  /** A row of one source file: the `State` key and that file's measure. */
  datatype SourceRow = SourceRow(state: string, measure: Cell)

  /** A row of the obesity table merged with the household table. */
  datatype PartialRow = PartialRow(state: string, prevalence: Cell, income: Cell)

  /** A row of the unified table: `State`, `Prevalence`, `Median Household Income`, `GDP_2023`. */
  datatype Row = Row(state: string, prevalence: Cell, income: Cell, gdp: Cell)

  /** The three measure columns of the unified table. */
  datatype Column = Prevalence | Income | Gdp

  function Get(r: Row, col: Column): Cell
  {
    match col
    case Prevalence => r.prevalence
    case Income => r.income
    case Gdp => r.gdp
  }

  /** The row with the cell of `col` replaced by `c`. */
  function Set(r: Row, col: Column, c: Cell): (r': Row)
    ensures r'.state == r.state
    ensures Get(r', col) == c
    ensures forall other :: other != col ==> Get(r', other) == Get(r, other)
  {
    match col
    case Prevalence => r.(prevalence := c)
    case Income => r.(income := c)
    case Gdp => r.(gdp := c)
  }

  // ---- key normalisation ----

  function SourceState(r: SourceRow): string { r.state }

  /** `table['State'] = table['State'].str.strip()`: each key is stripped, nothing else changes. */
  function NormalizeKeys(t: seq<SourceRow>): (r: seq<SourceRow>)
    ensures |r| == |t|
    ensures forall i :: 0 <= i < |t| ==> r[i].state == Strip(t[i].state) && r[i].measure == t[i].measure
    ensures forall row :: row in r ==> IsStripped(row.state)
  {
    seq(|t|, i requires 0 <= i < |t| => t[i].(state := Strip(t[i].state)))
  }

  /** A table whose keys carry no surrounding whitespace is left as it is. */
  lemma NormalizeKeysFixes(t: seq<SourceRow>)
    requires forall r :: r in t ==> IsStripped(r.state)
    ensures NormalizeKeys(t) == t
  {
    forall i | 0 <= i < |t| ensures NormalizeKeys(t)[i] == t[i] {
      assert t[i] in t;
      StripFixesStripped(t[i].state);
    }
  }

  /** Normalising the keys a second time changes nothing. */
  lemma NormalizeKeysIdempotent(t: seq<SourceRow>)
    ensures NormalizeKeys(NormalizeKeys(t)) == NormalizeKeys(t)
  {
    NormalizeKeysFixes(NormalizeKeys(t));
  }

  // ---- the two inner merges ----

  function PartialState(r: PartialRow): string { r.state }

  function RowState(r: Row): string { r.state }

  function CombineHousehold(o: SourceRow, h: SourceRow): PartialRow
  {
    PartialRow(o.state, o.measure, h.measure)
  }

  function CombineGdp(p: PartialRow, g: SourceRow): Row
  {
    Row(p.state, p.prevalence, p.income, g.measure)
  }

  /** `pd.merge(obesity, household, on="State", how="inner")`. */
  function MergeHousehold(obesity: seq<SourceRow>, household: seq<SourceRow>): (df: seq<PartialRow>)
    ensures KeySet(df, PartialState) == KeySet(obesity, SourceState) * KeySet(household, SourceState)
    ensures forall p :: p in df <==>
              exists o, h :: o in obesity && h in household && o.state == h.state && p == CombineHousehold(o, h)
  {
    JoinKeys(obesity, household, SourceState, SourceState, CombineHousehold, PartialState);
    InnerJoin(obesity, household, SourceState, SourceState, CombineHousehold)
  }

  /** `pd.merge(df, gdp, on="State", how="inner")`. */
  function MergeGdp(df: seq<PartialRow>, gdp: seq<SourceRow>): (r: seq<Row>)
    ensures KeySet(r, RowState) == KeySet(df, PartialState) * KeySet(gdp, SourceState)
    ensures forall row :: row in r <==>
              exists p, g :: p in df && g in gdp && p.state == g.state && row == CombineGdp(p, g)
  {
    JoinKeys(df, gdp, PartialState, SourceState, CombineGdp, RowState);
    InnerJoin(df, gdp, PartialState, SourceState, CombineGdp)
  }

  /** The two merges in sequence: a state is in the result iff all three tables have it. */
  lemma JoinedStates(obesity: seq<SourceRow>, household: seq<SourceRow>, gdp: seq<SourceRow>, s: string)
    ensures (exists r :: r in MergeGdp(MergeHousehold(obesity, household), gdp) && r.state == s)
            <==> ((exists o :: o in obesity && o.state == s)
                  && (exists h :: h in household && h.state == s)
                  && (exists g :: g in gdp && g.state == s))
  {
    var df := MergeHousehold(obesity, household);
    assert s in KeySet(MergeGdp(df, gdp), RowState) <==> s in KeySet(df, PartialState) && s in KeySet(gdp, SourceState);
  }

  /**
   * With one row per state in each source, the merged table has one row per
   * state common to all three, in the order of the obesity table.
   */
  lemma JoinedOrder(obesity: seq<SourceRow>, household: seq<SourceRow>, gdp: seq<SourceRow>)
    requires UniqueKeys(household, SourceState) && UniqueKeys(gdp, SourceState)
    ensures Project(MergeGdp(MergeHousehold(obesity, household), gdp), RowState)
            == Project(Where(obesity, InAll(household, gdp)), SourceState)
  {
    var df := MergeHousehold(obesity, household);
    var gdpKeys := KeySet(gdp, SourceState);
    var inH := (o: SourceRow) => o.state in KeySet(household, SourceState);
    var inG := (p: PartialRow) => p.state in gdpKeys;
    var inG' := (o: SourceRow) => o.state in gdpKeys;
    JoinUniqueKeys(obesity, household, SourceState, SourceState, CombineHousehold, PartialState, inH);
    JoinUniqueKeys(df, gdp, PartialState, SourceState, CombineGdp, RowState, inG);
    WhereSameKeys(df, Where(obesity, inH), PartialState, SourceState, inG, inG', k => k in gdpKeys);
    WhereWhere(obesity, inH, inG', InAll(household, gdp));
  }

  /** With one row per state in each input, the merged table has one row per state. */
  lemma JoinedUnique(obesity: seq<SourceRow>, household: seq<SourceRow>, gdp: seq<SourceRow>)
    requires UniqueKeys(obesity, SourceState)
    requires UniqueKeys(household, SourceState) && UniqueKeys(gdp, SourceState)
    ensures UniqueKeys(MergeGdp(MergeHousehold(obesity, household), gdp), RowState)
  {
    var df := MergeGdp(MergeHousehold(obesity, household), gdp);
    var kept := Where(obesity, InAll(household, gdp));
    JoinedOrder(obesity, household, gdp);
    WhereUnique(obesity, InAll(household, gdp), SourceState);
    var ks := Project(df, RowState);
    assert ks == Project(kept, SourceState);
    forall i, j | 0 <= i < j < |df| ensures RowState(df[i]) != RowState(df[j]) {
      assert ks[i] == SourceState(kept[i]) && ks[j] == SourceState(kept[j]);
    }
  }

  /** The state of an obesity row is in the household and GDP tables. */
  ghost function InAll(household: seq<SourceRow>, gdp: seq<SourceRow>): SourceRow -> bool
  {
    (o: SourceRow) => o.state in KeySet(household, SourceState) && o.state in KeySet(gdp, SourceState)
  }
}
