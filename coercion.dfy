/**
 * `pd.to_numeric(column, errors="coerce")`: every cell becomes a number or
 * missing, never an error. How a piece of text is read as a number is left
 * abstract: `parse` is any partial function from text to numbers.
 */
module Coercion {
  import opened Wrappers
  import opened Tables

  /** The coercion of one cell: numbers stay, unreadable text becomes missing. */
  function Coerce(c: Cell, parse: string -> Option<real>): (r: Cell)
    ensures !r.Raw?
    ensures c.Num? ==> r == c
    ensures c.Missing? ==> r.Missing?
    ensures c.Raw? ==> (r.Num? <==> parse(c.text).Some?)
    ensures c.Raw? && r.Num? ==> r.value == parse(c.text).value
  {
    match c
    case Num(_) => c
    case Missing => Missing
    case Raw(s) =>
      match parse(s)
      case Some(x) => Num(x)
      case None => Missing
  }

  /** A cell that is already a number or missing is left alone, whatever the parser. */
  lemma CoerceNumeric(c: Cell, parse: string -> Option<real>)
    requires !c.Raw?
    ensures Coerce(c, parse) == c
  {
  }

  /** The row with the cell of `col` coerced. */
  function CoerceCell(r: Row, col: Column, parse: string -> Option<real>): Row
  {
    Set(r, col, Coerce(Get(r, col), parse))
  }

  /**
   * `df[col] = pd.to_numeric(df[col], errors="coerce")`: no row is dropped or
   * moved, the coerced column holds only numbers and missing values, and the
   * key and the other columns are unchanged.
   */
  function CoerceColumn(t: seq<Row>, col: Column, parse: string -> Option<real>): (r: seq<Row>)
    ensures |r| == |t|
    ensures forall i :: 0 <= i < |t| ==> r[i].state == t[i].state
    ensures forall i :: 0 <= i < |t| ==> Get(r[i], col) == Coerce(Get(t[i], col), parse)
    ensures forall i :: 0 <= i < |t| ==> !Get(r[i], col).Raw?
    ensures forall i :: 0 <= i < |t| ==> (Get(t[i], col).Num? ==> Get(r[i], col) == Get(t[i], col))
    ensures forall i, other :: 0 <= i < |t| && other != col ==> Get(r[i], other) == Get(t[i], other)
  {
    seq(|t|, i requires 0 <= i < |t| => CoerceCell(t[i], col, parse))
  }

  /** Every measure cell of every row is a number or missing. */
  predicate Numeric(t: seq<Row>)
  {
    forall r, col :: r in t ==> !Get(r, col).Raw?
  }

  /** The three coercions of code.py:26-28 in order. */
  function CoerceAll(t: seq<Row>, parse: string -> Option<real>): (r: seq<Row>)
    ensures |r| == |t|
    ensures Numeric(r)
    ensures forall i :: 0 <= i < |t| ==> r[i].state == t[i].state
    ensures forall i, col :: 0 <= i < |t| ==> Get(r[i], col) == Coerce(Get(t[i], col), parse)
  {
    var t1 := CoerceColumn(t, Prevalence, parse);
    var t2 := CoerceColumn(t1, Income, parse);
    var t3 := CoerceColumn(t2, Gdp, parse);
    t3
  }

  /** Re-applying the coercion to an already numeric table (code.py:171-173) changes nothing. */
  lemma RecoerceIsIdentity(t: seq<Row>, col: Column, parse: string -> Option<real>)
    requires Numeric(t)
    ensures CoerceColumn(t, col, parse) == t
  {
    var r := CoerceColumn(t, col, parse);
    forall i | 0 <= i < |t| ensures r[i] == t[i] {
      assert t[i] in t;
      assert Get(r[i], Prevalence) == Get(t[i], Prevalence);
      assert Get(r[i], Income) == Get(t[i], Income);
      assert Get(r[i], Gdp) == Get(t[i], Gdp);
    }
  }

  /** A cell of the coerced table is missing only where the source cell was empty or unreadable. */
  lemma CoerceAllMissing(t: seq<Row>, parse: string -> Option<real>, i: int, col: Column)
    requires 0 <= i < |t|
    ensures Get(CoerceAll(t, parse)[i], col).Missing? <==>
              (Get(t[i], col).Missing? || (Get(t[i], col).Raw? && parse(Get(t[i], col).text).None?))
  {
    var t1 := CoerceColumn(t, Prevalence, parse);
    var t2 := CoerceColumn(t1, Income, parse);
    assert Get(t1[i], col) == (if col == Prevalence then Coerce(Get(t[i], col), parse) else Get(t[i], col));
    assert Get(t2[i], col) == (if col == Income then Coerce(Get(t1[i], col), parse) else Get(t1[i], col));
  }
}
