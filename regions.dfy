/**
 * The region-code resolver behind the choropleth map: the fixed table
 * `state_abbrev` from a state or territory name to its two-letter postal
 * code, the lookup that adds a `code` column, and the `dropna` that removes
 * the rows without one.
 */
module Regions {
  import opened Wrappers
  import opened Frames
  import opened Tables
  import opened Coercion

  /** Number of entries of `state_abbrev`: 50 states, the District of Columbia, Guam, Puerto Rico, the Virgin Islands. */
  const EntryCount: nat := 54

  predicate IsUpper(c: char) { 'A' <= c <= 'Z' }

  /** A postal code: two capital letters. */
  predicate IsPostalCode(code: string)
  {
    |code| == 2 && IsUpper(code[0]) && IsUpper(code[1])
  }

  /** Entry `i` of `state_abbrev`, as (name, code), in the order the table lists them. */
  function Entry(i: nat): (string, string)
    requires i < EntryCount
  {
    match i
    case 0 => ("Alabama", "AL")
    case 1 => ("Alaska", "AK")
    case 2 => ("Arizona", "AZ")
    case 3 => ("Arkansas", "AR")
    case 4 => ("California", "CA")
    case 5 => ("Colorado", "CO")
    case 6 => ("Connecticut", "CT")
    case 7 => ("Delaware", "DE")
    case 8 => ("District of Columbia", "DC")
    case 9 => ("Florida", "FL")
    case 10 => ("Georgia", "GA")
    case 11 => ("Guam", "GU")
    case 12 => ("Hawaii", "HI")
    case 13 => ("Idaho", "ID")
    case 14 => ("Illinois", "IL")
    case 15 => ("Indiana", "IN")
    case 16 => ("Iowa", "IA")
    case 17 => ("Kansas", "KS")
    case 18 => ("Kentucky", "KY")
    case 19 => ("Louisiana", "LA")
    case 20 => ("Maine", "ME")
    case 21 => ("Maryland", "MD")
    case 22 => ("Massachusetts", "MA")
    case 23 => ("Michigan", "MI")
    case 24 => ("Minnesota", "MN")
    case 25 => ("Mississippi", "MS")
    case 26 => ("Missouri", "MO")
    case 27 => ("Montana", "MT")
    case 28 => ("Nebraska", "NE")
    case 29 => ("Nevada", "NV")
    case 30 => ("New Hampshire", "NH")
    case 31 => ("New Jersey", "NJ")
    case 32 => ("New Mexico", "NM")
    case 33 => ("New York", "NY")
    case 34 => ("North Carolina", "NC")
    case 35 => ("North Dakota", "ND")
    case 36 => ("Ohio", "OH")
    case 37 => ("Oklahoma", "OK")
    case 38 => ("Oregon", "OR")
    case 39 => ("Pennsylvania", "PA")
    case 40 => ("Puerto Rico", "PR")
    case 41 => ("Rhode Island", "RI")
    case 42 => ("South Carolina", "SC")
    case 43 => ("South Dakota", "SD")
    case 44 => ("Tennessee", "TN")
    case 45 => ("Texas", "TX")
    case 46 => ("Utah", "UT")
    case 47 => ("Vermont", "VT")
    case 48 => ("Virgin Islands", "VI")
    case 49 => ("Virginia", "VA")
    case 50 => ("Washington", "WA")
    case 51 => ("West Virginia", "WV")
    case 52 => ("Wisconsin", "WI")
    case 53 => ("Wyoming", "WY")
  }

  /** Python's `<` on `str`: strict lexicographic order by code point. */
  predicate Before(a: string, b: string)
  {
    |b| > 0 && (|a| == 0 || a[0] < b[0] || (a[0] == b[0] && Before(a[1..], b[1..])))
  }

  lemma {:induction false} BeforeIrreflexive(a: string)
    ensures !Before(a, a)
  {
    if |a| > 0 {
      BeforeIrreflexive(a[1..]);
    }
  }

  lemma {:induction false} BeforeTransitive(a: string, b: string, c: string)
    requires Before(a, b) && Before(b, c)
    ensures Before(a, c)
  {
    if |a| > 0 && a[0] == b[0] && b[0] == c[0] {
      BeforeTransitive(a[1..], b[1..], c[1..]);
    }
  }

  /** Entries 0 to 4, one case each. */
  lemma NamesAscendingFrom0(i: nat)
    requires 0 <= i < 5
    ensures Before(Entry(i).0, Entry(i + 1).0)
  {
    match i
    case 0 => BeforeAt(Entry(0).0, Entry(1).0, 3);
    case 1 => BeforeAt(Entry(1).0, Entry(2).0, 1);
    case 2 => BeforeAt(Entry(2).0, Entry(3).0, 2);
    case 3 => BeforeAt(Entry(3).0, Entry(4).0, 0);
    case _ => BeforeAt(Entry(4).0, Entry(5).0, 1);
  }

  /** Entries 5 to 9, one case each. */
  lemma NamesAscendingFrom5(i: nat)
    requires 5 <= i < 10
    ensures Before(Entry(i).0, Entry(i + 1).0)
  {
    match i
    case 5 => BeforeAt(Entry(5).0, Entry(6).0, 2);
    case 6 => BeforeAt(Entry(6).0, Entry(7).0, 0);
    case 7 => BeforeAt(Entry(7).0, Entry(8).0, 1);
    case 8 => BeforeAt(Entry(8).0, Entry(9).0, 0);
    case _ => BeforeAt(Entry(9).0, Entry(10).0, 0);
  }

  /** Entries 10 to 14, one case each. */
  lemma NamesAscendingFrom10(i: nat)
    requires 10 <= i < 15
    ensures Before(Entry(i).0, Entry(i + 1).0)
  {
    match i
    case 10 => BeforeAt(Entry(10).0, Entry(11).0, 1);
    case 11 => BeforeAt(Entry(11).0, Entry(12).0, 0);
    case 12 => BeforeAt(Entry(12).0, Entry(13).0, 0);
    case 13 => BeforeAt(Entry(13).0, Entry(14).0, 1);
    case _ => BeforeAt(Entry(14).0, Entry(15).0, 1);
  }

  /** Entries 15 to 19, one case each. */
  lemma NamesAscendingFrom15(i: nat)
    requires 15 <= i < 20
    ensures Before(Entry(i).0, Entry(i + 1).0)
  {
    match i
    case 15 => BeforeAt(Entry(15).0, Entry(16).0, 1);
    case 16 => BeforeAt(Entry(16).0, Entry(17).0, 0);
    case 17 => BeforeAt(Entry(17).0, Entry(18).0, 1);
    case 18 => BeforeAt(Entry(18).0, Entry(19).0, 0);
    case _ => BeforeAt(Entry(19).0, Entry(20).0, 0);
  }

  /** Entries 20 to 24, one case each. */
  lemma NamesAscendingFrom20(i: nat)
    requires 20 <= i < 25
    ensures Before(Entry(i).0, Entry(i + 1).0)
  {
    match i
    case 20 => BeforeAt(Entry(20).0, Entry(21).0, 2);
    case 21 => BeforeAt(Entry(21).0, Entry(22).0, 2);
    case 22 => BeforeAt(Entry(22).0, Entry(23).0, 1);
    case 23 => BeforeAt(Entry(23).0, Entry(24).0, 2);
    case _ => BeforeAt(Entry(24).0, Entry(25).0, 2);
  }

  /** Entries 25 to 29, one case each. */
  lemma NamesAscendingFrom25(i: nat)
    requires 25 <= i < 30
    ensures Before(Entry(i).0, Entry(i + 1).0)
  {
    match i
    case 25 => BeforeAt(Entry(25).0, Entry(26).0, 4);
    case 26 => BeforeAt(Entry(26).0, Entry(27).0, 1);
    case 27 => BeforeAt(Entry(27).0, Entry(28).0, 0);
    case 28 => BeforeAt(Entry(28).0, Entry(29).0, 2);
    case _ => BeforeAt(Entry(29).0, Entry(30).0, 2);
  }

  /** Entries 30 to 34, one case each. */
  lemma NamesAscendingFrom30(i: nat)
    requires 30 <= i < 35
    ensures Before(Entry(i).0, Entry(i + 1).0)
  {
    match i
    case 30 => BeforeAt(Entry(30).0, Entry(31).0, 4);
    case 31 => BeforeAt(Entry(31).0, Entry(32).0, 4);
    case 32 => BeforeAt(Entry(32).0, Entry(33).0, 4);
    case 33 => BeforeAt(Entry(33).0, Entry(34).0, 1);
    case _ => BeforeAt(Entry(34).0, Entry(35).0, 6);
  }

  /** Entries 35 to 39, one case each. */
  lemma NamesAscendingFrom35(i: nat)
    requires 35 <= i < 40
    ensures Before(Entry(i).0, Entry(i + 1).0)
  {
    match i
    case 35 => BeforeAt(Entry(35).0, Entry(36).0, 0);
    case 36 => BeforeAt(Entry(36).0, Entry(37).0, 1);
    case 37 => BeforeAt(Entry(37).0, Entry(38).0, 1);
    case 38 => BeforeAt(Entry(38).0, Entry(39).0, 0);
    case _ => BeforeAt(Entry(39).0, Entry(40).0, 1);
  }

  /** Entries 40 to 44, one case each. */
  lemma NamesAscendingFrom40(i: nat)
    requires 40 <= i < 45
    ensures Before(Entry(i).0, Entry(i + 1).0)
  {
    match i
    case 40 => BeforeAt(Entry(40).0, Entry(41).0, 0);
    case 41 => BeforeAt(Entry(41).0, Entry(42).0, 0);
    case 42 => BeforeAt(Entry(42).0, Entry(43).0, 6);
    case 43 => BeforeAt(Entry(43).0, Entry(44).0, 0);
    case _ => BeforeAt(Entry(44).0, Entry(45).0, 2);
  }

  /** Entries 45 to 49, one case each. */
  lemma NamesAscendingFrom45(i: nat)
    requires 45 <= i < 50
    ensures Before(Entry(i).0, Entry(i + 1).0)
  {
    match i
    case 45 => BeforeAt(Entry(45).0, Entry(46).0, 0);
    case 46 => BeforeAt(Entry(46).0, Entry(47).0, 0);
    case 47 => BeforeAt(Entry(47).0, Entry(48).0, 1);
    case 48 => BeforeAt(Entry(48).0, Entry(49).0, 6);
    case _ => BeforeAt(Entry(49).0, Entry(50).0, 0);
  }

  /** Entries 50 to 52, one case each. */
  lemma NamesAscendingFrom50(i: nat)
    requires 50 <= i < 53
    ensures Before(Entry(i).0, Entry(i + 1).0)
  {
    match i
    case 50 => BeforeAt(Entry(50).0, Entry(51).0, 1);
    case 51 => BeforeAt(Entry(51).0, Entry(52).0, 1);
    case _ => BeforeAt(Entry(52).0, Entry(53).0, 1);
  }

  /** `a` comes before `b` when they agree up to position `k` and differ there in `a`'s favour. */
  lemma {:induction false} BeforeAt(a: string, b: string, k: nat)
    requires k < |a| && k < |b| && a[k] < b[k]
    requires forall m :: 0 <= m < k ==> a[m] == b[m]
    ensures Before(a, b)
  {
    if k > 0 {
      BeforeAt(a[1..], b[1..], k - 1);
    }
  }

  /** The table lists its names in alphabetical order. */
  lemma NamesAscending(i: nat)
    requires i + 1 < EntryCount
    ensures Before(Entry(i).0, Entry(i + 1).0)
  {
    if i < 5 {
      NamesAscendingFrom0(i);
    } else if i < 10 {
      NamesAscendingFrom5(i);
    } else if i < 15 {
      NamesAscendingFrom10(i);
    } else if i < 20 {
      NamesAscendingFrom15(i);
    } else if i < 25 {
      NamesAscendingFrom20(i);
    } else if i < 30 {
      NamesAscendingFrom25(i);
    } else if i < 35 {
      NamesAscendingFrom30(i);
    } else if i < 40 {
      NamesAscendingFrom35(i);
    } else if i < 45 {
      NamesAscendingFrom40(i);
    } else if i < 50 {
      NamesAscendingFrom45(i);
    } else {
      NamesAscendingFrom50(i);
    }
  }

  /** A two-letter code read as a number, so that codes can be looked up by arithmetic. */
  function CodeNumber(code: string): int
  {
    if |code| == 2 then code[0] as int * 0x11_0000 + code[1] as int else -1
  }

  /** The position of a code in the table, found from its number. */
  function CodeIndex(n: int): Option<nat>
  {
    match n
    case 72417356 => Some(0)
    case 72417355 => Some(1)
    case 72417370 => Some(2)
    case 72417362 => Some(3)
    case 74645569 => Some(4)
    case 74645583 => Some(5)
    case 74645588 => Some(6)
    case 75759685 => Some(7)
    case 75759683 => Some(8)
    case 77987916 => Some(9)
    case 79102017 => Some(10)
    case 79102037 => Some(11)
    case 80216137 => Some(12)
    case 81330244 => Some(13)
    case 81330252 => Some(14)
    case 81330254 => Some(15)
    case 81330241 => Some(16)
    case 83558483 => Some(17)
    case 83558489 => Some(18)
    case 84672577 => Some(19)
    case 85786693 => Some(20)
    case 85786692 => Some(21)
    case 85786689 => Some(22)
    case 85786697 => Some(23)
    case 85786702 => Some(24)
    case 85786707 => Some(25)
    case 85786703 => Some(26)
    case 85786708 => Some(27)
    case 86900805 => Some(28)
    case 86900822 => Some(29)
    case 86900808 => Some(30)
    case 86900810 => Some(31)
    case 86900813 => Some(32)
    case 86900825 => Some(33)
    case 86900803 => Some(34)
    case 86900804 => Some(35)
    case 88014920 => Some(36)
    case 88014923 => Some(37)
    case 88014930 => Some(38)
    case 89129025 => Some(39)
    case 89129042 => Some(40)
    case 91357257 => Some(41)
    case 92471363 => Some(42)
    case 92471364 => Some(43)
    case 93585486 => Some(44)
    case 93585496 => Some(45)
    case 94699604 => Some(46)
    case 95813716 => Some(47)
    case 95813705 => Some(48)
    case 95813697 => Some(49)
    case 96927809 => Some(50)
    case 96927830 => Some(51)
    case 96927817 => Some(52)
    case 96927833 => Some(53)
    case _ => None
  }

  /** Entries 0 to 4, one case each. */
  lemma CodeIndexFrom0(i: nat)
    requires 0 <= i < 5
    ensures IsPostalCode(Entry(i).1) && CodeIndex(CodeNumber(Entry(i).1)) == Some(i)
  {
    match i
    case 0 => {}
    case 1 => {}
    case 2 => {}
    case 3 => {}
    case _ => {}
  }

  /** Entries 5 to 9, one case each. */
  lemma CodeIndexFrom5(i: nat)
    requires 5 <= i < 10
    ensures IsPostalCode(Entry(i).1) && CodeIndex(CodeNumber(Entry(i).1)) == Some(i)
  {
    match i
    case 5 => {}
    case 6 => {}
    case 7 => {}
    case 8 => {}
    case _ => {}
  }

  /** Entries 10 to 14, one case each. */
  lemma CodeIndexFrom10(i: nat)
    requires 10 <= i < 15
    ensures IsPostalCode(Entry(i).1) && CodeIndex(CodeNumber(Entry(i).1)) == Some(i)
  {
    match i
    case 10 => {}
    case 11 => {}
    case 12 => {}
    case 13 => {}
    case _ => {}
  }

  /** Entries 15 to 19, one case each. */
  lemma CodeIndexFrom15(i: nat)
    requires 15 <= i < 20
    ensures IsPostalCode(Entry(i).1) && CodeIndex(CodeNumber(Entry(i).1)) == Some(i)
  {
    match i
    case 15 => {}
    case 16 => {}
    case 17 => {}
    case 18 => {}
    case _ => {}
  }

  /** Entries 20 to 24, one case each. */
  lemma CodeIndexFrom20(i: nat)
    requires 20 <= i < 25
    ensures IsPostalCode(Entry(i).1) && CodeIndex(CodeNumber(Entry(i).1)) == Some(i)
  {
    match i
    case 20 => {}
    case 21 => {}
    case 22 => {}
    case 23 => {}
    case _ => {}
  }

  /** Entries 25 to 29, one case each. */
  lemma CodeIndexFrom25(i: nat)
    requires 25 <= i < 30
    ensures IsPostalCode(Entry(i).1) && CodeIndex(CodeNumber(Entry(i).1)) == Some(i)
  {
    match i
    case 25 => {}
    case 26 => {}
    case 27 => {}
    case 28 => {}
    case _ => {}
  }

  /** Entries 30 to 34, one case each. */
  lemma CodeIndexFrom30(i: nat)
    requires 30 <= i < 35
    ensures IsPostalCode(Entry(i).1) && CodeIndex(CodeNumber(Entry(i).1)) == Some(i)
  {
    match i
    case 30 => {}
    case 31 => {}
    case 32 => {}
    case 33 => {}
    case _ => {}
  }

  /** Entries 35 to 39, one case each. */
  lemma CodeIndexFrom35(i: nat)
    requires 35 <= i < 40
    ensures IsPostalCode(Entry(i).1) && CodeIndex(CodeNumber(Entry(i).1)) == Some(i)
  {
    match i
    case 35 => {}
    case 36 => {}
    case 37 => {}
    case 38 => {}
    case _ => {}
  }

  /** Entries 40 to 44, one case each. */
  lemma CodeIndexFrom40(i: nat)
    requires 40 <= i < 45
    ensures IsPostalCode(Entry(i).1) && CodeIndex(CodeNumber(Entry(i).1)) == Some(i)
  {
    match i
    case 40 => {}
    case 41 => {}
    case 42 => {}
    case 43 => {}
    case _ => {}
  }

  /** Entries 45 to 49, one case each. */
  lemma CodeIndexFrom45(i: nat)
    requires 45 <= i < 50
    ensures IsPostalCode(Entry(i).1) && CodeIndex(CodeNumber(Entry(i).1)) == Some(i)
  {
    match i
    case 45 => {}
    case 46 => {}
    case 47 => {}
    case 48 => {}
    case _ => {}
  }

  /** Entries 50 to 53, one case each. */
  lemma CodeIndexFrom50(i: nat)
    requires 50 <= i < 54
    ensures IsPostalCode(Entry(i).1) && CodeIndex(CodeNumber(Entry(i).1)) == Some(i)
  {
    match i
    case 50 => {}
    case 51 => {}
    case 52 => {}
    case _ => {}
  }

  /** Each listed code is two capital letters and is found at its own position. */
  lemma CodeIndexOfEntry(i: nat)
    requires i < EntryCount
    ensures IsPostalCode(Entry(i).1) && CodeIndex(CodeNumber(Entry(i).1)) == Some(i)
  {
    if i < 5 {
      CodeIndexFrom0(i);
    } else if i < 10 {
      CodeIndexFrom5(i);
    } else if i < 15 {
      CodeIndexFrom10(i);
    } else if i < 20 {
      CodeIndexFrom15(i);
    } else if i < 25 {
      CodeIndexFrom20(i);
    } else if i < 30 {
      CodeIndexFrom25(i);
    } else if i < 35 {
      CodeIndexFrom30(i);
    } else if i < 40 {
      CodeIndexFrom35(i);
    } else if i < 45 {
      CodeIndexFrom40(i);
    } else if i < 50 {
      CodeIndexFrom45(i);
    } else {
      CodeIndexFrom50(i);
    }
  }

  /** The name of entry `i` (empty past the end, where no entry is). */
  function Name(i: nat): string
  {
    if i < EntryCount then Entry(i).0 else ""
  }

  /** The code of entry `i` (empty past the end, where no entry is). */
  function Code(i: nat): string
  {
    if i < EntryCount then Entry(i).1 else ""
  }

  /** A sequence of strings whose neighbours are in order is in order throughout. */
  lemma {:induction false} ChainOrdered(f: nat -> string, n: nat, i: nat, j: nat)
    requires forall k: nat :: k + 1 < n ==> Before(f(k), f(k + 1))
    requires i < j < n
    ensures Before(f(i), f(j))
    decreases j - i
  {
    if i + 1 < j {
      ChainOrdered(f, n, i + 1, j);
      BeforeTransitive(f(i), f(i + 1), f(j));
    }
  }

  /** No name is listed twice. */
  lemma NamesDistinct(i: nat, j: nat)
    requires i < EntryCount && j < EntryCount && Name(i) == Name(j)
    ensures i == j
  {
    BeforeIrreflexive(Name(i));
    forall k: nat | k + 1 < EntryCount
      ensures Before(Name(k), Name(k + 1))
    {
      NamesAscending(k);
    }
    if i < j {
      ChainOrdered(Name, EntryCount, i, j);
    } else if j < i {
      ChainOrdered(Name, EntryCount, j, i);
    }
  }

  /** No code is listed twice. */
  lemma CodesDistinct(i: nat, j: nat)
    requires i < EntryCount && j < EntryCount && Code(i) == Code(j)
    ensures i == j
  {
    CodeIndexOfEntry(i);
    CodeIndexOfEntry(j);
  }

  /** The dictionary literal with the first `n` pairs `keys(i): vals(i)`; a repeated key would keep its last value. */
  function TableMap(keys: nat -> string, vals: nat -> string, n: nat): map<string, string>
  {
    if n == 0 then map[] else TableMap(keys, vals, n - 1)[keys(n - 1) := vals(n - 1)]
  }

  /** `state_abbrev` as a dictionary. */
  const StateAbbrev: map<string, string> := TableMap(Name, Code, EntryCount)

  predicate Injective(f: nat -> string, n: nat)
  {
    forall i, j :: 0 <= i < n && 0 <= j < n && f(i) == f(j) ==> i == j
  }

  /** A dictionary built from distinct keys has one entry per pair, and each key gives its own value. */
  lemma {:induction false} TableMapProperties(keys: nat -> string, vals: nat -> string, n: nat)
    requires Injective(keys, n)
    ensures |TableMap(keys, vals, n)| == n
    ensures forall i :: 0 <= i < n ==> keys(i) in TableMap(keys, vals, n) && TableMap(keys, vals, n)[keys(i)] == vals(i)
    ensures forall k :: k in TableMap(keys, vals, n) ==> exists i :: 0 <= i < n && keys(i) == k
  {
    if n > 0 {
      assert Injective(keys, n - 1);
      TableMapProperties(keys, vals, n - 1);
      assert keys(n - 1) !in TableMap(keys, vals, n - 1);
    }
  }

  /**
   * `state_abbrev` has 54 keys, every key maps to a two-letter capital code,
   * and no two keys share a code.
   */
  lemma StateAbbrevWellFormed()
    ensures |StateAbbrev| == EntryCount
    ensures forall name :: name in StateAbbrev ==> IsPostalCode(StateAbbrev[name])
    ensures forall a, b :: a in StateAbbrev && b in StateAbbrev && StateAbbrev[a] == StateAbbrev[b] ==> a == b
  {
    forall i, j | 0 <= i < EntryCount && 0 <= j < EntryCount && Name(i) == Name(j) ensures i == j {
      NamesDistinct(i, j);
    }
    TableMapProperties(Name, Code, EntryCount);
    forall name | name in StateAbbrev ensures IsPostalCode(StateAbbrev[name]) {
      var i :| 0 <= i < EntryCount && Name(i) == name;
      CodeIndexOfEntry(i);
      assert StateAbbrev[name] == Code(i);
    }
    forall a, b | a in StateAbbrev && b in StateAbbrev && StateAbbrev[a] == StateAbbrev[b] ensures a == b {
      var i :| 0 <= i < EntryCount && Name(i) == a;
      var j :| 0 <= j < EntryCount && Name(j) == b;
      CodesDistinct(i, j);
    }
  }

  // ---- the resolver (code.py:167-168) ----

  /** A row of the unified table after `df["code"] = df["State"].map(state_abbrev)`. */
  datatype MappedRow = MappedRow(row: Row, code: Option<string>)

  /** A row of the choropleth table: it has a code. */
  datatype CodedRow = CodedRow(row: Row, code: string)

  predicate HasCode(r: Row) { r.state in StateAbbrev }

  /** `Series.map(dict)`: the code of a listed name, missing for any other. */
  function Lookup(name: string): (code: Option<string>)
    ensures code.Some? <==> name in StateAbbrev
    ensures code.Some? ==> code.value == StateAbbrev[name]
  {
    if name in StateAbbrev then Some(StateAbbrev[name]) else None
  }

  /** `df["code"] = df["State"].map(state_abbrev)`: one more column, no row lost. */
  function AddCodes(df: seq<Row>): (t: seq<MappedRow>)
    ensures |t| == |df|
    ensures forall i :: 0 <= i < |df| ==> t[i].row == df[i] && t[i].code == Lookup(df[i].state)
  {
    seq(|df|, i requires 0 <= i < |df| => MappedRow(df[i], Lookup(df[i].state)))
  }

  function RowOfCoded(c: CodedRow): Row { c.row }

  function RowOfMapped(m: MappedRow): Row { m.row }

  /** The rows of the choropleth table without their codes. */
  function RowsOf(t: seq<CodedRow>): seq<Row>
  {
    Project(t, RowOfCoded)
  }

  function Mapped(m: MappedRow): bool { m.code.Some? }

  /** `dropna(subset=["code"])`: the rows whose code is present, in order, with the code kept. */
  function DropMissingCodes(t: seq<MappedRow>): (out: seq<CodedRow>)
    ensures forall c :: c in out ==> MappedRow(c.row, Some(c.code)) in t
    ensures RowsOf(out) == Project(Where(t, Mapped), RowOfMapped)
  {
    if t == [] then []
    else
      var rest := DropMissingCodes(t[1..]);
      assert RowsOf(rest) == Project(Where(t[1..], Mapped), RowOfMapped);
      match t[0].code
      case Some(c) =>
        assert Where(t, Mapped) == [t[0]] + Where(t[1..], Mapped);
        ProjectAppend([CodedRow(t[0].row, c)], rest, RowOfCoded);
        ProjectAppend([t[0]], Where(t[1..], Mapped), RowOfMapped);
        [CodedRow(t[0].row, c)] + rest
      case None =>
        assert Where(t, Mapped) == Where(t[1..], Mapped);
        rest
  }

  /** The resolver: add the code column, then drop the rows without a code. */
  function Resolve(df: seq<Row>): (out: seq<CodedRow>)
    ensures forall c :: c in out ==> c.row.state in StateAbbrev && c.code == StateAbbrev[c.row.state]
    ensures RowsOf(out) == Where(df, HasCode)
  {
    var t := AddCodes(df);
    RowsWhere(df, t);
    DropMissingCodes(t)
  }

  lemma {:induction false} RowsWhere(df: seq<Row>, t: seq<MappedRow>)
    requires |t| == |df|
    requires forall i :: 0 <= i < |df| ==> t[i].row == df[i] && t[i].code == Lookup(df[i].state)
    ensures Project(Where(t, Mapped), RowOfMapped) == Where(df, HasCode)
  {
    if df != [] {
      RowsWhere(df[1..], t[1..]);
      if HasCode(df[0]) {
        assert Where(t, Mapped) == [t[0]] + Where(t[1..], Mapped);
        assert Project([t[0]] + Where(t[1..], Mapped), RowOfMapped) == [t[0].row] + Project(Where(t[1..], Mapped), RowOfMapped);
      }
    }
  }

  /** Every code in the choropleth table is a two-letter capital code. */
  lemma ResolvedCodes(df: seq<Row>)
    ensures forall c :: c in Resolve(df) ==> IsPostalCode(c.code)
  {
    StateAbbrevWellFormed();
  }

  /** A row is in the choropleth table iff it is in the unified table and its state is listed. */
  lemma ResolvedMembership(df: seq<Row>, r: Row)
    ensures r in RowsOf(Resolve(df)) <==> r in df && r.state in StateAbbrev
  {
  }

  /** The kept rows keep their order. */
  lemma ResolvedOrder(df: seq<Row>)
    ensures IsSubsequence(RowsOf(Resolve(df)), df)
  {
    WhereIsSubsequence(df, HasCode);
  }

  // ---- the second coercion (code.py:171-173) ----

  /** `df[col] = pd.to_numeric(df[col], errors="coerce")` on the choropleth table. */
  function CoerceCodedColumn(t: seq<CodedRow>, col: Column, parse: string -> Option<real>): (r: seq<CodedRow>)
    ensures RowsOf(r) == CoerceColumn(RowsOf(t), col, parse)
    ensures forall i :: 0 <= i < |t| ==> r[i].code == t[i].code
  {
    seq(|t|, i requires 0 <= i < |t| => t[i].(row := CoerceCell(t[i].row, col, parse)))
  }

  /** On a table whose rows already passed the first coercion, the second one changes nothing. */
  lemma RecoerceCodedIsIdentity(t: seq<CodedRow>, col: Column, parse: string -> Option<real>)
    requires Numeric(RowsOf(t))
    ensures CoerceCodedColumn(t, col, parse) == t
  {
    var r := CoerceCodedColumn(t, col, parse);
    RecoerceIsIdentity(RowsOf(t), col, parse);
    assert forall i :: 0 <= i < |t| ==> r[i].row == RowsOf(r)[i];
  }
}
