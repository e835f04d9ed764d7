/** The data-shaping half of training: canonical column names, the dropping of
    rows without a sale price, the renovation features, the removal of the
    target, identifier and visit-count columns, and the assembly of the
    numeric arrays whose last column is the target. The fitted preprocessor
    itself (imputers, scalers, encoders) is a parameter. */
module DataTransformation {
  import opened Tables

  const TARGET_COLUMN: string := "Sale_Price"
  const ID_COLUMN: string := "ID"
  const VISITS_COLUMN: string := "No_of_Times_Visited"
  const RENOVATED_YEAR_COLUMN: string := "Renovated_Year"
  const DATE_SOLD_COLUMN: string := "Date_House_was_Sold"
  const EVER_RENOVATED_COLUMN: string := "Ever_Renovated"
  const PURCHASE_YEAR_COLUMN: string := "Purchase_Year"
  const YEARS_SINCE_RENOVATION_COLUMN: string := "Years_Since_Renovation"

  /** The columns added to every row of a normalised frame. */
  const DERIVED_COLUMNS: set<string> :=
    {EVER_RENOVATED_COLUMN, PURCHASE_YEAR_COLUMN, YEARS_SINCE_RENOVATION_COLUMN}

  /** The columns removed from a normalised frame before preprocessing. */
  const DROPPED_COLUMNS: set<string> := {TARGET_COLUMN, VISITS_COLUMN, ID_COLUMN}

  /** No derived column is one of the dropped ones. */
  lemma DerivedAndDroppedDisjoint()
    ensures DERIVED_COLUMNS !! DROPPED_COLUMNS
  {
  }

  // ---------------------------------------------------------------------------
  // Column groups of the preprocessor
  // ---------------------------------------------------------------------------

  const NUMERICAL_COLUMNS: seq<string> := [
    "No_of_Bedrooms", "No_of_Bathrooms", "Flat_Area", "Lot_Area", "No_of_Floors",
    "Overall_Grade", "Area_of_the_House_from_Basement", "Basement_Area", "Age_of_House",
    "Zipcode", "Latitude", "Longitude", "Living_Area_after_Renovation",
    "Lot_Area_after_Renovation", "Years_Since_Renovation"
  ]
  const NOMINAL_CATEGORICAL_COLUMNS: seq<string> := ["Waterfront_View", "Ever_Renovated"]
  const ORDINAL_CATEGORICAL_COLUMNS: seq<string> := ["Condition_of_the_House"]

  /** The columns the preprocessor reads, in the order in which its output
      concatenates the three groups. */
  const PREPROCESSOR_COLUMNS: seq<string> :=
    NUMERICAL_COLUMNS + NOMINAL_CATEGORICAL_COLUMNS + ORDINAL_CATEGORICAL_COLUMNS

  const PREPROCESSOR_COLUMN_SET: set<string> := Elements(PREPROCESSOR_COLUMNS)

  /** The three groups have 15, 2 and 1 names, share none, and together name 18
      columns, none of which is the target, the identifier or the visit count. */
  lemma ColumnGroupsPartition()
    ensures |NUMERICAL_COLUMNS| == 15
    ensures |NOMINAL_CATEGORICAL_COLUMNS| == 2
    ensures |ORDINAL_CATEGORICAL_COLUMNS| == 1
    ensures Distinct(PREPROCESSOR_COLUMNS)
    ensures Elements(NUMERICAL_COLUMNS) !! Elements(NOMINAL_CATEGORICAL_COLUMNS)
    ensures Elements(NUMERICAL_COLUMNS) !! Elements(ORDINAL_CATEGORICAL_COLUMNS)
    ensures Elements(NOMINAL_CATEGORICAL_COLUMNS) !! Elements(ORDINAL_CATEGORICAL_COLUMNS)
    ensures |PREPROCESSOR_COLUMN_SET| == 18
    ensures PREPROCESSOR_COLUMN_SET !! DROPPED_COLUMNS
  {
    PreprocessorColumnsDistinct();
    DistinctConcat(NUMERICAL_COLUMNS + NOMINAL_CATEGORICAL_COLUMNS, ORDINAL_CATEGORICAL_COLUMNS);
    DistinctConcat(NUMERICAL_COLUMNS, NOMINAL_CATEGORICAL_COLUMNS);
    assert Elements(NUMERICAL_COLUMNS) <= Elements(NUMERICAL_COLUMNS + NOMINAL_CATEGORICAL_COLUMNS);
    DistinctCardinality(PREPROCESSOR_COLUMNS);
    PreprocessorColumnsNotDropped();
  }

  /** No preprocessor column is named twice. */
  lemma PreprocessorColumnsDistinct()
    ensures Distinct(PREPROCESSOR_COLUMNS)
  {
  }

  /** The target, the identifier and the visit count are not preprocessor
      columns. */
  lemma PreprocessorColumnsNotDropped()
    ensures PREPROCESSOR_COLUMN_SET !! DROPPED_COLUMNS
  {
  }

  // ---------------------------------------------------------------------------
  // Renaming raw columns
  // ---------------------------------------------------------------------------

  /** The static rename table, raw name to canonical name, in its literal order. */
  const RENAMES: seq<(string, string)> := [
    ("No of Bedrooms", "No_of_Bedrooms"),
    ("No of Bathrooms", "No_of_Bathrooms"),
    ("Flat Area (in Sqft)", "Flat_Area"),
    ("Lot Area (in Sqft)", "Lot_Area"),
    ("No of Floors", "No_of_Floors"),
    ("Overall Grade", "Overall_Grade"),
    ("Area of the House from Basement (in Sqft)", "Area_of_the_House_from_Basement"),
    ("Basement Area (in Sqft)", "Basement_Area"),
    ("Age of House (in Years)", "Age_of_House"),
    ("Zipcode", "Zipcode"),
    ("Latitude", "Latitude"),
    ("Longitude", "Longitude"),
    ("Living Area after Renovation (in Sqft)", "Living_Area_after_Renovation"),
    ("Lot Area after Renovation (in Sqft)", "Lot_Area_after_Renovation"),
    ("Waterfront View", "Waterfront_View"),
    ("Condition of the House", "Condition_of_the_House"),
    ("Renovated Year", "Renovated_Year"),
    ("Date House was Sold", "Date_House_was_Sold"),
    ("Sale Price", "Sale_Price"),
    ("No of Times Visited", "No_of_Times_Visited")
  ]

  /** The table has 20 entries; no raw name is listed twice and no two raw
      names share a canonical name. */
  lemma RenameTableInjective()
    ensures |RENAMES| == 20
    ensures Distinct(Names(RENAMES)) && Distinct(Values(RENAMES))
  {
    CanonicalNamesDistinct();
  }

  /** No two raw names share a canonical name. */
  lemma CanonicalNamesDistinct()
    ensures Distinct(Values(RENAMES))
  {
    assert forall i, j :: 0 <= i < j < |RENAMES| ==> RENAMES[i].1 != RENAMES[j].1;
  }

  /** A canonical name that is also a raw name is renamed to itself. */
  lemma CanonicalNamesAreFixed()
    ensures forall i, j :: 0 <= i < |RENAMES| && 0 <= j < |RENAMES| && RENAMES[j].0 == RENAMES[i].1 ==>
      RENAMES[j].1 == RENAMES[i].1
  {
  }

  predicate IsRawName(c: string) {
    Find(RENAMES, c).Some?
  }

  /** The name a column has after renaming: raw names change, all others
      pass through. */
  function CanonicalName(c: string): (name: string)
    ensures IsRawName(c) ==> exists i :: 0 <= i < |RENAMES| && RENAMES[i] == (c, name)
    ensures !IsRawName(c) ==> name == c
  {
    match Find(RENAMES, c)
    case Some(canonical) => canonical
    case None => c
  }

  /** Each of the 20 raw names is renamed to the canonical name listed beside
      it; a name that is not a raw name (such as "ID") keeps its name. */
  lemma RenameSendsRawToCanonical()
    ensures forall i :: 0 <= i < |RENAMES| ==> IsRawName(RENAMES[i].0) && CanonicalName(RENAMES[i].0) == RENAMES[i].1
    ensures forall c :: !IsRawName(c) ==> CanonicalName(c) == c
  {
    RenameTableInjective();
    forall i | 0 <= i < |RENAMES|
      ensures CanonicalName(RENAMES[i].0) == RENAMES[i].1
    {
      var j :| 0 <= j < |RENAMES| && RENAMES[j] == (RENAMES[i].0, CanonicalName(RENAMES[i].0));
      assert Names(RENAMES)[i] == Names(RENAMES)[j];
    }
  }

  /** The identifier column is not a raw name and keeps its name. */
  lemma IdKeepsItsName()
    ensures !IsRawName(ID_COLUMN) && CanonicalName(ID_COLUMN) == ID_COLUMN
  {
    assert forall i :: 0 <= i < |RENAMES| ==> RENAMES[i].0 != ID_COLUMN;
  }

  /** Two different raw names never get the same canonical name. */
  lemma RenameInjectiveOnRawNames(a: string, b: string)
    requires IsRawName(a) && IsRawName(b) && a != b
    ensures CanonicalName(a) != CanonicalName(b)
  {
    var i :| 0 <= i < |RENAMES| && RENAMES[i] == (a, CanonicalName(a));
    var j :| 0 <= j < |RENAMES| && RENAMES[j] == (b, CanonicalName(b));
    assert Values(RENAMES)[i] != Values(RENAMES)[j] by {
      CanonicalNamesDistinct();
      assert i != j;
    }
  }

  /** Renaming a canonical name again changes nothing. */
  lemma CanonicalNameIdempotent(c: string)
    ensures CanonicalName(CanonicalName(c)) == CanonicalName(c)
  {
    if IsRawName(c) {
      var i :| 0 <= i < |RENAMES| && RENAMES[i] == (c, CanonicalName(c));
      if IsRawName(CanonicalName(c)) {
        var j :| 0 <= j < |RENAMES| && RENAMES[j] == (CanonicalName(c), CanonicalName(CanonicalName(c)));
        CanonicalNamesAreFixed();
      }
    }
  }

  /** Renaming keeps the columns of `cols` apart: no two of them end up with
      one name. */
  ghost predicate NoClash(cols: set<string>) {
    InjectiveOn(cols, CanonicalName)
  }

  /** A frame whose columns are raw names, or names that no raw name is
      renamed to, never has two columns merged by the renaming. */
  lemma RawColumnsNeverClash(cols: set<string>)
    requires forall c :: c in cols ==> IsRawName(c) || c !in Values(RENAMES)
    ensures NoClash(cols)
  {
    RenameSendsRawToCanonical();
    forall a, b | a in cols && b in cols && IsRawName(a) && IsRawName(b) && a != b
      ensures CanonicalName(a) != CanonicalName(b)
    {
      RenameInjectiveOnRawNames(a, b);
    }
    forall a | a in cols && IsRawName(a)
      ensures CanonicalName(a) in Values(RENAMES)
    {
      var i :| 0 <= i < |RENAMES| && RENAMES[i] == (a, CanonicalName(a));
      assert Values(RENAMES)[i] == CanonicalName(a);
    }
  }

  function RenameColumns(cols: set<string>): set<string> {
    Image(cols, CanonicalName)
  }

  /** Renaming a set of columns that do not clash preserves their number. */
  lemma RenamePreservesColumnCount(cols: set<string>)
    requires NoClash(cols)
    ensures |RenameColumns(cols)| == |cols|
  {
    InjectiveImageCardinality(cols, CanonicalName);
  }

  /** One row under the renaming: each cell moves to its column's new name. */
  function RenameRow(r: Row): (renamed: Row)
    requires NoClash(r.Keys)
    ensures renamed.Keys == RenameColumns(r.Keys)
    ensures forall k :: k in r ==> renamed[CanonicalName(k)] == r[k]
  {
    map k | k in r :: CanonicalName(k) := r[k]
  }

  /** In a renamed row, each raw column's cell sits under the canonical name
      the table lists for it, and every other column keeps its name and cell. */
  lemma RenameRowMovesCells(r: Row)
    requires NoClash(r.Keys)
    ensures forall i :: 0 <= i < |RENAMES| && RENAMES[i].0 in r ==>
      RENAMES[i].1 in RenameRow(r) && RenameRow(r)[RENAMES[i].1] == r[RENAMES[i].0]
    ensures forall k :: k in r && !IsRawName(k) ==> k in RenameRow(r) && RenameRow(r)[k] == r[k]
  {
    RenameSendsRawToCanonical();
  }

  /** Every column of a renamed row already has its canonical name. */
  lemma RenamedRowIsCanonical(r: Row)
    requires NoClash(r.Keys)
    ensures forall a :: a in RenameRow(r) ==> CanonicalName(a) == a
  {
    forall a | a in RenameRow(r)
      ensures CanonicalName(a) == a
    {
      var c :| c in r && CanonicalName(c) == a;
      CanonicalNameIdempotent(c);
    }
  }

  /** A row whose columns all have their canonical names is left as it is. */
  lemma RenameCanonicalRow(g: Row)
    requires forall a :: a in g ==> CanonicalName(a) == a
    ensures NoClash(g.Keys)
    ensures RenameRow(g) == g
  {
    var h := RenameRow(g);
    assert RenameColumns(g.Keys) == g.Keys;
    forall a | a in g
      ensures h[a] == g[a]
    {
      assert h[CanonicalName(a)] == g[a];
    }
  }

  /** Renaming a renamed row changes nothing. */
  lemma RenameRowIdempotent(r: Row)
    requires NoClash(r.Keys)
    ensures NoClash(RenameRow(r).Keys)
    ensures RenameRow(RenameRow(r)) == RenameRow(r)
  {
    RenamedRowIsCanonical(r);
    RenameCanonicalRow(RenameRow(r));
  }

  /** `rename_columns`: the frame under the static renaming. */
  function Rename(f: Frame): (renamed: Frame)
    requires WellFormed(f) && NoClash(f.columns)
    ensures WellFormed(renamed)
    ensures renamed.columns == RenameColumns(f.columns)
    ensures |renamed.rows| == |f.rows|
    ensures forall i :: 0 <= i < |f.rows| ==> renamed.rows[i] == RenameRow(f.rows[i])
  {
    Frame(RenameColumns(f.columns), seq(|f.rows|, i requires 0 <= i < |f.rows| => RenameRow(f.rows[i])))
  }

  /** Renaming a renamed frame changes nothing. */
  lemma RenameIdempotent(f: Frame)
    requires WellFormed(f) && NoClash(f.columns)
    ensures NoClash(Rename(f).columns)
    ensures Rename(Rename(f)) == Rename(f)
  {
    var g := Rename(f);
    forall a | a in g.columns
      ensures CanonicalName(a) == a
    {
      var c :| c in f.columns && CanonicalName(c) == a;
      CanonicalNameIdempotent(c);
    }
    assert RenameColumns(g.columns) == g.columns;
    forall i | 0 <= i < |g.rows|
      ensures RenameRow(g.rows[i]) == g.rows[i]
    {
      RenameRowIdempotent(f.rows[i]);
    }
    assert Rename(g).rows == g.rows;
  }

  // ---------------------------------------------------------------------------
  // Dropping rows without a target
  // ---------------------------------------------------------------------------

  predicate HasTarget(r: Row) {
    TARGET_COLUMN in r && r[TARGET_COLUMN] != Missing
  }

  /** The rows with a present sale price: each kept row has one, and each row
      that has one is kept as often as it occurs. */
  function KeepRowsWithTarget(rows: seq<Row>): (kept: seq<Row>)
    ensures forall r :: r in kept ==> r in rows && HasTarget(r)
    ensures forall i :: 0 <= i < |kept| ==> kept[i] in rows
    ensures forall r :: multiset(kept)[r] == if HasTarget(r) then multiset(rows)[r] else 0
  {
    if rows == [] then []
    else
      assert rows == [rows[0]] + rows[1..];
      if HasTarget(rows[0]) then [rows[0]] + KeepRowsWithTarget(rows[1..])
      else KeepRowsWithTarget(rows[1..])
  }

  /** Keeping rows distributes over concatenation, so the kept rows stay in
      their original order. */
  lemma {:induction false} KeepRowsWithTargetAppend(a: seq<Row>, b: seq<Row>)
    ensures KeepRowsWithTarget(a + b) == KeepRowsWithTarget(a) + KeepRowsWithTarget(b)
  {
    if a != [] {
      assert (a + b)[1..] == a[1..] + b;
      KeepRowsWithTargetAppend(a[1..], b);
    } else {
      assert a + b == b;
    }
  }

  /** Dropping rows without a target a second time drops nothing more. */
  lemma {:induction false} KeepRowsWithTargetIdempotent(rows: seq<Row>)
    ensures KeepRowsWithTarget(KeepRowsWithTarget(rows)) == KeepRowsWithTarget(rows)
  {
    if rows != [] {
      KeepRowsWithTargetIdempotent(rows[1..]);
      if HasTarget(rows[0]) {
        assert ([rows[0]] + KeepRowsWithTarget(rows[1..]))[1..] == KeepRowsWithTarget(rows[1..]);
      }
    }
  }

  /** `dropna(subset=["Sale_Price"])`: fails when the frame has no such column. */
  function DropMissingTarget(f: Frame): (r: Result<Frame>)
    requires WellFormed(f)
    ensures r.Ok? <==> TARGET_COLUMN in f.columns
    ensures r.Ok? ==> WellFormed(r.value) && r.value.columns == f.columns
    ensures r.Ok? ==> r.value.rows == KeepRowsWithTarget(f.rows)
  {
    if TARGET_COLUMN in f.columns then
      var kept := KeepRowsWithTarget(f.rows);
      assert forall i :: 0 <= i < |kept| ==> kept[i] in f.rows;
      Ok(Frame(f.columns, kept))
    else Err
  }

  // ---------------------------------------------------------------------------
  // Renovation features
  // ---------------------------------------------------------------------------

  function Abs(x: int): nat {
    if x < 0 then -x else x
  }

  function RealAbs(x: real): real {
    if x < 0.0 then -x else x
  }

  /** `Renovated_Year == 0`, for an integer or a floating-point column. */
  predicate IsZero(v: Value) {
    v == Num(0) || v == Float(0.0)
  }

  /** `Ever_Renovated`: "No" for a zero renovation year, "Yes" otherwise (a
      missing year is not equal to zero). */
  function EverRenovated(renovatedYear: Value): (flag: Value)
    ensures flag == Str("No") <==> IsZero(renovatedYear)
    ensures flag == Str("Yes") <==> !IsZero(renovatedYear)
  {
    if IsZero(renovatedYear) then Str("No") else Str("Yes")
  }

  /** What reading a sale date as a date gives: its year, the missing date
      (NaT) for a missing cell, or a failure that aborts the whole column. */
  datatype ParsedDate = Year(year: int) | NaT | Unparsable

  /** The date parser, applied to each sale-date cell. */
  type DateParser = Value -> ParsedDate

  /** `Purchase_Year`: the parsed year, or a missing cell for a missing date. */
  function PurchaseYear(date: ParsedDate): (year: Value)
    requires !date.Unparsable?
    ensures year.Num? <==> date.Year?
    ensures year.Num? ==> year.n == date.year
    ensures year.Missing? <==> date.NaT?
  {
    if date.Year? then Num(date.year) else Missing
  }

  /** `abs(Purchase_Year - Renovated_Year)`: a missing operand gives a
      missing cell, and only a known purchase year meeting a text renovation
      year makes the subtraction fail (pandas skips rows where an operand is
      missing). */
  function YearsBetween(purchaseYear: Value, renovatedYear: Value): (r: Result<Value>)
    requires purchaseYear.Num? || purchaseYear.Missing?
    ensures r.Err? <==> renovatedYear.Str? && purchaseYear.Num?
    ensures r.Ok? ==> (r.value.Missing? <==> purchaseYear.Missing? || renovatedYear.Missing?)
    ensures r.Ok? && purchaseYear.Num? && renovatedYear.Num? ==>
      r.value.Num? && r.value.n >= 0 &&
      (r.value.n == purchaseYear.n - renovatedYear.n || r.value.n == renovatedYear.n - purchaseYear.n)
    ensures r.Ok? && purchaseYear.Num? && renovatedYear.Float? ==>
      r.value.Float? && r.value.x >= 0.0 &&
      (r.value.x == purchaseYear.n as real - renovatedYear.x || r.value.x == renovatedYear.x - purchaseYear.n as real)
  {
    if purchaseYear.Missing? then Ok(Missing)
    else
      match renovatedYear
      case Str(_) => Err
      case Missing => Ok(Missing)
      case Num(n) => Ok(Num(Abs(purchaseYear.n - n)))
      case Float(x) => Ok(Float(RealAbs(purchaseYear.n as real - x)))
  }

  /** The three derived cells of one row, computed from its renovation year and
      the year parsed from its sale date. */
  function DeriveRow(r: Row, yearOf: DateParser): (d: Result<Row>)
    requires RENOVATED_YEAR_COLUMN in r && DATE_SOLD_COLUMN in r
    ensures d.Err? <==>
      yearOf(r[DATE_SOLD_COLUMN]).Unparsable? || (r[RENOVATED_YEAR_COLUMN].Str? && yearOf(r[DATE_SOLD_COLUMN]).Year?)
    ensures d.Ok? ==> d.value.Keys == r.Keys + DERIVED_COLUMNS
    ensures d.Ok? ==> forall k :: k in r && k !in DERIVED_COLUMNS ==> d.value[k] == r[k]
    ensures d.Ok? ==> d.value[PURCHASE_YEAR_COLUMN] == PurchaseYear(yearOf(r[DATE_SOLD_COLUMN]))
    ensures d.Ok? ==>
      d.value[EVER_RENOVATED_COLUMN] == Str("No") || d.value[EVER_RENOVATED_COLUMN] == Str("Yes")
    ensures d.Ok? ==> (d.value[EVER_RENOVATED_COLUMN] == Str("No") <==> IsZero(r[RENOVATED_YEAR_COLUMN]))
    ensures d.Ok? && d.value[EVER_RENOVATED_COLUMN] == Str("No") ==>
      d.value[YEARS_SINCE_RENOVATION_COLUMN] == Num(0)
    ensures (d.Ok? && d.value[EVER_RENOVATED_COLUMN] == Str("Yes") && r[RENOVATED_YEAR_COLUMN].Num?
             && yearOf(r[DATE_SOLD_COLUMN]).Year?) ==>
      d.value[YEARS_SINCE_RENOVATION_COLUMN] ==
        Num(Abs(yearOf(r[DATE_SOLD_COLUMN]).year - r[RENOVATED_YEAR_COLUMN].n))
    ensures (d.Ok? && d.value[EVER_RENOVATED_COLUMN] == Str("Yes") && r[RENOVATED_YEAR_COLUMN].Float?
             && yearOf(r[DATE_SOLD_COLUMN]).Year?) ==>
      d.value[YEARS_SINCE_RENOVATION_COLUMN] ==
        Float(RealAbs(yearOf(r[DATE_SOLD_COLUMN]).year as real - r[RENOVATED_YEAR_COLUMN].x))
    ensures (d.Ok? && d.value[EVER_RENOVATED_COLUMN] == Str("Yes")
             && (r[RENOVATED_YEAR_COLUMN].Missing? || yearOf(r[DATE_SOLD_COLUMN]).NaT?)) ==>
      d.value[YEARS_SINCE_RENOVATION_COLUMN] == Missing
    ensures d.Ok? && d.value[YEARS_SINCE_RENOVATION_COLUMN].Num? ==> d.value[YEARS_SINCE_RENOVATION_COLUMN].n >= 0
    ensures d.Ok? && d.value[YEARS_SINCE_RENOVATION_COLUMN].Float? ==> d.value[YEARS_SINCE_RENOVATION_COLUMN].x >= 0.0
  {
    var renovatedYear := r[RENOVATED_YEAR_COLUMN];
    var flag := EverRenovated(renovatedYear);
    var date := yearOf(r[DATE_SOLD_COLUMN]);
    if date.Unparsable? then Err
    else
      var purchaseYear := PurchaseYear(date);
      var since :- if flag == Str("Yes") then YearsBetween(purchaseYear, renovatedYear) else Ok(Num(0));
      Ok(r[EVER_RENOVATED_COLUMN := flag][PURCHASE_YEAR_COLUMN := purchaseYear][YEARS_SINCE_RENOVATION_COLUMN := since])
  }

  predicate AllRowsDerivable(f: Frame, yearOf: DateParser)
    requires WellFormed(f) && RENOVATED_YEAR_COLUMN in f.columns && DATE_SOLD_COLUMN in f.columns
  {
    forall i | 0 <= i < |f.rows| :: DeriveRow(f.rows[i], yearOf).Ok?
  }

  /** The frame with the three derived columns: fails when a source column is
      absent or some row cannot be derived. */
  function DeriveColumns(f: Frame, yearOf: DateParser): (r: Result<Frame>)
    requires WellFormed(f)
    ensures r.Ok? <==>
      (RENOVATED_YEAR_COLUMN in f.columns && DATE_SOLD_COLUMN in f.columns && AllRowsDerivable(f, yearOf))
    ensures r.Ok? ==> WellFormed(r.value)
    ensures r.Ok? ==> r.value.columns == f.columns + DERIVED_COLUMNS && |r.value.rows| == |f.rows|
    ensures r.Ok? ==> forall i :: 0 <= i < |f.rows| ==> r.value.rows[i] == DeriveRow(f.rows[i], yearOf).value
  {
    if !(RENOVATED_YEAR_COLUMN in f.columns && DATE_SOLD_COLUMN in f.columns) then Err
    else if !AllRowsDerivable(f, yearOf) then Err
    else
      Ok(Frame(f.columns + DERIVED_COLUMNS,
               seq(|f.rows|, i requires 0 <= i < |f.rows| => DeriveRow(f.rows[i], yearOf).value)))
  }

  /** The column assignments of the source, row after row: each row of a local
      copy is overwritten with its derived version. */
  method AddDerivedColumns(f: Frame, yearOf: DateParser) returns (r: Result<Frame>)
    requires WellFormed(f)
    ensures r == DeriveColumns(f, yearOf)
  {
    if !(RENOVATED_YEAR_COLUMN in f.columns && DATE_SOLD_COLUMN in f.columns) {
      return Err;
    }
    var rows := f.rows;
    var i := 0;
    while i < |rows|
      invariant 0 <= i <= |rows| == |f.rows|
      invariant forall j :: 0 <= j < i ==>
        DeriveRow(f.rows[j], yearOf).Ok? && rows[j] == DeriveRow(f.rows[j], yearOf).value
      invariant rows[i..] == f.rows[i..]
    {
      assert rows[i] == f.rows[i];
      var d := DeriveRow(rows[i], yearOf);
      if d.Err? {
        assert !AllRowsDerivable(f, yearOf);
        return Err;
      }
      rows := rows[i := d.value];
      i := i + 1;
    }
    assert AllRowsDerivable(f, yearOf);
    assert rows == seq(|f.rows|, j requires 0 <= j < |f.rows| => DeriveRow(f.rows[j], yearOf).value);
    r := Ok(Frame(f.columns + DERIVED_COLUMNS, rows));
  }

  // ---------------------------------------------------------------------------
  // Features and target
  // ---------------------------------------------------------------------------

  /** The feature frame (without target, visit count and identifier) and the
      target column; fails when one of the three columns is absent. */
  function SplitTarget(f: Frame): (r: Result<(Frame, seq<Value>)>)
    requires WellFormed(f)
    ensures r.Ok? <==> DROPPED_COLUMNS <= f.columns
    ensures r.Ok? ==> WellFormed(r.value.0) && r.value.0.columns == f.columns - DROPPED_COLUMNS
    ensures r.Ok? ==> |r.value.0.rows| == |f.rows| == |r.value.1|
    ensures r.Ok? ==> forall i :: 0 <= i < |f.rows| ==>
      r.value.0.rows[i] == f.rows[i] - DROPPED_COLUMNS && r.value.1[i] == f.rows[i][TARGET_COLUMN]
  {
    if DROPPED_COLUMNS <= f.columns then
      var features := seq(|f.rows|, i requires 0 <= i < |f.rows| => f.rows[i] - DROPPED_COLUMNS);
      var targets := seq(|f.rows|, i requires 0 <= i < |f.rows| => f.rows[i][TARGET_COLUMN]);
      Ok((Frame(f.columns - DROPPED_COLUMNS, features), targets))
    else Err
  }

  /** The cells of the preprocessor's columns; every other column of the row is
      dropped. */
  function Project(r: Row): (p: Row)
    requires PREPROCESSOR_COLUMN_SET <= r.Keys
    ensures p.Keys == PREPROCESSOR_COLUMN_SET
    ensures forall c :: c in p ==> p[c] == r[c]
  {
    map c | c in PREPROCESSOR_COLUMN_SET :: r[c]
  }

  /** The preprocessor's view of a feature frame: fails when one of its 18
      columns is absent. */
  function SelectPreprocessorColumns(f: Frame): (r: Result<seq<Row>>)
    requires WellFormed(f)
    ensures r.Ok? <==> PREPROCESSOR_COLUMN_SET <= f.columns
    ensures r.Ok? ==> |r.value| == |f.rows|
    ensures r.Ok? ==> forall i :: 0 <= i < |f.rows| ==> r.value[i].Keys == PREPROCESSOR_COLUMN_SET
    ensures r.Ok? ==> forall i, c :: 0 <= i < |f.rows| && c in PREPROCESSOR_COLUMN_SET ==>
      r.value[i][c] == f.rows[i][c]
  {
    if PREPROCESSOR_COLUMN_SET <= f.columns then
      Ok(seq(|f.rows|, i requires 0 <= i < |f.rows| => Project(f.rows[i])))
    else Err
  }

  /** A renamed split without the rows that lack a target, extended with the
      derived columns. */
  function Normalize(g: Frame, yearOf: DateParser): (r: Result<Frame>)
    requires WellFormed(g)
    ensures r.Ok? ==> WellFormed(r.value) && |r.value.rows| == |KeepRowsWithTarget(g.rows)|
  {
    var kept :- DropMissingTarget(g);
    DeriveColumns(kept, yearOf)
  }

  /** The preprocessor's input rows and the target cells of a normalised split. */
  function Features(h: Frame): (r: Result<(seq<Row>, seq<Value>)>)
    requires WellFormed(h)
    ensures r.Ok? ==> |r.value.0| == |r.value.1| == |h.rows|
  {
    var split :- SplitTarget(h);
    var inputs :- SelectPreprocessorColumns(split.0);
    Ok((inputs, split.1))
  }

  /** One split normalised and divided into the preprocessor's input rows and
      the target cells. */
  function Prepare(f: Frame, yearOf: DateParser): (r: Result<(seq<Row>, seq<Value>)>)
    requires WellFormed(f) && NoClash(f.columns)
    ensures r.Ok? ==> |r.value.0| == |r.value.1| == |Retained(f)|
  {
    var normalized :- Normalize(Rename(f), yearOf);
    Features(normalized)
  }

  /** The rows of a split that survive the target drop, in order. */
  function Retained(f: Frame): seq<Row>
    requires WellFormed(f) && NoClash(f.columns)
  {
    KeepRowsWithTarget(Rename(f).rows)
  }

  /** Each row of a normalised split keeps the target of the retained row at
      the same position, and that target is present. */
  lemma NormalizeKeepsTargets(g: Frame, yearOf: DateParser)
    requires WellFormed(g) && Normalize(g, yearOf).Ok?
    ensures forall i :: 0 <= i < |KeepRowsWithTarget(g.rows)| ==>
      && TARGET_COLUMN in Normalize(g, yearOf).value.rows[i]
      && Normalize(g, yearOf).value.rows[i][TARGET_COLUMN] == KeepRowsWithTarget(g.rows)[i][TARGET_COLUMN]
      && Normalize(g, yearOf).value.rows[i][TARGET_COLUMN] != Missing
  {
    var kept := DropMissingTarget(g).value;
    forall i | 0 <= i < |kept.rows|
      ensures HasTarget(kept.rows[i])
    {
      assert kept.rows[i] in KeepRowsWithTarget(g.rows);
    }
    DeriveKeepsTarget(kept, yearOf);
  }

  /** Adding the derived columns leaves each row's target cell as it was. */
  lemma DeriveKeepsTarget(f: Frame, yearOf: DateParser)
    requires WellFormed(f) && DeriveColumns(f, yearOf).Ok?
    ensures forall i :: 0 <= i < |f.rows| && TARGET_COLUMN in f.rows[i] ==>
      DeriveColumns(f, yearOf).value.rows[i][TARGET_COLUMN] == f.rows[i][TARGET_COLUMN]
  {
    DerivedAndDroppedDisjoint();
  }

  /** The features of a normalised split pair each row's input cells with its
      own target; the inputs hold exactly the 18 preprocessor columns, so never
      the target, the identifier or the visit count. */
  lemma FeaturesShape(h: Frame)
    requires WellFormed(h) && Features(h).Ok?
    ensures forall i :: 0 <= i < |h.rows| ==> Features(h).value.1[i] == h.rows[i][TARGET_COLUMN]
    ensures forall i :: 0 <= i < |h.rows| ==> Features(h).value.0[i].Keys == PREPROCESSOR_COLUMN_SET
    ensures forall i, c :: 0 <= i < |h.rows| && c in DROPPED_COLUMNS ==> c !in Features(h).value.0[i]
    ensures forall i, c :: 0 <= i < |h.rows| && c in PREPROCESSOR_COLUMN_SET ==>
      c in h.rows[i] && Features(h).value.0[i][c] == h.rows[i][c]
  {
    ColumnGroupsPartition();
  }

  /** Preparation succeeds only after normalisation does, and is then the
      features of the normalised renamed split. */
  lemma PrepareStages(f: Frame, yearOf: DateParser)
    requires WellFormed(f) && NoClash(f.columns)
    ensures Prepare(f, yearOf).Ok? ==> Normalize(Rename(f), yearOf).Ok?
    ensures Normalize(Rename(f), yearOf).Ok? ==>
      Prepare(f, yearOf) == Features(Normalize(Rename(f), yearOf).value)
  {
  }

  /** A prepared split has one input row and one target per retained row;
      each target is that row's own sale price and is never missing; each
      input row holds exactly the 18 preprocessor columns. */
  lemma PrepareShape(f: Frame, yearOf: DateParser, inputs: seq<Row>, targets: seq<Value>)
    requires WellFormed(f) && NoClash(f.columns)
    requires Prepare(f, yearOf) == Ok((inputs, targets))
    ensures |inputs| == |targets| == |Retained(f)|
    ensures forall i :: 0 <= i < |targets| ==> targets[i] == Retained(f)[i][TARGET_COLUMN] && targets[i] != Missing
    ensures forall i :: 0 <= i < |inputs| ==> inputs[i].Keys == PREPROCESSOR_COLUMN_SET
    ensures forall i, c :: 0 <= i < |inputs| && c in DROPPED_COLUMNS ==> c !in inputs[i]
    ensures forall i, c :: 0 <= i < |inputs| && c in PREPROCESSOR_COLUMN_SET ==>
      && Derivable(Retained(f)[i], yearOf)
      && c in DeriveRow(Retained(f)[i], yearOf).value
      && inputs[i][c] == DeriveRow(Retained(f)[i], yearOf).value[c]
  {
    var g := Rename(f);
    PrepareStages(f, yearOf);
    var h := Normalize(g, yearOf).value;
    assert Retained(f) == KeepRowsWithTarget(g.rows);
    assert Features(h) == Ok((inputs, targets));
    NormalizeKeepsTargets(g, yearOf);
    NormalizeDerivesRows(g, yearOf);
    FeaturesShape(h);
  }

  /** Each row of a normalised split is the retained row at the same position
      with its derived columns. */
  lemma NormalizeDerivesRows(g: Frame, yearOf: DateParser)
    requires WellFormed(g) && Normalize(g, yearOf).Ok?
    ensures forall i :: 0 <= i < |KeepRowsWithTarget(g.rows)| ==>
      && Derivable(KeepRowsWithTarget(g.rows)[i], yearOf)
      && Normalize(g, yearOf).value.rows[i] == DeriveRow(KeepRowsWithTarget(g.rows)[i], yearOf).value
  {
    var kept := DropMissingTarget(g).value;
    assert kept.rows == KeepRowsWithTarget(g.rows);
    assert Normalize(g, yearOf) == DeriveColumns(kept, yearOf);
    forall i | 0 <= i < |kept.rows|
      ensures Derivable(kept.rows[i], yearOf)
    {
      assert kept.rows[i].Keys == kept.columns;
      assert DeriveRow(kept.rows[i], yearOf).Ok?;
    }
  }

  /** A row can be given its derived columns when its sale date parses and
      its renovation year is not text next to a parsed sale year. */
  predicate Derivable(r: Row, yearOf: DateParser) {
    && RENOVATED_YEAR_COLUMN in r && DATE_SOLD_COLUMN in r
    && !yearOf(r[DATE_SOLD_COLUMN]).Unparsable?
    && !(r[RENOVATED_YEAR_COLUMN].Str? && yearOf(r[DATE_SOLD_COLUMN]).Year?)
  }

  /** A renamed split normalises without error exactly when it has the target,
      renovation-year and sale-date columns and every row with a target is
      derivable. */
  lemma NormalizeSucceedsIff(g: Frame, yearOf: DateParser)
    requires WellFormed(g)
    ensures Normalize(g, yearOf).Ok? <==>
      && {TARGET_COLUMN, RENOVATED_YEAR_COLUMN, DATE_SOLD_COLUMN} <= g.columns
      && forall i :: 0 <= i < |KeepRowsWithTarget(g.rows)| ==> Derivable(KeepRowsWithTarget(g.rows)[i], yearOf)
  {
    var columnsPresent := TARGET_COLUMN in g.columns && RENOVATED_YEAR_COLUMN in g.columns && DATE_SOLD_COLUMN in g.columns;
    assert columnsPresent <==> {TARGET_COLUMN, RENOVATED_YEAR_COLUMN, DATE_SOLD_COLUMN} <= g.columns;
    if columnsPresent {
      var kept := DropMissingTarget(g).value;
      assert kept.rows == KeepRowsWithTarget(g.rows);
      forall i | 0 <= i < |kept.rows|
        ensures DeriveRow(kept.rows[i], yearOf).Ok? <==> Derivable(kept.rows[i], yearOf)
      {
        assert kept.rows[i].Keys == g.columns;
      }
      assert Normalize(g, yearOf) == DeriveColumns(kept, yearOf);
    }
  }

  /** A normalised split yields its features exactly when the identifier and
      visit-count columns are there and every preprocessor column other than
      the derived ones was in the renamed split. */
  lemma FeaturesSucceedIff(g: Frame, yearOf: DateParser)
    requires WellFormed(g) && Normalize(g, yearOf).Ok?
    ensures Features(Normalize(g, yearOf).value).Ok? <==>
      {ID_COLUMN, VISITS_COLUMN} <= g.columns && PREPROCESSOR_COLUMN_SET - DERIVED_COLUMNS <= g.columns
  {
    ColumnGroupsPartition();
    DerivedAndDroppedDisjoint();
    var h := Normalize(g, yearOf).value;
    assert h.columns == g.columns + DERIVED_COLUMNS;
    assert TARGET_COLUMN in g.columns;
    ColumnsAfterDerivation(g.columns, DERIVED_COLUMNS, DROPPED_COLUMNS, PREPROCESSOR_COLUMN_SET);
    assert DROPPED_COLUMNS <= g.columns <==> {ID_COLUMN, VISITS_COLUMN} <= g.columns;
    assert Features(h).Ok? <==>
      DROPPED_COLUMNS <= h.columns && PREPROCESSOR_COLUMN_SET <= h.columns - DROPPED_COLUMNS;
  }

  /** Adding columns that are never dropped changes neither whether the
      dropped columns are present nor, for columns that are never dropped,
      which of them are still missing. */
  lemma ColumnsAfterDerivation<T>(columns: set<T>, derived: set<T>, dropped: set<T>, wanted: set<T>)
    requires derived !! dropped && wanted !! dropped
    ensures dropped <= columns + derived <==> dropped <= columns
    ensures wanted <= (columns + derived) - dropped <==> wanted - derived <= columns
  {
  }

  /** A split prepares without error exactly when, after renaming, it has every
      column the stages read, and every retained row is derivable. */
  lemma PrepareSucceedsIff(f: Frame, yearOf: DateParser)
    requires WellFormed(f) && NoClash(f.columns)
    ensures Prepare(f, yearOf).Ok? <==>
      && DROPPED_COLUMNS + {RENOVATED_YEAR_COLUMN, DATE_SOLD_COLUMN} <= Rename(f).columns
      && PREPROCESSOR_COLUMN_SET - DERIVED_COLUMNS <= Rename(f).columns
      && forall i :: 0 <= i < |Retained(f)| ==> Derivable(Retained(f)[i], yearOf)
  {
    var g := Rename(f);
    assert Retained(f) == KeepRowsWithTarget(g.rows);
    NormalizeSucceedsIff(g, yearOf);
    RequiredColumnsSplit(g.columns);
    if Normalize(g, yearOf).Ok? {
      PrepareStages(f, yearOf);
      FeaturesSucceedIff(g, yearOf);
    }
  }

  /** The columns a split must have after renaming are those the target drop
      and derivation read together with the identifier and the visit count. */
  lemma RequiredColumnsSplit(columns: set<string>)
    ensures DROPPED_COLUMNS + {RENOVATED_YEAR_COLUMN, DATE_SOLD_COLUMN} <= columns <==>
      {TARGET_COLUMN, RENOVATED_YEAR_COLUMN, DATE_SOLD_COLUMN} <= columns && {ID_COLUMN, VISITS_COLUMN} <= columns
  {
  }

  // ---------------------------------------------------------------------------
  // Assembling the arrays
  // ---------------------------------------------------------------------------

  /** A preprocessor fitted on the training input rows (first argument) and
      applied to one input row (second argument). */
  type Preprocessor = (seq<Row>, Row) -> seq<real>

  function AsCells(v: seq<real>): (cells: seq<Value>)
    ensures |cells| == |v| && forall i :: 0 <= i < |v| ==> cells[i] == Float(v[i])
  {
    seq(|v|, i requires 0 <= i < |v| => Float(v[i]))
  }

  /** Each input row transformed by the preprocessor fitted on `fit`. */
  function Transform(preprocess: Preprocessor, fit: seq<Row>, inputs: seq<Row>): (cells: seq<seq<Value>>)
    ensures |cells| == |inputs|
    ensures forall i :: 0 <= i < |inputs| ==> cells[i] == AsCells(preprocess(fit, inputs[i]))
  {
    seq(|inputs|, i requires 0 <= i < |inputs| => AsCells(preprocess(fit, inputs[i])))
  }

  /** `np.c_[features, target]`: each input row, transformed by the preprocessor
      fitted on `fit`, followed by its own target as the last entry. */
  function Stack(preprocess: Preprocessor, fit: seq<Row>, inputs: seq<Row>, targets: seq<Value>)
    : (out: seq<seq<Value>>)
    requires |inputs| == |targets|
    ensures |out| == |inputs|
    ensures forall i :: 0 <= i < |out| ==>
      && |out[i]| == |preprocess(fit, inputs[i])| + 1
      && out[i][|out[i]| - 1] == targets[i]
      && out[i][..|out[i]| - 1] == AsCells(preprocess(fit, inputs[i]))
  {
    AppendColumn(Transform(preprocess, fit, inputs), targets)
  }

  datatype TransformedArrays = TransformedArrays(train: seq<seq<Value>>, test: seq<seq<Value>>)

  /** The steps the source applies to each split, one after another: rename,
      drop rows without a target, add the derived columns, set the target,
      identifier and visit count aside, and keep the preprocessor's columns. */
  method PrepareSplit(f: Frame, yearOf: DateParser) returns (r: Result<(seq<Row>, seq<Value>)>)
    requires WellFormed(f) && NoClash(f.columns)
    ensures r == Prepare(f, yearOf)
  {
    var df := Rename(f);
    df :- DropMissingTarget(df);
    df :- AddDerivedColumns(df, yearOf);
    var split :- SplitTarget(df);
    var inputs :- SelectPreprocessorColumns(split.0);
    r := Ok((inputs, split.1));
  }

  /** `initiate_data_transformation`: both splits are prepared; the
      preprocessor is fitted on the training inputs only and applied to both
      splits; each split's targets are appended as the last column. */
  method InitiateDataTransformation(train: Frame, test: Frame, yearOf: DateParser,
                                    preprocess: Preprocessor)
    returns (r: Result<TransformedArrays>)
    requires WellFormed(train) && NoClash(train.columns)
    requires WellFormed(test) && NoClash(test.columns)
    ensures r.Ok? <==> Prepare(train, yearOf).Ok? && Prepare(test, yearOf).Ok?
    ensures r.Ok? ==>
      var (trainInputs, trainTargets) := Prepare(train, yearOf).value;
      var (testInputs, testTargets) := Prepare(test, yearOf).value;
      && r.value.train == Stack(preprocess, trainInputs, trainInputs, trainTargets)
      && r.value.test == Stack(preprocess, trainInputs, testInputs, testTargets)
  {
    var trainSplit :- PrepareSplit(train, yearOf);
    var testSplit :- PrepareSplit(test, yearOf);
    var trainArr := Stack(preprocess, trainSplit.0, trainSplit.0, trainSplit.1);
    var testArr := Stack(preprocess, trainSplit.0, testSplit.0, testSplit.1);
    r := Ok(TransformedArrays(trainArr, testArr));
  }
}
