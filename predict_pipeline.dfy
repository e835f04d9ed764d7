/** The prediction request: a record of the 18 house features a client
    submits, and the single-row data frame it is turned into before the
    fitted preprocessor and model see it. */
module PredictPipeline {
  import opened Tables
  import DataTransformation

  /** The request's columns, in the insertion order of the dictionary the
      frame is built from. */
  const FIELD_COLUMNS: seq<string> := [
    "No_of_Bedrooms", "No_of_Bathrooms", "Flat_Area", "Lot_Area", "No_of_Floors",
    "Waterfront_View", "Condition_of_the_House", "Overall_Grade",
    "Area_of_the_House_from_Basement", "Basement_Area", "Age_of_House", "Zipcode",
    "Latitude", "Longitude", "Living_Area_after_Renovation", "Lot_Area_after_Renovation",
    "Ever_Renovated", "Years_Since_Renovation"
  ]

  /** The 18 request columns are distinct; the waterfront view is the sixth
      and the condition of the house the seventh. */
  lemma FieldColumnsOrder()
    ensures |FIELD_COLUMNS| == 18 && Distinct(FIELD_COLUMNS)
    ensures FIELD_COLUMNS[5] == "Waterfront_View" && FIELD_COLUMNS[6] == "Condition_of_the_House"
  {
  }

  /** The request columns are exactly the columns the preprocessor reads, so
      neither the sale price, the identifier nor the visit count. */
  lemma FieldColumnsArePreprocessorColumns()
    ensures Elements(FIELD_COLUMNS) == DataTransformation.PREPROCESSOR_COLUMN_SET
    ensures Elements(FIELD_COLUMNS) !! DataTransformation.DROPPED_COLUMNS
  {
    DataTransformation.ColumnGroupsPartition();
  }

  /** The values of one request, one per field, with the field's declared
      type. */
  datatype HouseFeatures = HouseFeatures(
    noOfBedrooms: int,
    noOfBathrooms: real,
    flatArea: real,
    lotArea: real,
    noOfFloors: real,
    waterfrontView: string,
    conditionOfTheHouse: string,
    overallGrade: int,
    areaOfTheHouseFromBasement: real,
    basementArea: int,
    ageOfHouse: int,
    zipcode: real,
    latitude: real,
    longitude: real,
    livingAreaAfterRenovation: real,
    lotAreaAfterRenovation: int,
    everRenovated: string,
    yearsSinceRenovation: real)

  /** The cells of a request, in the order of `FIELD_COLUMNS`. */
  function Cells(h: HouseFeatures): (cells: seq<Value>)
    ensures |cells| == |FIELD_COLUMNS|
  {
    [Num(h.noOfBedrooms), Float(h.noOfBathrooms), Float(h.flatArea), Float(h.lotArea),
     Float(h.noOfFloors), Str(h.waterfrontView), Str(h.conditionOfTheHouse),
     Num(h.overallGrade), Float(h.areaOfTheHouseFromBasement), Num(h.basementArea),
     Num(h.ageOfHouse), Float(h.zipcode), Float(h.latitude), Float(h.longitude),
     Float(h.livingAreaAfterRenovation), Num(h.lotAreaAfterRenovation),
     Str(h.everRenovated), Float(h.yearsSinceRenovation)]
  }

  /** The request whose cells these are, when each cell has its field's
      type. */
  function FromCells(cells: seq<Value>): (r: Option<HouseFeatures>)
    requires |cells| == |FIELD_COLUMNS|
    ensures r.Some? <==>
      && cells[0].Num? && cells[1].Float? && cells[2].Float? && cells[3].Float?
      && cells[4].Float? && cells[5].Str? && cells[6].Str? && cells[7].Num?
      && cells[8].Float? && cells[9].Num? && cells[10].Num? && cells[11].Float?
      && cells[12].Float? && cells[13].Float? && cells[14].Float? && cells[15].Num?
      && cells[16].Str? && cells[17].Float?
  {
    if && cells[0].Num? && cells[1].Float? && cells[2].Float? && cells[3].Float?
       && cells[4].Float? && cells[5].Str? && cells[6].Str? && cells[7].Num?
       && cells[8].Float? && cells[9].Num? && cells[10].Num? && cells[11].Float?
       && cells[12].Float? && cells[13].Float? && cells[14].Float? && cells[15].Num?
       && cells[16].Str? && cells[17].Float?
    then
      Some(HouseFeatures(
        cells[0].n, cells[1].x, cells[2].x, cells[3].x, cells[4].x, cells[5].s,
        cells[6].s, cells[7].n, cells[8].x, cells[9].n, cells[10].n, cells[11].x,
        cells[12].x, cells[13].x, cells[14].x, cells[15].n, cells[16].s, cells[17].x))
    else None
  }

  /** Reading a request back from its cells gives the request. */
  lemma FromCellsOfCells(h: HouseFeatures)
    ensures FromCells(Cells(h)) == Some(h)
  {
  }

  /** A request read from cells has exactly those cells. */
  lemma CellsOfFromCells(cells: seq<Value>)
    requires |cells| == |FIELD_COLUMNS| && FromCells(cells).Some?
    ensures Cells(FromCells(cells).value) == cells
  {
    var back := Cells(FromCells(cells).value);
    forall k | 0 <= k < |cells|
      ensures back[k] == cells[k]
    {
    }
  }

  /** A data frame built from a dictionary of columns: the column names in
      insertion order, and the cells of each column. */
  datatype DataFrame = DataFrame(columns: seq<string>, data: map<string, seq<Value>>)

  /** The frame of one request: each field's value, alone in a list, under
      its column. */
  function ToDataFrame(h: HouseFeatures): (df: DataFrame)
    ensures df.columns == FIELD_COLUMNS && df.data.Keys == Elements(FIELD_COLUMNS)
    ensures forall k :: 0 <= k < |FIELD_COLUMNS| ==> df.data[FIELD_COLUMNS[k]] == [Cells(h)[k]]
  {
    FieldColumnsOrder();
    var cells := Cells(h);
    DataFrame(FIELD_COLUMNS, map k | 0 <= k < |FIELD_COLUMNS| :: FIELD_COLUMNS[k] := [cells[k]])
  }

  /** The single cell of each request column, in column order, when every
      request column is present and holds exactly one value. */
  function SingleCells(df: DataFrame): (r: Option<seq<Value>>)
    ensures r.Some? <==> forall k :: 0 <= k < |FIELD_COLUMNS| ==>
      FIELD_COLUMNS[k] in df.data && |df.data[FIELD_COLUMNS[k]]| == 1
    ensures r.Some? ==> |r.value| == |FIELD_COLUMNS|
    ensures r.Some? ==> forall k :: 0 <= k < |FIELD_COLUMNS| ==> df.data[FIELD_COLUMNS[k]] == [r.value[k]]
  {
    if forall k :: 0 <= k < |FIELD_COLUMNS| ==>
      FIELD_COLUMNS[k] in df.data && |df.data[FIELD_COLUMNS[k]]| == 1
    then
      Some(seq(|FIELD_COLUMNS|, k requires 0 <= k < |FIELD_COLUMNS| => df.data[FIELD_COLUMNS[k]][0]))
    else None
  }

  /** The request a data frame holds, if it holds one. */
  function ParseFeatures(df: DataFrame): Option<HouseFeatures> {
    var cells :- SingleCells(df);
    FromCells(cells)
  }

  /** Turning a request into its frame and reading it back gives the
      request. */
  lemma ParseToDataFrame(h: HouseFeatures)
    ensures ParseFeatures(ToDataFrame(h)) == Some(h)
  {
    var df := ToDataFrame(h);
    var cells := SingleCells(df).value;
    forall k | 0 <= k < |FIELD_COLUMNS|
      ensures cells[k] == Cells(h)[k]
    {
      assert [cells[k]] == [Cells(h)[k]];
    }
    assert cells == Cells(h);
    FromCellsOfCells(h);
  }

  /** A frame with the request columns, in order and nothing else, from
      which a request reads back is that request's frame. */
  lemma ToDataFrameOfParse(df: DataFrame)
    requires df.columns == FIELD_COLUMNS && df.data.Keys == Elements(FIELD_COLUMNS)
    requires ParseFeatures(df).Some?
    ensures ToDataFrame(ParseFeatures(df).value) == df
  {
    var cells := SingleCells(df).value;
    CellsOfFromCells(cells);
    SameCellsSameFrame(ToDataFrame(ParseFeatures(df).value), df, cells);
  }

  /** Two frames with the request columns and nothing else agree when each
      column holds the same one cell in both. */
  lemma SameCellsSameFrame(a: DataFrame, b: DataFrame, cells: seq<Value>)
    requires |cells| == |FIELD_COLUMNS|
    requires a.columns == b.columns && a.data.Keys == b.data.Keys == Elements(FIELD_COLUMNS)
    requires forall k :: 0 <= k < |FIELD_COLUMNS| ==> a.data[FIELD_COLUMNS[k]] == [cells[k]]
    requires forall k :: 0 <= k < |FIELD_COLUMNS| ==> b.data[FIELD_COLUMNS[k]] == [cells[k]]
    ensures a == b
  {
    forall c | c in a.data
      ensures a.data[c] == b.data[c]
    {
      var k :| 0 <= k < |FIELD_COLUMNS| && FIELD_COLUMNS[k] == c;
    }
    assert a.data == b.data;
  }

  /** The one row of a frame whose columns hold one value each. */
  function SingleRow(df: DataFrame): (f: Frame)
    requires forall c :: c in df.data ==> |df.data[c]| == 1
    ensures WellFormed(f) && f.columns == df.data.Keys && |f.rows| == 1
    ensures forall c :: c in df.data ==> f.rows[0][c] == df.data[c][0]
  {
    Frame(df.data.Keys, [map c | c in df.data :: df.data[c][0]])
  }

  /** The frame of a request is exactly what the preprocessor reads: its one
      row has the 18 preprocessor columns and no other, each holding the
      request's value for it. */
  lemma RequestFeedsPreprocessor(h: HouseFeatures)
    ensures forall c :: c in ToDataFrame(h).data ==> |ToDataFrame(h).data[c]| == 1
    ensures DataTransformation.SelectPreprocessorColumns(SingleRow(ToDataFrame(h)))
      == Ok(SingleRow(ToDataFrame(h)).rows)
    ensures SingleRow(ToDataFrame(h)).rows[0].Keys == DataTransformation.PREPROCESSOR_COLUMN_SET
  {
    var df := ToDataFrame(h);
    FieldColumnsArePreprocessorColumns();
    forall c | c in df.data
      ensures |df.data[c]| == 1
    {
      var k :| 0 <= k < |FIELD_COLUMNS| && FIELD_COLUMNS[k] == c;
    }
    var f := SingleRow(df);
    var selected := DataTransformation.SelectPreprocessorColumns(f).value;
    assert selected[0] == f.rows[0];
    assert selected == f.rows;
  }

  /** The request record of the prediction endpoint. */
  class CustomData {
    var noOfBedrooms: int
    var noOfBathrooms: real
    var flatArea: real
    var lotArea: real
    var noOfFloors: real
    var waterfrontView: string
    var conditionOfTheHouse: string
    var overallGrade: int
    var areaOfTheHouseFromBasement: real
    var basementArea: int
    var ageOfHouse: int
    var zipcode: real
    var latitude: real
    var longitude: real
    var livingAreaAfterRenovation: real
    var lotAreaAfterRenovation: int
    var everRenovated: string
    var yearsSinceRenovation: real

    /** Each argument is stored in the field of the same name. */
    constructor(noOfBedrooms: int, noOfBathrooms: real, flatArea: real, lotArea: real,
                noOfFloors: real, waterfrontView: string, conditionOfTheHouse: string,
                overallGrade: int, areaOfTheHouseFromBasement: real, basementArea: int,
                ageOfHouse: int, zipcode: real, latitude: real, longitude: real,
                livingAreaAfterRenovation: real, lotAreaAfterRenovation: int,
                everRenovated: string, yearsSinceRenovation: real)
      ensures Features() == HouseFeatures(noOfBedrooms, noOfBathrooms, flatArea, lotArea,
        noOfFloors, waterfrontView, conditionOfTheHouse, overallGrade, areaOfTheHouseFromBasement,
        basementArea, ageOfHouse, zipcode, latitude, longitude, livingAreaAfterRenovation,
        lotAreaAfterRenovation, everRenovated, yearsSinceRenovation)
    {
      this.noOfBedrooms := noOfBedrooms;
      this.noOfBathrooms := noOfBathrooms;
      this.flatArea := flatArea;
      this.lotArea := lotArea;
      this.noOfFloors := noOfFloors;
      this.waterfrontView := waterfrontView;
      this.conditionOfTheHouse := conditionOfTheHouse;
      this.overallGrade := overallGrade;
      this.areaOfTheHouseFromBasement := areaOfTheHouseFromBasement;
      this.basementArea := basementArea;
      this.ageOfHouse := ageOfHouse;
      this.zipcode := zipcode;
      this.latitude := latitude;
      this.longitude := longitude;
      this.livingAreaAfterRenovation := livingAreaAfterRenovation;
      this.lotAreaAfterRenovation := lotAreaAfterRenovation;
      this.everRenovated := everRenovated;
      this.yearsSinceRenovation := yearsSinceRenovation;
    }

    /** The values the record holds. */
    function Features(): HouseFeatures
      reads this
    {
      HouseFeatures(noOfBedrooms, noOfBathrooms, flatArea, lotArea, noOfFloors, waterfrontView,
        conditionOfTheHouse, overallGrade, areaOfTheHouseFromBasement, basementArea, ageOfHouse,
        zipcode, latitude, longitude, livingAreaAfterRenovation, lotAreaAfterRenovation,
        everRenovated, yearsSinceRenovation)
    }

    /** `get_data_as_data_frame`: the 18 request columns in order, each
        holding the one value of its field, so that the record reads back
        from the frame. */
    function GetDataAsDataFrame(): (df: DataFrame)
      reads this
      ensures df.columns == FIELD_COLUMNS
      ensures df.data.Keys == DataTransformation.PREPROCESSOR_COLUMN_SET
      ensures forall c :: c in df.data ==> |df.data[c]| == 1
      ensures ParseFeatures(df) == Some(Features())
    {
      FieldColumnsArePreprocessorColumns();
      RequestFeedsPreprocessor(Features());
      ParseToDataFrame(Features());
      ToDataFrame(Features())
    }
  }
}
