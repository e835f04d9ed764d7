# House-price pipeline: data shaping, model selection and the request record

This project models the deterministic core of a house-price regression
pipeline in Dafny. It has three parts:

- **Data transformation** (`data_transformation.dfy`, module `DataTransformation`):
  - the static rename of 20 raw column names to canonical names;
  - dropping rows whose `Sale_Price` is missing;
  - the derived columns `Ever_Renovated`, `Purchase_Year` and `Years_Since_Renovation`;
  - the three column groups the preprocessor reads (15 numeric, 2 nominal, 1 ordinal);
  - removing the target, identifier and visit-count columns;
  - stacking each transformed row with its own target as the last entry.
- **Model training** (`model_trainer.dfy`, module `ModelTrainer`):
  - splitting the stacked arrays back into features and target;
  - the roster of eight regressor families and their hyper-parameter grids;
  - choosing the first family that has the highest score;
  - rejecting that choice when the score is below 0.6.
- **Prediction request** (`predict_pipeline.dfy`, module `PredictPipeline`):
  - the `CustomData` record, with its 18 fields;
  - the single-row data frame that record becomes.

`tables.dfy` (module `Tables`) holds the shared vocabulary:
- cells: integers, floats, text or missing;
- rows: maps from column name to cell;
- frames: a column set and a sequence of rows;
- a `Result` type, which folds every failure into one error value;
- `AppendColumn`, the `np.c_` column append.

Each part follows the form of its source file:
- The data transformation's per-split steps are two methods. `AddDerivedColumns` overwrites each row of a local copy with its derived version, in a loop; `PrepareSplit` rebinds one split step by step. Each method is proved equal to a specification function (`DeriveColumns`, `Prepare`), and the properties are proved about that function.
- The model trainer is pure, so it is written as functions.
- `CustomData` is a `class` whose constructor sets its fields. `GetDataAsDataFrame` reads those fields.

Three outside parts are parameters:
- The fitted scikit-learn preprocessor is an opaque function. Its arguments are the training rows it was fitted on and one input row; it returns a vector of reals.
- The date parser maps a cell to a year, to NaT (a missing date), or to a parse failure.
- The evaluation of the roster and the final R² score are functions the trainer receives.

The column lists at `src/components/data_transformation.py:29-35` and the
fields of `CustomData` name 18 feature columns (15 + 2 + 1).

## Model

| member | source | states |
|---|---|---|
| DataTransformation.ColumnGroupsPartition | src/components/data_transformation.py:29-35 | the numeric, nominal and ordinal lists have 15, 2 and 1 names, none twice, pairwise disjoint, 18 columns together, none of them the target, identifier or visit count |
| DataTransformation.PreprocessorColumnsDistinct | src/components/data_transformation.py:29-35 | no preprocessor column is listed twice |
| DataTransformation.PreprocessorColumnsNotDropped | src/components/data_transformation.py:29-35 | `Sale_Price`, `ID` and `No_of_Times_Visited` are not preprocessor columns |
| DataTransformation.DerivedAndDroppedDisjoint | src/components/data_transformation.py:127-163 | no derived column is one of the columns dropped before preprocessing |
| DataTransformation.RenameTableInjective | src/components/data_transformation.py:77-98 | the rename map has 20 entries, no raw name twice, and no two raw names share a canonical name |
| DataTransformation.CanonicalNamesDistinct | src/components/data_transformation.py:77-98 | no two raw names are renamed to the same canonical name |
| DataTransformation.CanonicalNamesAreFixed | src/components/data_transformation.py:77-98 | a canonical name that is itself a raw name (such as `Zipcode`) is renamed to itself |
| DataTransformation.CanonicalName | src/components/data_transformation.py:99 | a raw name of the map is renamed to the canonical name an entry lists beside it; any other name passes through unchanged |
| DataTransformation.RenameSendsRawToCanonical | src/components/data_transformation.py:76-100 | each of the 20 raw names goes to the canonical name listed beside it; every other name is unchanged |
| DataTransformation.IdKeepsItsName | src/components/data_transformation.py:76-100 | `ID` is not in the map and keeps its name |
| DataTransformation.RenameInjectiveOnRawNames | src/components/data_transformation.py:77-98 | two different raw names never get the same canonical name |
| DataTransformation.CanonicalNameIdempotent | src/components/data_transformation.py:77-98 | renaming an already renamed name changes nothing |
| DataTransformation.RawColumnsNeverClash | src/components/data_transformation.py:99 | a frame whose columns are raw names, or names that are not a canonical name, never has two columns merged by the rename |
| DataTransformation.RenamePreservesColumnCount | src/components/data_transformation.py:99 | renaming columns that do not clash keeps their number |
| DataTransformation.RenameRow | src/components/data_transformation.py:99 | a renamed row has the renamed columns, and each cell sits under its column's new name |
| DataTransformation.RenameRowMovesCells | src/components/data_transformation.py:76-100 | in a renamed row, the cell of each raw column is under the canonical name the map gives; other columns keep their names and cells |
| DataTransformation.RenamedRowIsCanonical | src/components/data_transformation.py:99 | every column of a renamed row already has its canonical name |
| DataTransformation.RenameCanonicalRow | src/components/data_transformation.py:99 | a row whose columns all have canonical names is not changed by the rename |
| DataTransformation.RenameRowIdempotent | src/components/data_transformation.py:99 | renaming a row twice gives the same row as renaming it once |
| DataTransformation.Rename | src/components/data_transformation.py:99-100 | the renamed frame is well formed, has the renamed column set, and has the same number of rows, each one renamed |
| DataTransformation.RenameIdempotent | src/components/data_transformation.py:113-114 | renaming a renamed frame changes nothing |
| DataTransformation.KeepRowsWithTarget | src/components/data_transformation.py:119-120 | every kept row has a present sale price; every row that has one is kept, as many times as it occurs; rows without one are dropped |
| DataTransformation.KeepRowsWithTargetAppend | src/components/data_transformation.py:119-120 | the drop works row by row over a concatenation, so kept rows stay in their original order |
| DataTransformation.KeepRowsWithTargetIdempotent | src/components/data_transformation.py:119-120 | dropping a second time drops nothing more |
| DataTransformation.DropMissingTarget | src/components/data_transformation.py:119-120 | fails exactly when there is no `Sale_Price` column; otherwise keeps the columns and exactly the rows with a present sale price |
| DataTransformation.EverRenovated | src/components/data_transformation.py:127 | the flag is "No" exactly when the renovation year equals 0 (integer or float) and "Yes" exactly otherwise, a missing year included |
| DataTransformation.PurchaseYear | src/components/data_transformation.py:130 | the purchase year is a number exactly when the sale date parsed, and then it is the parsed year; it is missing exactly for a missing date |
| DataTransformation.YearsBetween | src/components/data_transformation.py:131-135 | `abs(Purchase_Year - Renovated_Year)` fails exactly when a known purchase year meets a text renovation year (pandas skips rows with a missing operand, so a missing purchase year gives a missing cell), is missing exactly when either year is missing, and is otherwise a non-negative integer or float equal to one of the two differences |
| DataTransformation.DeriveRow | src/components/data_transformation.py:127-144 | `Ever_Renovated` is "No" exactly when the renovation year is 0 and "Yes" otherwise; `Purchase_Year` is the sale year (missing for NaT); `Years_Since_Renovation` is 0 for "No", the absolute difference of the years for "Yes" (as an integer or a float, following the renovation year), missing when either year is missing, and never negative; other cells are unchanged; fails exactly on an unparsable date or on a text renovation year beside a parsed sale year |
| DataTransformation.DeriveColumns | src/components/data_transformation.py:127-144 | succeeds exactly when both source columns exist and every row can be derived; the result adds the three derived columns and derives each row in place |
| DataTransformation.AddDerivedColumns | src/components/data_transformation.py:127-144 | the row-by-row loop that overwrites each row of the frame gives exactly `DeriveColumns` |
| DataTransformation.SplitTarget | src/components/data_transformation.py:150-163 | fails exactly when the target, visit-count or identifier column is missing; otherwise each feature row is its row without those three columns, and each target is that row's own sale price |
| DataTransformation.Project | src/components/data_transformation.py:63-69 | the column transformer's view of a row has exactly the 18 group columns, each holding that row's own cell |
| DataTransformation.SelectPreprocessorColumns | src/components/data_transformation.py:63-69 | the preprocessor reads a frame exactly when it has all 18 group columns; each input row is then the row's cells in exactly those columns |
| DataTransformation.Normalize | src/components/data_transformation.py:119-144 | a normalised split is well formed and has one row per row with a present sale price |
| DataTransformation.Features | src/components/data_transformation.py:150-163 | there are as many input rows and targets as normalised rows |
| DataTransformation.Prepare | src/components/data_transformation.py:113-163 | a prepared split has one input row and one target per retained row |
| DataTransformation.NormalizeKeepsTargets | src/components/data_transformation.py:119-144 | each normalised row keeps the sale price of the retained row at the same position, and that price is present |
| DataTransformation.DeriveKeepsTarget | src/components/data_transformation.py:127-144 | adding the derived columns leaves every sale price as it was |
| DataTransformation.FeaturesShape | src/components/data_transformation.py:150-163 | each target is its own row's sale price; each input row has exactly the 18 group columns, none of the dropped ones, and holds its own row's cell in each |
| DataTransformation.PrepareShape | src/components/data_transformation.py:113-163 | for the retained rows, in order: the target is that row's sale price and is never missing; each input row has exactly the 18 group columns and never the target, identifier or visit count; the row is derivable, and each of its 18 cells is that retained row's own cell after the derived columns are added |
| DataTransformation.NormalizeDerivesRows | src/components/data_transformation.py:119-144 | each normalised row is the retained row at the same position, which is derivable, with its derived columns added |
| DataTransformation.NormalizeSucceedsIff | src/components/data_transformation.py:119-144 | normalisation succeeds exactly when the target, renovation-year and sale-date columns exist and every row with a sale price has a parsable date and no text renovation year beside a parsed sale year |
| DataTransformation.FeaturesSucceedIff | src/components/data_transformation.py:150-171 | a normalised split yields features exactly when the identifier and visit-count columns exist and the renamed split has every group column that is not derived |
| DataTransformation.PrepareSucceedsIff | src/components/data_transformation.py:113-171 | a split prepares exactly when, after renaming, it has every column the stages read, and every retained row is derivable |
| DataTransformation.Transform | src/components/data_transformation.py:170-171 | one transformed vector per input row, from the preprocessor fitted on the given training rows |
| DataTransformation.Stack | src/components/data_transformation.py:174-177 | one output row per input row; its last entry is the row's own target, and the entries before it are the row's transformed features |
| Tables.AppendColumn | src/components/data_transformation.py:174-177 | each output row is the input row followed by its matching entry as the last column |
| DataTransformation.PrepareSplit | src/components/data_transformation.py:113-163 | the step-by-step preparation of one split gives exactly `Prepare` |
| DataTransformation.InitiateDataTransformation | src/components/data_transformation.py:103-177 | succeeds exactly when both splits prepare; the preprocessor is fitted on the training inputs only; both arrays are their split's transformed rows with the targets appended |
| ModelTrainer.SplitFeaturesTarget | src/components/model_trainer.py:35-40 | fails exactly when some row is empty; otherwise the features are all entries but the last (width minus one) and the target is the last entry |
| ModelTrainer.SplitThenAppend | src/components/model_trainer.py:35-40 | appending the split-off target column again gives back the array |
| ModelTrainer.AppendThenSplit | src/components/model_trainer.py:35-40 | splitting an array with an appended column gives back the features and that column |
| ModelTrainer.SplitStackedArray | src/components/model_trainer.py:35-40 | the arrays the transformation stacks split back into the transformed inputs and the targets |
| Tables.Find | src/components/model_trainer.py:101 | `models[name]` (and the rename map's lookup of a raw name) finds nothing exactly when no entry has that key; otherwise it returns the value of an entry with that key |
| Tables.FoundIffNamed | src/components/model_trainer.py:101 | a lookup succeeds exactly when the name is one of the dictionary's keys |
| Tables.FindAt | src/components/model_trainer.py:101 | when keys are distinct, looking up an entry's name finds that entry |
| ModelTrainer.RosterAndGridsAgree | src/components/model_trainer.py:41-85 | `models` and `params` each have 8 distinct keys and the same key set, listed in a different order |
| ModelTrainer.EveryFamilyHasAGrid | src/components/model_trainer.py:41-85 | a name is a roster family exactly when it has a grid |
| ModelTrainer.LinearRegressionGridIsEmpty | src/components/model_trainer.py:46-71 | "Linear Regression" is in the roster, and its grid is empty: it is fitted with its defaults only |
| ModelTrainer.GridSizes | src/components/model_trainer.py:52-85 | in the order of `params`, the grids list 3, 1, 3, 3, 0, 2, 3 and 2 parameters with the listed numbers of candidate values, and every parameter has at least two candidates |
| ModelTrainer.MaxScore | src/components/model_trainer.py:94 | the best score is one of the scores, and no score exceeds it |
| ModelTrainer.IndexOf | src/components/model_trainer.py:98-100 | the index is the first position that holds the score |
| ModelTrainer.SelectBestModel | src/components/model_trainer.py:93-104 | a kept model scores at least 0.6; its estimator is the roster's entry for its name; and it is a report entry that scores no less than any entry and strictly more than every earlier one |
| ModelTrainer.FirstBestIsUnique | src/components/model_trainer.py:98-100 | at most one entry is maximal with every earlier entry strictly smaller |
| ModelTrainer.FirstBestExists | src/components/model_trainer.py:94-100 | the position of the first occurrence of the maximum is such an entry |
| ModelTrainer.SelectionIsFirstBest | src/components/model_trainer.py:94-100 | whatever entry is first best, the kept model has its name and score |
| ModelTrainer.BelowFloorIsRejected | src/components/model_trainer.py:103-104 | when every score is below 0.6, no model is kept |
| ModelTrainer.RosterReportSucceedsIff | src/components/model_trainer.py:101-104 | for a report over roster families, a model is kept exactly when some score reaches 0.6 |
| ModelTrainer.InitiateModelTrainer | src/components/model_trainer.py:32-116 | success needs every row of both arrays to have a target entry; the saved model scores at least 0.6 and is the roster's estimator for its name |
| ModelTrainer.TrainingKeepsFirstBest | src/components/model_trainer.py:35-116 | training succeeds exactly when both arrays split and the report of the evaluation has a keepable first best entry; the saved model is that entry, and its reported R² is the score of that model, as fitted on the training split, on the test split |
| PredictPipeline.FieldColumnsOrder | src/pipeline/predict_pipeline.py:72-91 | the frame has 18 distinct columns, in the order of the dictionary literal; `Waterfront_View` is sixth and `Condition_of_the_House` seventh |
| PredictPipeline.FieldColumnsArePreprocessorColumns | src/pipeline/predict_pipeline.py:72-91 | the request columns are exactly the union of the preprocessor's three column groups, so never `Sale_Price`, `ID` or `No_of_Times_Visited` |
| PredictPipeline.FromCells | src/pipeline/predict_pipeline.py:73-90 | a request can be read from 18 cells exactly when each cell has the type declared for its field |
| PredictPipeline.FromCellsOfCells | src/pipeline/predict_pipeline.py:73-90 | reading a request back from its own cells gives the request |
| PredictPipeline.CellsOfFromCells | src/pipeline/predict_pipeline.py:73-90 | a request read from cells has exactly those cells |
| PredictPipeline.ToDataFrame | src/pipeline/predict_pipeline.py:72-93 | the frame has the request columns in order; the column of field k holds exactly field k's value, alone |
| PredictPipeline.SingleCells | src/pipeline/predict_pipeline.py:72-93 | the single cell of every request column is found exactly when each column is present and holds one value |
| PredictPipeline.ParseToDataFrame | src/pipeline/predict_pipeline.py:73-90 | reading the request back from its frame gives the constructor arguments |
| PredictPipeline.ToDataFrameOfParse | src/pipeline/predict_pipeline.py:73-90 | a frame with exactly the request columns, in order, from which a request reads back, is that request's frame |
| PredictPipeline.SingleRow | src/pipeline/predict_pipeline.py:93 | a dictionary of one-value columns becomes a well-formed frame with one row, holding each column's value |
| PredictPipeline.RequestFeedsPreprocessor | src/pipeline/predict_pipeline.py:72-93 | each column of the request frame holds one value; the preprocessor reads its one row whole; that row has exactly the 18 group columns |
| PredictPipeline.CustomData.constructor | src/pipeline/predict_pipeline.py:31-68 | each of the 18 arguments is stored unchanged in the field of the same name |
| PredictPipeline.CustomData.GetDataAsDataFrame | src/pipeline/predict_pipeline.py:70-93 | 18 columns in literal order, exactly the preprocessor's columns, each holding one value, from which the record's own values read back |

## Left out

- The scikit-learn preprocessor (imputers, scaler, encoders, column transformer) is library code built on floating-point statistics. It is the `Preprocessor` parameter. Its own failures (for example a text cell in a numeric column) are not modelled: the parameter is total.
- `evaluate_models`, the regressors, `predict` and `r2_score` are foreign code and floating-point numerics. The roster's evaluation is the `Evaluator` parameter, which returns the ordered report. The test-split score of the kept model is the `Scorer` parameter, which receives the training split as well, because the saved estimator is the roster entry that `evaluate_models` fitted in place. The fitted state itself is not modelled: an `Estimator` value names a family and its constructor argument only.
- Reading the CSV files, `save_object`, the pickle files and the configured artifact paths are file I/O. `save_object` is represented only by the `saved` field of a successful training result.
- Logging, `print` and the wrapping of exceptions are left out. Every failure is the single `Err` (or `None`) outcome.
- `pd.DatetimeIndex(...).year` is library date parsing and is the `DateParser` parameter. One unparsable cell fails the whole split, as pandas' parser raises for the whole column.
- DateParser: the parser is an arbitrary function of the cell, so nothing forces a missing cell to parse to NaT as pandas always does; a parser that maps `Missing` to a year or to a failure is allowed.
- `PredictPipeline.predict` (src/pipeline/predict_pipeline.py:12-26) only loads two pickled objects and calls into them, so it is left out. The Flask front end, `app.py`, is left out too; it is web I/O and form coercion.
- Rename: it requires that no two columns of the frame rename to the same name. A row is a map, so it cannot hold the duplicate columns that pandas would produce. `RawColumnsNeverClash` shows this holds for any frame whose columns are raw names or unrelated names. The same requirement carries over to `Prepare`, `PrepareSplit` and `InitiateDataTransformation`, which rename first.
- AddDerivedColumns: it overwrites rows in a local copy of the frame. In-place assignment to a pandas frame shared with other references (aliasing) is not modelled.
- DeriveRow: cell types follow the value's kind, not pandas' column dtypes. A `0` written into a float column stays the integer `Num(0)`, and pandas' upcasting of a mixed column is not modelled.
- SplitFeaturesTarget: a numpy array is always rectangular, but the model splits each row on its own and fails only when some row is empty. It does not model the shape error numpy raises for a 0×0 array with no rows.
- SelectBestModel: scores are reals, so a NaN score is not modelled. A NaN score would change how Python's `max` and `index` behave.
- SingleRow: it only covers data frames whose columns all hold one value, which is the only kind `get_data_as_data_frame` builds. The general pandas constructor is not modelled.
- CustomData.constructor: the field types are the declared annotations (int, float, str). Python does not enforce them, so a caller passing other types is not modelled.
