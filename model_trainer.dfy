/** The model trainer: it splits the transformed arrays back into features
    and target, hands them with the fixed roster of regressor families and
    their hyper-parameter grids to an evaluation step, and keeps the family
    whose score is highest, provided that score reaches 0.6. */
module ModelTrainer {
  import opened Tables
  import DataTransformation

  // ---------------------------------------------------------------------------
  // Splitting the arrays
  // ---------------------------------------------------------------------------

  /** `array[:, :-1]` and `array[:, -1]`: every entry of a row but the last
      are its features, the last entry its target. A row with no entry at
      all has no last entry, and the split fails. */
  function SplitFeaturesTarget<T>(m: seq<seq<T>>): (r: Result<(seq<seq<T>>, seq<T>)>)
    ensures r.Ok? <==> forall i :: 0 <= i < |m| ==> |m[i]| > 0
    ensures r.Ok? ==>
      && |r.value.0| == |r.value.1| == |m|
      && forall i :: 0 <= i < |m| ==>
        && |r.value.0[i]| == |m[i]| - 1
        && r.value.0[i] == m[i][..|m[i]| - 1]
        && r.value.1[i] == m[i][|m[i]| - 1]
  {
    if exists i :: 0 <= i < |m| && |m[i]| == 0 then Err
    else
      Ok((seq(|m|, i requires 0 <= i < |m| => m[i][..|m[i]| - 1]),
          seq(|m|, i requires 0 <= i < |m| => m[i][|m[i]| - 1])))
  }

  /** Appending the split-off target column again gives back the array. */
  lemma SplitThenAppend<T>(m: seq<seq<T>>)
    requires SplitFeaturesTarget(m).Ok?
    ensures AppendColumn(SplitFeaturesTarget(m).value.0, SplitFeaturesTarget(m).value.1) == m
  {
    var (x, y) := SplitFeaturesTarget(m).value;
    var back := AppendColumn(x, y);
    forall i | 0 <= i < |m|
      ensures back[i] == m[i]
    {
      assert back[i] == back[i][..|x[i]|] + [back[i][|x[i]|]];
      assert m[i] == m[i][..|m[i]| - 1] + [m[i][|m[i]| - 1]];
    }
  }

  /** Splitting an array with an appended column gives back the features and
      that column. */
  lemma AppendThenSplit<T>(x: seq<seq<T>>, y: seq<T>)
    requires |x| == |y|
    ensures SplitFeaturesTarget(AppendColumn(x, y)) == Ok((x, y))
  {
    var m := AppendColumn(x, y);
    var (xs, ys) := SplitFeaturesTarget(m).value;
    assert xs == x;
    assert ys == y;
  }

  /** The arrays the data transformation stacks split back into the
      transformed input rows and the targets of the split. */
  lemma SplitStackedArray(preprocess: DataTransformation.Preprocessor, fit: seq<Row>,
                          inputs: seq<Row>, targets: seq<Value>)
    requires |inputs| == |targets|
    ensures SplitFeaturesTarget(DataTransformation.Stack(preprocess, fit, inputs, targets))
      == Ok((DataTransformation.Transform(preprocess, fit, inputs), targets))
  {
    AppendThenSplit(DataTransformation.Transform(preprocess, fit, inputs), targets);
  }

  // ---------------------------------------------------------------------------
  // The roster of regressor families and their grids
  // ---------------------------------------------------------------------------

  /** The regressor families, with the one constructor argument the roster
      sets. */
  datatype Estimator =
    | RandomForest
    | DecisionTree
    | KNeighbors
    | GradientBoosting
    | LinearRegression
    | XGB
    | CatBoost(verbose: bool)
    | AdaBoost

  /** One candidate value of a hyper-parameter. */
  datatype HyperValue = IntParam(i: int) | RealParam(x: real) | TextParam(s: string) | NoneParam

  /** A hyper-parameter grid: each parameter with its candidate values, in
      the order written. */
  type Grid = seq<(string, seq<HyperValue>)>

  /** The `models` dictionary, in insertion order. */
  const MODELS: seq<(string, Estimator)> := [
    ("Random Forest", RandomForest),
    ("Decision Tree", DecisionTree),
    ("KNN", KNeighbors),
    ("Gradient Boosting", GradientBoosting),
    ("Linear Regression", LinearRegression),
    ("XGBRegressor", XGB),
    ("CatBoosting Regressor", CatBoost(false)),
    ("AdaBoost Regressor", AdaBoost)
  ]

  /** The `params` dictionary, in insertion order. */
  const PARAMS: seq<(string, Grid)> := [
    ("Decision Tree", [
      ("criterion", [TextParam("squared_error"), TextParam("friedman_mse")]),
      ("min_samples_split", [IntParam(2), IntParam(5), IntParam(10)]),
      ("max_depth", [IntParam(3), IntParam(5), IntParam(10), NoneParam])]),
    ("Random Forest", [
      ("n_estimators", [IntParam(10), IntParam(50), IntParam(100)])]),
    ("KNN", [
      ("n_neighbors", [IntParam(3), IntParam(5), IntParam(7), IntParam(9)]),
      ("weights", [TextParam("uniform"), TextParam("distance")]),
      ("algorithm", [TextParam("ball_tree"), TextParam("kd_tree"), TextParam("brute")])]),
    ("Gradient Boosting", [
      ("learning_rate", [RealParam(0.1), RealParam(0.05)]),
      ("subsample", [RealParam(0.6), RealParam(0.8)]),
      ("n_estimators", [IntParam(10), IntParam(50), IntParam(100)])]),
    ("Linear Regression", []),
    ("XGBRegressor", [
      ("learning_rate", [RealParam(0.1), RealParam(0.05)]),
      ("n_estimators", [IntParam(10), IntParam(50), IntParam(100)])]),
    ("CatBoosting Regressor", [
      ("depth", [IntParam(6), IntParam(8), IntParam(10)]),
      ("learning_rate", [RealParam(0.05), RealParam(0.1)]),
      ("iterations", [IntParam(30), IntParam(50)])]),
    ("AdaBoost Regressor", [
      ("learning_rate", [RealParam(0.1), RealParam(0.05)]),
      ("n_estimators", [IntParam(10), IntParam(50), IntParam(100)])])
  ]

  /** Both dictionaries name the same eight families, each once; the roster
      and the grids only list them in a different order. */
  lemma RosterAndGridsAgree()
    ensures |MODELS| == |PARAMS| == 8
    ensures Distinct(Names(MODELS)) && Distinct(Names(PARAMS))
    ensures Elements(Names(MODELS)) == Elements(Names(PARAMS))
    ensures Names(MODELS) != Names(PARAMS)
  {
    assert Names(MODELS) == ["Random Forest", "Decision Tree", "KNN", "Gradient Boosting",
      "Linear Regression", "XGBRegressor", "CatBoosting Regressor", "AdaBoost Regressor"];
    assert Names(PARAMS) == ["Decision Tree", "Random Forest", "KNN", "Gradient Boosting",
      "Linear Regression", "XGBRegressor", "CatBoosting Regressor", "AdaBoost Regressor"];
  }

  /** Every family of the roster has a grid, and every grid belongs to a
      family of the roster. */
  lemma EveryFamilyHasAGrid(name: string)
    ensures Find(MODELS, name).Some? <==> Find(PARAMS, name).Some?
  {
    assert Elements(Names(MODELS)) == Elements(Names(PARAMS)) by {
      RosterAndGridsAgree();
    }
    FoundIffNamed(MODELS, name);
    FoundIffNamed(PARAMS, name);
  }

  /** Linear regression is fitted with its defaults only: its grid is empty. */
  lemma LinearRegressionGridIsEmpty()
    ensures Find(MODELS, "Linear Regression") == Some(LinearRegression)
    ensures Find(PARAMS, "Linear Regression") == Some([])
  {
    RosterAndGridsAgree();
    FindAt(MODELS, 4);
    FindAt(PARAMS, 4);
  }

  /** The number of candidate values of each parameter of a grid, in order. */
  function ValueCounts(g: Grid): (counts: seq<nat>)
    ensures |counts| == |g| && forall i :: 0 <= i < |g| ==> counts[i] == |g[i].1|
  {
    seq(|g|, i requires 0 <= i < |g| => |g[i].1|)
  }

  /** In the order of `params`, the grids list 3, 1, 3, 3, 0, 2, 3 and 2
      parameters, and every parameter has at least two candidate values. */
  lemma GridSizes()
    ensures ValueCounts(PARAMS[0].1) == [2, 3, 4] && ValueCounts(PARAMS[1].1) == [3]
    ensures ValueCounts(PARAMS[2].1) == [4, 2, 3] && ValueCounts(PARAMS[3].1) == [2, 2, 3]
    ensures ValueCounts(PARAMS[4].1) == [] && ValueCounts(PARAMS[5].1) == [2, 3]
    ensures ValueCounts(PARAMS[6].1) == [3, 2, 2] && ValueCounts(PARAMS[7].1) == [2, 3]
    ensures forall k, j :: 0 <= k < |PARAMS| && 0 <= j < |PARAMS[k].1| ==> |PARAMS[k].1[j].1| >= 2
  {
  }

  // ---------------------------------------------------------------------------
  // Choosing the best model
  // ---------------------------------------------------------------------------

  /** The evaluation report: family names with their test scores, in the
      order the evaluation produced them. */
  type Report = seq<(string, real)>

  /** The minimum score a model must reach to be kept. */
  const SCORE_FLOOR: real := 0.6

  /** `max(sorted(scores))`: the largest score. */
  function MaxScore(scores: seq<real>): (best: real)
    requires |scores| > 0
    ensures best in scores
    ensures forall i :: 0 <= i < |scores| ==> scores[i] <= best
  {
    if |scores| == 1 then scores[0]
    else
      var rest := MaxScore(scores[1..]);
      assert forall i :: 1 <= i < |scores| ==> scores[i] == scores[1..][i - 1];
      if scores[0] >= rest then scores[0] else rest
  }

  /** `scores.index(s)`: the position of the first occurrence of `s`. */
  function IndexOf(scores: seq<real>, s: real): (k: nat)
    requires s in scores
    ensures k < |scores| && scores[k] == s
    ensures forall j :: 0 <= j < k ==> scores[j] != s
  {
    if scores[0] == s then 0 else 1 + IndexOf(scores[1..], s)
  }

  /** The kept model: its family name, the roster's estimator of that family
      (which the evaluation step has fitted in place) and its score. */
  datatype Selection = Selection(name: string, estimator: Estimator, score: real)

  /** The best entry of the report: the first one whose score is the
      maximum. It is rejected when the report is empty, when its name is not
      a family of the roster, or when its score is below the floor. */
  function SelectBestModel(report: Report): (r: Result<Selection>)
    ensures r.Ok? ==>
      && r.value.score >= SCORE_FLOOR
      && Find(MODELS, r.value.name) == Some(r.value.estimator)
      && exists k :: 0 <= k < |report| && report[k] == (r.value.name, r.value.score) && IsFirstBest(report, k)
  {
    if |report| == 0 then Err
    else
      var best := MaxScore(Values(report));
      var k := IndexOf(Values(report), best);
      var name := report[k].0;
      match Find(MODELS, name)
      case None => Err
      case Some(estimator) =>
        if best < SCORE_FLOOR then Err else Ok(Selection(name, estimator, best))
  }

  /** Entry `k` scores at least as much as every entry, and strictly more
      than every entry before it. */
  ghost predicate IsFirstBest(report: Report, k: int)
    requires 0 <= k < |report|
  {
    && (forall i :: 0 <= i < |report| ==> report[i].1 <= report[k].1)
    && (forall j :: 0 <= j < k ==> report[j].1 < report[k].1)
  }

  /** At most one entry of a report is the first best one. */
  lemma FirstBestIsUnique(report: Report, k: int, l: int)
    requires 0 <= k < |report| && 0 <= l < |report|
    requires IsFirstBest(report, k) && IsFirstBest(report, l)
    ensures k == l
  {
    assert report[l].1 <= report[k].1;
    assert report[k].1 <= report[l].1;
  }

  /** A non-empty report always has a first best entry, found at the index
      of its maximum score. */
  lemma FirstBestExists(report: Report)
    requires |report| > 0
    ensures IsFirstBest(report, IndexOf(Values(report), MaxScore(Values(report))))
  {
    var best := MaxScore(Values(report));
    var k := IndexOf(Values(report), best);
    forall j | 0 <= j < k
      ensures report[j].1 < report[k].1
    {
      assert Values(report)[j] != best;
      assert Values(report)[j] <= best;
    }
  }

  /** The selected model is the first best entry of the report: whatever
      entry is first best, its name and score are the ones selected. */
  lemma SelectionIsFirstBest(report: Report, k: int)
    requires 0 <= k < |report| && IsFirstBest(report, k)
    requires SelectBestModel(report).Ok?
    ensures SelectBestModel(report).value.name == report[k].0
    ensures SelectBestModel(report).value.score == report[k].1
  {
    var l := IndexOf(Values(report), MaxScore(Values(report)));
    FirstBestExists(report);
    FirstBestIsUnique(report, k, l);
  }

  /** When no entry reaches the floor, no model is kept. */
  lemma BelowFloorIsRejected(report: Report)
    requires forall i :: 0 <= i < |report| ==> report[i].1 < SCORE_FLOOR
    ensures SelectBestModel(report).Err?
  {
    if |report| > 0 {
      var best := MaxScore(Values(report));
      var i :| 0 <= i < |report| && Values(report)[i] == best;
      assert best < SCORE_FLOOR;
    }
  }

  /** For a report over families of the roster, a model is kept exactly when
      some entry reaches the floor. */
  lemma RosterReportSucceedsIff(report: Report)
    requires forall i :: 0 <= i < |report| ==> Find(MODELS, report[i].0).Some?
    ensures SelectBestModel(report).Ok? <==> exists i :: 0 <= i < |report| && report[i].1 >= SCORE_FLOOR
  {
    if exists i :: 0 <= i < |report| && report[i].1 >= SCORE_FLOOR {
      var i :| 0 <= i < |report| && report[i].1 >= SCORE_FLOOR;
      var best := MaxScore(Values(report));
      assert Values(report)[i] <= best;
    } else {
      BelowFloorIsRejected(report);
    }
  }

  // ---------------------------------------------------------------------------
  // Training
  // ---------------------------------------------------------------------------

  /** The evaluation step: it fits every family of the roster over its grid
      on the training features and target and reports each family's score on
      the test split. */
  type Evaluator<!T> = (seq<seq<T>>, seq<T>, seq<seq<T>>, seq<T>, seq<(string, Estimator)>, seq<(string, Grid)>) -> Report

  /** The score on the test split of the kept model, as fitted on the
      training split: training features and target, then test features and
      target. */
  type Scorer<!T> = (Selection, seq<seq<T>>, seq<T>, seq<seq<T>>, seq<T>) -> real

  /** What training produces: the model that is saved and its score on the
      test split. */
  datatype Trained = Trained(saved: Selection, testScore: real)

  /** `initiate_model_trainer`: split both arrays, evaluate the roster over
      its grids, keep the first best family if it reaches the floor, and
      score it on the test split. */
  function InitiateModelTrainer<T>(trainArray: seq<seq<T>>, testArray: seq<seq<T>>,
                                   evaluate: Evaluator<T>, score: Scorer<T>): (r: Result<Trained>)
    ensures r.Ok? ==>
      && (forall i :: 0 <= i < |trainArray| ==> |trainArray[i]| > 0)
      && (forall i :: 0 <= i < |testArray| ==> |testArray[i]| > 0)
      && r.value.saved.score >= SCORE_FLOOR
      && Find(MODELS, r.value.saved.name) == Some(r.value.saved.estimator)
  {
    var (xTrain, yTrain) :- SplitFeaturesTarget(trainArray);
    var (xTest, yTest) :- SplitFeaturesTarget(testArray);
    var report := evaluate(xTrain, yTrain, xTest, yTest, MODELS, PARAMS);
    var best :- SelectBestModel(report);
    Ok(Trained(best, score(best, xTrain, yTrain, xTest, yTest)))
  }

  /** The report the evaluation step gives for two well-shaped arrays. */
  function ReportFor<T>(trainArray: seq<seq<T>>, testArray: seq<seq<T>>, evaluate: Evaluator<T>): Report
    requires SplitFeaturesTarget(trainArray).Ok? && SplitFeaturesTarget(testArray).Ok?
  {
    var (xTrain, yTrain) := SplitFeaturesTarget(trainArray).value;
    var (xTest, yTest) := SplitFeaturesTarget(testArray).value;
    evaluate(xTrain, yTrain, xTest, yTest, MODELS, PARAMS)
  }

  /** Training succeeds exactly when both arrays have a target column and
      the report has a first best entry of the roster that reaches the
      floor; the saved model is then that entry. */
  lemma TrainingKeepsFirstBest<T>(trainArray: seq<seq<T>>, testArray: seq<seq<T>>,
                                   evaluate: Evaluator<T>, score: Scorer<T>)
    ensures InitiateModelTrainer(trainArray, testArray, evaluate, score).Ok? <==>
      && SplitFeaturesTarget(trainArray).Ok? && SplitFeaturesTarget(testArray).Ok?
      && SelectBestModel(ReportFor(trainArray, testArray, evaluate)).Ok?
    ensures InitiateModelTrainer(trainArray, testArray, evaluate, score).Ok? ==>
      InitiateModelTrainer(trainArray, testArray, evaluate, score).value.saved
        == SelectBestModel(ReportFor(trainArray, testArray, evaluate)).value
    ensures InitiateModelTrainer(trainArray, testArray, evaluate, score).Ok? ==>
      InitiateModelTrainer(trainArray, testArray, evaluate, score).value.testScore
        == score(InitiateModelTrainer(trainArray, testArray, evaluate, score).value.saved,
                 SplitFeaturesTarget(trainArray).value.0, SplitFeaturesTarget(trainArray).value.1,
                 SplitFeaturesTarget(testArray).value.0, SplitFeaturesTarget(testArray).value.1)
  {
  }
}
