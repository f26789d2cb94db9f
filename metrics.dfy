/** The accuracy metrics over validation records: RMSE, MAE and R-squared,
    for one attribute or for every attribute; the tolerance check; and the
    outlier filter. Missing values (NaN) are `None` and are skipped by every
    reduction, as pandas does. */
module Metrics {
  import opened Wrappers
  import opened Dicts
  import opened Stats
  import opened Records
  import opened Validators

  /** What a metric function returns: `None` (`NoResult`), one value, or a
      dictionary from attribute name to value. A value of `None` inside
      stands for NaN, or for the `None` that `r2_score` returns. */
  datatype Metric =
    | NoResult
    | Single(value: Option<real>)
    | PerAttribute(values: map<string, Option<real>>)

  /** `if attribute_name:` — an empty name is no filter. */
  predicate Filters(attributeName: Option<string>) {
    attributeName.Some? && attributeName.value != ""
  }

  /** The dispatch shared by the three metric functions: nothing for an
      empty table; for a named attribute, the metric of its rows, or nothing
      when it has none; otherwise one entry per attribute name present. */
  function ByAttribute(rows: seq<ValidationRecord>, attributeName: Option<string>,
                       metric: seq<ValidationRecord> -> Option<real>): (r: Metric)
    ensures rows == [] ==> r == NoResult
    ensures rows != [] && Filters(attributeName) ==>
      (r.NoResult? <==> RowsFor(rows, attributeName.value) == [])
      && (r.Single? ==> r.value == metric(RowsFor(rows, attributeName.value)))
    ensures rows != [] && !Filters(attributeName) ==>
      r.PerAttribute?
      && (forall name :: name in r.values <==> exists v :: v in rows && v.attributeName == name)
      && (forall name :: name in r.values ==> r.values[name] == metric(RowsFor(rows, name)))
  {
    if rows == [] then NoResult
    else if Filters(attributeName) then
      var group := RowsFor(rows, attributeName.value);
      if group == [] then NoResult else Single(metric(group))
    else
      var names := GroupNames(rows);
      PerAttribute(map name | name in names :: metric(RowsFor(rows, name)))
  }

  /** Root of the mean squared difference of one group. */
  function RmseOf(group: seq<ValidationRecord>, sqrt: real -> real): Option<real> {
    Root(sqrt, Mean(Squares(Present(Differences(group)))))
  }

  /** Mean absolute difference of one group. */
  function MaeOf(group: seq<ValidationRecord>): Option<real> {
    Mean(Magnitudes(Present(Differences(group))))
  }

  /** `r2_score`: `None` for fewer than two rows (rows with missing values
      count) and when the reference values do not vary; otherwise one less
      the ratio of the residual to the total sum of squares, which is at
      most 1. */
  function R2Of(group: seq<ValidationRecord>): (r: Option<real>)
    ensures r.Some? <==> |group| >= 2 && TotalSumOfSquares(References(group)) != 0.0
    ensures r.Some? ==> r.value <= 1.0
    ensures r.Some? ==> r.value * TotalSumOfSquares(References(group))
                        == TotalSumOfSquares(References(group)) - ResidualSumOfSquares(Pairs(group))
  {
    if |group| < 2 then None
    else
      var residual := ResidualSumOfSquares(Pairs(group));
      var total := TotalSumOfSquares(References(group));
      if total == 0.0 then None
      else
        assert residual / total >= 0.0;
        Some(1.0 - residual / total)
  }

  function CalculateRmse(rows: seq<ValidationRecord>, attributeName: Option<string>, sqrt: real -> real): Metric {
    ByAttribute(rows, attributeName, group => RmseOf(group, sqrt))
  }

  function CalculateMae(rows: seq<ValidationRecord>, attributeName: Option<string>): Metric {
    ByAttribute(rows, attributeName, MaeOf)
  }

  function CalculateRSquared(rows: seq<ValidationRecord>, attributeName: Option<string>): Metric {
    ByAttribute(rows, attributeName, R2Of)
  }

  /** Every value a metric holds satisfies `P`. */
  predicate AllValues(m: Metric, P: real -> bool) {
    match m
    case NoResult => true
    case Single(v) => v.Some? ==> P(v.value)
    case PerAttribute(values) => forall name :: name in values && values[name].Some? ==> P(values[name].value)
  }

  /** The mean absolute error is never negative. */
  lemma MaeNonNegative(rows: seq<ValidationRecord>, attributeName: Option<string>)
    ensures AllValues(CalculateMae(rows, attributeName), x => x >= 0.0)
  {
    forall group: seq<ValidationRecord> ensures MaeOf(group).Some? ==> MaeOf(group).value >= 0.0 {
      MeanNonNegative(Magnitudes(Present(Differences(group))));
    }
  }

  /** R-squared is at most 1 everywhere. */
  lemma RSquaredAtMostOne(rows: seq<ValidationRecord>, attributeName: Option<string>)
    ensures AllValues(CalculateRSquared(rows, attributeName), x => x <= 1.0)
  {
  }

  /** `sqrt` is a square root on the non-negative reals. */
  ghost predicate IsSqrt(sqrt: real -> real) {
    forall x :: x >= 0.0 ==> sqrt(x) >= 0.0 && sqrt(x) * sqrt(x) == x
  }

  /** Squaring is strictly increasing on the non-negative reals. */
  lemma SquareMonotone(x: real, y: real)
    requires x >= 0.0 && y >= 0.0
    ensures x > y <==> x * x > y * y
  {
    assert x * x - y * y == (x - y) * (x + y);
    if x > y {
      PositiveProduct(x - y, x + y);
    } else {
      NonNegativeProduct(y - x, x + y);
    }
  }

  lemma PositiveProduct(p: real, q: real)
    requires p > 0.0 && q > 0.0
    ensures p * q > 0.0
  {
  }

  lemma NonNegativeProduct(p: real, q: real)
    requires p >= 0.0 && q >= 0.0
    ensures p * q >= 0.0
  {
  }

  /** Within one group, the mean absolute error never exceeds the root mean
      square error. */
  lemma GroupMaeAtMostRmse(group: seq<ValidationRecord>, sqrt: real -> real)
    requires IsSqrt(sqrt)
    ensures MaeOf(group).Some? <==> RmseOf(group, sqrt).Some?
    ensures MaeOf(group).Some? ==> MaeOf(group).value <= RmseOf(group, sqrt).value
  {
    var d := Present(Differences(group));
    if |d| > 0 {
      var a := Magnitudes(d);
      MeanNonNegative(a);
      MeanNonNegative(Squares(d));
      MeanSquareBound(a);
      SquaresOfMagnitudes(d);
      var mae := Mean(a).value;
      var q := Mean(Squares(d)).value;
      SquareMonotone(mae, sqrt(q));
    }
  }

  /** For every attribute, and for a single one, the mean absolute error
      never exceeds the root mean square error, and both are defined for the
      same attributes. */
  lemma MaeAtMostRmse(rows: seq<ValidationRecord>, attributeName: Option<string>, sqrt: real -> real)
    requires IsSqrt(sqrt)
    ensures var mae := CalculateMae(rows, attributeName);
      var rmse := CalculateRmse(rows, attributeName, sqrt);
      && (mae.NoResult? <==> rmse.NoResult?)
      && (mae.Single? ==> rmse.Single? && (mae.value.Some? <==> rmse.value.Some?)
                          && (mae.value.Some? ==> mae.value.value <= rmse.value.value))
      && (mae.PerAttribute? ==>
            && rmse.PerAttribute?
            && mae.values.Keys == rmse.values.Keys
            && forall name :: name in mae.values && mae.values[name].Some? ==>
                 rmse.values[name].Some? && mae.values[name].value <= rmse.values[name].value)
  {
    var mae := CalculateMae(rows, attributeName);
    var rmse := CalculateRmse(rows, attributeName, sqrt);
    if rows != [] {
      if Filters(attributeName) {
        GroupMaeAtMostRmse(RowsFor(rows, attributeName.value), sqrt);
      } else {
        forall name | name in mae.values
          ensures mae.values[name].Some? <==> rmse.values[name].Some?
          ensures mae.values[name].Some? ==> mae.values[name].value <= rmse.values[name].value
        {
          GroupMaeAtMostRmse(RowsFor(rows, name), sqrt);
        }
      }
    }
  }

  /** Calculated values equal to the reference leave no residual. */
  lemma {:induction false} ExactResidual(group: seq<ValidationRecord>)
    requires forall i :: 0 <= i < |group| ==> group[i].calculated == group[i].thematic
    ensures ResidualSumOfSquares(Pairs(group)) == 0.0
  {
    if group != [] {
      assert Pairs(group)[1..] == Pairs(group[1..]);
      ExactResidual(group[1..]);
    }
  }

  /** A group whose calculated values equal the reference scores exactly 1
      whenever R-squared is defined. */
  lemma ExactRSquared(group: seq<ValidationRecord>)
    requires forall i :: 0 <= i < |group| ==> group[i].calculated == group[i].thematic
    ensures R2Of(group).Some? ==> R2Of(group).value == 1.0
  {
    ExactResidual(group);
  }

  // -----------------------------------------------------------------------
  // check_tolerance
  // -----------------------------------------------------------------------

  /** The tolerance key of an attribute: both heights share "height";
      every other attribute is its own key. */
  function ToleranceKey(attributeName: string): (r: string)
    ensures attributeName != "min_height" && attributeName != "max_height" ==> r == attributeName
    ensures attributeName == "min_height" || attributeName == "max_height" ==> r == "height"
  {
    if attributeName == "surface_area" then "surface_area"
    else if attributeName in ["min_height", "max_height"] then "height"
    else attributeName
  }

  /** `abs(x) <= threshold`, false when `x` is missing. */
  predicate WithinBound(x: Option<real>, threshold: real) {
    x.Some? && -threshold <= x.value <= threshold
  }

  /** `is_within_tolerance` for one record: no verdict without a threshold
      for its key; under "abs" the difference, under any other type the
      percent error, must lie within the threshold. */
  function Verdict(v: ValidationRecord, tolerances: Dict<string, Option<real>>, toleranceType: string): (r: Option<bool>)
    ensures r.None? <==> Get(tolerances, ToleranceKey(v.attributeName)) in {None, Some(None)}
    ensures r == Some(true) <==>
      exists t :: Get(tolerances, ToleranceKey(v.attributeName)) == Some(Some(t))
                  && WithinBound(if toleranceType == "abs" then v.difference else v.percentError, t)
  {
    var threshold: Option<Option<real>> := Get(tolerances, ToleranceKey(v.attributeName));
    if threshold.None? || threshold.value.None? then None
    else Some(WithinBound(if toleranceType == "abs" then v.difference else v.percentError, threshold.value.value))
  }

  /** The result of `check_tolerance`: the records, and the added
      `within_tolerance` column when one was added. */
  datatype Checked = Checked(rows: seq<ValidationRecord>, withinTolerance: Option<seq<Option<bool>>>)

  /** `check_tolerance`. `tolerance` is the `validation.tolerance` section
      of the configuration, empty when that section or its parent is
      absent. The records themselves are never changed; a column is added
      unless the table is empty or the section for `toleranceType` is
      missing or empty. */
  function CheckTolerance(rows: seq<ValidationRecord>, tolerance: Dict<string, Dict<string, Option<real>>>,
                          toleranceType: string): (r: Checked)
    ensures r.rows == rows
    ensures r.withinTolerance.None? <==> rows == [] || Get(tolerance, toleranceType).GetOr([]) == []
    ensures r.withinTolerance.Some? ==>
      |r.withinTolerance.value| == |rows|
      && forall i :: 0 <= i < |rows| ==>
           r.withinTolerance.value[i] == Verdict(rows[i], Get(tolerance, toleranceType).value, toleranceType)
  {
    if rows == [] then Checked(rows, None)
    else
      var tolerances := Get(tolerance, toleranceType).GetOr([]);
      if tolerances == [] then Checked(rows, None)
      else Checked(rows, Some(seq(|rows|, i requires 0 <= i < |rows| => Verdict(rows[i], tolerances, toleranceType))))
  }

  // -----------------------------------------------------------------------
  // get_outliers
  // -----------------------------------------------------------------------

  /** The rows of `df` whose difference satisfies `outlier`, in order. */
  function Keep(df: seq<ValidationRecord>, outlier: Option<real> -> bool): (r: seq<ValidationRecord>)
    ensures |r| <= |df|
    ensures forall v :: v in r <==> v in df && outlier(v.difference)
    ensures forall v :: multiset(r)[v] == if outlier(v.difference) then multiset(df)[v] else 0
  {
    if df == [] then []
    else
      var rest := Keep(df[1..], outlier);
      assert forall v :: v in df <==> v == df[0] || v in df[1..] by {
        assert df == [df[0]] + df[1..];
      }
      assert multiset(df) == multiset{df[0]} + multiset(df[1..]) by {
        assert df == [df[0]] + df[1..];
      }
      if outlier(df[0].difference) then [df[0]] + rest else rest
  }

  /** Nothing is kept when no row qualifies. */
  lemma KeepNothing(df: seq<ValidationRecord>, outlier: Option<real> -> bool)
    requires forall v :: v in df ==> !outlier(v.difference)
    ensures Keep(df, outlier) == []
  {
    var r := Keep(df, outlier);
    assert forall i :: 0 <= i < |r| ==> r[i] in r;
  }

  /** The interquartile rule: strictly below `Q1 - t IQR` or strictly above
      `Q3 + t IQR`. Without quartiles (no difference present) nothing is an
      outlier, nor is a missing difference. */
  predicate IqrOutlier(d: Option<real>, quartiles: Option<(real, real)>, threshold: real) {
    d.Some? && quartiles.Some?
    && var (q1, q3) := quartiles.value;
       (d.value < q1 - threshold * (q3 - q1) || d.value > q3 + threshold * (q3 - q1))
  }

  /** The z-score rule `|d - mean| / std > t`, stated without the root:
      with no spread, any value off the mean (its score is infinite); with
      a negative threshold, every present value; otherwise the squared
      deviation beyond `t` squared times the variance. Without a variance
      (fewer than two values) nothing is an outlier. */
  predicate ZScoreOutlier(d: Option<real>, mean: Option<real>, variance: Option<real>, threshold: real) {
    d.Some? && mean.Some? && variance.Some?
    && if variance.value == 0.0 then d.value != mean.value
       else threshold < 0.0
            || (d.value - mean.value) * (d.value - mean.value) > threshold * threshold * variance.value
  }

  lemma DivideBelow(a: real, std: real, threshold: real)
    requires std > 0.0
    ensures a / std > threshold <==> a > threshold * std
  {
    assert a == (a / std) * std;
    if a / std > threshold {
      assert (a / std - threshold) * std > 0.0;
    } else {
      assert (threshold - a / std) * std >= 0.0;
    }
  }

  /** For a positive standard deviation, the rule above is exactly the
      z-score comparison. */
  lemma ZScoreOutlierExact(d: real, mean: real, std: real, threshold: real)
    requires std > 0.0
    ensures ZScoreOutlier(Some(d), Some(mean), Some(std * std), threshold)
            <==> (if d - mean < 0.0 then mean - d else d - mean) / std > threshold
  {
    var a := if d - mean < 0.0 then mean - d else d - mean;
    assert a * a == (d - mean) * (d - mean);
    assert std * std > 0.0;
    DivideBelow(a, std, threshold);
    if threshold >= 0.0 {
      SquareMonotone(a, threshold * std);
      assert (threshold * std) * (threshold * std) == threshold * threshold * (std * std);
    }
  }

  /** The first and third quartiles of the present differences, missing when
      none is present. */
  function Quartiles(df: seq<ValidationRecord>, quantile: (seq<real>, real) -> real): (r: Option<(real, real)>)
    ensures r.None? <==> Present(Differences(df)) == []
  {
    var d := Present(Differences(df));
    if d == [] then None else Some((quantile(d, 0.25), quantile(d, 0.75)))
  }

  /** The frame `get_outliers` searches: the rows of the named attribute,
      or every row when no (non-empty) name is given. */
  function Selected(rows: seq<ValidationRecord>, attributeName: Option<string>): (r: seq<ValidationRecord>)
    ensures forall v :: v in r <==> v in rows && (Filters(attributeName) ==> v.attributeName == attributeName.value)
  {
    if Filters(attributeName) then RowsFor(rows, attributeName.value) else rows
  }

  /** `get_outliers`. `quantile(xs, p)` is pandas' quantile of the present
      values `xs` (non-empty) at `p`. An empty table is returned before the
      method is looked at; an unknown method is an error. */
  function GetOutliers(rows: seq<ValidationRecord>, attributeName: Option<string>, detection: string,
                       threshold: real, quantile: (seq<real>, real) -> real)
    : (r: Result<seq<ValidationRecord>, string>)
    ensures rows == [] ==> r == Success([])
    ensures rows != [] ==> (r.Failure? <==> detection != "iqr" && detection != "zscore")
    ensures r.Failure? ==> r.error == "Unknown method: " + detection + ". Use 'iqr' or 'zscore'"
    ensures r.Success? ==> |r.value| <= |rows| && forall v :: v in r.value ==> v in rows
  {
    if rows == [] then Success(rows)
    else
      var df := Selected(rows, attributeName);
      var d := Present(Differences(df));
      if detection == "iqr" then
        var quartiles := Quartiles(df, quantile);
        Success(Keep(df, x => IqrOutlier(x, quartiles, threshold)))
      else if detection == "zscore" then
        Success(Keep(df, x => ZScoreOutlier(x, Mean(d), SampleVariance(d), threshold)))
      else Failure("Unknown method: " + detection + ". Use 'iqr' or 'zscore'")
  }

  /** Under "iqr", a row is reported exactly when it is in the searched
      frame (of the named attribute, or all rows without a name) and its
      difference lies strictly outside that frame's quartile range widened
      by `threshold` times its width. */
  lemma IqrOutliers(rows: seq<ValidationRecord>, attributeName: Option<string>, threshold: real,
                    quantile: (seq<real>, real) -> real, v: ValidationRecord)
    ensures var r := GetOutliers(rows, attributeName, "iqr", threshold, quantile);
      r.Success? &&
      (v in r.value <==> v in rows && (Filters(attributeName) ==> v.attributeName == attributeName.value)
                         && IqrOutlier(v.difference, Quartiles(Selected(rows, attributeName), quantile), threshold))
  {
  }

  /** Under "zscore", a row is reported exactly when it is in the searched
      frame and the z-score rule holds for its difference against the mean
      and sample variance of that frame's present differences. */
  lemma ZScoreOutliers(rows: seq<ValidationRecord>, attributeName: Option<string>, threshold: real,
                       quantile: (seq<real>, real) -> real, v: ValidationRecord)
    ensures var r := GetOutliers(rows, attributeName, "zscore", threshold, quantile);
      var d := Present(Differences(Selected(rows, attributeName)));
      r.Success? &&
      (v in r.value <==> v in rows && (Filters(attributeName) ==> v.attributeName == attributeName.value)
                         && ZScoreOutlier(v.difference, Mean(d), SampleVariance(d), threshold))
  {
  }

  /** With fewer than two present differences the sample variance is
      missing, so "zscore" reports nothing. */
  lemma ZScoreNeedsTwo(rows: seq<ValidationRecord>, attributeName: Option<string>, threshold: real,
                       quantile: (seq<real>, real) -> real)
    requires |Present(Differences(rows))| < 2
    ensures GetOutliers(rows, attributeName, "zscore", threshold, quantile) == Success([])
  {
    var df := Selected(rows, attributeName);
    if Filters(attributeName) {
      PresentRowsFor(rows, attributeName.value);
    }
    var d := Present(Differences(df));
    assert SampleVariance(d).None?;
    KeepNothing(df, x => ZScoreOutlier(x, Mean(d), SampleVariance(d), threshold));
  }

  /** Filtering rows by attribute never adds present differences. */
  lemma {:induction false} PresentRowsFor(rows: seq<ValidationRecord>, attributeName: string)
    ensures |Present(Differences(RowsFor(rows, attributeName)))| <= |Present(Differences(rows))|
  {
    if rows != [] {
      var rest := RowsFor(rows[1..], attributeName);
      PresentRowsFor(rows[1..], attributeName);
      PresentDifferencesCons(rows[0], rows[1..]);
      assert rows == [rows[0]] + rows[1..];
      if rows[0].attributeName == attributeName {
        PresentDifferencesCons(rows[0], rest);
      }
    }
  }

  /** One row in front adds one present difference when it has one. */
  lemma PresentDifferencesCons(row: ValidationRecord, rows: seq<ValidationRecord>)
    ensures |Present(Differences([row] + rows))| == (if row.difference.Some? then 1 else 0) + |Present(Differences(rows))|
  {
    assert Differences([row] + rows)[1..] == Differences(rows);
  }
}
