/** pandas reductions over a column that may hold missing values (NaN).
    Every reduction skips the missing entries first, as pandas does by
    default; a reduction over no remaining values is missing itself, except
    a sum, which is 0. */
module Stats {
  import opened Wrappers

  /** The values of a column that are not missing, in order. */
  function Present(xs: seq<Option<real>>): (r: seq<real>)
    ensures |r| <= |xs|
    ensures forall x :: x in r <==> Some(x) in xs
  {
    if xs == [] then []
    else
      var rest := Present(xs[1..]);
      assert forall x :: Some(x) in xs <==> xs[0] == Some(x) || Some(x) in xs[1..] by {
        assert xs == [xs[0]] + xs[1..];
      }
      if xs[0].Some? then [xs[0].value] + rest else rest
  }

  function Sum(xs: seq<real>): real {
    if xs == [] then 0.0 else xs[0] + Sum(xs[1..])
  }

  lemma {:induction false} SumNonNegative(xs: seq<real>)
    requires forall i :: 0 <= i < |xs| ==> xs[i] >= 0.0
    ensures Sum(xs) >= 0.0
  {
    if xs != [] {
      SumNonNegative(xs[1..]);
    }
  }

  /** `Series.mean()`: missing when no value is present. */
  function Mean(xs: seq<real>): (r: Option<real>)
    ensures r.Some? <==> |xs| > 0
    ensures r.Some? ==> r.value * (|xs| as real) == Sum(xs)
  {
    if xs == [] then None else Some(Sum(xs) / (|xs| as real))
  }

  /** The mean of values that are all at least zero is at least zero. */
  lemma MeanNonNegative(xs: seq<real>)
    requires forall i :: 0 <= i < |xs| ==> xs[i] >= 0.0
    ensures Mean(xs).Some? ==> Mean(xs).value >= 0.0
  {
    SumNonNegative(xs);
  }

  function Squares(xs: seq<real>): (r: seq<real>)
    ensures |r| == |xs|
    ensures forall i :: 0 <= i < |xs| ==> r[i] == xs[i] * xs[i] && r[i] >= 0.0
  {
    seq(|xs|, i requires 0 <= i < |xs| => xs[i] * xs[i])
  }

  function Magnitudes(xs: seq<real>): (r: seq<real>)
    ensures |r| == |xs|
    ensures forall i :: 0 <= i < |xs| ==> r[i] >= 0.0 && (r[i] == xs[i] || r[i] == -xs[i])
  {
    seq(|xs|, i requires 0 <= i < |xs| => if xs[i] < 0.0 then -xs[i] else xs[i])
  }

  /** Sum of squared deviations from `m`. */
  function SumSquaredDeviations(xs: seq<real>, m: real): real {
    if xs == [] then 0.0 else (xs[0] - m) * (xs[0] - m) + SumSquaredDeviations(xs[1..], m)
  }

  lemma {:induction false} SumSquaredDeviationsNonNegative(xs: seq<real>, m: real)
    ensures SumSquaredDeviations(xs, m) >= 0.0
  {
    if xs != [] {
      SumSquaredDeviationsNonNegative(xs[1..], m);
      assert (xs[0] - m) * (xs[0] - m) >= 0.0;
    }
  }

  /** `Series.std()` squared: the sample variance (divisor n - 1), missing
      for fewer than two values. */
  function SampleVariance(xs: seq<real>): (r: Option<real>)
    ensures r.Some? <==> |xs| >= 2
    ensures r.Some? ==> r.value >= 0.0
  {
    if |xs| < 2 then None
    else
      SumSquaredDeviationsNonNegative(xs, Mean(xs).value);
      Some(SumSquaredDeviations(xs, Mean(xs).value) / ((|xs| - 1) as real))
  }

  /** `((calc - ref) ** 2).sum()`: rows missing either value are skipped. */
  function ResidualSumOfSquares(pairs: seq<(Option<real>, Option<real>)>): (r: real)
    ensures r >= 0.0
  {
    if pairs == [] then 0.0
    else
      var rest := ResidualSumOfSquares(pairs[1..]);
      if pairs[0].0.Some? && pairs[0].1.Some?
      then (pairs[0].0.value - pairs[0].1.value) * (pairs[0].0.value - pairs[0].1.value) + rest
      else rest
  }

  /** `((ref - ref.mean()) ** 2).sum()`: 0 when no reference is present. */
  function TotalSumOfSquares(refs: seq<Option<real>>): (r: real)
    ensures r >= 0.0
  {
    var xs := Present(refs);
    match Mean(xs)
    case None => 0.0
    case Some(m) =>
      SumSquaredDeviationsNonNegative(xs, m);
      SumSquaredDeviations(xs, m)
  }

  /** The squares of the values are their squared deviations from zero. */
  lemma {:induction false} SumOfSquares(xs: seq<real>)
    ensures Sum(Squares(xs)) == SumSquaredDeviations(xs, 0.0)
  {
    if xs != [] {
      forall i | 0 <= i < |xs| - 1 ensures Squares(xs)[1..][i] == Squares(xs[1..])[i] {
        assert xs[1..][i] == xs[i + 1];
      }
      assert Squares(xs)[1..] == Squares(xs[1..]);
      SumOfSquares(xs[1..]);
      assert (xs[0] - 0.0) * (xs[0] - 0.0) == xs[0] * xs[0];
    }
  }

  /** `spread == squares - 2 m sum + n m m`: a sum of squared deviations
      from `m`, expanded. */
  predicate Expanded(spread: real, squares: real, sum: real, n: real, m: real) {
    spread == squares - 2.0 * m * sum + n * m * m
  }

  /** Expanding the squares: the squared deviations from `m` sum to the sum
      of squares, less twice `m` times the sum, plus `m` squared once per
      value. */
  lemma {:induction false} SumSquaredDeviationsExpand(xs: seq<real>, m: real)
    ensures Expanded(SumSquaredDeviations(xs, m), SumSquaredDeviations(xs, 0.0), Sum(xs), |xs| as real, m)
  {
    if xs == [] {
      ExpandEmpty(m);
    } else {
      SumSquaredDeviationsExpand(xs[1..], m);
      ExpandStep(xs[0], m, SumSquaredDeviations(xs[1..], m), SumSquaredDeviations(xs[1..], 0.0),
        Sum(xs[1..]), |xs[1..]| as real,
        SumSquaredDeviations(xs, m), SumSquaredDeviations(xs, 0.0), Sum(xs), |xs| as real);
    }
  }

  lemma ExpandEmpty(m: real)
    ensures Expanded(0.0, 0.0, 0.0, 0.0, m)
  {
  }

  /** One more value `a` keeps the expansion. */
  lemma ExpandStep(a: real, m: real, spread: real, squares: real, sum: real, n: real,
                   spread': real, squares': real, sum': real, n': real)
    requires Expanded(spread, squares, sum, n, m)
    requires spread' == (a - m) * (a - m) + spread && squares' == (a - 0.0) * (a - 0.0) + squares
    requires sum' == a + sum && n' == n + 1.0
    ensures Expanded(spread', squares', sum', n', m)
  {
  }

  /** `total == mean * n`. */
  predicate Scaled(total: real, mean: real, n: real) {
    total == mean * n
  }

  lemma MeanScaled(xs: seq<real>)
    requires |xs| > 0
    ensures Scaled(Sum(xs), Mean(xs).value, |xs| as real)
  {
  }

  /** With `sum == m n` and `squares == q n`, a non-negative expanded spread
      gives `q >= m m`. */
  lemma RatioBound(n: real, m: real, q: real, spread: real, sum: real, squares: real)
    requires n > 0.0 && Scaled(sum, m, n) && Scaled(squares, q, n)
    requires spread >= 0.0 && Expanded(spread, squares, sum, n, m)
    ensures q >= m * m
  {
    assert spread == (q - m * m) * n;
  }

  lemma SpreadAroundMean(xs: seq<real>, m: real)
    ensures SumSquaredDeviations(xs, m) >= 0.0
    ensures Expanded(SumSquaredDeviations(xs, m), Sum(Squares(xs)), Sum(xs), |xs| as real, m)
  {
    SumSquaredDeviationsExpand(xs, m);
    SumSquaredDeviationsNonNegative(xs, m);
    SumOfSquares(xs);
  }

  /** The mean of the squares is at least the square of the mean. */
  lemma MeanSquareBound(xs: seq<real>)
    requires |xs| > 0
    ensures Mean(Squares(xs)).value >= Mean(xs).value * Mean(xs).value
  {
    MeanSquareBoundFor(xs, Mean(xs).value, Mean(Squares(xs)).value);
  }

  /** `MeanSquareBound` with the two means named. */
  lemma MeanSquareBoundFor(xs: seq<real>, m: real, q: real)
    requires |xs| > 0 && m == Mean(xs).value && q == Mean(Squares(xs)).value
    ensures q >= m * m
  {
    MeanScaled(xs);
    MeanScaled(Squares(xs));
    SpreadAroundMean(xs, m);
    RatioBound(|xs| as real, m, q, SumSquaredDeviations(xs, m), Sum(xs), Sum(Squares(xs)));
  }

  /** Squaring forgets the sign. */
  lemma SquaresOfMagnitudes(xs: seq<real>)
    ensures Squares(Magnitudes(xs)) == Squares(xs)
  {
    var a := Squares(Magnitudes(xs));
    forall i | 0 <= i < |xs| ensures a[i] == Squares(xs)[i] {
      var y := Magnitudes(xs)[i];
      assert y == xs[i] || y == -xs[i];
      assert y * y == xs[i] * xs[i];
    }
  }
}
