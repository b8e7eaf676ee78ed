/**
 * The truncated normal distribution's constructors and their error type.
 * A distribution keeps optional lower and upper bounds, a mean and a
 * standard deviation; the constructors only check that the mean lies
 * strictly inside the bounds that are given. Sampling is not modelled.
 */
module RTNorm {
  import opened Wrappers

  /** Why a distribution could not be built. */
  datatype Error = BadBounds | BadVariance

  /** The message the error prints. */
  function Display(e: Error): (msg: string)
    ensures |msg| > 0
  {
    match e
    case BadBounds => "lower >= upper or mean is not between lower and upper"
    case BadVariance => "variation parameter is non-finite in (log)normal distribution"
  }

  /** Different errors print different messages, so the message identifies the error. */
  lemma DisplayInjective(a: Error, b: Error)
    requires Display(a) == Display(b)
    ensures a == b
  {
  }

  datatype TruncatedNormal = TruncatedNormal(lower: Option<real>, upper: Option<real>, mean: real, stdDev: real)

  /** The mean lies strictly between whichever bounds are present. */
  ghost predicate WellOrdered(d: TruncatedNormal)
  {
    (d.lower.Some? ==> d.lower.value < d.mean) &&
    (d.upper.Some? ==> d.mean < d.upper.value)
  }

  /** Truncated on both sides. */
  function New(lower: real, upper: real, mean: real, stdDev: real): (r: Result<TruncatedNormal, Error>)
    ensures r.Ok? <==> lower < mean < upper
    ensures r.Ok? ==> r.value.lower == Some(lower) && r.value.upper == Some(upper)
    ensures r.Ok? ==> r.value.mean == mean && r.value.stdDev == stdDev
    ensures r.Err? ==> r.error == BadBounds
  {
    if lower >= upper || mean <= lower || mean >= upper then
      Err(BadBounds)
    else
      Ok(TruncatedNormal(Some(lower), Some(upper), mean, stdDev))
  }

  /** Truncated from above only. */
  function UpperTruncation(upper: real, mean: real, stdDev: real): (r: Result<TruncatedNormal, Error>)
    ensures r.Ok? <==> mean < upper
    ensures r.Ok? ==> r.value.lower == None && r.value.upper == Some(upper)
    ensures r.Ok? ==> r.value.mean == mean && r.value.stdDev == stdDev
    ensures r.Err? ==> r.error == BadBounds
  {
    if mean >= upper then
      Err(BadBounds)
    else
      Ok(TruncatedNormal(None, Some(upper), mean, stdDev))
  }

  /** Truncated from below only. */
  function LowerTruncation(lower: real, mean: real, stdDev: real): (r: Result<TruncatedNormal, Error>)
    ensures r.Ok? <==> lower < mean
    ensures r.Ok? ==> r.value.lower == Some(lower) && r.value.upper == None
    ensures r.Ok? ==> r.value.mean == mean && r.value.stdDev == stdDev
    ensures r.Err? ==> r.error == BadBounds
  {
    if mean <= lower then
      Err(BadBounds)
    else
      Ok(TruncatedNormal(Some(lower), None, mean, stdDev))
  }

  /** Every distribution a constructor builds has its mean strictly inside its bounds. */
  lemma ConstructorsWellOrdered(lower: real, upper: real, mean: real, stdDev: real)
    ensures New(lower, upper, mean, stdDev).Ok? ==> WellOrdered(New(lower, upper, mean, stdDev).value)
    ensures UpperTruncation(upper, mean, stdDev).Ok? ==> WellOrdered(UpperTruncation(upper, mean, stdDev).value)
    ensures LowerTruncation(lower, mean, stdDev).Ok? ==> WellOrdered(LowerTruncation(lower, mean, stdDev).value)
  {
  }

  /**
   * The two-sided constructor accepts exactly when both one-sided ones do,
   * so its first test (`lower >= upper`) never decides the outcome.
   */
  lemma NewIsBothTruncations(lower: real, upper: real, mean: real, stdDev: real)
    ensures New(lower, upper, mean, stdDev).Ok? <==>
            UpperTruncation(upper, mean, stdDev).Ok? && LowerTruncation(lower, mean, stdDev).Ok?
    ensures New(lower, upper, mean, stdDev).Ok? ==>
            New(lower, upper, mean, stdDev).value ==
            UpperTruncation(upper, mean, stdDev).value.(lower := Some(lower))
  {
  }

  /** The standard deviation is stored but never checked: it cannot cause an error. */
  lemma StdDevUnchecked(lower: real, upper: real, mean: real, sd1: real, sd2: real)
    ensures New(lower, upper, mean, sd1).Ok? == New(lower, upper, mean, sd2).Ok?
    ensures UpperTruncation(upper, mean, sd1).Ok? == UpperTruncation(upper, mean, sd2).Ok?
    ensures LowerTruncation(lower, mean, sd1).Ok? == LowerTruncation(lower, mean, sd2).Ok?
  {
  }
}
