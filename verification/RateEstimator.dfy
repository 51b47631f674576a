/** The running estimate of prefill and decode speed (`recordObservedRates` in backend/src/ai/localProvider.ts), in exact reals. */
module RateEstimator {

  const RATE_EWMA_ALPHA := 0.3
  const CHARS_PER_TOKEN_ESTIMATE := 3

  datatype Rates = Rates(prefillMsPerToken: real, decodeMsPerToken: real, sampleCount: nat) {
    predicate Positive() {
      prefillMsPerToken > 0.0 && decodeMsPerToken > 0.0
    }

    /** How much slower a prompt token is than an output token. */
    function Ratio(): real
      requires Positive()
    {
      prefillMsPerToken / decodeMsPerToken
    }

    /** The time predicted for a request of this size. */
    function Predicted(promptTokens: nat, outputTokens: nat): real {
      promptTokens as real * prefillMsPerToken + outputTokens as real * decodeMsPerToken
    }
  }

  /** `Math.max(1, Math.round(chars / CHARS_PER_TOKEN_ESTIMATE))`: the number nearest to a third of the characters, at least one. */
  function Tokens(chars: nat): (tokens: nat)
    ensures chars < 2 ==> tokens == 1
    ensures chars >= 2 ==> 3 * tokens - 1 <= chars <= 3 * tokens + 1
  {
    var rounded := (2 * chars + CHARS_PER_TOKEN_ESTIMATE) / (2 * CHARS_PER_TOKEN_ESTIMATE);
    if rounded < 1 then 1 else rounded
  }

  /** One completed request: its size in characters and the time it took. */
  datatype Observation = Observation(inputChars: nat, outputChars: nat, elapsedMs: real) {
    function PredictedBy(r: Rates): real {
      r.Predicted(Tokens(inputChars), Tokens(outputChars))
    }
  }

  function Blend(current: real, observed: real): real {
    current * (1.0 - RATE_EWMA_ALPHA) + observed * RATE_EWMA_ALPHA
  }

  function Scaled(r: Rates, scale: real): Rates {
    Rates(Blend(r.prefillMsPerToken, r.prefillMsPerToken * scale), Blend(r.decodeMsPerToken, r.decodeMsPerToken * scale), r.sampleCount + 1)
  }

  /** What one observation makes of positive rates; a time that is not positive is discarded. */
  function Observed(r: Rates, o: Observation): Rates
    requires r.Positive()
  {
    if o.elapsedMs <= 0.0 then r
    else
      PredictionIsPositive(r, Tokens(o.inputChars), Tokens(o.outputChars));
      Scaled(r, o.elapsedMs / o.PredictedBy(r))
  }

  lemma ProductIsPositive(a: real, b: real)
    requires a > 0.0 && b > 0.0
    ensures a * b > 0.0
  {
  }

  lemma PredictionIsPositive(r: Rates, promptTokens: nat, outputTokens: nat)
    requires r.Positive() && promptTokens >= 1 && outputTokens >= 1
    ensures r.Predicted(promptTokens, outputTokens) > 0.0
  {
    ProductIsPositive(promptTokens as real, r.prefillMsPerToken);
    ProductIsPositive(outputTokens as real, r.decodeMsPerToken);
  }

  class Estimator {
    var rates: Rates

    constructor (prefillMsPerToken: real, decodeMsPerToken: real)
      ensures rates == Rates(prefillMsPerToken, decodeMsPerToken, 0)
    {
      rates := Rates(prefillMsPerToken, decodeMsPerToken, 0);
    }

    method RecordObservedRates(inputChars: nat, outputChars: nat, elapsedMs: real)
      requires rates.Positive()
      modifies this
      ensures rates == Observed(old(rates), Observation(inputChars, outputChars, elapsedMs))
      ensures rates.Positive()
    {
      if elapsedMs <= 0.0 {
        return;
      }
      ghost var o := Observation(inputChars, outputChars, elapsedMs);
      ObservationKeepsRatio(rates, o);
      PredictionIsPositive(rates, Tokens(inputChars), Tokens(outputChars));
      var predictedTotal := rates.Predicted(Tokens(inputChars), Tokens(outputChars));
      assert predictedTotal == o.PredictedBy(rates);
      if predictedTotal <= 0.0 {
        return;
      }
      QuotientIsPositive(elapsedMs, predictedTotal);
      var scale := elapsedMs / predictedTotal;
      if scale <= 0.0 {
        return;
      }
      rates := Scaled(rates, scale);
    }
  }

  // ---- One observation ----

  /** The factor by which an observation multiplies both rates. */
  function Factor(scale: real): real {
    1.0 - RATE_EWMA_ALPHA + scale * RATE_EWMA_ALPHA
  }

  lemma BlendIsFactor(x: real, scale: real)
    ensures Blend(x, x * scale) == x * Factor(scale)
  {
  }

  lemma BlendIs(current: real, observed: real)
    ensures Blend(current, observed) == 0.7 * current + 0.3 * observed
  {
  }

  lemma FactorIs(scale: real)
    ensures Factor(scale) == 0.7 + 0.3 * scale
  {
  }

  lemma QuotientIsPositive(a: real, b: real)
    requires a > 0.0 && b > 0.0
    ensures a / b > 0.0 && (a / b) * b == a
  {
  }

  lemma QuotientIs(a: real, b: real, q: real)
    requires b > 0.0 && q * b == a
    ensures a / b == q
  {
  }

  lemma RatioKeeps(x: real, y: real, f: real)
    requires x > 0.0 && y > 0.0 && f > 0.0
    ensures x * f > 0.0 && y * f > 0.0 && (x * f) / (y * f) == x / y
  {
    ProductIsPositive(x, f);
    ProductIsPositive(y, f);
    QuotientIsPositive(x, y);
    var q := x / y;
    assert q * (y * f) == (q * y) * f;
    QuotientIs(x * f, y * f, q);
  }

  /** Both rates are multiplied by the same positive factor, so they stay positive in the same ratio. */
  lemma ObservationKeepsRatio(r: Rates, o: Observation)
    requires r.Positive()
    ensures Observed(r, o).Positive() && Observed(r, o).Ratio() == r.Ratio()
  {
    if o.elapsedMs > 0.0 {
      PredictionIsPositive(r, Tokens(o.inputChars), Tokens(o.outputChars));
      var scale := o.elapsedMs / o.PredictedBy(r);
      QuotientIsPositive(o.elapsedMs, o.PredictedBy(r));
      BlendIsFactor(r.prefillMsPerToken, scale);
      BlendIsFactor(r.decodeMsPerToken, scale);
      RatioKeeps(r.prefillMsPerToken, r.decodeMsPerToken, Factor(scale));
    }
  }

  lemma FactorOut(p: real, x: real, o: real, y: real, f: real)
    ensures p * (x * f) + o * (y * f) == (p * x + o * y) * f
  {
  }

  /** The prediction for a request of the observed size moves exactly 30 percent of the way to the observed time. */
  lemma PredictionMoves(r: Rates, o: Observation)
    requires r.Positive() && o.elapsedMs > 0.0
    ensures o.PredictedBy(Observed(r, o)) == Blend(o.PredictedBy(r), o.elapsedMs) == 0.7 * o.PredictedBy(r) + 0.3 * o.elapsedMs
  {
    BlendIs(o.PredictedBy(r), o.elapsedMs);
    PredictionIsPositive(r, Tokens(o.inputChars), Tokens(o.outputChars));
    var predicted := o.PredictedBy(r);
    var scale := o.elapsedMs / predicted;
    QuotientIsPositive(o.elapsedMs, predicted);
    BlendIsFactor(r.prefillMsPerToken, scale);
    BlendIsFactor(r.decodeMsPerToken, scale);
    FactorOut(Tokens(o.inputChars) as real, r.prefillMsPerToken, Tokens(o.outputChars) as real, r.decodeMsPerToken, Factor(scale));
    assert o.PredictedBy(Observed(r, o)) == predicted * Factor(scale);
    assert predicted * Factor(scale) == Blend(predicted, predicted * scale) by { BlendIsFactor(predicted, scale); }
  }

  /** What one observation makes of the rates, written out; `p` and `q` are the tokens of the prompt and of the output. */
  lemma ObservedExact(r: Rates, o: Observation, p: nat, q: nat)
    requires r.Positive() && o.elapsedMs > 0.0 && p == Tokens(o.inputChars) && q == Tokens(o.outputChars)
    ensures var total := p as real * r.prefillMsPerToken + q as real * r.decodeMsPerToken;
            && total > 0.0
            && Observed(r, o).prefillMsPerToken == r.prefillMsPerToken * (0.7 + 0.3 * (o.elapsedMs / total))
            && Observed(r, o).decodeMsPerToken == r.decodeMsPerToken * (0.7 + 0.3 * (o.elapsedMs / total))
            && Observed(r, o).sampleCount == r.sampleCount + 1
  {
    PredictionIsPositive(r, p, q);
    var scale := o.elapsedMs / o.PredictedBy(r);
    FactorIs(scale);
    BlendIsFactor(r.prefillMsPerToken, scale);
    BlendIsFactor(r.decodeMsPerToken, scale);
    assert Observed(r, o) == Scaled(r, scale);
  }

  // ---- Any sequence of observations ----

  function AfterAll(r: Rates, observations: seq<Observation>): Rates
    requires r.Positive()
    decreases |observations|
  {
    if observations == [] then r
    else
      ObservationKeepsRatio(r, observations[0]);
      AfterAll(Observed(r, observations[0]), observations[1..])
  }

  /** Over any sequence of observations both rates stay positive and their ratio never changes. */
  lemma {:induction false} RatioNeverChanges(r: Rates, observations: seq<Observation>)
    requires r.Positive()
    ensures AfterAll(r, observations).Positive() && AfterAll(r, observations).Ratio() == r.Ratio()
    decreases |observations|
  {
    if observations != [] {
      ObservationKeepsRatio(r, observations[0]);
      RatioNeverChanges(Observed(r, observations[0]), observations[1..]);
    }
  }

  function Power(b: real, n: nat): real {
    if n == 0 then 1.0 else b * Power(b, n - 1)
  }

  function Repeated(r: Rates, o: Observation, n: nat): Rates
    requires r.Positive()
    decreases n
  {
    if n == 0 then r
    else
      ObservationKeepsRatio(r, o);
      Repeated(Observed(r, o), o, n - 1)
  }

  lemma ErrorShrinks(predicted: real, elapsed: real)
    ensures Blend(predicted, elapsed) - elapsed == 0.7 * (predicted - elapsed)
  {
  }

  lemma PowerStep(b: real, n: nat, e: real)
    requires n > 0
    ensures Power(b, n - 1) * (b * e) == Power(b, n) * e
  {
  }

  /** Predictions that move 30 percent of the way to `elapsed`, `n` times. */
  function Approaching(predicted: real, elapsed: real, n: nat): real
    decreases n
  {
    if n == 0 then predicted else Approaching(Blend(predicted, elapsed), elapsed, n - 1)
  }

  lemma {:induction false} ApproachingContracts(predicted: real, elapsed: real, n: nat)
    ensures Approaching(predicted, elapsed, n) - elapsed == Power(0.7, n) * (predicted - elapsed)
    decreases n
  {
    if n > 0 {
      ApproachingContracts(Blend(predicted, elapsed), elapsed, n - 1);
      ErrorShrinks(predicted, elapsed);
      PowerStep(0.7, n, predicted - elapsed);
    }
  }

  lemma {:induction false} PredictionsApproach(r: Rates, o: Observation, n: nat)
    requires r.Positive() && o.elapsedMs > 0.0
    ensures o.PredictedBy(Repeated(r, o, n)) == Approaching(o.PredictedBy(r), o.elapsedMs, n)
    decreases n
  {
    if n > 0 {
      ObservationKeepsRatio(r, o);
      PredictionMoves(r, o);
      PredictionsApproach(Observed(r, o), o, n - 1);
    }
  }

  /** After `n` observations of requests of one size taking one time, the error of the prediction is exactly 0.7^n times what it was. */
  lemma ErrorContracts(r: Rates, o: Observation, n: nat, before: real, after: real)
    requires r.Positive() && o.elapsedMs > 0.0
    requires before == o.PredictedBy(r) && after == o.PredictedBy(Repeated(r, o, n))
    ensures after - o.elapsedMs == Power(0.7, n) * (before - o.elapsedMs)
  {
    PredictionsApproach(r, o, n);
    ApproachingContracts(before, o.elapsedMs, n);
  }
}
