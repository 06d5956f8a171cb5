/**
 * The alert decision of `update_meme_forecast`: a spike (a rise of at
 * least half the previous positive score) takes precedence over the
 * threshold alert (a score above 75); at most one alert is raised.
 */
module Alerting {
  import opened Wrappers
  import opened Memes

  /** The smallest relative rise that counts as a spike. */
  const SpikeRise: real := 0.5
  /** A score strictly above this raises a threshold alert. */
  const AlertThreshold: real := 75.0

  /** Why an alert was raised; stands for the two formatted reason strings. */
  datatype Reason = Spike(prev: real, score: real) | Threshold(score: real)

  /** A record of the `alerts` collection. */
  datatype Alert = Alert(timestamp: string, memeId: string, reason: Reason)

  /**
   * `meme.get("forecastScore", 0)` as compared with 0: a missing score
   * reads as 0; a null one makes `prev_score > 0` raise, shown as `None`.
   */
  function PreviousScore(f: Field<real>): (r: Option<real>)
    ensures r == None <==> f == Null
    ensures f == Absent ==> r == Some(0.0)
    ensures f.Present? ==> r == Some(f.value)
  {
    match f
    case Absent => Some(0.0)
    case Null => None
    case Present(p) => Some(p)
  }

  /**
   * The spike test as written: `prev > 0 and (score - prev) / prev >= 0.5`;
   * the short circuit keeps the division away from a non-positive divisor.
   */
  predicate IsSpike(prev: real, score: real) {
    prev > 0.0 && (score - prev) / prev >= SpikeRise
  }

  /** The alert raised for a new score against the previous one, if any. */
  function Decide(prev: real, score: real): (r: Option<Reason>)
    ensures r.Some? && r.value.Spike? ==> r.value == Spike(prev, score)
    ensures r.Some? && r.value.Threshold? ==> r.value == Threshold(score) && score > AlertThreshold
  {
    if IsSpike(prev, score) then Some(Spike(prev, score))
    else if score > AlertThreshold then Some(Threshold(score))
    else None
  }

  /** The spike test is the multiplicative one: a positive previous score and a new score at least 1.5 times it. */
  lemma SpikeIsRiseByHalf(prev: real, score: real)
    ensures IsSpike(prev, score) <==> prev > 0.0 && score >= 1.5 * prev
  {
    if prev > 0.0 {
      var q := (score - prev) / prev;
      assert q * prev == score - prev;
      if q >= SpikeRise {
        assert q * prev >= SpikeRise * prev;
      } else {
        assert q * prev < SpikeRise * prev;
      }
    }
  }

  /**
   * The decision, case by case: a spike exactly when the rise is at least
   * half; a threshold alert exactly when there is no spike and the score
   * exceeds 75; no alert otherwise. The two kinds never fire together.
   */
  lemma DecideCases(prev: real, score: real)
    ensures Decide(prev, score) == Some(Spike(prev, score)) <==> prev > 0.0 && score >= 1.5 * prev
    ensures Decide(prev, score) == Some(Threshold(score)) <==>
              !(prev > 0.0 && score >= 1.5 * prev) && score > AlertThreshold
    ensures Decide(prev, score) == None <==>
              !(prev > 0.0 && score >= 1.5 * prev) && score <= AlertThreshold
  {
    SpikeIsRiseByHalf(prev, score);
  }

  /** Without a positive previous score there is never a spike. */
  lemma NoSpikeWithoutPositivePrevious(prev: real, score: real)
    requires prev <= 0.0
    ensures Decide(prev, score) == if score > AlertThreshold then Some(Threshold(score)) else None
  {
  }

  /**
   * What the stored previous score means for the alert: a missing one
   * never allows a spike, so only a score above 75 alerts; a stored value
   * is compared as it is; a null one raises, so no decision is made.
   */
  lemma PreviousScoreDecision(f: Field<real>, score: real)
    ensures f == Absent ==>
              Decide(PreviousScore(f).value, score) == if score > AlertThreshold then Some(Threshold(score)) else None
    ensures f.Present? && f.value <= 0.0 ==>
              Decide(PreviousScore(f).value, score) == if score > AlertThreshold then Some(Threshold(score)) else None
    ensures f.Present? && f.value > 0.0 && score >= 1.5 * f.value ==>
              Decide(PreviousScore(f).value, score) == Some(Spike(f.value, score))
    ensures PreviousScore(f).None? <==> f == Null
  {
    if f.Present? {
      DecideCases(f.value, score);
    }
  }

  /** A higher new score never loses an alert: alerting is monotone in the score. */
  lemma AlertMonotoneInScore(prev: real, score: real, higher: real)
    requires score <= higher && Decide(prev, score).Some?
    ensures Decide(prev, higher).Some?
  {
    SpikeIsRiseByHalf(prev, score);
    SpikeIsRiseByHalf(prev, higher);
  }

  /** Previous score 40, new score 70: a rise of 0.75, a spike. */
  lemma SpikeExample()
    ensures Decide(40.0, 70.0) == Some(Spike(40.0, 70.0))
  {
    assert (70.0 - 40.0) / 40.0 == 0.75;
  }

  /** Previous score 0, new score 80: no spike, but above 75. */
  lemma ThresholdExample()
    ensures Decide(0.0, 80.0) == Some(Threshold(80.0))
  {
  }
}
