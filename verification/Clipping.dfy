/** The dispatch-time cap, applied only where the visible length estimate crosses it. */
module Clipping {
  import opened Wrappers
  import opened Models

  datatype ClipError = AdaptiveClippingDisabled | CapNotPositive

  /** The visible length estimate of a request: advertised cap or learned prediction. */
  type Estimator = Envelope -> real

  /** The fixed pre-queue cap. */
  function FixedClip(clipEnabled: bool, clipMax: nat, estimate: Estimator, e: Envelope): Envelope {
    if !clipEnabled || estimate(e) <= clipMax as real || e.maxOutputTokens <= clipMax then e
    else e.(backendMax := Some(clipMax))
  }

  /**
   The fixed clip keeps a fresh request valid and otherwise unchanged, and clips exactly when it is enabled and both
   estimate and target exceed its limit; any other request reaches the queue without a cap.
  */
  lemma FixedClipIsAllowed(clipEnabled: bool, clipMax: nat, estimate: Estimator, e: Envelope)
    requires ValidEnvelope(e) && e.backendMax.None? && clipMax >= 1
    ensures var c, bites := FixedClip(clipEnabled, clipMax, estimate, e),
                            clipEnabled && estimate(e) > clipMax as real && e.maxOutputTokens > clipMax;
            && ValidEnvelope(c) && c.(backendMax := None) == e
            && (ClipApplied(c) <==> bites) && (c.backendMax.None? <==> !bites)
            && EffectiveMax(c) == if bites then clipMax else e.maxOutputTokens
  {
  }

  function ApplyAdaptiveCap(enabled: bool, estimate: Estimator, e: Envelope, cap: Option<int>)
    : Result<Envelope, ClipError>
  {
    if !enabled then Result.Failure(AdaptiveClippingDisabled)
    else if cap.None? then Result.Success(e)
    else if cap.value < 1 then Result.Failure(CapNotPositive)
    else Result.Success(Capped(estimate, e, cap))
  }

  function Capped(estimate: Estimator, e: Envelope, cap: Option<int>): Envelope
    requires cap.Some? ==> cap.value >= 1
  {
    if cap.None? || estimate(e) <= cap.value as real || e.maxOutputTokens <= cap.value then e
    else e.(backendMax := Some(cap.value))
  }

  /**
   Capping keeps the request valid and its identity and target unchanged. From an unclipped request
   the backend limit becomes the target or a cap strictly below it, and a clip is recorded exactly
   when both the estimate and the target exceed a published cap.
   */
  lemma CappedIsAllowed(estimate: Estimator, e: Envelope, cap: Option<int>)
    requires ValidEnvelope(e) && (cap.Some? ==> cap.value >= 1)
    ensures var c := Capped(estimate, e, cap);
            && ValidEnvelope(c) && c.(backendMax := e.backendMax) == e
            && (e.backendMax.None? ==> EffectiveMax(c) == e.maxOutputTokens
                                       || (cap.Some? && EffectiveMax(c) == cap.value < e.maxOutputTokens))
            && (e.backendMax.None? ==>
                (ClipApplied(c) <==> cap.Some? && estimate(e) > cap.value as real && e.maxOutputTokens > cap.value))
  {
  }
}
