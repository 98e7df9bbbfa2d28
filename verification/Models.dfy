/** Request metadata shared by the queue, the policies and the clipper. */
module Models {
  import opened Wrappers

  datatype RequestClass = Interactive | Batch

  datatype Envelope = Envelope(
    requestId: string,
    sequenceId: nat,
    requestClass: RequestClass,
    arrival: real,
    inputTokens: nat,
    maxOutputTokens: nat,
    deadline: real,
    advertisedCap: Option<nat>,
    promptKind: Option<string>,
    backendMax: Option<nat>,
    forceExact: bool)

  /** What the constructor of an envelope enforces. */
  predicate ValidEnvelope(e: Envelope) {
    && e.requestId != "" && 0.0 <= e.arrival <= e.deadline
    && e.inputTokens >= 1 && e.maxOutputTokens >= 1
    && (e.advertisedCap.Some? ==> e.advertisedCap.value >= 1)
    && (e.backendMax.Some? ==> 1 <= e.backendMax.value <= e.maxOutputTokens)
  }

  /** The max-token value sent to the backend. */
  function EffectiveMax(e: Envelope): nat {
    if e.backendMax.Some? && e.backendMax.value != 0 then e.backendMax.value else e.maxOutputTokens
  }

  predicate ClipApplied(e: Envelope) {
    EffectiveMax(e) < e.maxOutputTokens
  }

  datatype Status = Success | Error | Timeout | Cancelled | Rejected
}
