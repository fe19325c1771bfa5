/** A provider's health as observations, consensus and routing exchange it. */
module Health {
  datatype Status = Healthy | Degraded | Unhealthy | Unknown | Unlisted(name: string)

  datatype ProviderHealth = ProviderHealth(
    providerName: string,
    status: Status,
    availabilityPct: real,
    p95LatencyMs: int,
    contractFailurePct: real,
    lastUpdated: int,
    version: nat)

  /** One node's observation of a provider, as it goes over the bus. */
  datatype Observation = Observation(
    eventID: string,
    nodeID: string,
    provider: string,
    timestamp: int,
    version: nat,
    status: Status,
    availabilityPct: real,
    p95LatencyMs: int,
    contractFailurePct: real)

  predicate IsPercentage(x: real) {
    0.0 <= x <= 100.0
  }

  /** The percentages are percentages. */
  predicate InRange(h: ProviderHealth) {
    IsPercentage(h.availabilityPct) && IsPercentage(h.contractFailurePct)
  }

  predicate Plausible(o: Observation) {
    IsPercentage(o.availabilityPct) && IsPercentage(o.contractFailurePct)
  }
}
