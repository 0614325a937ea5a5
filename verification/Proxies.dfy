/** Proxy metadata and the eligibility decision the scheduler relies on
    (packages/archive-core/src/proxy.ts). */
module Proxies {
  import opened Options

  /** A proxy identifier, given by its rank in the `localeCompare(…, "en")` order of identifiers. */
  type ProxyId = nat

  datatype Health = Unknown | Healthy | Degraded | Unhealthy | Cooldown | Disabled

  datatype ProxyMetadata = ProxyMetadata(
    id: ProxyId,
    weight: int,
    priority: int,
    maxConcurrency: int,
    enabled: bool,
    health: Health,
    cooldownUntilMs: Option<int>,
    needsCredential: bool,
    otherFieldsValid: bool)

  const MAXIMUM_WEIGHT := 1000
  const MAXIMUM_PRIORITY := 1000
  const MAXIMUM_CONCURRENCY := 1000

  /** The part of `assertProxyMetadata` that concerns scheduling; the label, host, port, timestamp and
      counter checks are one flag. */
  predicate ValidMetadata(proxy: ProxyMetadata) {
    && 1 <= proxy.weight <= MAXIMUM_WEIGHT
    && 0 <= proxy.priority <= MAXIMUM_PRIORITY
    && 1 <= proxy.maxConcurrency <= MAXIMUM_CONCURRENCY
    && (proxy.enabled <==> proxy.health != Disabled)
    && proxy.otherFieldsValid
  }

  datatype Eligibility =
    | Eligible
    | ConfigInvalid
    | ProxyDisabled
    | CoolingDown
    | HealthcheckFailed
    | SecretMissing

  function GetEligibility(proxy: ProxyMetadata, nowMs: int, credentialAvailable: bool): Eligibility {
    if !ValidMetadata(proxy) then ConfigInvalid
    else if !proxy.enabled || proxy.health == Disabled then ProxyDisabled
    else if proxy.health == Cooldown || (proxy.cooldownUntilMs.Some? && proxy.cooldownUntilMs.value > nowMs) then
      CoolingDown
    else if proxy.health != Healthy then HealthcheckFailed
    else if proxy.needsCredential && !credentialAvailable then SecretMissing
    else Eligible
  }

  predicate DistinctIds(proxies: seq<ProxyMetadata>) {
    forall i, j :: 0 <= i < j < |proxies| ==> proxies[i].id != proxies[j].id
  }

  predicate Weighted(proxies: seq<ProxyMetadata>) {
    forall i :: 0 <= i < |proxies| ==> proxies[i].weight >= 1
  }
}
