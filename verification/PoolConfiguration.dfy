/** The worker-pool configuration (packages/archive-core/src/scheduler.ts:44-123). */
module PoolConfiguration {
  import opened Options

  datatype SelectionPolicy = WeightedRoundRobin | LeastLoaded | Sticky
  datatype ConnectionMode = Direct | SingleProxy | ProxyPool

  datatype Configuration = Configuration(
    globalWorkerConcurrency: nat,
    perProxyWorkerConcurrency: nat,
    perOriginPageConcurrency: nat,
    perOriginMaxInflightRequests: nat,
    perOriginRequestsPerSecond: Option<nat>,
    burstLimit: nat,
    respectRetryAfter: bool,
    retryAfterMaximumMs: nat,
    originCooldownMaximumMs: nat,
    originCooldownFallbackMs: nat,
    temporaryErrorCooldownMs: nat,
    selectionPolicy: SelectionPolicy,
    connectionMode: ConnectionMode)

  const MAX_CONCURRENCY := 256
  const MAX_REQUEST_LIMIT := 100_000
  const MAX_DURATION_MS := 86_400_000

  predicate ValidConfiguration(cfg: Configuration) {
    && 1 <= cfg.globalWorkerConcurrency <= MAX_CONCURRENCY
    && 1 <= cfg.perProxyWorkerConcurrency <= MAX_CONCURRENCY
    && 1 <= cfg.perOriginPageConcurrency <= MAX_CONCURRENCY
    && 1 <= cfg.perOriginMaxInflightRequests <= MAX_REQUEST_LIMIT
    && (cfg.perOriginRequestsPerSecond.Some? ==> 1 <= cfg.perOriginRequestsPerSecond.value <= MAX_REQUEST_LIMIT)
    && 1 <= cfg.burstLimit <= MAX_REQUEST_LIMIT
    && cfg.retryAfterMaximumMs <= MAX_DURATION_MS
    && cfg.originCooldownMaximumMs <= MAX_DURATION_MS
    && cfg.originCooldownFallbackMs <= MAX_DURATION_MS
    && cfg.temporaryErrorCooldownMs <= MAX_DURATION_MS
  }
}
