/** Timeouts and caps: per-type overrides with code defaults, and the retry backoff. */
module Policies {
  import opened Basics

  /** One row of `task_policies`: each column overrides its default independently. */
  datatype Override = Override(
    ackTimeout: Option<real>,
    leaseTtl: Option<real>,
    maxExecution: Option<real>,
    maxAttempts: Option<int>)

  datatype Settings = Settings(
    overrides: map<string, Override>,
    ackTimeout: real,
    leaseTtl: real,
    executionCaps: map<string, real>,
    executionFallback: real,
    maxAttempts: int,
    exclusionWindow: real,
    backoffBase: real,
    backoffFactor: real,
    backoffMax: real,
    disconnectGrace: real)

  /** The bounds under which the retry arithmetic makes sense: nothing negative. */
  predicate Sane(s: Settings) {
    s.backoffBase >= 0.0 && s.backoffFactor >= 0.0 && s.backoffMax >= 0.0
  }

  /** SQL `COALESCE(override, default)`. */
  function Coalesce<T>(override: Option<T>, default: T): T {
    if override.Some? then override.value else default
  }

  function AckTimeout(s: Settings, taskType: string): real {
    if taskType in s.overrides then Coalesce(s.overrides[taskType].ackTimeout, s.ackTimeout) else s.ackTimeout
  }

  /** The per-type lease: used for the first running lease only. */
  function LeaseTtl(s: Settings, taskType: string): real {
    if taskType in s.overrides then Coalesce(s.overrides[taskType].leaseTtl, s.leaseTtl) else s.leaseTtl
  }

  function ExecutionCap(s: Settings, taskType: string): real {
    var default := if taskType in s.executionCaps then s.executionCaps[taskType] else s.executionFallback;
    if taskType in s.overrides then Coalesce(s.overrides[taskType].maxExecution, default) else default
  }

  function MaxAttempts(s: Settings, taskType: string): int {
    if taskType in s.overrides then Coalesce(s.overrides[taskType].maxAttempts, s.maxAttempts) else s.maxAttempts
  }

  /** Full-jitter retry delay: `random() * LEAST(max, base * factor ^ attempt)`. */
  function Backoff(s: Settings, attempt: nat, draw: real): real {
    FullJitter(attempt, s.backoffBase, s.backoffFactor, s.backoffMax, draw)
  }

  /** Whatever the draw and however many attempts, the delay lies in `[0, backoffMax]`. */
  lemma BackoffBounds(s: Settings, attempt: nat, draw: real)
    requires Sane(s)
    requires 0.0 <= draw < 1.0
    ensures 0.0 <= Backoff(s, attempt, draw) <= s.backoffMax
  {
    FullJitterBounds(attempt, s.backoffBase, s.backoffFactor, s.backoffMax, draw);
  }
}
