// Value types shared by every part of the model (agentserve/models.py, agentserve/config.py).
// Milliseconds are reals, token counts are naturals.
module Models {

  datatype Option<+T> = None | Some(value: T)

  datatype CacheTier = GPU | DRAM | MISS

  /** The immutable part of a cached session: everything in CacheEntry but the tier tag. */
  datatype Entry = Entry(session: string, tokens: nat, lastTouch: real, predictedReturn: real) {
    function IdleMs(): real {
      Max(0.0, predictedReturn - lastTouch)
    }
  }

  // Python truth: both a missing and an empty tool name count as "no tool".
  predicate Named(tool: Option<string>) {
    tool.Some? && tool.value != ""
  }

  /** One LLM call and the tool call that follows it. */
  datatype Turn = Turn(prompt: nat, output: nat, tool: Option<string>, toolMs: real) {
    predicate HasTool() {
      Named(tool)
    }

    // What the cache holds once this turn has been served.
    function Total(): nat {
      prompt + output
    }
  }

  datatype SessionTrace = SessionTrace(session: string, arrival: real, turns: seq<Turn>)

  datatype Hardware = Hardware(prefillMs: real, decodeMs: real, restoreMs: real, gpuCap: nat, dramCap: nat) {
    ghost predicate Valid() {
      prefillMs > 0.0 && decodeMs > 0.0 && restoreMs > 0.0 && gpuCap > 0 && dramCap > 0
    }
  }

  datatype PolicyConfig = PolicyConfig(pinMs: real, offloadMs: real, deadMs: real, queueLimit: nat) {
    ghost predicate Valid() {
      0.0 < pinMs < offloadMs && deadMs > 0.0
    }
  }

  datatype PredictorConfig = PredictorConfig(alpha: real, priorMs: real, minObservations: nat) {
    ghost predicate Valid() {
      0.0 < alpha <= 1.0 && priorMs > 0.0 && minObservations >= 1
    }
  }

  datatype ClusterConfig = ClusterConfig(replicas: nat, hw: Hardware, policy: PolicyConfig,
                                         predictor: PredictorConfig) {
    // What load_settings enforces before a cluster is built.
    ghost predicate Valid() {
      replicas >= 1 && hw.Valid() && policy.Valid() && predictor.Valid()
    }
  }

  datatype RequestResult = RequestResult(
    session: string, replica: nat, tier: CacheTier, reused: nat, computed: nat,
    prefillMs: real, decodeMs: real, queueMs: real, restoreMs: real) {
    function LatencyMs(): real {
      queueMs + restoreMs + prefillMs + decodeMs
    }

    function TtftMs(): real {
      queueMs + restoreMs + prefillMs
    }

    // Time the replica is busy with this request.
    function ServiceMs(): real {
      restoreMs + prefillMs + decodeMs
    }
  }

  function Max(a: real, b: real): real {
    if a < b then b else a
  }

  // m * y, one y at a time.
  function Times(m: nat, y: real): real {
    if m == 0 then 0.0 else Times(m - 1, y) + y
  }

  lemma {:induction false} TimesIsProduct(m: nat, y: real)
    ensures Times(m, y) == m as real * y
  {
    if m > 0 {
      TimesIsProduct(m - 1, y);
    }
  }

  lemma {:induction false} TimesSplit(m: nat, n: nat, y: real)
    ensures Times(m + n, y) == Times(m, y) + Times(n, y)
  {
    if n > 0 {
      TimesSplit(m, n - 1, y);
    }
  }

  lemma SubsetSize<T>(a: set<T>, b: set<T>)
    requires a <= b
    ensures |a| <= |b|
  {
    assert b == a + (b - a);
  }
}
