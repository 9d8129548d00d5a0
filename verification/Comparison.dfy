// Both arms on the same trace (bench/replay.py).
module Comparison {
  import opened Models
  import opened ReplayLog
  import opened ReplaySpec
  import RunArm
  import CalmRuns
  import Replay
  import ReplayCaches
  import ReplayReport
  import RoomyRuns
  import Router
  import SessionStore

  // What is asked of trace, configuration and clock for the adaptive arm to be at its best.
  ghost predicate AtItsBest(setup: Setup) {
    && RoomyRuns.Generous(setup) && CalmRuns.Steady(setup.clock, TotalTurns(setup.traces))
    && |setup.traces| <= SessionStore.DEFAULT_MAX_SESSIONS
    && |setup.traces| <= setup.config.policy.queueLimit + 1
  }

  lemma BothComplete(a: Setup, run: seq<World>, b: Setup, other: seq<World>)
    requires Replay.Finished(a, run) && Replay.Finished(b, other) && a.traces == b.traces
    ensures Replay.End(run).stats.requests == Replay.End(other).stats.requests == TotalTurns(a.traces)
  {
    Replay.BooksBalance(a, run);
    Replay.BooksBalance(b, other);
  }

  lemma BothAboveMinimum(a: Setup, run: seq<World>)
    requires Replay.Finished(a, run) && ReplayCaches.Growing(a.traces) && DistinctSessions(a.traces)
    ensures Replay.End(run).stats.computed >= ReplayCaches.Minimum(a.traces)
  {
    ReplayCaches.ReuseLowerBound(a, run);
  }

  /** compare: both arms serve the whole trace, neither below the minimum, the baseline without a second
      tier or affinity. Where it can be at its best the adaptive arm reaches the minimum, and so
      computes no more than the baseline. */
  method Compare(traces: seq<SessionTrace>, config: ClusterConfig, clock: nat -> Router.Clock)
      returns (baseline: RunArm.ArmResult, treatment: RunArm.ArmResult)
    requires config.Valid() && ValidTraces(traces)
    ensures baseline.stats.requests == treatment.stats.requests == TotalTurns(traces)
    ensures ReplayCaches.Growing(traces) && DistinctSessions(traces) ==>
              && baseline.stats.computed >= ReplayCaches.Minimum(traces)
              && treatment.stats.computed >= ReplayCaches.Minimum(traces)
    ensures baseline.affinityHits == baseline.affinityBreaks == baseline.offloads == baseline.stats.dramHits == 0
    ensures treatment.affinityHits <= treatment.stats.gpuHits + treatment.stats.dramHits
    ensures baseline.evictions <= baseline.stats.misses && treatment.evictions <= treatment.stats.misses
    ensures AtItsBest(Setup(traces, config, true, clock)) ==>
              && treatment.stats.computed == ReplayCaches.Minimum(traces) <= baseline.stats.computed
              && treatment.stats.misses == |traces|
  {
    var b, a := Setup(traces, config, false, clock), Setup(traces, config, true, clock);
    ghost var other, run;
    baseline, other := RunArm.RunArm(b);
    treatment, run := RunArm.RunArm(a);
    BothComplete(a, run, b, other);
    ReplayReport.ReportedCounters(a, run);
    ReplayReport.ReportedCounters(b, other);
    if ReplayCaches.Growing(traces) && DistinctSessions(traces) {
      BothAboveMinimum(a, run);
      BothAboveMinimum(b, other);
    }
    if AtItsBest(a) {
      RoomyRuns.RoomyRunIsOptimal(a, run, b, other);
    }
  }
}
