// What a run reports, in terms of the record it leaves: the counters, the busy time and the jobs.
module ReplayReport {
  import opened Models
  import opened OrderedDict
  import opened Policy
  import opened Backend
  import opened ReplayLog
  import opened ReplaySpec
  import opened Replay
  import opened ReplayCaches
  import opened SingleCopy
  import Router
  import RunArm
  import SessionStore
  import Timing = ReplayTiming
  import Spec = ReplicaSpec

  // ---- Counting the record -------------------------------------------------------------

  // Where in the record the requests answered from a tier are.
  ghost function Places(log: Log, tier: CacheTier): set<nat> {
    set i | 0 <= i < |log| && log[i].result.tier == tier
  }

  lemma PlacesAppend(log: Log, x: Served, tier: CacheTier)
    ensures |Places(log + [x], tier)| == |Places(log, tier)| + (if x.result.tier == tier then 1 else 0)
  {
    var all := log + [x];
    forall i ensures i in Places(all, tier) <==> i in Places(log, tier) || (i == |log| && x.result.tier == tier) {
      if 0 <= i < |log| {
        assert all[i] == log[i];
      }
    }
    assert Places(all, tier) == Places(log, tier) + (if x.result.tier == tier then {|log|} else {});
  }

  lemma {:induction false} TiersOf(log: Log)
    ensures StatsOf(log).gpuHits == |Places(log, GPU)|
    ensures StatsOf(log).dramHits == |Places(log, DRAM)|
    ensures StatsOf(log).misses == |Places(log, MISS)|
    ensures StatsOf(log).requests == |log|
  {
    if log != [] {
      var front, x := log[..|log| - 1], log[|log| - 1];
      TiersOf(front);
      assert log == front + [x];
      PlacesAppend(front, x, GPU);
      PlacesAppend(front, x, DRAM);
      PlacesAppend(front, x, MISS);
    }
  }

  /** When the first token of a request appears: its latency less the time its answer takes. */
  function FirstTokenMs(hw: Hardware, turn: Turn, x: Served): real {
    x.Done() - x.now - turn.output as real * hw.decodeMs
  }

  lemma {:induction false} FirstTokensOf(traces: seq<SessionTrace>, n: nat, hw: Hardware, log: Log)
    requires WellFormed(traces, n, hw, log)
    ensures |StatsOf(log).ttfts| == |log|
    ensures forall i :: 0 <= i < |log| ==>
              && log[i].s < |traces| && log[i].t < |traces[log[i].s].turns|
              && StatsOf(log).ttfts[i] == FirstTokenMs(hw, traces[log[i].s].turns[log[i].t], log[i])
  {
    if log != [] {
      var front, x := log[..|log| - 1], log[|log| - 1];
      WellFormedFront(traces, n, hw, log);
      FirstTokensOf(traces, n, hw, front);
      assert x.result.TtftMs() == FirstTokenMs(hw, traces[x.s].turns[x.t], x);
    }
  }

  /** The counters of every state of every run, read off its record: requests by the tier that answered
      them, and for each the time to its first token. */
  lemma CountersAreCounts(setup: Setup, ws: seq<World>, i: nat)
    requires IsRun(setup, ws) && i < |ws|
    ensures var log, st := ws[i].log, ws[i].stats;
            && st.requests == |log| == i
            && st.gpuHits == |Places(log, GPU)| && st.dramHits == |Places(log, DRAM)|
            && st.misses == |Places(log, MISS)|
            && |st.ttfts| == |log|
            && forall j :: 0 <= j < |log| ==>
                 && log[j].s < |setup.traces| && log[j].t < |setup.traces[log[j].s].turns|
                 && st.ttfts[j] == FirstTokenMs(setup.config.hw, setup.traces[log[j].s].turns[log[j].t], log[j])
  {
    RunInv(setup, ws, i);
    TiersOf(ws[i].log);
    FirstTokensOf(setup.traces, setup.config.replicas, setup.config.hw, ws[i].log);
  }

  // ---- Busy time -----------------------------------------------------------------------

  // Tokens restored from DRAM, and tokens answered.
  function Restored(log: Log): nat {
    if log == [] then 0
    else Restored(log[..|log| - 1]) + (if log[|log| - 1].result.tier == DRAM then log[|log| - 1].result.reused else 0)
  }

  function OutputOf(traces: seq<SessionTrace>, s: nat, t: nat): nat {
    if s < |traces| && t < |traces[s].turns| then traces[s].turns[t].output else 0
  }

  function OutputAt(traces: seq<SessionTrace>): (nat, nat) -> int {
    (s: nat, t: nat) => OutputOf(traces, s, t)
  }

  function Answered(traces: seq<SessionTrace>, log: Log): nat {
    if log == [] then 0
    else Answered(traces, log[..|log| - 1]) + OutputOf(traces, log[|log| - 1].s, log[|log| - 1].t)
  }

  lemma {:induction false} AnsweredIsSum(traces: seq<SessionTrace>, log: Log)
    ensures Answered(traces, log) == LogSum(log, OutputAt(traces))
  {
    if log != [] {
      AnsweredIsSum(traces, log[..|log| - 1]);
    }
  }

  // Every request of a record costs what its tier says.
  ghost predicate AllPriced(traces: seq<SessionTrace>, hw: Hardware, log: Log) {
    forall i :: 0 <= i < |log| ==> IsPriced(traces, hw, log[i])
  }

  ghost predicate IsPriced(traces: seq<SessionTrace>, hw: Hardware, x: Served) {
    x.s < |traces| && x.t < |traces[x.s].turns| && PricedByTier(hw, traces[x.s].turns[x.t], x.result)
  }

  lemma OutcomePriced(hw: Hardware, id: nat, st: Spec.State, req: Request, turn: Turn)
    requires req.prompt == turn.prompt && req.output == turn.output
    ensures PricedByTier(hw, turn, Outcome(hw, id, st, req))
  {
  }

  /** Every request of every run, in either arm, costs exactly what the tier that answered it says. */
  lemma RequestsArePriced(setup: Setup, ws: seq<World>)
    requires IsRun(setup, ws)
    ensures AllPriced(setup.traces, setup.config.hw, End(ws).log)
  {
    RunShape(setup, ws, |ws| - 1);
    forall i | 0 <= i < |End(ws).log| ensures IsPriced(setup.traces, setup.config.hw, End(ws).log[i]) {
      RecordAt(setup, ws, i);
      RecordPriced(setup, ws[i]);
    }
  }

  lemma RecordPriced(setup: Setup, w: World)
    requires setup.Valid() && Ready(setup, w)
    ensures IsPriced(setup.traces, setup.config.hw, TheRecord(setup, w))
  {
    var x := TheRecord(setup, w);
    OutcomePriced(setup.config.hw, x.rid, Cleared(w)[x.rid], TheRequest(setup, w), TurnOf(setup, w));
  }

  lemma ServicePriced(traces: seq<SessionTrace>, hw: Hardware, x: Served)
    requires IsPriced(traces, hw, x)
    ensures var r := x.result;
            r.ServiceMs() == Times(r.computed, hw.prefillMs)
                             + Times(OutputOf(traces, x.s, x.t), hw.decodeMs)
                             + Times(if r.tier == DRAM then r.reused else 0, hw.restoreMs)
  {
    TimesIsProduct(x.result.computed, hw.prefillMs);
    TimesIsProduct(OutputOf(traces, x.s, x.t), hw.decodeMs);
    TimesIsProduct(x.result.reused, hw.restoreMs);
  }

  // One more request on top of a busy time that is the price of its tokens.
  lemma MorePriced(traces: seq<SessionTrace>, hw: Hardware, x: Served, busy: real, computed: nat, answered: nat,
                   restored: nat)
    requires IsPriced(traces, hw, x)
    requires busy == Times(computed, hw.prefillMs) + Times(answered, hw.decodeMs)
                     + Times(restored, hw.restoreMs)
    ensures busy + x.result.ServiceMs()
         == Times(computed + x.result.computed, hw.prefillMs)
            + Times(answered + OutputOf(traces, x.s, x.t), hw.decodeMs)
            + Times(restored + (if x.result.tier == DRAM then x.result.reused else 0), hw.restoreMs)
  {
    ServicePriced(traces, hw, x);
    TimesSplit(computed, x.result.computed, hw.prefillMs);
    TimesSplit(answered, OutputOf(traces, x.s, x.t), hw.decodeMs);
    TimesSplit(restored, if x.result.tier == DRAM then x.result.reused else 0, hw.restoreMs);
  }

  ghost predicate Priced(traces: seq<SessionTrace>, hw: Hardware, log: Log) {
    StatsOf(log).gpuBusyMs == Times(StatsOf(log).computed, hw.prefillMs)
                              + Times(Answered(traces, log), hw.decodeMs)
                              + Times(Restored(log), hw.restoreMs)
  }

  lemma PricedAppend(traces: seq<SessionTrace>, hw: Hardware, log: Log, x: Served)
    requires IsPriced(traces, hw, x) && Priced(traces, hw, log)
    ensures Priced(traces, hw, log + [x])
  {
    assert (log + [x])[..|log|] == log;
    MorePriced(traces, hw, x, StatsOf(log).gpuBusyMs, StatsOf(log).computed, Answered(traces, log), Restored(log));
  }

  lemma {:induction false} BusyIsPriced(traces: seq<SessionTrace>, hw: Hardware, log: Log)
    requires AllPriced(traces, hw, log)
    ensures Priced(traces, hw, log)
  {
    if log != [] {
      var front, x := log[..|log| - 1], log[|log| - 1];
      BusyIsPriced(traces, hw, front);
      PricedAppend(traces, hw, front, x);
      assert log == front + [x];
    }
  }

  // total is the price of so many tokens computed, answered and restored.
  ghost predicate IsPrice(hw: Hardware, total: real, computed: nat, answered: nat, restored: nat) {
    total == computed as real * hw.prefillMs + answered as real * hw.decodeMs + restored as real * hw.restoreMs
  }

  lemma TimesArePrice(hw: Hardware, total: real, computed: nat, answered: nat, restored: nat)
    requires total == Times(computed, hw.prefillMs) + Times(answered, hw.decodeMs) + Times(restored, hw.restoreMs)
    ensures IsPrice(hw, total, computed, answered, restored)
  {
    TimesIsProduct(computed, hw.prefillMs);
    TimesIsProduct(answered, hw.decodeMs);
    TimesIsProduct(restored, hw.restoreMs);
  }

  lemma PriceOf(traces: seq<SessionTrace>, hw: Hardware, log: Log)
    requires AllPriced(traces, hw, log)
    ensures IsPrice(hw, StatsOf(log).gpuBusyMs, StatsOf(log).computed, Answered(traces, log), Restored(log))
  {
    BusyIsPriced(traces, hw, log);
    TimesArePrice(hw, StatsOf(log).gpuBusyMs, StatsOf(log).computed, Answered(traces, log), Restored(log));
  }

  // Everything the trace is answered with.
  function Answers(traces: seq<SessionTrace>): int {
    TraceSum(OutputAt(traces), traces, |traces|)
  }

  lemma AllAnswered(setup: Setup, ws: seq<World>)
    requires Finished(setup, ws)
    ensures Answered(setup.traces, End(ws).log) == Answers(setup.traces)
    ensures End(ws).stats == StatsOf(End(ws).log)
  {
    RunInv(setup, ws, |ws| - 1);
    RunsEnd(setup, ws);
    AnsweredIsSum(setup.traces, End(ws).log);
    CompleteSum(setup.traces, setup.config.replicas, setup.config.hw, End(ws).log, OutputAt(setup.traces));
  }

  /** The busy time a finished run reports is the price of its tokens: every token computed at the
      prefill rate, every token of the trace's answers at the decode rate, every token brought back
      from DRAM at the restore rate, and nothing else. */
  lemma BusyTimeIsPriced(setup: Setup, ws: seq<World>)
    requires Finished(setup, ws)
    ensures Answers(setup.traces) >= 0
    ensures IsPrice(setup.config.hw, End(ws).stats.gpuBusyMs, End(ws).stats.computed, Answers(setup.traces),
                    Restored(End(ws).log))
  {
    AllAnswered(setup, ws);
    RequestsArePriced(setup, ws);
    PriceOf(setup.traces, setup.config.hw, End(ws).log);
  }

  // ---- The baseline arm ----------------------------------------------------------------

  lemma LruStaysOnGpu(hw: Hardware, st: Spec.State, req: Request)
    requires Spec.TwoTier(st) && st.dram == []
    ensures var st' := After(Lru, hw, st, req); st'.dram == [] && st'.offloads == st.offloads
    ensures Outcome(hw, 0, st, req).tier != DRAM
  {
    var e, st1 := Leaves(hw, st, req), Charge(hw, st, req);
    var full := Spec.Place(Lru, hw, st1, e);
    Spec.InstallFacts(hw, st1, e);
    assert full == Spec.Install(st1, e) && full.dram == [];
    if Spec.Tokens(full.gpu) > hw.gpuCap {
      var order := Lru.VictimOrder(Values(full.gpu), e.lastTouch);
      Spec.OrderLists(Lru, full.gpu, e.lastTouch);
      Spec.PinnedShed(Lru, hw, full, order);
      Spec.TrimDone(hw, Spec.Shed(Lru, hw, full, order));
    }
  }

  ghost predicate AllOnGpu(rs: seq<Spec.State>) {
    forall r :: 0 <= r < |rs| ==> rs[r].dram == [] && rs[r].offloads == 0
  }

  lemma OnGpuStep(setup: Setup, w: World, w': World)
    requires setup.Valid() && Ready(setup, w) && ReplicasOk(setup.config.hw, w.log, w.replicas) && !setup.adaptive
    requires w' == Step(setup, w) && AllOnGpu(w.replicas)
    ensures AllOnGpu(w'.replicas) && TheRecord(setup, w).result.tier != DRAM
    ensures w.router.Rotation? && w'.router == Rotation(w.router.cursor + 1)
    ensures TheRecord(setup, w).rid == w.router.cursor % setup.config.replicas
  {
    var x := TheRecord(setup, w);
    assert ReplicaOk(setup.config.hw, w.log, x.rid, w.replicas[x.rid]);
    LruStaysOnGpu(setup.config.hw, Cleared(w)[x.rid], TheRequest(setup, w));
  }

  lemma {:induction false} BaselineStaysOnGpu(setup: Setup, ws: seq<World>, i: nat)
    requires IsRun(setup, ws) && !setup.adaptive && i < |ws|
    ensures AllOnGpu(ws[i].replicas) && ws[i].router == Rotation(i)
  {
    if i > 0 {
      BaselineStaysOnGpu(setup, ws, i - 1);
      RunInv(setup, ws, i - 1);
      StepAt(setup, ws, i - 1);
      OnGpuStep(setup, ws[i - 1], ws[i]);
    }
  }

  /** The baseline arm has no second tier and no memory: whatever the trace, no request is answered
      from DRAM, nothing is offloaded, and the i-th request goes to replica i modulo their number. */
  lemma BaselineHasNoDram(setup: Setup, ws: seq<World>)
    requires IsRun(setup, ws) && !setup.adaptive
    ensures End(ws).stats.dramHits == 0 && Restored(End(ws).log) == 0
    ensures OffloadsAll(End(ws).replicas) == 0
    ensures forall i :: 0 <= i < |End(ws).log| ==> End(ws).log[i].rid == i % setup.config.replicas
  {
    var log := End(ws).log;
    RunShape(setup, ws, |ws| - 1);
    forall i | 0 <= i < |log| ensures log[i].result.tier != DRAM && log[i].rid == i % setup.config.replicas {
      BaselineAt(setup, ws, i);
    }
    CountersAreCounts(setup, ws, |ws| - 1);
    assert Places(log, DRAM) == {};
    NothingRestored(log);
    BaselineStaysOnGpu(setup, ws, |ws| - 1);
    NothingOffloaded(End(ws).replicas);
  }

  lemma BaselineAt(setup: Setup, ws: seq<World>, i: nat)
    requires IsRun(setup, ws) && !setup.adaptive && i + 1 < |ws|
    ensures i < |End(ws).log|
    ensures End(ws).log[i].result.tier != DRAM && End(ws).log[i].rid == i % setup.config.replicas
  {
    BaselineStaysOnGpu(setup, ws, i);
    RunInv(setup, ws, i);
    StepAt(setup, ws, i);
    OnGpuStep(setup, ws[i], ws[i + 1]);
    RecordAt(setup, ws, i);
  }

  lemma {:induction false} NothingRestored(log: Log)
    requires forall i :: 0 <= i < |log| ==> log[i].result.tier != DRAM
    ensures Restored(log) == 0
  {
    if log != [] {
      NothingRestored(log[..|log| - 1]);
    }
  }

  lemma {:induction false} NothingOffloaded(rs: seq<Spec.State>)
    requires AllOnGpu(rs)
    ensures OffloadsAll(rs) == 0
  {
    if rs != [] {
      NothingOffloaded(rs[..|rs| - 1]);
    }
  }

  // ---- Affinity ------------------------------------------------------------------------

  // The home the store names still holds the session that is about to be served.
  ghost predicate AtHome(setup: Setup, w: World) {
    Ready(setup, w) && Router.HomeHolds(w.replicas, HomeFound(setup, w), SessionOf(setup, w))
  }

  // Requests its home has not finished.
  ghost function Ahead(setup: Setup, w: World): nat
    requires AtHome(setup, w)
  {
    |Open(w.log, HomeFound(setup, w).value, Pick(w).at)|
  }

  ghost predicate Hits(setup: Setup, w: World) {
    AtHome(setup, w) && Ahead(setup, w) <= setup.config.policy.queueLimit
  }

  ghost predicate Breaks(setup: Setup, w: World) {
    AtHome(setup, w) && Ahead(setup, w) > setup.config.policy.queueLimit
  }

  lemma AffinityStep(setup: Setup, w: World, w': World)
    requires setup.Valid() && Inv(setup, w) && Ready(setup, w) && setup.adaptive && w' == Step(setup, w)
    ensures w.router.Sticky? && w'.router.Sticky?
    ensures w'.router.a.hits == w.router.a.hits + (if Hits(setup, w) then 1 else 0)
    ensures w'.router.a.breaks == w.router.a.breaks + (if Breaks(setup, w) then 1 else 0)
    ensures Hits(setup, w) ==> TheRecord(setup, w).rid == HomeFound(setup, w).value
    ensures Breaks(setup, w) && setup.config.replicas > 1 ==> TheRecord(setup, w).rid != HomeFound(setup, w).value
  {
    var rs, session, found := Cleared(w), SessionOf(setup, w), HomeFound(setup, w);
    Router.RouteInFields(setup.TheLimits(), rs, w.router.a, session, Pick(w).at, setup.clock(|w.log|));
    assert Router.HomeHolds(rs, found, session) <==> AtHome(setup, w);
    if AtHome(setup, w) {
      QueueDepthIsExact(setup, w, found.value);
    }
  }

  // The first n events of which something holds.
  ghost function Where(p: nat -> bool, n: nat): set<nat> {
    set j | 0 <= j < n && p(j)
  }

  lemma WhereMore(p: nat -> bool, n: nat)
    ensures |Where(p, n + 1)| == |Where(p, n)| + (if p(n) then 1 else 0)
  {
    if p(n) {
      assert Where(p, n + 1) == Where(p, n) + {n};
    } else {
      assert Where(p, n + 1) == Where(p, n);
    }
  }

  ghost function HitAt(setup: Setup, ws: seq<World>): nat -> bool {
    (j: nat) => j < |ws| && Hits(setup, ws[j])
  }

  ghost function BreakAt(setup: Setup, ws: seq<World>): nat -> bool {
    (j: nat) => j < |ws| && Breaks(setup, ws[j])
  }

  lemma NoneYet(setup: Setup, ws: seq<World>)
    requires IsRun(setup, ws) && setup.adaptive
    ensures ws[0].router == Sticky(Router.Affinity([], 0, 0))
    ensures Where(HitAt(setup, ws), 0) == {} && Where(BreakAt(setup, ws), 0) == {}
  {
    assert ws[0] == Init(setup);
  }

  ghost predicate CountersExact(setup: Setup, ws: seq<World>, i: nat, router: RouterState) {
    && router.Sticky? && router.a.hits == |Where(HitAt(setup, ws), i)|
    && router.a.breaks == |Where(BreakAt(setup, ws), i)|
  }

  lemma AffinityNext(setup: Setup, ws: seq<World>, i: nat, j: nat)
    requires IsRun(setup, ws) && setup.adaptive && j == i + 1 < |ws| && CountersExact(setup, ws, i, ws[i].router)
    ensures CountersExact(setup, ws, j, ws[j].router)
  {
    RunInv(setup, ws, i);
    StepAt(setup, ws, i);
    AffinityStep(setup, ws[i], ws[i + 1]);
    WhereMore(HitAt(setup, ws), i);
    WhereMore(BreakAt(setup, ws), i);
  }

  lemma {:induction false} AlwaysExact(setup: Setup, ws: seq<World>, i: nat)
    requires IsRun(setup, ws) && setup.adaptive && i < |ws|
    ensures CountersExact(setup, ws, i, ws[i].router)
  {
    if i == 0 {
      NoneYet(setup, ws);
    } else {
      AlwaysExact(setup, ws, i - 1);
      AffinityNext(setup, ws, i - 1, i);
    }
  }

  /** The two affinity counters are exact in every adaptive run: a hit is a request whose home still
      held it with at most queueLimit others unfinished there, a break one whose home held it with
      more; hits are served at home, and breaks elsewhere if there is anywhere else. */
  lemma AffinityCountersAreExact(setup: Setup, ws: seq<World>, i: nat)
    requires IsRun(setup, ws) && setup.adaptive && i < |ws|
    ensures ws[i].router.Sticky?
    ensures ws[i].router.a.hits == |Where(HitAt(setup, ws), i)|
    ensures ws[i].router.a.breaks == |Where(BreakAt(setup, ws), i)|
    ensures i + 1 < |ws| && Hits(setup, ws[i]) ==> TheRecord(setup, ws[i]).rid == HomeFound(setup, ws[i]).value
    ensures i + 1 < |ws| && Breaks(setup, ws[i]) && setup.config.replicas > 1 ==>
              TheRecord(setup, ws[i]).rid != HomeFound(setup, ws[i]).value
  {
    AlwaysExact(setup, ws, i);
    if i + 1 < |ws| {
      RunInv(setup, ws, i);
      StepAt(setup, ws, i);
      AffinityStep(setup, ws[i], ws[i + 1]);
    }
  }

  // ---- The report ----------------------------------------------------------------------

  // Sessions cached, over all replicas.
  function CachedAll(rs: seq<Spec.State>): nat {
    if rs == [] then 0 else CachedAll(rs[..|rs| - 1]) + |rs[|rs| - 1].gpu| + |rs[|rs| - 1].dram|
  }

  lemma {:induction false} TallyParts(rs: seq<Spec.State>)
    ensures TallyAll(rs) == EvictionsAll(rs) + CachedAll(rs)
  {
    if rs != [] {
      TallyParts(rs[..|rs| - 1]);
    }
  }

  lemma BaselineReport(setup: Setup, ws: seq<World>)
    requires IsRun(setup, ws) && !setup.adaptive && RunArm.HaveStarted(End(ws))
    ensures var r := RunArm.Report(End(ws));
            r.affinityHits == r.affinityBreaks == r.offloads == r.stats.dramHits == 0
  {
    BaselineHasNoDram(setup, ws);
    BaselineStaysOnGpu(setup, ws, |ws| - 1);
  }

  lemma AdaptiveReport(setup: Setup, ws: seq<World>)
    requires IsRun(setup, ws) && setup.adaptive && RunArm.HaveStarted(End(ws))
    ensures var r := RunArm.Report(End(ws));
            && r.affinityHits == |Where(HitAt(setup, ws), |ws| - 1)|
            && r.affinityBreaks == |Where(BreakAt(setup, ws), |ws| - 1)|
            && r.affinityHits <= r.stats.gpuHits + r.stats.dramHits
    ensures Calm(setup, ws) ==>
              var r := RunArm.Report(End(ws));
              r.affinityHits == r.stats.gpuHits + r.stats.dramHits && r.affinityBreaks == 0
  {
    AffinityCountersAreExact(setup, ws, |ws| - 1);
    AffinityHitsAreHits(setup, ws, |ws| - 1);
    if Calm(setup, ws) {
      HitsAreAffinityHits(setup, ws, |ws| - 1);
    }
  }

  /** What an arm reports: the evictions are the misses that are no longer cached, and the affinity
      counters are those of the record, or zero where there is no affinity. */
  lemma ReportedCounters(setup: Setup, ws: seq<World>)
    requires IsRun(setup, ws)
    ensures RunArm.HaveStarted(End(ws))
    ensures var r := RunArm.Report(End(ws));
            && r.stats == End(ws).stats && r.stats.misses == r.evictions + CachedAll(End(ws).replicas)
            && (!setup.adaptive ==> r.affinityHits == r.affinityBreaks == r.offloads == r.stats.dramHits == 0)
            && (setup.adaptive ==>
                  && r.affinityHits == |Where(HitAt(setup, ws), |ws| - 1)| <= r.stats.gpuHits + r.stats.dramHits
                  && r.affinityBreaks == |Where(BreakAt(setup, ws), |ws| - 1)|)
            && (Calm(setup, ws) ==>
                  r.affinityHits == r.stats.gpuHits + r.stats.dramHits && r.affinityBreaks == 0)
  {
    RunArm.RunHasStarted(setup, ws);
    MissesAreConserved(setup, ws, |ws| - 1);
    TallyParts(End(ws).replicas);
    if setup.adaptive {
      AdaptiveReport(setup, ws);
    } else {
      BaselineReport(setup, ws);
    }
  }

  // ---- Jobs ----------------------------------------------------------------------------

  lemma {:induction false} DistinctSize(xs: seq<string>)
    requires forall i, j :: 0 <= i < j < |xs| ==> xs[i] != xs[j]
    ensures |set i | 0 <= i < |xs| :: xs[i]| == |xs|
  {
    if xs != [] {
      var front, x := xs[..|xs| - 1], xs[|xs| - 1];
      DistinctSize(front);
      assert (set i | 0 <= i < |xs| :: xs[i]) == (set i | 0 <= i < |front| :: front[i]) + {x};
    }
  }

  // Everybody who has ended something is a session of the trace.
  lemma {:induction false} EndedAreSessions(traces: seq<SessionTrace>, log: Log, i: nat) returns (s: nat)
    requires forall j :: 0 <= j < |log| ==> log[j].s < |traces|
    requires i < |Ends(traces, log)|
    ensures s < |traces| && traces[s].session == Ends(traces, log)[i].0
    decreases |log|
  {
    var front, x := log[..|log| - 1], log[|log| - 1];
    if i < |Ends(traces, front)| && Ends(traces, front)[i].0 != traces[x.s].session {
      s := EndedAreSessions(traces, front, i);
    } else {
      s := x.s;
    }
  }

  lemma SameSize(xs: seq<string>, ys: seq<string>)
    requires forall i, j :: 0 <= i < j < |xs| ==> xs[i] != xs[j]
    requires forall i, j :: 0 <= i < j < |ys| ==> ys[i] != ys[j]
    requires (forall x :: x in xs ==> x in ys) && (forall y :: y in ys ==> y in xs)
    ensures |xs| == |ys|
  {
    DistinctSize(xs);
    DistinctSize(ys);
    var a, b := set i | 0 <= i < |xs| :: xs[i], set i | 0 <= i < |ys| :: ys[i];
    assert forall x :: x in a <==> x in xs;
    assert forall y :: y in b <==> y in ys;
    assert a == b;
  }

  function Names(traces: seq<SessionTrace>): (r: seq<string>)
    ensures |r| == |traces| && forall s :: 0 <= s < |traces| ==> r[s] == traces[s].session
  {
    seq(|traces|, s requires 0 <= s < |traces| => traces[s].session)
  }

  function Keys<V>(d: Dict<V>): (r: seq<string>)
    ensures |r| == |d| && forall i :: 0 <= i < |d| ==> r[i] == d[i].0
  {
    seq(|d|, i requires 0 <= i < |d| => d[i].0)
  }

  lemma EndedNames(traces: seq<SessionTrace>, ended: Dict<real>)
    requires DistinctSessions(traces) && Unique(ended)
    requires forall i :: 0 <= i < |ended| ==> ended[i].0 in Names(traces)
    requires forall s :: 0 <= s < |traces| ==> Has(ended, traces[s].session)
    ensures |ended| == |traces|
  {
    var xs, ys := Keys(ended), Names(traces);
    forall y | y in ys ensures y in xs {
      assert xs[Index(ended, y)] == y;
    }
    SameSize(xs, ys);
  }

  lemma OneJobEach(setup: Setup, ws: seq<World>)
    requires Finished(setup, ws) && DistinctSessions(setup.traces)
    ensures |End(ws).ended| == |setup.traces| && Unique(End(ws).ended)
  {
    var traces, w := setup.traces, End(ws);
    RunInv(setup, ws, |ws| - 1);
    EndedHaveStarted(traces, w.log, "");
    forall i | 0 <= i < |w.ended| ensures w.ended[i].0 in Names(traces) {
      var s := EndedAreSessions(traces, w.log, i);
      assert Names(traces)[s] == w.ended[i].0;
    }
    forall s | 0 <= s < |traces| ensures Has(w.ended, traces[s].session) {
      JobCompletion(setup, ws, s);
    }
    EndedNames(traces, w.ended);
  }

  /** The job times a finished run reports: one for each session, in the order of the session clocks,
      and each is the latencies of the session's calls plus all its tool calls but the last. */
  lemma ReportedJobs(setup: Setup, ws: seq<World>, s: nat) returns (j: nat)
    requires Finished(setup, ws) && DistinctSessions(setup.traces) && s < |setup.traces|
    ensures RunArm.HaveStarted(End(ws))
    ensures var jobs, turns := RunArm.Report(End(ws)).jobCompletionMs, setup.traces[s].turns;
            && j < |jobs| == |setup.traces| == |End(ws).ended| && End(ws).ended[j].0 == setup.traces[s].session
            && jobs[j] == Timing.Latencies(End(ws).log, s) + Timing.ToolTime(turns, |turns| - 1)
  {
    var w, id := End(ws), setup.traces[s].session;
    RunArm.RunHasStarted(setup, ws);
    JobCompletion(setup, ws, s);
    OneJobEach(setup, ws);
    j := Index(w.ended, id);
  }
}
