// A condition on the trace and the configuration alone under which the adaptive arm is optimal: all
// transcripts fit, affinity is never given up, and no session is expected to stay away for too long.
module RoomyRuns {
  import opened Models
  import opened OrderedDict
  import opened Policy
  import opened Backend
  import opened ReplayLog
  import opened ReplaySpec
  import opened Replay
  import opened ReplayCaches
  import opened SessionStore
  import opened SingleCopy
  import opened CalmRuns
  import P = Predictor
  import Residue
  import Spec = ReplicaSpec

  // ---- Room for everybody --------------------------------------------------------------

  function LastTotal(trace: SessionTrace): nat {
    if trace.turns == [] then 0 else trace.turns[|trace.turns| - 1].Total()
  }

  // The transcripts of the first m sessions, complete.
  function LastTotals(traces: seq<SessionTrace>, m: nat): nat
    requires m <= |traces|
  {
    if m == 0 then 0 else LastTotals(traces, m - 1) + LastTotal(traces[m - 1])
  }

  // An entry of one of the first m sessions, no longer than its complete transcript.
  ghost predicate Small(traces: seq<SessionTrace>, m: nat, e: Entry)
    requires m <= |traces|
  {
    && (exists s :: 0 <= s < m && traces[s].session == e.session)
    && forall s :: 0 <= s < |traces| && traces[s].session == e.session ==> e.tokens <= LastTotal(traces[s])
  }

  ghost predicate AllSmall(traces: seq<SessionTrace>, m: nat, d: Dict<Entry>)
    requires m <= |traces|
  {
    Unique(d) && Spec.KeysMatch(d) && forall p :: p in d ==> Small(traces, m, p.1)
  }

  lemma {:induction false} SmallFits(traces: seq<SessionTrace>, m: nat, d: Dict<Entry>)
    requires m <= |traces| && AllSmall(traces, m, d)
    ensures Spec.Tokens(d) <= LastTotals(traces, m)
  {
    if m == 0 {
      if d != [] {
        Spec.HasAny(d);
        assert false;
      }
    } else {
      var id := traces[m - 1].session;
      PopFacts(d, id);
      Spec.TokensPop(d, id);
      if Has(d, id) {
        assert d[Index(d, id)] in d;
        assert Small(traces, m, Get(d, id));
      }
      SmallPop(traces, m, d);
      SmallFits(traces, m - 1, Pop(d, id));
    }
  }

  lemma SmallPop(traces: seq<SessionTrace>, m: nat, d: Dict<Entry>)
    requires 0 < m <= |traces| && AllSmall(traces, m, d)
    ensures AllSmall(traces, m - 1, Pop(d, traces[m - 1].session))
  {
    var id := traces[m - 1].session;
    PopFacts(d, id);
    forall p | p in Pop(d, id) ensures Small(traces, m - 1, p.1) {
      var s :| 0 <= s < m && traces[s].session == p.1.session;
      assert s < m - 1;
    }
  }

  // ---- One request ---------------------------------------------------------------------

  // What a session leaves can be taken in by either tier as it is.
  ghost predicate HasRoom(hw: Hardware, st: Spec.State, e: Entry) {
    && Spec.Tokens(Put(st.gpu, e.session, e)) <= hw.gpuCap
    && Spec.Tokens(Pop(st.dram, e.session)) + e.tokens <= hw.dramCap
  }

  lemma RoomyPlace(policy: CachePolicy, hw: Hardware, st: Spec.State, e: Entry)
    requires Spec.TwoTier(st) && HasRoom(hw, st, e)
    ensures var st' := Spec.Place(policy, hw, st, e);
            && Spec.Tokens(st'.gpu) <= hw.gpuCap
            && (forall s :: s != e.session && st.Resident(s) ==> st'.Resident(s))
            && (policy.OnRelease(e) != Drop ==> st'.Resident(e.session))
  {
    var full := Spec.Install(st, e);
    PopFacts(st.dram, e.session);
    PutFacts(st.gpu, e.session, e);
    PopFacts(full.gpu, e.session);
    Spec.TokensPop(full.gpu, e.session);
    PutFacts(full.dram, e.session, e);
  }

  /** With room for its entry a request pushes nobody out, and stays unless the policy drops it. */
  lemma RoomyStore(policy: CachePolicy, hw: Hardware, st: Spec.State, e: Entry)
    requires Spec.TwoTier(st) && HasRoom(hw, st, e)
    ensures var st' := Spec.Store(policy, hw, st, e);
            && (forall s :: s != e.session && st.Resident(s) ==> st'.Resident(s))
            && (policy.OnRelease(e) != Drop ==> st'.Resident(e.session))
  {
    RoomyPlace(policy, hw, st, e);
  }

  // ---- Expected soon -------------------------------------------------------------------

  /** No tool call, and no prior guess at one, takes longer than the policy keeps a session for. */
  ghost predicate Brisk(setup: Setup) {
    && setup.config.predictor.priorMs <= setup.config.policy.offloadMs
    && forall s, t :: 0 <= s < |setup.traces| && 0 <= t < |setup.traces[s].turns| - 1 ==>
         setup.traces[s].turns[t].toolMs <= setup.config.policy.offloadMs
  }

  /** Every turn but a session's last calls a tool. */
  ghost predicate ToolsBetween(traces: seq<SessionTrace>) {
    forall s, t :: 0 <= s < |traces| && 0 <= t < |traces[s].turns| - 1 ==> traces[s].turns[t].HasTool()
  }

  ghost predicate Foresees(setup: Setup, p: P.State) {
    P.Within(setup.config.predictor, p, 0.0, setup.config.policy.offloadMs)
  }

  lemma LearnedForesees(setup: Setup, w: World)
    requires setup.Valid() && Ready(setup, w) && Brisk(setup) && Foresees(setup, w.predictor)
    ensures Foresees(setup, Learned(setup, w))
  {
    var ev := Pick(w);
    var turns := setup.traces[ev.s].turns;
    if ev.t > 0 && turns[ev.t - 1].HasTool() {
      P.LearnWithin(setup.config.predictor, w.predictor, SessionOf(setup, w), turns[ev.t - 1].tool,
                    turns[ev.t - 1].toolMs,
                    0.0, setup.config.policy.offloadMs);
    }
  }

  lemma InitForesees(setup: Setup)
    requires setup.Valid() && Brisk(setup)
    ensures Foresees(setup, Init(setup).predictor)
  {
  }

  lemma ForeseesNext(setup: Setup, w: World, w': World)
    requires setup.Valid() && Ready(setup, w) && w' == Step(setup, w) && Brisk(setup) && Foresees(setup, w.predictor)
    ensures Foresees(setup, w'.predictor)
  {
    LearnedForesees(setup, w);
  }

  lemma {:induction false} AlwaysForesees(setup: Setup, ws: seq<World>, i: nat)
    requires IsRun(setup, ws) && Brisk(setup) && i < |ws|
    ensures Foresees(setup, ws[i].predictor)
  {
    if i == 0 {
      InitForesees(setup);
    } else {
      AlwaysForesees(setup, ws, i - 1);
      StepAt(setup, ws, i - 1);
      ForeseesNext(setup, ws[i - 1], ws[i]);
    }
  }

  // The session just served is expected back before the policy would drop it.
  lemma NotDropped(setup: Setup, w: World)
    requires setup.Valid() && Ready(setup, w) && Brisk(setup) && Foresees(setup, w.predictor) && setup.adaptive
    requires TurnOf(setup, w).HasTool()
    ensures var e := Leaves(setup.config.hw, Cleared(w)[TheRecord(setup, w).rid], TheRequest(setup, w));
            setup.ThePolicy().OnRelease(e) != Drop
  {
    var x := TheRecord(setup, w);
    LearnedForesees(setup, w);
    P.PredictWithin(setup.config.predictor, Learned(setup, w), SessionOf(setup, w), TurnOf(setup, w).tool,
                    0.0, setup.config.policy.offloadMs);
    Residue.IdleIsGapLessService(setup, w);
    ExecuteTiming(setup.ThePolicy(), setup.config.hw, x.rid, Cleared(w)[x.rid], TheRequest(setup, w));
  }

  // ---- Nobody is lost ------------------------------------------------------------------

  /** All complete transcripts together fit the GPU of one replica, and its DRAM. */
  ghost predicate Roomy(setup: Setup) {
    LastTotals(setup.traces, |setup.traces|) <= setup.config.hw.gpuCap
    && LastTotals(setup.traces, |setup.traces|) <= setup.config.hw.dramCap
  }

  lemma EarnedIsSmall(traces: seq<SessionTrace>, log: Log, e: Entry)
    requires Growing(traces) && DistinctSessions(traces) && Earned(traces, log, e)
    ensures Small(traces, |traces|, e)
  {
    var s: nat, t: nat :| LeftBy(traces, log, e, s, t);
    TotalsGrow(traces, s, t, |traces[s].turns| - 1);
    assert traces[s].session == e.session;
  }

  lemma CachedIsSmall(traces: seq<SessionTrace>, log: Log, st: Spec.State)
    requires Growing(traces) && DistinctSessions(traces) && Spec.TwoTier(st)
    requires forall e :: st.Caches(e) ==> Earned(traces, log, e)
    ensures AllSmall(traces, |traces|, st.gpu) && AllSmall(traces, |traces|, st.dram)
  {
    forall p | p in st.gpu || p in st.dram ensures Small(traces, |traces|, p.1) {
      assert st.Caches(p.1);
      EarnedIsSmall(traces, log, p.1);
    }
  }

  lemma SmallPut(traces: seq<SessionTrace>, d: Dict<Entry>, e: Entry)
    requires AllSmall(traces, |traces|, d) && Small(traces, |traces|, e)
    ensures AllSmall(traces, |traces|, Put(d, e.session, e))
  {
    PutFacts(d, e.session, e);
  }

  lemma SmallHasRoom(traces: seq<SessionTrace>, hw: Hardware, st: Spec.State, e: Entry)
    requires LastTotals(traces, |traces|) <= hw.gpuCap && LastTotals(traces, |traces|) <= hw.dramCap
    requires AllSmall(traces, |traces|, st.gpu) && AllSmall(traces, |traces|, st.dram) && Small(traces, |traces|, e)
    ensures HasRoom(hw, st, e)
  {
    SmallPut(traces, st.gpu, e);
    SmallFits(traces, |traces|, Put(st.gpu, e.session, e));
    SmallPut(traces, st.dram, e);
    SmallFits(traces, |traces|, Put(st.dram, e.session, e));
    Spec.TokensPut(st.dram, e.session, e);
    Spec.TokensPop(st.dram, e.session);
  }

  // Every session between two of its turns is still cached where it was served last.
  ghost predicate Held(traces: seq<SessionTrace>, log: Log, rs: seq<Spec.State>) {
    forall s :: 0 <= s < |traces| && 0 < Progress(log, s) < |traces[s].turns| ==>
      LastOf(log, s).rid < |rs| && rs[LastOf(log, s).rid].Resident(traces[s].session)
  }

  lemma ClearedIsEarned(setup: Setup, w: World, r: nat)
    requires setup.Valid() && Inv(setup, w) && w.queue != [] && AllEarned(setup.traces, w.log, w.replicas)
    requires r < |w.replicas|
    ensures var st := Cleared(w)[r];
            && Spec.TwoTier(st) && Spec.Tokens(st.dram) <= setup.config.hw.dramCap
            && (forall e :: st.Caches(e) ==> Earned(setup.traces, w.log, e))
            && (forall id :: st.Resident(id) <==> w.replicas[r].Resident(id))
  {
    assert ReplicaOk(setup.config.hw, w.log, r, w.replicas[r]);
    assert forall e :: Cleared(w)[r].Caches(e) <==> w.replicas[r].Caches(e);
  }

  // What the served replica still holds.
  lemma ServedHolds(setup: Setup, w: World)
    requires setup.Valid() && Inv(setup, w) && Ready(setup, w) && AllEarned(setup.traces, w.log, w.replicas)
    requires Growing(setup.traces) && DistinctSessions(setup.traces) && Roomy(setup)
    ensures var x := TheRecord(setup, w);
            var st, st', e := w.replicas[x.rid], ServedReplicas(setup, w)[x.rid],
                              Leaves(setup.config.hw, Cleared(w)[x.rid], TheRequest(setup, w));
            && (forall id :: id != SessionOf(setup, w) && st.Resident(id) ==> st'.Resident(id))
            && (setup.ThePolicy().OnRelease(e) != Drop ==> st'.Resident(SessionOf(setup, w)))
  {
    var x := TheRecord(setup, w);
    var st, req := Cleared(w)[x.rid], TheRequest(setup, w);
    ClearedIsEarned(setup, w, x.rid);
    ServeHolds(setup.traces, setup.ThePolicy(), setup.config.hw, w.log, st, req, x);
  }

  lemma ServeHolds(traces: seq<SessionTrace>, policy: CachePolicy, hw: Hardware, log: Log, st: Spec.State,
                   req: Request, x: Served)
    requires Growing(traces) && DistinctSessions(traces)
    requires LastTotals(traces, |traces|) <= hw.gpuCap && LastTotals(traces, |traces|) <= hw.dramCap
    requires Spec.TwoTier(st) && Spec.Tokens(st.dram) <= hw.dramCap
    requires forall e :: st.Caches(e) ==> Earned(traces, log, e)
    requires x.s < |traces| && x.t < |traces[x.s].turns|
    requires req.session == traces[x.s].session && req.prompt + req.output == traces[x.s].turns[x.t].Total()
    ensures var st', e := After(policy, hw, st, req), Leaves(hw, st, req);
            && (forall id :: id != req.session && st.Resident(id) ==> st'.Resident(id))
            && (policy.OnRelease(e) != Drop ==> st'.Resident(req.session))
  {
    var st1, e := Charge(hw, st, req), Leaves(hw, st, req);
    ChargeKeeps(hw, st, req);
    CachedIsSmall(traces, log, st1);
    TotalsGrow(traces, x.s, x.t, |traces[x.s].turns| - 1);
    assert Small(traces, |traces|, e);
    SmallHasRoom(traces, hw, st1, e);
    RoomyStore(policy, hw, st1, e);
  }

  lemma ChargeKeeps(hw: Hardware, st: Spec.State, req: Request)
    requires Spec.TwoTier(st) && Spec.Tokens(st.dram) <= hw.dramCap
    ensures var st1 := Charge(hw, st, req);
            && Spec.TwoTier(st1) && (forall e :: st1.Caches(e) <==> st.Caches(e))
            && (forall id :: st.Resident(id) ==> st1.Resident(id))
  {
    var st1 := Charge(hw, st, req);
    ChargeFacts(hw, st, req);
    forall id | st.Resident(id) ensures st1.Resident(id) {
      var e := Spec.ResidentCaches(st, id);
      assert st1.Caches(e);
      Spec.CachesIn(st1, e);
    }
  }

  // What holds at every event of a run with room.
  ghost predicate Settling(setup: Setup, w: World) {
    && setup.Valid() && Inv(setup, w) && Ready(setup, w) && Settled(setup, w) && Kept(setup, w)
    && AllEarned(setup.traces, w.log, w.replicas) && Foresees(setup, w.predictor)
    && Held(setup.traces, w.log, w.replicas)
  }

  ghost predicate Generous(setup: Setup) {
    && Growing(setup.traces) && DistinctSessions(setup.traces) && ToolsBetween(setup.traces)
    && Roomy(setup) && Brisk(setup)
  }

  lemma HeldAppend(traces: seq<SessionTrace>, n: nat, hw: Hardware, log: Log, x: Served, rs: seq<Spec.State>,
                   rs': seq<Spec.State>)
    requires Fits(traces, n, hw, log, x) && DistinctSessions(traces) && Held(traces, log, rs)
    requires x.rid < |rs| == |rs'|
    requires forall r, id :: 0 <= r < |rs| && id != traces[x.s].session && rs[r].Resident(id) ==> rs'[r].Resident(id)
    requires x.t + 1 < |traces[x.s].turns| ==> rs'[x.rid].Resident(traces[x.s].session)
    ensures Held(traces, log + [x], rs')
  {
    forall s | 0 <= s < |traces| && 0 < Progress(log + [x], s) < |traces[s].turns|
      ensures LastOf(log + [x], s).rid < |rs'| && rs'[LastOf(log + [x], s).rid].Resident(traces[s].session)
    {
      ProgressAppend(log, x, s);
    }
  }

  lemma OthersStay(setup: Setup, w: World, r: nat, id: string)
    requires Settling(setup, w) && Generous(setup) && r < |w.replicas|
    requires id != SessionOf(setup, w) && w.replicas[r].Resident(id)
    ensures ServedReplicas(setup, w)[r].Resident(id)
  {
    if r == TheRecord(setup, w).rid {
      ServedHolds(setup, w);
    }
  }

  lemma HeldStep(setup: Setup, w: World)
    requires Settling(setup, w) && Generous(setup)
    ensures Held(setup.traces, w.log + [TheRecord(setup, w)], ServedReplicas(setup, w))
  {
    RecordFits(setup, w);
    ServedHolds(setup, w);
    var traces, x, rs' := setup.traces, TheRecord(setup, w), ServedReplicas(setup, w);
    if x.t + 1 < |traces[x.s].turns| {
      NotDropped(setup, w);
    }
    forall r, id | 0 <= r < |w.replicas| && id != traces[x.s].session && w.replicas[r].Resident(id)
      ensures rs'[r].Resident(id)
    {
      OthersStay(setup, w, r, id);
    }
    HeldAppend(traces, setup.config.replicas, setup.config.hw, w.log, x, w.replicas, rs');
  }

  // A returning session finds its transcript.
  lemma ReturnIsHit(setup: Setup, w: World)
    requires Settling(setup, w)
    ensures TheRecord(setup, w).t > 0 ==> TheRecord(setup, w).result.tier != MISS
  {
    RecordFits(setup, w);
    var x := TheRecord(setup, w);
    if x.t > 0 {
      ReplicaAt(setup, w, LastOf(w.log, x.s).rid);
      ResidentIsServed(setup, w, LastOf(w.log, x.s).rid);
    }
  }

  lemma SettlingAt(setup: Setup, ws: seq<World>, i: nat)
    requires Calm(setup, ws) && Generous(setup) && i + 1 < |ws| && Held(setup.traces, ws[i].log, ws[i].replicas)
    ensures Settling(setup, ws[i])
  {
    AlwaysSettled(setup, ws, i);
    RunInv(setup, ws, i);
    KeptAt(setup, ws, i);
    CachesAreEarned(setup, ws, i);
    AlwaysForesees(setup, ws, i);
  }

  lemma LateMissesAppend(log: Log, x: Served)
    requires LateMisses(log) == 0 && (x.t > 0 ==> x.result.tier != MISS)
    ensures LateMisses(log + [x]) == 0
  {
    assert (log + [x])[..|log|] == log;
  }

  lemma InitHeld(setup: Setup)
    ensures Held(setup.traces, Init(setup).log, Init(setup).replicas) && LateMisses(Init(setup).log) == 0
  {
  }

  lemma HeldNext(setup: Setup, w: World, w': World)
    requires Settling(setup, w) && Generous(setup) && w' == Step(setup, w) && LateMisses(w.log) == 0
    ensures Held(setup.traces, w'.log, w'.replicas) && LateMisses(w'.log) == 0
  {
    HeldStep(setup, w);
    ReturnIsHit(setup, w);
    LateMissesAppend(w.log, TheRecord(setup, w));
  }

  lemma {:induction false} AlwaysHeld(setup: Setup, ws: seq<World>, i: nat)
    requires Calm(setup, ws) && Generous(setup) && i < |ws|
    ensures Held(setup.traces, ws[i].log, ws[i].replicas) && LateMisses(ws[i].log) == 0
  {
    if i == 0 {
      InitHeld(setup);
    } else {
      AlwaysHeld(setup, ws, i - 1);
      SettlingAt(setup, ws, i - 1);
      StepAt(setup, ws, i - 1);
      HeldNext(setup, ws[i - 1], ws[i]);
    }
  }

  /** Optimal in advance: on a growing trace with a tool call between any two turns, if the sessions are
      no more than one replica's limit allows for and the store holds, the replay is no longer than a
      mapping lives, all transcripts fit either tier of one replica and no tool call takes longer than
      the offload threshold, then the adaptive arm misses once per session and computes no more tokens
      than any run of the trace, on any cluster, under either router and policy. */
  lemma RoomyRunIsOptimal(a: Setup, run: seq<World>, b: Setup, other: seq<World>)
    requires Finished(a, run) && a.adaptive && Generous(a) && Steady(a.clock, TotalTurns(a.traces))
    requires |a.traces| <= DEFAULT_MAX_SESSIONS && |a.traces| <= a.config.policy.queueLimit + 1
    requires Finished(b, other) && b.traces == a.traces
    ensures End(run).stats.misses == |a.traces|
    ensures End(run).stats.computed == Minimum(a.traces) <= End(other).stats.computed
  {
    CalmInAdvance(a, run);
    AlwaysHeld(a, run, |run| - 1);
    CalmCost(a, run);
    CalmRunIsOptimal(a, run, b, other);
  }

  /** And whatever fits where: if the last turns are short enough to be taken for dead, nothing at all is
      left in any cache at the end. */
  lemma NothingIsLeftInAdvance(setup: Setup, ws: seq<World>)
    requires Finished(setup, ws) && setup.adaptive && DistinctSessions(setup.traces)
    requires Steady(setup.clock, TotalTurns(setup.traces)) && Residue.EndsShort(setup)
    requires |setup.traces| <= DEFAULT_MAX_SESSIONS && |setup.traces| <= setup.config.policy.queueLimit + 1
    ensures forall r :: 0 <= r < |End(ws).replicas| ==> End(ws).replicas[r].gpu == [] && End(ws).replicas[r].dram == []
    ensures EvictionsAll(End(ws).replicas) == End(ws).stats.misses
  {
    CalmInAdvance(setup, ws);
    Residue.QuietInAdvance(setup, ws);
    Residue.CalmRunLeavesNothing(setup, ws);
  }
}
