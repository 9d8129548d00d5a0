// Where the adaptive policy keeps sessions: soon-to-return ones on the GPU, the rest in DRAM, and
// never the other way round, however hard the capacity presses.
module Placement {
  import opened Models
  import opened OrderedDict
  import opened Policy
  import opened Backend
  import opened ReplayLog
  import opened ReplaySpec
  import opened Replay
  import opened ReplayCaches
  import RunArm
  import Spec = ReplicaSpec

  ghost predicate PinnedGpu(c: PolicyConfig, d: Dict<Entry>) {
    forall p :: p in d ==> p.1.IdleMs() <= c.pinMs
  }

  ghost predicate ParkedDram(c: PolicyConfig, d: Dict<Entry>) {
    forall p :: p in d ==> c.pinMs < p.1.IdleMs() <= c.offloadMs
  }

  ghost predicate Placed(c: PolicyConfig, st: Spec.State) {
    PinnedGpu(c, st.gpu) && ParkedDram(c, st.dram)
  }

  /** Under pressure a pinned GPU loses entries and DRAM is left alone. */
  lemma PinnedEnforce(c: PolicyConfig, hw: Hardware, st: Spec.State, now: real)
    requires Spec.TwoTier(st) && Spec.Tokens(st.dram) <= hw.dramCap && PinnedGpu(c, st.gpu)
    ensures var st' := Spec.EnforceCapacity(AdaptiveTtl(c), hw, st, now);
            st'.dram == st.dram && st'.offloads == st.offloads && PinnedGpu(c, st'.gpu)
  {
    var policy := AdaptiveTtl(c);
    var k := Spec.EvictionIsMinimalPrefix(policy, hw, st, now);
    var order := policy.VictimOrder(Values(st.gpu), now);
    if Spec.Tokens(st.gpu) > hw.gpuCap {
      Spec.OrderLists(policy, st.gpu, now);
      Spec.PinnedShed(policy, hw, st, order);
      Spec.TrimIsIdle(policy, hw, st, order);
    }
  }

  lemma InstalledParts(c: PolicyConfig, st: Spec.State, e: Entry)
    requires Unique(st.gpu) && !Has(st.dram, e.session)
    requires forall p :: p in st.gpu && p.0 != e.session ==> p.1.IdleMs() <= c.pinMs
    ensures Spec.Install(st, e).dram == st.dram
    ensures Unique(Spec.Install(st, e).gpu)
    ensures e.IdleMs() <= c.pinMs ==> PinnedGpu(c, Spec.Install(st, e).gpu)
    ensures PinnedGpu(c, Pop(Spec.Install(st, e).gpu, e.session))
  {
    PutFacts(st.gpu, e.session, e);
    PopFacts(Spec.Install(st, e).gpu, e.session);
  }

  lemma ParkedPut(c: PolicyConfig, d: Dict<Entry>, e: Entry)
    requires Unique(d) && ParkedDram(c, d) && c.pinMs < e.IdleMs() <= c.offloadMs
    ensures ParkedDram(c, Put(d, e.session, e))
  {
    PutFacts(d, e.session, e);
  }

  lemma InstallPlaced(c: PolicyConfig, hw: Hardware, st: Spec.State, e: Entry)
    requires c.Valid() && Spec.TwoTier(st) && !Has(st.dram, e.session)
    requires ParkedDram(c, st.dram) && forall p :: p in st.gpu && p.0 != e.session ==> p.1.IdleMs() <= c.pinMs
    ensures var st' := Spec.Place(AdaptiveTtl(c), hw, st, e);
            && Placed(c, st')
            && st'.offloads == st.offloads +
                 (if c.pinMs < e.IdleMs() <= c.offloadMs && Spec.Tokens(st.dram) + e.tokens <= hw.dramCap then 1 else 0)
  {
    InstalledParts(c, st, e);
    if c.pinMs < e.IdleMs() <= c.offloadMs {
      ParkedPut(c, st.dram, e);
    }
  }

  // Promotion empties the session's DRAM slot before the store.
  lemma ChargeParts(hw: Hardware, st: Spec.State, req: Request)
    requires Spec.TwoTier(st) && Spec.Tokens(st.dram) <= hw.dramCap
    ensures var st' := Charge(hw, st, req);
            && !Has(st'.dram, req.session)
            && (forall p :: p in st'.dram ==> p in st.dram)
            && (forall p :: p in st'.gpu && p.0 != req.session ==> p in st.gpu)
  {
    PopFacts(st.dram, req.session);
    if Has(st.dram, req.session) {
      PutFacts(st.gpu, req.session, Get(st.dram, req.session));
    }
  }

  /** The placement invariant of the adaptive policy: between requests every GPU entry is expected back
      within the pin threshold and every DRAM entry after it but within the offload threshold. Hence
      pressure never demotes, and the offload counter moves exactly when a store parks its own entry
      in DRAM and there is room. */
  lemma ExecuteKeepsPlacement(c: PolicyConfig, hw: Hardware, st: Spec.State, req: Request)
    requires c.Valid() && Spec.TwoTier(st) && Spec.Tokens(st.dram) <= hw.dramCap && Placed(c, st)
    ensures var st' := After(AdaptiveTtl(c), hw, st, req);
            && Placed(c, st')
            && st'.offloads == st.offloads + (if Parks(c, hw, st, req) then 1 else 0)
  {
    var e, st1 := Leaves(hw, st, req), Charge(hw, st, req);
    ChargeFacts(hw, st, req);
    ChargeParts(hw, st, req);
    Spec.PromoteFacts(hw, st, req.session);
    assert st1.offloads == st.offloads;
    InstallPlaced(c, hw, st1, e);
    Spec.PlaceFacts(AdaptiveTtl(c), hw, st1, e);
    PinnedEnforce(c, hw, Spec.Place(AdaptiveTtl(c), hw, st1, e), e.lastTouch);
  }

  ghost predicate AllPlaced(c: PolicyConfig, rs: seq<Spec.State>) {
    forall r :: 0 <= r < |rs| ==> Placed(c, rs[r])
  }

  lemma PlacedStep(setup: Setup, w: World)
    requires setup.Valid() && Ready(setup, w) && ReplicasOk(setup.config.hw, w.log, w.replicas) && setup.adaptive
    requires AllPlaced(setup.config.policy, w.replicas)
    ensures AllPlaced(setup.config.policy, ServedReplicas(setup, w))
  {
    var x := TheRecord(setup, w);
    assert ReplicaOk(setup.config.hw, w.log, x.rid, w.replicas[x.rid]);
    assert Placed(setup.config.policy, w.replicas[x.rid]);
    ExecuteKeepsPlacement(setup.config.policy, setup.config.hw, Cleared(w)[x.rid], TheRequest(setup, w));
  }

  /** And so at every state of every adaptive run, on every replica. */
  lemma {:induction false} AlwaysPlaced(setup: Setup, ws: seq<World>, i: nat)
    requires IsRun(setup, ws) && setup.adaptive && i < |ws|
    ensures AllPlaced(setup.config.policy, ws[i].replicas)
  {
    if i > 0 {
      AlwaysPlaced(setup, ws, i - 1);
      RunInv(setup, ws, i - 1);
      StepAt(setup, ws, i - 1);
      PlacedStep(setup, ws[i - 1]);
    }
  }

  // ---- Counting offloads ---------------------------------------------------------------

  // Serving this event parks the session's own entry in DRAM, and there is room.
  ghost predicate Parks(c: PolicyConfig, hw: Hardware, st: Spec.State, req: Request) {
    && AdaptiveTtl(c).OnRelease(Leaves(hw, st, req)) == OffloadDram
    && Spec.Tokens(Charge(hw, st, req).dram) + Leaves(hw, st, req).tokens <= hw.dramCap
  }

  ghost predicate ParksAt(setup: Setup, w: World) {
    Ready(setup, w) &&
    Parks(setup.config.policy, setup.config.hw, Cleared(w)[TheRecord(setup, w).rid], TheRequest(setup, w))
  }

  // How many of the first i events did.
  ghost function ParkCount(setup: Setup, ws: seq<World>, i: nat): nat
    requires i <= |ws|
  {
    if i == 0 then 0 else ParkCount(setup, ws, i - 1) + (if ParksAt(setup, ws[i - 1]) then 1 else 0)
  }

  lemma {:induction false} OffloadsUpdate(rs: seq<Spec.State>, rs': seq<Spec.State>, k: nat, d: nat)
    requires |rs| == |rs'| && k <= |rs|
    requires forall i :: 0 <= i < |rs| ==> rs'[i].offloads == rs[i].offloads + (if i == k then d else 0)
    ensures OffloadsAll(rs') == OffloadsAll(rs) + (if k < |rs| then d else 0)
  {
    if rs != [] {
      var n := |rs| - 1;
      OffloadsUpdate(rs[..n], rs'[..n], if k < n then k else n, d);
    }
  }

  lemma {:induction false} NoOffloads(n: nat)
    ensures OffloadsAll(seq(n, _ => Spec.EMPTY)) == 0
  {
    if n > 0 {
      NoOffloads(n - 1);
      assert seq(n, _ => Spec.EMPTY)[..n - 1] == seq(n - 1, _ => Spec.EMPTY);
    }
  }

  lemma OffloadsStep(setup: Setup, w: World)
    requires setup.Valid() && Ready(setup, w) && ReplicasOk(setup.config.hw, w.log, w.replicas) && setup.adaptive
    requires AllPlaced(setup.config.policy, w.replicas)
    ensures OffloadsAll(ServedReplicas(setup, w)) == OffloadsAll(w.replicas) + (if ParksAt(setup, w) then 1 else 0)
  {
    var x, rs' := TheRecord(setup, w), ServedReplicas(setup, w);
    assert ReplicaOk(setup.config.hw, w.log, x.rid, w.replicas[x.rid]);
    assert Placed(setup.config.policy, w.replicas[x.rid]);
    ExecuteKeepsPlacement(setup.config.policy, setup.config.hw, Cleared(w)[x.rid], TheRequest(setup, w));
    OffloadsUpdate(w.replicas, rs', x.rid, if ParksAt(setup, w) then 1 else 0);
  }

  lemma {:induction false} OffloadsAreParks(setup: Setup, ws: seq<World>, i: nat)
    requires IsRun(setup, ws) && setup.adaptive && i < |ws|
    ensures OffloadsAll(ws[i].replicas) == ParkCount(setup, ws, i)
  {
    if i == 0 {
      NoOffloads(setup.config.replicas);
    } else {
      OffloadsAreParks(setup, ws, i - 1);
      AlwaysPlaced(setup, ws, i - 1);
      RunInv(setup, ws, i - 1);
      StepAt(setup, ws, i - 1);
      OffloadsStep(setup, ws[i - 1]);
    }
  }

  /** The offloads an adaptive run reports are exactly the stores that parked their own entry in DRAM:
      no demotion under pressure is among them. */
  lemma ReportedOffloads(setup: Setup, ws: seq<World>)
    requires IsRun(setup, ws) && setup.adaptive
    ensures RunArm.HaveStarted(End(ws)) && RunArm.Report(End(ws)).offloads == ParkCount(setup, ws, |ws| - 1)
  {
    RunArm.RunHasStarted(setup, ws);
    OffloadsAreParks(setup, ws, |ws| - 1);
  }
}
