// The deterministic cost model (agentserve/backends/simulated.py): what one request costs on a
// replica and what it leaves in the cache.
module Backend {
  import opened Models
  import opened OrderedDict
  import opened Policy
  import Spec = ReplicaSpec
  import opened Replica

  datatype Request = Request(session: string, prompt: nat, output: nat, now: real, predictedReturn: real)

  // No more of the cached transcript is reused than the prompt asks for; a DRAM copy pays a restore.
  function Price(hw: Hardware, id: nat, req: Request, tier: CacheTier, cached: nat, freeAt: real): RequestResult {
    var reused := if tier == MISS then 0 else if cached < req.prompt then cached else req.prompt;
    RequestResult(
      req.session, id, tier, reused, req.prompt - reused,
      (req.prompt - reused) as real * hw.prefillMs,
      req.output as real * hw.decodeMs,
      Max(0.0, freeAt - req.now),
      if tier == DRAM then reused as real * hw.restoreMs else 0.0)
  }

  function Outcome(hw: Hardware, id: nat, st: Spec.State, req: Request): RequestResult {
    var (tier, cached) := Spec.Lookup(st, req.session);
    Price(hw, id, req, tier, cached, st.freeAt)
  }

  // What the request leaves behind: its whole transcript, touched when it completes.
  function Leaves(hw: Hardware, st: Spec.State, req: Request): Entry {
    var r := Outcome(hw, 0, st, req);
    Entry(req.session, req.prompt + req.output, req.now + r.queueMs + r.ServiceMs(), req.predictedReturn)
  }

  // The replica once the request has been costed: a DRAM copy is promoted, the queue is longer.
  function Charge(hw: Hardware, st: Spec.State, req: Request): Spec.State {
    var st1 := if Spec.Lookup(st, req.session).0 == DRAM then Spec.Promote(st, req.session) else st;
    st1.(freeAt := Max(st.freeAt, req.now) + Outcome(hw, 0, st, req).ServiceMs())
  }

  function After(policy: CachePolicy, hw: Hardware, st: Spec.State, req: Request): Spec.State {
    Spec.Store(policy, hw, Charge(hw, st, req), Leaves(hw, st, req))
  }

  method Execute(replica: Replica, req: Request) returns (r: RequestResult)
    requires replica.Valid()
    modifies replica.Repr
    ensures replica.Valid() && fresh(replica.Repr - old(replica.Repr))
    ensures r == Outcome(replica.hw, replica.id, old(replica.View()), req)
    ensures replica.View() == After(replica.policy, replica.hw, old(replica.View()), req)
  {
    ghost var st := replica.View();
    r := Charged(replica, req);
    assert Leaves(replica.hw, st, req)
        == Entry(req.session, req.prompt + req.output, req.now + r.queueMs + r.ServiceMs(), req.predictedReturn);
    replica.Store(req.session, req.prompt + req.output, req.now + r.queueMs + r.ServiceMs(), req.predictedReturn);
  }

  // Everything up to the store: lookup, reuse split, promotion and the queue clock.
  method Charged(replica: Replica, req: Request) returns (r: RequestResult)
    requires replica.Valid()
    modifies replica.Repr
    ensures replica.Valid() && replica.Repr == old(replica.Repr)
    ensures r == Outcome(replica.hw, replica.id, old(replica.View()), req)
    ensures replica.View() == Charge(replica.hw, old(replica.View()), req)
  {
    var tier, cached := replica.Lookup(req.session);
    r := Price(replica.hw, replica.id, req, tier, cached, replica.freeAt);
    var completed := Max(replica.freeAt, req.now) + r.ServiceMs();
    if tier == DRAM {
      replica.PromoteFromDram(req.session);
    }
    replica.OccupyUntil(completed);
  }

  lemma ScaledNonNegative(n: nat, rate: real)
    requires rate >= 0.0
    ensures n as real * rate >= 0.0
    ensures n > 0 && rate > 0.0 ==> n as real * rate > 0.0
  {
  }

  /** Timing of one request: it completes exactly when the replica is free again, it was not served
      before it arrived nor before the replica was free, and no component is negative. */
  lemma ExecuteTiming(policy: CachePolicy, hw: Hardware, id: nat, st: Spec.State, req: Request)
    requires hw.Valid()
    ensures var r := Outcome(hw, id, st, req);
            && req.now + r.LatencyMs() == Max(st.freeAt, req.now) + r.ServiceMs()
            && Leaves(hw, st, req).lastTouch == req.now + r.LatencyMs()
            && r.queueMs >= 0.0 && r.restoreMs >= 0.0 && r.prefillMs >= 0.0
            && r.ServiceMs() >= r.decodeMs == req.output as real * hw.decodeMs >= 0.0
            && (req.output > 0 ==> r.ServiceMs() > 0.0)
            && r.TtftMs() == r.LatencyMs() - r.decodeMs
            && r.reused + r.computed == req.prompt
  {
    var r := Outcome(hw, id, st, req);
    ScaledNonNegative(r.computed, hw.prefillMs);
    ScaledNonNegative(req.output, hw.decodeMs);
    ScaledNonNegative(r.reused, hw.restoreMs);
  }

  // Whatever n tokens cost at a rate.
  function Cost(n: nat, rate: real): real {
    n as real * rate
  }

  lemma CostSplit(m: nat, n: nat, rate: real)
    ensures Cost(m + n, rate) == Cost(m, rate) + Cost(n, rate)
  {
  }

  // The part of a cached transcript that a prompt can use.
  function Usable(cached: nat, prompt: nat): nat {
    if cached < prompt then cached else prompt
  }

  /** Without a copy the whole prompt is prefilled. */
  lemma MissCost(hw: Hardware, id: nat, st: Spec.State, req: Request)
    requires !Has(st.gpu, req.session) && !Has(st.dram, req.session)
    ensures var r := Outcome(hw, id, st, req);
            && r.tier == MISS && r.reused == 0
            && r.ServiceMs() == req.prompt as real * hw.prefillMs + req.output as real * hw.decodeMs
            && r.queueMs == Max(0.0, st.freeAt - req.now)
  {
  }

  /** A copy in GPU memory saves the prefill of what the prompt can use of it. */
  lemma GpuHitSaves(hw: Hardware, id: nat, st: Spec.State, req: Request)
    requires Spec.TwoTier(st) && Has(st.gpu, req.session)
    ensures var r, miss := Outcome(hw, id, st, req),
                           Outcome(hw, id, st.(gpu := Pop(st.gpu, req.session)), req);
            var n := Usable(Get(st.gpu, req.session).tokens, req.prompt);
            && r.tier == GPU && r.reused == n
            && r.ServiceMs() == miss.ServiceMs() - n as real * hw.prefillMs && r.queueMs == miss.queueMs
  {
    var n := Usable(Get(st.gpu, req.session).tokens, req.prompt);
    PopFacts(st.gpu, req.session);
    CostSplit(n, req.prompt - n, hw.prefillMs);
  }

  /** A copy in DRAM costs its restore more than the same copy in GPU memory, and saves its prefill
      over no copy at all. */
  lemma DramHitCosts(hw: Hardware, id: nat, st: Spec.State, req: Request)
    requires Spec.TwoTier(st) && Has(st.dram, req.session)
    ensures var r, hit, miss := Outcome(hw, id, st, req), Outcome(hw, id, Spec.Promote(st, req.session), req),
                                Outcome(hw, id, st.(dram := Pop(st.dram, req.session)), req);
            var n := Usable(Get(st.dram, req.session).tokens, req.prompt);
            && r.tier == DRAM && hit.tier == GPU && miss.tier == MISS && r.reused == hit.reused == n
            && r.ServiceMs() == hit.ServiceMs() + n as real * hw.restoreMs
            && miss.ServiceMs() == hit.ServiceMs() + n as real * hw.prefillMs
            && r.queueMs == hit.queueMs == miss.queueMs
  {
    var s := req.session;
    var n := Usable(Get(st.dram, s).tokens, req.prompt);
    PopFacts(st.dram, s);
    PutFacts(st.gpu, s, Get(st.dram, s));
    CostSplit(n, req.prompt - n, hw.prefillMs);
  }

  /** What a request does to the caches, for any policy. */
  ghost predicate CacheEffect(policy: CachePolicy, hw: Hardware, st: Spec.State, req: Request, st': Spec.State) {
    && Spec.TwoTier(st') && Spec.InBudget(hw, st')
    && Spec.Tally(st') == Spec.Tally(st) + (if Spec.Lookup(st, req.session).0 == MISS then 1 else 0)
    && st'.evictions >= st.evictions
    && (forall x :: st'.Caches(x) ==> x == Leaves(hw, st, req) || (st.Caches(x) && x.session != req.session))
    && (policy.OnRelease(Leaves(hw, st, req)) == Drop ==> !st'.Resident(req.session))
    && st'.pending == st.pending && st'.active == st.active && st'.peakActive == st.peakActive
    && st'.freeAt == Max(st.freeAt, req.now) + Outcome(hw, 0, st, req).ServiceMs()
  }

  lemma ChargeFacts(hw: Hardware, st: Spec.State, req: Request)
    requires Spec.TwoTier(st) && Spec.Tokens(st.dram) <= hw.dramCap
    ensures var st' := Charge(hw, st, req);
            && Spec.TwoTier(st') && Spec.Tokens(st'.dram) <= hw.dramCap
            && Spec.Tally(st') == Spec.Tally(st) && st'.evictions == st.evictions
            && (forall x :: st'.Caches(x) <==> st.Caches(x))
            && (st'.Resident(req.session) <==> Spec.Lookup(st, req.session).0 != MISS)
            && st'.pending == st.pending && st'.active == st.active && st'.peakActive == st.peakActive
            && st'.freeAt == Max(st.freeAt, req.now) + Outcome(hw, 0, st, req).ServiceMs()
  {
    Spec.PromoteFacts(hw, st, req.session);
  }

  lemma ExecuteCaches(policy: CachePolicy, hw: Hardware, st: Spec.State, req: Request)
    requires Spec.TwoTier(st) && Spec.Tokens(st.dram) <= hw.dramCap
    ensures CacheEffect(policy, hw, st, req, After(policy, hw, st, req))
  {
    ChargeFacts(hw, st, req);
    Spec.StoreKeepsTwoTier(policy, hw, Charge(hw, st, req), Leaves(hw, st, req));
  }
}
