// The discrete-event replay (bench/replay.py) as a state machine on values: one step pops the
// earliest event, routes and serves it, and schedules the session's next turn.
module ReplaySpec {
  import opened Models
  import opened OrderedDict
  import opened Policy
  import opened Backend
  import opened Router
  import opened SessionStore
  import opened ReplayLog
  import Cluster
  import Spec = ReplicaSpec
  import P = Predictor

  datatype Event = Event(at: real, seqNo: nat, s: nat, t: nat)

  datatype RouterState = Rotation(cursor: nat) | Sticky(a: Affinity)

  datatype RunStats = RunStats(
    requests: nat, gpuHits: nat, dramHits: nat, misses: nat, reused: nat, computed: nat,
    ttfts: seq<real>, gpuBusyMs: real)

  const NO_STATS := RunStats(0, 0, 0, 0, 0, 0, [], 0.0)

  // One arm of the experiment. clock(k) is what the wall clock shows to the k-th request.
  datatype Setup = Setup(traces: seq<SessionTrace>, config: ClusterConfig, adaptive: bool, clock: nat -> Clock) {
    ghost predicate Valid() {
      config.Valid() && ValidTraces(traces)
    }

    function ThePolicy(): CachePolicy {
      if adaptive then AdaptiveTtl(config.policy) else Lru
    }

    function TheLimits(): Limits {
      Limits(config.policy.queueLimit, config.hw.gpuCap, DEFAULT_MAX_SESSIONS, DEFAULT_TTL_S)
    }
  }

  datatype World = World(
    replicas: seq<Spec.State>, predictor: P.State, router: RouterState,
    queue: seq<Event>, seqNo: nat, stats: RunStats,
    started: Dict<real>, ended: Dict<real>, log: Log)

  // ---- The event queue -----------------------------------------------------------------

  // Heap order: by time, then by order of insertion.
  predicate Earlier(a: Event, b: Event) {
    if a.at != b.at then a.at < b.at else a.seqNo < b.seqNo
  }

  // Position of the event the heap would pop.
  function First(queue: seq<Event>): (k: nat)
    requires queue != []
    ensures k < |queue|
    ensures forall j :: 0 <= j < |queue| ==> !Earlier(queue[j], queue[k])
  {
    if |queue| == 1 then 0
    else
      var k := First(queue[1..]);
      assert forall j :: 1 <= j < |queue| ==> queue[j] == queue[1..][j - 1];
      if Earlier(queue[k + 1], queue[0]) then k + 1 else 0
  }

  function Arrivals(traces: seq<SessionTrace>): (q: seq<Event>)
    ensures |q| == |traces|
    ensures forall i :: 0 <= i < |traces| ==> q[i] == Event(traces[i].arrival, i, i, 0)
  {
    seq(|traces|, i requires 0 <= i < |traces| => Event(traces[i].arrival, i, i, 0))
  }

  function Init(setup: Setup): World {
    World(seq(setup.config.replicas, _ => Spec.EMPTY), P.Initial(setup.config.predictor),
          if setup.adaptive then Sticky(Affinity([], 0, 0)) else Rotation(0),
          Arrivals(setup.traces), |setup.traces|, NO_STATS, [], [], [])
  }

  // ---- One event -----------------------------------------------------------------------

  ghost predicate Ready(setup: Setup, w: World) {
    && setup.Valid() && w.queue != []
    && (forall i :: 0 <= i < |w.queue| ==>
          w.queue[i].s < |setup.traces| && w.queue[i].t < |setup.traces[w.queue[i].s].turns|)
    && |w.replicas| == setup.config.replicas
    && P.Sound(w.predictor)
    && (setup.adaptive <==> w.router.Sticky?)
  }

  function Pick(w: World): Event
    requires w.queue != []
  {
    w.queue[First(w.queue)]
  }

  function TurnOf(setup: Setup, w: World): Turn
    requires Ready(setup, w)
  {
    setup.traces[Pick(w).s].turns[Pick(w).t]
  }

  function SessionOf(setup: Setup, w: World): string
    requires Ready(setup, w)
  {
    setup.traces[Pick(w).s].session
  }

  // Every replica forgets what it has finished.
  function Cleared(w: World): (rs: seq<Spec.State>)
    requires w.queue != []
    ensures |rs| == |w.replicas|
  {
    Cluster.PrunedAll(w.replicas, Pick(w).at)
  }

  // A returning session reports the length of the tool call it comes from.
  function LearnFrom(c: PredictorConfig, p: P.State, session: string, turns: seq<Turn>, t: nat): (p': P.State)
    requires P.Sound(p) && t < |turns|
    ensures P.Sound(p')
  {
    if t > 0 && turns[t - 1].HasTool() then P.Learn(c, p, session, turns[t - 1].tool, turns[t - 1].toolMs) else p
  }

  function Learned(setup: Setup, w: World): (p: P.State)
    requires Ready(setup, w)
    ensures P.Sound(p)
  {
    LearnFrom(setup.config.predictor, w.predictor, SessionOf(setup, w), setup.traces[Pick(w).s].turns, Pick(w).t)
  }

  function ChooseFrom(lim: Limits, rs: seq<Spec.State>, router: RouterState, session: string, now: real, clock: Clock)
      : (c: (nat, RouterState))
    requires lim.gpuCap > 0 && rs != []
    ensures c.0 < |rs|
  {
    match router
    case Rotation(cursor) => (cursor % |rs|, Rotation(cursor + 1))
    case Sticky(a) => var (k, a') := Route(lim, rs, a, session, now, clock); (k, Sticky(a'))
  }

  function Choose(setup: Setup, w: World): (c: (nat, RouterState))
    requires Ready(setup, w)
    ensures c.0 < |w.replicas|
  {
    ChooseFrom(setup.TheLimits(), Cleared(w), w.router, SessionOf(setup, w), Pick(w).at, setup.clock(|w.log|))
  }

  // What the store answered, for the record.
  function HomeFound(setup: Setup, w: World): Option<int>
    requires Ready(setup, w)
  {
    if w.router.Sticky? then Fetch(w.router.a.home, SessionOf(setup, w), setup.clock(|w.log|).atGet).0 else None
  }

  // Idle time the session is expected to take; a turn without a tool is taken to be its last.
  function GapFrom(c: ClusterConfig, p: P.State, session: string, turn: Turn): real
    requires c.predictor.minObservations >= 1 && P.Sound(p)
  {
    if turn.HasTool() then P.Predict(c.predictor, p, session, turn.tool) else c.policy.deadMs * 2.0
  }

  function AskFrom(p: P.State, turn: Turn): P.State {
    if turn.HasTool() then P.Ask(p, turn.tool) else p
  }

  function GapMs(setup: Setup, w: World): real
    requires Ready(setup, w)
  {
    GapFrom(setup.config, Learned(setup, w), SessionOf(setup, w), TurnOf(setup, w))
  }

  function TheRequest(setup: Setup, w: World): Request
    requires Ready(setup, w)
  {
    var st := Cleared(w)[Choose(setup, w).0];
    Request(SessionOf(setup, w), TurnOf(setup, w).prompt, TurnOf(setup, w).output, Pick(w).at,
            Max(st.freeAt, Pick(w).at) + GapMs(setup, w))
  }

  function TheRecord(setup: Setup, w: World): Served
    requires Ready(setup, w)
  {
    var k := Choose(setup, w).0;
    Served(Pick(w).s, Pick(w).t, Pick(w).at, k, HomeFound(setup, w), GapMs(setup, w),
           Outcome(setup.config.hw, k, Cleared(w)[k], TheRequest(setup, w)))
  }

  function Account(st: RunStats, r: RequestResult): RunStats {
    RunStats(st.requests + 1,
             st.gpuHits + (if r.tier == GPU then 1 else 0),
             st.dramHits + (if r.tier == DRAM then 1 else 0),
             st.misses + (if r.tier == MISS then 1 else 0),
             st.reused + r.reused, st.computed + r.computed,
             st.ttfts + [r.TtftMs()], st.gpuBusyMs + r.ServiceMs())
  }

  // The served replica after the request, its completion queued.
  function Serve(setup: Setup, st: Spec.State, req: Request, done: real): Spec.State {
    var st' := After(setup.ThePolicy(), setup.config.hw, st, req);
    st'.(pending := st'.pending + [done])
  }

  // The session's next turn is due when the tool call is over.
  function NextEvent(trace: SessionTrace, ev: Event, done: real, seqNo: nat): seq<Event>
    requires ev.t < |trace.turns|
  {
    if ev.t + 1 < |trace.turns| then [Event(done + trace.turns[ev.t].toolMs, seqNo, ev.s, ev.t + 1)] else []
  }

  function NextEvents(setup: Setup, w: World, done: real): seq<Event>
    requires Ready(setup, w)
  {
    NextEvent(setup.traces[Pick(w).s], Pick(w), done, w.seqNo)
  }

  function ServedReplicas(setup: Setup, w: World): seq<Spec.State>
    requires Ready(setup, w)
  {
    var x, rs := TheRecord(setup, w), Cleared(w);
    rs[x.rid := Serve(setup, rs[x.rid], TheRequest(setup, w), x.Done())]
  }

  function Step(setup: Setup, w: World): World
    requires Ready(setup, w)
  {
    var x := TheRecord(setup, w);
    var k, session := First(w.queue), SessionOf(setup, w);
    World(
      ServedReplicas(setup, w),
      AskFrom(Learned(setup, w), TurnOf(setup, w)),
      Choose(setup, w).1,
      w.queue[..k] + w.queue[k + 1..] + NextEvents(setup, w, x.Done()),
      w.seqNo + |NextEvents(setup, w, x.Done())|,
      Account(w.stats, x.result),
      if Has(w.started, session) then w.started else Put(w.started, session, x.now),
      Put(w.ended, session, x.Done()),
      w.log + [x])
  }
}
