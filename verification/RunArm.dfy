// The replay loop itself (bench/replay.py): run_arm over mutable replicas, routers and predictor,
// proved to be a run of the state machine in ReplaySpec.
module RunArm {
  import opened Models
  import opened OrderedDict
  import opened Policy
  import opened Backend
  import opened ReplayLog
  import opened ReplaySpec
  import opened Replica
  import Router
  import Cluster
  import SessionStore
  import Replay
  import ReplayCaches
  import Spec = ReplicaSpec
  import P = Predictor

  ghost function RouteOf(lim: Router.Limits, rs: seq<Spec.State>, router: RouterState, session: string, now: real,
                         clock: Router.Clock): (nat, RouterState) {
    if lim.gpuCap > 0 && rs != [] then ChooseFrom(lim, rs, router, session, now, clock) else (0, router)
  }

  // The gap predicted for a turn, and the predictor after learning and asking.
  ghost function ForeseeOf(c: ClusterConfig, p: P.State, session: string, turns: seq<Turn>, t: nat): (real, P.State) {
    if P.Sound(p) && t < |turns| && c.predictor.minObservations >= 1 then
      var p' := LearnFrom(c.predictor, p, session, turns, t);
      (GapFrom(c, p', session, turns[t]), AskFrom(p', turns[t]))
    else (0.0, p)
  }

  /** The router and the predictor kept as values, so that reasoning about the loop need not look inside. */
  datatype Model = Model(
    route: (seq<Spec.State>, RouterState, string, real, Router.Clock) -> (nat, RouterState),
    foresee: (P.State, string, seq<Turn>, nat) -> (real, P.State)) {
    ghost predicate Of(setup: Setup) {
      && (forall rs, router, session, now, clock
            {:trigger RouteOf(setup.TheLimits(), rs, router, session, now, clock)} ::
            RouteOf(setup.TheLimits(), rs, router, session, now, clock) == route(rs, router, session, now, clock))
      && (forall p, session, turns, t {:trigger ForeseeOf(setup.config, p, session, turns, t)} ::
            ForeseeOf(setup.config, p, session, turns, t) == foresee(p, session, turns, t))
    }
  }

  // Both routers; only the arm's own is ever used.
  method BuildRouters(setup: Setup) returns (rotation: Router.RoundRobinRouter, affinity: Router.SessionAffinityRouter)
    ensures fresh(rotation) && fresh(affinity) && fresh(affinity.store)
    ensures rotation.cursor == 0
    ensures affinity.TheLimits() == setup.TheLimits() && affinity.hw == setup.config.hw
    ensures affinity.View() == Router.Affinity([], 0, 0)
  {
    rotation := new Router.RoundRobinRouter();
    var store := new SessionStore.InMemorySessionStore(SessionStore.DEFAULT_MAX_SESSIONS, SessionStore.DEFAULT_TTL_S);
    affinity := new Router.SessionAffinityRouter(setup.config.hw, setup.config.policy.queueLimit, store);
  }

  /** The variables of the loop. log is the history kept for the proof. */
  class Arm {
    const setup: Setup
    const fleet: Cluster.Fleet
    const predictor: P.ToolDurationPredictor
    const rotation: Router.RoundRobinRouter  // used by the baseline arm
    const affinity: Router.SessionAffinityRouter  // used by the adaptive arm
    var queue: seq<Event>
    var seqNo: nat
    var stats: RunStats
    var started: Dict<real>
    var ended: Dict<real>
    ghost var log: Log
    ghost const model: Model

    constructor (setup: Setup, fleet: Cluster.Fleet, predictor: P.ToolDurationPredictor,
                 rotation: Router.RoundRobinRouter, affinity: Router.SessionAffinityRouter)
      requires fleet.Valid() && fleet.Repr !! {predictor, rotation, affinity, affinity.store}
      requires setup.Valid() && |fleet.replicas| == setup.config.replicas
      requires fleet.hw == setup.config.hw && fleet.policy == setup.ThePolicy()
      requires predictor.config == setup.config.predictor
      requires affinity.TheLimits() == setup.TheLimits() && affinity.hw == setup.config.hw
      ensures this.setup == setup && this.fleet == fleet && this.predictor == predictor
      ensures this.rotation == rotation && this.affinity == affinity
      ensures Sound()
      ensures queue == Arrivals(setup.traces) && seqNo == |setup.traces| && stats == NO_STATS
      ensures started == ended == [] && log == []
    {
      this.setup, this.predictor, this.fleet := setup, predictor, fleet;
      this.rotation, this.affinity := rotation, affinity;
      queue, seqNo, stats := Arrivals(setup.traces), |setup.traces|, NO_STATS;
      started, ended, log := [], [], [];
      model := Model((rs, router, session, now, clock) => RouteOf(setup.TheLimits(), rs, router, session, now, clock),
                     (p, session, turns, t: nat) => ForeseeOf(setup.config, p, session, turns, t));
    }

    // Objects besides the replicas.
    function Others(): set<object> {
      {this, predictor, rotation, affinity, affinity.store}
    }

    ghost predicate Sound()
      reads fleet, fleet.Repr
    {
      && fleet.Valid() && fleet.Repr !! Others()
      && model.Of(setup)
      && setup.Valid() && |fleet.replicas| == setup.config.replicas
      && fleet.hw == setup.config.hw && fleet.policy == setup.ThePolicy()
      && predictor.config == setup.config.predictor
      && affinity.TheLimits() == setup.TheLimits() && affinity.hw == setup.config.hw
    }

    ghost function RouterView(): RouterState
      reads rotation, affinity, affinity.store
    {
      if setup.adaptive then Sticky(affinity.View()) else Rotation(rotation.cursor)
    }

    ghost function View(): World
      reads this, fleet, fleet.Repr, predictor, rotation, affinity, affinity.store
      requires Sound()
    {
      World(fleet.Views(), predictor.View(), RouterView(), queue, seqNo, stats, started, ended, log)
    }

    // Learning the last tool call, if the session resumes from one.
    method Learn(session: string, turns: seq<Turn>, t: nat)
      requires Sound() && t < |turns| && P.Sound(predictor.View())
      requires forall i :: 0 <= i < |turns| ==> turns[i].toolMs >= 0.0
      modifies predictor
      ensures Sound() && fleet.Views() == old(fleet.Views()) && RouterView() == old(RouterView())
      ensures predictor.View() == LearnFrom(setup.config.predictor, old(predictor.View()), session, turns, t)
    {
      if t > 0 && turns[t - 1].HasTool() {
        var accepted := predictor.Observe(session, turns[t - 1].tool, turns[t - 1].toolMs);
      }
    }

    method Choose(session: string, now: real, ghost choice: (nat, RouterState)) returns (k: nat)
      requires Sound()
      requires RouterView().Sticky? ==> Unique(RouterView().a.home)
      requires choice == model.route(fleet.Views(), RouterView(), session, now, setup.clock(stats.requests))
      modifies rotation, affinity, affinity.store
      ensures (k, RouterView()) == choice && k < |fleet.replicas|
      ensures Sound() && fleet.Views() == old(fleet.Views()) && predictor.View() == old(predictor.View())
    {
      assert choice == RouteOf(setup.TheLimits(), fleet.Views(), RouterView(), session, now,
                               setup.clock(stats.requests));
      if setup.adaptive {
        k := ChooseSticky(session, now, (choice.0, choice.1.a));
      } else {
        k := ChooseNext();
      }
    }

    method ChooseSticky(session: string, now: real, ghost choice: (nat, Router.Affinity)) returns (k: nat)
      requires Sound() && Unique(affinity.store.home)
      requires choice == Router.Route(setup.TheLimits(), fleet.Views(), affinity.View(), session, now,
                                      setup.clock(stats.requests))
      modifies affinity, affinity.store
      ensures (k, affinity.View()) == choice && k < |fleet.replicas|
      ensures Sound() && fleet.Views() == old(fleet.Views()) && predictor.View() == old(predictor.View())
    {
      var r := affinity.Select(fleet.replicas, session, now, setup.clock(stats.requests));
      k := r.id;
    }

    method ChooseNext() returns (k: nat)
      requires Sound()
      modifies rotation
      ensures k == old(rotation.cursor) % |fleet.replicas| && rotation.cursor == old(rotation.cursor) + 1
      ensures Sound() && fleet.Views() == old(fleet.Views()) && predictor.View() == old(predictor.View())
    {
      var r := rotation.Select(fleet.replicas);
      k := r.id;
    }

    method PredictGap(session: string, turn: Turn) returns (gapMs: real)
      requires Sound() && P.Sound(predictor.View())
      modifies predictor
      ensures Sound() && fleet.Views() == old(fleet.Views()) && RouterView() == old(RouterView())
      ensures gapMs == GapFrom(setup.config, old(predictor.View()), session, turn)
      ensures predictor.View() == AskFrom(old(predictor.View()), turn)
    {
      if turn.HasTool() {
        gapMs := predictor.PredictMs(session, turn.tool);
      } else {
        gapMs := setup.config.policy.deadMs * 2.0;
      }
    }

    // Pruning, learning, routing and prediction: everything before the backend call.
    method Dispatch(session: string, turns: seq<Turn>, t: nat, now: real) returns (k: nat, gapMs: real)
      requires Sound() && t < |turns| && P.Sound(predictor.View())
      requires forall i :: 0 <= i < |turns| ==> turns[i].toolMs >= 0.0
      requires RouterView().Sticky? ==> Unique(RouterView().a.home)
      modifies fleet.Repr, predictor, rotation, affinity, affinity.store
      ensures Sound() && fleet.Repr == old(fleet.Repr)
      ensures k < |fleet.replicas|
      ensures fleet.Views() == Cluster.PrunedAll(old(fleet.Views()), now)
      ensures (k, RouterView()) == model.route(fleet.Views(), old(RouterView()), session, now,
                                               setup.clock(old(stats.requests)))
      ensures (gapMs, predictor.View()) == model.foresee(old(predictor.View()), session, turns, t)
    {
      fleet.Prune(now);
      ghost var choice := model.route(fleet.Views(), RouterView(), session, now, setup.clock(stats.requests));
      ghost var foreseen := ForeseeOf(setup.config, predictor.View(), session, turns, t);
      Learn(session, turns, t);
      k := Choose(session, now, choice);
      gapMs := PredictGap(session, turns[t]);
    }

    // The backend call touches nothing but the fleet.
    method CallBackend(k: nat, req: Request, ghost rs: seq<Spec.State>) returns (r: RequestResult, completed: real)
      requires Sound() && rs == fleet.Views() && k < |rs|
      modifies fleet.Repr
      ensures Sound() && fresh(fleet.Repr - old(fleet.Repr))
      ensures predictor.View() == old(predictor.View()) && RouterView() == old(RouterView())
      ensures r == fleet.model.quote(k, rs[k], req)
      ensures completed == req.now + r.LatencyMs()
      ensures fleet.Views() == rs[k := Cluster.Queued(fleet.model.serve(rs[k], req), completed)]
    {
      r, completed := fleet.Execute(k, req);
    }

    // The request for the chosen replica.
    method Prepare(ev: Event, turns: seq<Turn>, session: string) returns (k: nat, gapMs: real, req: Request)
      requires Sound() && ev.t < |turns| && P.Sound(predictor.View())
      requires forall i :: 0 <= i < |turns| ==> turns[i].toolMs >= 0.0
      requires RouterView().Sticky? ==> Unique(RouterView().a.home)
      modifies fleet.Repr, predictor, rotation, affinity, affinity.store
      ensures Sound() && fleet.Repr == old(fleet.Repr)
      ensures k < |fleet.replicas|
      ensures fleet.Views() == Cluster.PrunedAll(old(fleet.Views()), ev.at)
      ensures (k, RouterView()) == model.route(fleet.Views(), old(RouterView()), session, ev.at,
                                               setup.clock(old(stats.requests)))
      ensures (gapMs, predictor.View()) == model.foresee(old(predictor.View()), session, turns, ev.t)
      ensures req == Request(session, turns[ev.t].prompt, turns[ev.t].output, ev.at,
                             Max(fleet.Views()[k].freeAt, ev.at) + gapMs)
    {
      k, gapMs := Dispatch(session, turns, ev.t, ev.at);
      var provisionalDone := Max(fleet.replicas[k].freeAt, ev.at);
      req := Request(session, turns[ev.t].prompt, turns[ev.t].output, ev.at, provisionalDone + gapMs);
    }

    // The request of the next event, answered.
    method Answer(ev: Event) returns (r: RequestResult, completed: real, ghost x: Served, ghost req: Request)
      requires Sound() && Ready(setup, View()) && Replay.PartsOk(setup, View()) && ev == Pick(View())
      modifies fleet.Repr, predictor, rotation, affinity, affinity.store
      ensures Sound() && fresh(fleet.Repr - old(fleet.Repr))
      ensures Answered(setup, model, fleet.model, old(View()), fleet.Views(), predictor.View(), RouterView(), x, req)
      ensures r == x.result && completed == x.Done()
    {
      ghost var w := View();
      var trace := setup.traces[ev.s];
      var k, gapMs, request := Prepare(ev, trace.turns, trace.session);
      ghost var rs := fleet.Views();
      r, completed := CallBackend(k, request, rs);
      x, req := Served(ev.s, ev.t, ev.at, k, HomeFound(setup, w), gapMs, r), request;
      assert x.Done() == completed;
    }

    /** One turn of the loop. */
    method HandleEvent() returns (ghost x: Served, ghost req: Request)
      requires Sound() && Ready(setup, View()) && Replay.PartsOk(setup, View())
      modifies this, fleet.Repr, predictor, rotation, affinity, affinity.store
      ensures Sound() && fresh(fleet.Repr - old(fleet.Repr))
      ensures Handled(setup, model, fleet.model, old(View()), View(), x, req)
    {
      var i := First(queue);
      var ev := queue[i];
      var r, completed, served, request := Answer(ev);
      x, req := served, request;
      Record(i, ev, setup.traces[ev.s], r, completed, x);
    }

    method Record(i: nat, ev: Event, trace: SessionTrace, r: RequestResult, completed: real, ghost x: Served)
      requires Sound() && i < |queue| && ev == queue[i] && ev.t < |trace.turns|
      modifies this
      ensures Sound() && fleet.Repr == old(fleet.Repr)
      ensures View() == Written(old(View()), i, ev, trace, r, completed, x)
    {
      Book(i, ev, trace, r, completed, x);
    }

    // Everything after the backend call: counters, session clocks, and the next turn.
    method Book(i: nat, ev: Event, trace: SessionTrace, r: RequestResult, completed: real, ghost x: Served)
      requires i < |queue| && ev == queue[i] && ev.t < |trace.turns|
      modifies this
      ensures queue == old(queue[..i] + queue[i + 1..]) + NextEvent(trace, ev, completed, old(seqNo))
      ensures seqNo == old(seqNo) + |NextEvent(trace, ev, completed, old(seqNo))|
      ensures stats == Account(old(stats), r)
      ensures started == if Has(old(started), trace.session) then old(started)
                         else Put(old(started), trace.session, ev.at)
      ensures ended == Put(old(ended), trace.session, completed)
      ensures log == old(log) + [x]
    {
      queue := queue[..i] + queue[i + 1..];
      if !Has(started, trace.session) {
        started := Put(started, trace.session, ev.at);
      }
      stats := Account(stats, r);
      ended := Put(ended, trace.session, completed);
      PushNext(ev, trace, completed);
      log := log + [x];
    }

    // The session's next turn is due when the tool call is over.
    method PushNext(ev: Event, trace: SessionTrace, completed: real)
      requires ev.t < |trace.turns|
      modifies `queue, `seqNo
      ensures queue == old(queue) + NextEvent(trace, ev, completed, old(seqNo))
      ensures seqNo == old(seqNo) + |NextEvent(trace, ev, completed, old(seqNo))|
    {
      if ev.t + 1 < |trace.turns| {
        queue := queue + [Event(completed + trace.turns[ev.t].toolMs, seqNo, ev.s, ev.t + 1)];
        seqNo := seqNo + 1;
      }
    }
  }

  // What is written down about an event once it is answered.
  function Written(w: World, i: nat, ev: Event, trace: SessionTrace, r: RequestResult, done: real, x: Served): World
    requires i < |w.queue| && ev.t < |trace.turns|
  {
    var next := NextEvent(trace, ev, done, w.seqNo);
    w.(queue := w.queue[..i] + w.queue[i + 1..] + next,
       seqNo := w.seqNo + |next|,
       stats := Account(w.stats, r),
       started := if Has(w.started, trace.session) then w.started else Put(w.started, trace.session, ev.at),
       ended := Put(w.ended, trace.session, done),
       log := w.log + [x])
  }

  /** What answering an event did, in terms of the router, predictor and replica models. */
  ghost predicate Answered(setup: Setup, m: Model, f: Cluster.Model, w: World, replicas: seq<Spec.State>,
                           predictor: P.State,
                           router: RouterState, x: Served, req: Request) {
    && Ready(setup, w)
    && var ev, trace, rs := Pick(w), setup.traces[Pick(w).s], Cleared(w);
    && x.s == ev.s && x.t == ev.t && x.now == ev.at && x.found == HomeFound(setup, w) && x.rid < |rs|
    && (x.rid, router) == m.route(rs, w.router, trace.session, ev.at, setup.clock(w.stats.requests))
    && (x.gapMs, predictor) == m.foresee(w.predictor, trace.session, trace.turns, ev.t)
    && req == Request(trace.session, trace.turns[ev.t].prompt, trace.turns[ev.t].output, ev.at,
                      Max(rs[x.rid].freeAt, ev.at) + x.gapMs)
    && x.result == f.quote(x.rid, rs[x.rid], req)
    && replicas == rs[x.rid := Cluster.Queued(f.serve(rs[x.rid], req), x.Done())]
  }

  ghost predicate Handled(setup: Setup, m: Model, f: Cluster.Model, w: World, w': World, x: Served, req: Request) {
    && Answered(setup, m, f, w, w'.replicas, w'.predictor, w'.router, x, req)
    && w' == Written(w.(replicas := w'.replicas, predictor := w'.predictor, router := w'.router), First(w.queue),
                     Pick(w),
                     setup.traces[Pick(w).s], x.result, x.Done(), x)
  }

  lemma AnsweredRecord(setup: Setup, m: Model, f: Cluster.Model, w: World, replicas: seq<Spec.State>,
                       predictor: P.State,
                       router: RouterState, x: Served, req: Request)
    requires Answered(setup, m, f, w, replicas, predictor, router, x, req)
    requires m.Of(setup) && f.Of(setup.config.hw, setup.ThePolicy())
    requires w.stats.requests == |w.log|
    ensures x == TheRecord(setup, w) && req == TheRequest(setup, w)
    ensures router == Choose(setup, w).1 && predictor == AskFrom(Learned(setup, w), TurnOf(setup, w))
  {
    var ev, trace, rs := Pick(w), setup.traces[Pick(w).s], Cleared(w);
    assert (x.rid, router) == RouteOf(setup.TheLimits(), rs, w.router, trace.session, ev.at, setup.clock(|w.log|));
    assert (x.gapMs, predictor) == ForeseeOf(setup.config, w.predictor, trace.session, trace.turns, ev.t);
    assert x.gapMs == GapMs(setup, w) && req.predictedReturn == TheRequest(setup, w).predictedReturn;
    assert x.result == Outcome(setup.config.hw, x.rid, rs[x.rid], req);
  }

  /** Handling an event is one step of the state machine. */
  lemma HandledIsStep(setup: Setup, m: Model, f: Cluster.Model, w: World, w': World, x: Served, req: Request)
    requires Handled(setup, m, f, w, w', x, req) && m.Of(setup) && f.Of(setup.config.hw, setup.ThePolicy())
    requires w.stats.requests == |w.log|
    ensures w' == Step(setup, w)
  {
    AnsweredRecord(setup, m, f, w, w'.replicas, w'.predictor, w'.router, x, req);
    var st := Cleared(w)[x.rid];
    assert f.serve(st, req) == After(setup.ThePolicy(), setup.config.hw, st, req);
  }

  // _build, and the loop variables before the first event.
  method BuildArm(setup: Setup) returns (arm: Arm)
    requires setup.Valid()
    ensures arm.setup == setup && arm.Sound() && fresh(arm.fleet.Repr) && fresh(arm.Others())
    ensures arm.View() == Init(setup)
  {
    var rotation, affinity := BuildRouters(setup);
    var predictor := new P.ToolDurationPredictor(setup.config.predictor);
    ghost var others: set<object> := {predictor, rotation, affinity, affinity.store};
    var fleet := new Cluster.Fleet(setup.config.replicas, setup.config.hw, setup.ThePolicy());
    assert fleet.Repr !! others;
    arm := new Arm(setup, fleet, predictor, rotation, affinity);
  }

  // ---- The loop ------------------------------------------------------------------------

  datatype ArmResult = ArmResult(stats: RunStats, jobCompletionMs: seq<real>, evictions: nat, offloads: nat,
                                 affinityHits: nat, affinityBreaks: nat)

  ghost predicate HaveStarted(w: World) {
    forall i :: 0 <= i < |w.ended| ==> Has(w.started, w.ended[i].0)
  }

  // In the order in which the sessions first completed a turn.
  ghost function Jobs(w: World): seq<real>
    requires HaveStarted(w)
  {
    seq(|w.ended|, i requires 0 <= i < |w.ended| => w.ended[i].1 - Get(w.started, w.ended[i].0))
  }

  // What run_arm reports of a state.
  ghost function Report(w: World): ArmResult
    requires HaveStarted(w)
  {
    ArmResult(w.stats, Jobs(w), ReplayCaches.EvictionsAll(w.replicas), ReplayCaches.OffloadsAll(w.replicas),
              if w.router.Sticky? then w.router.a.hits else 0, if w.router.Sticky? then w.router.a.breaks else 0)
  }

  lemma InvReady(setup: Setup, w: World)
    requires setup.Valid() && Replay.Inv(setup, w)
    ensures Replay.PartsOk(setup, w) && w.stats.requests == |w.log|
    ensures w.queue != [] ==> Ready(setup, w)
  {
    Replay.StatsTotals(setup.traces, setup.config.replicas, setup.config.hw, w.log);
    if w.queue != [] {
      Replay.InvReady(setup, w);
    }
  }

  lemma RunReady(setup: Setup, ws: seq<World>)
    requires Replay.IsRun(setup, ws)
    ensures Replay.PartsOk(setup, Replay.End(ws)) && Replay.End(ws).stats.requests == |Replay.End(ws).log|
    ensures Replay.End(ws).queue != [] ==> Ready(setup, Replay.End(ws))
    ensures |ws| <= TotalTurns(setup.traces) + 1
  {
    Replay.RunInv(setup, ws, |ws| - 1);
    Replay.RunsEnd(setup, ws);
    InvReady(setup, Replay.End(ws));
  }

  lemma RunHasStarted(setup: Setup, ws: seq<World>)
    requires Replay.IsRun(setup, ws)
    ensures HaveStarted(Replay.End(ws))
  {
    var w := Replay.End(ws);
    Replay.RunInv(setup, ws, |ws| - 1);
    forall i | 0 <= i < |w.ended| ensures Has(w.started, w.ended[i].0) {
      Replay.EndedHaveStarted(setup.traces, w.log, w.ended[i].0);
      HasAt(w.ended, i);
    }
  }

  lemma RunExtends(setup: Setup, m: Model, f: Cluster.Model, ws: seq<World>, w': World, x: Served, req: Request)
    requires Replay.IsRun(setup, ws) && m.Of(setup) && f.Of(setup.config.hw, setup.ThePolicy())
    requires Replay.End(ws).queue != [] && Handled(setup, m, f, Replay.End(ws), w', x, req)
    ensures Replay.IsRun(setup, ws + [w'])
  {
    RunReady(setup, ws);
    HandledIsStep(setup, m, f, Replay.End(ws), w', x, req);
    Replay.RunsContinue(setup, ws);
  }

  method SumOver(replicas: seq<Replica>, ghost rs: seq<Spec.State>) returns (evictions: nat, offloads: nat)
    requires |rs| == |replicas| && forall i :: 0 <= i < |rs| ==> rs[i] == replicas[i].View()
    ensures evictions == ReplayCaches.EvictionsAll(rs) && offloads == ReplayCaches.OffloadsAll(rs)
  {
    evictions, offloads := 0, 0;
    for i := 0 to |replicas|
      invariant evictions == ReplayCaches.EvictionsAll(rs[..i]) && offloads == ReplayCaches.OffloadsAll(rs[..i])
    {
      assert rs[..i + 1][..i] == rs[..i];
      evictions := evictions + replicas[i].evictions;
      offloads := offloads + replicas[i].offloads;
    }
    assert rs[..|replicas|] == rs;
  }

  method SumCounters(arm: Arm) returns (evictions: nat, offloads: nat)
    requires arm.Sound()
    ensures evictions == ReplayCaches.EvictionsAll(arm.fleet.Views())
    ensures offloads == ReplayCaches.OffloadsAll(arm.fleet.Views())
  {
    evictions, offloads := SumOver(arm.fleet.replicas, arm.fleet.Views());
  }

  method SumJobs(arm: Arm) returns (jobs: seq<real>)
    requires arm.Sound() && HaveStarted(arm.View())
    ensures jobs == Jobs(arm.View())
  {
    jobs := [];
    for i := 0 to |arm.ended|
      invariant |jobs| == i
      invariant forall j :: 0 <= j < i ==> jobs[j] == arm.ended[j].1 - Get(arm.started, arm.ended[j].0)
    {
      var (id, end) := arm.ended[i];
      jobs := jobs + [end - Get(arm.started, id)];
    }
  }

  method MakeReport(arm: Arm) returns (result: ArmResult)
    requires arm.Sound() && HaveStarted(arm.View())
    ensures result == Report(arm.View())
  {
    var jobs := SumJobs(arm);
    var evictions, offloads := SumCounters(arm);
    result := ArmResult(arm.stats, jobs, evictions, offloads,
                        if arm.setup.adaptive then arm.affinity.affinityHits else 0,
                        if arm.setup.adaptive then arm.affinity.affinityBreaks else 0);
  }

  // One turn of the loop extends the run by one state.
  method LoopStep(arm: Arm, ghost ws: seq<World>) returns (ghost ws': seq<World>)
    requires arm.Sound() && Replay.IsRun(arm.setup, ws) && arm.View() == Replay.End(ws) && arm.queue != []
    modifies arm, arm.fleet.Repr, arm.predictor, arm.rotation, arm.affinity, arm.affinity.store
    ensures arm.Sound() && fresh(arm.fleet.Repr - old(arm.fleet.Repr))
    ensures Replay.IsRun(arm.setup, ws') && arm.View() == Replay.End(ws') && |ws'| == |ws| + 1
  {
    RunReady(arm.setup, ws);
    ghost var x, req := arm.HandleEvent();
    RunExtends(arm.setup, arm.model, arm.fleet.model, ws, arm.View(), x, req);
    ws' := ws + [arm.View()];
  }

  // The event loop.
  method Loop(setup: Setup) returns (arm: Arm, ghost ws: seq<World>)
    requires setup.Valid()
    ensures arm.Sound() && arm.setup == setup
    ensures Replay.Finished(setup, ws) && arm.View() == Replay.End(ws)
  {
    arm := BuildArm(setup);
    ws := [Init(setup)];
    RunReady(setup, ws);
    while arm.queue != []
      invariant arm.setup == setup && arm.Sound() && fresh(arm.fleet.Repr) && fresh(arm.Others())
      invariant Replay.IsRun(setup, ws) && arm.View() == Replay.End(ws)
      invariant |ws| <= TotalTurns(setup.traces) + 1
      decreases TotalTurns(setup.traces) + 1 - |ws|
    {
      ws := LoopStep(arm, ws);
      RunReady(setup, ws);
    }
  }

  /** The harness: it ends, it has handled every event of the one finished run of the state machine, and
      what it reports is read off that run's last state. */
  method RunArm(setup: Setup) returns (result: ArmResult, ghost ws: seq<World>)
    requires setup.Valid()
    ensures Replay.Finished(setup, ws)
    ensures HaveStarted(Replay.End(ws)) && result == Report(Replay.End(ws))
    ensures forall run :: Replay.Finished(setup, run) ==> run == ws
    ensures forall run :: Replay.Finished(setup, run) ==>
              HaveStarted(Replay.End(run)) && result == Report(Replay.End(run))
  {
    var arm, run := Loop(setup);
    ws := run;
    RunHasStarted(setup, ws);
    result := MakeReport(arm);
    forall other | Replay.Finished(setup, other)
      ensures other == ws && HaveStarted(Replay.End(other)) && result == Report(Replay.End(other))
    {
      Replay.RunIsUnique(setup, other, ws);
    }
  }
}
