// The non-streaming request path of one pod (agentserve/gateway.py): every request is scheduled and
// enters its replica's slot in one step, and leaves it in another, however the call ends.
module Gateway {
  import opened Models
  import opened OrderedDict
  import opened SessionStore
  import Cluster
  import Router
  import Valve
  import Spec = ReplicaSpec
  import P = Predictor

  // What the predictor knows once the time since the session was last seen has been observed.
  function Resumed(c: PredictorConfig, p: P.State, session: string, tool: Option<string>, last: Option<real>,
                   now: real): P.State {
    if last.Some? then P.Learn(c, p, session, tool, Max(0.0, now - last.value)) else p
  }

  class Gateway {
    const fleet: Cluster.Fleet
    const predictor: P.ToolDurationPredictor
    const router: Router.SessionAffinityRouter  // its store also remembers when sessions were last seen
    ghost var open: seq<nat>  // the replicas of the requests now holding a slot

    constructor (fleet: Cluster.Fleet, predictor: P.ToolDurationPredictor, router: Router.SessionAffinityRouter)
      requires fleet.Valid() && |fleet.replicas| >= 1 && fleet.Repr !! {predictor, router, router.store}
      requires predictor.config.minObservations >= 1 && P.Sound(predictor.View())
      requires router.hw == fleet.hw && Unique(router.store.home) && Unique(router.store.seen)
      ensures this.fleet == fleet && this.predictor == predictor && this.router == router
      ensures Sound() && open == []
    {
      this.fleet, this.predictor, this.router := fleet, predictor, router;
      open := [];
    }

    ghost predicate Sound()
      reads this, fleet, fleet.Repr, predictor, router, router.store
    {
      && fleet.Valid() && fleet.Repr !! {this, predictor, router, router.store}
      && predictor.config.minObservations >= 1 && P.Sound(predictor.View())
      && router.hw == fleet.hw && Unique(router.store.home) && Unique(router.store.seen)
      && forall i :: 0 <= i < |open| ==> open[i] < |fleet.replicas|
    }

    ghost function View(): Valve.State
      reads this, fleet, fleet.Repr, router, router.store
      requires fleet.Valid()
    {
      Valve.State(fleet.Views(), router.View(), open)
    }

    // How long the session stayed away, measured and learnt.
    method Observe(session: string, tool: Option<string>, now: real, seenAt: real)
      requires Sound()
      modifies predictor, router.store`seen
      ensures Sound() && View() == old(View())
      ensures router.store.seen == Fetch(old(router.store.seen), session, seenAt).1
      ensures predictor.View() == Resumed(predictor.config, old(predictor.View()), session, tool,
                                          Fetch(old(router.store.seen), session, seenAt).0, now)
    {
      UniqueFetch(router.store.seen, session, seenAt);
      var last := router.store.GetLastSeen(session, seenAt);
      if last.Some? {
        var accepted := predictor.Observe(session, tool, Max(0.0, now - last.value));
      }
    }

    method Select(session: string, now: real, clock: Router.Clock) returns (k: nat)
      requires Sound()
      modifies router, router.store`home
      ensures Sound() && open == old(open)
      ensures fleet.Views() == old(fleet.Views()) && predictor.View() == old(predictor.View()) && k < |fleet.replicas|
      ensures (k, router.View()) == Router.Route(router.TheLimits(), fleet.Views(), old(router.View()), session, now,
                                                 clock)
    {
      Router.RouteKeepsUnique(router.TheLimits(), fleet.Views(), router.View(), session, now, clock);
      var r := router.Select(fleet.replicas, session, now, clock);
      k := r.id;
    }

    // Routing and prediction.
    method Schedule(session: string, tool: Option<string>, now: real, seenAt: real, clock: Router.Clock)
        returns (k: nat, gapMs: real, ghost p: P.State)
      requires Sound()
      modifies fleet.Repr, predictor, router, router.store
      ensures Sound() && fleet.Repr == old(fleet.Repr) && k < |fleet.replicas|
      ensures fleet.Views() == Cluster.PrunedAll(old(fleet.Views()), now)
      ensures (k, router.View()) == Router.Route(router.TheLimits(), fleet.Views(), old(router.View()), session, now,
                                                 clock)
      ensures router.store.seen == Fetch(old(router.store.seen), session, seenAt).1
      ensures p == Resumed(predictor.config, old(predictor.View()), session, tool,
                           Fetch(old(router.store.seen), session, seenAt).0, now)
      ensures P.Sound(p) && gapMs == P.Predict(predictor.config, p, session, tool) && predictor.View() == P.Ask(p, tool)
    {
      fleet.Prune(now);
      Observe(session, tool, now, seenAt);
      p := predictor.View();
      k := Select(session, now, clock);
      assert predictor.View() == p;
      gapMs := predictor.PredictMs(session, tool);
    }

    method Enter(k: nat, ghost rs: seq<Spec.State>)
      requires Sound() && k < |fleet.replicas| && rs == fleet.Views()
      modifies this, fleet.Repr
      ensures Sound() && fleet.Repr == old(fleet.Repr) && router.View() == old(router.View())
      ensures open == old(open) + [k] && fleet.Views() == rs[k := Cluster.Slotted(rs[k], true)]
    {
      open := open + [k];
      fleet.Slot(k, true);
    }

    /** Scheduling and taking the slot: one step of the release-valve machine. */
    method Admit(session: string, tool: Option<string>, now: real, seenAt: real, clock: Router.Clock)
        returns (k: nat, gapMs: real, ghost p: P.State)
      requires Sound()
      modifies this, fleet.Repr, predictor, router, router.store
      ensures Sound() && fleet.Repr == old(fleet.Repr)
      ensures View() == Valve.Apply(router.TheLimits(), old(View()), Valve.Admit(session, now, clock))
      ensures open == old(open) + [k]
      ensures router.store.seen == Fetch(old(router.store.seen), session, seenAt).1
      ensures p == Resumed(predictor.config, old(predictor.View()), session, tool,
                           Fetch(old(router.store.seen), session, seenAt).0, now)
      ensures P.Sound(p) && gapMs == P.Predict(predictor.config, p, session, tool) && predictor.View() == P.Ask(p, tool)
    {
      ghost var before := View();
      k, gapMs, p := Schedule(session, tool, now, seenAt, clock);
      Valve.AdmitEnters(router.TheLimits(), before, fleet.Views(), k, router.View(), session, now, clock);
      Enter(k, fleet.Views());
    }

    method Exit(k: nat, ghost i: nat, ghost rs: seq<Spec.State>)
      requires Sound() && i < |open| && open[i] == k && rs == fleet.Views()
      modifies this, fleet.Repr
      ensures Sound() && fleet.Repr == old(fleet.Repr) && router.View() == old(router.View())
      ensures open == old(open[..i] + open[i + 1..]) && fleet.Views() == rs[k := Cluster.Slotted(rs[k], false)]
    {
      open := open[..i] + open[i + 1..];
      fleet.Slot(k, false);
    }

    // The slot is given back, on success and on every exception alike. i is the request's place among
    // the open ones.
    method Leave(k: nat, ghost i: nat)
      requires Sound() && i < |open| && open[i] == k
      modifies this, fleet.Repr
      ensures Sound() && fleet.Repr == old(fleet.Repr)
      ensures View() == Valve.Apply(router.TheLimits(), old(View()), Valve.Close(i))
      ensures router.store.seen == old(router.store.seen)
    {
      Exit(k, i, fleet.Views());
    }

    // What set_last_seen leaves in the session map.
    ghost function Remembered(session: string, whenMs: real, putAt: real): Table<real>
      reads router.store
    {
      Insert(router.store.seen, session, Slot(whenMs, putAt + router.store.ttlS), router.store.maxSessions)
    }

    method Remember(session: string, whenMs: real, putAt: real)
      requires Sound()
      modifies router.store`seen
      ensures Sound() && View() == old(View()) && fleet.Repr == old(fleet.Repr)
      ensures router.store.seen == old(Remembered(session, whenMs, putAt))
    {
      UniqueInsert(router.store.seen, session, Slot(whenMs, putAt + router.store.ttlS), router.store.maxSessions);
      router.store.SetLastSeen(session, whenMs, putAt);
    }

    /** A finished request also records when its session was last seen: its latency after it came in. A
        failed one only leaves. */
    method Finish(k: nat, ghost i: nat, session: string, now: real, result: RequestResult, putAt: real)
      requires Sound() && i < |open| && open[i] == k
      modifies this, fleet.Repr, router.store`seen
      ensures Sound() && fleet.Repr == old(fleet.Repr)
      ensures View() == Valve.Apply(router.TheLimits(), old(View()), Valve.Close(i))
      ensures router.store.seen == old(Remembered(session, now + result.LatencyMs(), putAt))
    {
      var whenMs := now + result.LatencyMs();
      Leave(k, i);
      Remember(session, whenMs, putAt);
    }
  }

  lemma LastSeenIsFound(h: seq<Op<real>>, session: string, whenMs: real, putAt: real, later: seq<Op<real>>, max: nat,
                        ttl: real, seenAt: real)
    requires max >= 1 && session !in Keys(later) && |Keys(later)| < max && seenAt <= putAt + ttl
    ensures Fetch(RunOn(Run(h + [PutOp(session, whenMs, putAt)], max, ttl), later, max, ttl), session, seenAt).0
         == Some(whenMs)
  {
    var done: Op<real> := PutOp(session, whenMs, putAt);
    StoreIsBoundedAndCurrent(h, max, ttl);
    assert (h + [done])[..|h|] == h;
    TouchedIsNewest(Run(h, max, ttl), done, max, ttl);
    RecentKeysAreKept(h, done, later, max, ttl, seenAt);
  }

  /** What a returning session teaches the predictor: the time since its last request was complete, that
      is since its arrival t plus its latency, or nothing at all if it is back before that. Other
      sessions may come and go meanwhile, fewer of them than the session map holds. */
  lemma ReturnIsMeasured(c: PredictorConfig, p: P.State, tool: Option<string>, h: seq<Op<real>>, session: string,
                         t: real, latency: real, done: real, putAt: real, later: seq<Op<real>>, max: nat, ttl: real,
                         now: real, seenAt: real, gap: real)
    requires max >= 1 && session !in Keys(later) && |Keys(later)| < max && seenAt <= putAt + ttl
    requires done == t + latency && gap == (if now > done then now - done else 0.0)
    ensures var seen := RunOn(Run(h + [PutOp(session, done, putAt)], max, ttl), later, max, ttl);
            Resumed(c, p, session, tool, Fetch(seen, session, seenAt).0, now) == P.Learn(c, p, session, tool, gap)
  {
    LastSeenIsFound(h, session, done, putAt, later, max, ttl, seenAt);
    ResumedLearns(c, p, session, tool, Some(done), now, gap);
  }

  lemma ResumedLearns(c: PredictorConfig, p: P.State, session: string, tool: Option<string>, last: Option<real>,
                      now: real, gap: real)
    requires last.Some? && gap == Max(0.0, now - last.value)
    ensures Resumed(c, p, session, tool, last, now) == P.Learn(c, p, session, tool, gap)
  {
  }

  /** A session that never finished a request, or finished its last one too long ago, teaches nothing. */
  lemma AbsenceTeachesNothing(c: PredictorConfig, p: P.State, tool: Option<string>, h: seq<Op<real>>, session: string,
                              max: nat, ttl: real, now: real, seenAt: real)
    requires LastPut(h, session) == 0 || seenAt > h[LastPut(h, session) - 1].at + ttl
    ensures Resumed(c, p, session, tool, Fetch(Run(h, max, ttl), session, seenAt).0, now) == p
  {
    GetIsSound(h, max, ttl, session, seenAt);
  }
}
