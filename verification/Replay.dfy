// Every run of the replay: what each step keeps, that the loop ends, and that the record it leaves
// is well formed.
module Replay {
  import opened Models
  import opened OrderedDict
  import opened Policy
  import opened Backend
  import opened ReplayLog
  import opened ReplaySpec
  import Router
  import Timing = ReplayTiming
  import Spec = ReplicaSpec
  import P = Predictor

  // ---- Invariants ----------------------------------------------------------------------

  // When the next turn of a session is due.
  function DueAt(traces: seq<SessionTrace>, log: Log, s: nat): real
    requires s < |traces| && Progress(log, s) <= |traces[s].turns|
  {
    if Progress(log, s) == 0 then traces[s].arrival
    else LastOf(log, s).Done() + traces[s].turns[Progress(log, s) - 1].toolMs
  }

  // An event stands for the next turn of its session, and lies in the future.
  ghost predicate EventOk(traces: seq<SessionTrace>, log: Log, e: Event) {
    && e.s < |traces| && e.t == Progress(log, e.s) < |traces[e.s].turns|
    && e.at == DueAt(traces, log, e.s)
    && (log != [] ==> log[|log| - 1].now <= e.at)
  }

  /** The queue holds exactly one event for every session that is not finished. */
  ghost predicate QueueOk(traces: seq<SessionTrace>, log: Log, queue: seq<Event>) {
    && (forall i :: 0 <= i < |queue| ==> EventOk(traces, log, queue[i]))
    && (forall i, j :: 0 <= i < j < |queue| ==> queue[i].s != queue[j].s)
    && (forall s :: 0 <= s < |traces| && Progress(log, s) < |traces[s].turns| ==> Scheduled(queue, s))
  }

  ghost predicate Scheduled(queue: seq<Event>, s: nat) {
    exists i :: 0 <= i < |queue| && queue[i].s == s
  }

  // Completions still queued right after the last event: those that were in the future then.
  function PendingAfter(log: Log, r: nat): seq<real> {
    if log == [] then []
    else
      var front, x := log[..|log| - 1], log[|log| - 1];
      Spec.Later(Dones(On(front, r)), x.now) + (if x.rid == r then [x.Done()] else [])
  }

  ghost predicate ReplicaOk(hw: Hardware, log: Log, r: nat, st: Spec.State) {
    && Spec.TwoTier(st) && Spec.InBudget(hw, st)
    && st.freeAt == FreeAt(log, r) && st.active == 0
    && st.pending == PendingAfter(log, r)
  }

  function StatsOf(log: Log): RunStats {
    if log == [] then NO_STATS else Account(StatsOf(log[..|log| - 1]), log[|log| - 1].result)
  }

  function Ends(traces: seq<SessionTrace>, log: Log): Dict<real>
    requires forall i :: 0 <= i < |log| ==> log[i].s < |traces|
  {
    if log == [] then []
    else Put(Ends(traces, log[..|log| - 1]), traces[log[|log| - 1].s].session, log[|log| - 1].Done())
  }

  function Starts(traces: seq<SessionTrace>, log: Log): Dict<real>
    requires forall i :: 0 <= i < |log| ==> log[i].s < |traces|
  {
    if log == [] then []
    else
      var before, x := Starts(traces, log[..|log| - 1]), log[|log| - 1];
      if Has(before, traces[x.s].session) then before else Put(before, traces[x.s].session, x.now)
  }

  ghost predicate ReplicasOk(hw: Hardware, log: Log, rs: seq<Spec.State>) {
    forall r :: 0 <= r < |rs| ==> ReplicaOk(hw, log, r, rs[r])
  }

  ghost predicate PartsOk(setup: Setup, w: World) {
    && |w.replicas| == setup.config.replicas
    && P.Sound(w.predictor)
    && (setup.adaptive <==> w.router.Sticky?)
    && (w.router.Sticky? ==> Unique(w.router.a.home))
  }

  // The counters and the session clocks say what the record says.
  ghost predicate BooksOk(traces: seq<SessionTrace>, w: World) {
    && (forall i :: 0 <= i < |w.log| ==> w.log[i].s < |traces|)
    && w.stats == StatsOf(w.log)
    && w.started == Starts(traces, w.log) && w.ended == Ends(traces, w.log)
  }

  ghost predicate Inv(setup: Setup, w: World) {
    && PartsOk(setup, w)
    && WellFormed(setup.traces, setup.config.replicas, setup.config.hw, w.log)
    && QueueOk(setup.traces, w.log, w.queue)
    && ReplicasOk(setup.config.hw, w.log, w.replicas)
    && BooksOk(setup.traces, w)
  }

  lemma InvReady(setup: Setup, w: World)
    requires setup.Valid() && PartsOk(setup, w) && QueueOk(setup.traces, w.log, w.queue) && w.queue != []
    ensures Ready(setup, w)
    ensures EventOk(setup.traces, w.log, Pick(w))
  {
  }

  // ---- Timing of one step --------------------------------------------------------------

  lemma LaterPrune(log: Log, r: nat, now: real)
    requires log != [] ==> log[|log| - 1].now <= now
    ensures Spec.Later(PendingAfter(log, r), now) == Spec.Later(Dones(On(log, r)), now)
  {
    if log != [] {
      var front, x := log[..|log| - 1], log[|log| - 1];
      var one := if x.rid == r then [x] else [];
      Timing.LaterConcat(Spec.Later(Dones(On(front, r)), x.now), Dones(one), now);
      Timing.LaterLater(Dones(On(front, r)), x.now, now);
      Timing.DonesConcat(On(front, r), one);
      Timing.LaterConcat(Dones(On(front, r)), Dones(one), now);
      assert Dones(one) == if x.rid == r then [x.Done()] else [];
    }
  }

  /** What the router sees is exact: after pruning, a replica's queue holds precisely the completions,
      later than now and in order, of everything it was ever sent. */
  lemma QueueDepthIsExact(setup: Setup, w: World, r: nat)
    requires setup.Valid() && Inv(setup, w) && w.queue != [] && r < |w.replicas|
    ensures var now := Pick(w).at;
            && Cleared(w)[r].pending == Spec.Later(Dones(On(w.log, r)), now) == Dones(Open(w.log, r, now))
            && Cleared(w)[r].Inflight() == |Open(w.log, r, now)| < |setup.traces|
  {
    var now := Pick(w).at;
    assert EventOk(setup.traces, w.log, Pick(w));
    assert ReplicaOk(setup.config.hw, w.log, r, w.replicas[r]);
    LaterPrune(w.log, r, now);
    Timing.OpenIsLater(w.log, r, now);
    RecordFits(setup, w);
    Timing.QueueShorterThanSessions(setup.traces, setup.config.replicas, setup.config.hw, w.log, TheRecord(setup, w),
                                    r);
  }

  // A request served on a replica whose clock is the record's fits the record.
  lemma OutcomeFits(traces: seq<SessionTrace>, n: nat, hw: Hardware, log: Log, ev: Event, st: Spec.State,
                    req: Request, x: Served)
    requires hw.Valid() && EventOk(traces, log, ev) && x.rid < n && st.freeAt == FreeAt(log, x.rid)
    requires x.s == ev.s && x.t == ev.t && x.now == ev.at == req.now && x.result == Outcome(hw, x.rid, st, req)
    requires req.prompt == traces[ev.s].turns[ev.t].prompt && req.output == traces[ev.s].turns[ev.t].output
    ensures Fits(traces, n, hw, log, x)
    ensures x.Done() == Max(st.freeAt, req.now) + Outcome(hw, 0, st, req).ServiceMs()
  {
    ExecuteTiming(Lru, hw, x.rid, st, req);
  }

  // The request served next fits the record.
  lemma RecordFits(setup: Setup, w: World)
    requires setup.Valid() && Inv(setup, w) && w.queue != []
    ensures Ready(setup, w)
    ensures Fits(setup.traces, setup.config.replicas, setup.config.hw, w.log, TheRecord(setup, w))
  {
    InvReady(setup, w);
    var k := Choose(setup, w).0;
    assert ReplicaOk(setup.config.hw, w.log, k, w.replicas[k]);
    OutcomeFits(setup.traces, setup.config.replicas, setup.config.hw, w.log, Pick(w), Cleared(w)[k],
                TheRequest(setup, w), TheRecord(setup, w));
  }

  // ---- The replicas --------------------------------------------------------------------

  lemma ServeOk(setup: Setup, log: Log, st: Spec.State, req: Request, x: Served)
    requires setup.config.hw.Valid() && ReplicaOk(setup.config.hw, log, x.rid, st)
    requires log != [] ==> log[|log| - 1].now <= x.now
    requires x.now == req.now
    requires x.Done() == Max(st.freeAt, req.now) + Outcome(setup.config.hw, 0, st, req).ServiceMs()
    ensures ReplicaOk(setup.config.hw, log + [x], x.rid, Serve(setup, Spec.Prune(st, x.now), req, x.Done()))
  {
    var hw := setup.config.hw;
    var cleared := Spec.Prune(st, x.now);
    ExecuteCaches(setup.ThePolicy(), hw, cleared, req);
    LaterPrune(log, x.rid, x.now);
    assert (log + [x])[..|log|] == log;
  }

  lemma IdleOk(hw: Hardware, log: Log, r: nat, st: Spec.State, x: Served)
    requires ReplicaOk(hw, log, r, st) && r != x.rid && (log != [] ==> log[|log| - 1].now <= x.now)
    ensures ReplicaOk(hw, log + [x], r, Spec.Prune(st, x.now))
  {
    LaterPrune(log, r, x.now);
    assert (log + [x])[..|log|] == log;
  }

  lemma ReplicaStep(setup: Setup, w: World, r: nat)
    requires setup.Valid() && Ready(setup, w) && EventOk(setup.traces, w.log, Pick(w))
    requires r < |w.replicas| && ReplicaOk(setup.config.hw, w.log, r, w.replicas[r])
    ensures ReplicaOk(setup.config.hw, w.log + [TheRecord(setup, w)], r, ServedReplicas(setup, w)[r])
  {
    var x, hw := TheRecord(setup, w), setup.config.hw;
    if r == x.rid {
      OutcomeFits(setup.traces, |w.replicas|, hw, w.log, Pick(w), Cleared(w)[r], TheRequest(setup, w), x);
      ServeOk(setup, w.log, w.replicas[r], TheRequest(setup, w), x);
    } else {
      IdleOk(hw, w.log, r, w.replicas[r], x);
    }
  }

  lemma ReplicasStep(setup: Setup, w: World)
    requires setup.Valid() && Ready(setup, w) && EventOk(setup.traces, w.log, Pick(w))
    requires ReplicasOk(setup.config.hw, w.log, w.replicas)
    ensures ReplicasOk(setup.config.hw, w.log + [TheRecord(setup, w)], ServedReplicas(setup, w))
  {
    var x, hw := TheRecord(setup, w), setup.config.hw;
    forall r | 0 <= r < |w.replicas| ensures ReplicaOk(hw, w.log + [x], r, ServedReplicas(setup, w)[r]) {
      ReplicaStep(setup, w, r);
    }
  }

  // ---- The queue -----------------------------------------------------------------------

  lemma ProgressAppend(log: Log, x: Served, s: nat)
    ensures Progress(log + [x], s) == Progress(log, s) + (if x.s == s then 1 else 0)
    ensures x.s == s ==> LastOf(log + [x], s) == x
    ensures x.s != s && Progress(log, s) > 0 ==> LastOf(log + [x], s) == LastOf(log, s)
  {
    assert (log + [x])[..|log|] == log;
  }

  lemma NextTurnOk(traces: seq<SessionTrace>, n: nat, hw: Hardware, log: Log, x: Served, seqNo: nat)
    requires ValidTraces(traces) && Fits(traces, n, hw, log, x)
    ensures x.t + 1 < |traces[x.s].turns| ==>
              EventOk(traces, log + [x], Event(x.Done() + traces[x.s].turns[x.t].toolMs, seqNo, x.s, x.t + 1))
  {
    ProgressAppend(log, x, x.s);
    Timing.Lindley(traces, n, hw, log, x);
    assert traces[x.s].turns[x.t].toolMs >= 0.0;
  }

  // Everybody else's event stays valid: nobody is earlier than the one popped.
  lemma OtherStays(traces: seq<SessionTrace>, log: Log, e: Event, x: Served)
    requires EventOk(traces, log, e) && e.s != x.s && x.now <= e.at
    ensures EventOk(traces, log + [x], e)
  {
    ProgressAppend(log, x, e.s);
  }

  lemma RestEvents(queue: seq<Event>, k: nat)
    requires k < |queue| && forall i, j :: 0 <= i < j < |queue| ==> queue[i].s != queue[j].s
    ensures var rest := queue[..k] + queue[k + 1..];
            && (forall i :: 0 <= i < |rest| ==> rest[i] in queue && rest[i].s != queue[k].s)
            && (forall i, j :: 0 <= i < j < |rest| ==> rest[i].s != rest[j].s)
            && (forall s :: Scheduled(queue, s) && s != queue[k].s ==> Scheduled(rest, s))
  {
    var rest := queue[..k] + queue[k + 1..];
    assert forall i :: 0 <= i < |rest| ==> rest[i] == queue[if i < k then i else i + 1];
    forall s | Scheduled(queue, s) && s != queue[k].s ensures Scheduled(rest, s) {
      var i :| 0 <= i < |queue| && queue[i].s == s;
      assert rest[if i < k then i else i - 1].s == s;
    }
  }

  lemma ScheduledAppend(rest: seq<Event>, more: seq<Event>, s: nat)
    ensures Scheduled(rest, s) ==> Scheduled(rest + more, s)
    ensures |more| == 1 && more[0].s == s ==> Scheduled(rest + more, s)
  {
    if Scheduled(rest, s) {
      var i :| 0 <= i < |rest| && rest[i].s == s;
      assert (rest + more)[i].s == s;
    }
    if |more| == 1 && more[0].s == s {
      assert (rest + more)[|rest|].s == s;
    }
  }

  lemma SessionScheduled(traces: seq<SessionTrace>, log: Log, queue: seq<Event>, k: nat, x: Served, more: seq<Event>,
                         s: nat)
    requires QueueOk(traces, log, queue) && k < |queue| && x.s == queue[k].s && x.t == queue[k].t
    requires if x.t + 1 < |traces[x.s].turns| then |more| == 1 && more[0].s == x.s else more == []
    requires s < |traces| && Progress(log + [x], s) < |traces[s].turns|
    ensures Scheduled(queue[..k] + queue[k + 1..] + more, s)
  {
    RestEvents(queue, k);
    ProgressAppend(log, x, s);
    ScheduledAppend(queue[..k] + queue[k + 1..], more, s);
    assert s != x.s ==> Scheduled(queue, s);
    assert EventOk(traces, log, queue[k]);
  }

  lemma RestStays(traces: seq<SessionTrace>, log: Log, queue: seq<Event>, k: nat, x: Served)
    requires QueueOk(traces, log, queue) && k < |queue| && x.s == queue[k].s
    requires forall j :: 0 <= j < |queue| ==> queue[j].at >= x.now
    ensures var rest := queue[..k] + queue[k + 1..];
            && (forall i :: 0 <= i < |rest| ==> EventOk(traces, log + [x], rest[i]) && rest[i].s != x.s)
            && (forall i, j :: 0 <= i < j < |rest| ==> rest[i].s != rest[j].s)
  {
    var rest := queue[..k] + queue[k + 1..];
    RestEvents(queue, k);
    forall i | 0 <= i < |rest| ensures EventOk(traces, log + [x], rest[i]) {
      OtherStays(traces, log, rest[i], x);
    }
  }

  lemma QueueStepCore(traces: seq<SessionTrace>, log: Log, queue: seq<Event>, k: nat, x: Served, more: seq<Event>)
    requires QueueOk(traces, log, queue) && k < |queue| && x.s == queue[k].s && x.t == queue[k].t
    requires forall j :: 0 <= j < |queue| ==> queue[j].at >= x.now
    requires if x.t + 1 < |traces[x.s].turns|
             then |more| == 1 && more[0].s == x.s && EventOk(traces, log + [x], more[0])
             else more == []
    ensures QueueOk(traces, log + [x], queue[..k] + queue[k + 1..] + more)
  {
    var log', rest := log + [x], queue[..k] + queue[k + 1..];
    var queue' := rest + more;
    RestStays(traces, log, queue, k, x);
    forall s | 0 <= s < |traces| && Progress(log', s) < |traces[s].turns| ensures Scheduled(queue', s) {
      SessionScheduled(traces, log, queue, k, x, more, s);
    }
  }

  lemma NoneEarlier(w: World, x: real)
    requires w.queue != [] && x == Pick(w).at
    ensures forall j :: 0 <= j < |w.queue| ==> w.queue[j].at >= x
  {
    assert forall j :: 0 <= j < |w.queue| ==> !Earlier(w.queue[j], Pick(w));
  }

  lemma QueueStep(setup: Setup, w: World)
    requires setup.Valid() && Inv(setup, w) && w.queue != []
    ensures Ready(setup, w)
    ensures QueueOk(setup.traces, w.log + [TheRecord(setup, w)], Step(setup, w).queue)
  {
    RecordFits(setup, w);
    var x, traces := TheRecord(setup, w), setup.traces;
    NextTurnOk(traces, setup.config.replicas, setup.config.hw, w.log, x, w.seqNo);
    NoneEarlier(w, x.now);
    QueueStepCore(traces, w.log, w.queue, First(w.queue), x, NextEvents(setup, w, x.Done()));
  }

  // ---- Runs ----------------------------------------------------------------------------

  lemma InitInv(setup: Setup)
    requires setup.Valid()
    ensures Inv(setup, Init(setup))
  {
    var w := Init(setup);
    forall s | 0 <= s < |setup.traces| ensures Scheduled(w.queue, s) {
      assert w.queue[s].s == s;
    }
  }

  lemma PartsStep(setup: Setup, w: World)
    requires setup.Valid() && Ready(setup, w) && PartsOk(setup, w)
    ensures PartsOk(setup, Step(setup, w))
  {
    var (k, router) := Choose(setup, w);
    assert (setup.adaptive <==> router.Sticky?) && (router.Sticky? ==> Unique(router.a.home)) by {
      if w.router.Sticky? {
        Router.RouteKeepsUnique(setup.TheLimits(), Cleared(w), w.router.a, SessionOf(setup, w), Pick(w).at,
                                setup.clock(|w.log|));
      }
    }
  }

  lemma BooksStep(setup: Setup, w: World)
    requires setup.Valid() && Ready(setup, w) && BooksOk(setup.traces, w)
    ensures BooksOk(setup.traces, Step(setup, w))
  {
    assert (w.log + [TheRecord(setup, w)])[..|w.log|] == w.log;
  }

  /** One event keeps everything. */
  lemma StepInv(setup: Setup, w: World)
    requires setup.Valid() && Inv(setup, w) && w.queue != []
    ensures Ready(setup, w) && Inv(setup, Step(setup, w))
  {
    RecordFits(setup, w);
    InvReady(setup, w);
    WellFormedAppend(setup.traces, setup.config.replicas, setup.config.hw, w.log, TheRecord(setup, w));
    QueueStep(setup, w);
    ReplicasStep(setup, w);
    PartsStep(setup, w);
    BooksStep(setup, w);
  }

  /** The loop has something to pop exactly until every turn of the trace has been served. */
  lemma QueueEmptyWhenDone(setup: Setup, w: World)
    requires setup.Valid() && Inv(setup, w)
    ensures |w.log| <= TotalTurns(setup.traces)
    ensures w.queue == [] <==> |w.log| == TotalTurns(setup.traces)
    ensures w.queue == [] <==> Complete(setup.traces, w.log)
  {
    var traces, n, hw := setup.traces, setup.config.replicas, setup.config.hw;
    FullLengthMeansComplete(traces, n, hw, w.log);
    if w.queue == [] {
      forall s | 0 <= s < |traces| ensures Progress(w.log, s) == |traces[s].turns| {
        ProgressBound(traces, n, hw, w.log, s);
        assert !Scheduled(w.queue, s);
      }
    } else {
      assert EventOk(traces, w.log, w.queue[0]);
    }
  }

  lemma StepInvTo(setup: Setup, w: World, w': World)
    requires setup.Valid() && Inv(setup, w) && Ready(setup, w) && w' == Step(setup, w)
    ensures Inv(setup, w') && |w'.log| == |w.log| + 1
  {
    StepInv(setup, w);
  }

  ghost predicate Follows(setup: Setup, ws: seq<World>, i: nat)
    requires i + 1 < |ws|
  {
    Ready(setup, ws[i]) && ws[i + 1] == Step(setup, ws[i])
  }

  /** A run of one arm: the states of the loop, each reached by handling one event. */
  ghost predicate IsRun(setup: Setup, ws: seq<World>) {
    && setup.Valid() && ws != [] && ws[0] == Init(setup)
    && forall i :: 0 <= i < |ws| - 1 ==> Follows(setup, ws, i)
  }

  function End(ws: seq<World>): World
    requires ws != []
  {
    ws[|ws| - 1]
  }

  // A run of the whole loop.
  ghost predicate Finished(setup: Setup, ws: seq<World>) {
    IsRun(setup, ws) && End(ws).queue == []
  }

  lemma StepAt(setup: Setup, ws: seq<World>, i: nat)
    requires IsRun(setup, ws) && i + 1 < |ws|
    ensures Ready(setup, ws[i]) && ws[i + 1] == Step(setup, ws[i])
  {
    assert Follows(setup, ws, i);
  }

  /** Whatever the trace and the configuration, the invariant holds at every state of every run. */
  lemma {:induction false} RunInv(setup: Setup, ws: seq<World>, i: nat)
    requires IsRun(setup, ws) && i < |ws|
    ensures Inv(setup, ws[i]) && |ws[i].log| == i
  {
    if i == 0 {
      InitInv(setup);
    } else {
      RunInv(setup, ws, i - 1);
      StepAt(setup, ws, i - 1);
      StepInvTo(setup, ws[i - 1], ws[i]);
    }
  }

  /** The loop terminates: no run handles more events than the trace has turns, and the queue is
      empty exactly when all of them have been handled. */
  lemma RunsEnd(setup: Setup, ws: seq<World>)
    requires IsRun(setup, ws)
    ensures |ws| <= TotalTurns(setup.traces) + 1
    ensures Finished(setup, ws) <==> |ws| == TotalTurns(setup.traces) + 1
    ensures Finished(setup, ws) ==> Complete(setup.traces, End(ws).log)
  {
    RunInv(setup, ws, |ws| - 1);
    QueueEmptyWhenDone(setup, End(ws));
  }

  lemma FollowsAppend(setup: Setup, ws: seq<World>, w: World, i: nat)
    requires i + 1 < |ws|
    ensures Follows(setup, ws + [w], i) <==> Follows(setup, ws, i)
  {
  }

  lemma RunAppend(setup: Setup, ws: seq<World>, w: World)
    requires IsRun(setup, ws) && Follows(setup, ws + [w], |ws| - 1)
    ensures IsRun(setup, ws + [w])
  {
    forall i | 0 <= i < |ws| - 1 ensures Follows(setup, ws + [w], i) {
      FollowsAppend(setup, ws, w, i);
    }
  }

  /** A run that is not finished can always go on, so the loop never gets stuck. */
  lemma RunsContinue(setup: Setup, ws: seq<World>)
    requires IsRun(setup, ws) && End(ws).queue != []
    ensures Ready(setup, End(ws)) && IsRun(setup, ws + [Step(setup, End(ws))])
  {
    RunInv(setup, ws, |ws| - 1);
    InvReady(setup, End(ws));
    RunAppend(setup, ws, Step(setup, End(ws)));
  }

  lemma NextIs(setup: Setup, ws: seq<World>, i: nat, w: World)
    requires IsRun(setup, ws) && i + 1 < |ws| && ws[i] == w
    ensures Ready(setup, w) && ws[i + 1] == Step(setup, w)
  {
    StepAt(setup, ws, i);
  }

  lemma {:induction false} RunsAgree(setup: Setup, a: seq<World>, b: seq<World>, i: nat)
    requires IsRun(setup, a) && IsRun(setup, b) && i < |a| && i < |b|
    ensures a[i] == b[i]
  {
    if i > 0 {
      RunsAgree(setup, a, b, i - 1);
      NextIs(setup, a, i - 1, a[i - 1]);
      NextIs(setup, b, i - 1, a[i - 1]);
    }
  }

  /** The replay is deterministic: an arm has one finished run. */
  lemma RunIsUnique(setup: Setup, a: seq<World>, b: seq<World>)
    requires Finished(setup, a) && Finished(setup, b)
    ensures a == b
  {
    RunsEnd(setup, a);
    RunsEnd(setup, b);
    forall i | 0 <= i < |a| ensures a[i] == b[i] {
      RunsAgree(setup, a, b, i);
    }
  }

  // ---- Event order and totals ----------------------------------------------------------

  /** Popped times never go backwards. */
  lemma {:induction false} TimeNeverGoesBack(traces: seq<SessionTrace>, n: nat, hw: Hardware, log: Log, i: nat, j: nat)
    requires WellFormed(traces, n, hw, log) && i <= j < |log|
    ensures log[i].now <= log[j].now
    decreases j
  {
    if i < j {
      TimeNeverGoesBack(traces, n, hw, log, i, j - 1);
      assert Fits(traces, n, hw, log[..j], log[j]);
      assert log[..j][j - 1] == log[j - 1];
    }
  }

  function PromptOf(traces: seq<SessionTrace>, s: nat, t: nat): nat {
    if s < |traces| && t < |traces[s].turns| then traces[s].turns[t].prompt else 0
  }

  function PromptAt(traces: seq<SessionTrace>): (nat, nat) -> int {
    (s: nat, t: nat) => PromptOf(traces, s, t)
  }

  lemma {:induction false} StatsTotals(traces: seq<SessionTrace>, n: nat, hw: Hardware, log: Log)
    requires WellFormed(traces, n, hw, log)
    ensures var st := StatsOf(log);
            && st.requests == |log| == st.gpuHits + st.dramHits + st.misses
            && st.reused + st.computed == LogSum(log, PromptAt(traces))
            && st.gpuBusyMs == Timing.TotalService(log)
    decreases |log|
  {
    if log != [] {
      WellFormedFront(traces, n, hw, log);
      StatsTotals(traces, n, hw, log[..|log| - 1]);
    }
  }

  /** The books balance at the end of every run of either arm: each turn of the trace was one request,
      each request one hit or miss, and every prompt token was either reused or computed. */
  lemma BooksBalance(setup: Setup, ws: seq<World>)
    requires Finished(setup, ws)
    ensures var st := End(ws).stats;
            && st.requests == TotalTurns(setup.traces) == st.gpuHits + st.dramHits + st.misses
            && st.reused + st.computed == TraceSum(PromptAt(setup.traces), setup.traces, |setup.traces|)
  {
    var log := End(ws).log;
    RunInv(setup, ws, |ws| - 1);
    RunsEnd(setup, ws);
    StatsTotals(setup.traces, setup.config.replicas, setup.config.hw, log);
    CompleteSum(setup.traces, setup.config.replicas, setup.config.hw, log, PromptAt(setup.traces));
  }

  /** Every turn of the trace is served exactly once, a session's turns in order, at times that never
      go backwards. */
  lemma EveryTurnExactlyOnce(setup: Setup, ws: seq<World>)
    requires Finished(setup, ws)
    ensures forall s, t :: 0 <= s < |setup.traces| && 0 <= t < |setup.traces[s].turns| ==> ServedAt(End(ws).log, s, t)
    ensures forall i, j :: 0 <= i < j < |End(ws).log| && End(ws).log[i].s == End(ws).log[j].s ==>
              End(ws).log[i].t < End(ws).log[j].t
    ensures forall i, j :: 0 <= i < j < |End(ws).log| ==> End(ws).log[i].now <= End(ws).log[j].now
  {
    var log, n, hw := End(ws).log, setup.config.replicas, setup.config.hw;
    RunInv(setup, ws, |ws| - 1);
    RunsEnd(setup, ws);
    forall s, t | 0 <= s < |setup.traces| && 0 <= t < |setup.traces[s].turns| ensures ServedAt(log, s, t) {
      var i := TurnIsThere(setup.traces, n, hw, log, s, t);
    }
    forall i, j | 0 <= i < j < |log| && log[i].s == log[j].s ensures log[i].t < log[j].t {
      ServedOnceInOrder(setup.traces, n, hw, log, i, j);
    }
    forall i, j | 0 <= i < j < |log| ensures log[i].now <= log[j].now {
      TimeNeverGoesBack(setup.traces, n, hw, log, i, j);
    }
  }

  ghost predicate ServedAt(log: Log, s: nat, t: nat) {
    exists i :: 0 <= i < |log| && log[i].s == s && log[i].t == t
  }

  lemma BusyTimes(setup: Setup, ws: seq<World>)
    requires IsRun(setup, ws)
    ensures End(ws).stats.gpuBusyMs <= Times(setup.config.replicas, Timing.LastDone(End(ws).log))
  {
    var traces, n, hw := setup.traces, setup.config.replicas, setup.config.hw;
    RunInv(setup, ws, |ws| - 1);
    StatsTotals(traces, n, hw, End(ws).log);
    Timing.BusyBound(traces, n, hw, End(ws).log);
  }

  /** The cluster's busy time is at most all replicas together until the last completion. */
  lemma BusyTimeBound(setup: Setup, ws: seq<World>)
    requires IsRun(setup, ws)
    ensures End(ws).stats.gpuBusyMs <= setup.config.replicas as real * Timing.LastDone(End(ws).log)
  {
    BusyTimes(setup, ws);
    TimesIsProduct(setup.config.replicas, Timing.LastDone(End(ws).log));
  }

  // ---- Session clocks ------------------------------------------------------------------

  lemma {:induction false} ClocksOf(traces: seq<SessionTrace>, n: nat, hw: Hardware, log: Log, s: nat)
    requires WellFormed(traces, n, hw, log) && DistinctSessions(traces) && s < |traces|
    requires forall i :: 0 <= i < |log| ==> log[i].s < |traces|
    ensures Unique(Ends(traces, log)) && Unique(Starts(traces, log))
    ensures var id := traces[s].session;
            && (Has(Ends(traces, log), id) <==> Progress(log, s) > 0)
            && (Has(Starts(traces, log), id) <==> Progress(log, s) > 0)
            && (Progress(log, s) > 0 ==>
                  && Get(Ends(traces, log), id) == LastOf(log, s).Done()
                  && Get(Starts(traces, log), id) == traces[s].arrival)
    decreases |log|
  {
    if log != [] {
      var front, x := log[..|log| - 1], log[|log| - 1];
      WellFormedFront(traces, n, hw, log);
      ClocksOf(traces, n, hw, front, s);
      PutFacts(Ends(traces, front), traces[x.s].session, x.Done());
      PutFacts(Starts(traces, front), traces[x.s].session, x.now);
    }
  }

  /** Every session that has ended something has started. */
  lemma {:induction false} EndedHaveStarted(traces: seq<SessionTrace>, log: Log, id: string)
    requires forall i :: 0 <= i < |log| ==> log[i].s < |traces|
    ensures Unique(Ends(traces, log)) && Unique(Starts(traces, log))
    ensures Has(Ends(traces, log), id) ==> Has(Starts(traces, log), id)
    decreases |log|
  {
    if log != [] {
      var front, x := log[..|log| - 1], log[|log| - 1];
      EndedHaveStarted(traces, front, id);
      PutFacts(Ends(traces, front), traces[x.s].session, x.Done());
      PutFacts(Starts(traces, front), traces[x.s].session, x.now);
    }
  }

  // What the harness appends to job_completion_ms for a session.
  function JobMs(started: Dict<real>, ended: Dict<real>, id: string): real
    requires Has(ended, id) && Has(started, id)
  {
    Get(ended, id) - Get(started, id)
  }

  lemma JobOf(traces: seq<SessionTrace>, n: nat, hw: Hardware, log: Log, s: nat)
    requires WellFormed(traces, n, hw, log) && DistinctSessions(traces) && ValidTraces(traces) && s < |traces|
    requires forall i :: 0 <= i < |log| ==> log[i].s < |traces|
    requires Progress(log, s) == |traces[s].turns|
    ensures var started, ended, id, turns := Starts(traces, log), Ends(traces, log), traces[s].session, traces[s].turns;
            && Has(ended, id) && Has(started, id)
            && JobMs(started, ended, id) == Timing.Latencies(log, s) + Timing.ToolTime(turns, |turns| - 1)
            && JobMs(started, ended, id) >= Timing.DecodeTime(hw, turns, |turns|) + Timing.ToolTime(turns, |turns| - 1)
  {
    ClocksOf(traces, n, hw, log, s);
    Timing.JobDecomposes(traces, n, hw, log, s);
  }

  /** A job takes its latencies and its tool calls, in either arm: no scheduler gets a session below its
      tool and decode time. */
  lemma JobCompletion(setup: Setup, ws: seq<World>, s: nat)
    requires Finished(setup, ws) && DistinctSessions(setup.traces) && s < |setup.traces|
    ensures var w, id, turns := End(ws), setup.traces[s].session, setup.traces[s].turns;
            && Has(w.ended, id) && Has(w.started, id)
            && JobMs(w.started, w.ended, id) == Timing.Latencies(w.log, s) + Timing.ToolTime(turns, |turns| - 1)
            && JobMs(w.started, w.ended, id) >=
                 Timing.DecodeTime(setup.config.hw, turns, |turns|) + Timing.ToolTime(turns, |turns| - 1)
  {
    RunInv(setup, ws, |ws| - 1);
    RunsEnd(setup, ws);
    JobOf(setup.traces, setup.config.replicas, setup.config.hw, End(ws).log, s);
  }

  /** Every replica is a first-in first-out server throughout every run: the clock it keeps is the
      completion of the last request it was sent, and the max-plus closed form over all of them. */
  lemma ReplicasAreFifo(setup: Setup, ws: seq<World>, i: nat, r: nat)
    requires IsRun(setup, ws) && i < |ws| && r < setup.config.replicas
    ensures r < |ws[i].replicas|
    ensures var xs, free := On(ws[i].log, r), ws[i].replicas[r].freeAt;
            && free == (if xs == [] then 0.0 else xs[|xs| - 1].Done())
            && free >= Timing.ServiceFrom(xs, 0)
            && (forall k :: 0 <= k < |xs| ==> free >= Timing.Candidate(xs, k))
            && (free == Timing.ServiceFrom(xs, 0) || exists k :: 0 <= k < |xs| && free == Timing.Candidate(xs, k))
  {
    RunInv(setup, ws, i);
    assert ReplicaOk(setup.config.hw, ws[i].log, r, ws[i].replicas[r]);
    LastOnIsFree(ws[i].log, r);
    Timing.FreeAtClosedForm(setup.traces, setup.config.replicas, setup.config.hw, ws[i].log, r);
  }

  lemma {:induction false} LastOnIsFree(log: Log, r: nat)
    ensures FreeAt(log, r) == if On(log, r) == [] then 0.0 else On(log, r)[|On(log, r)| - 1].Done()
  {
    if log != [] {
      LastOnIsFree(log[..|log| - 1], r);
    }
  }
}
