// The adaptive arm while affinity holds: every session is cached at most once, at the replica its
// home pointer names. From this follow the exact cost of a run, its optimality, and that nothing is
// left behind.
module SingleCopy {
  import opened Models
  import opened OrderedDict
  import opened Policy
  import opened Backend
  import opened Router
  import opened SessionStore
  import opened ReplayLog
  import opened ReplaySpec
  import opened Replay
  import opened ReplayCaches
  import Spec = ReplicaSpec

  // ---- One routing decision ------------------------------------------------------------

  lemma RouteWarm(lim: Limits, rs: seq<Spec.State>, a: Affinity, session: string, now: real, clock: Clock)
    requires lim.gpuCap > 0 && rs != []
    ensures var (k, a') := Route(lim, rs, a, session, now, clock);
            var warm := WarmHome(rs, Fetch(a.home, session, clock.atGet).0, session);
            && a'.hits == a.hits + (if warm.Some? && a'.breaks == a.breaks then 1 else 0)
            && a'.breaks >= a.breaks
            && (warm.None? ==> a'.breaks == a.breaks)
            && (warm.Some? && a'.breaks == a.breaks ==> k == warm.value && Spec.Lookup(rs[k], session).0 != MISS)
  {
  }

  lemma DispatchHome(lim: Limits, rs: seq<Spec.State>, a: Affinity, session: string, now: real, atPut: real)
    requires lim.gpuCap > 0 && rs != [] && Unique(a.home)
    ensures var (k, a') := Dispatch(lim, rs, a, None, session, now, atPut);
            forall p :: p in a'.home ==> if p.0 == session then p.1.value == k else p in a.home
  {
    var k: int := LeastLoaded(lim.gpuCap, rs, now, None);
    var slot := Slot(k, atPut + lim.ttlS);
    InsertFacts(a.home, session, slot, lim.maxSessions);
    assert Dispatch(lim, rs, a, None, session, now, atPut).1.home == Insert(a.home, session, slot, lim.maxSessions);
  }

  // Unless affinity breaks, whatever home the session has afterwards is where it is served.
  lemma RouteHome(lim: Limits, rs: seq<Spec.State>, a: Affinity, session: string, now: real, clock: Clock)
    requires lim.gpuCap > 0 && rs != [] && Unique(a.home)
    requires Route(lim, rs, a, session, now, clock).1.breaks == a.breaks
    ensures var (k, a') := Route(lim, rs, a, session, now, clock);
            forall p :: p in a'.home ==> if p.0 == session then p.1.value == k else p in a.home
  {
    var (found, t) := Fetch(a.home, session, clock.atGet);
    FetchFacts(a.home, session, clock.atGet);
    if WarmHome(rs, found, session).None? {
      DispatchHome(lim, rs, a.(home := t), session, now, clock.atPut);
    } else {
      forall p | p in t && p.0 == session ensures p.1.value == found.value {
        HasIn(a.home, p);
      }
    }
  }

  // ---- The invariant -------------------------------------------------------------------

  // e is the transcript of its session's latest turn, on the replica that served it.
  ghost predicate LatestCopy(traces: seq<SessionTrace>, log: Log, r: nat, e: Entry) {
    forall s :: 0 <= s < |traces| && traces[s].session == e.session ==>
      && 0 < Progress(log, s) <= |traces[s].turns| && LastOf(log, s).rid == r
      && e.tokens == PrevTotal(traces, s, Progress(log, s))
  }

  ghost predicate LatestCopies(traces: seq<SessionTrace>, log: Log, rs: seq<Spec.State>) {
    forall r, e :: 0 <= r < |rs| && rs[r].Caches(e) ==> LatestCopy(traces, log, r, e)
  }

  // A home pointer names the replica that served the session last.
  ghost predicate PointsHome(traces: seq<SessionTrace>, log: Log, p: (string, Slot<int>)) {
    forall s :: 0 <= s < |traces| && traces[s].session == p.0 ==>
      Progress(log, s) > 0 && p.1.value == LastOf(log, s).rid
  }

  ghost predicate HomesPoint(traces: seq<SessionTrace>, log: Log, home: Table<int>) {
    forall p :: p in home ==> PointsHome(traces, log, p)
  }

  /** No returning session found its home forgotten. */
  ghost predicate NoHomeLost(log: Log) {
    forall i :: 0 <= i < |log| && log[i].t >= 1 ==> log[i].found.Some?
  }

  ghost predicate Settled(setup: Setup, w: World) {
    && setup.adaptive && w.router.Sticky? && w.router.a.breaks == 0
    && LatestCopies(setup.traces, w.log, w.replicas)
    && HomesPoint(setup.traces, w.log, w.router.a.home)
  }

  // What holds of the next event when affinity is kept.
  ghost predicate Kept(setup: Setup, w: World)
    requires Ready(setup, w)
  {
    && Choose(setup, w).1.Sticky? && Choose(setup, w).1.a.breaks == 0
    && (TheRecord(setup, w).t >= 1 ==> TheRecord(setup, w).found.Some?)
  }

  // What the invariant says of the next event and of one replica.
  lemma ReplicaAt(setup: Setup, w: World, r: nat)
    requires setup.Valid() && Inv(setup, w) && Ready(setup, w) && r < |w.replicas|
    ensures EventOk(setup.traces, w.log, Pick(w)) && Spec.TwoTier(w.replicas[r])
  {
    assert ReplicaOk(setup.config.hw, w.log, r, w.replicas[r]);
  }

  /** If the arriving session is cached anywhere, it is served there, as an affinity hit. */
  lemma ResidentIsServed(setup: Setup, w: World, r: nat)
    requires setup.Valid() && Ready(setup, w) && Settled(setup, w) && Kept(setup, w)
    requires EventOk(setup.traces, w.log, Pick(w)) && r < |w.replicas| && Spec.TwoTier(w.replicas[r])
    requires w.replicas[r].Resident(SessionOf(setup, w))
    ensures TheRecord(setup, w).rid == r
    ensures WarmHome(Cleared(w), TheRecord(setup, w).found, SessionOf(setup, w)) == Some(r)
    ensures Spec.Lookup(w.replicas[r], SessionOf(setup, w)).1
         == PrevTotal(setup.traces, TheRecord(setup, w).s, TheRecord(setup, w).t)
  {
    var x, session, home := TheRecord(setup, w), SessionOf(setup, w), w.router.a.home;
    var e := Spec.ResidentCaches(w.replicas[r], session);
    assert LatestCopy(setup.traces, w.log, r, e);
    assert x.found.Some? && Has(home, session);
    assert home[Index(home, session)] in home;
    assert PointsHome(setup.traces, w.log, home[Index(home, session)]);
    RouteWarm(setup.TheLimits(), Cleared(w), w.router.a, session, x.now, setup.clock(|w.log|));
  }

  lemma OtherCopy(traces: seq<SessionTrace>, log: Log, x: Served, r: nat, e: Entry)
    requires LatestCopy(traces, log, r, e) && x.s < |traces| && e.session != traces[x.s].session
    ensures LatestCopy(traces, log + [x], r, e)
  {
    forall s | 0 <= s < |traces| && traces[s].session == e.session
      ensures 0 < Progress(log + [x], s) <= |traces[s].turns| && LastOf(log + [x], s).rid == r
           && e.tokens == PrevTotal(traces, s, Progress(log + [x], s))
    {
      ProgressAppend(log, x, s);
    }
  }

  lemma FreshCopy(traces: seq<SessionTrace>, n: nat, hw: Hardware, log: Log, x: Served, e: Entry)
    requires DistinctSessions(traces) && Fits(traces, n, hw, log, x)
    requires e.session == traces[x.s].session && e.tokens == traces[x.s].turns[x.t].Total()
    ensures LatestCopy(traces, log + [x], x.rid, e)
  {
    ProgressAppend(log, x, x.s);
  }

  // Nothing of the arriving session survives on another replica.
  lemma NoStaleCopy(setup: Setup, w: World, r: nat, e: Entry)
    requires setup.Valid() && Ready(setup, w) && Settled(setup, w) && Kept(setup, w)
    requires EventOk(setup.traces, w.log, Pick(w)) && r < |w.replicas| && Spec.TwoTier(w.replicas[r])
    requires w.replicas[r].Caches(e) && e.session == SessionOf(setup, w)
    ensures r == TheRecord(setup, w).rid
  {
    Spec.CachesIn(w.replicas[r], e);
    ResidentIsServed(setup, w, r);
  }

  // What just has been left is the latest copy, and everything of other sessions stays one.
  lemma FreshCopyStep(setup: Setup, w: World, x: Served, e: Entry)
    requires setup.Valid() && Inv(setup, w) && Ready(setup, w) && DistinctSessions(setup.traces)
    requires x == TheRecord(setup, w) && e == Leaves(setup.config.hw, Cleared(w)[x.rid], TheRequest(setup, w))
    ensures LatestCopy(setup.traces, w.log + [x], x.rid, e)
  {
    RecordFits(setup, w);
    FreshCopy(setup.traces, setup.config.replicas, setup.config.hw, w.log, x, e);
  }

  lemma OtherCopyStep(setup: Setup, w: World, x: Served, r: nat, e: Entry)
    requires setup.Valid() && Ready(setup, w) && Settled(setup, w) && Kept(setup, w)
    requires EventOk(setup.traces, w.log, Pick(w)) && r < |w.replicas| && Spec.TwoTier(w.replicas[r])
    requires x == TheRecord(setup, w) && w.replicas[r].Caches(e)
    requires r != x.rid || e.session != SessionOf(setup, w)
    ensures LatestCopy(setup.traces, w.log + [x], r, e)
  {
    if e.session == SessionOf(setup, w) {
      NoStaleCopy(setup, w, r, e);
    }
    OtherCopy(setup.traces, w.log, x, r, e);
  }

  lemma CopyStep(setup: Setup, w: World, x: Served, r: nat, e: Entry)
    requires setup.Valid() && Inv(setup, w) && Ready(setup, w) && Settled(setup, w) && Kept(setup, w)
    requires DistinctSessions(setup.traces) && x == TheRecord(setup, w)
    requires r < |w.replicas| && ServedReplicas(setup, w)[r].Caches(e)
    ensures LatestCopy(setup.traces, w.log + [x], r, e)
  {
    StepCaches(setup, w, r, e);
    ReplicaAt(setup, w, r);
    if r == x.rid && e == Leaves(setup.config.hw, Cleared(w)[r], TheRequest(setup, w)) {
      FreshCopyStep(setup, w, x, e);
    } else {
      OtherCopyStep(setup, w, x, r, e);
    }
  }

  lemma CopiesStep(setup: Setup, w: World)
    requires setup.Valid() && Inv(setup, w) && Ready(setup, w) && Settled(setup, w) && Kept(setup, w)
    requires DistinctSessions(setup.traces)
    ensures LatestCopies(setup.traces, w.log + [TheRecord(setup, w)], ServedReplicas(setup, w))
  {
    var x, rs' := TheRecord(setup, w), ServedReplicas(setup, w);
    forall r, e | 0 <= r < |rs'| && rs'[r].Caches(e) ensures LatestCopy(setup.traces, w.log + [x], r, e) {
      CopyStep(setup, w, x, r, e);
    }
  }

  lemma HomesStep(setup: Setup, w: World)
    requires setup.Valid() && PartsOk(setup, w) && Ready(setup, w) && Settled(setup, w) && Kept(setup, w)
    requires DistinctSessions(setup.traces)
    ensures HomesPoint(setup.traces, w.log + [TheRecord(setup, w)], Choose(setup, w).1.a.home)
  {
    var traces, x, session := setup.traces, TheRecord(setup, w), SessionOf(setup, w);
    RouteHome(setup.TheLimits(), Cleared(w), w.router.a, session, x.now, setup.clock(|w.log|));
    forall p | p in Choose(setup, w).1.a.home ensures PointsHome(traces, w.log + [x], p) {
      forall s | 0 <= s < |traces| && traces[s].session == p.0
        ensures Progress(w.log + [x], s) > 0 && p.1.value == LastOf(w.log + [x], s).rid
      {
        ProgressAppend(w.log, x, s);
        assert p.0 != session ==> PointsHome(traces, w.log, p);
      }
    }
  }

  // ---- Whole runs ----------------------------------------------------------------------

  /** An adaptive run in which the release valve never fired and no home was forgotten. */
  ghost predicate Calm(setup: Setup, ws: seq<World>) {
    && IsRun(setup, ws) && setup.adaptive && DistinctSessions(setup.traces)
    && End(ws).router.Sticky? && End(ws).router.a.breaks == 0
    && NoHomeLost(End(ws).log)
  }

  lemma RunShape(setup: Setup, ws: seq<World>, i: nat)
    requires IsRun(setup, ws) && i < |ws|
    ensures |ws[i].log| == i && (setup.adaptive <==> ws[i].router.Sticky?)
  {
    RunInv(setup, ws, i);
  }

  lemma StepGrows(setup: Setup, w: World, w': World)
    requires setup.Valid() && Ready(setup, w) && w' == Step(setup, w)
    ensures w'.log == w.log + [TheRecord(setup, w)]
    ensures setup.adaptive ==> w'.router.Sticky? && w'.router.a.breaks >= w.router.a.breaks
  {
    if setup.adaptive {
      RouteWarm(setup.TheLimits(), Cleared(w), w.router.a, SessionOf(setup, w), Pick(w).at, setup.clock(|w.log|));
    }
  }

  // One event appends one record and never takes a break back.
  lemma GrowsAt(setup: Setup, ws: seq<World>, i: nat)
    requires IsRun(setup, ws) && i + 1 < |ws|
    ensures Ready(setup, ws[i]) && ws[i + 1].log == ws[i].log + [TheRecord(setup, ws[i])]
    ensures ws[i + 1].router == Choose(setup, ws[i]).1
    ensures setup.adaptive ==>
              ws[i].router.Sticky? && ws[i + 1].router.Sticky? && ws[i].router.a.breaks <= ws[i + 1].router.a.breaks
  {
    StepAt(setup, ws, i);
    StepGrows(setup, ws[i], ws[i + 1]);
  }

  lemma LogGrowsBy(a: Log, b: Log, x: Served, i: nat)
    requires b == a + [x] && i <= |a|
    ensures |b| == |a| + 1 && b[..i] == a[..i]
  {
  }

  lemma GrowsOnce(setup: Setup, ws: seq<World>, j: nat, i: nat)
    requires IsRun(setup, ws) && j + 1 < |ws| && i <= |ws[j].log|
    ensures |ws[j + 1].log| == |ws[j].log| + 1 && ws[j + 1].log[..i] == ws[j].log[..i]
  {
    GrowsAt(setup, ws, j);
    LogGrowsBy(ws[j].log, ws[j + 1].log, TheRecord(setup, ws[j]), i);
  }

  lemma {:induction false} LogGrows(setup: Setup, ws: seq<World>, i: nat, j: nat)
    requires IsRun(setup, ws) && i <= j < |ws|
    ensures |ws[i].log| == i && |ws[j].log| == j && ws[j].log[..i] == ws[i].log
    decreases j
  {
    RunShape(setup, ws, i);
    if i < j {
      LogGrows(setup, ws, i, j - 1);
      GrowsOnce(setup, ws, j - 1, i);
    }
  }

  lemma BreaksAt(setup: Setup, ws: seq<World>, i: nat)
    requires IsRun(setup, ws) && setup.adaptive && i + 1 < |ws|
    ensures ws[i].router.Sticky? && ws[i + 1].router.Sticky? && ws[i].router.a.breaks <= ws[i + 1].router.a.breaks
  {
    GrowsAt(setup, ws, i);
  }

  lemma {:induction false} BreaksGrow(setup: Setup, ws: seq<World>, i: nat, j: nat)
    requires IsRun(setup, ws) && setup.adaptive && i <= j < |ws|
    ensures ws[i].router.Sticky? && ws[j].router.Sticky? && ws[i].router.a.breaks <= ws[j].router.a.breaks
    decreases j
  {
    if i < j {
      BreaksGrow(setup, ws, i, j - 1);
      BreaksAt(setup, ws, j - 1);
    } else {
      RunShape(setup, ws, i);
    }
  }

  // The i-th entry of the final record is the event handled at the i-th state.
  lemma RecordAt(setup: Setup, ws: seq<World>, i: nat)
    requires IsRun(setup, ws) && i + 1 < |ws|
    ensures Ready(setup, ws[i]) && i < |End(ws).log| && End(ws).log[i] == TheRecord(setup, ws[i])
  {
    GrowsAt(setup, ws, i);
    LogGrows(setup, ws, i + 1, |ws| - 1);
    RunShape(setup, ws, i);
    var log := End(ws).log;
    assert log[i] == log[..i + 1][i];
  }

  lemma KeptAt(setup: Setup, ws: seq<World>, i: nat)
    requires Calm(setup, ws) && i + 1 < |ws|
    ensures Ready(setup, ws[i]) && Kept(setup, ws[i])
  {
    GrowsAt(setup, ws, i);
    BreaksGrow(setup, ws, i + 1, |ws| - 1);
    RecordAt(setup, ws, i);
  }

  lemma SettledStep(setup: Setup, w: World, w': World)
    requires setup.Valid() && Inv(setup, w) && Ready(setup, w) && w' == Step(setup, w)
    requires Settled(setup, w) && Kept(setup, w) && DistinctSessions(setup.traces)
    ensures Settled(setup, w')
  {
    CopiesStep(setup, w);
    HomesStep(setup, w);
  }

  lemma SettledNext(setup: Setup, ws: seq<World>, i: nat)
    requires Calm(setup, ws) && i + 1 < |ws| && Settled(setup, ws[i])
    ensures Settled(setup, ws[i + 1])
  {
    RunInv(setup, ws, i);
    KeptAt(setup, ws, i);
    StepAt(setup, ws, i);
    SettledStep(setup, ws[i], ws[i + 1]);
  }

  lemma InitSettled(setup: Setup)
    requires setup.adaptive
    ensures Settled(setup, Init(setup))
  {
  }

  lemma {:induction false} AlwaysSettled(setup: Setup, ws: seq<World>, i: nat)
    requires Calm(setup, ws) && i < |ws|
    ensures Settled(setup, ws[i])
  {
    if i == 0 {
      InitSettled(setup);
    } else {
      AlwaysSettled(setup, ws, i - 1);
      SettledNext(setup, ws, i - 1);
    }
  }

  /** Single copy: at every state of a calm run a session is resident on at most one replica, the one
      that served it last, and its home pointer, if there is one, names that replica. */
  lemma OneCopyAtHome(setup: Setup, ws: seq<World>, i: nat, s: nat, r: nat)
    requires Calm(setup, ws) && i < |ws| && s < |setup.traces| && r < |ws[i].replicas|
    requires ws[i].replicas[r].Resident(setup.traces[s].session)
    ensures Progress(ws[i].log, s) > 0 && r == LastOf(ws[i].log, s).rid
    ensures forall q :: 0 <= q < |ws[i].replicas| && ws[i].replicas[q].Resident(setup.traces[s].session) ==> q == r
    ensures ws[i].router.Sticky?
    ensures var home := ws[i].router.a.home;
            Has(home, setup.traces[s].session) ==> Get(home, setup.traces[s].session).value == r
  {
    AlwaysSettled(setup, ws, i);
    RunInv(setup, ws, i);
    var w, id := ws[i], setup.traces[s].session;
    forall q | 0 <= q < |w.replicas| && w.replicas[q].Resident(id)
      ensures Progress(w.log, s) > 0 && q == LastOf(w.log, s).rid
    {
      assert ReplicaOk(setup.config.hw, w.log, q, w.replicas[q]);
      var e := Spec.ResidentCaches(w.replicas[q], id);
      assert LatestCopy(setup.traces, w.log, q, e);
    }
    var home := w.router.a.home;
    if Has(home, id) {
      assert home[Index(home, id)] in home;
      assert PointsHome(setup.traces, w.log, home[Index(home, id)]);
    }
  }

  // ---- Hits ----------------------------------------------------------------------------

  // An affinity hit is a cache hit.
  lemma WarmIsHit(setup: Setup, w: World, w': World)
    requires setup.Valid() && Inv(setup, w) && Ready(setup, w) && w' == Step(setup, w) && setup.adaptive
    ensures w'.router.Sticky?
    ensures w'.router.a.hits - w.router.a.hits <=
              (w'.stats.gpuHits + w'.stats.dramHits) - (w.stats.gpuHits + w.stats.dramHits)
    ensures w'.router.a.hits >= w.router.a.hits
    ensures WarmHome(Cleared(w), TheRecord(setup, w).found, SessionOf(setup, w)).Some? ==>
              w'.router.a.breaks == w.router.a.breaks ==> w'.router.a.hits == w.router.a.hits + 1
  {
    RouteWarm(setup.TheLimits(), Cleared(w), w.router.a, SessionOf(setup, w), Pick(w).at, setup.clock(|w.log|));
  }

  /** In every adaptive run, whatever breaks or is forgotten, affinity hits are cache hits. */
  lemma {:induction false} AffinityHitsAreHits(setup: Setup, ws: seq<World>, i: nat)
    requires IsRun(setup, ws) && setup.adaptive && i < |ws|
    ensures ws[i].router.Sticky? && ws[i].router.a.hits <= ws[i].stats.gpuHits + ws[i].stats.dramHits
  {
    if i > 0 {
      AffinityHitsAreHits(setup, ws, i - 1);
      RunInv(setup, ws, i - 1);
      StepAt(setup, ws, i - 1);
      WarmIsHit(setup, ws[i - 1], ws[i]);
    }
  }

  lemma HitIsWarm(setup: Setup, w: World, w': World)
    requires setup.Valid() && Inv(setup, w) && Ready(setup, w) && w' == Step(setup, w)
    requires Settled(setup, w) && Kept(setup, w)
    ensures w'.router.Sticky?
    ensures w'.router.a.hits - w.router.a.hits ==
              (w'.stats.gpuHits + w'.stats.dramHits) - (w.stats.gpuHits + w.stats.dramHits)
  {
    WarmIsHit(setup, w, w');
    var x := TheRecord(setup, w);
    if x.result.tier != MISS {
      ReplicaAt(setup, w, x.rid);
      ResidentIsServed(setup, w, x.rid);
    }
  }

  /** And in a calm run the two agree: every hit is an affinity hit. */
  lemma {:induction false} HitsAreAffinityHits(setup: Setup, ws: seq<World>, i: nat)
    requires Calm(setup, ws) && i < |ws|
    ensures ws[i].router.Sticky? && ws[i].router.a.hits == ws[i].stats.gpuHits + ws[i].stats.dramHits
  {
    if i > 0 {
      HitsAreAffinityHits(setup, ws, i - 1);
      AlwaysSettled(setup, ws, i - 1);
      RunInv(setup, ws, i - 1);
      KeptAt(setup, ws, i - 1);
      StepAt(setup, ws, i - 1);
      HitIsWarm(setup, ws[i - 1], ws[i]);
    }
  }

  // ---- Exact cost ----------------------------------------------------------------------

  // All or nothing: a hit reuses everything the previous turn left, a miss nothing.
  ghost predicate AllOrNothing(traces: seq<SessionTrace>, x: Served) {
    x.result.reused == if x.result.tier == MISS then 0 else PrevTotal(traces, x.s, x.t)
  }

  lemma ReuseIsAllOrNothing(setup: Setup, w: World)
    requires setup.Valid() && Inv(setup, w) && Ready(setup, w) && Settled(setup, w) && Kept(setup, w)
    requires Growing(setup.traces)
    ensures AllOrNothing(setup.traces, TheRecord(setup, w))
    ensures TheRecord(setup, w).t == 0 && DistinctSessions(setup.traces) ==> TheRecord(setup, w).result.tier == MISS
  {
    InvReady(setup, w);
    var x := TheRecord(setup, w);
    assert ReplicaOk(setup.config.hw, w.log, x.rid, w.replicas[x.rid]);
    if x.result.tier != MISS {
      ReplicaAt(setup, w, x.rid);
      ResidentIsServed(setup, w, x.rid);
      var e := Spec.ResidentCaches(w.replicas[x.rid], SessionOf(setup, w));
      assert LatestCopy(setup.traces, w.log, x.rid, e);
      assert setup.traces[x.s].turns[x.t].prompt >= setup.traces[x.s].turns[x.t - 1].Total();
    }
  }

  // What misses cost beyond the minimum: the transcripts that had to be computed again.
  function LostTokens(traces: seq<SessionTrace>, log: Log): nat {
    if log == [] then 0
    else
      var x := log[|log| - 1];
      LostTokens(traces, log[..|log| - 1]) + (if x.result.tier == MISS then PrevTotal(traces, x.s, x.t) else 0)
  }

  // Misses after a session's first turn.
  function LateMisses(log: Log): nat {
    if log == [] then 0
    else
      var x := log[|log| - 1];
      LateMisses(log[..|log| - 1]) + (if x.result.tier == MISS && x.t > 0 then 1 else 0)
  }

  function FirstTurn(): (nat, nat) -> int {
    (s: nat, t: nat) => if t == 0 then 1 else 0
  }

  ghost predicate Costs(traces: seq<SessionTrace>, log: Log) {
    && StatsOf(log).computed == LogSum(log, NeedAt(traces)) + LostTokens(traces, log)
    && StatsOf(log).misses == LogSum(log, FirstTurn()) + LateMisses(log)
    && (LateMisses(log) == 0 ==> LostTokens(traces, log) == 0)
  }

  lemma CostsAppend(traces: seq<SessionTrace>, n: nat, hw: Hardware, log: Log, x: Served)
    requires Costs(traces, log) && Fits(traces, n, hw, log, x) && AllOrNothing(traces, x)
    requires x.t == 0 ==> x.result.tier == MISS
    ensures Costs(traces, log + [x])
  {
    assert (log + [x])[..|log|] == log;
    NeedOfRecord(traces, n, hw, log, x);
  }

  lemma {:induction false} CostAt(setup: Setup, ws: seq<World>, i: nat)
    requires Calm(setup, ws) && Growing(setup.traces) && i < |ws|
    ensures Costs(setup.traces, ws[i].log)
  {
    if i > 0 {
      CostAt(setup, ws, i - 1);
      AlwaysSettled(setup, ws, i - 1);
      RunInv(setup, ws, i - 1);
      KeptAt(setup, ws, i - 1);
      GrowsAt(setup, ws, i - 1);
      RecordFits(setup, ws[i - 1]);
      ReuseIsAllOrNothing(setup, ws[i - 1]);
      CostsAppend(setup.traces, setup.config.replicas, setup.config.hw, ws[i - 1].log, TheRecord(setup, ws[i - 1]));
    }
  }

  lemma {:induction false} FirstTurnsOf(s: nat, k: nat)
    requires k > 0
    ensures TurnSum(FirstTurn(), s, k) == 1
  {
    if k > 1 {
      FirstTurnsOf(s, k - 1);
    } else {
      assert TurnSum(FirstTurn(), s, 0) == 0;
    }
  }

  lemma {:induction false} FirstTurnsCount(traces: seq<SessionTrace>, m: nat)
    requires ValidTraces(traces) && m <= |traces|
    ensures TraceSum(FirstTurn(), traces, m) == m
  {
    if m > 0 {
      FirstTurnsCount(traces, m - 1);
      FirstTurnsOf(m - 1, |traces[m - 1].turns|);
    }
  }

  /** The exact cost of a calm run: the minimum the trace needs, plus the transcripts lost to misses on
      later turns; and it misses once per session plus once per such turn. */
  lemma CalmCost(setup: Setup, ws: seq<World>)
    requires Calm(setup, ws) && Finished(setup, ws) && Growing(setup.traces)
    ensures End(ws).stats.computed == Minimum(setup.traces) + LostTokens(setup.traces, End(ws).log)
    ensures End(ws).stats.misses == |setup.traces| + LateMisses(End(ws).log)
    ensures End(ws).stats.misses == |setup.traces| ==> End(ws).stats.computed == Minimum(setup.traces)
  {
    var traces, n, hw, log := setup.traces, setup.config.replicas, setup.config.hw, End(ws).log;
    CostAt(setup, ws, |ws| - 1);
    RunInv(setup, ws, |ws| - 1);
    RunsEnd(setup, ws);
    CompleteSum(traces, n, hw, log, NeedAt(traces));
    CompleteSum(traces, n, hw, log, FirstTurn());
    FirstTurnsCount(traces, |traces|);
  }

  /** Two runs compared: a calm adaptive run that misses once per session computes no more tokens than
      any other run of the same trace, on any cluster, under either router and policy. */
  lemma CalmRunIsOptimal(a: Setup, run: seq<World>, b: Setup, other: seq<World>)
    requires Calm(a, run) && Finished(a, run) && Growing(a.traces) && End(run).stats.misses == |a.traces|
    requires Finished(b, other) && b.traces == a.traces
    ensures End(run).stats.computed <= End(other).stats.computed
  {
    CalmCost(a, run);
    ReuseLowerBound(b, other);
  }
}
