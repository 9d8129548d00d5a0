// When the reuse lower bound is met: what the hits of an optimal run look like.
module ReuseExact {
  import opened Models
  import opened OrderedDict
  import opened Backend
  import opened ReplayLog
  import opened ReplaySpec
  import opened Replay
  import opened ReplayCaches
  import SingleCopy
  import Spec = ReplicaSpec

  ghost predicate Answering(traces: seq<SessionTrace>) {
    forall s, t :: 0 <= s < |traces| && 0 <= t < |traces[s].turns| ==> traces[s].turns[t].output > 0
  }

  // The copy that the turn just before left, and that no earlier turn can have left.
  ghost predicate FreshCopy(traces: seq<SessionTrace>, log: Log, e: Entry, s: nat, t: nat) {
    t > 0 && LeftBy(traces, log, e, s, t - 1) && forall u: nat :: LeftBy(traces, log, e, s, u) ==> u == t - 1
  }

  // The replica about to serve the t-th turn of s holds that copy.
  ghost predicate HoldsFresh(traces: seq<SessionTrace>, log: Log, st: Spec.State, s: nat, t: nat)
    requires s < |traces|
  {
    exists e :: st.Caches(e) && e.session == traces[s].session && FreshCopy(traces, log, e, s, t)
  }

  lemma TotalsIncrease(traces: seq<SessionTrace>, s: nat, t: nat, u: nat)
    requires Growing(traces) && Answering(traces) && s < |traces| && t < u < |traces[s].turns|
    ensures traces[s].turns[t].Total() < traces[s].turns[u].Total()
  {
    TotalsGrow(traces, s, t, u - 1);
    assert traces[s].turns[u].prompt >= traces[s].turns[u - 1].Total();
  }

  lemma TotalsIdentify(traces: seq<SessionTrace>, log: Log, e: Entry, s: nat, t: nat)
    requires Growing(traces) && Answering(traces) && s < |traces| && 0 < t < |traces[s].turns| && Progress(log, s) == t
    requires e.session == traces[s].session && e.tokens == PrevTotal(traces, s, t)
    ensures FreshCopy(traces, log, e, s, t)
  {
    forall u: nat | LeftBy(traces, log, e, s, u) ensures u == t - 1 {
      if u < t - 1 {
        TotalsIncrease(traces, s, u, t - 1);
      }
    }
  }

  lemma CachedTokens(st: Spec.State, e: Entry)
    requires Spec.TwoTier(st) && st.Caches(e)
    ensures Spec.Lookup(st, e.session).0 != MISS && Spec.Lookup(st, e.session).1 == e.tokens
  {
    if (e.session, e) in st.gpu {
      HasIn(st.gpu, (e.session, e));
    } else {
      HasIn(st.dram, (e.session, e));
    }
  }

  // A later turn finds all that the turn before left exactly when that turn's own copy is there.
  lemma FullLookup(traces: seq<SessionTrace>, log: Log, st: Spec.State, s: nat, t: nat)
    requires Growing(traces) && Answering(traces) && Spec.TwoTier(st)
    requires s < |traces| && 0 < t < |traces[s].turns| && Progress(log, s) == t
    ensures HoldsFresh(traces, log, st, s, t)
       <==> (Spec.Lookup(st, traces[s].session).0 != MISS
             && Spec.Lookup(st, traces[s].session).1 == PrevTotal(traces, s, t))
  {
    var id := traces[s].session;
    if HoldsFresh(traces, log, st, s, t) {
      var e :| st.Caches(e) && e.session == id && FreshCopy(traces, log, e, s, t);
      CachedTokens(st, e);
    }
    if Spec.Lookup(st, id).0 != MISS && Spec.Lookup(st, id).1 == PrevTotal(traces, s, t) {
      var e := Spec.ResidentCaches(st, id);
      TotalsIdentify(traces, log, e, s, t);
    }
  }

  // What is reused of a cached prefix: all of it, if it is no longer than the prompt.
  lemma FullReuse(hw: Hardware, id: nat, st: Spec.State, req: Request, most: nat)
    requires Spec.Lookup(st, req.session).1 <= most <= req.prompt && most > 0
    ensures Outcome(hw, id, st, req).reused == most
       <==> (Spec.Lookup(st, req.session).0 != MISS && Spec.Lookup(st, req.session).1 == most)
  {
  }

  lemma ReuseOfTurn(setup: Setup, w: World)
    requires setup.Valid() && Inv(setup, w) && w.queue != [] && AllEarned(setup.traces, w.log, w.replicas)
    requires Growing(setup.traces) && DistinctSessions(setup.traces) && Answering(setup.traces)
    ensures Ready(setup, w)
    ensures var x := TheRecord(setup, w);
            x.t > 0 ==> (x.result.reused == PrevTotal(setup.traces, x.s, x.t)
                    <==> HoldsFresh(setup.traces, w.log, w.replicas[x.rid], x.s, x.t))
  {
    RecordFits(setup, w);
    var traces, x := setup.traces, TheRecord(setup, w);
    if x.t > 0 {
      var st, id := w.replicas[x.rid], SessionOf(setup, w);
      assert ReplicaOk(setup.config.hw, w.log, x.rid, st);
      assert Spec.Lookup(Cleared(w)[x.rid], id) == Spec.Lookup(st, id);
      CachedAtMostPrevious(traces, w.log, st, x.s, x.t);
      FullLookup(traces, w.log, st, x.s, x.t);
      assert traces[x.s].turns[x.t].prompt >= traces[x.s].turns[x.t - 1].Total();
      FullReuse(setup.config.hw, x.rid, Cleared(w)[x.rid], TheRequest(setup, w), PrevTotal(traces, x.s, x.t));
    }
  }

  // Every returning session found the copy its own last turn left.
  ghost predicate AlwaysFresh(setup: Setup, ws: seq<World>)
    requires IsRun(setup, ws)
  {
    forall i :: 0 <= i < |ws| - 1 ==> FreshAt(setup, ws, i)
  }

  ghost predicate FreshAt(setup: Setup, ws: seq<World>, i: nat)
    requires i + 1 < |ws|
  {
    Ready(setup, ws[i]) &&
    var x := TheRecord(setup, ws[i]);
    x.s < |setup.traces| && x.rid < |ws[i].replicas| &&
    (x.t > 0 ==> HoldsFresh(setup.traces, ws[i].log, ws[i].replicas[x.rid], x.s, x.t))
  }

  // The i-th request reused all that its session's turn before had left.
  ghost predicate ReusedAt(traces: seq<SessionTrace>, log: Log, i: nat)
    requires i < |log|
  {
    log[i].result.reused == PrevTotal(traces, log[i].s, log[i].t)
  }

  lemma FreshIsReused(setup: Setup, ws: seq<World>, i: nat)
    requires IsRun(setup, ws) && i + 1 < |ws|
    requires Growing(setup.traces) && DistinctSessions(setup.traces) && Answering(setup.traces)
    ensures i < |End(ws).log|
    ensures FreshAt(setup, ws, i) <==> ReusedAt(setup.traces, End(ws).log, i)
  {
    RunInv(setup, ws, i);
    StepAt(setup, ws, i);
    CachesAreEarned(setup, ws, i);
    SingleCopy.RecordAt(setup, ws, i);
    RecordFits(setup, ws[i]);
    ReuseOfTurn(setup, ws[i]);
    ReuseAtMostPrevious(setup, ws[i]);
  }

  lemma AllReusedAt(traces: seq<SessionTrace>, log: Log)
    ensures AllReused(traces, log) <==> forall i :: 0 <= i < |log| ==> ReusedAt(traces, log, i)
  {
    if forall i :: 0 <= i < |log| ==> ReusedAt(traces, log, i) {
      forall i | 0 <= i < |log| ensures log[i].result.reused == PrevTotal(traces, log[i].s, log[i].t) {
        assert ReusedAt(traces, log, i);
      }
    }
  }

  lemma FreshIsAllReused(setup: Setup, ws: seq<World>)
    requires IsRun(setup, ws)
    requires Growing(setup.traces) && DistinctSessions(setup.traces) && Answering(setup.traces)
    ensures AlwaysFresh(setup, ws) <==> AllReused(setup.traces, End(ws).log)
  {
    RunInv(setup, ws, |ws| - 1);
    AllReusedAt(setup.traces, End(ws).log);
    forall i | 0 <= i < |ws| - 1 ensures FreshAt(setup, ws, i) <==> ReusedAt(setup.traces, End(ws).log, i) {
      FreshIsReused(setup, ws, i);
    }
  }

  /** The bound is met exactly by the runs in which every later turn is a hit on the copy that the turn
      just before it left: no other copy, however recent, will do. */
  lemma BoundIsMetByFreshCopies(setup: Setup, ws: seq<World>)
    requires Finished(setup, ws)
    requires Growing(setup.traces) && DistinctSessions(setup.traces) && Answering(setup.traces)
    ensures End(ws).stats.computed == Minimum(setup.traces) <==> AlwaysFresh(setup, ws)
  {
    ReuseLowerBound(setup, ws);
    FreshIsAllReused(setup, ws);
  }
}
