// What every run of the replay does with cached tokens: misses are conserved, nothing is reused that
// an earlier turn did not leave behind, and so no schedule can compute less than the trace needs.
module ReplayCaches {
  import opened Models
  import opened OrderedDict
  import opened Policy
  import opened Backend
  import opened ReplayLog
  import opened ReplaySpec
  import opened Replay
  import Spec = ReplicaSpec

  // ---- Misses and evictions ------------------------------------------------------------

  function TallyAll(rs: seq<Spec.State>): nat {
    if rs == [] then 0 else TallyAll(rs[..|rs| - 1]) + Spec.Tally(rs[|rs| - 1])
  }

  function EvictionsAll(rs: seq<Spec.State>): nat {
    if rs == [] then 0 else EvictionsAll(rs[..|rs| - 1]) + rs[|rs| - 1].evictions
  }

  function OffloadsAll(rs: seq<Spec.State>): nat {
    if rs == [] then 0 else OffloadsAll(rs[..|rs| - 1]) + rs[|rs| - 1].offloads
  }

  lemma {:induction false} TallyUpdate(rs: seq<Spec.State>, rs': seq<Spec.State>, k: nat, d: int)
    requires |rs| == |rs'| && k < |rs|
    requires forall i :: 0 <= i < |rs| ==> Spec.Tally(rs'[i]) == Spec.Tally(rs[i]) + (if i == k then d else 0)
    ensures TallyAll(rs') == TallyAll(rs) + d
  {
    var n := |rs| - 1;
    if k < n {
      TallyUpdate(rs[..n], rs'[..n], k, d);
    } else {
      TallySame(rs[..n], rs'[..n]);
    }
  }

  lemma {:induction false} TallySame(rs: seq<Spec.State>, rs': seq<Spec.State>)
    requires |rs| == |rs'| && forall i :: 0 <= i < |rs| ==> Spec.Tally(rs'[i]) == Spec.Tally(rs[i])
    ensures TallyAll(rs') == TallyAll(rs)
  {
    if rs != [] {
      TallySame(rs[..|rs| - 1], rs'[..|rs| - 1]);
    }
  }

  lemma {:induction false} EvictionsBelowTally(rs: seq<Spec.State>)
    ensures EvictionsAll(rs) <= TallyAll(rs)
    ensures (forall i :: 0 <= i < |rs| ==> rs[i].gpu == [] && rs[i].dram == []) ==> EvictionsAll(rs) == TallyAll(rs)
  {
    if rs != [] {
      EvictionsBelowTally(rs[..|rs| - 1]);
    }
  }

  lemma {:induction false} TallyEmpty(n: nat)
    ensures TallyAll(seq(n, _ => Spec.EMPTY)) == 0
  {
    if n > 0 {
      TallyEmpty(n - 1);
      assert seq(n, _ => Spec.EMPTY)[..n - 1] == seq(n - 1, _ => Spec.EMPTY);
    }
  }

  lemma ServedTally(setup: Setup, w: World)
    requires setup.Valid() && Ready(setup, w) && ReplicasOk(setup.config.hw, w.log, w.replicas)
    ensures TallyAll(ServedReplicas(setup, w))
         == TallyAll(w.replicas) + (if TheRecord(setup, w).result.tier == MISS then 1 else 0)
  {
    var x, rs' := TheRecord(setup, w), ServedReplicas(setup, w);
    var st, req := Cleared(w)[x.rid], TheRequest(setup, w);
    assert ReplicaOk(setup.config.hw, w.log, x.rid, w.replicas[x.rid]);
    ExecuteCaches(setup.ThePolicy(), setup.config.hw, st, req);
    TallyUpdate(w.replicas, rs', x.rid, if x.result.tier == MISS then 1 else 0);
  }

  /** At every event of either arm, the misses so far are exactly the sessions still cached plus the
      sessions evicted, over all replicas. */
  lemma {:induction false} MissesAreConserved(setup: Setup, ws: seq<World>, i: nat)
    requires IsRun(setup, ws) && i < |ws|
    ensures ws[i].stats.misses == TallyAll(ws[i].replicas)
  {
    if i == 0 {
      TallyEmpty(setup.config.replicas);
    } else {
      MissesAreConserved(setup, ws, i - 1);
      RunInv(setup, ws, i - 1);
      StepAt(setup, ws, i - 1);
      ServedTally(setup, ws[i - 1]);
    }
  }

  /** Hence a run never reports more evictions than misses. */
  lemma EvictionsNeverExceedMisses(setup: Setup, ws: seq<World>)
    requires IsRun(setup, ws)
    ensures EvictionsAll(End(ws).replicas) <= End(ws).stats.misses
  {
    MissesAreConserved(setup, ws, |ws| - 1);
    EvictionsBelowTally(End(ws).replicas);
  }

  // ---- Where cached tokens come from ---------------------------------------------------

  /** Prompts only grow: each contains the one before it and the answer to it. */
  ghost predicate Growing(traces: seq<SessionTrace>) {
    forall s, t :: 0 <= s < |traces| && 0 < t < |traces[s].turns| ==>
      traces[s].turns[t].prompt >= traces[s].turns[t - 1].Total()
  }

  // A served turn of the entry's own session left exactly these tokens.
  ghost predicate LeftBy(traces: seq<SessionTrace>, log: Log, e: Entry, s: nat, t: nat) {
    && s < |traces| && traces[s].session == e.session
    && t < Progress(log, s) <= |traces[s].turns| && e.tokens == traces[s].turns[t].Total()
  }

  ghost predicate Earned(traces: seq<SessionTrace>, log: Log, e: Entry) {
    exists s: nat, t: nat :: LeftBy(traces, log, e, s, t)
  }

  ghost predicate AllEarned(traces: seq<SessionTrace>, log: Log, rs: seq<Spec.State>) {
    forall r, e :: 0 <= r < |rs| && rs[r].Caches(e) ==> Earned(traces, log, e)
  }

  lemma EarnedAppend(traces: seq<SessionTrace>, n: nat, hw: Hardware, log: Log, x: Served, e: Entry)
    requires WellFormed(traces, n, hw, log + [x]) && Earned(traces, log, e)
    ensures Earned(traces, log + [x], e)
  {
    var s: nat, t: nat :| LeftBy(traces, log, e, s, t);
    ProgressAppend(log, x, s);
    ProgressBound(traces, n, hw, log + [x], s);
    assert LeftBy(traces, log + [x], e, s, t);
  }

  // A fresh entry is earned by the turn just served.
  lemma FreshEarned(traces: seq<SessionTrace>, n: nat, hw: Hardware, log: Log, x: Served, e: Entry)
    requires Fits(traces, n, hw, log, x)
    requires e.session == traces[x.s].session && e.tokens == traces[x.s].turns[x.t].Total()
    ensures Earned(traces, log + [x], e)
  {
    ProgressAppend(log, x, x.s);
    assert LeftBy(traces, log + [x], e, x.s, x.t);
  }

  // What a step leaves in the caches: survivors, and on one replica the fresh entry.
  lemma StepCaches(setup: Setup, w: World, r: nat, e: Entry)
    requires setup.Valid() && Ready(setup, w) && ReplicasOk(setup.config.hw, w.log, w.replicas)
    requires r < |w.replicas| && ServedReplicas(setup, w)[r].Caches(e)
    ensures var x := TheRecord(setup, w);
            || (r != x.rid && w.replicas[r].Caches(e))
            || (r == x.rid && e.session != SessionOf(setup, w) && w.replicas[r].Caches(e))
            || (r == x.rid && e == Leaves(setup.config.hw, Cleared(w)[r], TheRequest(setup, w)))
  {
    assert ReplicaOk(setup.config.hw, w.log, r, w.replicas[r]);
    if r == TheRecord(setup, w).rid {
      ExecuteCaches(setup.ThePolicy(), setup.config.hw, Cleared(w)[r], TheRequest(setup, w));
    }
  }

  lemma EarnedStep(setup: Setup, w: World)
    requires setup.Valid() && Inv(setup, w) && w.queue != [] && AllEarned(setup.traces, w.log, w.replicas)
    ensures Ready(setup, w) && AllEarned(setup.traces, w.log + [TheRecord(setup, w)], ServedReplicas(setup, w))
  {
    RecordFits(setup, w);
    var traces, n, hw, x := setup.traces, setup.config.replicas, setup.config.hw, TheRecord(setup, w);
    WellFormedAppend(traces, n, hw, w.log, x);
    forall r, e | 0 <= r < |w.replicas| && ServedReplicas(setup, w)[r].Caches(e)
      ensures Earned(traces, w.log + [x], e)
    {
      StepCaches(setup, w, r, e);
      if w.replicas[r].Caches(e) {
        EarnedAppend(traces, n, hw, w.log, x, e);
      } else {
        FreshEarned(traces, n, hw, w.log, x, e);
      }
    }
  }

  lemma EarnedNext(setup: Setup, w: World, w': World)
    requires setup.Valid() && Inv(setup, w) && w.queue != [] && AllEarned(setup.traces, w.log, w.replicas)
    requires Ready(setup, w) && w' == Step(setup, w)
    ensures AllEarned(setup.traces, w'.log, w'.replicas)
  {
    EarnedStep(setup, w);
  }

  /** Every entry any replica ever holds is the transcript an earlier turn of that session left. */
  lemma {:induction false} CachesAreEarned(setup: Setup, ws: seq<World>, i: nat)
    requires IsRun(setup, ws) && i < |ws|
    ensures AllEarned(setup.traces, ws[i].log, ws[i].replicas)
  {
    if i > 0 {
      CachesAreEarned(setup, ws, i - 1);
      RunInv(setup, ws, i - 1);
      StepAt(setup, ws, i - 1);
      EarnedNext(setup, ws[i - 1], ws[i]);
    }
  }

  // ---- The lower bound -----------------------------------------------------------------

  // Tokens the previous turn left.
  function PrevTotal(traces: seq<SessionTrace>, s: nat, t: nat): nat {
    if s < |traces| && 0 < t <= |traces[s].turns| then traces[s].turns[t - 1].Total() else 0
  }

  // Tokens nobody can have cached: the first prompt, and what each later prompt adds.
  function NeedOf(traces: seq<SessionTrace>, s: nat, t: nat): int {
    PromptOf(traces, s, t) - PrevTotal(traces, s, t)
  }

  function NeedAt(traces: seq<SessionTrace>): (nat, nat) -> int {
    (s: nat, t: nat) => NeedOf(traces, s, t)
  }

  function Minimum(traces: seq<SessionTrace>): int {
    TraceSum(NeedAt(traces), traces, |traces|)
  }

  lemma {:induction false} TotalsGrow(traces: seq<SessionTrace>, s: nat, t: nat, u: nat)
    requires Growing(traces) && s < |traces| && t <= u < |traces[s].turns|
    ensures traces[s].turns[t].Total() <= traces[s].turns[u].Total()
    decreases u
  {
    if t < u {
      TotalsGrow(traces, s, t, u - 1);
      assert traces[s].turns[u].prompt >= traces[s].turns[u - 1].Total();
    }
  }

  // What is cached for a session about to take its t-th turn is at most what the turn before left.
  lemma CachedAtMostPrevious(traces: seq<SessionTrace>, log: Log, st: Spec.State, s: nat, t: nat)
    requires Growing(traces) && DistinctSessions(traces) && Spec.TwoTier(st)
    requires s < |traces| && t < |traces[s].turns| && Progress(log, s) == t
    requires forall e :: st.Caches(e) ==> Earned(traces, log, e)
    ensures Spec.Lookup(st, traces[s].session).1 <= PrevTotal(traces, s, t)
  {
    if st.Resident(traces[s].session) {
      var e := Spec.ResidentCaches(st, traces[s].session);
      assert Earned(traces, log, e);
      var s': nat, t': nat :| LeftBy(traces, log, e, s', t');
      assert s' == s;
      TotalsGrow(traces, s, t', t - 1);
    }
  }

  // Reuse is limited by the turn just before.
  lemma ReuseAtMostPrevious(setup: Setup, w: World)
    requires setup.Valid() && Inv(setup, w) && w.queue != [] && AllEarned(setup.traces, w.log, w.replicas)
    requires Growing(setup.traces) && DistinctSessions(setup.traces)
    ensures Ready(setup, w)
    ensures var x := TheRecord(setup, w); x.result.reused <= PrevTotal(setup.traces, x.s, x.t)
  {
    RecordFits(setup, w);
    var x := TheRecord(setup, w);
    assert ReplicaOk(setup.config.hw, w.log, x.rid, w.replicas[x.rid]);
    CachedAtMostPrevious(setup.traces, w.log, w.replicas[x.rid], x.s, x.t);
    assert Spec.Lookup(Cleared(w)[x.rid], SessionOf(setup, w)) == Spec.Lookup(w.replicas[x.rid], SessionOf(setup, w));
  }

  ghost predicate AllBounded(traces: seq<SessionTrace>, log: Log) {
    forall i :: 0 <= i < |log| ==> log[i].result.reused <= PrevTotal(traces, log[i].s, log[i].t)
  }

  lemma BoundedAppend(traces: seq<SessionTrace>, log: Log, x: Served)
    requires AllBounded(traces, log) && x.result.reused <= PrevTotal(traces, x.s, x.t)
    ensures AllBounded(traces, log + [x])
  {
  }

  lemma {:induction false} RunsAreBounded(setup: Setup, ws: seq<World>, i: nat)
    requires IsRun(setup, ws) && i < |ws| && Growing(setup.traces) && DistinctSessions(setup.traces)
    ensures AllBounded(setup.traces, ws[i].log)
  {
    if i > 0 {
      RunsAreBounded(setup, ws, i - 1);
      CachesAreEarned(setup, ws, i - 1);
      RunInv(setup, ws, i - 1);
      StepAt(setup, ws, i - 1);
      ReuseAtMostPrevious(setup, ws[i - 1]);
      BoundedAppend(setup.traces, ws[i - 1].log, TheRecord(setup, ws[i - 1]));
    }
  }

  ghost predicate AllReused(traces: seq<SessionTrace>, log: Log) {
    forall i :: 0 <= i < |log| ==> log[i].result.reused == PrevTotal(traces, log[i].s, log[i].t)
  }

  lemma NeedOfRecord(traces: seq<SessionTrace>, n: nat, hw: Hardware, log: Log, x: Served)
    requires Fits(traces, n, hw, log, x)
    ensures NeedOf(traces, x.s, x.t) == x.result.computed + x.result.reused - PrevTotal(traces, x.s, x.t)
  {
  }

  lemma ReusedFront(traces: seq<SessionTrace>, front: Log, x: Served)
    ensures AllReused(traces, front + [x])
       <==> AllReused(traces, front) && x.result.reused == PrevTotal(traces, x.s, x.t)
    ensures AllBounded(traces, front + [x])
       <==> AllBounded(traces, front) && x.result.reused <= PrevTotal(traces, x.s, x.t)
  {
    assert (front + [x])[|front|] == x;
    assert forall i :: 0 <= i < |front| ==> (front + [x])[i] == front[i];
  }

  lemma {:induction false} ComputedAtLeastNeed(traces: seq<SessionTrace>, n: nat, hw: Hardware, log: Log)
    requires WellFormed(traces, n, hw, log) && AllBounded(traces, log)
    ensures StatsOf(log).computed >= LogSum(log, NeedAt(traces))
    ensures StatsOf(log).computed == LogSum(log, NeedAt(traces)) <==> AllReused(traces, log)
    decreases |log|
  {
    if log != [] {
      var front, x := log[..|log| - 1], log[|log| - 1];
      assert log == front + [x];
      WellFormedFront(traces, n, hw, log);
      ReusedFront(traces, front, x);
      ComputedAtLeastNeed(traces, n, hw, front);
      NeedOfRecord(traces, n, hw, front, x);
    }
  }

  /** The reuse lower bound, for either arm and any configuration: on a growing trace a run computes at
      least the first prompt of every session plus what each later prompt adds, with equality exactly
      when every turn reuses all that the turn just before it left. */
  lemma ReuseLowerBound(setup: Setup, ws: seq<World>)
    requires Finished(setup, ws) && Growing(setup.traces) && DistinctSessions(setup.traces)
    ensures End(ws).stats.computed >= Minimum(setup.traces)
    ensures End(ws).stats.computed == Minimum(setup.traces) <==> AllReused(setup.traces, End(ws).log)
  {
    var traces, n, hw, log := setup.traces, setup.config.replicas, setup.config.hw, End(ws).log;
    RunInv(setup, ws, |ws| - 1);
    RunsAreBounded(setup, ws, |ws| - 1);
    RunsEnd(setup, ws);
    ComputedAtLeastNeed(traces, n, hw, log);
    CompleteSum(traces, n, hw, log, NeedAt(traces));
  }
}
