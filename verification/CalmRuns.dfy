// When is a run calm? Conditions a caller can check before the replay starts.
module CalmRuns {
  import opened Models
  import opened OrderedDict
  import opened Router
  import opened SessionStore
  import opened ReplayLog
  import opened ReplaySpec
  import opened Replay
  import opened ReplayCaches
  import opened SingleCopy
  import Spec = ReplicaSpec

  // ---- The store forgets nothing -------------------------------------------------------

  // A live key is found and every key stays.
  lemma FetchKeeps<V>(t: Table<V>, key: string, now: real)
    requires Unique(t) && (Has(t, key) ==> now <= Get(t, key).expiresAt)
    ensures var (found, t') := Fetch(t, key, now);
            && (found.Some? <==> Has(t, key))
            && Unique(t') && (forall k :: Has(t', k) <==> Has(t, k))
            && (forall p :: p in t' ==> p in t)
  {
    FetchFacts(t, key, now);
    if Has(t, key) {
      PopFacts(t, key);
      forall k ensures Has(MoveToEnd(t, key), k) <==> Has(t, k) {
        AppendIndex(Pop(t, key), key, Get(t, key), k);
      }
    }
  }

  // With room to spare a put evicts nobody.
  lemma InsertKeeps<V>(t: Table<V>, key: string, slot: Slot<V>, max: nat)
    requires Unique(t) && |Pop(t, key)| < max
    ensures forall k :: Has(Insert(t, key, slot, max), k) <==> k == key || Has(t, k)
  {
    PopFacts(t, key);
    forall k ensures Has(Insert(t, key, slot, max), k) <==> k == key || Has(t, k) {
      AppendIndex(Pop(t, key), key, slot, k);
    }
  }

  // A table keyed by sessions of the trace is no larger than the trace.
  ghost predicate KeyedBy<V>(t: Table<V>, traces: seq<SessionTrace>) {
    forall p :: p in t ==> exists s :: 0 <= s < |traces| && traces[s].session == p.0
  }

  lemma {:induction false} NamesCount(traces: seq<SessionTrace>)
    ensures |set s | 0 <= s < |traces| :: traces[s].session| <= |traces|
  {
    if traces != [] {
      var front, x := traces[..|traces| - 1], traces[|traces| - 1];
      NamesCount(front);
      var a, b := set s | 0 <= s < |front| :: front[s].session, set s | 0 <= s < |traces| :: traces[s].session;
      forall k ensures k in b <==> k in a + {x.session} {
        if k in a {
          var s :| 0 <= s < |front| && front[s].session == k;
          assert traces[s].session == k;
        }
        assert traces[|traces| - 1].session == x.session;
      }
      assert b == a + {x.session};
    }
  }

  lemma KeyedSize<V>(t: Table<V>, traces: seq<SessionTrace>)
    requires Unique(t) && KeyedBy(t, traces)
    ensures |t| <= |traces|
  {
    DistinctKeysCount(t, 0);
    NamesCount(traces);
    var names := set s | 0 <= s < |traces| :: traces[s].session;
    forall k | k in KeysFrom(t, 0) ensures k in names {
      var i :| 0 <= i < |t| && t[i].0 == k;
      assert t[i] in t;
    }
    SubsetSize(KeysFrom(t, 0), names);
  }

  // Every slot was put by an earlier request.
  ghost predicate Dated<V>(t: Table<V>, clock: nat -> Clock, n: nat) {
    forall p :: p in t ==> exists i :: 0 <= i < n && p.1.expiresAt == clock(i).atPut + DEFAULT_TTL_S
  }

  /** The first n requests take less wall-clock time than a mapping lives. */
  ghost predicate Steady(clock: nat -> Clock, n: nat) {
    forall i: nat, j: nat :: i < j < n ==> clock(j).atGet <= clock(i).atPut + DEFAULT_TTL_S
  }

  ghost predicate Remembers(traces: seq<SessionTrace>, log: Log, home: Table<int>, clock: nat -> Clock) {
    && Unique(home) && KeyedBy(home, traces) && Dated(home, clock, |log|)
    && forall s :: 0 <= s < |traces| && Progress(log, s) > 0 ==> Has(home, traces[s].session)
  }

  lemma AllAlive(traces: seq<SessionTrace>, log: Log, home: Table<int>, clock: nat -> Clock, key: string)
    requires Remembers(traces, log, home, clock) && Steady(clock, |log| + 1)
    ensures Has(home, key) ==> clock(|log|).atGet <= Get(home, key).expiresAt
  {
    if Has(home, key) {
      var p := home[Index(home, key)];
      assert p in home;
      var i :| 0 <= i < |log| && p.1.expiresAt == clock(i).atPut + DEFAULT_TTL_S;
    }
  }

  // What a routing decision may do to the table: keep every key, add or date the session's own.
  ghost predicate Renewed(t: Table<int>, t': Table<int>, session: string, date: real) {
    && Unique(t') && Has(t', session)
    && (forall k :: Has(t', k) <==> k == session || Has(t, k))
    && (forall p :: p in t' ==> p in t || (p.0 == session && p.1.expiresAt == date))
  }

  lemma DispatchRenews(lim: Limits, rs: seq<Spec.State>, a: Affinity, session: string, now: real, atPut: real)
    requires lim.gpuCap > 0 && rs != [] && Unique(a.home) && |Pop(a.home, session)| < lim.maxSessions
    ensures Renewed(a.home, Dispatch(lim, rs, a, None, session, now, atPut).1.home, session, atPut + lim.ttlS)
  {
    var k: int := LeastLoaded(lim.gpuCap, rs, now, None);
    var slot := Slot(k, atPut + lim.ttlS);
    InsertFacts(a.home, session, slot, lim.maxSessions);
    InsertKeeps(a.home, session, slot, lim.maxSessions);
    assert Dispatch(lim, rs, a, None, session, now, atPut).1.home == Insert(a.home, session, slot, lim.maxSessions);
  }

  lemma RouteRenews(lim: Limits, rs: seq<Spec.State>, a: Affinity, session: string, now: real, clock: Clock)
    requires lim.gpuCap > 0 && rs != [] && Unique(a.home)
    requires Has(a.home, session) ==> clock.atGet <= Get(a.home, session).expiresAt
    requires |a.home| < lim.maxSessions || (|a.home| == lim.maxSessions && Has(a.home, session))
    ensures Renewed(a.home, Route(lim, rs, a, session, now, clock).1.home, session, clock.atPut + lim.ttlS)
    ensures Fetch(a.home, session, clock.atGet).0.Some? <==> Has(a.home, session)
  {
    var (found, t) := Fetch(a.home, session, clock.atGet);
    FetchKeeps(a.home, session, clock.atGet);
    PopFacts(t, session);
    FetchFacts(a.home, session, clock.atGet);
    if WarmHome(rs, found, session).None? {
      DispatchRenews(lim, rs, a.(home := t), session, now, clock.atPut);
    }
  }

  lemma RenewedRemembers(traces: seq<SessionTrace>, log: Log, t: Table<int>, t': Table<int>, clock: nat -> Clock,
                         x: Served)
    requires Remembers(traces, log, t, clock) && x.s < |traces|
    requires Renewed(t, t', traces[x.s].session, clock(|log|).atPut + DEFAULT_TTL_S)
    ensures Remembers(traces, log + [x], t', clock)
  {
    forall s | 0 <= s < |traces| && Progress(log + [x], s) > 0 ensures Has(t', traces[s].session) {
      ProgressAppend(log, x, s);
    }
    forall p | p in t' ensures exists i :: 0 <= i < |log| + 1 && p.1.expiresAt == clock(i).atPut + DEFAULT_TTL_S {
      if p in t {
        var i :| 0 <= i < |log| && p.1.expiresAt == clock(i).atPut + DEFAULT_TTL_S;
      }
    }
  }

  lemma RoomForSession(traces: seq<SessionTrace>, log: Log, home: Table<int>, clock: nat -> Clock, session: string)
    requires Remembers(traces, log, home, clock) && |traces| <= DEFAULT_MAX_SESSIONS
    requires exists s :: 0 <= s < |traces| && traces[s].session == session
    ensures |home| < DEFAULT_MAX_SESSIONS || (|home| == DEFAULT_MAX_SESSIONS && Has(home, session))
  {
    KeyedSize(home, traces);
    if !Has(home, session) {
      var slot := Slot(0, 0.0);
      AppendUnique(home, session, slot);
      KeyedSize(home + [(session, slot)], traces);
    }
  }

  lemma RememberStep(setup: Setup, w: World)
    requires setup.Valid() && Ready(setup, w) && PartsOk(setup, w) && setup.adaptive
    requires Remembers(setup.traces, w.log, w.router.a.home, setup.clock)
    requires Steady(setup.clock, |w.log| + 1) && |setup.traces| <= DEFAULT_MAX_SESSIONS
    ensures Choose(setup, w).1.Sticky?
    ensures Remembers(setup.traces, w.log + [TheRecord(setup, w)], Choose(setup, w).1.a.home, setup.clock)
    ensures Progress(w.log, Pick(w).s) > 0 ==> TheRecord(setup, w).found.Some?
  {
    var home, session := w.router.a.home, SessionOf(setup, w);
    AllAlive(setup.traces, w.log, home, setup.clock, session);
    RoomForSession(setup.traces, w.log, home, setup.clock, session);
    RouteRenews(setup.TheLimits(), Cleared(w), w.router.a, session, Pick(w).at, setup.clock(|w.log|));
    RenewedRemembers(setup.traces, w.log, home, Choose(setup, w).1.a.home, setup.clock, TheRecord(setup, w));
  }

  lemma {:induction false} AlwaysRemembers(setup: Setup, ws: seq<World>, i: nat)
    requires IsRun(setup, ws) && setup.adaptive && i < |ws|
    requires Steady(setup.clock, i) && |setup.traces| <= DEFAULT_MAX_SESSIONS
    ensures ws[i].router.Sticky? && Remembers(setup.traces, ws[i].log, ws[i].router.a.home, setup.clock)
  {
    if i > 0 {
      AlwaysRemembers(setup, ws, i - 1);
      RunInv(setup, ws, i - 1);
      GrowsAt(setup, ws, i - 1);
      RememberStep(setup, ws[i - 1]);
    }
  }

  /** No home is ever forgotten when there are no more sessions than the store holds and the replay
      takes no longer than a mapping lives. */
  lemma HomesAreKept(setup: Setup, ws: seq<World>)
    requires IsRun(setup, ws) && setup.adaptive
    requires Steady(setup.clock, |ws| - 1) && |setup.traces| <= DEFAULT_MAX_SESSIONS
    ensures NoHomeLost(End(ws).log)
  {
    RunShape(setup, ws, |ws| - 1);
    forall i | 0 <= i < |End(ws).log| && End(ws).log[i].t >= 1 ensures End(ws).log[i].found.Some? {
      RecordAt(setup, ws, i);
      RunInv(setup, ws, i);
      InvReady(setup, ws[i]);
      AlwaysRemembers(setup, ws, i);
      RememberStep(setup, ws[i]);
    }
  }

  // ---- The valve stays shut ------------------------------------------------------------

  lemma NoBreakStep(setup: Setup, w: World)
    requires setup.Valid() && Inv(setup, w) && Ready(setup, w) && setup.adaptive
    requires |setup.traces| <= setup.config.policy.queueLimit + 1
    ensures Choose(setup, w).1.Sticky? && Choose(setup, w).1.a.breaks == w.router.a.breaks
  {
    var session, clock := SessionOf(setup, w), setup.clock(|w.log|);
    var found := Fetch(w.router.a.home, session, clock.atGet).0;
    var warm := WarmHome(Cleared(w), found, session);
    if warm.Some? {
      QueueDepthIsExact(setup, w, warm.value);
    }
  }

  /** The release valve never fires in a replay with at most queueLimit + 1 sessions: a session waits
      for itself, so at most the others can be queued ahead of it. */
  lemma {:induction false} FewSessionsNeverBreak(setup: Setup, ws: seq<World>, i: nat)
    requires IsRun(setup, ws) && setup.adaptive && |setup.traces| <= setup.config.policy.queueLimit + 1 && i < |ws|
    ensures ws[i].router.Sticky? && ws[i].router.a.breaks == 0
  {
    if i > 0 {
      FewSessionsNeverBreak(setup, ws, i - 1);
      RunInv(setup, ws, i - 1);
      GrowsAt(setup, ws, i - 1);
      NoBreakStep(setup, ws[i - 1]);
    }
  }

  /** So calm runs can be told in advance. */
  lemma CalmInAdvance(setup: Setup, ws: seq<World>)
    requires IsRun(setup, ws) && setup.adaptive && DistinctSessions(setup.traces)
    requires Steady(setup.clock, TotalTurns(setup.traces))
    requires |setup.traces| <= DEFAULT_MAX_SESSIONS && |setup.traces| <= setup.config.policy.queueLimit + 1
    ensures Calm(setup, ws)
  {
    FewSessionsNeverBreak(setup, ws, |ws| - 1);
    RunsEnd(setup, ws);
    HomesAreKept(setup, ws);
  }
}
