// The release valve in a replay: sessions wait for themselves, so with few enough of them no replica
// is ever sent more than the limit and one request over it.
module ReplayValve {
  import opened Models
  import opened Backend
  import opened ReplayLog
  import opened ReplaySpec
  import opened Replay
  import Timing = ReplayTiming
  import Valve
  import Spec = ReplicaSpec

  // The unfinished requests of the first m replicas, in order of dispatch.
  function OpenAny(log: Log, m: nat, now: real): Log {
    if log == [] then [] else OpenAny(log[..|log| - 1], m, now) + AnyOne(log[|log| - 1], m, now)
  }

  function AnyOne(x: Served, m: nat, now: real): Log {
    if x.rid < m && x.Done() > now then [x] else []
  }

  // How many that are, counted replica by replica.
  function OpenCount(log: Log, m: nat, now: real): nat {
    if m == 0 then 0 else OpenCount(log, m - 1, now) + |Open(log, m - 1, now)|
  }

  lemma {:induction false} CountAppend(front: Log, x: Served, m: nat, now: real)
    ensures OpenCount(front + [x], m, now) == OpenCount(front, m, now) + |AnyOne(x, m, now)|
  {
    if m > 0 {
      CountAppend(front, x, m - 1, now);
      assert (front + [x])[..|front|] == front;
    }
  }

  lemma {:induction false} CountNothing(m: nat, now: real)
    ensures OpenCount([], m, now) == 0
  {
    if m > 0 {
      CountNothing(m - 1, now);
    }
  }

  lemma {:induction false} CountIsSize(log: Log, m: nat, now: real)
    ensures |OpenAny(log, m, now)| == OpenCount(log, m, now)
    decreases |log|
  {
    if log == [] {
      CountNothing(m, now);
    } else {
      var front, x := log[..|log| - 1], log[|log| - 1];
      CountIsSize(front, m, now);
      CountAppend(front, x, m, now);
      assert front + [x] == log;
    }
  }

  lemma {:induction false} AnyMembers(log: Log, m: nat, now: real)
    ensures forall y :: y in OpenAny(log, m, now) ==> y in log && y in Open(log, y.rid, now)
    decreases |log|
  {
    if log != [] {
      AnyMembers(log[..|log| - 1], m, now);
    }
  }

  lemma {:induction false} OneOpenAnywhere(traces: seq<SessionTrace>, n: nat, hw: Hardware, log: Log, m: nat, now: real)
    requires ValidTraces(traces) && WellFormed(traces, n, hw, log)
    requires log != [] ==> log[|log| - 1].now <= now
    ensures Timing.DistinctOf(OpenAny(log, m, now))
    decreases |log|
  {
    if log != [] {
      var front, x := log[..|log| - 1], log[|log| - 1];
      WellFormedFront(traces, n, hw, log);
      assert Fits(traces, n, hw, front, x);
      OneOpenAnywhere(traces, n, hw, front, m, now);
      AnyMembers(front, m, now);
      forall y | y in OpenAny(front, m, now) ensures y.s != x.s {
        Timing.EarlierTurnsAreDone(traces, n, hw, front, x, y.rid, now);
      }
    }
  }

  /** An arriving request finds fewer requests unfinished in the whole cluster than there are sessions. */
  lemma ClusterShorterThanSessions(traces: seq<SessionTrace>, n: nat, hw: Hardware, log: Log, x: Served)
    requires ValidTraces(traces) && WellFormed(traces, n, hw, log) && Fits(traces, n, hw, log, x)
    ensures OpenCount(log, n, x.now) < |traces|
  {
    var xs := OpenAny(log, n, x.now);
    CountIsSize(log, n, x.now);
    OneOpenAnywhere(traces, n, hw, log, n, x.now);
    AnyMembers(log, n, x.now);
    forall i | 0 <= i < |xs| ensures xs[i].s < |traces| && xs[i].s != x.s {
      assert xs[i] in xs;
      var j :| 0 <= j < |log| && log[j] == xs[i];
      assert Fits(traces, n, hw, log[..j], log[j]);
      Timing.ArrivingSessionIsIdle(traces, n, hw, log, x, xs[i].rid);
    }
    Timing.DistinctShort(xs, |traces|, x.s);
  }

  lemma {:induction false} AllFullCount(log: Log, m: nat, now: real, c: nat)
    requires forall r :: 0 <= r < m ==> |Open(log, r, now)| >= c
    ensures OpenCount(log, m, now) >= m * c
  {
    if m > 0 {
      AllFullCount(log, m - 1, now, c);
      assert m * c == (m - 1) * c + c;
    }
  }

  // ---- Runs ----------------------------------------------------------------------------

  ghost predicate QueuesBounded(limit: nat, rs: seq<Spec.State>) {
    forall r :: 0 <= r < |rs| ==> |rs[r].pending| <= limit + 1
  }

  lemma PruneShortens(st: Spec.State, now: real)
    ensures |Spec.Prune(st, now).pending| <= |st.pending|
  {
    LaterShortens(st.pending, now);
  }

  lemma {:induction false} LaterShortens(q: seq<real>, now: real)
    ensures |Spec.Later(q, now)| <= |q|
  {
    if q != [] {
      LaterShortens(q[1..], now);
    }
  }

  // Not every queue is full: there would be more unfinished requests than sessions.
  lemma SomeQueueIsShort(traces: seq<SessionTrace>, n: nat, hw: Hardware, log: Log, x: Served, c: nat) returns (r: nat)
    requires ValidTraces(traces) && WellFormed(traces, n, hw, log) && Fits(traces, n, hw, log, x)
    requires |traces| <= n * c
    ensures r < n && |Open(log, r, x.now)| < c
  {
    ClusterShorterThanSessions(traces, n, hw, log, x);
    if forall r :: 0 <= r < n ==> |Open(log, r, x.now)| >= c {
      AllFullCount(log, n, x.now, c);
      assert false;
    }
    r :| 0 <= r < n && |Open(log, r, x.now)| < c;
  }

  lemma SomebodyHasRoom(setup: Setup, w: World) returns (r: nat)
    requires setup.Valid() && Inv(setup, w) && w.queue != []
    requires |setup.traces| <= setup.config.replicas * (setup.config.policy.queueLimit + 1)
    ensures r < |w.replicas| && Cleared(w)[r].Inflight() <= setup.config.policy.queueLimit
  {
    RecordFits(setup, w);
    r := SomeQueueIsShort(setup.traces, setup.config.replicas, setup.config.hw, w.log, TheRecord(setup, w),
                          setup.config.policy.queueLimit + 1);
    QueueDepthIsExact(setup, w, r);
  }

  // So the replica the router picks has room too.
  lemma ChosenHasRoom(setup: Setup, w: World)
    requires setup.Valid() && Inv(setup, w) && Ready(setup, w) && setup.adaptive
    requires |setup.traces| <= setup.config.replicas * (setup.config.policy.queueLimit + 1)
    ensures Cleared(w)[TheRecord(setup, w).rid].Inflight() <= setup.config.policy.queueLimit
  {
    var rs, k := Cleared(w), Choose(setup, w).0;
    var r := SomebodyHasRoom(setup, w);
    if rs[k].Inflight() > setup.config.policy.queueLimit {
      Valve.FullMeansAllFull(setup.TheLimits(), rs, w.router.a, SessionOf(setup, w), Pick(w).at, setup.clock(|w.log|));
      assert false;
    }
  }

  lemma QueuesStep(setup: Setup, w: World)
    requires setup.Valid() && Inv(setup, w) && Ready(setup, w) && setup.adaptive
    requires |setup.traces| <= setup.config.replicas * (setup.config.policy.queueLimit + 1)
    requires QueuesBounded(setup.config.policy.queueLimit, w.replicas)
    ensures QueuesBounded(setup.config.policy.queueLimit, ServedReplicas(setup, w))
  {
    var x := TheRecord(setup, w);
    ChosenHasRoom(setup, w);
    assert ReplicaOk(setup.config.hw, w.log, x.rid, w.replicas[x.rid]);
    ExecuteCaches(setup.ThePolicy(), setup.config.hw, Cleared(w)[x.rid], TheRequest(setup, w));
    forall r | 0 <= r < |w.replicas|
      ensures |ServedReplicas(setup, w)[r].pending| <= setup.config.policy.queueLimit + 1
    {
      PruneShortens(w.replicas[r], Pick(w).at);
    }
  }

  /** The release-valve bound in a replay: with at most n * (queueLimit + 1) sessions, whatever is cached
      or forgotten, no replica ever has more than queueLimit + 1 requests unfinished. */
  lemma {:induction false} ReplayQueuesAreBounded(setup: Setup, ws: seq<World>, i: nat)
    requires IsRun(setup, ws) && setup.adaptive && i < |ws|
    requires |setup.traces| <= setup.config.replicas * (setup.config.policy.queueLimit + 1)
    ensures QueuesBounded(setup.config.policy.queueLimit, ws[i].replicas)
  {
    if i > 0 {
      ReplayQueuesAreBounded(setup, ws, i - 1);
      RunInv(setup, ws, i - 1);
      StepAt(setup, ws, i - 1);
      QueuesStep(setup, ws[i - 1]);
    }
  }
}
