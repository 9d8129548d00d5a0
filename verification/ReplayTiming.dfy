// What a well-formed record says about time: every replica is a first-in first-out server, the
// queue depth the router reads is exact, and a job takes its latencies plus its tool calls.
module ReplayTiming {
  import opened Models
  import opened ReplayLog
  import Spec = ReplicaSpec

  // When the replica starts on a request.
  function Begin(x: Served): real {
    x.Done() - x.result.ServiceMs()
  }

  // ---- The FIFO server -----------------------------------------------------------------

  /** Lindley's recursion: a request starts when it has arrived and its replica is free, and the
      replica is then busy with it to the end. */
  lemma Lindley(traces: seq<SessionTrace>, n: nat, hw: Hardware, log: Log, x: Served)
    requires Fits(traces, n, hw, log, x)
    ensures Begin(x) == Max(FreeAt(log, x.rid), x.now)
    ensures FreeAt(log + [x], x.rid) == x.Done() >= Begin(x) >= x.now
  {
    assert (log + [x])[..|log|] == log;
  }

  function ServiceFrom(xs: Log, k: nat): real
    decreases |xs| - k
  {
    if k >= |xs| then 0.0 else xs[k].result.ServiceMs() + ServiceFrom(xs, k + 1)
  }

  lemma {:induction false} ServiceFromAppend(xs: Log, x: Served, k: nat)
    requires k <= |xs|
    ensures ServiceFrom(xs + [x], k) == ServiceFrom(xs, k) + x.result.ServiceMs()
    decreases |xs| - k
  {
    if k < |xs| {
      ServiceFromAppend(xs, x, k + 1);
    } else {
      assert ServiceFrom(xs + [x], k + 1) == 0.0;
    }
  }

  // The k-th request arrives and everything from it on is then served without a pause.
  function Candidate(xs: Log, k: nat): real
    requires k < |xs|
  {
    xs[k].now + ServiceFrom(xs, k)
  }

  /** The max-plus closed form of the time a replica is free: the largest, over every request k it was
      ever sent, of its dispatch plus all service from k on, or all its service from time zero. */
  lemma {:induction false} FreeAtClosedForm(traces: seq<SessionTrace>, n: nat, hw: Hardware, log: Log, r: nat)
    requires WellFormed(traces, n, hw, log)
    ensures var xs := On(log, r);
            && FreeAt(log, r) >= ServiceFrom(xs, 0)
            && (forall k :: 0 <= k < |xs| ==> FreeAt(log, r) >= Candidate(xs, k))
            && (FreeAt(log, r) == ServiceFrom(xs, 0) || exists k :: 0 <= k < |xs| && FreeAt(log, r) == Candidate(xs, k))
    decreases |log|
  {
    if log != [] {
      var front, x := log[..|log| - 1], log[|log| - 1];
      WellFormedFront(traces, n, hw, log);
      FreeAtClosedForm(traces, n, hw, front, r);
      if x.rid == r {
        Lindley(traces, n, hw, front, x);
        ClosedFormStep(On(front, r), x, FreeAt(front, r), x.Done());
      } else {
        assert On(log, r) == On(front, r);
      }
    }
  }

  lemma ClosedFormStep(xs: Log, x: Served, free: real, free': real)
    requires free' == Max(free, x.now) + x.result.ServiceMs()
    requires free >= ServiceFrom(xs, 0) && forall k :: 0 <= k < |xs| ==> free >= Candidate(xs, k)
    requires free == ServiceFrom(xs, 0) || exists k :: 0 <= k < |xs| && free == Candidate(xs, k)
    ensures var ys := xs + [x];
            && free' >= ServiceFrom(ys, 0) && (forall k :: 0 <= k < |ys| ==> free' >= Candidate(ys, k))
            && (free' == ServiceFrom(ys, 0) || exists k :: 0 <= k < |ys| && free' == Candidate(ys, k))
  {
    var ys := xs + [x];
    ServiceFromAppend(xs, x, 0);
    forall k | 0 <= k < |ys| ensures free' >= Candidate(ys, k) {
      ServiceFromAppend(xs, x, k);
      if k < |xs| {
        assert Candidate(ys, k) == Candidate(xs, k) + x.result.ServiceMs();
      } else {
        assert ServiceFrom(xs, k) == 0.0;
      }
    }
    if free < x.now {
      ServiceFromAppend(xs, x, |xs|);
      assert free' == Candidate(ys, |xs|);
    } else if free != ServiceFrom(xs, 0) {
      var k :| 0 <= k < |xs| && free == Candidate(xs, k);
      ServiceFromAppend(xs, x, k);
      assert free' == Candidate(ys, k);
    }
  }

  lemma {:induction false} FreeAtBoundsDone(traces: seq<SessionTrace>, n: nat, hw: Hardware, log: Log, i: nat)
    requires WellFormed(traces, n, hw, log) && i < |log|
    ensures log[i].Done() <= FreeAt(log, log[i].rid)
    decreases |log|
  {
    if i < |log| - 1 {
      var front, x := log[..|log| - 1], log[|log| - 1];
      WellFormedFront(traces, n, hw, log);
      FreeAtBoundsDone(traces, n, hw, front, i);
      Lindley(traces, n, hw, front, x);
    }
  }

  /** Service intervals of one replica never overlap and follow the order of dispatch. */
  lemma IntervalsDoNotOverlap(traces: seq<SessionTrace>, n: nat, hw: Hardware, log: Log, i: nat, j: nat)
    requires WellFormed(traces, n, hw, log) && i < j < |log| && log[i].rid == log[j].rid
    ensures log[i].Done() <= Begin(log[j]) <= log[j].Done()
  {
    WellFormedPrefix(traces, n, hw, log, j);
    FreeAtBoundsDone(traces, n, hw, log[..j], i);
    Lindley(traces, n, hw, log[..j], log[j]);
  }

  lemma WellFormedPrefix(traces: seq<SessionTrace>, n: nat, hw: Hardware, log: Log, j: nat)
    requires WellFormed(traces, n, hw, log) && j <= |log|
    ensures WellFormed(traces, n, hw, log[..j])
  {
    forall i | 0 <= i < j ensures Fits(traces, n, hw, log[..j][..i], log[..j][i]) {
      assert log[..j][..i] == log[..i];
    }
  }

  // ---- Busy time -----------------------------------------------------------------------

  function TotalService(log: Log): real {
    if log == [] then 0.0 else TotalService(log[..|log| - 1]) + log[|log| - 1].result.ServiceMs()
  }

  function ServiceBelow(log: Log, m: nat): real {
    if m == 0 then 0.0 else ServiceBelow(log, m - 1) + ServiceFrom(On(log, m - 1), 0)
  }

  lemma {:induction false} ServiceBelowStep(log: Log, x: Served, m: nat)
    ensures ServiceBelow(log + [x], m) == ServiceBelow(log, m) + (if x.rid < m then x.result.ServiceMs() else 0.0)
  {
    if m > 0 {
      ServiceBelowStep(log, x, m - 1);
      assert (log + [x])[..|log|] == log;
      ServiceFromAppend(On(log, m - 1), x, 0);
      assert On(log, m - 1) + [] == On(log, m - 1);
    }
  }

  lemma {:induction false} ServiceBelowEmpty(m: nat)
    ensures ServiceBelow([], m) == 0.0
  {
    if m > 0 {
      ServiceBelowEmpty(m - 1);
    }
  }

  lemma {:induction false} ServiceByReplica(traces: seq<SessionTrace>, n: nat, hw: Hardware, log: Log)
    requires WellFormed(traces, n, hw, log)
    ensures TotalService(log) == ServiceBelow(log, n)
    decreases |log|
  {
    if log == [] {
      ServiceBelowEmpty(n);
    } else {
      var front, x := log[..|log| - 1], log[|log| - 1];
      WellFormedFront(traces, n, hw, log);
      ServiceByReplica(traces, n, hw, front);
      ServiceBelowStep(front, x, n);
      assert log == front + [x];
    }
  }

  // The completion of the last request to complete, or 0.
  function LastDone(log: Log): real {
    if log == [] then 0.0 else Max(LastDone(log[..|log| - 1]), log[|log| - 1].Done())
  }

  lemma {:induction false} FreeAtBelowLastDone(log: Log, r: nat)
    ensures FreeAt(log, r) <= LastDone(log) && LastDone(log) >= 0.0
  {
    if log != [] {
      FreeAtBelowLastDone(log[..|log| - 1], r);
    }
  }

  lemma OneReplicaBusy(traces: seq<SessionTrace>, n: nat, hw: Hardware, log: Log, r: nat)
    requires WellFormed(traces, n, hw, log)
    ensures ServiceFrom(On(log, r), 0) <= LastDone(log)
  {
    FreeAtClosedForm(traces, n, hw, log, r);
    FreeAtBelowLastDone(log, r);
  }

  lemma {:induction false} BusyBelow(traces: seq<SessionTrace>, n: nat, hw: Hardware, log: Log, m: nat)
    requires WellFormed(traces, n, hw, log)
    ensures ServiceBelow(log, m) <= Times(m, LastDone(log))
  {
    if m > 0 {
      BusyBelow(traces, n, hw, log, m - 1);
      OneReplicaBusy(traces, n, hw, log, m - 1);
    }
  }

  /** The cluster cannot have been busy for longer than all replicas together until the last completion. */
  lemma BusyBound(traces: seq<SessionTrace>, n: nat, hw: Hardware, log: Log)
    requires WellFormed(traces, n, hw, log)
    ensures TotalService(log) <= Times(n, LastDone(log))
  {
    ServiceByReplica(traces, n, hw, log);
    BusyBelow(traces, n, hw, log, n);
  }

  // ---- Queue depth ---------------------------------------------------------------------

  lemma {:induction false} LaterConcat(a: seq<real>, b: seq<real>, now: real)
    ensures Spec.Later(a + b, now) == Spec.Later(a, now) + Spec.Later(b, now)
  {
    if a == [] {
      assert a + b == b;
    } else {
      var c := a + b;
      LaterConcat(a[1..], b, now);
      assert c[0] == a[0] && c[1..] == a[1..] + b;
      var x, kept := Spec.Later(a[1..], now), Spec.Later(b, now);
      assert [a[0]] + (x + kept) == ([a[0]] + x) + kept;
    }
  }

  lemma {:induction false} LaterLater(a: seq<real>, m: real, now: real)
    requires m <= now
    ensures Spec.Later(Spec.Later(a, m), now) == Spec.Later(a, now)
  {
    if a != [] {
      LaterLater(a[1..], m, now);
      if a[0] > m {
        assert ([a[0]] + Spec.Later(a[1..], m))[1..] == Spec.Later(a[1..], m);
      }
    }
  }

  lemma DonesConcat(a: Log, b: Log)
    ensures Dones(a + b) == Dones(a) + Dones(b)
  {
  }

  /** Filtering completion times is the same as filtering the requests. */
  lemma {:induction false} OpenIsLater(log: Log, r: nat, now: real)
    ensures Dones(Open(log, r, now)) == Spec.Later(Dones(On(log, r)), now)
  {
    if log != [] {
      var front, x := log[..|log| - 1], log[|log| - 1];
      OpenIsLater(front, r, now);
      var one := if x.rid == r then [x] else [];
      DonesConcat(On(front, r), one);
      DonesConcat(Open(front, r, now), OpenOne(x, r, now));
      LaterConcat(Dones(On(front, r)), Dones(one), now);
      if x.rid == r {
        assert Dones(one) == [x.Done()];
        assert Dones(one)[1..] == [];
      }
    }
  }

  lemma {:induction false} LastOfIsMember(log: Log, s: nat)
    requires Progress(log, s) > 0
    ensures LastOf(log, s) in log && LastOf(log, s).s == s
  {
    if log[|log| - 1].s != s {
      LastOfIsMember(log[..|log| - 1], s);
    }
  }

  // A session's next request arrives after its last one is done.
  lemma ArrivesAfterLast(traces: seq<SessionTrace>, n: nat, hw: Hardware, log: Log, x: Served)
    requires ValidTraces(traces) && Fits(traces, n, hw, log, x) && Progress(log, x.s) > 0
    ensures LastOf(log, x.s).Done() <= x.now <= x.Done()
  {
    Lindley(traces, n, hw, log, x);
    assert traces[x.s].turns[x.t - 1].toolMs >= 0.0;
  }

  // Every request of a session so far is done by the time its latest one is.
  lemma {:induction false} DoneByLast(traces: seq<SessionTrace>, n: nat, hw: Hardware, log: Log, s: nat, i: nat)
    requires ValidTraces(traces) && WellFormed(traces, n, hw, log) && i < |log| && log[i].s == s
    ensures Progress(log, s) > 0 && log[i].Done() <= LastOf(log, s).Done()
    decreases |log|
  {
    ProgressPrefix(log, i, s);
    if i < |log| - 1 {
      var front, y := log[..|log| - 1], log[|log| - 1];
      WellFormedFront(traces, n, hw, log);
      DoneByLast(traces, n, hw, front, s, i);
      if y.s == s {
        ArrivesAfterLast(traces, n, hw, front, y);
      }
    }
  }

  // Nothing of the session that is about to be served is unfinished.
  lemma DoneBeforeNext(traces: seq<SessionTrace>, n: nat, hw: Hardware, log: Log, x: Served, i: nat)
    requires ValidTraces(traces) && WellFormed(traces, n, hw, log) && Fits(traces, n, hw, log, x)
    requires i < |log| && log[i].s == x.s
    ensures log[i].Done() <= x.now
  {
    DoneByLast(traces, n, hw, log, x.s, i);
    ArrivesAfterLast(traces, n, hw, log, x);
  }

  ghost predicate DistinctOf(xs: Log) {
    forall i, j :: 0 <= i < j < |xs| ==> xs[i].s != xs[j].s
  }

  lemma {:induction false} OpenMembers(log: Log, r: nat, now: real)
    ensures forall y :: y in Open(log, r, now) ==> y in log && y.rid == r && y.Done() > now
  {
    if log != [] {
      OpenMembers(log[..|log| - 1], r, now);
    }
  }

  // Once a session's next turn has arrived, none of its earlier ones is unfinished.
  lemma EarlierTurnsAreDone(traces: seq<SessionTrace>, n: nat, hw: Hardware, log: Log, x: Served, r: nat, now: real)
    requires ValidTraces(traces) && WellFormed(traces, n, hw, log) && Fits(traces, n, hw, log, x) && x.now <= now
    ensures forall y :: y in Open(log, r, now) ==> y.s != x.s
  {
    OpenMembers(log, r, now);
    forall y | y in Open(log, r, now) ensures y.s != x.s {
      var i :| 0 <= i < |log| && log[i] == y;
      if y.s == x.s {
        DoneBeforeNext(traces, n, hw, log, x, i);
      }
    }
  }

  /** The session whose turn it is has nothing unfinished anywhere. */
  lemma ArrivingSessionIsIdle(traces: seq<SessionTrace>, n: nat, hw: Hardware, log: Log, x: Served, r: nat)
    requires ValidTraces(traces) && WellFormed(traces, n, hw, log) && Fits(traces, n, hw, log, x)
    ensures forall y :: y in Open(log, r, x.now) ==> y.s != x.s
  {
    EarlierTurnsAreDone(traces, n, hw, log, x, r, x.now);
  }

  /** At any time from the last arrival on, a replica has at most one unfinished request per session. */
  lemma {:induction false} OneOpenPerSession(traces: seq<SessionTrace>, n: nat, hw: Hardware, log: Log, r: nat,
                                             now: real)
    requires ValidTraces(traces) && WellFormed(traces, n, hw, log)
    requires log != [] ==> log[|log| - 1].now <= now
    ensures DistinctOf(Open(log, r, now))
    decreases |log|
  {
    if log != [] {
      var front, x := log[..|log| - 1], log[|log| - 1];
      WellFormedFront(traces, n, hw, log);
      assert Fits(traces, n, hw, front, x);
      OneOpenPerSession(traces, n, hw, front, r, now);
      EarlierTurnsAreDone(traces, n, hw, front, x, r, now);
    }
  }

  function SessionsOf(xs: Log): set<nat> {
    set i | 0 <= i < |xs| :: xs[i].s
  }

  lemma {:induction false} DistinctCount(xs: Log)
    requires DistinctOf(xs)
    ensures |SessionsOf(xs)| == |xs|
  {
    if xs != [] {
      var front, x := xs[..|xs| - 1], xs[|xs| - 1];
      DistinctCount(front);
      assert SessionsOf(xs) == SessionsOf(front) + {x.s};
    }
  }

  function Below(m: nat): set<nat> {
    if m == 0 then {} else Below(m - 1) + {m - 1}
  }

  lemma {:induction false} BelowFacts(m: nat)
    ensures |Below(m)| == m && forall i: nat :: i in Below(m) <==> i < m
  {
    if m > 0 {
      BelowFacts(m - 1);
    }
  }

  // One record per session, none of session s: fewer records than sessions.
  lemma DistinctShort(xs: Log, m: nat, s: nat)
    requires DistinctOf(xs) && s < m && forall i :: 0 <= i < |xs| ==> xs[i].s < m && xs[i].s != s
    ensures |xs| < m
  {
    var all := Below(m);
    DistinctCount(xs);
    BelowFacts(m);
    assert SessionsOf(xs) <= all - {s};
    SubsetSize(SessionsOf(xs), all - {s});
  }

  /** So an arriving request finds fewer requests ahead of it on a replica than there are sessions. */
  lemma QueueShorterThanSessions(traces: seq<SessionTrace>, n: nat, hw: Hardware, log: Log, x: Served, r: nat)
    requires ValidTraces(traces) && WellFormed(traces, n, hw, log) && Fits(traces, n, hw, log, x)
    ensures |Open(log, r, x.now)| < |traces|
  {
    var xs := Open(log, r, x.now);
    OneOpenPerSession(traces, n, hw, log, r, x.now);
    ArrivingSessionIsIdle(traces, n, hw, log, x, r);
    OpenMembers(log, r, x.now);
    forall i | 0 <= i < |xs| ensures xs[i].s < |traces| && xs[i].s != x.s {
      assert xs[i] in xs;
      var j :| 0 <= j < |log| && log[j] == xs[i];
      assert Fits(traces, n, hw, log[..j], log[j]);
    }
    DistinctShort(xs, |traces|, x.s);
  }

  /** A replica has something unfinished exactly when it is not free. */
  lemma {:induction false} QueueEmptyWhenFree(traces: seq<SessionTrace>, n: nat, hw: Hardware, log: Log, r: nat,
                                              now: real)
    requires WellFormed(traces, n, hw, log) && now >= 0.0
    ensures Open(log, r, now) != [] <==> FreeAt(log, r) > now
    decreases |log|
  {
    if log != [] {
      var front, x := log[..|log| - 1], log[|log| - 1];
      WellFormedFront(traces, n, hw, log);
      QueueEmptyWhenFree(traces, n, hw, front, r, now);
      Lindley(traces, n, hw, front, x);
    }
  }

  // ---- Job completion ------------------------------------------------------------------

  function Latencies(log: Log, s: nat): real {
    if log == [] then 0.0
    else Latencies(log[..|log| - 1], s) + (if log[|log| - 1].s == s then log[|log| - 1].result.LatencyMs() else 0.0)
  }

  // Tool time between the first k + 1 turns.
  function ToolTime(turns: seq<Turn>, k: nat): real
    requires k <= |turns|
  {
    if k == 0 then 0.0 else ToolTime(turns, k - 1) + turns[k - 1].toolMs
  }

  function DecodeTime(hw: Hardware, turns: seq<Turn>, k: nat): real
    requires k <= |turns|
  {
    if k == 0 then 0.0 else DecodeTime(hw, turns, k - 1) + turns[k - 1].output as real * hw.decodeMs
  }

  /** A session's clock: its last completion so far is its arrival, plus the latency of every call, plus
      every tool call between them; and no scheduler gets below the tool and decode time. */
  lemma {:induction false} JobDecomposes(traces: seq<SessionTrace>, n: nat, hw: Hardware, log: Log, s: nat)
    requires WellFormed(traces, n, hw, log) && s < |traces| && 0 < Progress(log, s) <= |traces[s].turns|
    ensures LastOf(log, s).Done() - traces[s].arrival
         == Latencies(log, s) + ToolTime(traces[s].turns, Progress(log, s) - 1)
    ensures Latencies(log, s) >= DecodeTime(hw, traces[s].turns, Progress(log, s))
    decreases |log|
  {
    var front, x := log[..|log| - 1], log[|log| - 1];
    WellFormedFront(traces, n, hw, log);
    if x.s != s || Progress(front, s) > 0 {
      JobDecomposes(traces, n, hw, front, s);
    } else {
      NoLatencyYet(front, s);
    }
    if x.s == s {
      JobGrows(traces, n, hw, front, x);
    }
  }

  // One more turn of the session.
  lemma JobGrows(traces: seq<SessionTrace>, n: nat, hw: Hardware, log: Log, x: Served)
    requires Fits(traces, n, hw, log, x)
    ensures var turns, latency := traces[x.s].turns, x.result.LatencyMs();
            && x.Done() == x.now + latency
            && x.now == (if x.t == 0 then traces[x.s].arrival else LastOf(log, x.s).Done() + turns[x.t - 1].toolMs)
            && (x.t > 0 ==> ToolTime(turns, x.t) == ToolTime(turns, x.t - 1) + turns[x.t - 1].toolMs)
            && ToolTime(turns, 0) == 0.0 == DecodeTime(hw, turns, 0)
            && DecodeTime(hw, turns, x.t + 1) <= DecodeTime(hw, turns, x.t) + latency
  {
    DecodeWithin(traces, n, hw, log, x);
  }

  lemma DecodeWithin(traces: seq<SessionTrace>, n: nat, hw: Hardware, log: Log, x: Served)
    requires Fits(traces, n, hw, log, x)
    ensures x.result.LatencyMs() >= traces[x.s].turns[x.t].output as real * hw.decodeMs
  {
  }

  lemma {:induction false} NoLatencyYet(log: Log, s: nat)
    requires Progress(log, s) == 0
    ensures Latencies(log, s) == 0.0
  {
    if log != [] {
      NoLatencyYet(log[..|log| - 1], s);
    }
  }
}
