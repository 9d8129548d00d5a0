// Why the release valve bounds load. One gateway's requests are admitted (select and enter the slot,
// one step) and closed (finish, fail or be cancelled) in any interleaving, while the caches and the
// session map change underneath in any way at all.
module Valve {
  import opened Models
  import opened Router
  import Cluster
  import SessionStore
  import Spec = ReplicaSpec

  /** open lists the replica of every request now holding a slot. */
  datatype State = State(replicas: seq<Spec.State>, affinity: Affinity, open: seq<nat>)

  datatype Move =
    | Admit(session: string, now: real, clock: Clock)
    | Close(i: nat)
    | Work(replicas: seq<Spec.State>, affinity: Affinity)

  // Serving changes caches, clocks and homes, but no queue and no slot.
  ghost predicate SameLoad(a: seq<Spec.State>, b: seq<Spec.State>) {
    |a| == |b| && forall i :: 0 <= i < |a| ==>
      a[i].pending == b[i].pending && a[i].active == b[i].active && a[i].peakActive == b[i].peakActive
  }

  ghost predicate Allowed(s: State, m: Move) {
    match m
    case Admit(_, _, _) => s.replicas != []
    case Close(i) => i < |s.open| && s.open[i] < |s.replicas|
    case Work(rs, _) => SameLoad(s.replicas, rs)
  }

  ghost function Apply(lim: Limits, s: State, m: Move): State
    requires lim.gpuCap > 0 && Allowed(s, m)
  {
    match m
    case Admit(session, now, clock) =>
      var rs := Cluster.PrunedAll(s.replicas, now);
      var (k, a) := Route(lim, rs, s.affinity, session, now, clock);
      State(if k < |rs| then rs[k := Spec.EnterSlot(rs[k])] else rs, a, s.open + [k])
    case Close(i) =>
      var k := s.open[i];
      State(s.replicas[k := Spec.LeaveSlot(s.replicas[k])], s.affinity, s.open[..i] + s.open[i + 1..])
    case Work(rs, a) => State(rs, a, s.open)
  }

  lemma AdmitEnters(lim: Limits, s: State, rs: seq<Spec.State>, k: nat, a: Affinity, session: string, now: real,
                    clock: Clock)
    requires lim.gpuCap > 0 && rs == Cluster.PrunedAll(s.replicas, now) && k < |rs|
    requires (k, a) == Route(lim, rs, s.affinity, session, now, clock)
    ensures Allowed(s, Admit(session, now, clock))
    ensures Apply(lim, s, Admit(session, now, clock)) == State(rs[k := Cluster.Slotted(rs[k], true)], a, s.open + [k])
  {
  }

  // A run: its states, each reached from the one before by an allowed move.
  ghost predicate IsRun(lim: Limits, n: nat, run: seq<State>, moves: seq<Move>)
    requires lim.gpuCap > 0
  {
    && |run| == |moves| + 1 && n >= 1
    && run[0].replicas == seq(n, _ => Spec.EMPTY) && run[0].open == []
    && forall i :: 0 <= i < |moves| ==> Allowed(run[i], moves[i]) && run[i + 1] == Apply(lim, run[i], moves[i])
  }

  function Count(open: seq<nat>, k: nat): nat {
    if open == [] then 0 else (if open[0] == k then 1 else 0) + Count(open[1..], k)
  }

  // How many of the open requests are on replicas below n.
  function CountBelow(open: seq<nat>, n: nat): nat {
    if n == 0 then 0 else CountBelow(open, n - 1) + Count(open, n - 1)
  }

  /** The slot counters are exact and the simulator's queue is never used. */
  ghost predicate Exact(n: nat, s: State) {
    && |s.replicas| == n
    && (forall k :: 0 <= k < n ==> s.replicas[k].pending == [] && s.replicas[k].active == Count(s.open, k))
    && (forall i :: 0 <= i < |s.open| ==> s.open[i] < n)
  }

  ghost predicate Bounded(limit: nat, s: State) {
    forall k :: 0 <= k < |s.replicas| ==> s.replicas[k].Inflight() <= limit + 1
  }

  // ---- Counting ------------------------------------------------------------------------

  lemma {:induction false} CountConcat(a: seq<nat>, b: seq<nat>, k: nat)
    ensures Count(a + b, k) == Count(a, k) + Count(b, k)
  {
    if a == [] {
      assert a + b == b;
    } else {
      CountConcat(a[1..], b, k);
      assert (a + b)[1..] == a[1..] + b;
    }
  }

  lemma CountRemove(open: seq<nat>, i: nat, k: nat)
    requires i < |open|
    ensures Count(open, k) == Count(open[..i] + open[i + 1..], k) + (if open[i] == k then 1 else 0)
  {
    var a, b := open[..i], open[i + 1..];
    assert open == a + ([open[i]] + b);
    assert ([open[i]] + b)[1..] == b;
    CountConcat(a, [open[i]] + b, k);
    CountConcat(a, b, k);
  }

  lemma {:induction false} CountBelowCons(x: nat, open: seq<nat>, n: nat)
    ensures CountBelow([x] + open, n) == CountBelow(open, n) + (if x < n then 1 else 0)
  {
    if n > 0 {
      CountBelowCons(x, open, n - 1);
      assert ([x] + open)[1..] == open;
    }
  }

  lemma {:induction false} CountBelowAll(open: seq<nat>, n: nat)
    requires forall i :: 0 <= i < |open| ==> open[i] < n
    ensures CountBelow(open, n) == |open|
  {
    if open == [] {
      CountBelowEmpty(n);
    } else {
      CountBelowAll(open[1..], n);
      CountBelowCons(open[0], open[1..], n);
      assert open == [open[0]] + open[1..];
    }
  }

  lemma {:induction false} CountBelowEmpty(n: nat)
    ensures CountBelow([], n) == 0
  {
    if n > 0 {
      CountBelowEmpty(n - 1);
    }
  }

  lemma {:induction false} Pigeonhole(open: seq<nat>, n: nat, c: nat)
    ensures (forall k :: 0 <= k < n ==> Count(open, k) >= c) ==> CountBelow(open, n) >= n * c
    ensures (forall k :: 0 <= k < n ==> Count(open, k) <= c) ==> CountBelow(open, n) <= n * c
  {
    if n > 0 {
      Pigeonhole(open, n - 1, c);
      assert n * c == (n - 1) * c + c;
    }
  }

  // ---- Steps ---------------------------------------------------------------------------

  lemma RouteInRange(lim: Limits, rs: seq<Spec.State>, a: Affinity, session: string, now: real, clock: Clock)
    requires lim.gpuCap > 0 && rs != []
    ensures Route(lim, rs, a, session, now, clock).0 < |rs|
  {
  }

  lemma ExactStep(lim: Limits, n: nat, s: State, m: Move)
    requires lim.gpuCap > 0 && Exact(n, s) && Allowed(s, m)
    ensures Exact(n, Apply(lim, s, m))
  {
    match m {
      case Admit(session, now, clock) =>
        var rs := Cluster.PrunedAll(s.replicas, now);
        RouteInRange(lim, rs, s.affinity, session, now, clock);
        var k := Route(lim, rs, s.affinity, session, now, clock).0;
        forall j | 0 <= j < n ensures Count(s.open + [k], j) == Count(s.open, j) + (if j == k then 1 else 0) {
          CountConcat(s.open, [k], j);
        }
      case Close(i) =>
        forall j | 0 <= j < n
          ensures Count(s.open, j) == Count(s.open[..i] + s.open[i + 1..], j) + (if s.open[i] == j then 1 else 0)
        {
          CountRemove(s.open, i, j);
        }
      case Work(_, _) =>
    }
  }

  // If the admitted replica was already full, everybody was.
  lemma FullMeansAllFull(lim: Limits, rs: seq<Spec.State>, a: Affinity, session: string, now: real, clock: Clock)
    requires lim.gpuCap > 0 && rs != []
    requires rs[Route(lim, rs, a, session, now, clock).0].Inflight() > lim.queueLimit
    ensures forall j :: 0 <= j < |rs| ==> rs[j].Inflight() > lim.queueLimit
  {
    var found := SessionStore.Fetch(a.home, session, clock.atGet).0;
    var avoid := WarmHome(rs, found, session);
    LeastHasFewest(lim.gpuCap, rs, now, avoid);
    forall j | 0 <= j < |rs| ensures rs[j].Inflight() > lim.queueLimit {
      if avoid != Some(j) || |rs| == 1 {
        assert Eligible(|rs|, j, avoid);
      }
    }
  }

  // Where even the admitting replica was full there was no room for another request.
  lemma FullMeansNoRoom(lim: Limits, n: nat, rs: seq<Spec.State>, open: seq<nat>)
    requires |rs| == n && forall k :: 0 <= k < n ==> rs[k].Inflight() == Count(open, k)
    requires forall i :: 0 <= i < |open| ==> open[i] < n
    requires forall j :: 0 <= j < n ==> rs[j].Inflight() > lim.queueLimit
    ensures |open| >= n * (lim.queueLimit + 1)
  {
    Pigeonhole(open, n, lim.queueLimit + 1);
    CountBelowAll(open, n);
  }

  lemma BoundedStep(lim: Limits, n: nat, s: State, m: Move)
    requires lim.gpuCap > 0 && Exact(n, s) && Allowed(s, m) && Bounded(lim.queueLimit, s)
    requires |Apply(lim, s, m).open| <= n * (lim.queueLimit + 1)
    ensures Bounded(lim.queueLimit, Apply(lim, s, m))
  {
    if m.Admit? {
      var rs := Cluster.PrunedAll(s.replicas, m.now);
      RouteInRange(lim, rs, s.affinity, m.session, m.now, m.clock);
      var k := Route(lim, rs, s.affinity, m.session, m.now, m.clock).0;
      if rs[k].Inflight() > lim.queueLimit {
        FullMeansAllFull(lim, rs, s.affinity, m.session, m.now, m.clock);
        FullMeansNoRoom(lim, n, rs, s.open);
        assert false;
      }
    }
  }

  lemma {:induction false} RunIsExact(lim: Limits, n: nat, run: seq<State>, moves: seq<Move>, i: nat)
    requires lim.gpuCap > 0 && IsRun(lim, n, run, moves) && i < |run|
    ensures Exact(n, run[i])
  {
    if i > 0 {
      RunIsExact(lim, n, run, moves, i - 1);
      ExactStep(lim, n, run[i - 1], moves[i - 1]);
    }
  }

  lemma {:induction false} RunIsBounded(lim: Limits, n: nat, run: seq<State>, moves: seq<Move>, i: nat)
    requires lim.gpuCap > 0 && IsRun(lim, n, run, moves) && i < |run|
    requires forall j :: 0 <= j <= i ==> |run[j].open| <= n * (lim.queueLimit + 1)
    ensures Bounded(lim.queueLimit, run[i])
  {
    RunIsExact(lim, n, run, moves, i);
    if i > 0 {
      RunIsExact(lim, n, run, moves, i - 1);
      RunIsBounded(lim, n, run, moves, i - 1);
      BoundedStep(lim, n, run[i - 1], moves[i - 1]);
    }
  }

  /** The release-valve bound, exactly: throughout a run no replica holds more than queueLimit + 1
      requests if and only if never more than n * (queueLimit + 1) were open at once. */
  lemma ValveBound(lim: Limits, n: nat, run: seq<State>, moves: seq<Move>)
    requires lim.gpuCap > 0 && IsRun(lim, n, run, moves)
    ensures (forall i :: 0 <= i < |run| ==> Bounded(lim.queueLimit, run[i]))
       <==> (forall i :: 0 <= i < |run| ==> |run[i].open| <= n * (lim.queueLimit + 1))
  {
    if forall i :: 0 <= i < |run| ==> |run[i].open| <= n * (lim.queueLimit + 1) {
      forall i | 0 <= i < |run| ensures Bounded(lim.queueLimit, run[i]) {
        RunIsBounded(lim, n, run, moves, i);
      }
    }
    if forall i :: 0 <= i < |run| ==> Bounded(lim.queueLimit, run[i]) {
      forall i | 0 <= i < |run| ensures |run[i].open| <= n * (lim.queueLimit + 1) {
        RunIsExact(lim, n, run, moves, i);
        assert Bounded(lim.queueLimit, run[i]);
        assert forall k :: 0 <= k < n ==> run[i].replicas[k].Inflight() == Count(run[i].open, k);
        Pigeonhole(run[i].open, n, lim.queueLimit + 1);
        CountBelowAll(run[i].open, n);
      }
    }
  }

  /** No slot leaks: whenever nothing is open, every replica is idle. */
  lemma NoLeakedSlots(lim: Limits, n: nat, run: seq<State>, moves: seq<Move>, i: nat)
    requires lim.gpuCap > 0 && IsRun(lim, n, run, moves) && i < |run| && run[i].open == []
    ensures |run[i].replicas| == n && forall k :: 0 <= k < n ==> run[i].replicas[k].Inflight() == 0
  {
    RunIsExact(lim, n, run, moves, i);
  }

  // ---- Peaks ---------------------------------------------------------------------------

  lemma PeakStep(lim: Limits, n: nat, s: State, m: Move, s': State, k: nat)
    requires lim.gpuCap > 0 && Exact(n, s) && Allowed(s, m) && s' == Apply(lim, s, m) && k < n
    requires Count(s.open, k) <= s.replicas[k].peakActive
    ensures |s'.replicas| == n
    ensures var c, peak := Count(s'.open, k), s.replicas[k].peakActive;
            s'.replicas[k].peakActive == if c > peak then c else peak
  {
    ExactStep(lim, n, s, m);
    if m.Admit? {
      RouteInRange(lim, Cluster.PrunedAll(s.replicas, m.now), s.affinity, m.session, m.now, m.clock);
    }
  }

  // The most slots of replica k that were open at once, up to state i.
  ghost predicate IsPeak(run: seq<State>, i: nat, k: nat, peak: nat)
    requires i < |run|
  {
    && (forall j :: 0 <= j <= i ==> Count(run[j].open, k) <= peak)
    && exists j :: 0 <= j <= i && Count(run[j].open, k) == peak
  }

  lemma PeakMore(run: seq<State>, i: nat, k: nat, peak: nat)
    requires i + 1 < |run| && IsPeak(run, i, k, peak)
    ensures var c := Count(run[i + 1].open, k); IsPeak(run, i + 1, k, if c > peak then c else peak)
  {
    var j :| 0 <= j <= i && Count(run[j].open, k) == peak;
    var c := Count(run[i + 1].open, k);
    assert c > peak ==> Count(run[i + 1].open, k) == c;
    assert Count(run[j].open, k) == peak;
  }

  lemma PeakNext(lim: Limits, n: nat, run: seq<State>, moves: seq<Move>, i: nat, k: nat)
    requires lim.gpuCap > 0 && IsRun(lim, n, run, moves) && i + 1 < |run|
    requires k < n == |run[i].replicas| && IsPeak(run, i, k, run[i].replicas[k].peakActive)
    ensures |run[i + 1].replicas| == n && IsPeak(run, i + 1, k, run[i + 1].replicas[k].peakActive)
  {
    RunIsExact(lim, n, run, moves, i);
    PeakStep(lim, n, run[i], moves[i], run[i + 1], k);
    PeakMore(run, i, k, run[i].replicas[k].peakActive);
  }

  /** The peak a replica reports is the most requests that ever held its slots at once. */
  lemma {:induction false} PeakIsExact(lim: Limits, n: nat, run: seq<State>, moves: seq<Move>, i: nat, k: nat)
    requires lim.gpuCap > 0 && IsRun(lim, n, run, moves) && i < |run| && k < n
    ensures |run[i].replicas| == n && IsPeak(run, i, k, run[i].replicas[k].peakActive)
  {
    if i == 0 {
      assert Count(run[0].open, k) == 0;
    } else {
      PeakIsExact(lim, n, run, moves, i - 1, k);
      PeakNext(lim, n, run, moves, i - 1, k);
    }
  }
}
