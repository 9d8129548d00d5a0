// The record of a replay: which request was served when, where and at what cost. Everything the
// harness promises about order, timing and totals is a property of a well-formed record, and
// Replay proves that every run writes one.
module ReplayLog {
  import opened Models

  datatype Served = Served(s: nat, t: nat, now: real, rid: nat, found: Option<int>, gapMs: real,
                           result: RequestResult) {
    function Done(): real {
      now + result.LatencyMs()
    }
  }

  type Log = seq<Served>

  // ---- Projections ---------------------------------------------------------------------

  // How many turns of session s have been served.
  function Progress(log: Log, s: nat): nat {
    if log == [] then 0 else Progress(log[..|log| - 1], s) + (if log[|log| - 1].s == s then 1 else 0)
  }

  function LastOf(log: Log, s: nat): Served
    requires Progress(log, s) > 0
  {
    if log[|log| - 1].s == s then log[|log| - 1] else LastOf(log[..|log| - 1], s)
  }

  // When replica r has finished everything it was ever sent.
  function FreeAt(log: Log, r: nat): real {
    if log == [] then 0.0
    else if log[|log| - 1].rid == r then log[|log| - 1].Done() else FreeAt(log[..|log| - 1], r)
  }

  // The requests of replica r, in order of dispatch.
  function On(log: Log, r: nat): Log {
    if log == [] then [] else On(log[..|log| - 1], r) + (if log[|log| - 1].rid == r then [log[|log| - 1]] else [])
  }

  // Those of them that are unfinished at a time.
  function Open(log: Log, r: nat, now: real): Log {
    if log == [] then [] else Open(log[..|log| - 1], r, now) + OpenOne(log[|log| - 1], r, now)
  }

  function OpenOne(x: Served, r: nat, now: real): Log {
    if x.rid == r && x.Done() > now then [x] else []
  }

  function Dones(log: Log): seq<real> {
    seq(|log|, i requires 0 <= i < |log| => log[i].Done())
  }

  // ---- Well-formed records -------------------------------------------------------------

  ghost predicate ValidTraces(traces: seq<SessionTrace>) {
    forall i :: 0 <= i < |traces| ==>
      traces[i].turns != [] && (forall t :: 0 <= t < |traces[i].turns| ==> traces[i].turns[t].toolMs >= 0.0)
  }

  ghost predicate DistinctSessions(traces: seq<SessionTrace>) {
    forall i, j :: 0 <= i < j < |traces| ==> traces[i].session != traces[j].session
  }

  /** One more request on top of a record: the session's next turn, arriving when its last one and
      the tool after it are done, never before an earlier event, queued behind its replica. */
  ghost predicate Fits(traces: seq<SessionTrace>, n: nat, hw: Hardware, log: Log, x: Served) {
    && x.s < |traces| && x.t == Progress(log, x.s) < |traces[x.s].turns|
    && x.now == (if x.t == 0 then traces[x.s].arrival
                 else LastOf(log, x.s).Done() + traces[x.s].turns[x.t - 1].toolMs)
    && (log != [] ==> log[|log| - 1].now <= x.now)
    && x.rid < n
    && Sane(hw, traces[x.s].turns[x.t], x.result)
    && x.result.queueMs == Max(0.0, FreeAt(log, x.rid) - x.now)
  }

  ghost predicate Sane(hw: Hardware, turn: Turn, r: RequestResult) {
    && r.reused + r.computed == turn.prompt
    && r.restoreMs >= 0.0 && r.prefillMs >= 0.0
    && r.decodeMs == turn.output as real * hw.decodeMs && r.decodeMs >= 0.0
  }

  /** The price of a request by the tier that answered it: what was not reused is prefilled, what was
      reused from DRAM is restored, and a miss reuses nothing. */
  ghost predicate PricedByTier(hw: Hardware, turn: Turn, r: RequestResult) {
    && r.reused + r.computed == turn.prompt && (r.tier == MISS ==> r.reused == 0)
    && r.prefillMs == r.computed as real * hw.prefillMs
    && r.restoreMs == (if r.tier == DRAM then r.reused as real * hw.restoreMs else 0.0)
    && r.decodeMs == turn.output as real * hw.decodeMs
  }

  ghost predicate WellFormed(traces: seq<SessionTrace>, n: nat, hw: Hardware, log: Log) {
    forall i :: 0 <= i < |log| ==> Fits(traces, n, hw, log[..i], log[i])
  }

  lemma WellFormedFront(traces: seq<SessionTrace>, n: nat, hw: Hardware, log: Log)
    requires WellFormed(traces, n, hw, log) && log != []
    ensures WellFormed(traces, n, hw, log[..|log| - 1])
    ensures Fits(traces, n, hw, log[..|log| - 1], log[|log| - 1])
  {
    var front := log[..|log| - 1];
    forall i | 0 <= i < |front| ensures Fits(traces, n, hw, front[..i], front[i]) {
      assert front[..i] == log[..i];
    }
  }

  lemma WellFormedAppend(traces: seq<SessionTrace>, n: nat, hw: Hardware, log: Log, x: Served)
    requires WellFormed(traces, n, hw, log) && Fits(traces, n, hw, log, x)
    ensures WellFormed(traces, n, hw, log + [x])
  {
    var r := log + [x];
    forall i | 0 <= i < |r| ensures Fits(traces, n, hw, r[..i], r[i]) {
      if i < |log| {
        assert r[..i] == log[..i];
      } else {
        assert r[..i] == log;
      }
    }
  }

  // ---- Every turn once, in order -------------------------------------------------------

  lemma {:induction false} ProgressBound(traces: seq<SessionTrace>, n: nat, hw: Hardware, log: Log, s: nat)
    requires WellFormed(traces, n, hw, log) && s < |traces|
    ensures Progress(log, s) <= |traces[s].turns|
  {
    if log != [] {
      WellFormedFront(traces, n, hw, log);
      ProgressBound(traces, n, hw, log[..|log| - 1], s);
    }
  }

  lemma {:induction false} ProgressPrefix(log: Log, i: nat, s: nat)
    requires i <= |log|
    ensures Progress(log[..i], s) <= Progress(log, s)
    ensures i < |log| && log[i].s == s ==> Progress(log[..i], s) < Progress(log, s)
    decreases |log|
  {
    if i == |log| {
      assert log[..i] == log;
    } else {
      ProgressPrefix(log[..|log| - 1], i, s);
      assert log[..|log| - 1][..i] == log[..i];
    }
  }

  lemma {:induction false} TurnIsThere(traces: seq<SessionTrace>, n: nat, hw: Hardware, log: Log, s: nat, t: nat)
      returns (i: nat)
    requires WellFormed(traces, n, hw, log) && t < Progress(log, s)
    ensures i < |log| && log[i].s == s && log[i].t == t
    decreases |log|
  {
    var k := |log| - 1;
    WellFormedFront(traces, n, hw, log);
    if log[k].s == s && log[k].t == t {
      i := k;
    } else {
      i := TurnIsThere(traces, n, hw, log[..k], s, t);
    }
  }

  /** Each turn that has been served was served once, and turns of a session in their order. */
  lemma ServedOnceInOrder(traces: seq<SessionTrace>, n: nat, hw: Hardware, log: Log, i: nat, j: nat)
    requires WellFormed(traces, n, hw, log) && i < j < |log| && log[i].s == log[j].s
    ensures log[i].t < log[j].t
  {
    assert Fits(traces, n, hw, log[..i], log[i]) && Fits(traces, n, hw, log[..j], log[j]);
    ProgressPrefix(log[..j], i, log[i].s);
    assert log[..j][..i] == log[..i];
  }

  // Any quantity per turn, summed over the record and over the first k turns of a session.
  function LogSum(log: Log, f: (nat, nat) -> int): int {
    if log == [] then 0 else LogSum(log[..|log| - 1], f) + f(log[|log| - 1].s, log[|log| - 1].t)
  }

  function TurnSum(f: (nat, nat) -> int, s: nat, k: nat): int {
    if k == 0 then 0 else TurnSum(f, s, k - 1) + f(s, k - 1)
  }

  function ProgressSum(f: (nat, nat) -> int, log: Log, m: nat): int {
    if m == 0 then 0 else ProgressSum(f, log, m - 1) + TurnSum(f, m - 1, Progress(log, m - 1))
  }

  function TraceSum(f: (nat, nat) -> int, traces: seq<SessionTrace>, m: nat): int
    requires m <= |traces|
  {
    if m == 0 then 0 else TraceSum(f, traces, m - 1) + TurnSum(f, m - 1, |traces[m - 1].turns|)
  }

  lemma {:induction false} ProgressSumStep(f: (nat, nat) -> int, log: Log, x: Served, m: nat)
    requires x.t == Progress(log, x.s)
    ensures ProgressSum(f, log + [x], m) == ProgressSum(f, log, m) + (if x.s < m then f(x.s, x.t) else 0)
  {
    if m > 0 {
      ProgressSumStep(f, log, x, m - 1);
      assert (log + [x])[..|log|] == log;
    }
  }

  lemma {:induction false} ProgressSumEmpty(f: (nat, nat) -> int, m: nat)
    ensures ProgressSum(f, [], m) == 0
  {
    if m > 0 {
      ProgressSumEmpty(f, m - 1);
    }
  }

  /** Regrouping: whatever is summed over the requests served is the sum, session by session, over
      the turns served. */
  lemma {:induction false} SumBySession(traces: seq<SessionTrace>, n: nat, hw: Hardware, log: Log, f: (nat, nat) -> int)
    requires WellFormed(traces, n, hw, log)
    ensures LogSum(log, f) == ProgressSum(f, log, |traces|)
    decreases |log|
  {
    if log == [] {
      ProgressSumEmpty(f, |traces|);
    } else {
      var k := |log| - 1;
      WellFormedFront(traces, n, hw, log);
      SumBySession(traces, n, hw, log[..k], f);
      ProgressSumStep(f, log[..k], log[k], |traces|);
      assert log == log[..k] + [log[k]];
    }
  }

  ghost predicate Complete(traces: seq<SessionTrace>, log: Log) {
    forall s :: 0 <= s < |traces| ==> Progress(log, s) == |traces[s].turns|
  }

  /** Exactly once: over a complete record any per-turn quantity adds up to its total over the trace,
      in whatever order the events came. */
  lemma CompleteSum(traces: seq<SessionTrace>, n: nat, hw: Hardware, log: Log, f: (nat, nat) -> int)
    requires WellFormed(traces, n, hw, log) && Complete(traces, log)
    ensures LogSum(log, f) == TraceSum(f, traces, |traces|)
  {
    SumBySession(traces, n, hw, log, f);
    SumsAgree(traces, log, f, |traces|);
  }

  lemma {:induction false} SumsAgree(traces: seq<SessionTrace>, log: Log, f: (nat, nat) -> int, m: nat)
    requires Complete(traces, log) && m <= |traces|
    ensures ProgressSum(f, log, m) == TraceSum(f, traces, m)
  {
    if m > 0 {
      SumsAgree(traces, log, f, m - 1);
    }
  }

  function TotalTurns(traces: seq<SessionTrace>): nat {
    if traces == [] then 0 else TotalTurns(traces[..|traces| - 1]) + |traces[|traces| - 1].turns|
  }

  lemma {:induction false} LogSumOne(log: Log)
    ensures LogSum(log, (s, t) => 1) == |log|
  {
    if log != [] {
      LogSumOne(log[..|log| - 1]);
    }
  }

  lemma {:induction false} ProgressSumOne(traces: seq<SessionTrace>, log: Log, m: nat)
    requires m <= |traces| && forall s :: 0 <= s < |traces| ==> Progress(log, s) <= |traces[s].turns|
    ensures ProgressSum((s, t) => 1, log, m) <= TotalTurns(traces[..m])
    ensures ProgressSum((s, t) => 1, log, m) == TotalTurns(traces[..m]) <==>
              forall s :: 0 <= s < m ==> Progress(log, s) == |traces[s].turns|
  {
    if m > 0 {
      ProgressSumOne(traces, log, m - 1);
      TurnSumOne(m - 1, Progress(log, m - 1));
      assert traces[..m][..m - 1] == traces[..m - 1];
    }
  }

  lemma {:induction false} TurnSumOne(s: nat, k: nat)
    ensures TurnSum((s, t) => 1, s, k) == k
  {
    if k > 0 {
      TurnSumOne(s, k - 1);
    }
  }

  /** A record is never longer than the trace, and has full length exactly when it is complete. */
  lemma FullLengthMeansComplete(traces: seq<SessionTrace>, n: nat, hw: Hardware, log: Log)
    requires WellFormed(traces, n, hw, log)
    ensures |log| <= TotalTurns(traces)
    ensures |log| == TotalTurns(traces) <==> Complete(traces, log)
  {
    forall s | 0 <= s < |traces| ensures Progress(log, s) <= |traces[s].turns| {
      ProgressBound(traces, n, hw, log, s);
    }
    LogSumOne(log);
    SumBySession(traces, n, hw, log, (s, t) => 1);
    ProgressSumOne(traces, log, |traces|);
    assert traces[..|traces|] == traces;
  }
}
