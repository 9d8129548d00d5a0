// What the replay expects of a session is learnt from the tool calls of its own record, and from
// nothing else.
module ReplayForecast {
  import opened Models
  import opened ReplayLog
  import opened ReplaySpec
  import opened Replay
  import opened SingleCopy
  import P = Predictor

  // The tool call a request returns from, if it returns from one.
  function Returned(trace: SessionTrace, t: nat): seq<P.Event>
    requires t < |trace.turns|
  {
    if t > 0 && Named(trace.turns[t - 1].tool)
    then [P.Observed(trace.session, trace.turns[t - 1].tool, trace.turns[t - 1].toolMs)] else []
  }

  // The question a request raises: how long the tool call that follows it will take.
  function Asked(trace: SessionTrace, t: nat): seq<P.Event>
    requires t < |trace.turns|
  {
    if Named(trace.turns[t].tool) then [P.Asked(trace.turns[t].tool)] else []
  }

  ghost predicate InTrace(traces: seq<SessionTrace>, log: Log) {
    forall i :: 0 <= i < |log| ==> log[i].s < |traces| && log[i].t < |traces[log[i].s].turns|
  }

  // The tool calls of a record, in the order in which the sessions came back from them.
  function Calls(traces: seq<SessionTrace>, log: Log): seq<P.Event>
    requires InTrace(traces, log)
  {
    if log == [] then []
    else
      var x := log[|log| - 1];
      Calls(traces, log[..|log| - 1]) + Returned(traces[x.s], x.t) + Asked(traces[x.s], x.t)
  }

  lemma RunMore(c: PredictorConfig, h: seq<P.Event>, e: P.Event)
    ensures P.Run(c, h + [e]) == P.Apply(c, P.Run(c, h), e)
    ensures P.Run(c, h + []) == P.Run(c, h)
  {
    assert (h + [e])[..|h|] == h;
    assert h + [] == h;
  }

  // What is known when a request is routed: the record so far, and the call it returns from.
  function Known(setup: Setup, log: Log, s: nat, t: nat): seq<P.Event>
    requires InTrace(setup.traces, log) && s < |setup.traces| && t < |setup.traces[s].turns|
  {
    Calls(setup.traces, log) + Returned(setup.traces[s], t)
  }

  lemma LearnsCall(c: PredictorConfig, h: seq<P.Event>, trace: SessionTrace, t: nat)
    requires t < |trace.turns| && P.Sound(P.Run(c, h))
    ensures LearnFrom(c, P.Run(c, h), trace.session, trace.turns, t) == P.Run(c, h + Returned(trace, t))
  {
    if t > 0 && Named(trace.turns[t - 1].tool) {
      RunMore(c, h, P.Observed(trace.session, trace.turns[t - 1].tool, trace.turns[t - 1].toolMs));
    } else {
      assert h + Returned(trace, t) == h;
    }
  }

  lemma AsksCall(c: PredictorConfig, h: seq<P.Event>, trace: SessionTrace, t: nat)
    requires t < |trace.turns|
    ensures AskFrom(P.Run(c, h), trace.turns[t]) == P.Run(c, h + Asked(trace, t))
  {
    if Named(trace.turns[t].tool) {
      RunMore(c, h, P.Asked(trace.turns[t].tool));
    } else {
      assert h + Asked(trace, t) == h;
    }
  }

  // The predictor has seen the tool calls of the record, and nothing else.
  ghost predicate Learns(setup: Setup, w: World) {
    InTrace(setup.traces, w.log) && w.predictor == P.Run(setup.config.predictor, Calls(setup.traces, w.log))
  }

  lemma CallsAppend(traces: seq<SessionTrace>, log: Log, x: Served)
    requires InTrace(traces, log) && x.s < |traces| && x.t < |traces[x.s].turns|
    ensures InTrace(traces, log + [x])
    ensures Calls(traces, log + [x]) == Calls(traces, log) + Returned(traces[x.s], x.t) + Asked(traces[x.s], x.t)
  {
    assert (log + [x])[..|log|] == log;
  }

  lemma LearnsTurn(c: PredictorConfig, p: P.State, h: seq<P.Event>, trace: SessionTrace, t: nat)
    requires t < |trace.turns| && P.Sound(p) && p == P.Run(c, h)
    ensures var p' := LearnFrom(c, p, trace.session, trace.turns, t);
            && p' == P.Run(c, h + Returned(trace, t))
            && AskFrom(p', trace.turns[t]) == P.Run(c, h + Returned(trace, t) + Asked(trace, t))
  {
    LearnsCall(c, h, trace, t);
    AsksCall(c, h + Returned(trace, t), trace, t);
  }

  lemma LearnsStep(setup: Setup, w: World, w': World)
    requires setup.Valid() && Ready(setup, w) && w' == Step(setup, w) && Learns(setup, w)
    ensures Learns(setup, w')
    ensures Learned(setup, w) == P.Run(setup.config.predictor, Known(setup, w.log, Pick(w).s, Pick(w).t))
  {
    var ev := Pick(w);
    LearnsTurn(setup.config.predictor, w.predictor, Calls(setup.traces, w.log), setup.traces[ev.s], ev.t);
    CallsAppend(setup.traces, w.log, TheRecord(setup, w));
  }

  lemma InitLearns(setup: Setup)
    ensures Learns(setup, Init(setup))
  {
  }

  /** At every state of every run the predictor is what the tool calls of the record make it. */
  lemma {:induction false} AlwaysLearns(setup: Setup, ws: seq<World>, i: nat)
    requires IsRun(setup, ws) && i < |ws|
    ensures InTrace(setup.traces, ws[i].log)
    ensures ws[i].predictor == P.Run(setup.config.predictor, Calls(setup.traces, ws[i].log))
  {
    if i == 0 {
      InitLearns(setup);
      assert ws[0] == Init(setup);
    } else {
      AlwaysLearns(setup, ws, i - 1);
      StepAt(setup, ws, i - 1);
      LearnsStep(setup, ws[i - 1], ws[i]);
    }
  }

  /** The gap a request is served with: twice the dead-session time when no tool call follows; else the
      moving average of the calls of that tool returned from so far, if there are enough of them, else
      of the session's own calls, else of all calls from the prior on. */
  lemma GapsAreForecasts(setup: Setup, ws: seq<World>, i: nat)
    requires IsRun(setup, ws) && i + 1 < |ws|
    ensures i < |End(ws).log| && InTrace(setup.traces, ws[i].log)
    ensures var x, c := End(ws).log[i], setup.config.predictor;
            && x.s < |setup.traces| && x.t < |setup.traces[x.s].turns|
            && var session, tool := setup.traces[x.s].session, setup.traces[x.s].turns[x.t].tool;
            var h := Known(setup, ws[i].log, x.s, x.t);
            var own := P.SessionGaps(h, session);
            if !Named(tool) then x.gapMs == 2.0 * setup.config.policy.deadMs
            else
              var known := P.ToolGaps(h, tool.value);
              && (|known| >= c.minObservations ==> x.gapMs == P.Smooth(c.alpha, known[0], known))
              && (|known| < c.minObservations && own != [] ==> x.gapMs == P.Smooth(c.alpha, own[0], own))
              && (|known| < c.minObservations && own == [] ==> x.gapMs == P.Smooth(c.alpha, c.priorMs, P.Gaps(h)))
  {
    RecordAt(setup, ws, i);
    AlwaysLearns(setup, ws, i);
    StepAt(setup, ws, i);
    LearnsStep(setup, ws[i], ws[i + 1]);
    var ev := Pick(ws[i]);
    P.PredictionIsAverage(setup.config.predictor, Known(setup, ws[i].log, ev.s, ev.t), SessionOf(setup, ws[i]),
                          TurnOf(setup, ws[i]).tool);
  }
}
