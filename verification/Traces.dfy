// Synthetic traces (bench/traces.py). The random draws are parameters; what is modelled is how a
// session's prompts are built from them, and that the result is what the replay's theorems ask for.
module Traces {
  import opened Models
  import opened ReplayLog
  import ReplayCaches
  import RoomyRuns

  /** The draws of one turn: the answer, the tool called after it, how long it takes and what it adds. */
  datatype Draw = Draw(output: nat, tool: string, toolMs: real, toolTokens: nat)

  datatype Plan = Plan(session: string, arrival: real, base: nat, draws: seq<Draw>)

  // What sample_tool and randint can return: a named tool that takes some time.
  ghost predicate Drawn(p: Plan) {
    && p.draws != []
    && forall t :: 0 <= t < |p.draws| ==> p.draws[t].tool != "" && p.draws[t].toolMs >= 0.0
  }

  // Tokens the first t turns add to the transcript.
  function Added(draws: seq<Draw>, t: nat): nat
    requires t <= |draws|
  {
    if t == 0 then 0 else Added(draws, t - 1) + draws[t - 1].output + draws[t - 1].toolTokens
  }

  ghost predicate IsTurn(p: Plan, t: nat, turn: Turn)
    requires t < |p.draws|
  {
    && turn.prompt == p.base + Added(p.draws, t) && turn.output == p.draws[t].output
    && (if t + 1 == |p.draws| then !turn.HasTool() && turn.toolMs == 0.0
        else turn.tool == Some(p.draws[t].tool) && turn.toolMs == p.draws[t].toolMs)
  }

  /** The session a plan unfolds into: every prompt is the whole transcript so far, and only the last
      turn calls no tool. */
  ghost predicate Unfolds(p: Plan, trace: SessionTrace) {
    && trace.session == p.session && trace.arrival == p.arrival && |trace.turns| == |p.draws|
    && forall t :: 0 <= t < |p.draws| ==> IsTurn(p, t, trace.turns[t])
  }

  method GenerateSession(p: Plan) returns (trace: SessionTrace)
    requires Drawn(p)
    ensures Unfolds(p, trace)
  {
    var prompt, turns := p.base, [];
    for t := 0 to |p.draws|
      invariant |turns| == t && (t < |p.draws| ==> prompt == p.base + Added(p.draws, t))
      invariant forall i :: 0 <= i < t ==> IsTurn(p, i, turns[i])
    {
      var d := p.draws[t];
      var last := t == |p.draws| - 1;
      var tool, toolMs := if last then None else Some(d.tool), if last then 0.0 else d.toolMs;
      turns := turns + [Turn(prompt, d.output, tool, toolMs)];
      var toolTokens := if tool.Some? && tool.value != "" then d.toolTokens else 0;
      prompt := prompt + d.output + toolTokens;
    }
    trace := SessionTrace(p.session, p.arrival, turns);
  }

  ghost predicate AllUnfold(plans: seq<Plan>, traces: seq<SessionTrace>) {
    |traces| == |plans| && forall i :: 0 <= i < |plans| ==> Unfolds(plans[i], traces[i])
  }

  method GenerateTraces(plans: seq<Plan>) returns (traces: seq<SessionTrace>)
    requires forall i :: 0 <= i < |plans| ==> Drawn(plans[i])
    ensures AllUnfold(plans, traces)
  {
    traces := [];
    for i := 0 to |plans|
      invariant AllUnfold(plans[..i], traces)
    {
      var trace := GenerateSession(plans[i]);
      traces := traces + [trace];
      assert plans[..i + 1] == plans[..i] + [plans[i]];
    }
    assert plans[..|plans|] == plans;
  }

  ghost predicate DistinctPlans(plans: seq<Plan>) {
    forall i, j :: 0 <= i < j < |plans| ==> plans[i].session != plans[j].session
  }

  lemma SessionGrows(p: Plan, trace: SessionTrace, t: nat)
    requires Unfolds(p, trace) && 0 < t < |p.draws|
    ensures trace.turns[t].prompt == trace.turns[t - 1].Total() + p.draws[t - 1].toolTokens
  {
    assert IsTurn(p, t, trace.turns[t]) && IsTurn(p, t - 1, trace.turns[t - 1]);
  }

  /** Generated traces are what the replay needs: valid, each prompt containing the one before it and
      its answer, every turn calling a tool but each session's last. */
  lemma GeneratedTracesAreReplayable(plans: seq<Plan>, traces: seq<SessionTrace>)
    requires AllUnfold(plans, traces) && (forall i :: 0 <= i < |plans| ==> Drawn(plans[i]))
    ensures ValidTraces(traces) && ReplayCaches.Growing(traces)
    ensures DistinctPlans(plans) ==> DistinctSessions(traces)
    ensures RoomyRuns.ToolsBetween(traces)
    ensures forall s :: 0 <= s < |traces| ==> !traces[s].turns[|traces[s].turns| - 1].HasTool()
  {
    forall s, t | 0 <= s < |traces| && 0 <= t < |traces[s].turns| - 1 ensures traces[s].turns[t].HasTool() {
      assert Unfolds(plans[s], traces[s]) && Drawn(plans[s]) && IsTurn(plans[s], t, traces[s].turns[t]);
    }
    forall s | 0 <= s < |traces|
      ensures traces[s].turns != [] && !traces[s].turns[|traces[s].turns| - 1].HasTool()
      ensures forall t :: 0 <= t < |traces[s].turns| ==> traces[s].turns[t].toolMs >= 0.0
    {
      assert Unfolds(plans[s], traces[s]) && Drawn(plans[s]);
      assert forall t :: 0 <= t < |plans[s].draws| ==> IsTurn(plans[s], t, traces[s].turns[t]);
    }
    forall s, t | 0 <= s < |traces| && 0 < t < |traces[s].turns|
      ensures traces[s].turns[t].prompt >= traces[s].turns[t - 1].Total()
    {
      SessionGrows(plans[s], traces[s], t);
    }
  }

  // ---- What a generated trace costs at least -------------------------------------------

  // Everything that enters a transcript other than as an answer.
  function Supplied(p: Plan, t: nat): nat
    requires t <= |p.draws|
  {
    if t == 0 then 0
    else Supplied(p, t - 1) + (if t == 1 then p.base else p.draws[t - 2].toolTokens)
  }

  lemma {:induction false} SessionNeed(plans: seq<Plan>, traces: seq<SessionTrace>, s: nat, k: nat)
    requires AllUnfold(plans, traces) && s < |traces| && k <= |plans[s].draws|
    ensures TurnSum(ReplayCaches.NeedAt(traces), s, k) == Supplied(plans[s], k)
  {
    if k > 0 {
      SessionNeed(plans, traces, s, k - 1);
      assert Unfolds(plans[s], traces[s]) && IsTurn(plans[s], k - 1, traces[s].turns[k - 1]);
      if k > 1 {
        SessionGrows(plans[s], traces[s], k - 1);
      }
      assert ReplayCaches.NeedAt(traces)(s, k - 1) == ReplayCaches.NeedOf(traces, s, k - 1);
    }
  }

  function AllSupplied(plans: seq<Plan>, m: nat): nat
    requires m <= |plans|
  {
    if m == 0 then 0 else AllSupplied(plans, m - 1) + Supplied(plans[m - 1], |plans[m - 1].draws|)
  }

  lemma {:induction false} PlansNeed(plans: seq<Plan>, traces: seq<SessionTrace>, m: nat)
    requires AllUnfold(plans, traces) && m <= |traces|
    ensures TraceSum(ReplayCaches.NeedAt(traces), traces, m) == AllSupplied(plans, m)
  {
    if m > 0 {
      PlansNeed(plans, traces, m - 1);
      assert Unfolds(plans[m - 1], traces[m - 1]);
      SessionNeed(plans, traces, m - 1, |plans[m - 1].draws|);
    }
  }

  /** The minimum no scheduler can beat on a generated trace: the first prompts and the tool results
      that are followed by another turn. Answers are never computed again. */
  lemma GeneratedMinimum(plans: seq<Plan>, traces: seq<SessionTrace>)
    requires AllUnfold(plans, traces)
    ensures ReplayCaches.Minimum(traces) == AllSupplied(plans, |plans|)
  {
    PlansNeed(plans, traces, |plans|);
  }
}
