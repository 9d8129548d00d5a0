// Tool-duration prediction (agentserve/predictor.py): one exponentially weighted moving average per
// tool, per session and overall, consulted in that order.
module Predictor {
  import opened Models

  datatype State = State(
    tools: map<string, real>, counts: map<string, nat>, sessions: map<string, real>,
    overall: real, observations: nat)

  function Initial(c: PredictorConfig): State {
    State(map[], map[], map[], c.priorMs, 0)
  }

  function Blend(a: real, gap: real, prev: real): real {
    a * gap + (1.0 - a) * prev
  }

  function Update(a: real, m: map<string, real>, key: string, gap: real): map<string, real> {
    m[key := Blend(a, gap, if key in m then m[key] else gap)]
  }

  function CountOf(st: State, tool: string): nat {
    if tool in st.counts then st.counts[tool] else 0
  }

  function Learn(c: PredictorConfig, st: State, session: string, tool: Option<string>, gap: real): State {
    var st1 := if Named(tool) then
                 st.(tools := Update(c.alpha, st.tools, tool.value, gap),
                     counts := st.counts[tool.value := CountOf(st, tool.value) + 1])
               else st;
    st1.(sessions := Update(c.alpha, st.sessions, session, gap),
         overall := Blend(c.alpha, gap, st.overall),
         observations := st.observations + 1)
  }

  // Whoever has been counted has an average: the tool lookup cannot miss its key.
  ghost predicate Sound(st: State) {
    forall t :: t in st.counts && st.counts[t] >= 1 ==> t in st.tools
  }

  // Asking about an unseen tool leaves a zero count behind (a defaultdict read).
  function Ask(st: State, tool: Option<string>): State {
    if Named(tool) && tool.value !in st.counts then st.(counts := st.counts[tool.value := 0]) else st
  }

  function Predict(c: PredictorConfig, st: State, session: string, tool: Option<string>): real
    requires c.minObservations >= 1 && Sound(st)
  {
    if Named(tool) && CountOf(st, tool.value) >= c.minObservations then st.tools[tool.value]
    else if session in st.sessions then st.sessions[session]
    else if st.observations != 0 then st.overall
    else c.priorMs
  }

  class ToolDurationPredictor {
    const config: PredictorConfig
    var tools: map<string, real>
    var counts: map<string, nat>
    var sessions: map<string, real>
    var overall: real
    var observations: nat

    constructor (config: PredictorConfig)
      ensures this.config == config && View() == Initial(config)
    {
      this.config := config;
      tools, counts, sessions := map[], map[], map[];
      overall, observations := config.priorMs, 0;
    }

    ghost function View(): State
      reads this
    {
      State(tools, counts, sessions, overall, observations)
    }

    /** A negative gap is rejected before anything is changed. */
    method Observe(session: string, tool: Option<string>, gap: real) returns (accepted: bool)
      modifies this
      ensures accepted == (gap >= 0.0)
      ensures View() == if accepted then Learn(config, old(View()), session, tool, gap) else old(View())
    {
      if gap < 0.0 {
        return false;
      }
      var a := config.alpha;
      if tool.Some? && tool.value != "" {
        var t := tool.value;
        var prev := if t in tools then tools[t] else gap;
        tools := tools[t := Blend(a, gap, prev)];
        counts := counts[t := (if t in counts then counts[t] else 0) + 1];
      }
      var prevS := if session in sessions then sessions[session] else gap;
      sessions := sessions[session := Blend(a, gap, prevS)];
      overall := Blend(a, gap, overall);
      observations := observations + 1;
      return true;
    }

    method PredictMs(session: string, tool: Option<string>) returns (ms: real)
      requires config.minObservations >= 1 && Sound(View())
      modifies this`counts
      ensures ms == Predict(config, old(View()), session, tool)
      ensures View() == Ask(old(View()), tool)
    {
      if tool.Some? && tool.value != "" {
        var t := tool.value;
        if t !in counts {
          counts := counts[t := 0];
        }
        if counts[t] >= config.minObservations {
          return tools[t];
        }
      }
      if session in sessions {
        return sessions[session];
      }
      if observations != 0 {
        return overall;
      }
      return config.priorMs;
    }
  }

  // ---- Averages ------------------------------------------------------------------------

  // Folding gaps, oldest first, into a starting value.
  function Smooth(a: real, start: real, gaps: seq<real>): real {
    if gaps == [] then start else Blend(a, gaps[|gaps| - 1], Smooth(a, start, gaps[..|gaps| - 1]))
  }

  function Power(x: real, n: nat): real {
    if n == 0 then 1.0 else x * Power(x, n - 1)
  }

  // x after n rounds of aging.
  function Aged(a: real, x: real, n: nat): real {
    if n == 0 then x else (1.0 - a) * Aged(a, x, n - 1)
  }

  lemma {:induction false} AgedIsPower(a: real, x: real, n: nat)
    ensures Aged(a, x, n) == Power(1.0 - a, n) * x
  {
    if n > 0 {
      AgedIsPower(a, x, n - 1);
    }
  }

  // Every gap weighted by its age.
  function WeightedSum(a: real, gaps: seq<real>): real {
    if gaps == [] then 0.0 else Aged(a, Share(a, gaps[0]), |gaps| - 1) + WeightedSum(a, gaps[1..])
  }

  function Share(a: real, gap: real): real {
    a * gap
  }

  lemma {:induction false} AgedForm(a: real, start: real, gaps: seq<real>)
    ensures Smooth(a, start, gaps) == Aged(a, start, |gaps|) + WeightedSum(a, gaps)
    decreases |gaps|
  {
    if gaps != [] {
      var n := |gaps| - 1;
      AgedForm(a, start, gaps[..n]);
      WeightedSumAppend(a, gaps[..n], gaps[n]);
      assert gaps == gaps[..n] + [gaps[n]];
    }
  }

  // The same with powers: the i-th newest gap weighs a(1-a)^i.
  function PowerSum(a: real, gaps: seq<real>): real {
    if gaps == [] then 0.0 else Power(1.0 - a, |gaps| - 1) * Share(a, gaps[0]) + PowerSum(a, gaps[1..])
  }

  lemma {:induction false} WeightsArePowers(a: real, gaps: seq<real>)
    ensures WeightedSum(a, gaps) == PowerSum(a, gaps)
  {
    if gaps != [] {
      AgedIsPower(a, Share(a, gaps[0]), |gaps| - 1);
      WeightsArePowers(a, gaps[1..]);
    }
  }

  /** An average is the weighted sum of what was observed, the i-th newest gap weighing a(1-a)^i and
      the starting value whatever weight is left. */
  lemma SmoothClosedForm(a: real, start: real, gaps: seq<real>)
    ensures Smooth(a, start, gaps) == Power(1.0 - a, |gaps|) * start + PowerSum(a, gaps)
  {
    AgedForm(a, start, gaps);
    AgedIsPower(a, start, |gaps|);
    WeightsArePowers(a, gaps);
  }

  lemma {:induction false} WeightedSumAppend(a: real, gaps: seq<real>, gap: real)
    ensures WeightedSum(a, gaps + [gap]) == (1.0 - a) * WeightedSum(a, gaps) + a * gap
  {
    if gaps == [] {
      assert [gap][1..] == [];
    } else {
      WeightedSumAppend(a, gaps[1..], gap);
      var all := gaps + [gap];
      assert all[1..] == gaps[1..] + [gap] && all[0] == gaps[0];
      var x, y := Aged(a, Share(a, gaps[0]), |gaps| - 1), WeightedSum(a, gaps[1..]);
      assert WeightedSum(a, all) == Aged(a, Share(a, all[0]), |all| - 1) + WeightedSum(a, all[1..]);
      assert Aged(a, Share(a, gaps[0]), |gaps|) == (1.0 - a) * x;
      assert (1.0 - a) * (x + y) == (1.0 - a) * x + (1.0 - a) * y;
    }
  }

  lemma BlendBetween(a: real, gap: real, prev: real, lo: real, hi: real)
    requires 0.0 < a <= 1.0 && lo <= gap <= hi && lo <= prev <= hi
    ensures lo <= Blend(a, gap, prev) <= hi
  {
    Product(a, gap - lo);
    Product(a, hi - gap);
    Product(1.0 - a, prev - lo);
    Product(1.0 - a, hi - prev);
  }

  lemma Product(x: real, y: real)
    requires x >= 0.0 && y >= 0.0
    ensures x * y >= 0.0
  {
  }

  lemma {:induction false} SmoothBetween(a: real, start: real, gaps: seq<real>, lo: real, hi: real)
    requires 0.0 < a <= 1.0 && lo <= start <= hi && forall i :: 0 <= i < |gaps| ==> lo <= gaps[i] <= hi
    ensures lo <= Smooth(a, start, gaps) <= hi
    decreases |gaps|
  {
    if gaps != [] {
      var n := |gaps| - 1;
      SmoothBetween(a, start, gaps[..n], lo, hi);
      BlendBetween(a, gaps[n], Smooth(a, start, gaps[..n]), lo, hi);
    }
  }

  // ---- Histories -----------------------------------------------------------------------

  datatype Event = Observed(session: string, tool: Option<string>, gap: real) | Asked(tool: Option<string>)

  function Apply(c: PredictorConfig, st: State, e: Event): State {
    match e
    case Observed(session, tool, gap) => Learn(c, st, session, tool, gap)
    case Asked(tool) => Ask(st, tool)
  }

  function Run(c: PredictorConfig, h: seq<Event>): State {
    if h == [] then Initial(c) else Apply(c, Run(c, h[..|h| - 1]), h[|h| - 1])
  }

  function GapIf(e: Event, counts: bool): seq<real> {
    if e.Observed? && counts then [e.gap] else []
  }

  predicate IsTool(e: Event, tool: string) {
    Named(e.tool) && e.tool.value == tool
  }

  predicate IsSession(e: Event, session: string) {
    e.Observed? && e.session == session
  }

  function ToolGaps(h: seq<Event>, tool: string): seq<real> {
    if h == [] then [] else ToolGaps(h[..|h| - 1], tool) + GapIf(h[|h| - 1], IsTool(h[|h| - 1], tool))
  }

  function SessionGaps(h: seq<Event>, session: string): seq<real> {
    if h == [] then [] else SessionGaps(h[..|h| - 1], session) + GapIf(h[|h| - 1], IsSession(h[|h| - 1], session))
  }

  function Gaps(h: seq<Event>): seq<real> {
    if h == [] then [] else Gaps(h[..|h| - 1]) + GapIf(h[|h| - 1], true)
  }

  // A per-key average started at its own first gap.
  ghost predicate Averages(a: real, m: map<string, real>, key: string, gaps: seq<real>) {
    (key in m <==> gaps != []) && (gaps != [] ==> m[key] == Smooth(a, gaps[0], gaps))
  }

  lemma AveragesUpdate(a: real, m: map<string, real>, key: string, gap: real, k: string, gaps: seq<real>)
    requires Averages(a, m, k, gaps)
    ensures Averages(a, Update(a, m, key, gap), k, gaps + (if k == key then [gap] else []))
  {
    if k == key {
      var all := gaps + [gap];
      assert all[..|all| - 1] == gaps;
      if gaps == [] {
        assert Smooth(a, gap, []) == gap;
        assert Blend(a, gap, gap) == gap;
      }
    } else {
      assert gaps + [] == gaps;
    }
  }

  ghost predicate ToolTracked(a: real, st: State, tool: string, gaps: seq<real>) {
    Averages(a, st.tools, tool, gaps) && CountOf(st, tool) == |gaps|
  }

  lemma ToolStep(c: PredictorConfig, st: State, e: Event, tool: string, gaps: seq<real>)
    requires ToolTracked(c.alpha, st, tool, gaps)
    ensures ToolTracked(c.alpha, Apply(c, st, e), tool, gaps + GapIf(e, IsTool(e, tool)))
  {
    if e.Observed? && Named(e.tool) {
      AveragesUpdate(c.alpha, st.tools, e.tool.value, e.gap, tool, gaps);
    } else {
      assert gaps + [] == gaps;
    }
  }

  lemma SessionStep(c: PredictorConfig, st: State, e: Event, session: string, gaps: seq<real>)
    requires Averages(c.alpha, st.sessions, session, gaps)
    ensures Averages(c.alpha, Apply(c, st, e).sessions, session, gaps + GapIf(e, IsSession(e, session)))
  {
    if e.Observed? {
      AveragesUpdate(c.alpha, st.sessions, e.session, e.gap, session, gaps);
    } else {
      assert gaps + [] == gaps;
    }
  }

  lemma OverallStep(c: PredictorConfig, st: State, e: Event, gaps: seq<real>)
    requires st.overall == Smooth(c.alpha, c.priorMs, gaps) && st.observations == |gaps|
    ensures var st', gaps' := Apply(c, st, e), gaps + GapIf(e, true);
            st'.overall == Smooth(c.alpha, c.priorMs, gaps') && st'.observations == |gaps'|
  {
    if e.Observed? {
      var all := gaps + [e.gap];
      assert all[..|all| - 1] == gaps;
    } else {
      assert gaps + [] == gaps;
    }
  }

  /** The predictor's tables are exactly the moving averages of the gaps seen: per tool (with its
      count), per session and overall, whatever was asked in between. */
  lemma {:induction false} RunIsAverages(c: PredictorConfig, h: seq<Event>)
    ensures forall t :: ToolTracked(c.alpha, Run(c, h), t, ToolGaps(h, t))
    ensures forall s :: Averages(c.alpha, Run(c, h).sessions, s, SessionGaps(h, s))
    ensures Run(c, h).overall == Smooth(c.alpha, c.priorMs, Gaps(h)) && Run(c, h).observations == |Gaps(h)|
    decreases |h|
  {
    if h != [] {
      var n := |h| - 1;
      var st := Run(c, h[..n]);
      RunIsAverages(c, h[..n]);
      forall t ensures ToolTracked(c.alpha, Run(c, h), t, ToolGaps(h, t)) {
        ToolStep(c, st, h[n], t, ToolGaps(h[..n], t));
      }
      forall s ensures Averages(c.alpha, Run(c, h).sessions, s, SessionGaps(h, s)) {
        SessionStep(c, st, h[n], s, SessionGaps(h[..n], s));
      }
      OverallStep(c, st, h[n], Gaps(h[..n]));
    }
  }

  /** The tool lookup never misses its key. */
  lemma CountedToolsHaveAverages(c: PredictorConfig, h: seq<Event>)
    ensures Sound(Run(c, h))
  {
    RunIsAverages(c, h);
    var st := Run(c, h);
    forall t | t in st.counts && st.counts[t] >= 1 ensures t in st.tools {
      assert ToolTracked(c.alpha, st, t, ToolGaps(h, t));
    }
  }

  /** What is predicted, in terms of the gaps seen: the moving average of the tool's own gaps once there
      are enough of them, else of the session's, else of all gaps from the prior on. */
  lemma PredictionIsAverage(c: PredictorConfig, h: seq<Event>, session: string, tool: Option<string>)
    requires c.minObservations >= 1
    ensures Sound(Run(c, h))
    ensures var ms, a := Predict(c, Run(c, h), session, tool), c.alpha;
            var known := Named(tool) && |ToolGaps(h, tool.value)| >= c.minObservations;
            && (known ==> ms == Smooth(a, ToolGaps(h, tool.value)[0], ToolGaps(h, tool.value)))
            && (!known && SessionGaps(h, session) != [] ==>
                  ms == Smooth(a, SessionGaps(h, session)[0], SessionGaps(h, session)))
            && (!known && SessionGaps(h, session) == [] ==> ms == Smooth(a, c.priorMs, Gaps(h)))
  {
    var st := Run(c, h);
    RunIsAverages(c, h);
    CountedToolsHaveAverages(c, h);
    assert Averages(c.alpha, st.sessions, session, SessionGaps(h, session));
    if Named(tool) {
      assert ToolTracked(c.alpha, st, tool.value, ToolGaps(h, tool.value));
    }
  }

  lemma {:induction false} GapsWithin(h: seq<Event>, lo: real, hi: real)
    requires forall i :: 0 <= i < |h| && h[i].Observed? ==> lo <= h[i].gap <= hi
    ensures forall i :: 0 <= i < |Gaps(h)| ==> lo <= Gaps(h)[i] <= hi
    ensures forall t, i :: 0 <= i < |ToolGaps(h, t)| ==> lo <= ToolGaps(h, t)[i] <= hi
    ensures forall s, i :: 0 <= i < |SessionGaps(h, s)| ==> lo <= SessionGaps(h, s)[i] <= hi
    decreases |h|
  {
    if h != [] {
      GapsWithin(h[..|h| - 1], lo, hi);
    }
  }

  /** Every prediction lies between the least and the greatest of the prior and the gaps observed. */
  lemma PredictionWithin(c: PredictorConfig, h: seq<Event>, session: string, tool: Option<string>, lo: real, hi: real)
    requires c.Valid() && lo <= c.priorMs <= hi
    requires forall i :: 0 <= i < |h| && h[i].Observed? ==> lo <= h[i].gap <= hi
    ensures Sound(Run(c, h))
    ensures lo <= Predict(c, Run(c, h), session, tool) <= hi
  {
    var st := Run(c, h);
    RunIsAverages(c, h);
    CountedToolsHaveAverages(c, h);
    GapsWithin(h, lo, hi);
    if Named(tool) && CountOf(st, tool.value) >= c.minObservations {
      var gaps := ToolGaps(h, tool.value);
      assert ToolTracked(c.alpha, st, tool.value, gaps);
      SmoothBetween(c.alpha, gaps[0], gaps, lo, hi);
    } else if session in st.sessions {
      var gaps := SessionGaps(h, session);
      assert Averages(c.alpha, st.sessions, session, gaps);
      SmoothBetween(c.alpha, gaps[0], gaps, lo, hi);
    } else {
      SmoothBetween(c.alpha, c.priorMs, Gaps(h), lo, hi);
    }
  }

  // Everything the predictor may answer lies between lo and hi.
  ghost predicate Within(c: PredictorConfig, st: State, lo: real, hi: real) {
    && lo <= c.priorMs <= hi && lo <= st.overall <= hi
    && (forall t :: t in st.tools ==> lo <= st.tools[t] <= hi)
    && (forall s :: s in st.sessions ==> lo <= st.sessions[s] <= hi)
  }

  lemma LearnWithin(c: PredictorConfig, st: State, session: string, tool: Option<string>, gap: real, lo: real, hi: real)
    requires c.Valid() && Within(c, st, lo, hi) && lo <= gap <= hi
    ensures Within(c, Learn(c, st, session, tool, gap), lo, hi)
  {
    BlendBetween(c.alpha, gap, st.overall, lo, hi);
    BlendBetween(c.alpha, gap, if session in st.sessions then st.sessions[session] else gap, lo, hi);
    if Named(tool) {
      BlendBetween(c.alpha, gap, if tool.value in st.tools then st.tools[tool.value] else gap, lo, hi);
    }
  }

  lemma PredictWithin(c: PredictorConfig, st: State, session: string, tool: Option<string>, lo: real, hi: real)
    requires c.minObservations >= 1 && Sound(st) && Within(c, st, lo, hi)
    ensures lo <= Predict(c, st, session, tool) <= hi
  {
  }

  // ---- Repetition ----------------------------------------------------------------------

  // One more gap of d ages the distance to d by one round.
  lemma BlendAges(a: real, d: real, x: real, y: real, k: nat)
    requires y - d == Aged(a, x - d, k)
    ensures Blend(a, d, y) - d == Aged(a, x - d, k + 1)
  {
    assert Blend(a, d, y) - d == (1.0 - a) * (y - d);
  }

  // The average of a key after k more gaps of d, against before: its distance to d has aged by k
  // rounds, or d was all it ever saw.
  ghost predicate Closer(a: real, m: map<string, real>, m': map<string, real>, key: string, d: real, k: nat) {
    if key in m then key in m' && m'[key] - d == Aged(a, m[key] - d, k)
    else k > 0 ==> key in m' && m'[key] == d
  }

  lemma CloserStep(a: real, m: map<string, real>, m': map<string, real>, key: string, d: real, k: nat)
    requires Closer(a, m, m', key, d, k) && (k == 0 ==> m' == m)
    ensures Closer(a, m, Update(a, m', key, d), key, d, k + 1)
  {
    if key in m {
      BlendAges(a, d, m[key], m'[key], k);
    } else {
      assert Blend(a, d, d) == d;
    }
  }

  function Repeat(e: Event, k: nat): seq<Event> {
    if k == 0 then [] else Repeat(e, k - 1) + [e]
  }

  ghost predicate AllCloser(c: PredictorConfig, st: State, st': State, session: string, tool: Option<string>,
                            d: real, k: nat) {
    && st'.overall - d == Aged(c.alpha, st.overall - d, k)
    && Closer(c.alpha, st.sessions, st'.sessions, session, d, k)
    && (Named(tool) ==> Closer(c.alpha, st.tools, st'.tools, tool.value, d, k))
  }

  lemma AllCloserStep(c: PredictorConfig, st: State, st': State, session: string, tool: Option<string>, d: real, k: nat)
    requires AllCloser(c, st, st', session, tool, d, k) && (k == 0 ==> st' == st)
    ensures AllCloser(c, st, Learn(c, st', session, tool, d), session, tool, d, k + 1)
  {
    BlendAges(c.alpha, d, st.overall, st'.overall, k);
    CloserStep(c.alpha, st.sessions, st'.sessions, session, d, k);
    if Named(tool) {
      CloserStep(c.alpha, st.tools, st'.tools, tool.value, d, k);
    }
  }

  lemma RepeatRuns(c: PredictorConfig, h: seq<Event>, e: Event, k: nat)
    ensures Run(c, h + Repeat(e, 0)) == Run(c, h)
    ensures Run(c, h + Repeat(e, k + 1)) == Apply(c, Run(c, h + Repeat(e, k)), e)
  {
    var more := h + Repeat(e, k);
    assert h + [] == h;
    assert h + Repeat(e, k + 1) == more + [e] && (more + [e])[..|more|] == more;
  }

  lemma {:induction false} RepeatsAge(c: PredictorConfig, h: seq<Event>, session: string, tool: Option<string>,
                                      d: real, k: nat)
    ensures AllCloser(c, Run(c, h), Run(c, h + Repeat(Observed(session, tool, d), k)), session, tool, d, k)
  {
    var e := Observed(session, tool, d);
    if k == 0 {
      RepeatRuns(c, h, e, 0);
    } else {
      RepeatsAge(c, h, session, tool, d, k - 1);
      RepeatRuns(c, h, e, k - 1);
      AllCloserStep(c, Run(c, h), Run(c, h + Repeat(e, k - 1)), session, tool, d, k - 1);
    }
  }

  // y has come closer to d than x was, by (1-a)^k.
  ghost predicate NearerBy(a: real, d: real, x: real, y: real, k: nat) {
    y - d == Power(1.0 - a, k) * (x - d)
  }

  lemma AgedIsNearer(a: real, d: real, x: real, y: real, k: nat)
    requires y - d == Aged(a, x - d, k)
    ensures NearerBy(a, d, x, y, k)
  {
    AgedIsPower(a, x - d, k);
  }

  // So has a key's average, or d was all it ever saw.
  ghost predicate KeyNearer(a: real, m: map<string, real>, m': map<string, real>, key: string, d: real, k: nat) {
    if key in m then key in m' && NearerBy(a, d, m[key], m'[key], k)
    else k > 0 ==> key in m' && m'[key] == d
  }

  lemma CloserIsNearer(a: real, m: map<string, real>, m': map<string, real>, key: string, d: real, k: nat)
    requires Closer(a, m, m', key, d, k)
    ensures KeyNearer(a, m, m', key, d, k)
  {
    if key in m {
      AgedIsNearer(a, d, m[key], m'[key], k);
    }
  }

  /** After any history, k more equal observations bring the overall, the session's and the tool's
      average closer to the observed gap by (1-a)^k, or to it where there was none before. */
  lemma EqualGapsContract(c: PredictorConfig, h: seq<Event>, session: string, tool: Option<string>, d: real, k: nat)
    ensures var st, st' := Run(c, h), Run(c, h + Repeat(Observed(session, tool, d), k));
            && NearerBy(c.alpha, d, st.overall, st'.overall, k)
            && KeyNearer(c.alpha, st.sessions, st'.sessions, session, d, k)
            && (Named(tool) ==> KeyNearer(c.alpha, st.tools, st'.tools, tool.value, d, k))
  {
    var st, st' := Run(c, h), Run(c, h + Repeat(Observed(session, tool, d), k));
    RepeatsAge(c, h, session, tool, d, k);
    AgedIsNearer(c.alpha, d, st.overall, st'.overall, k);
    CloserIsNearer(c.alpha, st.sessions, st'.sessions, session, d, k);
    if Named(tool) {
      CloserIsNearer(c.alpha, st.tools, st'.tools, tool.value, d, k);
    }
  }
}
