// What a replica of the replay holds is a function of the requests it was sent. In the baseline arm
// that function is the move-to-front list.
module ReplicaHistory {
  import opened Models
  import opened OrderedDict
  import opened Policy
  import opened Backend
  import opened ReplayLog
  import opened ReplaySpec
  import opened Replay
  import Lru = LruRefinement
  import ReuseExact
  import Spec = ReplicaSpec

  // ---- The queue plays no part ---------------------------------------------------------

  function With(st: Spec.State, q: seq<real>): Spec.State {
    st.(pending := q)
  }

  lemma GiveUpQueue(policy: CachePolicy, hw: Hardware, st: Spec.State, v: Entry, q: seq<real>)
    ensures Spec.GiveUp(policy, hw, With(st, q), v) == With(Spec.GiveUp(policy, hw, st, v), q)
  {
  }

  // One round of shedding, or none.
  lemma ShedUnrolled(policy: CachePolicy, hw: Hardware, st: Spec.State, order: seq<Entry>)
    ensures order != [] && Spec.Tokens(st.gpu) > hw.gpuCap ==>
              Spec.Shed(policy, hw, st, order) == Spec.Shed(policy, hw, Spec.GiveUp(policy, hw, st, order[0]),
                                                            order[1..])
    ensures !(order != [] && Spec.Tokens(st.gpu) > hw.gpuCap) ==> Spec.Shed(policy, hw, st, order) == st
  {
  }

  lemma {:induction false} ShedQueue(policy: CachePolicy, hw: Hardware, st: Spec.State, order: seq<Entry>, q: seq<real>)
    ensures Spec.Shed(policy, hw, With(st, q), order) == With(Spec.Shed(policy, hw, st, order), q)
    decreases |order|
  {
    ShedUnrolled(policy, hw, st, order);
    ShedUnrolled(policy, hw, With(st, q), order);
    if order != [] && Spec.Tokens(st.gpu) > hw.gpuCap {
      GiveUpQueue(policy, hw, st, order[0], q);
      ShedQueue(policy, hw, Spec.GiveUp(policy, hw, st, order[0]), order[1..], q);
    }
  }

  lemma DropQueue(st: Spec.State, q: seq<real>)
    requires st.dram != []
    ensures Spec.DropOldest(With(st, q)) == With(Spec.DropOldest(st), q)
  {
  }

  // One round of trimming, or none.
  lemma TrimUnrolled(hw: Hardware, st: Spec.State)
    ensures Spec.Tokens(st.dram) > hw.dramCap && st.dram != [] ==>
              Spec.TrimDram(hw, st) == Spec.TrimDram(hw, Spec.DropOldest(st))
    ensures !(Spec.Tokens(st.dram) > hw.dramCap && st.dram != []) ==> Spec.TrimDram(hw, st) == st
  {
  }

  lemma {:induction false} TrimQueue(hw: Hardware, st: Spec.State, q: seq<real>)
    ensures Spec.TrimDram(hw, With(st, q)) == With(Spec.TrimDram(hw, st), q)
    decreases |st.dram|
  {
    TrimUnrolled(hw, st);
    TrimUnrolled(hw, With(st, q));
    if Spec.Tokens(st.dram) > hw.dramCap && st.dram != [] {
      DropQueue(st, q);
      Spec.TrimStep(hw, st);
      TrimQueue(hw, Spec.DropOldest(st), q);
    }
  }

  lemma StoreQueue(policy: CachePolicy, hw: Hardware, st: Spec.State, e: Entry, q: seq<real>)
    ensures Spec.Store(policy, hw, With(st, q), e) == With(Spec.Store(policy, hw, st, e), q)
  {
    var st1 := Spec.Place(policy, hw, st, e);
    assert Spec.Place(policy, hw, With(st, q), e) == With(st1, q);
    var order := policy.VictimOrder(Values(st1.gpu), e.lastTouch);
    ShedQueue(policy, hw, st1, order, q);
    TrimQueue(hw, Spec.Shed(policy, hw, st1, order), q);
  }

  lemma ChargeQueue(hw: Hardware, st: Spec.State, req: Request, q: seq<real>)
    ensures Charge(hw, With(st, q), req) == With(Charge(hw, st, req), q)
    ensures Leaves(hw, With(st, q), req) == Leaves(hw, st, req)
  {
  }

  lemma AfterQueue(policy: CachePolicy, hw: Hardware, st: Spec.State, req: Request, q: seq<real>)
    ensures After(policy, hw, With(st, q), req) == With(After(policy, hw, st, req), q)
  {
    ChargeQueue(hw, st, req, q);
    StoreQueue(policy, hw, Charge(hw, st, req), Leaves(hw, st, req), q);
  }

  // ---- The requests of a replica -------------------------------------------------------

  // The request that a record answers; records of a run always name a turn of the trace.
  function RequestOf(traces: seq<SessionTrace>, x: Served): Request {
    if x.s < |traces| && x.t < |traces[x.s].turns| then
      var turn := traces[x.s].turns[x.t];
      Request(traces[x.s].session, turn.prompt, turn.output, x.now, x.Done() - x.result.ServiceMs() + x.gapMs)
    else Request("", 0, 0, x.now, x.now)
  }

  // The requests of replica r, in order of dispatch.
  function Requests(traces: seq<SessionTrace>, log: Log, r: nat): seq<Request> {
    seq(|On(log, r)|, i requires 0 <= i < |On(log, r)| => RequestOf(traces, On(log, r)[i]))
  }

  lemma RequestsAppend(traces: seq<SessionTrace>, log: Log, x: Served, r: nat)
    ensures Requests(traces, log + [x], r)
         == Requests(traces, log, r) + (if x.rid == r then [RequestOf(traces, x)] else [])
  {
    assert (log + [x])[..|log|] == log;
  }

  /** Replica r is where its own requests, in order of dispatch, would have brought it. */
  ghost predicate Retraces(setup: Setup, log: Log, r: nat, st: Spec.State) {
    With(st, []) == Lru.ReplicaRun(setup.ThePolicy(), setup.config.hw, Requests(setup.traces, log, r))
  }

  lemma RequestIsRecorded(setup: Setup, w: World)
    requires setup.Valid() && Ready(setup, w)
    ensures TheRequest(setup, w) == RequestOf(setup.traces, TheRecord(setup, w))
  {
    var x := TheRecord(setup, w);
    ExecuteTiming(setup.ThePolicy(), setup.config.hw, x.rid, Cleared(w)[x.rid], TheRequest(setup, w));
  }

  lemma RetracesOn(setup: Setup, log: Log, x: Served, st: Spec.State, st': Spec.State, req: Request, q: seq<real>)
    requires Retraces(setup, log, x.rid, st)
    requires req == RequestOf(setup.traces, x)
    requires With(st', []) == With(After(setup.ThePolicy(), setup.config.hw, With(st, q), req), [])
    ensures Retraces(setup, log + [x], x.rid, st')
  {
    var reqs := Requests(setup.traces, log, x.rid);
    RequestsAppend(setup.traces, log, x, x.rid);
    assert (reqs + [req])[..|reqs|] == reqs;
    AfterQueue(setup.ThePolicy(), setup.config.hw, With(st, q), req, []);
  }

  lemma RetracesOther(setup: Setup, log: Log, x: Served, r: nat, st: Spec.State, q: seq<real>)
    requires Retraces(setup, log, r, st) && r != x.rid
    ensures Retraces(setup, log + [x], r, With(st, q))
  {
    RequestsAppend(setup.traces, log, x, r);
    assert Requests(setup.traces, log, r) + [] == Requests(setup.traces, log, r);
  }

  lemma RetracesStep(setup: Setup, w: World, r: nat)
    requires setup.Valid() && Ready(setup, w) && r < |w.replicas| && Retraces(setup, w.log, r, w.replicas[r])
    ensures Retraces(setup, w.log + [TheRecord(setup, w)], r, ServedReplicas(setup, w)[r])
  {
    var x := TheRecord(setup, w);
    var pruned := Cleared(w)[r];
    if r == x.rid {
      RequestIsRecorded(setup, w);
      RetracesOn(setup, w.log, x, w.replicas[r], ServedReplicas(setup, w)[r], TheRequest(setup, w), pruned.pending);
    } else {
      RetracesOther(setup, w.log, x, r, w.replicas[r], pruned.pending);
    }
  }

  lemma RetracesStepTo(setup: Setup, w: World, w': World, r: nat)
    requires setup.Valid() && Ready(setup, w) && w' == Step(setup, w)
    requires r < |w.replicas| && Retraces(setup, w.log, r, w.replicas[r])
    ensures r < |w'.replicas| && Retraces(setup, w'.log, r, w'.replicas[r])
  {
    RetracesStep(setup, w, r);
  }

  lemma InitRetraces(setup: Setup, r: nat)
    requires r < setup.config.replicas
    ensures r < |Init(setup).replicas| && Retraces(setup, Init(setup).log, r, Init(setup).replicas[r])
  {
    assert Requests(setup.traces, [], r) == [];
  }

  lemma RetracesNext(setup: Setup, ws: seq<World>, i: nat, j: nat, r: nat)
    requires IsRun(setup, ws) && j == i + 1 < |ws|
    requires r < |ws[i].replicas| && Retraces(setup, ws[i].log, r, ws[i].replicas[r])
    ensures r < |ws[j].replicas| && Retraces(setup, ws[j].log, r, ws[j].replicas[r])
  {
    StepAt(setup, ws, i);
    RetracesStepTo(setup, ws[i], ws[j], r);
  }

  /** In either arm, at every state of a run, every replica is what its own requests made it. */
  lemma {:induction false} ReplicasRetrace(setup: Setup, ws: seq<World>, i: nat, r: nat)
    requires IsRun(setup, ws) && i < |ws| && r < setup.config.replicas
    ensures r < |ws[i].replicas| && Retraces(setup, ws[i].log, r, ws[i].replicas[r])
  {
    if i == 0 {
      InitRetraces(setup, r);
      assert ws[0] == Init(setup);
    } else {
      ReplicasRetrace(setup, ws, i - 1, r);
      RetracesNext(setup, ws, i - 1, i, r);
    }
  }

  /** The baseline arm, exactly: a replica looks sessions up and counts evictions as the move-to-front
      list of its own requests does, at every state of a run without ties on that replica. */
  lemma BaselineIsMoveToFront(setup: Setup, ws: seq<World>, i: nat, r: nat, s: string)
    requires IsRun(setup, ws) && !setup.adaptive && i < |ws| && r < setup.config.replicas
    requires Lru.Untied(setup.config.hw, Requests(setup.traces, ws[i].log, r))
    ensures r < |ws[i].replicas|
    ensures var list := Lru.Run(setup.config.hw, Requests(setup.traces, ws[i].log, r));
            var k := Lru.Position(list.m, s);
            && Spec.Lookup(ws[i].replicas[r], s) == (if k < |list.m| then (GPU, list.m[k].tokens) else (MISS, 0))
            && ws[i].replicas[r].evictions == list.evictions && ws[i].replicas[r].dram == []
  {
    ReplicasRetrace(setup, ws, i, r);
    Lru.LruLooksUpAsList(setup.config.hw, Requests(setup.traces, ws[i].log, r), s);
  }

  lemma {:induction false} OnFits(traces: seq<SessionTrace>, n: nat, hw: Hardware, log: Log, r: nat)
    requires WellFormed(traces, n, hw, log)
    ensures forall i :: 0 <= i < |On(log, r)| ==>
              On(log, r)[i].s < |traces| && On(log, r)[i].t < |traces[On(log, r)[i].s].turns|
    decreases |log|
  {
    if log != [] {
      WellFormedFront(traces, n, hw, log);
      OnFits(traces, n, hw, log[..|log| - 1], r);
      assert Fits(traces, n, hw, log[..|log| - 1], log[|log| - 1]);
    }
  }

  /** There are no ties where every turn answers with at least one token. */
  lemma AnsweringRunsAreUntied(setup: Setup, ws: seq<World>, i: nat, r: nat)
    requires IsRun(setup, ws) && i < |ws| && ReuseExact.Answering(setup.traces)
    ensures Lru.Untied(setup.config.hw, Requests(setup.traces, ws[i].log, r))
  {
    RunInv(setup, ws, i);
    OnFits(setup.traces, setup.config.replicas, setup.config.hw, ws[i].log, r);
    var reqs := Requests(setup.traces, ws[i].log, r);
    forall j | 0 <= j < |reqs| ensures Lru.SpacedAt(setup.config.hw, reqs, j) {
      assert reqs[j].output > 0;
    }
    Lru.SpacedRunsAreUntied(setup.config.hw, reqs);
  }
}
