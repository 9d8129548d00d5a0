// What an adaptive run leaves behind: nothing, when affinity holds and sessions end without a tool call.
module Residue {
  import opened Models
  import opened OrderedDict
  import opened Policy
  import opened Backend
  import opened ReplayLog
  import opened ReplaySpec
  import opened Replay
  import opened ReplayCaches
  import opened SingleCopy
  import Spec = ReplicaSpec

  /** The idle time the policy sees is the predicted gap less the service of the request itself. */
  lemma IdleIsGapLessService(setup: Setup, w: World)
    requires setup.Valid() && Ready(setup, w)
    ensures var x := TheRecord(setup, w);
            Leaves(setup.config.hw, Cleared(w)[x.rid], TheRequest(setup, w)).IdleMs()
              == Max(0.0, x.gapMs - x.result.ServiceMs())
  {
    var x := TheRecord(setup, w);
    ExecuteTiming(setup.ThePolicy(), setup.config.hw, x.rid, Cleared(w)[x.rid], TheRequest(setup, w));
  }

  // Served as a last turn: no tool follows, and service is short of the dead-session gap.
  ghost predicate EndsQuietly(setup: Setup, x: Served) {
    x.s < |setup.traces| && x.t + 1 == |setup.traces[x.s].turns| ==>
      && !setup.traces[x.s].turns[x.t].HasTool()
      && x.result.ServiceMs() < 2.0 * setup.config.policy.deadMs - setup.config.policy.offloadMs
  }

  ghost predicate AllEndQuietly(setup: Setup, log: Log) {
    forall i :: 0 <= i < |log| ==> EndsQuietly(setup, log[i])
  }

  // A session's last turn is dropped on release.
  lemma LastTurnIsDropped(setup: Setup, w: World)
    requires setup.Valid() && Ready(setup, w) && setup.adaptive && ReplicasOk(setup.config.hw, w.log, w.replicas)
    requires EndsQuietly(setup, TheRecord(setup, w))
    requires TheRecord(setup, w).t + 1 == |setup.traces[TheRecord(setup, w).s].turns|
    ensures !ServedReplicas(setup, w)[TheRecord(setup, w).rid].Resident(SessionOf(setup, w))
  {
    var x := TheRecord(setup, w);
    IdleIsGapLessService(setup, w);
    assert ReplicaOk(setup.config.hw, w.log, x.rid, w.replicas[x.rid]);
    ExecuteCaches(setup.ThePolicy(), setup.config.hw, Cleared(w)[x.rid], TheRequest(setup, w));
  }

  /** Nobody holds anything of a finished session. */
  ghost predicate NoResidue(traces: seq<SessionTrace>, log: Log, rs: seq<Spec.State>) {
    forall s, r :: 0 <= s < |traces| && Progress(log, s) == |traces[s].turns| && 0 <= r < |rs| ==>
      !rs[r].Resident(traces[s].session)
  }

  // A session resident after a step was resident before it, or has just been served there.
  lemma StepResident(setup: Setup, w: World, r: nat, id: string)
    requires setup.Valid() && Ready(setup, w) && ReplicasOk(setup.config.hw, w.log, w.replicas)
    requires r < |w.replicas| && ServedReplicas(setup, w)[r].Resident(id)
    ensures w.replicas[r].Resident(id) || (r == TheRecord(setup, w).rid && id == SessionOf(setup, w))
  {
    var x, rs' := TheRecord(setup, w), ServedReplicas(setup, w);
    assert ReplicaOk(setup.config.hw, w.log, r, w.replicas[r]);
    if r == x.rid {
      ExecuteCaches(setup.ThePolicy(), setup.config.hw, Cleared(w)[r], TheRequest(setup, w));
      var e := Spec.ResidentCaches(rs'[r], id);
      StepCaches(setup, w, r, e);
      if w.replicas[r].Caches(e) {
        Spec.CachesIn(w.replicas[r], e);
      }
    }
  }

  lemma ResidueStep(setup: Setup, w: World)
    requires setup.Valid() && Inv(setup, w) && Ready(setup, w) && Settled(setup, w) && Kept(setup, w)
    requires DistinctSessions(setup.traces) && EndsQuietly(setup, TheRecord(setup, w))
    requires NoResidue(setup.traces, w.log, w.replicas)
    ensures NoResidue(setup.traces, w.log + [TheRecord(setup, w)], ServedReplicas(setup, w))
  {
    InvReady(setup, w);
    var traces, x, rs' := setup.traces, TheRecord(setup, w), ServedReplicas(setup, w);
    forall s, r | 0 <= s < |traces| && Progress(w.log + [x], s) == |traces[s].turns| && 0 <= r < |rs'|
      ensures !rs'[r].Resident(traces[s].session)
    {
      ProgressAppend(w.log, x, s);
      if rs'[r].Resident(traces[s].session) {
        StepResident(setup, w, r, traces[s].session);
        if s == x.s {
          if r != x.rid {
            ReplicaAt(setup, w, r);
            ResidentIsServed(setup, w, r);
          }
          LastTurnIsDropped(setup, w);
        }
        assert false;
      }
    }
  }

  lemma ResidueAt(setup: Setup, ws: seq<World>, i: nat)
    requires Calm(setup, ws) && AllEndQuietly(setup, End(ws).log) && i + 1 < |ws|
    requires NoResidue(setup.traces, ws[i].log, ws[i].replicas)
    ensures NoResidue(setup.traces, ws[i + 1].log, ws[i + 1].replicas)
  {
    AlwaysSettled(setup, ws, i);
    RunInv(setup, ws, i);
    KeptAt(setup, ws, i);
    StepAt(setup, ws, i);
    RecordAt(setup, ws, i);
    ResidueStep(setup, ws[i]);
  }

  lemma {:induction false} NeverResidue(setup: Setup, ws: seq<World>, i: nat)
    requires Calm(setup, ws) && AllEndQuietly(setup, End(ws).log) && i < |ws|
    ensures NoResidue(setup.traces, ws[i].log, ws[i].replicas)
  {
    if i > 0 {
      NeverResidue(setup, ws, i - 1);
      ResidueAt(setup, ws, i - 1);
    } else {
      RunInv(setup, ws, 0);
    }
  }

  /** No residue: after a calm run whose sessions end quietly every cache is empty, and every miss has
      become exactly one eviction. */
  lemma CalmRunLeavesNothing(setup: Setup, ws: seq<World>)
    requires Calm(setup, ws) && Finished(setup, ws) && AllEndQuietly(setup, End(ws).log)
    ensures forall r :: 0 <= r < |End(ws).replicas| ==> End(ws).replicas[r].gpu == [] && End(ws).replicas[r].dram == []
    ensures EvictionsAll(End(ws).replicas) == End(ws).stats.misses
  {
    var w, last := End(ws), |ws| - 1;
    RunInv(setup, ws, last);
    RunsEnd(setup, ws);
    NeverResidue(setup, ws, last);
    CachesAreEarned(setup, ws, last);
    MissesAreConserved(setup, ws, last);
    forall r | 0 <= r < |w.replicas| ensures w.replicas[r].gpu == [] && w.replicas[r].dram == [] {
      assert ReplicaOk(setup.config.hw, w.log, r, w.replicas[r]);
      EarnedMeansEmpty(setup.traces, w.log, w.replicas, r);
    }
    EvictionsBelowTally(w.replicas);
  }

  lemma NothingCached(traces: seq<SessionTrace>, log: Log, rs: seq<Spec.State>, r: nat, e: Entry)
    requires r < |rs| && Complete(traces, log) && AllEarned(traces, log, rs) && NoResidue(traces, log, rs)
    ensures !rs[r].Caches(e)
  {
    Spec.CachesIn(rs[r], e);
    if Earned(traces, log, e) {
      var s: nat, t: nat :| LeftBy(traces, log, e, s, t);
      assert !rs[r].Resident(traces[s].session);
    }
  }

  lemma EarnedMeansEmpty(traces: seq<SessionTrace>, log: Log, rs: seq<Spec.State>, r: nat)
    requires r < |rs| && Spec.TwoTier(rs[r]) && Complete(traces, log)
    requires AllEarned(traces, log, rs) && NoResidue(traces, log, rs)
    ensures rs[r].gpu == [] && rs[r].dram == []
  {
    var st := rs[r];
    if st.gpu != [] {
      NothingCached(traces, log, rs, r, st.gpu[0].1);
    }
    if st.dram != [] {
      NothingCached(traces, log, rs, r, st.dram[0].1);
    }
  }

  // ---- Quiet endings, told in advance --------------------------------------------------

  // Most a turn can keep a replica busy, whatever it finds cached.
  function MostService(hw: Hardware, turn: Turn): real {
    turn.prompt as real * Max(hw.prefillMs, hw.restoreMs) + turn.output as real * hw.decodeMs
  }

  lemma Dearer(n: nat, a: real, b: real)
    requires 0.0 <= a <= b
    ensures 0.0 <= n as real * a <= n as real * b
  {
  }

  lemma Together(m: nat, n: nat, rate: real)
    ensures m as real * rate + n as real * rate == (m + n) as real * rate
  {
  }

  lemma ServiceAtMost(hw: Hardware, id: nat, st: Spec.State, req: Request, turn: Turn)
    requires hw.Valid() && req.prompt == turn.prompt && req.output == turn.output
    ensures Outcome(hw, id, st, req).ServiceMs() <= MostService(hw, turn)
  {
    var r, most := Outcome(hw, id, st, req), Max(hw.prefillMs, hw.restoreMs);
    Dearer(r.computed, hw.prefillMs, most);
    Dearer(r.reused, hw.restoreMs, most);
    Together(r.computed, r.reused, most);
    assert r.computed + r.reused == turn.prompt;
  }

  /** Every session's last turn calls no tool and is short enough to be taken for dead. */
  ghost predicate EndsShort(setup: Setup) {
    forall s :: 0 <= s < |setup.traces| && setup.traces[s].turns != [] ==>
      var last := setup.traces[s].turns[|setup.traces[s].turns| - 1];
      && !last.HasTool()
      && MostService(setup.config.hw, last) < 2.0 * setup.config.policy.deadMs - setup.config.policy.offloadMs
  }

  lemma ShortIsQuiet(setup: Setup, w: World)
    requires setup.Valid() && Ready(setup, w) && EndsShort(setup)
    ensures EndsQuietly(setup, TheRecord(setup, w))
  {
    var x := TheRecord(setup, w);
    ServiceAtMost(setup.config.hw, x.rid, Cleared(w)[x.rid], TheRequest(setup, w), TurnOf(setup, w));
  }

  /** The trace alone tells that a run's sessions end quietly. */
  lemma QuietInAdvance(setup: Setup, ws: seq<World>)
    requires IsRun(setup, ws) && EndsShort(setup)
    ensures AllEndQuietly(setup, End(ws).log)
  {
    RunShape(setup, ws, |ws| - 1);
    forall i | 0 <= i < |End(ws).log| ensures EndsQuietly(setup, End(ws).log[i]) {
      RecordAt(setup, ws, i);
      ShortIsQuiet(setup, ws[i]);
    }
  }
}
