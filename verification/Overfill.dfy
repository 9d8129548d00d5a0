// A run after which a promotion leaves the GPU over its budget, until the store that follows.
module Overfill {
  import opened Models
  import opened OrderedDict
  import opened Policy
  import opened Backend
  import Lru = LruRefinement
  import Spec = ReplicaSpec

  const HW := Hardware(1.0, 1.0, 1.0, 2, 2)
  const ADAPTIVE := AdaptiveTtl(PolicyConfig(1.0, 10.0, 100.0, 6))

  // A request of one token in and one out takes two units of time on an idle replica that does not hold it.
  lemma TwoTokens(st: Spec.State, req: Request, e: Entry)
    requires req == Request(e.session, 1, 1, st.freeAt, e.predictedReturn)
    requires e.tokens == 2 && e.lastTouch == st.freeAt + 2.0 && !Has(st.gpu, e.session) && !Has(st.dram, e.session)
    ensures After(ADAPTIVE, HW, st, req) == Spec.Store(ADAPTIVE, HW, st.(freeAt := e.lastTouch), e)
  {
    assert 1 as real * HW.prefillMs == 1.0 && 1 as real * HW.decodeMs == 1.0;
    assert Leaves(HW, st, req) == e && Charge(HW, st, req) == st.(freeAt := e.lastTouch);
  }

  lemma Parked(a: Entry)
    requires a.tokens == 2 && a.lastTouch == 2.0 && a.predictedReturn == 7.0
    ensures Lru.ReplicaRun(ADAPTIVE, HW, [Request(a.session, 1, 1, 0.0, 7.0)])
         == Spec.EMPTY.(dram := [(a.session, a)], freeAt := 2.0, offloads := 1)
  {
    var req := Request(a.session, 1, 1, 0.0, 7.0);
    TwoTokens(Spec.EMPTY, req, a);
    assert [req][..0] == [];
    assert Put([], a.session, a) == [(a.session, a)];
    assert Pop([(a.session, a)], a.session) == [];
    assert Spec.Place(ADAPTIVE, HW, Spec.EMPTY.(freeAt := 2.0), a)
        == Spec.EMPTY.(dram := [(a.session, a)], freeAt := 2.0, offloads := 1);
  }

  lemma PinFits(st: Spec.State, e: Entry)
    requires ADAPTIVE.OnRelease(e) == PinGpu && e.tokens <= HW.gpuCap
    requires st.gpu == [] && Pop(st.dram, e.session) == st.dram
    ensures Spec.Store(ADAPTIVE, HW, st, e) == st.(gpu := [(e.session, e)])
  {
    assert Put([], e.session, e) == [(e.session, e)];
    Spec.TokensPut([], e.session, e);
  }

  lemma ThenPinned(a: Entry, b: Entry)
    requires a.session != b.session && a.tokens == b.tokens == 2
    requires a.lastTouch == 2.0 && a.predictedReturn == 7.0 && b.lastTouch == b.predictedReturn == 4.0
    ensures Lru.ReplicaRun(ADAPTIVE, HW, [Request(a.session, 1, 1, 0.0, 7.0), Request(b.session, 1, 1, 2.0, 4.0)])
         == Spec.EMPTY.(gpu := [(b.session, b)], dram := [(a.session, a)], freeAt := 4.0, offloads := 1)
  {
    var r, q := Request(a.session, 1, 1, 0.0, 7.0), Request(b.session, 1, 1, 2.0, 4.0);
    var st := Spec.EMPTY.(dram := [(a.session, a)], freeAt := 2.0, offloads := 1);
    Parked(a);
    TwoTokens(st, q, b);
    assert [r, q][..1] == [r];
    PinFits(st.(freeAt := 4.0), b);
  }

  /** One session is parked in DRAM, another fills the GPU; promoting the first leaves four tokens in a
      GPU of two. */
  lemma PromotionCanOverfill(s: string, t: string)
    requires s != t
    ensures var st := Lru.ReplicaRun(ADAPTIVE, HW, [Request(s, 1, 1, 0.0, 7.0), Request(t, 1, 1, 2.0, 4.0)]);
            Spec.InBudget(HW, st) && Spec.Tokens(Spec.Promote(st, s).gpu) == 4
  {
    var a, b := Entry(s, 2, 2.0, 7.0), Entry(t, 2, 4.0, 4.0);
    ThenPinned(a, b);
    assert Put([(t, b)], s, a) == [(t, b), (s, a)];
    assert [(t, b), (s, a)][1..] == [(s, a)];
  }
}
