// A run in which the order is lost: a request that takes no time ties with the one before it.
module LruTies {
  import opened Models
  import opened OrderedDict
  import opened Policy
  import opened Backend
  import opened LruRefinement
  import Spec = ReplicaSpec

  // A one-token request that finds nothing and room takes one unit of time.
  lemma MissStep(hw: Hardware, st: Spec.State, req: Request, e: Entry)
    requires hw.prefillMs == 1.0 && req == Request(e.session, 1, 0, st.freeAt, e.predictedReturn)
    requires e.tokens == 1 && e.lastTouch == st.freeAt + 1.0 && !Has(st.gpu, e.session) && st.dram == []
    requires Spec.Tokens(st.gpu + [(e.session, e)]) <= hw.gpuCap
    ensures After(Lru, hw, st, req) == st.(gpu := st.gpu + [(e.session, e)], freeAt := e.lastTouch)
  {
    assert 1 as real * hw.prefillMs == 1.0 && 0 as real * hw.decodeMs == 0.0;
    assert Leaves(hw, st, req) == e && Charge(hw, st, req) == st.(freeAt := e.lastTouch);
  }

  lemma RunsOn(hw: Hardware, reqs: seq<Request>, req: Request)
    ensures ReplicaRun(Lru, hw, reqs + [req]) == After(Lru, hw, ReplicaRun(Lru, hw, reqs), req)
  {
    assert (reqs + [req])[..|reqs|] == reqs;
  }

  lemma TwoStored(hw: Hardware, a: Entry, b: Entry)
    requires hw == Hardware(1.0, 1.0, 1.0, 2, 1) && a.session != b.session
    requires a == Entry(a.session, 1, 1.0, 9.0) && b == Entry(b.session, 1, 2.0, 9.0)
    ensures ReplicaRun(Lru, hw, [Request(a.session, 1, 0, 0.0, 9.0), Request(b.session, 1, 0, 1.0, 9.0)])
         == Spec.EMPTY.(gpu := [(a.session, a), (b.session, b)], freeAt := 2.0)
  {
    var r, q := Request(a.session, 1, 0, 0.0, 9.0), Request(b.session, 1, 0, 1.0, 9.0);
    var one := [(a.session, a)];
    RunsOn(hw, [], r);
    Spec.TokensConcat(one, [(b.session, b)]);
    assert [] + [r] == [r] && [] + one == one;
    MissStep(hw, Spec.EMPTY, r, a);
    RunsOn(hw, [r], q);
    MissStep(hw, Spec.EMPTY.(gpu := one, freeAt := 1.0), q, b);
    assert [r] + [q] == [r, q] && one + [(b.session, b)] == [(a.session, a), (b.session, b)];
  }

  // One that finds its token cached takes none.
  lemma HitIsFree(hw: Hardware, st: Spec.State, req: Request)
    requires req.prompt == 1 && req.output == 0 && req.now == st.freeAt
    requires Has(st.gpu, req.session) && Get(st.gpu, req.session).tokens == 1
    ensures Completes(hw, st, req) == st.freeAt
  {
    assert 0 as real * hw.prefillMs == 0.0 && 0 as real * hw.decodeMs == 0.0;
  }

  // Served again for nothing, a keeps its place ahead of b, with the same touch.
  lemma Refreshed(hw: Hardware, st: Spec.State, req: Request, a: Entry, b: Entry)
    requires hw.gpuCap == 2 && a.session != b.session && a.tokens == b.tokens == 1 && b.lastTouch == st.freeAt
    requires st.gpu == [(a.session, a), (b.session, b)] && st.dram == []
    requires req == Request(a.session, 1, 0, st.freeAt, req.predictedReturn)
    ensures Order(After(Lru, hw, st, req).gpu) == [Entry(a.session, 1, st.freeAt, req.predictedReturn), b]
  {
    var e := Entry(a.session, 1, st.freeAt, req.predictedReturn);
    var d := [(e.session, e), (b.session, b)];
    HitIsFree(hw, st, req);
    assert Index(st.gpu, a.session) == 0 && Put(st.gpu, a.session, e) == d;
    assert Leaves(hw, st, req) == e && Charge(hw, st, req) == st;
    assert d == [(e.session, e)] + [(b.session, b)];
    Spec.TokensConcat([(e.session, e)], [(b.session, b)]);
    assert Values(d) == [e, b] && [e, b][1..] == [b];
    assert Lru.VictimOrder([b], 0.0) == [b];
  }

  /** Session s is stored, then t, then s is served again for nothing: it is the latest, but would be
      given up first. */
  lemma FreeRequestsTie(hw: Hardware, s: string, t: string)
    requires hw == Hardware(1.0, 1.0, 1.0, 2, 1) && s != t
    ensures var reqs := [Request(s, 1, 0, 0.0, 9.0), Request(t, 1, 0, 1.0, 9.0), Request(s, 1, 0, 2.0, 9.0)];
            && !UntiedAt(hw, reqs, 2) && !(forall i :: 0 <= i <= 3 ==> TracksAt(hw, reqs, i))
            && Order(ReplicaRun(Lru, hw, reqs).gpu) == [Entry(s, 1, 2.0, 9.0), Entry(t, 1, 2.0, 9.0)]
            && Run(hw, reqs).m != [] && Run(hw, reqs).m[0].session == s
  {
    var reqs := [Request(s, 1, 0, 0.0, 9.0), Request(t, 1, 0, 1.0, 9.0), Request(s, 1, 0, 2.0, 9.0)];
    var a, b := Entry(s, 1, 1.0, 9.0), Entry(t, 1, 2.0, 9.0);
    var st := Spec.EMPTY.(gpu := [(s, a), (t, b)], freeAt := 2.0);
    TwoStored(hw, a, b);
    assert reqs[..2] == [reqs[0], reqs[1]];
    HitIsFree(hw, st, reqs[2]);
    assert st.gpu[1].1.lastTouch == 2.0;
    LruIsMoveToFront(hw, reqs);
    Refreshed(hw, st, reqs[2], a, b);
    assert reqs[..2] + [reqs[2]] == reqs;
    RunsOn(hw, reqs[..2], reqs[2]);
    RunFront(hw, reqs);
  }
}
