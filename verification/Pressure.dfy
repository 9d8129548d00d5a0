// What pressure does, read off the entries: who is parked in DRAM, who is lost, and what a request
// pushes out on its way through.
module Pressure {
  import opened Models
  import opened OrderedDict
  import opened Policy
  import opened Backend
  import Spec = ReplicaSpec

  // ---- Demotion ------------------------------------------------------------------------

  // Tokens of those of the first i victims that d holds, and how many they are.
  function Parked(d: Dict<Entry>, order: seq<Entry>, i: nat): nat
    requires i <= |order|
  {
    if i == 0 then 0
    else Parked(d, order, i - 1) + (if Has(d, order[i - 1].session) then order[i - 1].tokens else 0)
  }

  function ParkedCount(d: Dict<Entry>, order: seq<Entry>, i: nat): nat
    requires i <= |order|
  {
    if i == 0 then 0 else ParkedCount(d, order, i - 1) + (if Has(d, order[i - 1].session) then 1 else 0)
  }

  lemma {:induction false} ParkedTail(d: Dict<Entry>, order: seq<Entry>, i: nat)
    requires 1 <= i <= |order|
    ensures Parked(d, order, i)
         == (if Has(d, order[0].session) then order[0].tokens else 0) + Parked(d, order[1..], i - 1)
    ensures ParkedCount(d, order, i) == (if Has(d, order[0].session) then 1 else 0) + ParkedCount(d, order[1..], i - 1)
  {
    if i > 1 {
      ParkedTail(d, order, i - 1);
    }
  }

  // Expected back too late to be pinned and early enough to be kept.
  ghost predicate Due(c: PolicyConfig, e: Entry) {
    c.pinMs < Max(0.0, e.predictedReturn - e.lastTouch) <= c.offloadMs
  }

  ghost predicate Among(order: seq<Entry>, k: nat, s: string)
    requires k <= |order|
  {
    exists i :: 0 <= i < k && order[i].session == s
  }

  // A victim is parked if it is due and fits what the victims before it have left of DRAM.
  ghost predicate FateAt(c: PolicyConfig, hw: Hardware, used: nat, d: Dict<Entry>, order: seq<Entry>, i: nat)
    requires i < |order|
  {
    Has(d, order[i].session) <==> Due(c, order[i]) && used + Parked(d, order, i) + order[i].tokens <= hw.dramCap
  }

  // The first k victims have left the GPU, the others have not.
  ghost predicate Left(gpu: Dict<Entry>, order: seq<Entry>, k: nat) {
    forall i :: 0 <= i < |order| ==> (Has(gpu, order[i].session) <==> i >= k)
  }

  // DRAM has lost nobody and taken in none but victims.
  ghost predicate TakesIn(d: Dict<Entry>, d': Dict<Entry>, order: seq<Entry>, k: nat)
    requires k <= |order|
  {
    && (forall p :: p in d ==> p in d')
    && (forall s :: Has(d', s) ==> Has(d, s) || Among(order, k, s))
  }

  ghost predicate Parks(c: PolicyConfig, hw: Hardware, used: nat, d: Dict<Entry>, order: seq<Entry>, k: nat)
    requires k <= |order|
  {
    forall i :: 0 <= i < k ==> FateAt(c, hw, used, d, order, i)
  }

  /** What becomes of the first k victims: each is parked in DRAM exactly if it is due and fits what
      the ones before it have left. DRAM loses nobody and takes in nobody else. */
  ghost predicate Fate(c: PolicyConfig, hw: Hardware, st: Spec.State, st': Spec.State, order: seq<Entry>, k: nat) {
    && k <= |order| && Left(st'.gpu, order, k) && TakesIn(st.dram, st'.dram, order, k)
    && Parks(c, hw, Spec.Tokens(st.dram), st'.dram, order, k)
    && Spec.Tokens(st'.dram) == Spec.Tokens(st.dram) + Parked(st'.dram, order, k)
    && st'.offloads == st.offloads + ParkedCount(st'.dram, order, k)
  }

  lemma NobodyYet(c: PolicyConfig, hw: Hardware, st: Spec.State, order: seq<Entry>)
    requires Spec.Lists(order, st.gpu)
    ensures Fate(c, hw, st, st, order, 0)
  {
    forall i | 0 <= i < |order| ensures Has(st.gpu, order[i].session) {
      HasIn(st.gpu, (order[i].session, order[i]));
    }
  }

  // Giving up one victim.
  ghost predicate GivenUp(c: PolicyConfig, hw: Hardware, st: Spec.State, st1: Spec.State, v: Entry) {
    var parks := Due(c, v) && Spec.Tokens(st.dram) + v.tokens <= hw.dramCap;
    && st1.gpu == Pop(st.gpu, v.session)
    && (Has(st1.dram, v.session) <==> parks)
    && (forall p :: p in st1.dram <==> p in st.dram || (parks && p == (v.session, v)))
    && (forall s :: s != v.session ==> (Has(st1.dram, s) <==> Has(st.dram, s)))
    && Spec.Tokens(st1.dram) == Spec.Tokens(st.dram) + (if parks then v.tokens else 0)
    && st1.offloads == st.offloads + (if parks then 1 else 0)
    && st1.evictions == st.evictions + (if parks then 0 else 1)
  }

  lemma VictimFate(c: PolicyConfig, hw: Hardware, st: Spec.State, v: Entry)
    requires Spec.TwoTier(st) && (v.session, v) in st.gpu
    ensures Spec.TwoTier(Spec.GiveUp(AdaptiveTtl(c), hw, st, v))
    ensures GivenUp(c, hw, st, Spec.GiveUp(AdaptiveTtl(c), hw, st, v), v)
  {
    HasIn(st.gpu, (v.session, v));
    Spec.GiveUpFacts(AdaptiveTtl(c), hw, st, v);
    PutFacts(st.dram, v.session, v);
    Spec.TokensPut(st.dram, v.session, v);
    forall p ensures p in st.dram ==> p.0 != v.session {
      if p in st.dram {
        HasIn(st.dram, p);
      }
    }
  }

  lemma LaterFate(c: PolicyConfig, hw: Hardware, used: nat, used1: nat, d: Dict<Entry>, order: seq<Entry>, i: nat)
    requires 0 < i < |order| && used1 == used + (if Has(d, order[0].session) then order[0].tokens else 0)
    requires FateAt(c, hw, used1, d, order[1..], i - 1)
    ensures FateAt(c, hw, used, d, order, i)
  {
    ParkedTail(d, order, i);
  }

  lemma MoreParks(c: PolicyConfig, hw: Hardware, used: nat, used1: nat, d: Dict<Entry>, order: seq<Entry>, k: nat)
    requires k < |order| && used1 == used + (if Has(d, order[0].session) then order[0].tokens else 0)
    requires Has(d, order[0].session) <==> Due(c, order[0]) && used + order[0].tokens <= hw.dramCap
    requires Parks(c, hw, used1, d, order[1..], k)
    ensures Parks(c, hw, used, d, order, k + 1)
  {
    forall i | 0 < i < k + 1 ensures FateAt(c, hw, used, d, order, i) {
      LaterFate(c, hw, used, used1, d, order, i);
    }
  }

  lemma MoreLeft(gpu: Dict<Entry>, order: seq<Entry>, k: nat)
    requires order != [] && !Has(gpu, order[0].session) && Left(gpu, order[1..], k)
    ensures Left(gpu, order, k + 1)
  {
    assert forall i :: 0 < i < |order| ==> order[i] == order[1..][i - 1];
  }

  lemma MoreAmong(order: seq<Entry>, k: nat, s: string)
    requires k < |order| && (s == order[0].session || Among(order[1..], k, s))
    ensures Among(order, k + 1, s)
  {
    if s == order[0].session {
      assert order[0].session == s;
    } else {
      var i :| 0 <= i < k && order[1..][i].session == s;
      assert order[i + 1].session == s;
    }
  }

  lemma MoreTakesIn(d: Dict<Entry>, d1: Dict<Entry>, d': Dict<Entry>, order: seq<Entry>, k: nat)
    requires k < |order| && TakesIn(d1, d', order[1..], k)
    requires forall p :: p in d ==> p in d1
    requires forall s :: s != order[0].session ==> (Has(d1, s) <==> Has(d, s))
    ensures TakesIn(d, d', order, k + 1)
  {
    forall s | Has(d', s) ensures Has(d, s) || Among(order, k + 1, s) {
      if s == order[0].session || Among(order[1..], k, s) {
        MoreAmong(order, k, s);
      }
    }
  }

  // The victim just given up stays where it is while more are.
  lemma FirstStays(d1: Dict<Entry>, d': Dict<Entry>, order: seq<Entry>, k: nat, s: string)
    requires k <= |order| && TakesIn(d1, d', order, k)
    requires forall i :: 0 <= i < |order| ==> order[i].session != s
    ensures Has(d', s) <==> Has(d1, s)
  {
    if Has(d1, s) {
      assert d1[Index(d1, s)] in d1;
      HasIn(d', d1[Index(d1, s)]);
    }
  }

  lemma OneMoreFate(c: PolicyConfig, hw: Hardware, st: Spec.State, st1: Spec.State, st': Spec.State, order: seq<Entry>,
                    k: nat)
    requires order != [] && forall i :: 0 <= i < |order[1..]| ==> order[1..][i].session != order[0].session
    requires GivenUp(c, hw, st, st1, order[0]) && Fate(c, hw, st1, st', order[1..], k)
    requires !Has(st'.gpu, order[0].session)
    ensures Fate(c, hw, st, st', order, k + 1)
  {
    FirstStays(st1.dram, st'.dram, order[1..], k, order[0].session);
    ParkedTail(st'.dram, order, k + 1);
    MoreParks(c, hw, Spec.Tokens(st.dram), Spec.Tokens(st1.dram), st'.dram, order, k);
    MoreLeft(st'.gpu, order, k);
    MoreTakesIn(st.dram, st1.dram, st'.dram, order, k);
  }

  /** Under pressure the adaptive policy demotes first-fit: of the victims the eviction loop takes, in
      their order, exactly those that are due within the thresholds and still find room in DRAM are
      parked and counted as offloads. */
  lemma {:induction false} ShedFate(c: PolicyConfig, hw: Hardware, st: Spec.State, order: seq<Entry>)
      returns (k: nat)
    requires Spec.TwoTier(st) && Spec.Lists(order, st.gpu)
    ensures Fate(c, hw, st, Spec.Shed(AdaptiveTtl(c), hw, st, order), order, k)
    ensures Spec.TwoTier(Spec.Shed(AdaptiveTtl(c), hw, st, order))
    ensures forall s :: !Has(st.gpu, s) ==> !Has(Spec.Shed(AdaptiveTtl(c), hw, st, order).gpu, s)
    decreases |order|
  {
    if order == [] || Spec.Tokens(st.gpu) <= hw.gpuCap {
      k := 0;
      NobodyYet(c, hw, st, order);
    } else {
      var st1 := Spec.GiveUp(AdaptiveTtl(c), hw, st, order[0]);
      VictimFate(c, hw, st, order[0]);
      Spec.ShedStep(AdaptiveTtl(c), hw, st, order);
      PopFacts(st.gpu, order[0].session);
      var rest := ShedFate(c, hw, st1, order[1..]);
      k := rest + 1;
      OneMoreFate(c, hw, st, st1, Spec.Shed(AdaptiveTtl(c), hw, st1, order[1..]), order, rest);
    }
  }

  // ---- The trim ------------------------------------------------------------------------

  // d' is d without its oldest touches.
  ghost predicate Youngest(d: Dict<Entry>, d': Dict<Entry>) {
    && Unique(d') && |d'| <= |d| && (forall p :: p in d' ==> p in d)
    && (forall p, q :: p in d' && q in d && q !in d' ==> q.1.lastTouch <= p.1.lastTouch)
  }

  lemma OldestGoes(d: Dict<Entry>)
    requires Unique(d) && d != []
    ensures var q := d[Spec.Oldest(d)];
            var d1 := Pop(d, q.0);
            && q in d && q !in d1 && |d1| == |d| - 1 && Unique(d1)
            && (forall p :: p in d1 <==> p in d && p != q)
            && (forall p :: p in d ==> q.1.lastTouch <= p.1.lastTouch)
            && Spec.Tokens(d) == Spec.Tokens(d1) + q.1.tokens
  {
    var q := d[Spec.Oldest(d)];
    HasAt(d, Spec.Oldest(d));
    PopFacts(d, q.0);
    Spec.TokensPop(d, q.0);
    forall p | p in d ensures p.0 == q.0 ==> p == q {
      HasIn(d, p);
    }
  }

  /** From any state the trim loop drops the entries touched longest ago, no more than it has to, and
      counts each as an eviction; last is the youngest it dropped. */
  lemma {:induction false} TrimDropsOldest(hw: Hardware, st: Spec.State) returns (last: Entry)
    requires Unique(st.dram)
    ensures var st' := Spec.TrimDram(hw, st);
            && Youngest(st.dram, st'.dram) && Spec.Tokens(st'.dram) <= hw.dramCap
            && st' == st.(dram := st'.dram, evictions := st.evictions + (|st.dram| - |st'.dram|))
            && (Spec.Tokens(st.dram) <= hw.dramCap ==> st' == st)
            && (Spec.Tokens(st.dram) > hw.dramCap ==>
                  && Spec.Tokens(st'.dram) + last.tokens > hw.dramCap
                  && (exists p :: p in st.dram && p !in st'.dram && p.1 == last)
                  && (forall q :: q in st.dram && q !in st'.dram ==> q.1.lastTouch <= last.lastTouch))
    decreases |st.dram|
  {
    if Spec.Tokens(st.dram) > hw.dramCap {
      var q := st.dram[Spec.Oldest(st.dram)];
      var st1 := Spec.DropOldest(st);
      OldestGoes(st.dram);
      Spec.TrimStep(hw, st);
      last := TrimDropsOldest(hw, st1);
      if Spec.Tokens(st1.dram) <= hw.dramCap {
        last := q.1;
      }
      assert q in st.dram && q !in Spec.TrimDram(hw, st).dram;
    } else {
      last := Entry("", 0, 0.0, 0.0);
    }
  }

  // ---- Through a whole request ---------------------------------------------------------

  lemma OthersStay<V>(d: Dict<V>, s: string, v: V, p: (string, V))
    requires Unique(d) && p.0 != s
    ensures Unique(Put(d, s, v)) && Unique(Pop(d, s))
    ensures (p in Put(d, s, v) <==> p in d) && (p in Pop(d, s) <==> p in d)
  {
    PutFacts(d, s, v);
    PopFacts(d, s);
  }

  // Everybody but the session served comes through lookup and placement as they were.
  lemma BystandersWait(policy: CachePolicy, hw: Hardware, st: Spec.State, req: Request, p: (string, Entry))
    requires Unique(st.gpu) && p.0 != req.session
    ensures p in Spec.Place(policy, hw, Charge(hw, st, req), Leaves(hw, st, req)).gpu <==> p in st.gpu
  {
    var s, e, st1 := req.session, Leaves(hw, st, req), Charge(hw, st, req);
    if Has(st.dram, s) {
      OthersStay(st.gpu, s, Get(st.dram, s), p);
    }
    OthersStay(st1.gpu, s, e, p);
    OthersStay(Put(st1.gpu, s, e), s, e, p);
  }

  lemma VictimsWereAhead(policy: CachePolicy, hw: Hardware, st: Spec.State, req: Request, gone: Entry, kept: Entry)
    requires Spec.TwoTier(st) && Spec.Tokens(st.dram) <= hw.dramCap && gone.session != req.session
    requires (gone.session, gone) in st.gpu && (gone.session, gone) !in After(policy, hw, st, req).gpu
    requires (kept.session, kept) in After(policy, hw, st, req).gpu
    ensures !policy.Before(kept, gone, Leaves(hw, st, req).lastTouch)
  {
    var e, st1 := Leaves(hw, st, req), Charge(hw, st, req);
    ChargeFacts(hw, st, req);
    Spec.PlaceFacts(policy, hw, st1, e);
    BystandersWait(policy, hw, st, req, (gone.session, gone));
    Spec.GoneWasAhead(policy, hw, Spec.Place(policy, hw, st1, e), e.lastTouch, gone, kept);
  }

  /** Whoever a request pushes out of the GPU under the adaptive policy had, when the request
      completed, been untouched for longer than deadMs, or was due back no sooner than anybody who
      stayed, the session just served included. */
  lemma RequestEvictsLateReturners(c: PolicyConfig, hw: Hardware, id: nat, st: Spec.State, req: Request, gone: Entry,
                                   kept: Entry)
    requires Spec.TwoTier(st) && Spec.Tokens(st.dram) <= hw.dramCap && gone.session != req.session
    requires (gone.session, gone) in st.gpu && (gone.session, gone) !in After(AdaptiveTtl(c), hw, st, req).gpu
    requires (kept.session, kept) in After(AdaptiveTtl(c), hw, st, req).gpu
    ensures var done := req.now + Outcome(hw, id, st, req).LatencyMs();
            && (done - kept.lastTouch > c.deadMs ==> done - gone.lastTouch > c.deadMs)
            && (done - gone.lastTouch <= c.deadMs ==> kept.predictedReturn <= gone.predictedReturn)
  {
    VictimsWereAhead(AdaptiveTtl(c), hw, st, req, gone, kept);
    assert req.now + Outcome(hw, id, st, req).LatencyMs() == Leaves(hw, st, req).lastTouch;
  }
}
