// One replica as a value: the two cache tiers, the queue bookkeeping and the counters of
// agentserve/replica.py, and what each of its operations does to them.
module ReplicaSpec {
  import opened Models
  import opened OrderedDict
  import opened Policy

  datatype State = State(
    gpu: Dict<Entry>, dram: Dict<Entry>, freeAt: real, pending: seq<real>,
    active: nat, peakActive: nat, evictions: nat, offloads: nat) {

    function Inflight(): nat {
      |pending| + active
    }

    predicate Resident(s: string) {
      Has(gpu, s) || Has(dram, s)
    }

    ghost predicate Caches(e: Entry) {
      (e.session, e) in gpu || (e.session, e) in dram
    }
  }

  const EMPTY := State([], [], 0.0, [], 0, 0, 0, 0)

  function Tokens(d: Dict<Entry>): nat {
    if d == [] then 0 else d[0].1.tokens + Tokens(d[1..])
  }

  function Prune(st: State, now: real): State {
    st.(pending := Later(st.pending, now))
  }

  function Later(ts: seq<real>, now: real): seq<real> {
    if ts == [] then []
    else if ts[0] > now then [ts[0]] + Later(ts[1..], now)
    else Later(ts[1..], now)
  }

  // Every time in r is one of ts later than now; at gives their places, in order.
  ghost predicate Picks(ts: seq<real>, now: real, r: seq<real>, at: seq<nat>) {
    && |at| == |r|
    && (forall i :: 0 <= i < |at| ==> at[i] < |ts| && ts[at[i]] == r[i] && r[i] > now)
    && (forall i, j :: 0 <= i < j < |at| ==> at[i] < at[j])
  }

  // No time of ts later than now is missing.
  ghost predicate MissesNone(ts: seq<real>, now: real, at: seq<nat>) {
    forall k :: 0 <= k < |ts| && ts[k] > now ==> k in at
  }

  ghost predicate Filters(ts: seq<real>, now: real, r: seq<real>, at: seq<nat>) {
    Picks(ts, now, r, at) && MissesNone(ts, now, at)
  }

  function Shifted(at: seq<nat>): (r: seq<nat>)
    ensures |r| == |at| && forall i :: 0 <= i < |at| ==> r[i] == at[i] + 1
  {
    seq(|at|, i requires 0 <= i < |at| => at[i] + 1)
  }

  lemma ShiftedIn(at: seq<nat>, k: nat)
    requires k in at
    ensures k + 1 in Shifted(at)
  {
    var i :| 0 <= i < |at| && at[i] == k;
    assert Shifted(at)[i] == k + 1;
  }

  lemma PicksMore(t: real, ts: seq<real>, now: real, r: seq<real>, at: seq<nat>)
    requires Picks(ts, now, r, at)
    ensures Picks([t] + ts, now, r, Shifted(at))
    ensures t > now ==> Picks([t] + ts, now, [t] + r, [0] + Shifted(at))
  {
  }

  lemma MissesNoneMore(t: real, ts: seq<real>, now: real, at: seq<nat>)
    requires MissesNone(ts, now, at)
    ensures if t > now then MissesNone([t] + ts, now, [0] + Shifted(at)) else MissesNone([t] + ts, now, Shifted(at))
  {
    var all := [t] + ts;
    forall k | 1 <= k < |all| && all[k] > now ensures k in Shifted(at) {
      assert all[k] == ts[k - 1];
      ShiftedIn(at, k - 1);
    }
  }

  lemma FiltersMore(t: real, ts: seq<real>, now: real, r: seq<real>, at: seq<nat>)
    requires Filters(ts, now, r, at)
    ensures if t > now then Filters([t] + ts, now, [t] + r, [0] + Shifted(at))
            else Filters([t] + ts, now, r, Shifted(at))
  {
    PicksMore(t, ts, now, r, at);
    MissesNoneMore(t, ts, now, at);
  }

  /** Pruning is filtering: the times later than now stay, all of them and no others, in their order. */
  lemma {:induction false} LaterIsFilter(ts: seq<real>, now: real) returns (at: seq<nat>)
    ensures Filters(ts, now, Later(ts, now), at)
  {
    at := [];
    if ts != [] {
      at := LaterIsFilter(ts[1..], now);
      FiltersMore(ts[0], ts[1..], now, Later(ts[1..], now), at);
      assert [ts[0]] + ts[1..] == ts;
      at := if ts[0] > now then [0] + Shifted(at) else Shifted(at);
    }
  }

  function EnterSlot(st: State): State {
    st.(active := st.active + 1, peakActive := if st.peakActive < st.active + 1 then st.active + 1 else st.peakActive)
  }

  function LeaveSlot(st: State): State {
    st.(active := if st.active == 0 then 0 else st.active - 1)
  }

  function Lookup(st: State, s: string): (CacheTier, nat) {
    if Has(st.gpu, s) then (GPU, Get(st.gpu, s).tokens)
    else if Has(st.dram, s) then (DRAM, Get(st.dram, s).tokens)
    else (MISS, 0)
  }

  function Promote(st: State, s: string): State {
    if Has(st.dram, s) then
      st.(gpu := Put(st.gpu, s, Get(st.dram, s)), dram := Pop(st.dram, s))
    else st
  }

  function Demote(hw: Hardware, st: State, e: Entry): State {
    if Tokens(st.dram) + e.tokens <= hw.dramCap then
      st.(gpu := Pop(st.gpu, e.session), dram := Put(st.dram, e.session, e), offloads := st.offloads + 1)
    else
      st.(gpu := Pop(st.gpu, e.session), evictions := st.evictions + 1)
  }

  function GiveUp(policy: CachePolicy, hw: Hardware, st: State, victim: Entry): State {
    if policy.OnRelease(victim) == OffloadDram then Demote(hw, st, victim)
    else st.(gpu := Pop(st.gpu, victim.session), evictions := st.evictions + 1)
  }

  // The eviction loop: victims are given up in turn until the rest fits.
  function Shed(policy: CachePolicy, hw: Hardware, st: State, order: seq<Entry>): State
    decreases |order|
  {
    if order == [] || Tokens(st.gpu) <= hw.gpuCap then st
    else Shed(policy, hw, GiveUp(policy, hw, st, order[0]), order[1..])
  }

  // Position of the first entry with the least last touch.
  function Oldest(d: Dict<Entry>): (i: nat)
    requires d != []
    ensures i < |d|
    ensures forall j :: 0 <= j < |d| ==> d[i].1.lastTouch <= d[j].1.lastTouch
    ensures forall j :: 0 <= j < i ==> d[i].1.lastTouch < d[j].1.lastTouch
  {
    if |d| == 1 then 0
    else
      var i := Oldest(d[1..]);
      assert forall j :: 1 <= j < |d| ==> d[j] == d[1..][j - 1];
      if d[0].1.lastTouch <= d[i + 1].1.lastTouch then 0 else i + 1
  }

  function DropOldest(st: State): State
    requires st.dram != []
  {
    st.(dram := Pop(st.dram, st.dram[Oldest(st.dram)].0), evictions := st.evictions + 1)
  }

  function TrimDram(hw: Hardware, st: State): State
    decreases |st.dram|
  {
    if Tokens(st.dram) > hw.dramCap && st.dram != [] then TrimDram(hw, DropOldest(st)) else st
  }

  function EnforceCapacity(policy: CachePolicy, hw: Hardware, st: State, now: real): State {
    if Tokens(st.gpu) <= hw.gpuCap then st
    else TrimDram(hw, Shed(policy, hw, st, policy.VictimOrder(Values(st.gpu), now)))
  }

  // Before the policy is asked: the entry sits in GPU memory and nowhere else.
  function Install(st: State, e: Entry): State {
    st.(dram := Pop(st.dram, e.session), gpu := Put(st.gpu, e.session, e))
  }

  // Then it stays, is demoted or is dropped, as the policy says.
  function Place(policy: CachePolicy, hw: Hardware, st: State, e: Entry): State {
    var st1 := Install(st, e);
    match policy.OnRelease(e)
    case PinGpu => st1
    case OffloadDram => Demote(hw, st1, e)
    case Drop => st1.(gpu := Pop(st1.gpu, e.session), evictions := st1.evictions + 1)
  }

  function Store(policy: CachePolicy, hw: Hardware, st: State, e: Entry): State {
    EnforceCapacity(policy, hw, Place(policy, hw, st, e), e.lastTouch)
  }

  // ---- Invariants ----------------------------------------------------------------------

  ghost predicate KeysMatch(d: Dict<Entry>) {
    forall p :: p in d ==> p.0 == p.1.session
  }

  /** Dictionaries are well formed, keyed by their entries' sessions, and share no session. */
  ghost predicate TwoTier(st: State) {
    && Unique(st.gpu) && KeysMatch(st.gpu)
    && Unique(st.dram) && KeysMatch(st.dram)
    && forall s :: !(Has(st.gpu, s) && Has(st.dram, s))
  }

  ghost predicate InBudget(hw: Hardware, st: State) {
    Tokens(st.gpu) <= hw.gpuCap && Tokens(st.dram) <= hw.dramCap
  }

  // Sessions held plus sessions given up: what eviction conserves.
  function Tally(st: State): nat {
    |st.gpu| + |st.dram| + st.evictions
  }

  // Nothing but the caches and the two counters changed.
  ghost predicate SameQueue(a: State, b: State) {
    a.freeAt == b.freeAt && a.pending == b.pending && a.active == b.active && a.peakActive == b.peakActive
  }

  ghost predicate Fewer(a: State, b: State) {
    forall e :: b.Caches(e) ==> a.Caches(e)
  }

  /** What giving up n GPU entries does, whoever they are: every one of them is either demoted or
      counted as an eviction, nothing else is lost and nothing appears. */
  ghost predicate GaveUp(hw: Hardware, a: State, b: State, n: nat) {
    && TwoTier(b)
    && Tally(b) == Tally(a)
    && b.evictions + b.offloads == a.evictions + a.offloads + n
    && b.evictions >= a.evictions
    && SameQueue(a, b) && Fewer(a, b)
    && (Tokens(a.dram) <= hw.dramCap ==> Tokens(b.dram) <= hw.dramCap)
  }

  // ---- Tokens --------------------------------------------------------------------------

  lemma {:induction false} TokensConcat(a: Dict<Entry>, b: Dict<Entry>)
    ensures Tokens(a + b) == Tokens(a) + Tokens(b)
  {
    if a == [] {
      assert a + b == b;
    } else {
      TokensConcat(a[1..], b);
      assert (a + b)[1..] == a[1..] + b;
    }
  }

  lemma TokensSplit(d: Dict<Entry>, i: nat)
    requires i < |d|
    ensures Tokens(d) == Tokens(d[..i]) + d[i].1.tokens + Tokens(d[i + 1..])
  {
    TokensConcat(d[..i], d[i..]);
    assert d == d[..i] + d[i..];
    assert d[i..][1..] == d[i + 1..];
  }

  lemma TokensPop(d: Dict<Entry>, s: string)
    ensures Tokens(Pop(d, s)) == Tokens(d) - (if Has(d, s) then Get(d, s).tokens else 0)
  {
    var i := Index(d, s);
    if i < |d| {
      TokensSplit(d, i);
      TokensConcat(d[..i], d[i + 1..]);
    }
  }

  lemma TokensPut(d: Dict<Entry>, s: string, e: Entry)
    ensures Tokens(Put(d, s, e)) == Tokens(d) + e.tokens - (if Has(d, s) then Get(d, s).tokens else 0)
  {
    var i := Index(d, s);
    if i < |d| {
      var r := d[i := (s, e)];
      TokensSplit(d, i);
      TokensSplit(r, i);
      assert r[..i] == d[..i] && r[i + 1..] == d[i + 1..];
    } else {
      TokensConcat(d, [(s, e)]);
    }
  }

  // ---- Single steps --------------------------------------------------------------------

  lemma CachesIn(st: State, e: Entry)
    ensures st.Caches(e) ==> st.Resident(e.session)
  {
    if (e.session, e) in st.gpu {
      HasIn(st.gpu, (e.session, e));
    } else if (e.session, e) in st.dram {
      HasIn(st.dram, (e.session, e));
    }
  }

  lemma ResidentCaches(st: State, s: string) returns (e: Entry)
    requires TwoTier(st) && st.Resident(s)
    ensures e.session == s && st.Caches(e)
    ensures Lookup(st, s).1 == e.tokens
  {
    e := if Has(st.gpu, s) then Get(st.gpu, s) else Get(st.dram, s);
    var p := if Has(st.gpu, s) then st.gpu[Index(st.gpu, s)] else st.dram[Index(st.dram, s)];
    assert p == (s, e);
  }

  lemma DemoteFacts(hw: Hardware, st: State, e: Entry)
    requires TwoTier(st) && (e.session, e) in st.gpu
    ensures var st' := Demote(hw, st, e);
            st'.gpu == Pop(st.gpu, e.session) && GaveUp(hw, st, st', 1)
  {
    HasIn(st.gpu, (e.session, e));
    PopFacts(st.gpu, e.session);
    PutFacts(st.dram, e.session, e);
    TokensPut(st.dram, e.session, e);
  }

  lemma GiveUpFacts(policy: CachePolicy, hw: Hardware, st: State, v: Entry)
    requires TwoTier(st) && (v.session, v) in st.gpu
    ensures var st' := GiveUp(policy, hw, st, v);
            st'.gpu == Pop(st.gpu, v.session) && GaveUp(hw, st, st', 1)
  {
    HasIn(st.gpu, (v.session, v));
    PopFacts(st.gpu, v.session);
    DemoteFacts(hw, st, v);
  }

  // ---- Eviction ------------------------------------------------------------------------

  // Tokens of the first k victims.
  function Freed(order: seq<Entry>, k: nat): nat
    requires k <= |order|
  {
    if k == 0 then 0 else Freed(order, k - 1) + order[k - 1].tokens
  }

  // r is d without the first k victims.
  ghost predicate Rid(d: Dict<Entry>, r: Dict<Entry>, order: seq<Entry>, k: nat)
    requires k <= |order|
  {
    && Unique(r)
    && (forall p :: p in r <==> p in d && forall i :: 0 <= i < k ==> order[i].session != p.0)
    && Tokens(r) + Freed(order, k) == Tokens(d)
  }

  // order lists cached entries, each once.
  ghost predicate Lists(order: seq<Entry>, d: Dict<Entry>) {
    && (forall i :: 0 <= i < |order| ==> (order[i].session, order[i]) in d)
    && (forall i, j :: 0 <= i < j < |order| ==> order[i].session != order[j].session)
  }

  lemma ListsTail(order: seq<Entry>, d: Dict<Entry>)
    requires Unique(d) && order != [] && Lists(order, d)
    ensures var d1 := Pop(d, order[0].session);
            && Lists(order[1..], d1) && Unique(d1)
            && (forall p :: p in d1 <==> p in d && p.0 != order[0].session)
            && Tokens(d1) + order[0].tokens == Tokens(d)
  {
    HasIn(d, (order[0].session, order[0]));
    PopFacts(d, order[0].session);
    TokensPop(d, order[0].session);
  }

  lemma {:induction false} FreedTail(order: seq<Entry>, k: nat)
    requires 1 <= k <= |order|
    ensures Freed(order, k) == order[0].tokens + Freed(order[1..], k - 1)
  {
    if k > 1 {
      FreedTail(order, k - 1);
    }
  }

  lemma ShedStep(policy: CachePolicy, hw: Hardware, st: State, order: seq<Entry>)
    requires TwoTier(st) && order != [] && Lists(order, st.gpu) && Tokens(st.gpu) > hw.gpuCap
    ensures var st' := GiveUp(policy, hw, st, order[0]);
            && Shed(policy, hw, st, order) == Shed(policy, hw, st', order[1..])
            && Lists(order[1..], st'.gpu)
            && (order[0].session, order[0]) in st.gpu
  {
    ListsTail(order, st.gpu);
  }

  lemma GaveUpTransitive(hw: Hardware, a: State, b: State, c: State, m: nat, n: nat)
    requires GaveUp(hw, a, b, m) && GaveUp(hw, b, c, n)
    ensures GaveUp(hw, a, c, m + n)
  {
  }

  lemma RidMore(d: Dict<Entry>, d1: Dict<Entry>, r: Dict<Entry>, order: seq<Entry>, k: nat)
    requires 1 <= k <= |order| && Rid(d1, r, order[1..], k - 1)
    requires forall p :: p in d1 <==> p in d && p.0 != order[0].session
    requires Tokens(d1) + order[0].tokens == Tokens(d)
    ensures Rid(d, r, order, k)
  {
    FreedTail(order, k);
    assert forall i :: 1 <= i < k ==> order[i] == order[1..][i - 1];
    forall p ensures p in r <==> p in d && forall i :: 0 <= i < k ==> order[i].session != p.0 {
      assert (forall i :: 0 <= i < k - 1 ==> order[1..][i].session != p.0) <==>
             (forall i :: 1 <= i < k ==> order[i].session != p.0);
    }
  }

  lemma FewerTooFew(cap: nat, d: Dict<Entry>, d1: Dict<Entry>, order: seq<Entry>, k: nat)
    requires 1 <= k <= |order| && Tokens(d) > cap && Tokens(d1) + order[0].tokens == Tokens(d)
    requires forall j :: 0 <= j < k - 1 ==> Tokens(d1) - Freed(order[1..], j) > cap
    ensures forall j :: 0 <= j < k ==> Tokens(d) - Freed(order, j) > cap
  {
    forall j | 1 <= j < k ensures Tokens(d) - Freed(order, j) > cap {
      FreedTail(order, j);
    }
  }

  // st' is st after the k victims that have to go.
  ghost predicate ShedBy(hw: Hardware, st: State, st': State, order: seq<Entry>, k: nat) {
    && k <= |order| && Rid(st.gpu, st'.gpu, order, k) && GaveUp(hw, st, st', k)
    && (forall j :: 0 <= j < k ==> Tokens(st.gpu) - Freed(order, j) > hw.gpuCap)
    && (k < |order| ==> Tokens(st'.gpu) <= hw.gpuCap)
  }

  lemma NoVictims(hw: Hardware, st: State, order: seq<Entry>)
    requires TwoTier(st) && (order == [] || Tokens(st.gpu) <= hw.gpuCap)
    ensures ShedBy(hw, st, st, order, 0)
  {
  }

  lemma OneMoreVictim(hw: Hardware, st: State, st1: State, st': State, order: seq<Entry>, k: nat)
    requires order != [] && Tokens(st.gpu) > hw.gpuCap
    requires GaveUp(hw, st, st1, 1) && ShedBy(hw, st1, st', order[1..], k)
    requires forall p :: p in st1.gpu <==> p in st.gpu && p.0 != order[0].session
    requires Tokens(st1.gpu) + order[0].tokens == Tokens(st.gpu)
    ensures ShedBy(hw, st, st', order, k + 1)
  {
    GaveUpTransitive(hw, st, st1, st', 1, k);
    RidMore(st.gpu, st1.gpu, st'.gpu, order, k + 1);
    FewerTooFew(hw.gpuCap, st.gpu, st1.gpu, order, k + 1);
  }

  // The same loop, whatever giving up a victim means.
  function ShedWith(give: (State, Entry) -> State, cap: nat, st: State, order: seq<Entry>): State
    decreases |order|
  {
    if order == [] || Tokens(st.gpu) <= cap then st else ShedWith(give, cap, give(st, order[0]), order[1..])
  }

  function Giver(policy: CachePolicy, hw: Hardware): (State, Entry) -> State {
    (st, victim) => GiveUp(policy, hw, st, victim)
  }

  lemma {:induction false} ShedGives(policy: CachePolicy, hw: Hardware, st: State, order: seq<Entry>)
    ensures Shed(policy, hw, st, order) == ShedWith(Giver(policy, hw), hw.gpuCap, st, order)
    decreases |order|
  {
    if order != [] && Tokens(st.gpu) > hw.gpuCap {
      ShedGives(policy, hw, GiveUp(policy, hw, st, order[0]), order[1..]);
    }
  }

  // give removes its victim from the GPU and does nothing else that matters.
  ghost predicate Gives(give: (State, Entry) -> State, hw: Hardware, st: State, v: Entry) {
    var st1 := give(st, v);
    && GaveUp(hw, st, st1, 1)
    && (forall p :: p in st1.gpu <==> p in st.gpu && p.0 != v.session)
    && Tokens(st1.gpu) + v.tokens == Tokens(st.gpu)
  }

  lemma GiverGives(policy: CachePolicy, hw: Hardware, st: State, v: Entry)
    requires TwoTier(st) && (v.session, v) in st.gpu
    ensures Gives(Giver(policy, hw), hw, st, v)
  {
    GiveUpFacts(policy, hw, st, v);
    HasIn(st.gpu, (v.session, v));
    PopFacts(st.gpu, v.session);
    TokensPop(st.gpu, v.session);
  }

  lemma {:induction false} ShedWithFacts(give: (State, Entry) -> State, hw: Hardware, st: State, order: seq<Entry>)
      returns (k: nat)
    requires forall a: State, v: Entry :: TwoTier(a) && (v.session, v) in a.gpu ==> Gives(give, hw, a, v)
    requires TwoTier(st) && Lists(order, st.gpu)
    ensures ShedBy(hw, st, ShedWith(give, hw.gpuCap, st, order), order, k)
    decreases |order|
  {
    if order == [] || Tokens(st.gpu) <= hw.gpuCap {
      k := 0;
      NoVictims(hw, st, order);
    } else {
      var st1 := give(st, order[0]);
      assert Gives(give, hw, st, order[0]);
      var rest := ShedWithFacts(give, hw, st1, order[1..]);
      k := rest + 1;
      OneMoreVictim(hw, st, st1, ShedWith(give, hw.gpuCap, st1, order[1..]), order, rest);
    }
  }

  lemma ShedFacts(policy: CachePolicy, hw: Hardware, st: State, order: seq<Entry>) returns (k: nat)
    requires TwoTier(st) && Lists(order, st.gpu)
    ensures ShedBy(hw, st, Shed(policy, hw, st, order), order, k)
  {
    forall a: State, v: Entry | TwoTier(a) && (v.session, v) in a.gpu ensures Gives(Giver(policy, hw), hw, a, v) {
      GiverGives(policy, hw, a, v);
    }
    ShedGives(policy, hw, st, order);
    k := ShedWithFacts(Giver(policy, hw), hw, st, order);
  }

  /** Where nothing on the GPU is due for offloading, pressure only evicts: no demotion happens. */
  lemma {:induction false} PinnedShed(policy: CachePolicy, hw: Hardware, st: State, order: seq<Entry>)
    requires TwoTier(st) && Lists(order, st.gpu)
    requires forall i :: 0 <= i < |order| ==> policy.OnRelease(order[i]) != OffloadDram
    ensures Shed(policy, hw, st, order).dram == st.dram && Shed(policy, hw, st, order).offloads == st.offloads
    decreases |order|
  {
    if order != [] && Tokens(st.gpu) > hw.gpuCap {
      GiveUpFacts(policy, hw, st, order[0]);
      ListsTail(order, st.gpu);
      PinnedShed(policy, hw, GiveUp(policy, hw, st, order[0]), order[1..]);
    }
  }

  // Any sorted listing of the GPU dictionary's values is a listing of its entries.
  lemma OrderLists(policy: CachePolicy, d: Dict<Entry>, now: real)
    requires Unique(d) && KeysMatch(d)
    ensures var order := policy.VictimOrder(Values(d), now);
            && Lists(order, d) && |order| == |d|
            && policy.Sorted(order, now)
            && forall p :: p in d ==> p.1 in order
  {
    var vs := Values(d);
    var order := policy.VictimOrder(vs, now);
    policy.VictimOrderIsStableSort(vs, now);
    forall i, j | 0 <= i < j < |vs| ensures vs[i].session != vs[j].session {
      assert d[i] in d && d[j] in d;
    }
    forall i | 0 <= i < |order| ensures (order[i].session, order[i]) in d {
      assert order[i] in multiset(order);
      assert order[i] in vs;
      var j :| 0 <= j < |vs| && vs[j] == order[i];
      assert d[j] in d;
    }
    forall p | p in d ensures p.1 in order {
      var j :| 0 <= j < |d| && d[j] == p;
      assert vs[j] in multiset(vs);
      assert p.1 in multiset(order);
    }
    PermutationDistinct(vs, order);
  }

  lemma {:induction false} DistinctCount(vs: seq<Entry>, a: Entry)
    requires forall i, j :: 0 <= i < j < |vs| ==> vs[i].session != vs[j].session
    ensures multiset(vs)[a] <= 1
  {
    if vs != [] {
      DistinctCount(vs[1..], a);
      assert vs == [vs[0]] + vs[1..];
      assert forall j :: 0 <= j < |vs[1..]| ==> vs[1..][j] == vs[j + 1];
    }
  }

  lemma RepeatCount(vs: seq<Entry>, i: nat, j: nat)
    requires i < j < |vs|
    ensures vs[i] == vs[j] ==> multiset(vs)[vs[i]] >= 2
  {
    assert vs == vs[..i] + [vs[i]] + vs[i + 1..j] + [vs[j]] + vs[j + 1..];
  }

  // Distinct sessions stay distinct under permutation.
  lemma PermutationDistinct(vs: seq<Entry>, order: seq<Entry>)
    requires multiset(vs) == multiset(order)
    requires forall i, j :: 0 <= i < j < |vs| ==> vs[i].session != vs[j].session
    ensures forall i, j :: 0 <= i < j < |order| ==> order[i].session != order[j].session
  {
    forall i, j | 0 <= i < j < |order| ensures order[i].session != order[j].session {
      DistinctCount(vs, order[i]);
      RepeatCount(order, i, j);
      assert order[i] in multiset(order) && order[j] in multiset(order);
      assert order[i] in vs && order[j] in vs;
    }
  }

  lemma TrimStep(hw: Hardware, st: State)
    requires Tokens(st.dram) > hw.dramCap && st.dram != []
    ensures TrimDram(hw, st) == TrimDram(hw, DropOldest(st))
  {
  }

  lemma TrimDone(hw: Hardware, st: State)
    requires Tokens(st.dram) <= hw.dramCap || st.dram == []
    ensures TrimDram(hw, st) == st
    ensures Tokens(st.dram) <= hw.dramCap
  {
  }

  /** The trim that follows the eviction loop never finds anything to trim, whatever was demoted. */
  lemma TrimIsIdle(policy: CachePolicy, hw: Hardware, st: State, order: seq<Entry>)
    requires TwoTier(st) && Tokens(st.dram) <= hw.dramCap && Lists(order, st.gpu)
    ensures TrimDram(hw, Shed(policy, hw, st, order)) == Shed(policy, hw, st, order)
  {
    var _ := ShedFacts(policy, hw, st, order);
    TrimDone(hw, Shed(policy, hw, st, order));
  }

  /** Eviction under pressure, for any policy: the shortest prefix of the victim order that makes the
      rest fit goes, and nobody who stays was ahead of anybody who went. */
  lemma EvictionIsMinimalPrefix(policy: CachePolicy, hw: Hardware, st: State, now: real) returns (k: nat)
    requires TwoTier(st) && Tokens(st.dram) <= hw.dramCap
    ensures k <= |st.gpu| == |policy.VictimOrder(Values(st.gpu), now)|
    ensures var order := policy.VictimOrder(Values(st.gpu), now);
            var st' := EnforceCapacity(policy, hw, st, now);
            && Rid(st.gpu, st'.gpu, order, k)
            && (forall j :: 0 <= j < k ==> Tokens(st.gpu) - Freed(order, j) > hw.gpuCap)
            && (forall i, p :: 0 <= i < k && p in st'.gpu ==> !policy.Before(p.1, order[i], now))
    ensures var st' := EnforceCapacity(policy, hw, st, now);
            GaveUp(hw, st, st', k) && InBudget(hw, st')
  {
    var order := policy.VictimOrder(Values(st.gpu), now);
    OrderLists(policy, st.gpu, now);
    if Tokens(st.gpu) <= hw.gpuCap {
      k := 0;
    } else {
      var shed := Shed(policy, hw, st, order);
      k := ShedFacts(policy, hw, st, order);
      TrimIsIdle(policy, hw, st, order);
      if k == |order| {
        AllRid(st.gpu, shed.gpu, order);
      }
    }
    StayersComeLater(policy, st.gpu, EnforceCapacity(policy, hw, st, now).gpu, order, k, now);
  }

  lemma HasAny(d: Dict<Entry>)
    requires d != []
    ensures exists p :: p in d
  {
    assert d[0] in d;
  }

  lemma AllRid(d: Dict<Entry>, r: Dict<Entry>, order: seq<Entry>)
    requires KeysMatch(d) && Rid(d, r, order, |order|) && forall p :: p in d ==> p.1 in order
    ensures r == []
  {
    forall p | p in d ensures p !in r {
      var i :| 0 <= i < |order| && order[i] == p.1;
    }
    if r != [] {
      HasAny(r);
      assert false;
    }
  }

  lemma StayersComeLater(policy: CachePolicy, d: Dict<Entry>, r: Dict<Entry>, order: seq<Entry>, k: nat, now: real)
    requires k <= |order| && KeysMatch(d) && Rid(d, r, order, k) && policy.Sorted(order, now)
    requires forall p :: p in d ==> p.1 in order
    ensures forall i, p :: 0 <= i < k && p in r ==> !policy.Before(p.1, order[i], now)
  {
    forall i, p | 0 <= i < k && p in r ensures !policy.Before(p.1, order[i], now) {
      var j :| 0 <= j < |order| && order[j] == p.1;
      assert order[i].session != p.0;
      assert i < j;
    }
  }

  lemma GoneWasAhead(policy: CachePolicy, hw: Hardware, st: State, now: real, gone: Entry, kept: Entry)
    requires TwoTier(st) && Tokens(st.dram) <= hw.dramCap
    requires var st' := EnforceCapacity(policy, hw, st, now);
             (gone.session, gone) in st.gpu && (gone.session, gone) !in st'.gpu && (kept.session, kept) in st'.gpu
    ensures !policy.Before(kept, gone, now)
  {
    var k := EvictionIsMinimalPrefix(policy, hw, st, now);
    var order := policy.VictimOrder(Values(st.gpu), now);
    var i :| 0 <= i < k && order[i].session == gone.session;
    OrderLists(policy, st.gpu, now);
    HasIn(st.gpu, (order[i].session, order[i]));
    HasIn(st.gpu, (gone.session, gone));
    assert order[i] == gone;
  }

  /** The adaptive order read off: sessions untouched for longer than deadMs go before the others, and
      among the others whoever went is due back no sooner than whoever stayed; where that does not
      tell, whoever went was touched no earlier. */
  lemma AdaptiveEvictsLateReturners(policy: CachePolicy, hw: Hardware, st: State, now: real, gone: Entry, kept: Entry)
    requires policy.AdaptiveTtl? && TwoTier(st) && Tokens(st.dram) <= hw.dramCap
    requires var st' := EnforceCapacity(policy, hw, st, now);
             (gone.session, gone) in st.gpu && (gone.session, gone) !in st'.gpu && (kept.session, kept) in st'.gpu
    ensures now - kept.lastTouch > policy.config.deadMs ==> now - gone.lastTouch > policy.config.deadMs
    ensures now - gone.lastTouch <= policy.config.deadMs ==> kept.predictedReturn <= gone.predictedReturn
    ensures now - kept.lastTouch > policy.config.deadMs
            || (now - gone.lastTouch <= policy.config.deadMs && gone.predictedReturn == kept.predictedReturn) ==>
              kept.lastTouch <= gone.lastTouch
  {
    GoneWasAhead(policy, hw, st, now, gone, kept);
  }

  /** And the baseline's: whoever went was touched no later than whoever stayed. */
  lemma LruEvictsOldest(hw: Hardware, st: State, now: real, gone: Entry, kept: Entry)
    requires TwoTier(st) && Tokens(st.dram) <= hw.dramCap
    requires var st' := EnforceCapacity(Lru, hw, st, now);
             (gone.session, gone) in st.gpu && (gone.session, gone) !in st'.gpu && (kept.session, kept) in st'.gpu
    ensures gone.lastTouch <= kept.lastTouch
  {
    GoneWasAhead(Lru, hw, st, now, gone, kept);
  }

  // ---- Store ---------------------------------------------------------------------------

  lemma InstallFacts(hw: Hardware, st: State, e: Entry)
    requires TwoTier(st) && Tokens(st.dram) <= hw.dramCap
    ensures var st' := Install(st, e);
            && TwoTier(st') && Tokens(st'.dram) <= hw.dramCap
            && Tally(st') == Tally(st) + (if st.Resident(e.session) then 0 else 1)
            && (e.session, e) in st'.gpu && !Has(st'.dram, e.session)
            && (forall x :: st'.Caches(x) ==> x == e || (st.Caches(x) && x.session != e.session))
  {
    PopFacts(st.dram, e.session);
    TokensPop(st.dram, e.session);
    PutFacts(st.gpu, e.session, e);
  }

  lemma PlaceFacts(policy: CachePolicy, hw: Hardware, st: State, e: Entry)
    requires TwoTier(st) && Tokens(st.dram) <= hw.dramCap
    ensures var st' := Place(policy, hw, st, e);
            && TwoTier(st') && Tokens(st'.dram) <= hw.dramCap
            && Tally(st') == Tally(st) + (if st.Resident(e.session) then 0 else 1)
            && st'.evictions >= st.evictions && SameQueue(st, st')
            && (forall x :: st'.Caches(x) ==> x == e || (st.Caches(x) && x.session != e.session))
            && (policy.OnRelease(e) == Drop ==> !st'.Resident(e.session))
            && (policy.OnRelease(e) == PinGpu ==> (e.session, e) in st'.gpu)
  {
    InstallFacts(hw, st, e);
    var st1 := Install(st, e);
    HasIn(st1.gpu, (e.session, e));
    PopFacts(st1.gpu, e.session);
    DemoteFacts(hw, st1, e);
  }

  /** The class invariant of a replica: whatever the policy and however large the entry, a store
      leaves disjoint, correctly keyed tiers, both within budget, and loses no session silently. */
  lemma StoreKeepsTwoTier(policy: CachePolicy, hw: Hardware, st: State, e: Entry)
    requires TwoTier(st) && Tokens(st.dram) <= hw.dramCap
    ensures var st' := Store(policy, hw, st, e);
            && TwoTier(st') && InBudget(hw, st')
            && Tally(st') == Tally(st) + (if st.Resident(e.session) then 0 else 1)
            && st'.evictions >= st.evictions && SameQueue(st, st')
            && (forall x :: st'.Caches(x) ==> x == e || (st.Caches(x) && x.session != e.session))
            && (policy.OnRelease(e) == Drop ==> !st'.Resident(e.session))
  {
    PlaceFacts(policy, hw, st, e);
    var st1 := Place(policy, hw, st, e);
    var k := EvictionIsMinimalPrefix(policy, hw, st1, e.lastTouch);
    var st' := Store(policy, hw, st, e);
    if st'.Resident(e.session) {
      var x := ResidentCaches(st', e.session);
      assert st1.Caches(x);
      CachesIn(st1, x);
    }
  }

  /** A promotion moves one session from DRAM to the GPU, with its tokens, and nothing else. */
  lemma PromoteFacts(hw: Hardware, st: State, s: string)
    requires TwoTier(st) && Tokens(st.dram) <= hw.dramCap
    ensures var st' := Promote(st, s);
            && TwoTier(st') && Tokens(st'.dram) <= hw.dramCap
            && Tally(st') == Tally(st)
            && SameQueue(st, st') && st'.evictions == st.evictions && st'.offloads == st.offloads
            && (forall x :: st'.Caches(x) <==> st.Caches(x))
            && (st'.Resident(s) <==> st.Resident(s))
            && Lookup(st', s).1 == Lookup(st, s).1
            && !Has(st'.dram, s)
            && (forall x :: x != s ==> Lookup(st', x) == Lookup(st, x))
            && Tokens(st'.gpu) == Tokens(st.gpu) + (if Has(st.dram, s) then Get(st.dram, s).tokens else 0)
            && Tokens(st'.dram) == Tokens(st.dram) - (if Has(st.dram, s) then Get(st.dram, s).tokens else 0)
  {
    if Has(st.dram, s) {
      var e := Get(st.dram, s);
      assert st.dram[Index(st.dram, s)] == (s, e);
      assert (s, e) in st.dram && e.session == s;
      PopFacts(st.dram, s);
      TokensPop(st.dram, s);
      PutFacts(st.gpu, s, e);
      TokensPut(st.gpu, s, e);
    }
  }

  /** Hence a promotion can leave the GPU over its budget, until the store that follows: exactly when
      the copy in DRAM and what the GPU holds are too much together. */
  lemma PromotionOverfills(hw: Hardware, st: State, s: string)
    requires TwoTier(st) && InBudget(hw, st)
    ensures Tokens(Promote(st, s).gpu) > hw.gpuCap
       <==> Has(st.dram, s) && Tokens(st.gpu) + Get(st.dram, s).tokens > hw.gpuCap
  {
    PromoteFacts(hw, st, s);
  }
}
