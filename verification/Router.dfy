// Replica selection (agentserve/router.py): plain rotation, and session affinity with a release valve.
module Router {
  import opened Models
  import opened OrderedDict
  import opened SessionStore
  import Spec = ReplicaSpec
  import opened Replica

  // ---- Least loaded --------------------------------------------------------------------

  function Utilization(cap: nat, st: Spec.State): real
    requires cap > 0
  {
    Spec.Tokens(st.gpu) as real / cap as real
  }

  /** a strictly precedes b under the key (inflight, time it frees up, GPU utilization). */
  predicate Lighter(cap: nat, a: Spec.State, b: Spec.State, now: real)
    requires cap > 0
  {
    if a.Inflight() != b.Inflight() then a.Inflight() < b.Inflight()
    else if Max(a.freeAt, now) != Max(b.freeAt, now) then Max(a.freeAt, now) < Max(b.freeAt, now)
    else Utilization(cap, a) < Utilization(cap, b)
  }

  // Everybody but the avoided replica, or everybody when nobody else is left.
  predicate Eligible(n: nat, i: nat, avoid: Option<nat>) {
    i < n && (avoid == Some(i) ==> n == 1)
  }

  // The first of the least among the eligible replicas below n.
  ghost predicate IsLeast(cap: nat, rs: seq<Spec.State>, now: real, avoid: Option<nat>, n: nat, k: nat)
    requires cap > 0 && n <= |rs|
  {
    && k < n && Eligible(|rs|, k, avoid)
    && forall j :: 0 <= j < n && Eligible(|rs|, j, avoid) ==>
         !Lighter(cap, rs[j], rs[k], now) && (j < k ==> Lighter(cap, rs[k], rs[j], now))
  }

  function Least(cap: nat, rs: seq<Spec.State>, now: real, avoid: Option<nat>, n: nat): (k: Option<nat>)
    requires cap > 0 && n <= |rs|
    ensures k.Some? ==> IsLeast(cap, rs, now, avoid, n, k.value)
    ensures k.None? ==> forall j :: 0 <= j < n ==> !Eligible(|rs|, j, avoid)
  {
    if n == 0 then None
    else
      var k := Least(cap, rs, now, avoid, n - 1);
      if Eligible(|rs|, n - 1, avoid) && (k.None? || Lighter(cap, rs[n - 1], rs[k.value], now)) then Some(n - 1) else k
  }

  function LeastLoaded(cap: nat, rs: seq<Spec.State>, now: real, avoid: Option<nat>): (k: nat)
    requires cap > 0 && rs != []
    ensures IsLeast(cap, rs, now, avoid, |rs|, k)
    ensures k < |rs|
  {
    assert Eligible(|rs|, 0, avoid) || Eligible(|rs|, 1, avoid);
    Least(cap, rs, now, avoid, |rs|).value
  }

  lemma LeastIsUnique(cap: nat, rs: seq<Spec.State>, now: real, avoid: Option<nat>, n: nat, a: nat, b: nat)
    requires cap > 0 && n <= |rs| && IsLeast(cap, rs, now, avoid, n, a) && IsLeast(cap, rs, now, avoid, n, b)
    ensures a == b
  {
  }

  lemma LeastHasFewest(cap: nat, rs: seq<Spec.State>, now: real, avoid: Option<nat>)
    requires cap > 0 && rs != []
    ensures forall j :: 0 <= j < |rs| && Eligible(|rs|, j, avoid) ==>
              rs[LeastLoaded(cap, rs, now, avoid)].Inflight() <= rs[j].Inflight()
  {
  }

  lemma QuotientOrder(x: real, y: real, c: real)
    requires c > 0.0
    ensures x / c < y / c <==> x < y
  {
    var u, v := x / c, y / c;
    assert x == u * c && y == v * c;
    ProductOrder(u, v, c);
    ProductOrder(v, u, c);
  }

  lemma ProductOrder(u: real, v: real, c: real)
    requires c > 0.0
    ensures u < v ==> u * c < v * c
  {
  }

  lemma TokensAreUtilization(cap: nat, a: Spec.State, b: Spec.State)
    requires cap > 0
    ensures Utilization(cap, a) < Utilization(cap, b) <==> Spec.Tokens(a.gpu) < Spec.Tokens(b.gpu)
  {
    QuotientOrder(Spec.Tokens(a.gpu) as real, Spec.Tokens(b.gpu) as real, cap as real);
  }

  /** Who is picked, read off the replicas: of all eligible ones the fewest in flight; among those the
      soonest free, counting idle ones as free now; among those the fewest tokens on the GPU; and of the
      ones alike in all this, the first. */
  lemma LeastInFields(cap: nat, rs: seq<Spec.State>, now: real, avoid: Option<nat>, j: nat)
    requires cap > 0 && j < |rs| && (avoid == Some(j) ==> |rs| == 1)
    ensures var k := LeastLoaded(cap, rs, now, avoid);
            var a, b := rs[k], rs[j];
            && (avoid == Some(k) ==> |rs| == 1)
            && |a.pending| + a.active <= |b.pending| + b.active
            && (|a.pending| + a.active == |b.pending| + b.active ==>
                  && Max(a.freeAt, now) <= Max(b.freeAt, now)
                  && (Max(a.freeAt, now) == Max(b.freeAt, now) ==>
                        && Spec.Tokens(a.gpu) <= Spec.Tokens(b.gpu)
                        && (Spec.Tokens(a.gpu) == Spec.Tokens(b.gpu) ==> k <= j)))
  {
    var k := LeastLoaded(cap, rs, now, avoid);
    assert Eligible(|rs|, j, avoid);
    TokensAreUtilization(cap, rs[k], rs[j]);
    TokensAreUtilization(cap, rs[j], rs[k]);
  }

  // ---- Affinity ------------------------------------------------------------------------

  datatype Affinity = Affinity(home: Table<int>, hits: nat, breaks: nat)

  // Wall-clock readings (seconds) of the two store accesses one select may make.
  datatype Clock = Clock(atGet: real, atPut: real)

  datatype Limits = Limits(queueLimit: nat, gpuCap: nat, maxSessions: nat, ttlS: real)

  // The home the store names, if it is a replica of this cluster that still holds the session.
  function WarmHome(rs: seq<Spec.State>, found: Option<int>, session: string): Option<nat> {
    if found.Some? && 0 <= found.value < |rs| && Spec.Lookup(rs[found.value], session).0 != MISS
    then Some(found.value) else None
  }

  // Past the limit a warm session is sent elsewhere once, and keeps its home; one that its home no
  // longer holds gets a new home.
  function Dispatch(lim: Limits, rs: seq<Spec.State>, a: Affinity, warm: Option<nat>, session: string, now: real,
                    atPut: real)
      : (nat, Affinity)
    requires lim.gpuCap > 0 && rs != [] && (warm.Some? ==> warm.value < |rs|)
  {
    match warm
    case Some(h) =>
      if rs[h].Inflight() <= lim.queueLimit then (h, a.(hits := a.hits + 1))
      else (LeastLoaded(lim.gpuCap, rs, now, Some(h)), a.(breaks := a.breaks + 1))
    case None =>
      var k := LeastLoaded(lim.gpuCap, rs, now, None);
      (k, a.(home := Insert(a.home, session, Slot(k, atPut + lim.ttlS), lim.maxSessions)))
  }

  function Route(lim: Limits, rs: seq<Spec.State>, a: Affinity, session: string, now: real, clock: Clock): (nat,
                 Affinity)
    requires lim.gpuCap > 0 && rs != []
  {
    var (found, table) := Fetch(a.home, session, clock.atGet);
    Dispatch(lim, rs, a.(home := table), WarmHome(rs, found, session), session, now, clock.atPut)
  }

  // What the store says of a session's home, if it is a replica at all and still holds the session.
  ghost predicate HomeHolds(rs: seq<Spec.State>, found: Option<int>, session: string) {
    found.Some? && 0 <= found.value < |rs| && rs[found.value].Resident(session)
  }

  /** A routing decision, read off: a home that still holds the session serves it, and counts a hit,
      while it has at most queueLimit requests in flight; beyond that the call goes, and counts a
      break, to somebody else if there is anybody else, and the home stays; a session without such a
      home gets one where it is served, and counts neither. */
  lemma RouteInFields(lim: Limits, rs: seq<Spec.State>, a: Affinity, session: string, now: real, clock: Clock)
    requires lim.gpuCap > 0 && lim.maxSessions > 0 && rs != [] && Unique(a.home)
    ensures var (k, a') := Route(lim, rs, a, session, now, clock);
            var (found, table) := Fetch(a.home, session, clock.atGet);
            && k < |rs|
            && (HomeHolds(rs, found, session) ==>
                  var inflight := |rs[found.value].pending| + rs[found.value].active;
                  && a'.home == table
                  && (inflight <= lim.queueLimit ==>
                        k == found.value && a'.hits == a.hits + 1 && a'.breaks == a.breaks)
                  && (inflight > lim.queueLimit ==>
                        (|rs| > 1 ==> k != found.value) && a'.hits == a.hits && a'.breaks == a.breaks + 1))
            && (!HomeHolds(rs, found, session) ==>
                  && a'.hits == a.hits && a'.breaks == a.breaks
                  && Has(a'.home, session) && Get(a'.home, session) == Slot(k as int, clock.atPut + lim.ttlS))
  {
    var (found, table) := Fetch(a.home, session, clock.atGet);
    UniqueFetch(a.home, session, clock.atGet);
    if HomeHolds(rs, found, session) {
      LeastAvoids(lim.gpuCap, rs, now, found.value);
    } else {
      var k := LeastLoaded(lim.gpuCap, rs, now, None);
      var put: Op<int> := PutOp(session, k, clock.atPut);
      TouchedIsNewest(table, put, lim.maxSessions, lim.ttlS);
    }
  }

  lemma LeastAvoids(cap: nat, rs: seq<Spec.State>, now: real, h: nat)
    requires cap > 0 && h < |rs|
    ensures |rs| > 1 ==> LeastLoaded(cap, rs, now, Some(h)) != h
  {
  }

  lemma DispatchKeepsUnique(lim: Limits, rs: seq<Spec.State>, a: Affinity, warm: Option<nat>,
                            session: string, now: real, atPut: real)
    requires lim.gpuCap > 0 && rs != [] && Unique(a.home) && (warm.Some? ==> warm.value < |rs|)
    ensures Unique(Dispatch(lim, rs, a, warm, session, now, atPut).1.home)
  {
    if warm.None? {
      var slot := Slot(LeastLoaded(lim.gpuCap, rs, now, None) as int, atPut + lim.ttlS);
      UniqueInsert(a.home, session, slot, lim.maxSessions);
    }
  }

  lemma RouteKeepsUnique(lim: Limits, rs: seq<Spec.State>, a: Affinity, session: string, now: real, clock: Clock)
    requires lim.gpuCap > 0 && rs != [] && Unique(a.home)
    ensures Unique(Route(lim, rs, a, session, now, clock).1.home)
  {
    UniqueFetch(a.home, session, clock.atGet);
    var (found, t) := Fetch(a.home, session, clock.atGet);
    DispatchKeepsUnique(lim, rs, a.(home := t), WarmHome(rs, found, session), session, now, clock.atPut);
  }

  // ---- The mutable routers -------------------------------------------------------------

  ghost function Views(replicas: seq<Replica>): (vs: seq<Spec.State>)
    reads replicas
    ensures |vs| == |replicas|
    ensures forall i :: 0 <= i < |replicas| ==> vs[i] == replicas[i].View()
  {
    seq(|replicas|, i requires 0 <= i < |replicas| reads replicas => replicas[i].View())
  }

  // A cluster as it is built: at least one replica, numbered in order, on the same hardware.
  ghost predicate Numbered(replicas: seq<Replica>, hw: Hardware) {
    && replicas != [] && hw.gpuCap > 0
    && forall i :: 0 <= i < |replicas| ==> replicas[i].id == i && replicas[i].hw == hw
  }

  method Inflight(r: Replica) returns (n: nat)
    ensures n == r.View().Inflight()
  {
    n := |r.pending| + r.active;
  }

  method IsLighter(a: Replica, b: Replica, hw: Hardware, now: real) returns (lighter: bool)
    requires hw.gpuCap > 0
    ensures lighter == Lighter(hw.gpuCap, a.View(), b.View(), now)
  {
    var x := |a.pending| + a.active;
    var y := |b.pending| + b.active;
    var s, t := Max(a.freeAt, now), Max(b.freeAt, now);
    var u := Spec.Tokens(DataOf(a.gpu)) as real / hw.gpuCap as real;
    var v := Spec.Tokens(DataOf(b.gpu)) as real / hw.gpuCap as real;
    lighter := if x != y then x < y else if s != t then s < t else u < v;
  }

  method PickLeastLoaded(replicas: seq<Replica>, hw: Hardware, now: real, avoid: Option<nat>) returns (r: Replica)
    requires Numbered(replicas, hw)
    ensures r == replicas[LeastLoaded(hw.gpuCap, Views(replicas), now, avoid)]
  {
    var best: Option<nat> := None;
    var i := 0;
    while i < |replicas|
      invariant 0 <= i <= |replicas|
      invariant best.Some? ==> IsLeast(hw.gpuCap, Views(replicas), now, avoid, i, best.value)
      invariant best.None? ==> forall j :: 0 <= j < i ==> !Eligible(|replicas|, j, avoid)
    {
      if Eligible(|replicas|, i, avoid) {
        if best.None? {
          best := Some(i);
        } else {
          var lighter := IsLighter(replicas[i], replicas[best.value], hw, now);
          if lighter {
            best := Some(i);
          }
        }
      }
      i := i + 1;
    }
    ghost var k := LeastLoaded(hw.gpuCap, Views(replicas), now, avoid);
    assert Eligible(|replicas|, k, avoid);
    LeastIsUnique(hw.gpuCap, Views(replicas), now, avoid, |replicas|, k, best.value);
    r := replicas[best.value];
  }

  // ---- Rotation ------------------------------------------------------------------------

  // Where the i-th of some consecutive selections goes, the first of them at the cursor.
  function Rotated(cursor: nat, n: nat, i: nat): nat
    requires n > 0
  {
    (cursor + i) % n
  }

  lemma MultipleIsFar(d: int, n: int)
    requires n >= 0
    ensures d >= 1 ==> d * n >= n
    ensures d <= -1 ==> d * n <= -n
  {
    if d >= 1 {
      assert d * n == (d - 1) * n + n;
    } else if d <= -1 {
      assert d * n == (d + 1) * n - n;
    }
  }

  lemma RemainderIsUnique(p: int, q: int, r: nat, k: nat, n: nat)
    requires p * n + r == q * n + k && r < n && k < n
    ensures p == q && r == k
  {
    assert (p - q) * n == k - r;
    MultipleIsFar(p - q, n);
  }

  lemma RemainderIs(x: nat, q: int, k: nat, n: nat)
    requires k < n && x == q * n + k
    ensures x % n == k
  {
    assert x == (x / n) * n + x % n;
    RemainderIsUnique(x / n, q, x % n, k, n);
  }

  // A full turn in terms of where it starts.
  lemma RotatedFrom(cursor: nat, n: nat, i: nat)
    requires i < n
    ensures Rotated(cursor, n, i) == if cursor % n + i < n then cursor % n + i else cursor % n + i - n
  {
    var p, r := cursor / n, cursor % n;
    assert cursor == p * n + r;
    if r + i < n {
      RemainderIs(cursor + i, p, r + i, n);
    } else {
      assert (p + 1) * n == p * n + n;
      RemainderIs(cursor + i, p + 1, r + i - n, n);
    }
  }

  /** The rotation is fair: of any n consecutive selections over n replicas exactly one goes to each. */
  lemma RotationIsFair(cursor: nat, n: nat, k: nat) returns (i: nat)
    requires k < n
    ensures i < n && Rotated(cursor, n, i) == k
    ensures forall j :: 0 <= j < n && Rotated(cursor, n, j) == k ==> j == i
  {
    i := if k >= cursor % n then k - cursor % n else k - cursor % n + n;
    RotatedFrom(cursor, n, i);
    forall j | 0 <= j < n && Rotated(cursor, n, j) == k ensures j == i {
      RotatedFrom(cursor, n, j);
    }
  }

  class RoundRobinRouter {
    var cursor: nat

    constructor ()
      ensures cursor == 0
    {
      cursor := 0;
    }

    method Select(replicas: seq<Replica>) returns (r: Replica)
      requires replicas != []
      modifies this
      ensures r == replicas[old(cursor) % |replicas|] && cursor == old(cursor) + 1
    {
      r := replicas[cursor % |replicas|];
      cursor := cursor + 1;
    }
  }

  class SessionAffinityRouter {
    const hw: Hardware
    const queueLimit: nat
    const store: InMemorySessionStore
    var affinityHits: nat
    var affinityBreaks: nat

    constructor (hw: Hardware, queueLimit: nat, store: InMemorySessionStore)
      ensures this.hw == hw && this.queueLimit == queueLimit && this.store == store
      ensures affinityHits == 0 && affinityBreaks == 0
    {
      this.hw, this.queueLimit, this.store := hw, queueLimit, store;
      affinityHits, affinityBreaks := 0, 0;
    }

    ghost function View(): Affinity
      reads this, store
    {
      Affinity(store.home, affinityHits, affinityBreaks)
    }

    function TheLimits(): Limits {
      Limits(queueLimit, hw.gpuCap, store.maxSessions, store.ttlS)
    }

    method FindWarmHome(replicas: seq<Replica>, session: string, atGet: real) returns (h: Option<nat>)
      requires Unique(store.home)
      modifies store`home
      ensures Unique(store.home)
      ensures var (found, table) := Fetch(old(store.home), session, atGet);
              h == WarmHome(Views(replicas), found, session) && store.home == table
    {
      var found := store.GetHome(session, atGet);
      FetchFacts(old(store.home), session, atGet);
      h := None;
      if found.Some? && 0 <= found.value < |replicas| {
        var tier, _ := replicas[found.value].Lookup(session);
        if tier != MISS {
          h := Some(found.value);
        }
      }
    }

    // A home that still holds the session: served there, or beside it when the valve opens.
    method DispatchWarm(replicas: seq<Replica>, h: nat, session: string, now: real, ghost atPut: real,
                        ghost rs: seq<Spec.State>)
        returns (r: Replica)
      requires rs == Views(replicas) && Numbered(replicas, hw) && h < |replicas|
      modifies `affinityHits, `affinityBreaks
      ensures var (k, view) := Dispatch(TheLimits(), rs, old(View()), Some(h), session, now, atPut);
              r == replicas[k] && View() == view
    {
      var home := replicas[h];
      var inflight := Inflight(home);
      if inflight <= queueLimit {
        affinityHits := affinityHits + 1;
        r := home;
      } else {
        affinityBreaks := affinityBreaks + 1;
        r := PickLeastLoaded(replicas, hw, now, Some(home.id));
      }
    }

    // No home, or one that has lost the session: the least loaded replica becomes the home.
    method DispatchCold(replicas: seq<Replica>, session: string, now: real, atPut: real, ghost rs: seq<Spec.State>)
        returns (r: Replica)
      requires rs == Views(replicas) && Numbered(replicas, hw) && Unique(store.home)
      modifies store`home
      ensures var (k, view) := Dispatch(TheLimits(), rs, old(View()), None, session, now, atPut);
              r == replicas[k] && View() == view
    {
      r := PickLeastLoaded(replicas, hw, now, None);
      store.SetHome(session, r.id, atPut);
    }

    method DispatchTo(replicas: seq<Replica>, warm: Option<nat>, session: string, now: real, atPut: real,
                      ghost rs: seq<Spec.State>) returns (r: Replica)
      requires rs == Views(replicas)
      requires Numbered(replicas, hw) && Unique(store.home) && (warm.Some? ==> warm.value < |replicas|)
      modifies this, store`home
      ensures var (k, view) := Dispatch(TheLimits(), rs, old(View()), warm, session, now, atPut);
              r == replicas[k] && View() == view
    {
      if warm.Some? {
        r := DispatchWarm(replicas, warm.value, session, now, atPut, rs);
      } else {
        r := DispatchCold(replicas, session, now, atPut, rs);
      }
    }

    method Select(replicas: seq<Replica>, session: string, now: real, clock: Clock) returns (r: Replica)
      requires Numbered(replicas, hw) && Unique(store.home)
      modifies this, store`home
      ensures var (k, view) := Route(TheLimits(), old(Views(replicas)), old(View()), session, now, clock);
              r == replicas[k] && View() == view
    {
      ghost var rs := Views(replicas);
      var warm := FindWarmHome(replicas, session, clock.atGet);
      assert Views(replicas) == rs;
      r := DispatchTo(replicas, warm, session, now, clock.atPut, rs);
    }
  }
}
