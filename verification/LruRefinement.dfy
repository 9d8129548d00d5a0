// Under the LRU policy a replica is a move-to-front list that is cut from the tail. The dictionary
// is not kept in recency order (a refreshed key keeps its place) and the sort by last touch has to
// recover the order of service. It does so exactly when no tie gets in the way.
module LruRefinement {
  import opened Models
  import opened OrderedDict
  import opened Policy
  import Spec = ReplicaSpec
  import opened Backend

  // ---- The simple form -----------------------------------------------------------------

  function TokensOf(m: seq<Entry>): nat {
    if m == [] then 0 else m[0].tokens + TokensOf(m[1..])
  }

  function Kept(e: Entry, s: string): seq<Entry> {
    if e.session == s then [] else [e]
  }

  function Except(m: seq<Entry>, s: string): seq<Entry> {
    if m == [] then [] else Kept(m[0], s) + Except(m[1..], s)
  }

  // Drops from the tail until the rest fits.
  function Cut(cap: nat, m: seq<Entry>): (r: seq<Entry>)
    ensures |r| <= |m|
    decreases |m|
  {
    if m == [] || TokensOf(m) <= cap then m else Cut(cap, m[..|m| - 1])
  }

  function MoveToFront(cap: nat, m: seq<Entry>, e: Entry): seq<Entry> {
    Cut(cap, [e] + Except(m, e.session))
  }

  function Reverse(m: seq<Entry>): (r: seq<Entry>)
    ensures |r| == |m| && forall i :: 0 <= i < |m| ==> r[i] == m[|m| - 1 - i]
  {
    seq(|m|, i requires 0 <= i < |m| => m[|m| - 1 - i])
  }

  // The order in which a replica would give its GPU entries up: the clock plays no part under LRU.
  function Order(d: Dict<Entry>): seq<Entry> {
    Lru.VictimOrder(Values(d), 0.0)
  }

  /** The replica would give its entries up in the list's order, last first. */
  ghost predicate SameOrder(d: Dict<Entry>, m: seq<Entry>) {
    Order(d) == Reverse(m)
  }

  /** Nothing stored after the session's place was touched at time t. */
  ghost predicate NoLaterTie(d: Dict<Entry>, s: string, t: real) {
    forall j :: Index(d, s) < j < |d| ==> d[j].1.lastTouch != t
  }

  // ---- Lists ---------------------------------------------------------------------------

  lemma {:induction false} TokensOfConcat(a: seq<Entry>, b: seq<Entry>)
    ensures TokensOf(a + b) == TokensOf(a) + TokensOf(b)
  {
    if a == [] {
      assert a + b == b;
    } else {
      TokensOfConcat(a[1..], b);
      assert (a + b)[1..] == a[1..] + b;
    }
  }

  function Drop(m: seq<Entry>, i: nat): seq<Entry>
    requires i < |m|
  {
    m[..i] + m[i + 1..]
  }

  lemma Reassemble(m: seq<Entry>, i: nat)
    requires i < |m|
    ensures m == m[..i] + [m[i]] + m[i + 1..]
  {
  }

  lemma Around(m: seq<Entry>, a: seq<Entry>, e: Entry, b: seq<Entry>)
    requires m == a + [e] + b
    ensures multiset(a + b) == multiset(m) - multiset{e}
    ensures TokensOf(m) == TokensOf(a + b) + e.tokens
  {
    TokensOfConcat(a + [e], b);
    TokensOfConcat(a, [e]);
    TokensOfConcat(a, b);
  }

  lemma DropFacts(m: seq<Entry>, i: nat)
    requires i < |m|
    ensures multiset(Drop(m, i)) == multiset(m) - multiset{m[i]}
    ensures TokensOf(m) == TokensOf(Drop(m, i)) + m[i].tokens
  {
    Reassemble(m, i);
    Around(m, m[..i], m[i], m[i + 1..]);
  }

  lemma {:induction false} TokensOfPermutation(a: seq<Entry>, b: seq<Entry>)
    requires multiset(a) == multiset(b)
    ensures TokensOf(a) == TokensOf(b) && |a| == |b|
    decreases |a|
  {
    assert |multiset(a)| == |multiset(b)|;
    if a != [] {
      assert a[0] in multiset(b);
      var i :| 0 <= i < |b| && b[i] == a[0];
      DropFacts(a, 0);
      DropFacts(b, i);
      TokensOfPermutation(Drop(a, 0), Drop(b, i));
    }
  }

  lemma {:induction false} ExceptMembers(m: seq<Entry>, s: string)
    ensures forall e :: e in Except(m, s) <==> e in m && e.session != s
    ensures (forall e :: e in m ==> e.session != s) ==> Except(m, s) == m
  {
    if m != [] {
      ExceptMembers(m[1..], s);
      assert m == [m[0]] + m[1..];
    }
  }

  lemma ExceptCons(e: Entry, m: seq<Entry>, s: string)
    ensures Except([e] + m, s) == Kept(e, s) + Except(m, s)
    ensures e.session == s ==> Except([e] + m, s) == Except(m, s)
  {
    assert ([e] + m)[1..] == m;
  }

  lemma Associate(a: seq<Entry>, b: seq<Entry>, c: seq<Entry>)
    ensures (a + b) + c == a + (b + c)
  {
  }

  lemma {:induction false} ExceptConcat(a: seq<Entry>, b: seq<Entry>, s: string)
    ensures Except(a + b, s) == Except(a, s) + Except(b, s)
  {
    if a == [] {
      assert a + b == b;
    } else {
      ExceptConcat(a[1..], b, s);
      ExceptCons(a[0], a[1..] + b, s);
      assert a + b == [a[0]] + (a[1..] + b);
      Associate(Kept(a[0], s), Except(a[1..], s), Except(b, s));
    }
  }

  lemma ReverseStep(m: seq<Entry>)
    requires m != []
    ensures Reverse(m)[0] == m[|m| - 1] && Reverse(m)[1..] == Reverse(m[..|m| - 1])
  {
  }

  lemma ReverseAppend(m: seq<Entry>, x: seq<Entry>)
    requires |x| <= 1
    ensures Reverse(m + x) == x + Reverse(m)
  {
  }

  lemma {:induction false} ReverseExcept(m: seq<Entry>, s: string)
    ensures Reverse(Except(m, s)) == Except(Reverse(m), s)
    decreases |m|
  {
    if m != [] {
      var front, x := m[..|m| - 1], m[|m| - 1];
      assert m == front + [x];
      ExceptConcat(front, [x], s);
      ReverseExcept(front, s);
      ReverseAppend(front, [x]);
      ReverseAppend(Except(front, s), Kept(x, s));
      ExceptCons(x, [], s);
      assert Kept(x, s) + [] == Kept(x, s) && [x] + [] == [x];
      ExceptCons(x, Reverse(front), s);
    }
  }

  lemma ReverseFront(e: Entry, m: seq<Entry>)
    ensures Reverse([e] + m) == Reverse(m) + [e]
  {
  }

  lemma ReverseInjective(m: seq<Entry>, r: seq<Entry>)
    requires Reverse(m) == Reverse(r)
    ensures m == r
  {
    assert forall i :: 0 <= i < |m| ==> Reverse(m)[|m| - 1 - i] == m[i] && Reverse(r)[|r| - 1 - i] == r[i];
  }

  // ---- The sort ------------------------------------------------------------------------

  // Leaving a session out commutes with sorting.
  lemma {:induction false} ExceptInsert(e: Entry, ys: seq<Entry>, s: string)
    requires Lru.Sorted(ys, 0.0)
    ensures Except(Lru.Insert(e, ys, 0.0), s)
         == if e.session == s then Except(ys, s) else Lru.Insert(e, Except(ys, s), 0.0)
  {
    if ys == [] || !Lru.Before(ys[0], e, 0.0) {
      ExceptCons(e, ys, s);
      ExceptMembers(ys, s);
      var kept := Except(ys, s);
      if kept != [] {
        assert kept[0] in ys;
      }
    } else {
      ExceptInsert(e, ys[1..], s);
      ExceptCons(ys[0], Lru.Insert(e, ys[1..], 0.0), s);
      ExceptCons(ys[0], ys[1..], s);
      assert ys == [ys[0]] + ys[1..];
      assert ([ys[0]] + Except(ys[1..], s))[1..] == Except(ys[1..], s);
    }
  }

  lemma {:induction false} ExceptOrder(xs: seq<Entry>, s: string)
    ensures Except(Lru.VictimOrder(xs, 0.0), s) == Lru.VictimOrder(Except(xs, s), 0.0)
  {
    if xs != [] {
      ExceptOrder(xs[1..], s);
      Lru.VictimOrderIsStableSort(xs[1..], 0.0);
      ExceptInsert(xs[0], Lru.VictimOrder(xs[1..], 0.0), s);
      ExceptCons(xs[0], xs[1..], s);
      assert xs == [xs[0]] + xs[1..];
      assert ([xs[0]] + Except(xs[1..], s))[1..] == Except(xs[1..], s);
    }
  }

  lemma {:induction false} ClockIsIdle(xs: seq<Entry>, now: real)
    ensures Lru.VictimOrder(xs, now) == Lru.VictimOrder(xs, 0.0)
  {
    if xs != [] {
      ClockIsIdle(xs[1..], now);
      InsertClock(xs[0], Lru.VictimOrder(xs[1..], 0.0), now);
    }
  }

  lemma {:induction false} InsertClock(e: Entry, ys: seq<Entry>, now: real)
    ensures Lru.Insert(e, ys, now) == Lru.Insert(e, ys, 0.0)
  {
    if ys != [] {
      InsertClock(e, ys[1..], now);
    }
  }

  lemma {:induction false} InsertBeforeLast(x: Entry, ys: seq<Entry>, e: Entry)
    requires x.lastTouch <= e.lastTouch
    ensures Lru.Insert(x, ys + [e], 0.0) == Lru.Insert(x, ys, 0.0) + [e]
  {
    if ys != [] && Lru.Before(ys[0], x, 0.0) {
      InsertBeforeLast(x, ys[1..], e);
      assert (ys + [e])[1..] == ys[1..] + [e];
    }
  }

  lemma {:induction false} InsertAfterAll(e: Entry, ys: seq<Entry>)
    requires forall y :: y in ys ==> y.lastTouch < e.lastTouch
    ensures Lru.Insert(e, ys, 0.0) == ys + [e]
  {
    if ys != [] {
      InsertAfterAll(e, ys[1..]);
    }
  }

  lemma OrderMembers(xs: seq<Entry>)
    ensures forall e :: e in Lru.VictimOrder(xs, 0.0) <==> e in xs
    ensures TokensOf(Lru.VictimOrder(xs, 0.0)) == TokensOf(xs) && |Lru.VictimOrder(xs, 0.0)| == |xs|
  {
    var order := Lru.VictimOrder(xs, 0.0);
    Lru.VictimOrderIsStableSort(xs, 0.0);
    TokensOfPermutation(order, xs);
    forall e ensures e in order <==> e in xs {
      assert e in order <==> e in multiset(order);
      assert e in xs <==> e in multiset(xs);
    }
  }

  // The latest entry is given up last, if nothing behind it ties with it.
  lemma {:induction false} LatestIsLast(a: seq<Entry>, e: Entry, b: seq<Entry>)
    requires forall x :: x in a ==> x.lastTouch <= e.lastTouch
    requires forall x :: x in b ==> x.lastTouch < e.lastTouch
    ensures Lru.VictimOrder(a + [e] + b, 0.0) == Lru.VictimOrder(a + b, 0.0) + [e]
  {
    if a == [] {
      assert a + [e] + b == [e] + b && ([e] + b)[1..] == b && a + b == b;
      OrderMembers(b);
      InsertAfterAll(e, Lru.VictimOrder(b, 0.0));
    } else {
      LatestIsLast(a[1..], e, b);
      assert (a + [e] + b)[1..] == a[1..] + [e] + b && (a + b)[1..] == a[1..] + b;
      InsertBeforeLast(a[0], Lru.VictimOrder(a[1..] + b, 0.0), e);
    }
  }

  lemma {:induction false} TiedConcat(e: Entry, a: seq<Entry>, b: seq<Entry>)
    ensures Lru.Tied(e, a + b, 0.0) == Lru.Tied(e, a, 0.0) + Lru.Tied(e, b, 0.0)
  {
    if a == [] {
      assert a + b == b;
    } else {
      TiedConcat(e, a[1..], b);
      assert (a + b)[1..] == a[1..] + b;
    }
  }

  lemma {:induction false} TiedMembers(e: Entry, b: seq<Entry>)
    ensures forall x :: x in Lru.Tied(e, b, 0.0) <==> x in b && x.lastTouch == e.lastTouch
  {
    if b != [] {
      TiedMembers(e, b[1..]);
      assert b == [b[0]] + b[1..];
    }
  }

  lemma TiesEnd(e: Entry, order: seq<Entry>)
    requires order != [] && order[|order| - 1] == e
    ensures var ties := Lru.Tied(e, order, 0.0); ties != [] && ties[|ties| - 1] == e
  {
    var front := order[..|order| - 1];
    assert order == front + [e];
    TiedConcat(e, front, [e]);
    assert Lru.Tied(e, [e], 0.0) == [e];
  }

  // If something behind it does, it is not.
  lemma TiedIsNotLast(a: seq<Entry>, e: Entry, b: seq<Entry>, y: Entry, order: seq<Entry>)
    requires e !in b && y in b && y.lastTouch == e.lastTouch && order == Lru.VictimOrder(a + [e] + b, 0.0)
    ensures order != [] && order[|order| - 1] != e
  {
    Lru.VictimOrderIsStableSort(a + [e] + b, 0.0);
    TiedConcat(e, a + [e], b);
    TiedMembers(e, b);
    var ties := Lru.Tied(e, b, 0.0);
    assert y in ties && ties[|ties| - 1] in ties;
    if order[|order| - 1] == e {
      TiesEnd(e, order);
      assert false;
    }
  }

  // ---- Dictionaries --------------------------------------------------------------------

  lemma {:induction false} TokensValues(d: Dict<Entry>)
    ensures Spec.Tokens(d) == TokensOf(Values(d))
  {
    if d != [] {
      TokensValues(d[1..]);
      assert Values(d)[1..] == Values(d[1..]);
    }
  }

  lemma ValuesConcat(a: Dict<Entry>, b: Dict<Entry>)
    ensures Values(a + b) == Values(a) + Values(b)
  {
  }

  // The values stored before and after a session's place.
  function Ahead(d: Dict<Entry>, s: string): seq<Entry> {
    Values(d[..Index(d, s)])
  }

  function Behind(d: Dict<Entry>, s: string): seq<Entry> {
    if Has(d, s) then Values(d[Index(d, s) + 1..]) else []
  }

  lemma PutBetween(d: Dict<Entry>, s: string, e: Entry)
    ensures Values(Put(d, s, e)) == Ahead(d, s) + [e] + Behind(d, s)
    ensures Values(Pop(d, s)) == Ahead(d, s) + Behind(d, s)
  {
    var i := Index(d, s);
    if i < |d| {
      ValuesConcat(d[..i] + [(s, e)], d[i + 1..]);
      ValuesConcat(d[..i], [(s, e)]);
      ValuesConcat(d[..i], d[i + 1..]);
      assert Put(d, s, e) == d[..i] + [(s, e)] + d[i + 1..];
      assert Values([(s, e)]) == [e];
    } else {
      ValuesConcat(d, [(s, e)]);
      assert d[..i] == d && Ahead(d, s) + [] == Ahead(d, s);
    }
  }

  lemma EntryAt(d: Dict<Entry>, s: string, j: nat)
    requires Unique(d) && Spec.KeysMatch(d) && j < |d| && j != Index(d, s)
    ensures d[j].1.session != s && (d[j].1.session, d[j].1) in d
  {
    assert d[j] in d;
    if d[j].0 == s {
      HasAt(d, j);
    }
  }

  lemma AheadMember(d: Dict<Entry>, s: string, x: Entry)
    requires Unique(d) && Spec.KeysMatch(d) && x in Ahead(d, s)
    ensures x.session != s && (x.session, x) in d
  {
    var j :| 0 <= j < Index(d, s) && d[j].1 == x;
    EntryAt(d, s, j);
  }

  lemma BehindMember(d: Dict<Entry>, s: string, x: Entry) returns (j: nat)
    requires Unique(d) && Spec.KeysMatch(d) && x in Behind(d, s)
    ensures Index(d, s) < j < |d| && d[j].1 == x
    ensures x.session != s && (x.session, x) in d
  {
    var k :| 0 <= k < |Behind(d, s)| && Behind(d, s)[k] == x;
    j := Index(d, s) + 1 + k;
    EntryAt(d, s, j);
  }

  lemma BehindMembers(d: Dict<Entry>, s: string)
    requires Unique(d) && Spec.KeysMatch(d)
    ensures forall x :: x in Ahead(d, s) || x in Behind(d, s) ==> x.session != s && (x.session, x) in d
    ensures forall x :: x in Behind(d, s) ==>
              exists j :: Index(d, s) < j < |d| && d[j].1 == x
    ensures forall j :: Index(d, s) < j < |d| ==> d[j].1 in Behind(d, s)
  {
    var i := Index(d, s);
    forall x | x in Ahead(d, s) ensures x.session != s && (x.session, x) in d {
      AheadMember(d, s, x);
    }
    forall x | x in Behind(d, s)
      ensures x.session != s && (x.session, x) in d
      ensures exists j :: i < j < |d| && d[j].1 == x
    {
      var j := BehindMember(d, s, x);
    }
    forall j | i < j < |d| ensures d[j].1 in Behind(d, s) {
      assert Behind(d, s)[j - i - 1] == d[j].1;
    }
  }

  lemma PopExcept(d: Dict<Entry>, s: string)
    requires Unique(d) && Spec.KeysMatch(d)
    ensures Values(Pop(d, s)) == Except(Values(d), s)
  {
    var i, a, b := Index(d, s), Ahead(d, s), Behind(d, s);
    BehindMembers(d, s);
    ExceptMembers(a, s);
    ExceptMembers(b, s);
    if i < |d| {
      var e := d[i].1;
      PutBetween(d, s, e);
      assert d[i] in d && Put(d, s, e) == d;
      ExceptConcat(a + [e], b, s);
      ExceptConcat(a, [e], s);
      assert Except([e], s) == [] && a + [] == a;
    } else {
      assert d[..i] == d;
    }
  }

  lemma OrderPop(d: Dict<Entry>, m: seq<Entry>, s: string)
    requires Unique(d) && Spec.KeysMatch(d) && SameOrder(d, m)
    ensures SameOrder(Pop(d, s), Except(m, s))
  {
    PopExcept(d, s);
    ExceptOrder(Values(d), s);
    ReverseExcept(m, s);
  }

  /** Serving a session moves it to the front of the order if and only if no tie keeps it back. */
  lemma OrderPut(d: Dict<Entry>, m: seq<Entry>, e: Entry)
    requires Unique(d) && Spec.KeysMatch(d) && SameOrder(d, m)
    requires forall p :: p in d ==> p.1.lastTouch <= e.lastTouch
    ensures SameOrder(Put(d, e.session, e), [e] + Except(m, e.session)) <==> NoLaterTie(d, e.session, e.lastTouch)
  {
    var s := e.session;
    var a, b := Ahead(d, s), Behind(d, s);
    OrderPop(d, m, s);
    PutBetween(d, s, e);
    BehindMembers(d, s);
    ReverseFront(e, Except(m, s));
    if NoLaterTie(d, s, e.lastTouch) {
      LatestIsLast(a, e, b);
    } else {
      var j :| Index(d, s) < j < |d| && d[j].1.lastTouch == e.lastTouch;
      TiedIsNotLast(a, e, b, d[j].1, Order(Put(d, s, e)));
    }
  }

  lemma ReverseMembers(m: seq<Entry>)
    ensures forall e :: e in Reverse(m) <==> e in m
  {
    var r := Reverse(m);
    assert forall i :: 0 <= i < |m| ==> m[i] == r[|m| - 1 - i];
  }

  ghost predicate Distinct(m: seq<Entry>) {
    forall i, j :: 0 <= i < j < |m| ==> m[i].session != m[j].session
  }

  lemma ReverseDistinct(m: seq<Entry>)
    requires Distinct(Reverse(m))
    ensures Distinct(m)
  {
    var r := Reverse(m);
    assert forall i :: 0 <= i < |m| ==> m[i] == r[|m| - 1 - i];
  }

  lemma ListsDistinct(d: Dict<Entry>)
    requires Unique(d) && Spec.KeysMatch(d)
    ensures Distinct(Order(d))
    ensures forall e :: e in Order(d) <==> (e.session, e) in d
  {
    Spec.OrderLists(Lru, d, 0.0);
    forall e | e in Order(d) ensures (e.session, e) in d {
      var i :| 0 <= i < |Order(d)| && Order(d)[i] == e;
    }
  }

  // What the list says of the dictionary.
  lemma OrderFacts(d: Dict<Entry>, m: seq<Entry>)
    requires Unique(d) && Spec.KeysMatch(d) && SameOrder(d, m)
    ensures Distinct(m) && forall e :: e in m <==> (e.session, e) in d
    ensures Spec.Tokens(d) == TokensOf(m) && |m| == |d|
  {
    ListsDistinct(d);
    ReverseDistinct(m);
    ReverseMembers(m);
    OrderMembers(Values(d));
    TokensValues(d);
    ReverseTokens(m);
  }

  lemma {:induction false} ReverseTokens(m: seq<Entry>)
    ensures TokensOf(Reverse(m)) == TokensOf(m)
    decreases |m|
  {
    if m != [] {
      var front, x := m[..|m| - 1], m[|m| - 1];
      ReverseStep(m);
      ReverseTokens(front);
      TokensOfConcat(front, [x]);
      assert m == front + [x];
    }
  }

  // ---- Eviction ------------------------------------------------------------------------

  lemma {:induction false} CutPrefix(cap: nat, m: seq<Entry>)
    ensures Cut(cap, m) <= m
    ensures m != [] && m[0].tokens <= cap ==> Cut(cap, m) != []
    decreases |m|
  {
    if m != [] && TokensOf(m) > cap {
      CutPrefix(cap, m[..|m| - 1]);
      assert TokensOf(m[1..]) >= 0;
      assert |m| == 1 ==> TokensOf(m) == m[0].tokens;
      assert |m| > 1 ==> m[..|m| - 1][0] == m[0];
    }
  }

  lemma ExceptLast(m: seq<Entry>)
    requires m != [] && Distinct(m)
    ensures Except(m, m[|m| - 1].session) == m[..|m| - 1]
  {
    var front, e := m[..|m| - 1], m[|m| - 1];
    assert m == front + [e];
    ExceptConcat(front, [e], e.session);
    ExceptMembers(front, e.session);
    assert Except([e], e.session) == [] && front + [] == front;
  }

  lemma PopLast(d: Dict<Entry>, m: seq<Entry>)
    requires Unique(d) && Spec.KeysMatch(d) && SameOrder(d, m) && m != []
    ensures var d1 := Pop(d, m[|m| - 1].session);
            Unique(d1) && Spec.KeysMatch(d1) && SameOrder(d1, m[..|m| - 1])
  {
    var s := m[|m| - 1].session;
    OrderFacts(d, m);
    OrderPop(d, m, s);
    ExceptLast(m);
    PopFacts(d, s);
  }

  // Giving up the last of the list.
  lemma GiveUpLast(hw: Hardware, st: Spec.State, m: seq<Entry>)
    requires Unique(st.gpu) && Spec.KeysMatch(st.gpu) && SameOrder(st.gpu, m) && m != []
    ensures var last := |m| - 1;
            var st1 := Spec.GiveUp(Lru, hw, st, m[last]);
            && Unique(st1.gpu) && Spec.KeysMatch(st1.gpu) && SameOrder(st1.gpu, m[..last])
            && st1 == st.(gpu := st1.gpu, evictions := st.evictions + 1)
  {
    PopLast(st.gpu, m);
  }

  lemma {:induction false} ShedIsCut(hw: Hardware, st: Spec.State, m: seq<Entry>)
    requires Unique(st.gpu) && Spec.KeysMatch(st.gpu) && SameOrder(st.gpu, m)
    ensures var st', m' := Spec.Shed(Lru, hw, st, Reverse(m)), Cut(hw.gpuCap, m);
            && SameOrder(st'.gpu, m')
            && st' == st.(gpu := st'.gpu, evictions := st.evictions + (|m| - |m'|))
    decreases |m|
  {
    OrderFacts(st.gpu, m);
    if m != [] && TokensOf(m) > hw.gpuCap {
      GiveUpLast(hw, st, m);
      ReverseStep(m);
      ShedIsCut(hw, Spec.GiveUp(Lru, hw, st, m[|m| - 1]), m[..|m| - 1]);
    }
  }

  // Eviction on the replica cuts the list.
  lemma EnforceIsCut(hw: Hardware, st: Spec.State, m: seq<Entry>, now: real)
    requires Spec.TwoTier(st) && st.dram == [] && SameOrder(st.gpu, m)
    ensures var st', m' := Spec.EnforceCapacity(Lru, hw, st, now), Cut(hw.gpuCap, m);
            && SameOrder(st'.gpu, m')
            && st' == st.(gpu := st'.gpu, evictions := st.evictions + (|m| - |m'|))
  {
    OrderFacts(st.gpu, m);
    if Spec.Tokens(st.gpu) > hw.gpuCap {
      ClockIsIdle(Values(st.gpu), now);
      ShedIsCut(hw, st, m);
      Spec.TrimDone(hw, Spec.Shed(Lru, hw, st, Reverse(m)));
    }
  }

  // ---- The reference machine -----------------------------------------------------------

  /** A move-to-front cache with one queue and an eviction counter. */
  datatype List = List(m: seq<Entry>, freeAt: real, evictions: nat)

  function Position(m: seq<Entry>, s: string): (i: nat)
    ensures i <= |m| && (i < |m| ==> m[i].session == s)
    ensures forall j :: 0 <= j < i ==> m[j].session != s
  {
    if m == [] || m[0].session == s then 0
    else
      var i := Position(m[1..], s);
      assert forall j :: 1 <= j < i + 1 ==> m[j] == m[1..][j - 1];
      i + 1
  }

  // A hit costs only the new tokens; served entries go to the front.
  function Quote(hw: Hardware, l: List, req: Request): RequestResult {
    var i := Position(l.m, req.session);
    if i < |l.m| then Price(hw, 0, req, GPU, l.m[i].tokens, l.freeAt) else Price(hw, 0, req, MISS, 0, l.freeAt)
  }

  // The entry the reference machine puts in front.
  function Front(hw: Hardware, l: List, req: Request): Entry {
    Entry(req.session, req.prompt + req.output, Max(l.freeAt, req.now) + Quote(hw, l, req).ServiceMs(),
          req.predictedReturn)
  }

  function Step(hw: Hardware, l: List, req: Request): List {
    var e := Front(hw, l, req);
    var m' := MoveToFront(hw.gpuCap, l.m, e);
    List(m', e.lastTouch, l.evictions + (|[e] + Except(l.m, req.session)| - |m'|))
  }

  function Run(hw: Hardware, reqs: seq<Request>): List {
    if reqs == [] then List([], 0.0, 0) else Step(hw, Run(hw, reqs[..|reqs| - 1]), reqs[|reqs| - 1])
  }

  function ReplicaRun(policy: CachePolicy, hw: Hardware, reqs: seq<Request>): Spec.State {
    if reqs == [] then Spec.EMPTY
    else After(policy, hw, ReplicaRun(policy, hw, reqs[..|reqs| - 1]), reqs[|reqs| - 1])
  }

  /** The replica gives up what the list gives up, is free when it is and has evicted as often. */
  ghost predicate Tracks(st: Spec.State, l: List) {
    SameOrder(st.gpu, l.m) && st.freeAt == l.freeAt && st.evictions == l.evictions
  }

  // What every replica is under LRU, whatever it serves.
  ghost predicate Plain(hw: Hardware, st: Spec.State) {
    && Spec.TwoTier(st) && st.dram == [] && Spec.Tokens(st.gpu) <= hw.gpuCap
    && forall p :: p in st.gpu ==> p.1.lastTouch <= st.freeAt
  }

  // ---- One request ---------------------------------------------------------------------

  lemma TrackedLookup(st: Spec.State, m: seq<Entry>, s: string)
    requires Spec.TwoTier(st) && st.dram == [] && SameOrder(st.gpu, m)
    ensures var i := Position(m, s);
            Spec.Lookup(st, s) == if i < |m| then (GPU, m[i].tokens) else (MISS, 0)
  {
    var i := Position(m, s);
    OrderFacts(st.gpu, m);
    if Has(st.gpu, s) {
      assert st.gpu[Index(st.gpu, s)] in st.gpu;
      assert Get(st.gpu, s) in m && i < |m|;
    }
    if i < |m| {
      assert m[i] in m;
      HasIn(st.gpu, (s, m[i]));
    }
  }

  // Both machines price the request alike, so they leave the same entry.
  lemma QuoteAgrees(hw: Hardware, st: Spec.State, l: List, req: Request)
    requires hw.Valid() && Plain(hw, st) && Tracks(st, l)
    ensures Leaves(hw, st, req) == Front(hw, l, req)
    ensures Charge(hw, st, req) == st.(freeAt := Front(hw, l, req).lastTouch)
    ensures Front(hw, l, req).lastTouch >= st.freeAt
  {
    TrackedLookup(st, l.m, req.session);
    ExecuteTiming(Lru, hw, 0, st, req);
  }

  lemma PlainInstall(hw: Hardware, st: Spec.State, e: Entry)
    requires Plain(hw, st) && e.lastTouch >= st.freeAt
    ensures var full := Spec.Install(st, e);
            && full == st.(gpu := Put(st.gpu, e.session, e)) && Spec.TwoTier(full)
            && forall p :: p in full.gpu ==> p.1.lastTouch <= e.lastTouch
  {
    Spec.InstallFacts(hw, st, e);
  }

  lemma PlainStore(hw: Hardware, st: Spec.State, e: Entry)
    requires Plain(hw, st) && e.lastTouch == st.freeAt
    ensures Plain(hw, Spec.Store(Lru, hw, st, e)) && Spec.Store(Lru, hw, st, e).freeAt == st.freeAt
  {
    var st', full := Spec.Store(Lru, hw, st, e), Spec.Install(st, e);
    PlainInstall(hw, st, e);
    Spec.StoreKeepsTwoTier(Lru, hw, st, e);
    ListIsOrder(full.gpu);
    EnforceIsCut(hw, full, Reverse(Order(full.gpu)), e.lastTouch);
    forall p | p in st'.gpu ensures p.1.lastTouch <= e.lastTouch {
      assert st'.Caches(p.1);
    }
  }

  lemma ListIsOrder(d: Dict<Entry>)
    ensures SameOrder(d, Reverse(Order(d)))
  {
    var order := Order(d);
    assert Reverse(Reverse(order)) == order;
  }

  lemma TiedBehind(d: Dict<Entry>, e: Entry)
    requires Unique(d) && Spec.KeysMatch(d) && !NoLaterTie(d, e.session, e.lastTouch)
    ensures var order := Order(Put(d, e.session, e)); order != [] && order[|order| - 1] != e
  {
    var s := e.session;
    PutBetween(d, s, e);
    BehindMembers(d, s);
    var j :| Index(d, s) < j < |d| && d[j].1.lastTouch == e.lastTouch;
    TiedIsNotLast(Ahead(d, s), e, Behind(d, s), d[j].1, Order(Put(d, s, e)));
  }

  lemma FitsAlone(d: Dict<Entry>, e: Entry)
    requires Unique(d) && (e.session, e) in d
    ensures e.tokens <= Spec.Tokens(d)
  {
    HasIn(d, (e.session, e));
    Spec.TokensPop(d, e.session);
  }

  // Whoever is last in the order and is not the one just served has room to stay.
  lemma LastStays(cap: nat, d: Dict<Entry>, e: Entry, r: seq<Entry>)
    requires Unique(d) && Spec.KeysMatch(d) && Spec.Tokens(d) <= cap
    requires SameOrder(Put(d, e.session, e), r) && r != [] && r[0] != e
    ensures Cut(cap, r) != [] && Cut(cap, r)[0] != e
  {
    PutFacts(d, e.session, e);
    OrderFacts(Put(d, e.session, e), r);
    assert r[0] in r;
    FitsAlone(d, r[0]);
    CutPrefix(cap, r);
  }

  /** One store: the two orders stay the same if and only if nothing stored behind the session was
      touched at the very moment the request completes. */
  lemma StoreTracks(hw: Hardware, st: Spec.State, m: seq<Entry>, e: Entry)
    requires Plain(hw, st) && SameOrder(st.gpu, m) && e.lastTouch >= st.freeAt
    ensures var st', m' := Spec.Store(Lru, hw, st, e), MoveToFront(hw.gpuCap, m, e);
            && (SameOrder(st'.gpu, m') <==> NoLaterTie(st.gpu, e.session, e.lastTouch))
            && (SameOrder(st'.gpu, m') ==>
                  st'.evictions == st.evictions + (|[e] + Except(m, e.session)| - |m'|))
  {
    var full, m1 := Spec.Install(st, e), [e] + Except(m, e.session);
    PlainInstall(hw, st, e);
    OrderPut(st.gpu, m, e);
    if NoLaterTie(st.gpu, e.session, e.lastTouch) {
      EnforceIsCut(hw, full, m1, e.lastTouch);
    } else {
      var r := Reverse(Order(full.gpu));
      TiedBehind(st.gpu, e);
      ListIsOrder(full.gpu);
      EnforceIsCut(hw, full, r, e.lastTouch);
      LastStays(hw.gpuCap, st.gpu, e, r);
      CutPrefix(hw.gpuCap, m1);
      if SameOrder(Spec.Store(Lru, hw, st, e).gpu, Cut(hw.gpuCap, m1)) {
        ReverseInjective(Cut(hw.gpuCap, r), Cut(hw.gpuCap, m1));
        assert false;
      }
    }
  }

  // When the request completes, before it is made.
  function Completes(hw: Hardware, st: Spec.State, req: Request): real {
    Leaves(hw, st, req).lastTouch
  }

  lemma StepTracks(hw: Hardware, st: Spec.State, l: List, req: Request)
    requires hw.Valid() && Plain(hw, st) && Tracks(st, l)
    ensures Tracks(After(Lru, hw, st, req), Step(hw, l, req))
       <==> NoLaterTie(st.gpu, req.session, Completes(hw, st, req))
  {
    var e := Front(hw, l, req);
    QuoteAgrees(hw, st, l, req);
    StoreTracks(hw, st.(freeAt := e.lastTouch), l.m, e);
    PlainStore(hw, st.(freeAt := e.lastTouch), e);
  }

  // ---- Runs ----------------------------------------------------------------------------

  lemma {:induction false} AlwaysPlain(hw: Hardware, reqs: seq<Request>)
    requires hw.Valid()
    ensures Plain(hw, ReplicaRun(Lru, hw, reqs))
    decreases |reqs|
  {
    if reqs != [] {
      var front, req := reqs[..|reqs| - 1], reqs[|reqs| - 1];
      var st := ReplicaRun(Lru, hw, front);
      AlwaysPlain(hw, front);
      ExecuteTiming(Lru, hw, 0, st, req);
      PlainStore(hw, Charge(hw, st, req), Leaves(hw, st, req));
    }
  }

  ghost predicate TracksAt(hw: Hardware, reqs: seq<Request>, i: nat)
    requires i <= |reqs|
  {
    Tracks(ReplicaRun(Lru, hw, reqs[..i]), Run(hw, reqs[..i]))
  }

  ghost predicate UntiedAt(hw: Hardware, reqs: seq<Request>, i: nat)
    requires i < |reqs|
  {
    var st := ReplicaRun(Lru, hw, reqs[..i]);
    NoLaterTie(st.gpu, reqs[i].session, Completes(hw, st, reqs[i]))
  }

  // No request of the run completes at the moment of an earlier touch that is stored behind it.
  ghost predicate Untied(hw: Hardware, reqs: seq<Request>) {
    forall i :: 0 <= i < |reqs| ==> UntiedAt(hw, reqs, i)
  }

  lemma TracksOn(hw: Hardware, reqs: seq<Request>, i: nat)
    requires hw.Valid() && i < |reqs| && TracksAt(hw, reqs, i)
    ensures TracksAt(hw, reqs, i + 1) <==> UntiedAt(hw, reqs, i)
  {
    AlwaysPlain(hw, reqs[..i]);
    StepTracks(hw, ReplicaRun(Lru, hw, reqs[..i]), Run(hw, reqs[..i]), reqs[i]);
    assert reqs[..i + 1][..i] == reqs[..i];
  }

  lemma {:induction false} UntiedTracks(hw: Hardware, reqs: seq<Request>, i: nat)
    requires hw.Valid() && Untied(hw, reqs) && i <= |reqs|
    ensures TracksAt(hw, reqs, i)
  {
    if i > 0 {
      UntiedTracks(hw, reqs, i - 1);
      assert UntiedAt(hw, reqs, i - 1);
      TracksOn(hw, reqs, i - 1);
    }
  }

  /** LRU refinement, exactly: a replica under LRU is the move-to-front list at every point of a run,
      in what it would give up, when it is free and how often it has evicted, if and only if no request
      ties with a touch stored behind it. */
  lemma LruIsMoveToFront(hw: Hardware, reqs: seq<Request>)
    requires hw.Valid()
    ensures (forall i :: 0 <= i <= |reqs| ==> TracksAt(hw, reqs, i)) <==> Untied(hw, reqs)
  {
    if Untied(hw, reqs) {
      forall i | 0 <= i <= |reqs| ensures TracksAt(hw, reqs, i) {
        UntiedTracks(hw, reqs, i);
      }
    }
    if forall i :: 0 <= i <= |reqs| ==> TracksAt(hw, reqs, i) {
      forall i | 0 <= i < |reqs| ensures UntiedAt(hw, reqs, i) {
        assert TracksAt(hw, reqs, i) && TracksAt(hw, reqs, i + 1);
        TracksOn(hw, reqs, i);
      }
    }
  }

  /** So an untied replica answers every lookup as the list does, and never uses its DRAM. */
  lemma LruLooksUpAsList(hw: Hardware, reqs: seq<Request>, s: string)
    requires hw.Valid() && Untied(hw, reqs)
    ensures var m := Run(hw, reqs).m;
            var i := Position(m, s);
            Spec.Lookup(ReplicaRun(Lru, hw, reqs), s) == if i < |m| then (GPU, m[i].tokens) else (MISS, 0)
    ensures ReplicaRun(Lru, hw, reqs).dram == []
    ensures ReplicaRun(Lru, hw, reqs).evictions == Run(hw, reqs).evictions
  {
    AlwaysPlain(hw, reqs);
    UntiedTracks(hw, reqs, |reqs|);
    assert reqs[..|reqs|] == reqs;
    TrackedLookup(ReplicaRun(Lru, hw, reqs), Run(hw, reqs).m, s);
  }

  // ---- What a tie takes ----------------------------------------------------------------

  /** Seen on the replica and the request: it takes no time, because nothing is to be computed, and it
      reaches a busy replica on which something stored behind the session was served last. */
  ghost predicate FreeBehind(st: Spec.State, req: Request) {
    && req.output == 0 && req.now <= st.freeAt
    && Has(st.gpu, req.session) && req.prompt <= Get(st.gpu, req.session).tokens
    && exists j :: Index(st.gpu, req.session) < j < |st.gpu| && st.gpu[j].1.lastTouch == st.freeAt
  }

  lemma Scaled(n: nat, rate: real)
    requires rate > 0.0
    ensures n as real * rate >= 0.0 && (n as real * rate == 0.0 <==> n == 0)
  {
  }

  // A request completes at the moment the replica becomes free anyway exactly when it has no work to do.
  lemma FreeOfCharge(hw: Hardware, st: Spec.State, req: Request)
    requires hw.Valid() && st.dram == []
    ensures Completes(hw, st, req) >= st.freeAt
    ensures Completes(hw, st, req) == st.freeAt
       <==> req.output == 0 && req.now <= st.freeAt
            && req.prompt <= (if Has(st.gpu, req.session) then Get(st.gpu, req.session).tokens else 0)
  {
    var r := Outcome(hw, 0, st, req);
    ExecuteTiming(Lru, hw, 0, st, req);
    Scaled(r.computed, hw.prefillMs);
    Scaled(req.output, hw.decodeMs);
  }

  /** The guard of the refinement, read off before the call. */
  lemma TieIsFreeBehind(hw: Hardware, st: Spec.State, req: Request)
    requires hw.Valid() && Plain(hw, st)
    ensures NoLaterTie(st.gpu, req.session, Completes(hw, st, req)) <==> !FreeBehind(st, req)
  {
    var i, done := Index(st.gpu, req.session), Completes(hw, st, req);
    FreeOfCharge(hw, st, req);
    forall j | i < j < |st.gpu| ensures st.gpu[j].1.lastTouch <= st.freeAt {
      assert st.gpu[j] in st.gpu;
    }
    if done > st.freeAt {
      assert NoLaterTie(st.gpu, req.session, done);
    }
  }

  ghost predicate FreeBehindAt(hw: Hardware, reqs: seq<Request>, i: nat)
    requires i < |reqs|
  {
    FreeBehind(ReplicaRun(Lru, hw, reqs[..i]), reqs[i])
  }

  /** So a run is untied exactly when no request is free of charge behind the one served last. */
  lemma UntiedIsNeverFreeBehind(hw: Hardware, reqs: seq<Request>)
    requires hw.Valid()
    ensures Untied(hw, reqs) <==> forall i :: 0 <= i < |reqs| ==> !FreeBehindAt(hw, reqs, i)
  {
    forall i | 0 <= i < |reqs| ensures UntiedAt(hw, reqs, i) <==> !FreeBehindAt(hw, reqs, i) {
      AlwaysPlain(hw, reqs[..i]);
      TieIsFreeBehind(hw, ReplicaRun(Lru, hw, reqs[..i]), reqs[i]);
    }
  }

  /** Which makes the refinement exact in terms a caller can check. */
  lemma LruUnlessFreeBehind(hw: Hardware, reqs: seq<Request>)
    requires hw.Valid()
    ensures (forall i :: 0 <= i <= |reqs| ==> TracksAt(hw, reqs, i))
       <==> (forall i :: 0 <= i < |reqs| ==> !FreeBehindAt(hw, reqs, i))
  {
    LruIsMoveToFront(hw, reqs);
    UntiedIsNeverFreeBehind(hw, reqs);
  }

  // The replica is kept busy for some time, or has been idle for some time, or there is something to
  // prefill, or the session is the one stored last.
  ghost predicate Spaced(st: Spec.State, req: Request) {
    || req.output > 0 || req.now > st.freeAt
    || !Has(st.gpu, req.session) || req.prompt > Get(st.gpu, req.session).tokens
    || st.gpu[|st.gpu| - 1].0 == req.session
  }

  ghost predicate SpacedAt(hw: Hardware, reqs: seq<Request>, i: nat)
    requires i < |reqs|
  {
    Spaced(ReplicaRun(Lru, hw, reqs[..i]), reqs[i])
  }

  /** A request that produces a token, reaches an idle replica, has anything to prefill, is new there or
      whose session was stored last never ties. */
  lemma SpacedRunsAreUntied(hw: Hardware, reqs: seq<Request>)
    requires hw.Valid() && forall i :: 0 <= i < |reqs| ==> SpacedAt(hw, reqs, i)
    ensures Untied(hw, reqs)
  {
    forall i | 0 <= i < |reqs| ensures !FreeBehindAt(hw, reqs, i) {
      var st := ReplicaRun(Lru, hw, reqs[..i]);
      assert SpacedAt(hw, reqs, i);
      AlwaysPlain(hw, reqs[..i]);
      if st.gpu != [] {
        HasAt(st.gpu, |st.gpu| - 1);
      }
    }
    UntiedIsNeverFreeBehind(hw, reqs);
  }

  // ---- Just served ---------------------------------------------------------------------

  lemma FrontStays(cap: nat, m: seq<Entry>, e: Entry)
    requires e.tokens <= cap
    ensures var r := MoveToFront(cap, m, e); r != [] && r[0] == e && Position(r, e.session) == 0
  {
    CutPrefix(cap, [e] + Except(m, e.session));
  }

  lemma RunFront(hw: Hardware, reqs: seq<Request>)
    requires reqs != [] && reqs[|reqs| - 1].prompt + reqs[|reqs| - 1].output <= hw.gpuCap
    ensures var m, last := Run(hw, reqs).m, reqs[|reqs| - 1];
            m != [] && m[0].tokens == last.prompt + last.output && Position(m, last.session) == 0
  {
    var l, last := Run(hw, reqs[..|reqs| - 1]), reqs[|reqs| - 1];
    FrontStays(hw.gpuCap, l.m, Front(hw, l, last));
  }

  /** A session that was just served and fits the budget is still there, whole. */
  lemma {:induction false} JustServedSurvives(hw: Hardware, reqs: seq<Request>)
    requires hw.Valid() && Untied(hw, reqs)
    requires reqs != [] && reqs[|reqs| - 1].prompt + reqs[|reqs| - 1].output <= hw.gpuCap
    ensures var last := reqs[|reqs| - 1];
            Spec.Lookup(ReplicaRun(Lru, hw, reqs), last.session) == (GPU, last.prompt + last.output)
  {
    LruLooksUpAsList(hw, reqs, reqs[|reqs| - 1].session);
    RunFront(hw, reqs);
  }
}
