// The bounded session map (agentserve/state.py): least recently used entries go first, and an
// entry answers for ttl seconds after it was put. The wall clock is a parameter.
module SessionStore {
  import opened Models
  import opened OrderedDict

  const DEFAULT_MAX_SESSIONS: nat := 100_000
  const DEFAULT_TTL_S: real := 3600.0

  datatype Slot<+V> = Slot(value: V, expiresAt: real)

  type Table<V> = Dict<Slot<V>>

  function Fetch<V>(t: Table<V>, key: string, now: real): (Option<V>, Table<V>) {
    if !Has(t, key) then (None, t)
    else if now > Get(t, key).expiresAt then (None, Pop(t, key))
    else (Some(Get(t, key).value), MoveToEnd(t, key))
  }

  // The oldest items leave until no more than max remain.
  function Newest<V>(t: Table<V>, max: nat): Table<V> {
    if |t| > max then Newest(t[1..], max) else t
  }

  function Insert<V>(t: Table<V>, key: string, slot: Slot<V>, max: nat): Table<V> {
    Newest(Pop(t, key) + [(key, slot)], max)
  }

  /** Both tables of the store, mutated in place. */
  class InMemorySessionStore {
    const maxSessions: nat
    const ttlS: real
    var home: Table<int>
    var seen: Table<real>

    constructor (maxSessions: nat, ttlS: real)
      ensures this.maxSessions == maxSessions && this.ttlS == ttlS && home == [] && seen == []
    {
      this.maxSessions, this.ttlS := maxSessions, ttlS;
      home, seen := [], [];
    }

    static method DoGet<V(0)>(t: Table<V>, key: string, now: real) returns (v: Option<V>, t': Table<V>)
      ensures (v, t') == Fetch(t, key, now)
    {
      if !Has(t, key) {
        return None, t;
      }
      var slot := Get(t, key);
      if now > slot.expiresAt {
        return None, Pop(t, key);
      }
      return Some(slot.value), MoveToEnd(t, key);
    }

    method DoPut<V>(t: Table<V>, key: string, value: V, now: real) returns (t': Table<V>)
      requires Unique(t)
      ensures t' == Insert(t, key, Slot(value, now + ttlS), maxSessions)
    {
      var slot := Slot(value, now + ttlS);
      PutFacts(t, key, slot);
      PutThenMove(t, key, slot);
      t' := Trim(MoveToEnd(Put(t, key, slot), key), maxSessions);
    }

    // while len(table) > maxSessions: table.popitem(last=False)
    static method Trim<V>(t: Table<V>, max: nat) returns (t': Table<V>)
      ensures t' == Newest(t, max)
    {
      t' := t;
      while |t'| > max
        invariant Newest(t', max) == Newest(t, max)
      {
        t' := t'[1..];
      }
    }

    method GetHome(session: string, now: real) returns (v: Option<int>)
      modifies this`home
      ensures (v, home) == Fetch(old(home), session, now)
    {
      v, home := DoGet(home, session, now);
    }

    method SetHome(session: string, replica: int, now: real)
      requires Unique(home)
      modifies this`home
      ensures home == Insert(old(home), session, Slot(replica, now + ttlS), maxSessions)
    {
      home := DoPut(home, session, replica, now);
    }

    method GetLastSeen(session: string, now: real) returns (v: Option<real>)
      modifies this`seen
      ensures (v, seen) == Fetch(old(seen), session, now)
    {
      v, seen := DoGet(seen, session, now);
    }

    method SetLastSeen(session: string, whenMs: real, now: real)
      requires Unique(seen)
      modifies this`seen
      ensures seen == Insert(old(seen), session, Slot(whenMs, now + ttlS), maxSessions)
    {
      seen := DoPut(seen, session, whenMs, now);
    }
  }

  lemma {:induction false} NewestIsSuffix<V>(t: Table<V>, max: nat)
    ensures Newest(t, max) == if |t| > max then t[|t| - max..] else t
  {
    if |t| > max {
      NewestIsSuffix(t[1..], max);
      if |t| > max + 1 {
        assert t[1..][|t| - 1 - max..] == t[|t| - max..];
      }
    }
  }

  lemma PopAround<V>(a: Table<V>, p: (string, Slot<V>), b: Table<V>, t: Table<V>)
    requires t == a + [p] + b && Index(t, p.0) == |a|
    ensures Pop(t, p.0) == a + b
  {
    assert t[..|a|] == a && t[|a| + 1..] == b;
  }

  // The new slot, as the youngest.
  lemma PutThenMove<V>(t: Table<V>, key: string, slot: Slot<V>)
    requires Unique(t)
    ensures Has(Put(t, key, slot), key)
    ensures MoveToEnd(Put(t, key, slot), key) == Pop(t, key) + [(key, slot)]
  {
    PutFacts(t, key, slot);
    var i := Index(t, key);
    HasAt(Put(t, key, slot), i);
    PopAround(t[..i], (key, slot), if i < |t| then t[i + 1..] else [], Put(t, key, slot));
  }

  // ---- One operation -------------------------------------------------------------------

  // The keys of t from position p on.
  ghost function KeysFrom<V>(t: Table<V>, p: nat): set<string>
    requires p <= |t|
  {
    set i | p <= i < |t| :: t[i].0
  }

  lemma {:induction false} DistinctKeysCount<V>(t: Table<V>, p: nat)
    requires Unique(t) && p <= |t|
    ensures |KeysFrom(t, p)| == |t| - p
    decreases |t| - p
  {
    if p < |t| {
      DistinctKeysCount(t, p + 1);
      assert KeysFrom(t, p) == {t[p].0} + KeysFrom(t, p + 1);
    }
  }

  // key sits in t with this slot, and exactly the keys in newer were touched after it.
  ghost predicate Held<V(!new)>(t: Table<V>, key: string, slot: Slot<V>, newer: set<string>) {
    && Unique(t) && Has(t, key) && Get(t, key) == slot
    && forall k :: k in newer <==> Has(t, k) && Index(t, k) > Index(t, key)
  }

  lemma PopIndex<V>(t: Table<V>, x: string, k: string)
    requires Unique(t) && k != x && Has(t, k)
    ensures Has(Pop(t, x), k)
    ensures Index(Pop(t, x), k) == Index(t, k) - (if Index(t, x) < Index(t, k) then 1 else 0)
  {
    var r, i, j := Pop(t, x), Index(t, x), Index(t, k);
    PopFacts(t, x);
    if i < |t| {
      assert r[if j < i then j else j - 1] == t[j];
      HasAt(r, if j < i then j else j - 1);
    }
  }

  lemma HeldPop<V(!new)>(t: Table<V>, key: string, slot: Slot<V>, newer: set<string>, x: string)
    requires Held(t, key, slot, newer) && x != key
    ensures Held(Pop(t, x), key, slot, newer - {x})
  {
    PopFacts(t, x);
    PopIndex(t, x, key);
    forall k ensures k in newer - {x} <==> Has(Pop(t, x), k) && Index(Pop(t, x), k) > Index(Pop(t, x), key) {
      if k != x && Has(t, k) {
        PopIndex(t, x, k);
        assert k != key ==> Index(t, k) != Index(t, key);
      }
    }
  }

  lemma AppendIndex<V>(t: Table<V>, x: string, s: Slot<V>, k: string)
    requires !Has(t, x)
    ensures Index(t + [(x, s)], k) == if Has(t, k) then Index(t, k) else if k == x then |t| else |t| + 1
  {
    var r := t + [(x, s)];
    var i := Index(r, k);
    assert forall j :: 0 <= j < |t| ==> r[j] == t[j];
    assert r[|t|].0 == x;
  }

  lemma AppendUnique<V>(t: Table<V>, x: string, s: Slot<V>)
    requires Unique(t) && !Has(t, x)
    ensures Unique(t + [(x, s)])
  {
    assert Index(t, x) == |t|;
  }

  lemma HeldAppend<V(!new)>(t: Table<V>, key: string, slot: Slot<V>, newer: set<string>, x: string, s: Slot<V>)
    requires Held(t, key, slot, newer) && !Has(t, x)
    ensures Held(t + [(x, s)], key, slot, newer + {x})
  {
    AppendUnique(t, x, s);
    AppendIndex(t, x, s, key);
    var r := t + [(x, s)];
    assert r[Index(t, key)] == t[Index(t, key)];
    forall k ensures k in newer + {x} <==> Has(r, k) && Index(r, k) > Index(r, key) {
      AppendIndex(t, x, s, k);
    }
  }

  lemma NewerIsSuffix<V(!new)>(t: Table<V>, key: string, slot: Slot<V>, newer: set<string>)
    requires Held(t, key, slot, newer)
    ensures |newer| == |t| - Index(t, key) - 1
  {
    var p := Index(t, key) + 1;
    DistinctKeysCount(t, p);
    forall k ensures k in newer <==> k in KeysFrom(t, p) {
      if k in newer {
        assert t[Index(t, k)].0 == k;
      }
      if k in KeysFrom(t, p) {
        var i :| p <= i < |t| && t[i].0 == k;
        HasAt(t, i);
      }
    }
    assert newer == KeysFrom(t, p);
  }

  lemma SuffixIndex<V>(t: Table<V>, d: nat, k: string)
    requires Unique(t) && d <= |t|
    ensures Has(t[d..], k) <==> Has(t, k) && Index(t, k) >= d
    ensures Has(t[d..], k) ==> Index(t[d..], k) == Index(t, k) - d && Get(t[d..], k) == Get(t, k)
  {
    var r := t[d..];
    if Has(t, k) && Index(t, k) >= d {
      assert r[Index(t, k) - d] == t[Index(t, k)];
      HasAt(r, Index(t, k) - d);
    }
    if Has(r, k) {
      assert t[d + Index(r, k)] == r[Index(r, k)];
      HasAt(t, d + Index(r, k));
    }
  }

  lemma HeldNewest<V(!new)>(t: Table<V>, key: string, slot: Slot<V>, newer: set<string>, max: nat)
    requires Held(t, key, slot, newer)
    ensures |newer| < max ==> Held(Newest(t, max), key, slot, newer)
    ensures |newer| >= max ==> !Has(Newest(t, max), key)
  {
    NewerIsSuffix(t, key, slot, newer);
    NewestIsSuffix(t, max);
    if |t| > max {
      var d := |t| - max;
      SuffixIndex(t, d, key);
      forall k ensures |newer| < max ==> (k in newer <==> Has(t[d..], k) && Index(t[d..], k) > Index(t[d..], key)) {
        SuffixIndex(t, d, k);
      }
    }
  }

  /** Touching another key: key is lost exactly when a put makes it the (max+1)-th most recent. */
  lemma HeldInsert<V(!new)>(t: Table<V>, key: string, slot: Slot<V>, newer: set<string>, x: string, s: Slot<V>,
                     max: nat)
    requires Held(t, key, slot, newer) && x != key
    ensures |newer + {x}| < max ==> Held(Insert(t, x, s, max), key, slot, newer + {x})
    ensures |newer + {x}| >= max ==> !Has(Insert(t, x, s, max), key)
  {
    HeldPop(t, key, slot, newer, x);
    PopFacts(t, x);
    HeldAppend(Pop(t, x), key, slot, newer - {x}, x, s);
    assert newer - {x} + {x} == newer + {x};
    HeldNewest(Pop(t, x) + [(x, s)], key, slot, newer + {x}, max);
  }

  lemma HeldFetch<V(!new)>(t: Table<V>, key: string, slot: Slot<V>, newer: set<string>, x: string, now: real)
                    returns (newer': set<string>)
    requires Held(t, key, slot, newer) && x != key
    ensures newer' <= newer + {x}
    ensures Held(Fetch(t, x, now).1, key, slot, newer')
  {
    newer' := newer;
    if Has(t, x) {
      HeldPop(t, key, slot, newer, x);
      newer' := newer - {x};
      if now <= Get(t, x).expiresAt {
        PopFacts(t, x);
        HeldAppend(Pop(t, x), key, slot, newer - {x}, x, Get(t, x));
        newer' := newer - {x} + {x};
      }
    }
  }

  /** Asking for a key, read off: nobody else's slot is touched and the others keep their order; a live
      key stays, as the youngest; a key past its time to live is gone. */
  lemma FetchInFields<V>(t: Table<V>, key: string, now: real)
    requires Unique(t)
    ensures var (v, t') := Fetch(t, key, now);
            && Unique(t')
            && (v.Some? <==> Has(t, key) && now <= Get(t, key).expiresAt)
            && (v.Some? ==> v.value == Get(t, key).value && t' == Pop(t, key) + [(key, Get(t, key))])
            && (v.None? ==> !Has(t', key) && t' == Pop(t, key))
            && (Has(t, key) && now > Get(t, key).expiresAt ==> |t'| == |t| - 1)
            && (forall k :: k != key ==> (Has(t', k) <==> Has(t, k)))
  {
    UniqueFetch(t, key, now);
    PopFacts(t, key);
    if Has(t, key) && now <= Get(t, key).expiresAt {
      forall k | k != key ensures Has(Pop(t, key) + [(key, Get(t, key))], k) <==> Has(t, k) {
        AppendIndex(Pop(t, key), key, Get(t, key), k);
      }
    }
  }

  /** So an expired key that is asked for makes room: the next put into a full table evicts nobody. */
  lemma ExpiredMakesRoom<V>(t: Table<V>, key: string, now: real, x: string, slot: Slot<V>, max: nat)
    requires Unique(t) && |t| <= max && Has(t, key) && now > Get(t, key).expiresAt
    ensures var t' := Insert(Fetch(t, key, now).1, x, slot, max);
            forall k :: Has(t', k) <==> k == x || (k != key && Has(t, k))
  {
    var r := Fetch(t, key, now).1;
    FetchInFields(t, key, now);
    PopFacts(r, x);
    forall k ensures Has(Insert(r, x, slot, max), k) <==> k == x || (k != key && Has(t, k)) {
      AppendIndex(Pop(r, x), x, slot, k);
    }
  }

  // ---- Histories -----------------------------------------------------------------------

  datatype Op<+V> = PutOp(key: string, value: V, at: real) | GetOp(key: string, at: real)

  function Apply<V>(t: Table<V>, op: Op<V>, max: nat, ttl: real): Table<V> {
    match op
    case PutOp(key, value, at) => Insert(t, key, Slot(value, at + ttl), max)
    case GetOp(key, at) => Fetch(t, key, at).1
  }

  // A table after more operations.
  function RunOn<V>(t: Table<V>, ops: seq<Op<V>>, max: nat, ttl: real): Table<V> {
    if ops == [] then t else Apply(RunOn(t, ops[..|ops| - 1], max, ttl), ops[|ops| - 1], max, ttl)
  }

  function Run<V>(h: seq<Op<V>>, max: nat, ttl: real): Table<V> {
    RunOn([], h, max, ttl)
  }

  // The position just past the last put of a key, or 0.
  function LastPut<V>(h: seq<Op<V>>, key: string): (i: nat)
    ensures i <= |h|
    ensures i > 0 ==> h[i - 1].PutOp? && h[i - 1].key == key
    ensures forall j :: i <= j < |h| ==> !(h[j].PutOp? && h[j].key == key)
  {
    if h == [] then 0
    else if h[|h| - 1].PutOp? && h[|h| - 1].key == key then |h|
    else LastPut(h[..|h| - 1], key)
  }

  lemma NewestFacts<V>(t: Table<V>, max: nat)
    requires Unique(t)
    ensures var r := Newest(t, max);
            Unique(r) && |r| <= max && forall p :: p in r ==> p in t
  {
    NewestIsSuffix(t, max);
  }

  lemma InsertFacts<V>(t: Table<V>, key: string, slot: Slot<V>, max: nat)
    requires Unique(t)
    ensures var r := Insert(t, key, slot, max);
            && Unique(r) && |r| <= max
            && forall p :: p in r ==> p == (key, slot) || (p in t && p.0 != key)
  {
    PopFacts(t, key);
    AppendUnique(Pop(t, key), key, slot);
    NewestFacts(Pop(t, key) + [(key, slot)], max);
  }

  lemma UniqueInsert<V>(t: Table<V>, key: string, slot: Slot<V>, max: nat)
    requires Unique(t)
    ensures Unique(Insert(t, key, slot, max))
  {
    InsertFacts(t, key, slot, max);
  }

  lemma UniqueFetch<V>(t: Table<V>, key: string, now: real)
    requires Unique(t)
    ensures Unique(Fetch(t, key, now).1)
  {
    FetchFacts(t, key, now);
  }

  lemma FetchFacts<V>(t: Table<V>, key: string, now: real)
    requires Unique(t)
    ensures var r := Fetch(t, key, now).1;
            Unique(r) && |r| <= |t| && forall p :: p in r ==> p in t
  {
    PopFacts(t, key);
    if Has(t, key) {
      assert t[Index(t, key)] == (key, Get(t, key));
      forall j | 0 <= j < |Pop(t, key)| ensures Pop(t, key)[j].0 != key {
        HasAt(Pop(t, key), j);
      }
    }
  }

  // What the latest put of a key left for it.
  function LatestSlot<V>(h: seq<Op<V>>, key: string, ttl: real): Slot<V>
    requires LastPut(h, key) > 0
  {
    var op := h[LastPut(h, key) - 1];
    Slot(op.value, op.at + ttl)
  }

  ghost predicate IsLatest<V(!new)>(h: seq<Op<V>>, key: string, slot: Slot<V>, ttl: real) {
    LastPut(h, key) > 0 && slot == LatestSlot(h, key, ttl)
  }

  // The table holds only latest puts.
  ghost predicate Current<V(!new)>(t: Table<V>, h: seq<Op<V>>, ttl: real) {
    forall p :: p in t ==> IsLatest(h, p.0, p.1, ttl)
  }

  lemma LatestAppend<V(!new)>(h: seq<Op<V>>, op: Op<V>, key: string, slot: Slot<V>, ttl: real)
    ensures op.PutOp? && op.key == key ==> IsLatest(h + [op], key, Slot(op.value, op.at + ttl), ttl)
    ensures !(op.PutOp? && op.key == key) && IsLatest(h, key, slot, ttl) ==> IsLatest(h + [op], key, slot, ttl)
  {
    assert (h + [op])[..|h|] == h;
  }

  // An operation brings in nothing but its own put.
  lemma ApplyFacts<V>(t: Table<V>, op: Op<V>, max: nat, ttl: real)
    requires Unique(t) && |t| <= max
    ensures var t' := Apply(t, op, max, ttl);
            && Unique(t') && |t'| <= max
            && forall p :: p in t' ==>
                 if op.PutOp? && p.0 == op.key then p.1 == Slot(op.value, op.at + ttl) else p in t
  {
    if op.PutOp? {
      InsertFacts(t, op.key, Slot(op.value, op.at + ttl), max);
    } else {
      FetchFacts(t, op.key, op.at);
    }
  }

  lemma CurrentStep<V(!new)>(t: Table<V>, h: seq<Op<V>>, op: Op<V>, h': seq<Op<V>>, max: nat, ttl: real)
    requires Unique(t) && |t| <= max && Current(t, h, ttl) && h' == h + [op]
    ensures var t' := Apply(t, op, max, ttl);
            Unique(t') && |t'| <= max && Current(t', h', ttl)
  {
    ApplyFacts(t, op, max, ttl);
    forall p | p in Apply(t, op, max, ttl) ensures IsLatest(h + [op], p.0, p.1, ttl) {
      LatestAppend(h, op, p.0, p.1, ttl);
    }
  }

  /** The store never outgrows its bound, and what it holds for a key is the key's latest put. */
  lemma {:induction false} StoreIsBoundedAndCurrent<V(!new)>(h: seq<Op<V>>, max: nat, ttl: real)
    ensures var t := Run(h, max, ttl); Unique(t) && |t| <= max && Current(t, h, ttl)
    decreases |h|
  {
    if h != [] {
      var n := |h| - 1;
      StoreIsBoundedAndCurrent(h[..n], max, ttl);
      CurrentStep(Run(h[..n], max, ttl), h[..n], h[n], h, max, ttl);
    }
  }

  /** A get answers only with the latest put, and never past its time to live. */
  lemma {:induction false} GetIsSound<V(!new)>(h: seq<Op<V>>, max: nat, ttl: real, key: string, now: real)
    ensures var r := Fetch(Run(h, max, ttl), key, now).0;
            r.Some? ==> (var i := LastPut(h, key);
                         i > 0 && r.value == h[i - 1].value && now <= h[i - 1].at + ttl)
  {
    var t := Run(h, max, ttl);
    StoreIsBoundedAndCurrent(h, max, ttl);
    HeldIsLatest(t, h, ttl, key);
  }

  lemma HeldIsLatest<V(!new)>(t: Table<V>, h: seq<Op<V>>, ttl: real, key: string)
    requires Current(t, h, ttl)
    ensures Has(t, key) ==> IsLatest(h, key, Get(t, key), ttl)
  {
    assert Has(t, key) ==> t[Index(t, key)] in t && t[Index(t, key)] == (key, Get(t, key));
  }

  ghost function Keys<V>(h: seq<Op<V>>): set<string> {
    set i | 0 <= i < |h| :: h[i].key
  }

  lemma KeysAppend<V>(h: seq<Op<V>>, op: Op<V>)
    ensures Keys(h + [op]) == Keys(h) + {op.key}
  {
    var h' := h + [op];
    forall k ensures k in Keys(h') <==> k in Keys(h) + {op.key} {
      if k in Keys(h) {
        var i :| 0 <= i < |h| && h[i].key == k;
        assert h'[i].key == k;
      }
      assert h'[|h|].key == op.key;
    }
  }

  /** Right after a put or a successful get, nothing is newer than the key. */
  lemma TouchedIsNewest<V(!new)>(t: Table<V>, op: Op<V>, max: nat, ttl: real)
    requires Unique(t) && max >= 1
    ensures var t' := Apply(t, op, max, ttl);
            Has(t', op.key) ==> Held(t', op.key, Get(t', op.key), {})
    ensures op.PutOp? ==> var t' := Apply(t, op, max, ttl);
            Has(t', op.key) && Get(t', op.key) == Slot(op.value, op.at + ttl)
  {
    var key := op.key;
    PopFacts(t, key);
    if op.PutOp? {
      var slot := Slot(op.value, op.at + ttl);
      LastHeld(Pop(t, key), key, slot);
      HeldNewest(Pop(t, key) + [(key, slot)], key, slot, {}, max);
    } else if Has(t, key) && op.at <= Get(t, key).expiresAt {
      LastHeld(Pop(t, key), key, Get(t, key));
    }
  }

  lemma LastHeld<V(!new)>(t: Table<V>, key: string, slot: Slot<V>)
    requires Unique(t) && !Has(t, key)
    ensures Held(t + [(key, slot)], key, slot, {})
  {
    AppendUnique(t, key, slot);
    forall k ensures Index(t + [(key, slot)], k) <= |t| || !Has(t + [(key, slot)], k) {
      AppendIndex(t, key, slot, k);
    }
    AppendIndex(t, key, slot, key);
  }

  // One more operation on another key.
  lemma HeldStep<V(!new)>(t: Table<V>, op: Op<V>, key: string, slot: Slot<V>, newer: set<string>, max: nat, ttl: real)
      returns (newer': set<string>)
    requires Held(t, key, slot, newer) && op.key != key && |newer + {op.key}| < max
    ensures newer' <= newer + {op.key} && (op.PutOp? ==> newer' == newer + {op.key})
    ensures Held(Apply(t, op, max, ttl), key, slot, newer')
  {
    if op.PutOp? {
      HeldPutStep(t, op, key, slot, newer, max, ttl);
      newer' := newer + {op.key};
    } else {
      newer' := HeldGetStep(t, op, key, slot, newer, max, ttl);
    }
  }

  lemma HeldPutStep<V(!new)>(t: Table<V>, op: Op<V>, key: string, slot: Slot<V>, newer: set<string>, max: nat,
                      ttl: real)
    requires Held(t, key, slot, newer) && op.key != key && op.PutOp?
    ensures |newer + {op.key}| < max ==> Held(Apply(t, op, max, ttl), key, slot, newer + {op.key})
    ensures |newer + {op.key}| >= max ==> !Has(Apply(t, op, max, ttl), key)
  {
    var r := Insert(t, op.key, Slot(op.value, op.at + ttl), max);
    assert Apply(t, op, max, ttl) == r;
    HeldInsert(t, key, slot, newer, op.key, Slot(op.value, op.at + ttl), max);
    if |newer + {op.key}| < max {
      assert Held(r, key, slot, newer + {op.key});
    }
  }

  lemma HeldGetStep<V(!new)>(t: Table<V>, op: Op<V>, key: string, slot: Slot<V>, newer: set<string>, max: nat,
                      ttl: real)
      returns (newer': set<string>)
    requires Held(t, key, slot, newer) && op.key != key && op.GetOp?
    ensures newer' <= newer + {op.key} && Held(Apply(t, op, max, ttl), key, slot, newer')
  {
    newer' := HeldFetch(t, key, slot, newer, op.key, op.at);
  }

  lemma {:induction false} HeldThrough<V(!new)>(t: Table<V>, ops: seq<Op<V>>, key: string, slot: Slot<V>, max: nat,
                                         ttl: real)
      returns (newer: set<string>)
    requires Held(t, key, slot, {}) && key !in Keys(ops) && |Keys(ops)| < max
    ensures newer <= Keys(ops) && Held(RunOn(t, ops, max, ttl), key, slot, newer)
    ensures AllPuts(ops) ==> newer == Keys(ops)
    decreases |ops|
  {
    newer := {};
    if ops != [] {
      var n := |ops| - 1;
      KeysSplit(ops);
      var before := HeldThrough(t, ops[..n], key, slot, max, ttl);
      SubsetSize(before + {ops[n].key}, Keys(ops));
      newer := HeldStep(RunOn(t, ops[..n], max, ttl), ops[n], key, slot, before, max, ttl);
    }
  }

  ghost predicate AllPuts<V>(ops: seq<Op<V>>) {
    forall i :: 0 <= i < |ops| ==> ops[i].PutOp?
  }

  lemma KeysSplit<V>(ops: seq<Op<V>>)
    requires ops != []
    ensures Keys(ops) == Keys(ops[..|ops| - 1]) + {ops[|ops| - 1].key}
    ensures |Keys(ops[..|ops| - 1])| <= |Keys(ops)|
    ensures AllPuts(ops) ==> AllPuts(ops[..|ops| - 1]) && ops[|ops| - 1].PutOp?
  {
    KeysAppend(ops[..|ops| - 1], ops[|ops| - 1]);
    assert ops == ops[..|ops| - 1] + [ops[|ops| - 1]];
    SubsetSize(Keys(ops[..|ops| - 1]), Keys(ops));
  }

  /** The retention guarantee: a key that was put, or found, in a table is still found, with the same
      value, as long as fewer than max distinct other keys have been touched since and it has not
      expired. */
  lemma RecentKeysAreKept<V(!new)>(h: seq<Op<V>>, op: Op<V>, later: seq<Op<V>>, max: nat, ttl: real, now: real)
    requires max >= 1 && op.key !in Keys(later) && |Keys(later)| < max
    requires Has(Run(h + [op], max, ttl), op.key)
    requires now <= Get(Run(h + [op], max, ttl), op.key).expiresAt
    ensures Fetch(RunOn(Run(h + [op], max, ttl), later, max, ttl), op.key, now).0
         == Some(Get(Run(h + [op], max, ttl), op.key).value)
  {
    StoreIsBoundedAndCurrent(h, max, ttl);
    assert (h + [op])[..|h|] == h;
    TouchedIsNewest(Run(h, max, ttl), op, max, ttl);
    var t := Run(h + [op], max, ttl);
    var _ := HeldThrough(t, later, op.key, Get(t, op.key), max, ttl);
  }

  lemma AbsentStays<V>(t: Table<V>, key: string, op: Op<V>, max: nat, ttl: real)
    requires Unique(t) && |t| <= max && !Has(t, key) && op.key != key
    ensures !Has(Apply(t, op, max, ttl), key)
  {
    ApplyFacts(t, op, max, ttl);
    var r := Apply(t, op, max, ttl);
    if Has(r, key) {
      HasIn(t, r[Index(r, key)]);
      assert false;
    }
  }

  lemma {:induction false} BoundedThrough<V>(t: Table<V>, ops: seq<Op<V>>, max: nat, ttl: real)
    requires Unique(t) && |t| <= max
    ensures Unique(RunOn(t, ops, max, ttl)) && |RunOn(t, ops, max, ttl)| <= max
    decreases |ops|
  {
    if ops != [] {
      BoundedThrough(t, ops[..|ops| - 1], max, ttl);
      ApplyFacts(RunOn(t, ops[..|ops| - 1], max, ttl), ops[|ops| - 1], max, ttl);
    }
  }

  /** And the bound is exact: when only puts follow, the key survives if and only if fewer than max
      distinct other keys were put. */
  lemma {:induction false} PutsEvictExactly<V(!new)>(t: Table<V>, ops: seq<Op<V>>, key: string, slot: Slot<V>,
                                              max: nat, ttl: real)
    requires max >= 1 && Held(t, key, slot, {}) && |t| <= max && key !in Keys(ops) && AllPuts(ops)
    ensures Has(RunOn(t, ops, max, ttl), key) <==> |Keys(ops)| < max
    decreases |ops|
  {
    assert ops == [] ==> Keys(ops) == {};
    if |Keys(ops)| < max {
      var _ := HeldThrough(t, ops, key, slot, max, ttl);
    } else {
      var n := |ops| - 1;
      var op := ops[n];
      var mid := RunOn(t, ops[..n], max, ttl);
      KeysSplit(ops);
      BoundedThrough(t, ops[..n], max, ttl);
      if |Keys(ops[..n])| < max {
        var before := HeldThrough(t, ops[..n], key, slot, max, ttl);
        HeldPutStep(mid, op, key, slot, before, max, ttl);
      } else {
        PutsEvictExactly(t, ops[..n], key, slot, max, ttl);
        AbsentStays(mid, key, op, max, ttl);
      }
    }
  }
}
