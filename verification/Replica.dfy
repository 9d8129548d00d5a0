// The mutable replica of agentserve/replica.py, proved against the value-level operations of
// ReplicaSpec.
module Replica {
  import opened Models
  import opened OrderedDict
  import opened Policy
  import Spec = ReplicaSpec

  /** A cached session. Only its tier tag ever changes. */
  class CacheEntry {
    const session: string
    const tokens: nat
    const lastTouch: real
    const predictedReturn: real
    var tier: CacheTier

    constructor (session: string, tokens: nat, tier: CacheTier, lastTouch: real, predictedReturn: real)
      ensures Data() == Entry(session, tokens, lastTouch, predictedReturn)
      ensures this.tier == tier
    {
      this.session, this.tokens, this.tier := session, tokens, tier;
      this.lastTouch, this.predictedReturn := lastTouch, predictedReturn;
    }

    function Data(): Entry {
      Entry(session, tokens, lastTouch, predictedReturn)
    }
  }

  function DataOf(d: Dict<CacheEntry>): (r: Dict<Entry>)
    ensures |r| == |d|
    ensures forall i :: 0 <= i < |d| ==> r[i] == (d[i].0, d[i].1.Data())
  {
    seq(|d|, i requires 0 <= i < |d| => (d[i].0, d[i].1.Data()))
  }

  lemma DataIndex(d: Dict<CacheEntry>, s: string)
    ensures Index(DataOf(d), s) == Index(d, s)
  {
    var r := DataOf(d);
    assert forall k :: 0 <= k < |d| ==> r[k].0 == d[k].0;
  }

  // Every entry sits under its own session's key, once.
  ghost predicate Keyed(d: Dict<CacheEntry>) {
    Unique(d) && forall p :: p in d ==> p.0 == p.1.session
  }

  // No session, and so no object, is in both tiers.
  ghost predicate Apart(a: Dict<CacheEntry>, b: Dict<CacheEntry>) {
    Keyed(a) && Keyed(b) && forall p, q :: p in a && q in b ==> p.0 != q.0
  }

  lemma ApartData(a: Dict<CacheEntry>, b: Dict<CacheEntry>)
    requires Apart(a, b)
    ensures var x, y := DataOf(a), DataOf(b);
            && Unique(x) && Spec.KeysMatch(x) && Unique(y) && Spec.KeysMatch(y)
            && forall s :: !(Has(x, s) && Has(y, s))
  {
    forall i | 0 <= i < |a| ensures a[i] in a {}
    forall i | 0 <= i < |b| ensures b[i] in b {}
    forall s ensures !(Has(DataOf(a), s) && Has(DataOf(b), s)) {
      DataIndex(a, s);
      DataIndex(b, s);
      assert Has(a, s) ==> a[Index(a, s)] in a;
      assert Has(b, s) ==> b[Index(b, s)] in b;
    }
  }

  // Moving an entry between the tiers, in either direction.
  lemma ApartMove(from: Dict<CacheEntry>, to: Dict<CacheEntry>, e: CacheEntry)
    requires Apart(from, to) && (e.session, e) in from
    ensures var from', to' := Pop(from, e.session), Put(to, e.session, e);
            && Apart(from', to')
            && (forall p :: p in from' ==> p in from && p.1 != e)
            && (forall p :: p in to' ==> p == (e.session, e) || (p in to && p.1 != e))
  {
    PopFacts(from, e.session);
    PutFacts(to, e.session, e);
  }

  lemma ApartPop(a: Dict<CacheEntry>, b: Dict<CacheEntry>, s: string)
    requires Apart(a, b)
    ensures Apart(Pop(a, s), b) && Apart(b, Pop(a, s))
    ensures forall p :: p in Pop(a, s) ==> p in a && p.0 != s
  {
    PopFacts(a, s);
  }

  lemma ApartFlip(a: Dict<CacheEntry>, b: Dict<CacheEntry>)
    requires Apart(a, b)
    ensures Apart(b, a)
  {
  }

  lemma ApartPut(a: Dict<CacheEntry>, b: Dict<CacheEntry>, e: CacheEntry)
    requires Apart(a, b) && forall p :: p in b ==> p.0 != e.session
    ensures Apart(Put(a, e.session, e), b)
    ensures (e.session, e) in Put(a, e.session, e)
    ensures forall p :: p in Put(a, e.session, e) ==> p == (e.session, e) || p in a
  {
    PutFacts(a, e.session, e);
  }

  lemma DataPut(d: Dict<CacheEntry>, s: string, e: CacheEntry)
    ensures DataOf(Put(d, s, e)) == Put(DataOf(d), s, e.Data())
  {
    DataIndex(d, s);
  }

  lemma DataPop(d: Dict<CacheEntry>, s: string)
    ensures DataOf(Pop(d, s)) == Pop(DataOf(d), s)
  {
    DataIndex(d, s);
    var i := Index(d, s);
    if i < |d| {
      assert DataOf(d[..i]) == DataOf(d)[..i];
      assert DataOf(d[i + 1..]) == DataOf(d)[i + 1..];
      DataConcat(d[..i], d[i + 1..]);
    }
  }

  lemma PopShorter(d: Dict<CacheEntry>, i: nat)
    requires i < |d|
    ensures |Pop(d, d[i].0)| < |d|
  {
    HasAt(d, i);
  }

  lemma DataConcat(a: Dict<CacheEntry>, b: Dict<CacheEntry>)
    ensures DataOf(a + b) == DataOf(a) + DataOf(b)
  {
  }

  class Replica {
    const id: nat
    const hw: Hardware
    const policy: CachePolicy
    var gpu: Dict<CacheEntry>
    var dram: Dict<CacheEntry>
    var freeAt: real
    var pending: seq<real>
    var active: nat
    var peakActive: nat
    var evictions: nat
    var offloads: nat
    ghost var Repr: set<object>  // this replica and the entries it owns

    ghost function View(): Spec.State
      reads this
    {
      Spec.State(DataOf(gpu), DataOf(dram), freeAt, pending, active, peakActive, evictions, offloads)
    }

    /** Disjoint tiers, keyed by their entries' sessions, every entry tagged with its tier. */
    ghost predicate Sound()
      reads this, Repr
    {
      && this in Repr
      && Apart(gpu, dram)
      && (forall p :: p in gpu ==> p.1 in Repr && p.1.tier == GPU)
      && (forall p :: p in dram ==> p.1 in Repr && p.1.tier == DRAM)
    }

    ghost predicate Valid()
      reads this, Repr
    {
      Sound() && Spec.Tokens(DataOf(dram)) <= hw.dramCap
    }

    lemma ValidView()
      requires Sound()
      ensures Spec.TwoTier(View())
    {
      ApartData(gpu, dram);
    }

    constructor (id: nat, hw: Hardware, policy: CachePolicy)
      ensures Valid() && fresh(Repr)
      ensures View() == Spec.EMPTY
      ensures this.id == id && this.hw == hw && this.policy == policy
    {
      this.id, this.hw, this.policy := id, hw, policy;
      gpu, dram := [], [];
      freeAt, pending := 0.0, [];
      active, peakActive, evictions, offloads := 0, 0, 0, 0;
      Repr := {this};
    }

    method Prune(now: real)
      modifies this`pending
      ensures View() == Spec.Prune(old(View()), now)
      ensures exists at :: Spec.Filters(old(pending), now, pending, at)
      ensures old(Valid()) ==> Valid()
    {
      ghost var at := Spec.LaterIsFilter(pending, now);
      pending := Spec.Later(pending, now);
    }

    method OccupyUntil(t: real)
      requires Valid()
      modifies this`freeAt
      ensures Valid() && View() == old(View()).(freeAt := t)
    {
      freeAt := t;
    }

    // The harness queues the completion of the request it has just dispatched.
    method Enqueue(done: real)
      requires Valid()
      modifies this`pending
      ensures Valid() && View() == old(View()).(pending := old(View()).pending + [done])
    {
      pending := pending + [done];
    }

    // Entering the slot context manager.
    method EnterSlot()
      modifies this`active, this`peakActive
      ensures View() == Spec.EnterSlot(old(View()))
      ensures old(Valid()) ==> Valid()
    {
      active := active + 1;
      peakActive := if peakActive < active then active else peakActive;
    }

    // Leaving it, on success and on any exception alike.
    method LeaveSlot()
      modifies this`active
      ensures View() == Spec.LeaveSlot(old(View()))
      ensures old(Valid()) ==> Valid()
    {
      active := if active == 0 then 0 else active - 1;
    }

    method Lookup(s: string) returns (tier: CacheTier, tokens: nat)
      ensures (tier, tokens) == Spec.Lookup(View(), s)
    {
      DataIndex(gpu, s);
      DataIndex(dram, s);
      if Has(gpu, s) {
        return GPU, Get(gpu, s).tokens;
      }
      if Has(dram, s) {
        return DRAM, Get(dram, s).tokens;
      }
      return MISS, 0;
    }

    method PromoteFromDram(s: string)
      requires Valid()
      modifies Repr
      ensures Valid() && Repr == old(Repr)
      ensures View() == Spec.Promote(old(View()), s)
    {
      DataIndex(dram, s);
      if Has(dram, s) {
        var entry := Get(dram, s);
        assert dram[Index(dram, s)] in dram;
        Spec.TokensPop(DataOf(dram), s);
        DataPut(gpu, s, entry);
        DataPop(dram, s);
        ApartMove(dram, gpu, entry);
        dram := Pop(dram, s);
        entry.tier := GPU;
        gpu := Put(gpu, s, entry);
      }
    }

    method Demote(entry: CacheEntry)
      requires Valid() && (entry.session, entry) in gpu
      modifies Repr
      ensures Valid() && Repr == old(Repr)
      ensures View() == Spec.Demote(hw, old(View()), entry.Data())
    {
      DataPop(gpu, entry.session);
      if Spec.Tokens(DataOf(dram)) + entry.tokens <= hw.dramCap {
        MoveToDram(entry);
        offloads := offloads + 1;
      } else {
        ApartPop(gpu, dram, entry.session);
        gpu := Pop(gpu, entry.session);
        evictions := evictions + 1;
      }
    }

    method MoveToDram(entry: CacheEntry)
      requires Valid() && (entry.session, entry) in gpu
      requires Spec.Tokens(DataOf(dram)) + entry.tokens <= hw.dramCap
      modifies this`gpu, this`dram, entry
      ensures Valid()
      ensures View() == old(View()).(gpu := Pop(old(View()).gpu, entry.session),
                                     dram := Put(old(View()).dram, entry.session, entry.Data()))
    {
      var s := entry.session;
      DataPop(gpu, s);
      DataPut(dram, s, entry);
      ApartMove(gpu, dram, entry);
      Spec.TokensPut(DataOf(dram), s, entry.Data());
      gpu := Pop(gpu, s);
      entry.tier := DRAM;
      dram := Put(dram, s, entry);
    }

    // gpu.pop(session) and one more eviction.
    method Discard(s: string)
      requires Valid()
      modifies this`gpu, this`evictions
      ensures Valid()
      ensures View() == old(View()).(gpu := Pop(old(View().gpu), s), evictions := old(evictions) + 1)
    {
      DataPop(gpu, s);
      ApartPop(gpu, dram, s);
      gpu := Pop(gpu, s);
      evictions := evictions + 1;
    }

    // del dram[session] and one more eviction.
    method DiscardDram(s: string)
      requires Sound()
      modifies this`dram, this`evictions
      ensures Sound()
      ensures View() == old(View()).(dram := Pop(old(View().dram), s), evictions := old(evictions) + 1)
    {
      DataPop(dram, s);
      ApartFlip(gpu, dram);
      ApartPop(dram, gpu, s);
      dram := Pop(dram, s);
      evictions := evictions + 1;
    }

    method DropOldest()
      requires Sound() && dram != []
      modifies this`dram, this`evictions
      ensures Sound() && |dram| < |old(dram)|
      ensures View() == Spec.DropOldest(old(View()))
    {
      var i := Spec.Oldest(DataOf(dram));
      PopShorter(dram, i);
      DataPop(dram, dram[i].0);
      DiscardDram(dram[i].0);
    }

    method TrimDram()
      requires Sound()
      modifies this`dram, this`evictions
      ensures Valid()
      ensures View() == Spec.TrimDram(hw, old(View()))
    {
      ghost var goal := Spec.TrimDram(hw, View());
      while Spec.Tokens(DataOf(dram)) > hw.dramCap && dram != []
        invariant Sound()
        invariant Spec.TrimDram(hw, View()) == goal
        decreases |dram|
      {
        Spec.TrimStep(hw, View());
        DropOldest();
      }
      Spec.TrimDone(hw, View());
    }

    // The cached object a victim stands for.
    method FindVictim(victim: Entry) returns (entry: CacheEntry)
      requires Sound() && (victim.session, victim) in DataOf(gpu)
      ensures entry.Data() == victim && (victim.session, entry) in gpu
    {
      ghost var i :| 0 <= i < |gpu| && DataOf(gpu)[i] == (victim.session, victim);
      HasAt(gpu, i);
      entry := Get(gpu, victim.session);
      assert gpu[i] in gpu;
    }

    // One round of the eviction loop.
    method GiveUp(victim: Entry)
      requires Valid() && (victim.session, victim) in DataOf(gpu)
      modifies Repr
      ensures Valid() && Repr == old(Repr)
      ensures View() == Spec.GiveUp(policy, hw, old(View()), victim)
    {
      if policy.OnRelease(victim) == OffloadDram {
        var entry := FindVictim(victim);
        Demote(entry);
      } else {
        Discard(victim.session);
      }
    }

    method EnforceCapacity(now: real)
      requires Valid()
      modifies Repr
      ensures Valid() && Repr == old(Repr)
      ensures View() == Spec.EnforceCapacity(policy, hw, old(View()), now)
    {
      if Spec.Tokens(DataOf(gpu)) <= hw.gpuCap {
        return;
      }
      var order := policy.VictimOrder(Values(DataOf(gpu)), now);
      ValidView();
      Spec.OrderLists(policy, View().gpu, now);
      Shed(order);
      TrimDram();
    }

    // The eviction loop over the victims.
    method Shed(order: seq<Entry>)
      requires Valid() && Spec.Lists(order, DataOf(gpu))
      modifies Repr
      ensures Valid() && Repr == old(Repr)
      ensures View() == Spec.Shed(policy, hw, old(View()), order)
    {
      ghost var goal := Spec.Shed(policy, hw, View(), order);
      var rest := order;
      while rest != [] && Spec.Tokens(DataOf(gpu)) > hw.gpuCap
        invariant Valid() && Repr == old(Repr)
        invariant Spec.Lists(rest, View().gpu)
        invariant Spec.Shed(policy, hw, View(), rest) == goal
        decreases |rest|
      {
        ValidView();
        Spec.ShedStep(policy, hw, View(), rest);
        GiveUp(rest[0]);
        rest := rest[1..];
      }
    }

    method Store(s: string, tokens: nat, now: real, predictedReturn: real)
      requires Valid()
      modifies Repr
      ensures Valid() && fresh(Repr - old(Repr))
      ensures View() == Spec.Store(policy, hw, old(View()), Entry(s, tokens, now, predictedReturn))
    {
      var entry := new CacheEntry(s, tokens, GPU, now, predictedReturn);
      ghost var st := View();
      Install(entry);
      match policy.OnRelease(entry.Data()) {
        case PinGpu =>
        case OffloadDram => Demote(entry);
        case Drop => Discard(s);
      }
      assert View() == Spec.Place(policy, hw, st, entry.Data());
      EnforceCapacity(now);
    }

    // dram.pop(session); gpu[session] = entry
    method Install(entry: CacheEntry)
      requires Valid() && entry !in Repr && entry.tier == GPU
      modifies this`gpu, this`dram, this`Repr
      ensures Valid() && Repr == old(Repr) + {entry}
      ensures (entry.session, entry) in gpu
      ensures View() == Spec.Install(old(View()), entry.Data())
    {
      var s := entry.session;
      Spec.TokensPop(DataOf(dram), s);
      DataPop(dram, s);
      DataPut(gpu, s, entry);
      ApartPop(dram, gpu, s);
      ApartPut(gpu, Pop(dram, s), entry);
      dram := Pop(dram, s);
      gpu := Put(gpu, s, entry);
      Repr := Repr + {entry};
    }
  }
}
