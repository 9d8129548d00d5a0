// A cluster of mutable replicas that share no objects.
module Cluster {
  import opened Models
  import opened OrderedDict
  import opened Replica
  import opened Router
  import opened Backend
  import Spec = ReplicaSpec
  import Policy

  ghost predicate Sound(replicas: seq<Replica>, hw: Hardware, policy: Policy.CachePolicy)
    reads replicas, set i, o | 0 <= i < |replicas| && o in replicas[i].Repr :: o
  {
    && Numbered(replicas, hw)
    && (forall i :: 0 <= i < |replicas| ==> replicas[i].Valid() && replicas[i].policy == policy)
    && (forall i, j :: 0 <= i < j < |replicas| ==> replicas[i].Repr !! replicas[j].Repr)
  }

  function PrunedAll(rs: seq<Spec.State>, now: real): (r: seq<Spec.State>)
    ensures |r| == |rs| && forall i :: 0 <= i < |rs| ==> r[i] == Spec.Prune(rs[i], now)
  {
    seq(|rs|, i requires 0 <= i < |rs| => Spec.Prune(rs[i], now))
  }

  // Objects of one replica are not objects of another.
  lemma Separate(replicas: seq<Replica>, hw: Hardware, policy: Policy.CachePolicy, i: nat)
    requires Sound(replicas, hw, policy) && i < |replicas|
    ensures forall j :: 0 <= j < |replicas| && j != i ==>
              replicas[j] != replicas[i] && replicas[i].Repr !! replicas[j].Repr
    ensures forall j :: 0 <= j < |replicas| && j != i ==> replicas[i] !in replicas[j].Repr
  {
    assert replicas[i].Valid();
    forall j | 0 <= j < |replicas| && j != i ensures replicas[i].Repr !! replicas[j].Repr {
      if j < i {
        assert replicas[j].Repr !! replicas[i].Repr;
      }
    }
  }

  method PruneAt(replicas: seq<Replica>, i: nat, now: real, ghost hw: Hardware, ghost policy: Policy.CachePolicy)
    requires Sound(replicas, hw, policy) && i < |replicas|
    modifies replicas[i]
    ensures Sound(replicas, hw, policy)
    ensures forall j :: 0 <= j < |replicas| ==> replicas[j].Repr == old(replicas[j].Repr)
    ensures forall j :: 0 <= j < |replicas| ==>
              replicas[j].View() == if j == i then Spec.Prune(old(replicas[j].View()), now) else old(replicas[j].View())
  {
    Separate(replicas, hw, policy, i);
    replicas[i].Prune(now);
  }

  method PruneAll(replicas: seq<Replica>, now: real, ghost hw: Hardware, ghost policy: Policy.CachePolicy)
    requires Sound(replicas, hw, policy)
    modifies replicas
    ensures Sound(replicas, hw, policy)
    ensures forall i :: 0 <= i < |replicas| ==> replicas[i].Repr == old(replicas[i].Repr)
    ensures Views(replicas) == PrunedAll(old(Views(replicas)), now)
  {
    ghost var rs := Views(replicas);
    var i := 0;
    while i < |replicas|
      invariant 0 <= i <= |replicas|
      invariant Sound(replicas, hw, policy)
      invariant forall j :: 0 <= j < |replicas| ==> replicas[j].Repr == old(replicas[j].Repr)
      invariant forall j :: 0 <= j < |replicas| ==>
                  replicas[j].View() == if j < i then Spec.Prune(rs[j], now) else rs[j]
    {
      PruneAt(replicas, i, now, hw, policy);
      i := i + 1;
    }
  }

  method SlotAt(replicas: seq<Replica>, k: nat, entering: bool, ghost hw: Hardware, ghost policy: Policy.CachePolicy)
    requires Sound(replicas, hw, policy) && k < |replicas|
    modifies replicas[k]
    ensures Sound(replicas, hw, policy)
    ensures forall j :: 0 <= j < |replicas| ==> replicas[j].Repr == old(replicas[j].Repr)
    ensures forall j :: 0 <= j < |replicas| && j != k ==> replicas[j].View() == old(replicas[j].View())
    ensures replicas[k].View() == Slotted(old(replicas[k].View()), entering)
  {
    Separate(replicas, hw, policy, k);
    if entering {
      replicas[k].EnterSlot();
    } else {
      replicas[k].LeaveSlot();
    }
  }

  function Slotted(st: Spec.State, entering: bool): Spec.State {
    if entering then Spec.EnterSlot(st) else Spec.LeaveSlot(st)
  }

  /** What a request does to a replica and what it costs: After and Outcome kept as values, so that
      reasoning about the fleet need not look inside them. */
  datatype Model = Model(serve: (Spec.State, Request) -> Spec.State, quote: (nat, Spec.State,
                                                                             Request) -> RequestResult) {
    ghost predicate Of(hw: Hardware, policy: Policy.CachePolicy) {
      && (forall st, req {:trigger After(policy, hw, st, req)} :: After(policy, hw, st, req) == serve(st, req))
      && (forall k, st, req {:trigger Outcome(hw, k, st, req)} :: Outcome(hw, k, st, req) == quote(k, st, req))
    }
  }

  function Queued(st: Spec.State, done: real): Spec.State {
    st.(pending := st.pending + [done])
  }

  // One replica works, and its completion is queued.
  method ExecuteOne(replica: Replica, req: Request, ghost model: Model)
      returns (r: RequestResult, completed: real)
    requires replica.Valid() && model.Of(replica.hw, replica.policy)
    modifies replica.Repr
    ensures replica.Valid() && fresh(replica.Repr - old(replica.Repr))
    ensures r == model.quote(replica.id, old(replica.View()), req)
    ensures completed == req.now + r.LatencyMs()
    ensures replica.View() == Queued(model.serve(old(replica.View()), req), completed)
  {
    r := Execute(replica, req);
    completed := req.now + r.LatencyMs();
    replica.Enqueue(completed);
  }

  /** One replica works; the others are untouched, and no object becomes shared. */
  method ExecuteAt(replicas: seq<Replica>, k: nat, req: Request, ghost hw: Hardware, ghost policy: Policy.CachePolicy,
                   ghost model: Model) returns (r: RequestResult, completed: real)
    requires Sound(replicas, hw, policy) && k < |replicas| && model.Of(hw, policy)
    modifies replicas[k].Repr
    ensures Sound(replicas, hw, policy)
    ensures forall j :: 0 <= j < |replicas| && j != k ==> replicas[j].Repr == old(replicas[j].Repr)
    ensures fresh(replicas[k].Repr - old(replicas[k].Repr))
    ensures r == model.quote(k, old(replicas[k].View()), req)
    ensures forall j :: 0 <= j < |replicas| && j != k ==> replicas[j].View() == old(replicas[j].View())
    ensures completed == req.now + r.LatencyMs()
    ensures replicas[k].View() == Queued(model.serve(old(replicas[k].View()), req), completed)
  {
    Separate(replicas, hw, policy, k);
    r, completed := ExecuteOne(replicas[k], req, model);
  }

  /** The list of replicas together with everything it owns. */
  class Fleet {
    const replicas: seq<Replica>
    const hw: Hardware
    const policy: Policy.CachePolicy
    ghost const model: Model
    ghost var Repr: set<object>

    ghost predicate Valid()
      reads this, Repr
    {
      && this in Repr
      && model.Of(hw, policy)
      && (forall i :: 0 <= i < |replicas| ==>
            replicas[i] in Repr && replicas[i].Repr <= Repr && this !in replicas[i].Repr)
      && Sound(replicas, hw, policy)
    }

    ghost function Views(): seq<Spec.State>
      reads this, Repr
      requires Valid()
    {
      Router.Views(replicas)
    }

    // Replica(i, hardware, policy) for every i.
    constructor (n: nat, hw: Hardware, policy: Policy.CachePolicy)
      requires n >= 1 && hw.gpuCap > 0
      ensures Valid() && fresh(Repr) && |replicas| == n && this.hw == hw && this.policy == policy
      ensures Views() == seq(n, _ => Spec.EMPTY)
    {
      var rs, shelf := BuildReplicas(n, hw, policy);
      this.replicas, this.hw, this.policy := rs, hw, policy;
      this.model := Model((st, req) => After(policy, hw, st, req), (k: nat, st, req) => Outcome(hw, k, st, req));
      this.Repr := {this} + shelf;
    }

    method Prune(now: real)
      requires Valid()
      modifies Repr
      ensures Valid() && Repr == old(Repr)
      ensures Views() == PrunedAll(old(Views()), now)
    {
      PruneAll(replicas, now, hw, policy);
    }

    // The k-th replica serves a request; its completion is queued.
    method Execute(k: nat, req: Request) returns (r: RequestResult, completed: real)
      requires Valid() && k < |replicas|
      modifies Repr
      ensures Valid() && fresh(Repr - old(Repr))
      ensures r == model.quote(k, old(Views())[k], req)
      ensures completed == req.now + r.LatencyMs()
      ensures Views() == old(Views())[k := Queued(model.serve(old(Views())[k], req), completed)]
    {
      r, completed := ExecuteAt(replicas, k, req, hw, policy, model);
      Adopt(k);
    }

    // Entering or leaving the slot context manager of the k-th replica.
    method Slot(k: nat, entering: bool)
      requires Valid() && k < |replicas|
      modifies Repr
      ensures Valid() && Repr == old(Repr)
      ensures Views() == old(Views())[k := Slotted(old(Views())[k], entering)]
    {
      SlotAt(replicas, k, entering, hw, policy);
    }

    // Takes over the objects the k-th replica has acquired.
    ghost method Adopt(k: nat)
      requires k < |replicas| && this in Repr && model.Of(hw, policy) && Sound(replicas, hw, policy)
      requires forall i :: 0 <= i < |replicas| ==> replicas[i] in Repr && this !in replicas[i].Repr
      requires forall i :: 0 <= i < |replicas| && i != k ==> replicas[i].Repr <= Repr
      modifies this
      ensures Valid() && Repr == old(Repr) + replicas[k].Repr
      ensures Views() == old(Router.Views(replicas))
    {
      Repr := Repr + replicas[k].Repr;
    }
  }

  method BuildReplicas(n: nat, hw: Hardware, policy: Policy.CachePolicy)
      returns (replicas: seq<Replica>, ghost shelf: set<object>)
    requires n >= 1 && hw.gpuCap > 0
    ensures |replicas| == n && Sound(replicas, hw, policy)
    ensures forall i :: 0 <= i < n ==>
              replicas[i] in shelf && replicas[i].Repr <= shelf && replicas[i].View() == Spec.EMPTY
    ensures fresh(shelf)
  {
    replicas, shelf := [], {};
    while |replicas| < n
      invariant |replicas| <= n
      invariant forall i :: 0 <= i < |replicas| ==>
                  && replicas[i].Valid() && replicas[i].id == i && replicas[i].hw == hw && replicas[i].policy == policy
                  && replicas[i].Repr <= shelf && replicas[i].View() == Spec.EMPTY
      invariant fresh(shelf)
      invariant forall i, j :: 0 <= i < j < |replicas| ==> replicas[i].Repr !! replicas[j].Repr
    {
      var r := new Replica(|replicas|, hw, policy);
      replicas, shelf := replicas + [r], shelf + r.Repr;
    }
  }
}
