// Cache retention policies (agentserve/policy.py): where a released session goes, and in which
// order sessions are given up under pressure.
module Policy {
  import opened Models

  datatype Placement = PinGpu | OffloadDram | Drop

  datatype CachePolicy = Lru | AdaptiveTtl(config: PolicyConfig) {

    function OnRelease(e: Entry): Placement {
      match this
      case Lru => PinGpu
      case AdaptiveTtl(c) =>
        if e.IdleMs() <= c.pinMs then PinGpu
        else if e.IdleMs() <= c.offloadMs then OffloadDram
        else Drop
    }

    // Adaptive only: untouched for so long that its score is infinite.
    predicate Dead(e: Entry, now: real)
      requires AdaptiveTtl?
    {
      now - e.lastTouch > config.deadMs
    }

    /** The sort key puts a strictly ahead of b in the victim order. */
    predicate Before(a: Entry, b: Entry, now: real) {
      match this
      case Lru => a.lastTouch < b.lastTouch
      case AdaptiveTtl(c) =>
        // descending (score, lastTouch), where a dead session scores infinity
        if Dead(a, now) != Dead(b, now) then Dead(a, now)
        else if !Dead(a, now) && a.predictedReturn - now != b.predictedReturn - now then
          a.predictedReturn - now > b.predictedReturn - now
        else a.lastTouch > b.lastTouch
    }

    // One insertion of a stable sort: e comes from the left of everything in xs.
    function Insert(e: Entry, xs: seq<Entry>, now: real): seq<Entry> {
      if xs == [] || !Before(xs[0], e, now) then [e] + xs
      else [xs[0]] + Insert(e, xs[1..], now)
    }

    function VictimOrder(xs: seq<Entry>, now: real): seq<Entry> {
      if xs == [] then [] else Insert(xs[0], VictimOrder(xs[1..], now), now)
    }

    ghost predicate Sorted(xs: seq<Entry>, now: real) {
      forall i, j :: 0 <= i < j < |xs| ==> !Before(xs[j], xs[i], now)
    }

    // The same sort key: the score of the dead is infinite, whatever they were expected to do.
    ghost predicate SameKey(a: Entry, b: Entry, now: real) {
      match this
      case Lru => a.lastTouch == b.lastTouch
      case AdaptiveTtl(c) =>
        a.lastTouch == b.lastTouch && (now - a.lastTouch > c.deadMs || a.predictedReturn == b.predictedReturn)
    }

    // The members of xs that share e's sort key, in their original order.
    ghost function Tied(e: Entry, xs: seq<Entry>, now: real): seq<Entry> {
      if xs == [] then []
      else (if SameKey(e, xs[0], now) then [xs[0]] else []) + Tied(e, xs[1..], now)
    }

    lemma {:induction false} InsertAdds(e: Entry, xs: seq<Entry>, now: real)
      ensures |Insert(e, xs, now)| == |xs| + 1
      ensures multiset(Insert(e, xs, now)) == multiset{e} + multiset(xs)
    {
      if xs == [] || !Before(xs[0], e, now) {
      } else {
        InsertAdds(e, xs[1..], now);
        assert xs == [xs[0]] + xs[1..];
      }
    }

    lemma SortedFront(x: Entry, t: seq<Entry>, now: real)
      requires Sorted(t, now) && forall y <- t :: !Before(y, x, now)
      ensures Sorted([x] + t, now)
    {
      var r := [x] + t;
      forall i, j | 0 <= i < j < |r| ensures !Before(r[j], r[i], now) {
        assert r[j] == t[j - 1];
      }
    }

    lemma {:induction false} InsertSorts(e: Entry, xs: seq<Entry>, now: real)
      requires Sorted(xs, now)
      ensures Sorted(Insert(e, xs, now), now)
    {
      if xs == [] {
      } else if !Before(xs[0], e, now) {
        forall y <- xs ensures !Before(y, e, now) {
          var j :| 0 <= j < |xs| && xs[j] == y;
          assert j > 0 ==> !Before(xs[j], xs[0], now);
        }
        SortedFront(e, xs, now);
      } else {
        var t := Insert(e, xs[1..], now);
        InsertSorts(e, xs[1..], now);
        InsertAdds(e, xs[1..], now);
        forall y <- t ensures !Before(y, xs[0], now) {
          assert y in multiset(t);
          if y != e {
            assert y in xs[1..];
          }
        }
        SortedFront(xs[0], t, now);
      }
    }

    lemma {:induction false} InsertStable(e: Entry, xs: seq<Entry>, x: Entry, now: real)
      ensures Tied(x, Insert(e, xs, now), now) == Tied(x, [e] + xs, now)
    {
      if xs == [] || !Before(xs[0], e, now) {
      } else {
        InsertStable(e, xs[1..], x, now);
        var t := Insert(e, xs[1..], now);
        assert ([xs[0]] + t)[1..] == t;
        assert ([e] + xs)[1..] == xs;
        assert ([e] + xs[1..])[1..] == xs[1..];
      }
    }

    /** Python's sorted: a permutation, in key order, that keeps equal keys in dictionary order. */
    lemma {:induction false} VictimOrderIsStableSort(xs: seq<Entry>, now: real)
      ensures |VictimOrder(xs, now)| == |xs|
      ensures multiset(VictimOrder(xs, now)) == multiset(xs)
      ensures Sorted(VictimOrder(xs, now), now)
      ensures forall x :: Tied(x, VictimOrder(xs, now), now) == Tied(x, xs, now)
    {
      if xs != [] {
        VictimOrderIsStableSort(xs[1..], now);
        InsertAdds(xs[0], VictimOrder(xs[1..], now), now);
        InsertSorts(xs[0], VictimOrder(xs[1..], now), now);
        assert xs == [xs[0]] + xs[1..];
        forall x ensures Tied(x, VictimOrder(xs, now), now) == Tied(x, xs, now) {
          var t := VictimOrder(xs[1..], now);
          InsertStable(xs[0], t, x, now);
          assert ([xs[0]] + t)[1..] == t;
        }
      }
    }

    /** The order read off the entries. LRU: by last touch, oldest first. Adaptive: whoever has been
        untouched for longer than deadMs first, then whoever is due back last; the dead among
        themselves, and the live due back at the same time, youngest touch first. */
    lemma VictimOrderInFields(xs: seq<Entry>, now: real, i: nat, j: nat)
      requires i < j < |xs|
      ensures |VictimOrder(xs, now)| == |xs|
      ensures var a, b := VictimOrder(xs, now)[i], VictimOrder(xs, now)[j];
              match this
              case Lru => a.lastTouch <= b.lastTouch
              case AdaptiveTtl(c) =>
                && (now - b.lastTouch > c.deadMs ==> now - a.lastTouch > c.deadMs)
                && (now - a.lastTouch <= c.deadMs ==> b.predictedReturn <= a.predictedReturn)
                && (now - b.lastTouch > c.deadMs
                    || (now - a.lastTouch <= c.deadMs && a.predictedReturn == b.predictedReturn) ==>
                      a.lastTouch >= b.lastTouch)
    {
      VictimOrderIsStableSort(xs, now);
      assert !Before(VictimOrder(xs, now)[j], VictimOrder(xs, now)[i], now);
    }
  }
}
