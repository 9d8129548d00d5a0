// Python dictionaries keep insertion order, and the sorts and minima of the scheduler break
// ties by it. A dictionary is therefore the list of its items in insertion order.
module OrderedDict {

  type Dict<V> = seq<(string, V)>

  // Position of a key, or the length of the dictionary when the key is missing.
  function Index<V>(d: Dict<V>, key: string): (i: nat)
    ensures i <= |d|
    ensures i < |d| ==> d[i].0 == key
    ensures forall j :: 0 <= j < i ==> d[j].0 != key
  {
    IndexFrom(d, key, 0)
  }

  function IndexFrom<V>(d: Dict<V>, key: string, from: nat): (i: nat)
    requires from <= |d|
    ensures from <= i <= |d|
    ensures i < |d| ==> d[i].0 == key
    ensures forall j :: from <= j < i ==> d[j].0 != key
    decreases |d| - from
  {
    if from == |d| || d[from].0 == key then from else IndexFrom(d, key, from + 1)
  }

  predicate Has<V>(d: Dict<V>, key: string) {
    Index(d, key) < |d|
  }

  function Get<V>(d: Dict<V>, key: string): V
    requires Has(d, key)
  {
    d[Index(d, key)].1
  }

  // d[key] = value: an existing key keeps its place.
  function Put<V>(d: Dict<V>, key: string, value: V): Dict<V> {
    var i := Index(d, key);
    if i == |d| then d + [(key, value)] else d[i := (key, value)]
  }

  // d.pop(key, None)
  function Pop<V>(d: Dict<V>, key: string): Dict<V> {
    var i := Index(d, key);
    if i == |d| then d else d[..i] + d[i + 1..]
  }

  // d.move_to_end(key)
  function MoveToEnd<V>(d: Dict<V>, key: string): Dict<V>
    requires Has(d, key)
  {
    Pop(d, key) + [(key, Get(d, key))]
  }

  function Values<V>(d: Dict<V>): (vs: seq<V>)
    ensures |vs| == |d|
    ensures forall i :: 0 <= i < |d| ==> vs[i] == d[i].1
  {
    seq(|d|, i requires 0 <= i < |d| => d[i].1)
  }

  ghost predicate Unique<V>(d: Dict<V>) {
    forall i, j :: 0 <= i < j < |d| ==> d[i].0 != d[j].0
  }

  lemma HasAt<V>(d: Dict<V>, i: nat)
    requires i < |d|
    ensures Has(d, d[i].0)
    ensures Unique(d) ==> Index(d, d[i].0) == i && Get(d, d[i].0) == d[i].1
  {
  }

  lemma HasIn<V>(d: Dict<V>, p: (string, V))
    requires p in d
    ensures Has(d, p.0)
    ensures Unique(d) ==> Get(d, p.0) == p.1
  {
    var i :| 0 <= i < |d| && d[i] == p;
    HasAt(d, i);
  }

  lemma PutFacts<V>(d: Dict<V>, key: string, value: V)
    requires Unique(d)
    ensures var r := Put(d, key, value);
            && Unique(r)
            && |r| == |d| + (if Has(d, key) then 0 else 1)
            && Has(r, key) && Get(r, key) == value
            && (forall p :: p in r <==> p == (key, value) || (p in d && p.0 != key))
            && (forall k :: k != key ==> Has(r, k) == Has(d, k))
            && (forall k :: k != key && Has(d, k) ==> Get(r, k) == Get(d, k))
  {
    var r := Put(d, key, value);
    var i := Index(d, key);
    HasAt(r, i);
    forall p ensures p in r <==> p == (key, value) || (p in d && p.0 != key) {
      if p in d && p.0 != key {
        var j :| 0 <= j < |d| && d[j] == p;
        assert r[j] == p;
      }
      if p in r && p != (key, value) {
        var j :| 0 <= j < |r| && r[j] == p;
        assert j != i && j < |d| && d[j] == p;
      }
      assert r[i] == (key, value);
    }
    forall k | k != key
      ensures Has(r, k) == Has(d, k)
      ensures Has(d, k) ==> Get(r, k) == Get(d, k)
    {
      if Has(d, k) {
        assert r[Index(d, k)] == d[Index(d, k)];
        HasAt(r, Index(d, k));
      }
      if Has(r, k) {
        assert d[Index(r, k)] == r[Index(r, k)];
        HasAt(d, Index(r, k));
      }
    }
  }

  lemma PopFacts<V>(d: Dict<V>, key: string)
    requires Unique(d)
    ensures var r := Pop(d, key);
            && Unique(r)
            && |r| == |d| - (if Has(d, key) then 1 else 0)
            && !Has(r, key)
            && (forall p :: p in r <==> p in d && p.0 != key)
            && (forall k :: k != key ==> Has(r, k) == Has(d, k))
            && (forall k :: k != key && Has(d, k) ==> Get(r, k) == Get(d, k))
  {
    var r := Pop(d, key);
    var i := Index(d, key);
    if i < |d| {
      assert forall j :: 0 <= j < |r| ==> r[j] == if j < i then d[j] else d[j + 1];
    }
    forall p ensures p in r <==> p in d && p.0 != key {
      if p in d && p.0 != key {
        var j :| 0 <= j < |d| && d[j] == p;
        assert if j < i || i == |d| then r[j] == p else r[j - 1] == p;
      }
      if p in r {
        var j :| 0 <= j < |r| && r[j] == p;
        assert p == if j < i || i == |d| then d[j] else d[j + 1];
      }
    }
    forall k | k != key
      ensures Has(r, k) == Has(d, k)
      ensures Has(d, k) ==> Get(r, k) == Get(d, k)
    {
      if Has(d, k) {
        assert (k, Get(d, k)) == d[Index(d, k)];
        assert (k, Get(d, k)) in r;
        HasIn(r, (k, Get(d, k)));
      }
      if Has(r, k) {
        assert (k, Get(r, k)) == r[Index(r, k)];
        assert (k, Get(r, k)) in d;
        HasIn(d, (k, Get(r, k)));
      }
    }
  }
}
