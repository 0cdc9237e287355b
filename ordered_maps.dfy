/**
 * A Python `dict` with string keys: its contents together with the order in
 * which keys were first inserted, which is the order its `.values()` and
 * `.keys()` iterate in. Assigning to an existing key keeps its position.
 */
module OrderedMaps {
  import opened Wrappers

  datatype OMap<V> = OMap(keys: seq<string>, items: map<string, V>) {

    /** Keys are listed once each, and exactly the keys of `items` are listed. */
    ghost predicate Valid() {
      && (forall i, j :: 0 <= i < j < |keys| ==> keys[i] != keys[j])
      && (forall k :: k in keys ==> k in items)
      && (forall k :: k in items ==> k in keys)
    }

    /** `d.get(k)`. */
    function Get(k: string): (r: Option<V>)
      ensures r.Some? <==> k in items
      ensures r.Some? ==> r.value == items[k]
    {
      if k in items then Some(items[k]) else None
    }

    /** `d[k] = v`. */
    function Put(k: string, v: V): (r: OMap<V>)
      ensures Valid() ==> r.Valid()
      ensures k in r.items && r.items[k] == v
      ensures forall k' :: k' != k ==> (k' in r.items <==> k' in items)
      ensures forall k' :: k' != k && k' in items ==> r.items[k'] == items[k']
      ensures k in items ==> r.keys == keys
      ensures k !in items ==> r.keys == keys + [k]
    {
      if k in items then OMap(keys, items[k := v]) else OMap(keys + [k], items[k := v])
    }

    /** `del d[k]`, for a key that may be absent. */
    function Remove(k: string): (r: OMap<V>)
      ensures Valid() ==> r.Valid()
      ensures k !in r.items
      ensures forall k' :: k' != k ==> (k' in r.items <==> k' in items)
      ensures forall k' :: k' != k && k' in items ==> r.items[k'] == items[k']
      ensures forall k' :: k' in r.keys <==> k' in keys && k' != k
    {
      OMap(Without(keys, k), items - {k})
    }

    /** `{k: f(v) for k, v in d.items()}`: the same keys in the same order. */
    function MapValues<W>(f: V -> W): (r: OMap<W>)
      ensures Valid() ==> r.Valid()
      ensures r.keys == keys && r.items.Keys == items.Keys
      ensures forall k :: k in items ==> r.items[k] == f(items[k])
    {
      OMap(keys, map k | k in items :: f(items[k]))
    }

    /** `list(d.values())`. */
    function Values(): (r: seq<V>)
      requires Valid()
      ensures |r| == |keys|
      ensures forall i :: 0 <= i < |keys| ==> r[i] == items[keys[i]]
    {
      seq(|keys|, i requires 0 <= i < |keys| => items[keys[i]])
    }
  }

  /** `{}`. */
  function Empty<V>(): (r: OMap<V>)
    ensures r.Valid() && r.keys == [] && r.items == map[]
  {
    OMap([], map[])
  }

  predicate Distinct(ks: seq<string>) {
    forall i, j :: 0 <= i < j < |ks| ==> ks[i] != ks[j]
  }

  /** `ks` without `k`, order kept. */
  function Without(ks: seq<string>, k: string): (r: seq<string>)
    ensures forall x :: x in r <==> x in ks && x != k
    ensures Distinct(ks) ==> Distinct(r)
  {
    if ks == [] then []
    else
      var rest := Without(ks[1..], k);
      if ks[0] == k then rest
      else
        DistinctCons(ks, rest);
        [ks[0]] + rest
  }

  lemma DistinctCons(ks: seq<string>, rest: seq<string>)
    requires ks != []
    requires forall x :: x in rest ==> x in ks[1..]
    requires Distinct(ks[1..]) ==> Distinct(rest)
    ensures Distinct(ks) ==> Distinct([ks[0]] + rest)
  {
    if Distinct(ks) {
      assert ks[0] !in ks[1..] by {
        forall j | 0 <= j < |ks| - 1
          ensures ks[1..][j] != ks[0]
        {
          assert ks[1..][j] == ks[j + 1];
        }
      }
      var r := [ks[0]] + rest;
      forall i, j | 0 <= i < j < |r|
        ensures r[i] != r[j]
      {
        if i == 0 {
          assert r[j] in rest;
        } else {
          assert r[i] == rest[i - 1] && r[j] == rest[j - 1];
        }
      }
    }
  }

  /** `d.update(...)` with the keys `ks` in order, each taking its value from `vals`. */
  function PutAll<V>(m: OMap<V>, ks: seq<string>, vals: map<string, V>): (r: OMap<V>)
    requires forall k :: k in ks ==> k in vals
    ensures m.Valid() ==> r.Valid()
    ensures forall k :: k in r.items <==> k in m.items || k in ks
    ensures forall k :: k in r.items ==> r.items[k] == if k in ks then vals[k] else m.items[k]
    decreases |ks|
  {
    if ks == [] then m
    else PutAll(m, ks[..|ks| - 1], vals).Put(ks[|ks| - 1], vals[ks[|ks| - 1]])
  }

  lemma PutAllStep<V>(m: OMap<V>, ks: seq<string>, vals: map<string, V>, i: nat)
    requires i < |ks| && forall k :: k in ks ==> k in vals
    ensures forall k :: k in ks[..i + 1] ==> k in vals
    ensures PutAll(m, ks[..i + 1], vals) == PutAll(m, ks[..i], vals).Put(ks[i], vals[ks[i]])
  {
    assert ks[..i + 1][..i] == ks[..i];
  }

  /** `{**a, **b}`: every key of either, the value of `b` winning on a shared key. */
  function Merge<V>(a: OMap<V>, b: OMap<V>): (r: OMap<V>)
    requires b.Valid()
    ensures a.Valid() ==> r.Valid()
    ensures forall k :: k in r.items <==> k in a.items || k in b.items
    ensures forall k :: k in b.items ==> r.items[k] == b.items[k]
    ensures forall k :: k in a.items && k !in b.items ==> r.items[k] == a.items[k]
  {
    PutAll(a, b.keys, b.items)
  }

  /** The dictionary a loop of `d[k] = v` over the pairs builds: a later pair wins. */
  function FromPairs<V>(pairs: seq<(string, V)>): (r: OMap<V>)
    ensures r.Valid()
    decreases |pairs|
  {
    if pairs == [] then Empty()
    else
      var last := pairs[|pairs| - 1];
      FromPairs(pairs[..|pairs| - 1]).Put(last.0, last.1)
  }

  /** The names of a list of pairs. */
  function Names<V>(pairs: seq<(string, V)>): (r: seq<string>)
    ensures |r| == |pairs| && forall j :: 0 <= j < |pairs| ==> r[j] == pairs[j].0
  {
    seq(|pairs|, j requires 0 <= j < |pairs| => pairs[j].0)
  }

  lemma FromPairsStep<V>(pairs: seq<(string, V)>, k: nat)
    requires k < |pairs|
    ensures FromPairs(pairs[..k + 1]) == FromPairs(pairs[..k]).Put(pairs[k].0, pairs[k].1)
  {
    assert pairs[..k + 1][..k] == pairs[..k];
  }

  /** The keys of the dictionary are the names of the pairs. */
  lemma {:induction false} FromPairsKeys<V>(pairs: seq<(string, V)>)
    ensures forall n :: n in FromPairs(pairs).items <==> n in Names(pairs)
    decreases |pairs|
  {
    if pairs == [] {
      return;
    }
    var init := pairs[..|pairs| - 1];
    FromPairsKeys(init);
    assert Names(pairs) == Names(init) + [pairs[|pairs| - 1].0];
  }

  /** A pair that no later pair overrides decides its name's value. */
  lemma {:induction false} FromPairsLast<V>(pairs: seq<(string, V)>, j: nat)
    requires j < |pairs| && forall m :: j < m < |pairs| ==> pairs[m].0 != pairs[j].0
    ensures pairs[j].0 in FromPairs(pairs).items && FromPairs(pairs).items[pairs[j].0] == pairs[j].1
    decreases |pairs|
  {
    var init, last := pairs[..|pairs| - 1], pairs[|pairs| - 1];
    assert FromPairs(pairs) == FromPairs(init).Put(last.0, last.1);
    if j < |pairs| - 1 {
      assert init[j] == pairs[j];
      FromPairsLast(init, j);
    }
  }

  /** `xs[i]` is the last element of `xs` with its key. */
  predicate IsLast<T>(xs: seq<T>, key: T -> string, i: nat)
    requires i < |xs|
  {
    forall j :: i < j < |xs| ==> key(xs[j]) != key(xs[i])
  }

  /** `{key(x): x for x in xs}`: a later element replaces an earlier one with the same key. */
  function Collect<T>(xs: seq<T>, key: T -> string): (r: OMap<T>)
    ensures r.Valid()
    decreases |xs|
  {
    if xs == [] then Empty() else Collect(xs[..|xs| - 1], key).Put(key(xs[|xs| - 1]), xs[|xs| - 1])
  }

  /** The keys of `Collect` are exactly the keys of the elements. */
  lemma {:induction false} CollectKeys<T>(xs: seq<T>, key: T -> string)
    ensures Collect(xs, key).items.Keys == set x | x in xs :: key(x)
    decreases |xs|
  {
    if xs != [] {
      var n := |xs| - 1;
      var prev := Collect(xs[..n], key);
      assert Collect(xs, key) == prev.Put(key(xs[n]), xs[n]);
      CollectKeys(xs[..n], key);
      PutKeys(prev, key(xs[n]), xs[n]);
      KeysSnoc(xs, key);
    }
  }

  lemma PutKeys<V>(m: OMap<V>, k: string, v: V)
    ensures m.Put(k, v).items.Keys == m.items.Keys + {k}
  {
  }

  lemma KeysSnoc<T>(xs: seq<T>, key: T -> string)
    requires xs != []
    ensures (set x | x in xs :: key(x)) == (set x | x in xs[..|xs| - 1] :: key(x)) + {key(xs[|xs| - 1])}
  {
    var n := |xs| - 1;
    var init := xs[..n];
    forall x | x in xs
      ensures x in init || x == xs[n]
    {
      var j :| 0 <= j < |xs| && xs[j] == x;
      if j < n {
        assert init[j] == x;
      }
    }
    assert xs == init + [xs[n]];
  }

  lemma CollectSnoc<T>(xs: seq<T>, x: T, key: T -> string)
    ensures Collect(xs + [x], key) == Collect(xs, key).Put(key(x), x)
  {
    assert (xs + [x])[..|xs|] == xs;
  }

  /** Each key of `Collect` holds the last element with that key. */
  lemma {:induction false} CollectLast<T>(xs: seq<T>, key: T -> string, i: nat)
    requires i < |xs| && IsLast(xs, key, i)
    ensures key(xs[i]) in Collect(xs, key).items && Collect(xs, key).items[key(xs[i])] == xs[i]
    decreases |xs|, 1
  {
    if i < |xs| - 1 {
      CollectLastBefore(xs, key, i);
    } else {
      assert Collect(xs, key) == Collect(xs[..i], key).Put(key(xs[i]), xs[i]);
    }
  }

  lemma {:induction false} CollectLastBefore<T>(xs: seq<T>, key: T -> string, i: nat)
    requires i < |xs| - 1 && IsLast(xs, key, i)
    ensures key(xs[i]) in Collect(xs, key).items && Collect(xs, key).items[key(xs[i])] == xs[i]
    decreases |xs|, 0
  {
    var n := |xs| - 1;
    var init := xs[..n];
    var prev := Collect(init, key);
    assert Collect(xs, key) == prev.Put(key(xs[n]), xs[n]);
    assert init[i] == xs[i];
    assert IsLast(init, key, i) by {
      forall j | i < j < n
        ensures key(init[j]) != key(init[i])
      {
        assert init[j] == xs[j];
      }
    }
    CollectLast(init, key, i);
    PutOther(prev, key(xs[n]), xs[n], key(xs[i]));
  }

  /** Putting one key leaves another as it was. */
  lemma PutOther<V>(m: OMap<V>, k: string, v: V, other: string)
    requires other != k && other in m.items
    ensures other in m.Put(k, v).items && m.Put(k, v).items[other] == m.items[other]
  {
  }

  /** Inserting a new key appends its value to `values()`; updating one replaces it in place. */
  lemma PutValues<V>(m: OMap<V>, k: string, v: V)
    requires m.Valid()
    ensures k !in m.items ==> m.Put(k, v).Values() == m.Values() + [v]
    ensures forall i :: 0 <= i < |m.keys| && m.keys[i] == k ==>
              m.Put(k, v).Values() == m.Values()[i := v]
  {
    var r := m.Put(k, v);
    if k !in m.items {
      assert r.Values() == m.Values() + [v];
    } else {
      forall i | 0 <= i < |m.keys| && m.keys[i] == k
        ensures r.Values() == m.Values()[i := v]
      {
        forall j | 0 <= j < |m.keys|
          ensures r.Values()[j] == m.Values()[i := v][j]
        {
          if j != i {
            assert m.keys[j] != k;
          }
        }
      }
    }
  }
}
