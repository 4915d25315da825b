/** JavaScript's `Map` and `Set`: entries keep the order in which their keys were first added. */
module OrderedMap {

  function Range<T>(s: seq<T>): set<T> { set x | x in s }

  ghost predicate Distinct<T>(s: seq<T>) {
    forall i, j :: 0 <= i < j < |s| ==> s[i] != s[j]
  }

  /** `set.add(x)` */
  function Add<T(==)>(s: seq<T>, x: T): seq<T> { if x in s then s else s + [x] }

  /** `items.forEach(x => set.add(x))` */
  function AddAll<T(==)>(s: seq<T>, items: seq<T>): seq<T> {
    if items == [] then s else Add(AddAll(s, items[..|items| - 1]), items[|items| - 1])
  }

  lemma AddAdds<T>(s: seq<T>, x: T)
    ensures Range(Add(s, x)) == Range(s) + {x}
    ensures Distinct(s) ==> Distinct(Add(s, x))
  {
  }

  lemma {:induction false} AddAllAdds<T>(s: seq<T>, items: seq<T>)
    ensures Range(AddAll(s, items)) == Range(s) + Range(items)
    ensures Distinct(s) ==> Distinct(AddAll(s, items))
  {
    if items != [] {
      var init, last := items[..|items| - 1], items[|items| - 1];
      AddAllAdds(s, init);
      AddAdds(AddAll(s, init), last);
      assert items == init + [last];
    }
  }

  /** Lists without repetition that hold the same members rearrange each other. */
  lemma DistinctSameMembers<T>(a: seq<T>, b: seq<T>)
    requires Distinct(a) && Distinct(b) && Range(a) == Range(b)
    ensures multiset(a) == multiset(b)
  {
    forall x ensures multiset(a)[x] == multiset(b)[x] {
      AtMostOnce(a, x);
      AtMostOnce(b, x);
      assert x in a <==> x in Range(a);
      assert x in b <==> x in Range(b);
    }
  }

  lemma {:induction false} AtMostOnce<T>(s: seq<T>, x: T)
    requires Distinct(s)
    ensures multiset(s)[x] == if x in s then 1 else 0
  {
    if s != [] {
      var init, last := s[..|s| - 1], s[|s| - 1];
      assert s == init + [last];
      AtMostOnce(init, x);
    }
  }

  datatype OrdMap<K(==), +V> = OrdMap(keys: seq<K>, at: map<K, V>)
  {
    ghost predicate Valid() { Distinct(keys) && Range(keys) == at.Keys }

    function Put(k: K, v: V): OrdMap<K, V> {
      OrdMap(if k in at then keys else keys + [k], at[k := v])
    }
  }

  function Empty<K, V>(): OrdMap<K, V> { OrdMap([], map[]) }

  lemma PutKeepsValid<K, V>(m: OrdMap<K, V>, k: K, v: V)
    requires m.Valid()
    ensures m.Put(k, v).Valid()
  {
    var keys := m.Put(k, v).keys;
    assert k in Range(m.keys) <==> k in m.keys;
    if k !in m.at {
      assert Range(keys) == Range(m.keys) + {k};
    } else {
      assert m.at[k := v].Keys == m.at.Keys;
    }
  }

  /** The sum of a measure over the entries at `keys`. */
  function SumAt<K, V>(keys: seq<K>, at: map<K, V>, measure: V -> nat): nat
    requires forall k <- keys :: k in at
  {
    if keys == [] then 0
    else
      var last := keys[|keys| - 1];
      assert last in keys;
      SumAt(keys[..|keys| - 1], at, measure) + measure(at[last])
  }

  ghost function Sum<K, V>(m: OrdMap<K, V>, measure: V -> nat): nat
    requires m.Valid()
  {
    KeysAreBound(m);
    SumAt(m.keys, m.at, measure)
  }

  lemma KeysAreBound<K, V>(m: OrdMap<K, V>)
    requires m.Valid()
    ensures forall k <- m.keys :: k in m.at
  {
    forall k | k in m.keys ensures k in m.at {
      assert k in Range(m.keys);
    }
  }

  lemma {:induction false} SumElsewhere<K, V>(keys: seq<K>, at: map<K, V>, k: K, v: V, measure: V -> nat)
    requires (forall x <- keys :: x in at) && k !in keys
    ensures SumAt(keys, at[k := v], measure) == SumAt(keys, at, measure)
  {
    if keys != [] {
      assert keys[|keys| - 1] in keys;
      SumElsewhere(keys[..|keys| - 1], at, k, v, measure);
    }
  }

  lemma {:induction false} SumUpdated<K, V>(keys: seq<K>, at: map<K, V>, k: K, v: V, measure: V -> nat)
    requires Distinct(keys) && (forall x <- keys :: x in at) && k in keys
    ensures SumAt(keys, at[k := v], measure) == SumAt(keys, at, measure) - measure(at[k]) + measure(v)
  {
    var init, last := keys[..|keys| - 1], keys[|keys| - 1];
    assert keys == init + [last];
    if last == k {
      SumElsewhere(init, at, k, v, measure);
    } else {
      SumUpdated(init, at, k, v, measure);
    }
  }

  /** Putting an entry changes a sum by the difference it makes. */
  lemma SumOfPut<K, V>(m: OrdMap<K, V>, k: K, v: V, measure: V -> nat)
    requires m.Valid()
    ensures m.Put(k, v).Valid()
    ensures Sum(m.Put(k, v), measure) + (if k in m.at then measure(m.at[k]) else 0) == Sum(m, measure) + measure(v)
  {
    PutKeepsValid(m, k, v);
    KeysAreBound(m);
    assert k in Range(m.keys) <==> k in m.keys;
    if k in m.at {
      SumUpdated(m.keys, m.at, k, v, measure);
    } else {
      SumElsewhere(m.keys, m.at, k, v, measure);
      assert (m.keys + [k])[..|m.keys|] == m.keys;
    }
  }
}
