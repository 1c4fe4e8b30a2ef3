/** A Python dictionary as a value: insertion order, one item per key. */
module Dict {
  import opened Wrappers

  type Dict<K, V> = seq<(K, V)>

  ghost predicate Unique<K, V>(d: Dict<K, V>) {
    forall i, j :: 0 <= i < j < |d| ==> d[i].0 != d[j].0
  }

  function Keys<K, V>(d: Dict<K, V>): set<K> {
    set i | 0 <= i < |d| :: d[i].0
  }

  function Find<K(==, !new), V(!new)>(d: Dict<K, V>, key: K): (r: Option<V>)
    ensures r.Some? <==> key in Keys(d)
    ensures r.Some? ==> (key, r.value) in d
  {
    if d == [] then None
    else if d[0].0 == key then
      assert d[0] == (key, d[0].1);
      Some(d[0].1)
    else
      assert Keys(d) == {d[0].0} + Keys(d[1..]);
      Find(d[1..], key)
  }

  /** `d.pop(key, None)` */
  function Pop<K(==, !new), V(!new)>(d: Dict<K, V>, key: K): (r: Dict<K, V>)
    ensures forall x :: x in r <==> x in d && x.0 != key
    ensures |r| <= |d|
  {
    if d == [] then []
    else if d[0].0 == key then Pop(d[1..], key)
    else [d[0]] + Pop(d[1..], key)
  }

  /** `d[key] = value`: a key already there keeps its place. */
  function Put<K(==, !new), V(!new)>(d: Dict<K, V>, key: K, value: V): (r: Dict<K, V>)
    ensures |d| <= |r| <= |d| + 1
  {
    if d == [] then [(key, value)]
    else if d[0].0 == key then [(key, value)] + d[1..]
    else [d[0]] + Put(d[1..], key, value)
  }

  lemma KeyAt<K(!new), V(!new)>(d: Dict<K, V>, key: K)
    ensures key in Keys(d) <==> exists x :: x in d && x.0 == key
  {
    if x :| x in d && x.0 == key {
      var i :| 0 <= i < |d| && d[i] == x;
      assert d[i].0 == key;
    }
  }

  /** In a dictionary an item is what its key finds. */
  lemma {:induction false} FindUnique<K(!new), V(!new)>(d: Dict<K, V>, key: K, value: V)
    requires Unique(d) && (key, value) in d
    ensures Find(d, key) == Some(value)
  {
    if d[0].0 == key {
      var i :| 0 <= i < |d| && d[i] == (key, value);
      assert i == 0;
    } else {
      FindUnique(d[1..], key, value);
    }
  }

  lemma {:induction false} PopUnique<K(!new), V(!new)>(d: Dict<K, V>, key: K)
    requires Unique(d)
    ensures Unique(Pop(d, key))
  {
    if d != [] {
      PopUnique(d[1..], key);
      var rest := Pop(d[1..], key);
      forall j | 0 <= j < |rest| ensures rest[j].0 != d[0].0 {
        assert rest[j] in d[1..];
      }
    }
  }

  lemma {:induction false} PopAbsent<K(!new), V(!new)>(d: Dict<K, V>, key: K)
    requires key !in Keys(d)
    ensures Pop(d, key) == d
  {
    if d != [] {
      assert Keys(d) == {d[0].0} + Keys(d[1..]);
      PopAbsent(d[1..], key);
    }
  }

  lemma {:induction false} PutAbsent<K(!new), V(!new)>(d: Dict<K, V>, key: K, value: V)
    requires key !in Keys(d)
    ensures Put(d, key, value) == d + [(key, value)]
  {
    if d != [] {
      assert Keys(d) == {d[0].0} + Keys(d[1..]);
      PutAbsent(d[1..], key, value);
    }
  }

  lemma {:induction false} PutMeaning<K(!new), V(!new)>(d: Dict<K, V>, key: K, value: V)
    requires Unique(d)
    ensures Unique(Put(d, key, value))
    ensures forall x :: x in Put(d, key, value) <==> x == (key, value) || (x in d && x.0 != key)
  {
    if d != [] {
      if d[0].0 == key {
        forall x | x in d[1..] ensures x.0 != key {
          var i :| 1 <= i < |d| && d[i] == x;
        }
        assert forall x :: x in d <==> x == d[0] || x in d[1..];
      } else {
        PutMeaning(d[1..], key, value);
        var rest := Put(d[1..], key, value);
        forall j | 0 <= j < |rest| ensures rest[j].0 != d[0].0 {
          assert rest[j] in rest;
          if rest[j] in d[1..] {
            var i :| 1 <= i < |d| && d[i] == rest[j];
          }
        }
        assert forall x :: x in d <==> x == d[0] || x in d[1..];
      }
    }
  }
}
