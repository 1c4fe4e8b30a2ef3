/** The cache as one thread sees it: `TTLCache` in its own form, against a timestamped map. */
module TtlCache {
  import opened Wrappers
  import opened Dict

  datatype Entry<V> = Entry(storedAt: real, value: V)

  type Store<K, V> = Dict<K, Entry<V>>

  /** The value a get at `now` may answer with: stored, and not older than the time to live. */
  function Fresh<K(==, !new), V(!new)>(store: Store<K, V>, key: K, now: real, ttl: real): Option<V> {
    var found := Find(store, key);
    if found.Some? && now - found.value.storedAt <= ttl then Some(found.value.value) else None
  }

  /** The last `n` items: what is left once the oldest insertions beyond `n` are gone. */
  function Newest<T>(n: nat, items: seq<T>): seq<T> {
    if |items| <= n then items else items[|items| - n..]
  }

  ghost predicate StampsAscend<K, V>(store: Store<K, V>) {
    forall i, j :: 0 <= i < j < |store| ==> store[i].1.storedAt <= store[j].1.storedAt
  }

  /** The items whose key is not among `keys`, in order. */
  function Without<K(==, !new), V(!new)>(store: Store<K, V>, keys: set<K>): (r: Store<K, V>)
    ensures forall x :: x in r <==> x in store && x.0 !in keys
    ensures |r| <= |store|
  {
    if store == [] then []
    else (if store[0].0 in keys then [] else [store[0]]) + Without(store[1..], keys)
  }

  lemma {:induction false} WithoutNone<K(!new), V(!new)>(store: Store<K, V>)
    ensures Without(store, {}) == store
  {
    if store != [] {
      WithoutNone(store[1..]);
    }
  }

  lemma {:induction false} WithoutOneMore<K(!new), V(!new)>(store: Store<K, V>, keys: set<K>, key: K)
    ensures Pop(Without(store, keys), key) == Without(store, keys + {key})
  {
    if store != [] {
      WithoutOneMore(store[1..], keys, key);
      var rest := Without(store[1..], keys);
      assert ([store[0]] + rest)[1..] == rest;
      assert [] + rest == rest;
    }
  }

  /** `[key for key in store if accepts(key)]` */
  function Accepted<K(!new), V(!new)>(store: Store<K, V>, accepts: K -> bool): (r: seq<K>)
    ensures forall k :: k in r <==> k in Keys(store) && accepts(k)
  {
    if store == [] then []
    else
      assert Keys(store) == {store[0].0} + Keys(store[1..]);
      (if accepts(store[0].0) then [store[0].0] else []) + Accepted(store[1..], accepts)
  }

  lemma {:induction false} PopStamps<K(!new), V(!new)>(store: Store<K, V>, key: K)
    requires StampsAscend(store)
    ensures StampsAscend(Pop(store, key))
  {
    if store != [] {
      PopStamps(store[1..], key);
      var rest := Pop(store[1..], key);
      forall j | 0 <= j < |rest| ensures store[0].1.storedAt <= rest[j].1.storedAt {
        assert rest[j] in store[1..];
        var i :| 1 <= i < |store| && store[i] == rest[j];
      }
    }
  }

  /** In a dictionary the head is the only item under its key. */
  lemma PopHead<K(!new), V(!new)>(store: Store<K, V>)
    requires Unique(store) && store != []
    ensures Pop(store, store[0].0) == store[1..]
  {
    var rest := store[1..];
    forall i | 0 <= i < |rest| ensures rest[i].0 != store[0].0 {
      assert rest[i] == store[i + 1];
    }
    PopAbsent(rest, store[0].0);
  }

  lemma PopKeys<K(!new), V(!new)>(store: Store<K, V>, key: K)
    ensures Keys(Pop(store, key)) == Keys(store) - {key}
  {
    forall k ensures k in Keys(Pop(store, key)) <==> k in Keys(store) - {key} {
      KeyAt(Pop(store, key), k);
      KeyAt(store, k);
    }
  }

  lemma KeysSnoc<K(!new), V(!new)>(store: Store<K, V>, key: K, entry: Entry<V>)
    ensures Keys(store + [(key, entry)]) == Keys(store) + {key}
  {
    var full := store + [(key, entry)];
    assert full[|store|].0 == key;
    assert forall i :: 0 <= i < |store| ==> full[i] == store[i];
  }

  ghost predicate StampedBy<K(!new), V(!new)>(store: Store<K, V>, latest: real) {
    forall x :: x in store ==> x.1.storedAt <= latest
  }

  class TTLCache<K(==, !new), V(!new)> {
    const ttl: real
    const maxEntries: nat
    var store: Store<K, V>
    var keyLocks: set<K>
    ghost var latest: real

    ghost predicate Valid()
      reads this
    {
      && Unique(store)
      && |store| <= maxEntries
      && StampsAscend(store)
      && StampedBy(store, latest)
      && Keys(store) <= keyLocks
    }

    constructor (ttl: real, maxEntries: nat)
      ensures Valid() && store == [] && keyLocks == {} && this.ttl == ttl && this.maxEntries == maxEntries
    {
      this.ttl := ttl;
      this.maxEntries := maxEntries;
      store := [];
      keyLocks := {};
      latest := 0.0;
    }

    /** Drop one key from both maps. */
    method EvictLocked(key: K)
      requires Unique(store) && StampsAscend(store)
      modifies this`store, this`keyLocks
      ensures store == Pop(old(store), key) && keyLocks == old(keyLocks) - {key}
      ensures Unique(store) && StampsAscend(store) && |store| <= |old(store)|
      ensures Keys(store) == Keys(old(store)) - {key}
    {
      PopUnique(store, key);
      PopStamps(store, key);
      PopKeys(store, key);
      store := Pop(store, key);
      keyLocks := keyLocks - {key};
    }

    /** The live value, dropping the entry in place when it has aged past the time to live. */
    method Read(key: K, now: real) returns (cached: Option<V>)
      requires Valid()
      modifies this`store, this`keyLocks
      ensures Valid()
      ensures cached == Fresh(old(store), key, now, ttl)
      ensures cached.Some? ==> store == old(store) && keyLocks == old(keyLocks)
      ensures cached.None? ==> store == Pop(old(store), key) && key !in Keys(store)
      ensures cached.None? && key in Keys(old(store)) ==> keyLocks == old(keyLocks) - {key}
      ensures cached.None? && key !in Keys(old(store)) ==> keyLocks == old(keyLocks)
    {
      var entry := Find(store, key);
      if entry.None? {
        PopAbsent(store, key);
        return None;
      }
      if now - entry.value.storedAt > ttl {
        EvictLocked(key);
        return None;
      }
      return Some(entry.value.value);
    }

    /**
      The whole operation, with the loader's outcome and three clock readings given.
      A live entry is answered without running the loader and without a change; a
      miss runs it once. A loaded value is stored last, and of all that is then
      stored the newest `maxEntries` stay; a loader that raises stores nothing.
     */
    method GetOrLoad<E>(key: K, loaded: Result<V, E>, first: real, again: real, done: real)
      returns (answer: Result<V, E>, ran: bool)
      requires Valid() && latest <= first <= again <= done
      modifies this
      ensures Valid() && latest == done
      ensures ran <==> Fresh(old(store), key, first, ttl).None?
      ensures !ran ==> answer == Ok(Fresh(old(store), key, first, ttl).value)
      ensures !ran ==> store == old(store) && keyLocks == old(keyLocks)
      ensures ran ==> answer == loaded
      ensures ran && loaded.Err? ==> store == Pop(old(store), key) && keyLocks == old(keyLocks) + {key}
      ensures ran && loaded.Ok? ==>
                store == Newest(maxEntries, Pop(old(store), key) + [(key, Entry(done, loaded.value))])
    {
      latest := done;
      var cached := Read(key, first);
      if cached.Some? {
        return Ok(cached.value), false;
      }
      keyLocks := keyLocks + {key};
      label Locked:
      cached := Read(key, again);
      PopAbsent(old@Locked(store), key);
      match cached {
        case Some(value) => return Ok(value), false;
        case None =>
      }
      if loaded.Ok? {
        StoreLoaded(key, loaded.value, done);
      }
      return loaded, true;
    }

    /** The store step: append, then evict from the oldest insertion until the bound holds. */
    method StoreLoaded(key: K, value: V, now: real)
      requires Valid() && latest == now && key !in Keys(store) && key in keyLocks
      modifies this`store, this`keyLocks
      ensures Valid()
      ensures store == Newest(maxEntries, old(store) + [(key, Entry(now, value))])
    {
      ghost var full := store + [(key, Entry(now, value))];
      PutAbsent(store, key, Entry(now, value));
      PutMeaning(store, key, Entry(now, value));
      store := Put(store, key, Entry(now, value));
      KeysSnoc(old(store), key, Entry(now, value));
      ghost var n := 0;
      while |store| > maxEntries
        invariant n <= |full| && store == full[n..] && n == |full| - |store|
        invariant |store| >= maxEntries || n == 0
        invariant Unique(store) && StampsAscend(store) && Keys(store) <= keyLocks
        invariant StampedBy(store, latest)
      {
        PopHead(store);
        EvictLocked(store[0].0);
        n := n + 1;
      }
    }

    /** Drop one key; a key that was not cached changes nothing in the store. */
    method Invalidate(key: K)
      requires Valid()
      modifies this`store, this`keyLocks
      ensures Valid() && store == Pop(old(store), key) && keyLocks == old(keyLocks) - {key}
      ensures forall now :: Fresh(store, key, now, ttl) == None
    {
      EvictLocked(key);
    }

    /** Drop exactly the stored keys the predicate accepts, keeping the order of the rest. */
    method InvalidateWhere(accepts: K -> bool)
      requires Valid()
      modifies this`store, this`keyLocks
      ensures Valid()
      ensures forall x :: x in store <==> x in old(store) && !accepts(x.0)
      ensures store == Without(old(store), set k | k in Keys(old(store)) && accepts(k))
      ensures keyLocks == old(keyLocks) - (set k | k in Keys(old(store)) && accepts(k))
    {
      var stale := Accepted(store, accepts);
      var n := 0;
      WithoutNone(store);
      ghost var gone: set<K> := {};
      while n < |stale|
        invariant n <= |stale|
        invariant gone == set k | k in stale[..n]
        invariant Valid() && store == Without(old(store), gone) && keyLocks == old(keyLocks) - gone
      {
        assert stale[..n + 1] == stale[..n] + [stale[n]];
        WithoutOneMore(old(store), gone, stale[n]);
        EvictLocked(stale[n]);
        gone := gone + {stale[n]};
        n := n + 1;
      }
      assert stale[..n] == stale;
      assert gone == set k | k in Keys(old(store)) && accepts(k);
      forall x | x in old(store) ensures x.0 in Keys(old(store)) {
        KeyAt(old(store), x.0);
      }
    }

    method Clear()
      requires Valid()
      modifies this`store, this`keyLocks
      ensures Valid() && store == [] && keyLocks == {}
    {
      store := [];
      keyLocks := {};
    }
  }

  /** What capacity evicts is never younger than what it keeps. */
  lemma EvictionTakesTheOldest<K(!new), V(!new)>(items: Store<K, V>, max: nat, gone: (K, Entry<V>), kept: (K, Entry<V>))
    requires Unique(items) && StampsAscend(items)
    requires gone in items && gone !in Newest(max, items) && kept in Newest(max, items)
    ensures gone.1.storedAt <= kept.1.storedAt && |items| > max
  {
    var cut := |items| - |Newest(max, items)|;
    var i :| 0 <= i < |items| && items[i] == gone;
    var j :| 0 <= j < |Newest(max, items)| && Newest(max, items)[j] == kept;
    assert items[cut + j] == kept;
    assert forall m :: cut <= m < |items| ==> Newest(max, items)[m - cut] == items[m];
  }

  /**
    As a timestamped map: after a load the key answers with the loaded value while it
    lives, and any other key answers as before unless capacity took it.
   */
  lemma LoadAnswers<K(!new), V(!new)>(before: Store<K, V>, max: nat, key: K, value: V, done: real, now: real, ttl: real)
    requires Unique(before) && max >= 1 && done <= now
    ensures var after := Newest(max, Pop(before, key) + [(key, Entry(done, value))]);
            && (now - done <= ttl ==> Fresh(after, key, now, ttl) == Some(value))
            && (now - done > ttl ==> Fresh(after, key, now, ttl) == None)
            && forall other :: other != key && other in Keys(after) ==>
                 Fresh(after, other, now, ttl) == Fresh(before, other, now, ttl)
  {
    var full := Pop(before, key) + [(key, Entry(done, value))];
    var after := Newest(max, full);
    PopUnique(before, key);
    forall i | 0 <= i < |full| - 1 ensures full[i].0 != key {
      assert full[i] in Pop(before, key);
    }
    assert Unique(full);
    assert after[|after| - 1] == (key, Entry(done, value));
    FindUnique(after, key, Entry(done, value));
    forall other | other != key && other in Keys(after)
      ensures Fresh(after, other, now, ttl) == Fresh(before, other, now, ttl)
    {
      KeyAt(after, other);
      var x :| x in after && x.0 == other;
      assert x in full;
      FindUnique(after, other, x.1);
      FindUnique(before, other, x.1);
    }
  }
}
