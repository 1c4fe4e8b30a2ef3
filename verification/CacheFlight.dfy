/** Single flight: between two removals of a key, its lock lets one loader run succeed. */
module CacheFlight {
  import opened Wrappers
  import opened Dict
  import opened CacheThreads
  import opened CacheInvariant

  ghost predicate Has(c: Cache, k: Key) {
    exists item :: item in c.store && item.0 == k
  }

  /** `t` runs a loader for `k` under the lock that is still the key's own. */
  ghost predicate CurrentLoad(c: Cache, t: nat, k: Key) {
    && t in c.threads && c.threads[t].key == k
    && (c.threads[t].place.Loading? || c.threads[t].place.Loaded?)
    && c.threads[t].place.epoch == Gone(c, k)
  }

  ghost function Loads(c: Cache, k: Key): set<nat> {
    set t | t in c.threads && CurrentLoad(c, t, k)
  }

  /** One span between removals: at most one loader run begun and not failed, and what it stored is still there. */
  ghost predicate Flight(c: Cache, k: Key) {
    var p := PastOf(c, k);
    && p.runs == |Loads(c, k)| + (if p.won.Some? then 1 else 0)
    && p.runs <= 1
    && (p.won.Some? ==> Has(c, k))
    && (p.won.Some? ==>
          forall item :: item in c.store && item.0 == k && item.1.epoch == p.gone ==> item.1.value == p.won.value)
  }

  ghost predicate InFlight(c: Cache, t: nat, k: Key) {
    t in c.threads && c.threads[t].key == k && HasLock(c.threads[t].place) && c.threads[t].place.epoch == Gone(c, k)
  }

  /** A lock is in the map only for a key that is stored, being fetched, or whose loader raised. */
  ghost predicate NoLeak(c: Cache, k: Key) {
    k in c.locks ==> Has(c, k) || PastOf(c, k).raised || exists t :: InFlight(c, t, k)
  }

  ghost predicate Settled(c: Cache, t: nat)
    requires t in c.threads
  {
    var th := c.threads[t];
    th.place.Releasing? && th.place.epoch == Gone(c, th.key) ==>
      if th.place.answer.Some? then Has(c, th.key) else PastOf(c, th.key).raised
  }

  ghost predicate Spans(c: Cache) {
    && (forall k :: Flight(c, k) && NoLeak(c, k))
    && (forall t :: t in c.threads ==> Settled(c, t))
  }

  /** Two threads past the same lock fetch, in the same span of the same key, are one. */
  lemma OneHolderPerSpan(c: Cache, t: nat, u: nat)
    requires LockTable(c) && ThreadLocks(c) && t in c.threads && u in c.threads
    requires HoldsLock(c.threads[t].place) && HoldsLock(c.threads[u].place)
    requires c.threads[t].key == c.threads[u].key && c.threads[t].place.epoch == c.threads[u].place.epoch
    ensures t == u
  {
    assert ThreadLock(c, t) && ThreadLock(c, u);
    var l, m := c.threads[t].place.lock, c.threads[u].place.lock;
    assert c.born[l] == c.born[m];
  }

  lemma EpochIsPast(c: Cache, t: nat)
    requires LockTable(c) && ThreadLocks(c) && t in c.threads && HasLock(c.threads[t].place)
    ensures c.threads[t].place.epoch <= Gone(c, c.threads[t].key)
  {
    assert ThreadLock(c, t);
  }

  // ---- removing keys ----

  lemma EvictKeepsFlight(c: Cache, keys: set<Key>, k: Key)
    requires LockTable(c) && ThreadLocks(c) && Flight(c, k)
    ensures Flight(Evict(c, keys), k)
  {
    var e := Evict(c, keys);
    EvictPast(c, keys, k);
    if k in keys {
      forall t ensures t !in Loads(e, k) {
        if t in c.threads && c.threads[t].key == k && HasLock(c.threads[t].place) {
          EpochIsPast(c, t);
        }
      }
      assert Loads(e, k) == {};
    } else {
      assert Loads(e, k) == Loads(c, k);
      assert forall item: (Key, Entry) :: item.0 == k ==> (item in e.store <==> item in c.store);
    }
  }

  lemma EvictKeepsNoLeak(c: Cache, keys: set<Key>, k: Key)
    requires NoLeak(c, k)
    ensures NoLeak(Evict(c, keys), k)
  {
    var e := Evict(c, keys);
    EvictPast(c, keys, k);
    if k in e.locks {
      assert forall item: (Key, Entry) :: item.0 == k ==> (item in e.store <==> item in c.store);
      assert forall t :: InFlight(c, t, k) ==> InFlight(e, t, k);
    }
  }

  lemma EvictKeepsSettled(c: Cache, keys: set<Key>, t: nat)
    requires LockTable(c) && ThreadLocks(c) && t in c.threads && Settled(c, t)
    ensures Settled(Evict(c, keys), t)
  {
    var e := Evict(c, keys);
    var k := c.threads[t].key;
    EvictPast(c, keys, k);
    if k in keys {
      if HasLock(c.threads[t].place) {
        EpochIsPast(c, t);
      }
    } else {
      assert forall item: (Key, Entry) :: item.0 == k ==> (item in e.store <==> item in c.store);
    }
  }

  lemma EvictKeepsSpans(c: Cache, keys: set<Key>)
    requires LockTable(c) && ThreadLocks(c) && Spans(c)
    ensures Spans(Evict(c, keys))
  {
    forall k ensures Flight(Evict(c, keys), k) && NoLeak(Evict(c, keys), k) {
      EvictKeepsFlight(c, keys, k);
      EvictKeepsNoLeak(c, keys, k);
    }
    forall t | t in c.threads ensures Settled(Evict(c, keys), t) {
      EvictKeepsSettled(c, keys, t);
    }
  }

  // ---- moving one thread ----

  ghost predicate SameSpans(c: Cache, next: Cache) {
    forall k :: PastOf(next, k) == PastOf(c, k)
  }

  /** A step that moves one thread neither into nor out of a load, and not out of its lock. */
  lemma QuietMoveKeepsSpans(c: Cache, next: Cache, t: nat)
    requires Spans(c) && SameSpans(c, next) && next.store == c.store
    requires forall k :: k in next.locks ==> k in c.locks || InFlight(next, t, k)
    requires t in next.threads && next.threads == c.threads[t := next.threads[t]]
    requires t in c.threads ==> next.threads[t].key == c.threads[t].key
    requires forall k :: CurrentLoad(c, t, k) <==> CurrentLoad(next, t, k)
    requires forall k :: InFlight(c, t, k) ==> InFlight(next, t, k)
    requires Settled(next, t)
    ensures Spans(next)
  {
    assert forall k :: Gone(next, k) == Gone(c, k);
    forall k ensures Flight(next, k) && NoLeak(next, k) {
      assert Flight(c, k) && NoLeak(c, k);
      forall u ensures u in Loads(next, k) <==> u in Loads(c, k) {
        assert u != t ==> (CurrentLoad(next, u, k) <==> CurrentLoad(c, u, k));
      }
      assert Loads(next, k) == Loads(c, k);
      forall u | InFlight(c, u, k) ensures InFlight(next, u, k) {}
    }
    forall u | u in next.threads ensures Settled(next, u) {
      if u != t {
        assert Settled(c, u);
      }
    }
  }

  lemma SameThreadsKeepSpans(c: Cache, next: Cache)
    requires Spans(c) && SameSpans(c, next)
    requires next.store == c.store && next.locks == c.locks && next.threads == c.threads
    ensures Spans(next)
  {
    assert forall k :: Gone(next, k) == Gone(c, k);
    forall k ensures Flight(next, k) && NoLeak(next, k) {
      assert Flight(c, k) && NoLeak(c, k);
      assert Loads(next, k) == Loads(c, k);
      forall u | InFlight(c, u, k) ensures InFlight(next, u, k) {}
    }
    forall t | t in next.threads ensures Settled(next, t) {
      assert Settled(c, t);
    }
  }

  // ---- the steps ----

  lemma AfterReadKeepsSpans(c: Cache, key: Key)
    requires LockTable(c) && ThreadLocks(c) && Spans(c)
    ensures Spans(AfterRead(c, key))
  {
    EvictKeepsSpans(c, {key});
  }

  lemma BeginKeepsSpans(c: Cache, t: nat, key: Key)
    requires Spans(c) && t !in c.threads
    ensures Spans(Next(c, Begin(t, key)))
  {
    QuietMoveKeepsSpans(c, Next(c, Begin(t, key)), t);
  }

  lemma LookKeepsSpans(c: Cache, t: nat)
    requires LockTable(c) && ThreadLocks(c) && Spans(c) && Enabled(c, Look(t))
    ensures Spans(Next(c, Look(t)))
  {
    AfterReadKeepsSpans(c, c.threads[t].key);
    QuietMoveKeepsSpans(AfterRead(c, c.threads[t].key), Next(c, Look(t)), t);
  }

  lemma FetchKeepsSpans(c: Cache, t: nat)
    requires Spans(c) && Enabled(c, FetchLock(t))
    ensures Spans(Next(c, FetchLock(t)))
  {
    QuietMoveKeepsSpans(c, Next(c, FetchLock(t)), t);
  }

  lemma AcquireKeepsSpans(c: Cache, t: nat)
    requires Spans(c) && Enabled(c, Acquire(t))
    ensures Spans(Next(c, Acquire(t)))
  {
    QuietMoveKeepsSpans(c, Next(c, Acquire(t)), t);
  }

  lemma ReadKeepsSpans(c: Cache, t: nat)
    requires Spans(c) && Enabled(c, LoaderReads(t))
    ensures Spans(Next(c, LoaderReads(t)))
  {
    QuietMoveKeepsSpans(c, Next(c, LoaderReads(t)), t);
  }

  lemma HitIsStored(c: Cache, key: Key)
    ensures Hit(c, key).Some? ==> Has(c, key)
    ensures Hit(c, key).None? ==> !Has(AfterRead(c, key), key)
  {
    KeyAt(c.store, key);
    var e := Find(c.store, key);
    if e.Some? {
      assert (key, e.value) in c.store;
    }
  }

  lemma RecheckHitKeepsSpans(c: Cache, t: nat)
    requires Spans(c) && Enabled(c, Recheck(t)) && Hit(c, c.threads[t].key).Some?
    ensures Spans(Next(c, Recheck(t)))
  {
    HitIsStored(c, c.threads[t].key);
    QuietMoveKeepsSpans(c, Next(c, Recheck(t)), t);
  }

  /** The loader that starts under a current lock is the only one of its span. */
  lemma NobodyElseLoads(mid: Cache, t: nat)
    requires LockTable(mid) && ThreadLocks(mid) && t in mid.threads && mid.threads[t].place.Locked?
    requires mid.threads[t].place.epoch == Gone(mid, mid.threads[t].key)
    ensures Loads(mid, mid.threads[t].key) == {}
  {
    forall u ensures u !in Loads(mid, mid.threads[t].key) {
      if u in Loads(mid, mid.threads[t].key) {
        OneHolderPerSpan(mid, t, u);
      }
    }
  }

  lemma StartLoadKeepsFlight(mid: Cache, t: nat, k: Key)
    requires LockTable(mid) && ThreadLocks(mid) && Flight(mid, k)
    requires t in mid.threads && mid.threads[t].place.Locked? && !Has(mid, mid.threads[t].key)
    ensures Flight(StartLoad(mid, t), k)
  {
    var next := StartLoad(mid, t);
    StartLoadPast(mid, t, k);
    if k == mid.threads[t].key && mid.threads[t].place.epoch == Gone(mid, k) {
      NobodyElseLoads(mid, t);
      assert forall u :: CurrentLoad(next, u, k) <==> u == t;
      assert Loads(next, k) == {t};
    } else {
      assert Loads(next, k) == Loads(mid, k);
    }
  }

  lemma StartLoadKeepsSpans(mid: Cache, t: nat)
    requires LockTable(mid) && ThreadLocks(mid) && Spans(mid)
    requires t in mid.threads && mid.threads[t].place.Locked? && !Has(mid, mid.threads[t].key)
    ensures Spans(StartLoad(mid, t))
  {
    var next := StartLoad(mid, t);
    forall k ensures Gone(next, k) == Gone(mid, k) && PastOf(next, k).raised == PastOf(mid, k).raised {
      StartLoadPast(mid, t, k);
    }
    forall k ensures Flight(next, k) && NoLeak(next, k) {
      assert Flight(mid, k) && NoLeak(mid, k);
      StartLoadKeepsFlight(mid, t, k);
      forall u | InFlight(mid, u, k) ensures InFlight(next, u, k) {}
    }
    forall u | u in next.threads ensures Settled(next, u) {
      assert Settled(mid, u);
    }
  }

  lemma RecheckMissKeepsSpans(c: Cache, t: nat)
    requires LockTable(c) && ThreadLocks(c) && Spans(c)
    requires Enabled(c, Recheck(t)) && Hit(c, c.threads[t].key).None?
    ensures Spans(Next(c, Recheck(t)))
  {
    var mid := AfterRead(c, c.threads[t].key);
    AfterReadKeepsSpans(c, c.threads[t].key);
    AfterReadKeepsLockTable(c, c.threads[t].key);
    SameThreadsKeepLocks(c, mid);
    HitIsStored(c, c.threads[t].key);
    StartLoadKeepsSpans(mid, t);
    SameThreadsKeepSpans(StartLoad(mid, t), Next(c, Recheck(t)));
  }

  lemma RaisedKeepsFlight(c: Cache, t: nat, k: Key)
    requires Flight(c, k) && Enabled(c, LoaderRaises(t))
    ensures Flight(Raised(c, t), k)
  {
    var next := Raised(c, t);
    if k == c.threads[t].key && c.threads[t].place.epoch == Gone(c, k) {
      assert CurrentLoad(c, t, k);
      assert t in Loads(c, k);
      assert forall u :: u in Loads(next, k) <==> u in Loads(c, k) && u != t;
      assert Loads(next, k) == Loads(c, k) - {t};
    } else {
      assert Loads(next, k) == Loads(c, k);
    }
  }

  lemma RaisesKeepsSpans(c: Cache, t: nat)
    requires Spans(c) && Enabled(c, LoaderRaises(t))
    ensures Spans(Next(c, LoaderRaises(t)))
  {
    var next := Raised(c, t);
    forall k ensures Flight(next, k) && NoLeak(next, k) {
      assert Flight(c, k) && NoLeak(c, k);
      RaisedKeepsFlight(c, t, k);
      forall u | InFlight(c, u, k) ensures InFlight(next, u, k) {}
    }
    forall u | u in next.threads ensures Settled(next, u) {
      assert Settled(c, u);
    }
    SameThreadsKeepSpans(next, Next(c, LoaderRaises(t)));
  }

  lemma ReleaseKeepsSpans(c: Cache, t: nat)
    requires Spans(c) && Enabled(c, Release(t))
    ensures Spans(Next(c, Release(t)))
  {
    var next := Next(c, Release(t));
    forall k ensures Flight(next, k) && NoLeak(next, k) {
      assert Flight(c, k) && NoLeak(c, k) && Settled(c, t);
      assert Loads(next, k) == Loads(c, k);
      forall u | InFlight(c, u, k) && u != t ensures InFlight(next, u, k) {}
    }
    forall u | u in next.threads ensures Settled(next, u) {
      assert Settled(c, u);
    }
  }

  // ---- storing ----

  /** The assignment and the thread's move together; the eviction loop follows. */
  function Stored(c: Cache, t: nat): Cache
    requires t in c.threads && c.threads[t].place.Loaded?
  {
    var p := c.threads[t].place;
    SetPlace(Noted(c, t), t, Releasing(p.lock, p.epoch, Some(Answer(p.value, c.clock, c.clock))))
  }

  lemma StoredItems(c: Cache, t: nat, item: (Key, Entry))
    requires Unique(c.store) && t in c.threads && c.threads[t].place.Loaded?
    ensures var key := c.threads[t].key;
            item in Stored(c, t).store <==>
              if item.0 == key then item.1 == Entry(c.clock, c.threads[t].place.value, c.threads[t].place.epoch)
              else item in c.store
  {
    var key := c.threads[t].key;
    PutMeaning(c.store, key, Entry(c.clock, c.threads[t].place.value, c.threads[t].place.epoch));
  }

  lemma StoredHas(c: Cache, t: nat, k: Key)
    requires Unique(c.store) && t in c.threads && c.threads[t].place.Loaded?
    ensures Has(c, k) ==> Has(Stored(c, t), k)
    ensures Has(Stored(c, t), c.threads[t].key)
  {
    var key := c.threads[t].key;
    var mine := (key, Entry(c.clock, c.threads[t].place.value, c.threads[t].place.epoch));
    StoredItems(c, t, mine);
    assert mine in Stored(c, t).store;
    if Has(c, k) && k != key {
      var item :| item in c.store && item.0 == k;
      StoredItems(c, t, item);
    }
  }

  lemma StoredKeepsFlight(c: Cache, t: nat, k: Key)
    requires Unique(c.store) && t in c.threads && c.threads[t].place.Loaded? && Flight(c, k)
    ensures Flight(Stored(c, t), k)
  {
    var next := Stored(c, t);
    StoredHas(c, t, k);
    forall item ensures item in next.store && item.0 == k ==>
        if k == c.threads[t].key then item.1 == Entry(c.clock, c.threads[t].place.value, c.threads[t].place.epoch)
        else item in c.store
    {
      StoredItems(c, t, item);
    }
    if k == c.threads[t].key && c.threads[t].place.epoch == Gone(c, k) {
      assert t in Loads(c, k);
      assert forall u :: u in Loads(next, k) <==> u in Loads(c, k) && u != t;
      assert Loads(next, k) == Loads(c, k) - {t};
    } else {
      assert Loads(next, k) == Loads(c, k);
    }
  }

  lemma StoredKeepsSpans(c: Cache, t: nat)
    requires Unique(c.store) && t in c.threads && c.threads[t].place.Loaded? && Spans(c)
    ensures Spans(Stored(c, t))
  {
    var next := Stored(c, t);
    assert forall k :: Gone(next, k) == Gone(c, k) && PastOf(next, k).raised == PastOf(c, k).raised;
    forall k ensures Flight(next, k) && NoLeak(next, k) {
      assert Flight(c, k) && NoLeak(c, k);
      StoredKeepsFlight(c, t, k);
      StoredHas(c, t, k);
      forall u | InFlight(c, u, k) ensures InFlight(next, u, k) {}
    }
    forall u | u in next.threads ensures Settled(next, u) {
      assert Settled(c, u);
      StoredHas(c, t, next.threads[u].key);
    }
  }

  lemma StoredKeepsLocks(c: Cache, t: nat)
    requires LockTable(c) && ThreadLocks(c) && t in c.threads && c.threads[t].place.Loaded?
    ensures LockTable(Stored(c, t)) && ThreadLocks(Stored(c, t))
  {
    assert forall k :: Gone(Stored(c, t), k) == Gone(c, k);
    SameGoneKeepsLockTable(c, Stored(c, t));
    assert ThreadLock(c, t);
    MoveKeepsThreadLocks(c, Stored(c, t), t);
  }

  lemma StoreKeepsSpans(c: Cache, t: nat)
    requires LockTable(c) && ThreadLocks(c) && Spans(c) && Unique(c.store) && Enabled(c, StoreValue(t))
    ensures Spans(Next(c, StoreValue(t)))
  {
    var stored := Stored(c, t);
    StoredKeepsSpans(c, t);
    StoredKeepsLocks(c, t);
    var evicted := Evict(stored, Overflow(stored.store, c.maxEntries));
    EvictKeepsSpans(stored, Overflow(stored.store, c.maxEntries));
    StoreIsEvictStored(c, t);
    SameThreadsKeepSpans(evicted, Next(c, StoreValue(t)));
  }

  lemma StoreIsEvictStored(c: Cache, t: nat)
    requires Enabled(c, StoreValue(t))
    ensures var stored := Stored(c, t);
            Next(c, StoreValue(t))
            == Evict(stored, Overflow(stored.store, c.maxEntries)).(stamp := c.stamp + 1)
  {
    var p := c.threads[t].place;
    var noted := Noted(c, t);
    EvictThenMove(noted, Overflow(noted.store, c.maxEntries), t,
                  Releasing(p.lock, p.epoch, Some(Answer(p.value, c.clock, c.clock))));
  }

  lemma EvictThenMove(c: Cache, keys: set<Key>, t: nat, place: Place)
    requires t in c.threads
    ensures Evict(SetPlace(c, t, place), keys) == SetPlace(Evict(c, keys), t, place)
  {
    var moved := SetPlace(c, t, place);
    assert forall k :: PastOf(moved, k) == PastOf(c, k);
    assert Evict(moved, keys).past == Evict(c, keys).past;
  }

  lemma RemovalKeepsSpans(c: Cache, gone: set<Key>, next: Cache)
    requires LockTable(c) && ThreadLocks(c) && Spans(c)
    requires next == Evict(c, gone).(stamp := next.stamp)
    ensures Spans(next)
  {
    EvictKeepsSpans(c, gone);
    SameThreadsKeepSpans(Evict(c, gone), next);
  }

  lemma StepKeepsSpans(c: Cache, step: Step)
    requires LockTable(c) && ThreadLocks(c) && Spans(c) && Unique(c.store) && Enabled(c, step)
    ensures Spans(Next(c, step))
  {
    match step
    case Begin(t, key) => BeginKeepsSpans(c, t, key);
    case Look(t) => LookKeepsSpans(c, t);
    case FetchLock(t) => FetchKeepsSpans(c, t);
    case Acquire(t) => AcquireKeepsSpans(c, t);
    case Recheck(t) =>
      if Hit(c, c.threads[t].key).Some? {
        RecheckHitKeepsSpans(c, t);
      } else {
        RecheckMissKeepsSpans(c, t);
      }
    case LoaderReads(t) => ReadKeepsSpans(c, t);
    case LoaderRaises(t) => RaisesKeepsSpans(c, t);
    case StoreValue(t) => StoreKeepsSpans(c, t);
    case Release(t) => ReleaseKeepsSpans(c, t);
    case Invalidate(key) => RemovalKeepsSpans(c, {key}, Next(c, step));
    case InvalidateWhere(accepted) => RemovalKeepsSpans(c, accepted * Keys(c.store), Next(c, step));
    case Clear => RemovalKeepsSpans(c, Keys(c.store) + c.locks.Keys, Next(c, step));
    case Tick(_) => SameThreadsKeepSpans(c, Next(c, step));
  }
}
