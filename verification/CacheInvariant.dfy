/** What every step of the threaded cache keeps. */
module CacheInvariant {
  import opened Wrappers
  import opened Dict
  import opened CacheThreads

  predicate HasLock(place: Place) {
    place.Fetched? || place.Locked? || place.Loading? || place.Loaded? || place.Releasing?
  }

  predicate HoldsLock(place: Place) {
    HasLock(place) && !place.Fetched?
  }

  /** A lock object belongs to one key and one span between removals of that key. */
  ghost predicate LockTable(c: Cache) {
    && (forall k :: k in c.locks ==> c.locks[k] < |c.born| && c.born[c.locks[k]] == (k, Gone(c, k)))
    && (forall l :: 0 <= l < |c.born| ==> c.born[l].1 <= Gone(c, c.born[l].0))
    && (forall l :: 0 <= l < |c.born| && c.born[l].1 == Gone(c, c.born[l].0) ==>
          c.born[l].0 in c.locks && c.locks[c.born[l].0] == l)
    && (forall l, m :: 0 <= l < m < |c.born| ==> c.born[l] != c.born[m])
  }

  ghost predicate ThreadLock(c: Cache, t: nat)
    requires t in c.threads
  {
    var th := c.threads[t];
    && (HasLock(th.place) ==> th.place.lock < |c.born| && c.born[th.place.lock] == (th.key, th.place.epoch))
    && (HoldsLock(th.place) ==> th.place.lock in c.held && c.held[th.place.lock] == t)
  }

  ghost predicate ThreadLocks(c: Cache) {
    forall t :: t in c.threads ==> ThreadLock(c, t)
  }

  ghost predicate EntryOk(c: Cache, item: (Key, Entry)) {
    && item.1.value.key == item.0
    && item.1.epoch <= Gone(c, item.0)
    && item.1.value.readTime <= item.1.storedAt <= c.clock
    && item.1.value.readAt < c.stamp
  }

  ghost predicate StoreOk(c: Cache) {
    && Unique(c.store)
    && |c.store| <= c.maxEntries
    && forall item :: item in c.store ==> EntryOk(c, item)
  }

  ghost predicate AnswerOk(c: Cache, th: Thread, a: Answer) {
    && a.value.key == th.key
    && a.value.readTime <= a.storedAt <= a.at <= c.clock
    && (a.at == a.storedAt || a.at - a.storedAt <= c.ttl)
  }

  ghost predicate ThreadValue(c: Cache, t: nat)
    requires t in c.threads
  {
    var th := c.threads[t];
    && (th.place.Loaded? ==>
          && th.place.value.key == th.key
          && th.place.value.readTime <= c.clock
          && th.place.value.readAt < c.stamp)
    && ((th.place.Releasing? || th.place.Finished?) && th.place.answer.Some? ==>
          AnswerOk(c, th, th.place.answer.value))
  }

  ghost predicate ThreadValues(c: Cache) {
    forall t :: t in c.threads ==> ThreadValue(c, t)
  }

  // ---- removing keys ----

  lemma EvictPast(c: Cache, keys: set<Key>, k: Key)
    ensures var e := Evict(c, keys);
            PastOf(e, k) == if k in keys then Past(Gone(c, k) + 1, None, 0, false)
                            else PastOf(c, k)
  {
  }

  lemma EvictKeepsLockTable(c: Cache, keys: set<Key>)
    requires LockTable(c)
    ensures LockTable(Evict(c, keys))
  {
    forall k ensures Gone(Evict(c, keys), k) == Gone(c, k) + if k in keys then 1 else 0 {
      EvictPast(c, keys, k);
    }
  }

  lemma {:induction false} WithoutUnique(store: Dict<Key, Entry>, keys: set<Key>)
    requires Unique(store)
    ensures Unique(Without(store, keys))
  {
    if store != [] {
      WithoutUnique(store[1..], keys);
      var rest := Without(store[1..], keys);
      forall j | 0 <= j < |rest| ensures rest[j].0 != store[0].0 {
        assert rest[j] in rest;
        var i :| 1 <= i < |store| && store[i] == rest[j];
      }
    }
  }

  /** Every entry is in order; the bound is asked for separately, since a store may overshoot it. */
  ghost predicate EntriesOk(c: Cache) {
    Unique(c.store) && forall item :: item in c.store ==> EntryOk(c, item)
  }

  lemma EvictKeepsEntries(c: Cache, keys: set<Key>)
    requires EntriesOk(c)
    ensures EntriesOk(Evict(c, keys))
  {
    WithoutUnique(c.store, keys);
    forall item | item in Evict(c, keys).store ensures EntryOk(Evict(c, keys), item) {
      EvictPast(c, keys, item.0);
    }
  }

  lemma EvictKeepsValues(c: Cache, keys: set<Key>)
    requires ThreadValues(c)
    ensures ThreadValues(Evict(c, keys))
  {
    forall t | t in c.threads ensures ThreadValue(Evict(c, keys), t) {
      EvictPast(c, keys, c.threads[t].key);
    }
  }

  /** The eviction loop leaves exactly the newest insertions that fit. */
  lemma {:induction false} OverflowLeavesTheNewest(store: Dict<Key, Entry>, n: nat)
    requires Unique(store) && n <= |store|
    ensures Without(store, Keys(store[..n])) == store[n..]
  {
    if n == 0 {
      assert store[..0] == [];
      NothingWithout(store, Keys(store[..0]));
    } else {
      var rest := store[1..];
      OverflowLeavesTheNewest(rest, n - 1);
      assert rest[..n - 1] == store[1..n];
      assert store[..n][0] == store[0];
      assert Keys(store[..n]) == {store[0].0} + Keys(rest[..n - 1]) by {
        forall i | 0 <= i < n ensures store[..n][i].0 in {store[0].0} + Keys(rest[..n - 1]) {
          assert i > 0 ==> rest[..n - 1][i - 1] == store[i];
        }
        forall k | k in Keys(rest[..n - 1]) ensures k in Keys(store[..n]) {
          var i :| 0 <= i < n - 1 && rest[..n - 1][i].0 == k;
          assert store[..n][i + 1].0 == k;
        }
      }
      WithoutAlso(rest, Keys(rest[..n - 1]), store[0].0);
      assert Without(store, Keys(store[..n])) == [] + Without(rest, Keys(store[..n]));
    }
  }

  lemma {:induction false} NothingWithout(store: Dict<Key, Entry>, keys: set<Key>)
    requires keys == {}
    ensures Without(store, keys) == store
  {
    if store != [] {
      NothingWithout(store[1..], keys);
    }
  }

  /** Removing a key that is not there changes nothing. */
  lemma {:induction false} WithoutAlso(store: Dict<Key, Entry>, keys: set<Key>, key: Key)
    requires forall i :: 0 <= i < |store| ==> store[i].0 != key
    ensures Without(store, {key} + keys) == Without(store, keys)
  {
    if store != [] {
      WithoutAlso(store[1..], keys, key);
    }
  }

  // ---- locks ----

  lemma AfterReadKeepsLockTable(c: Cache, key: Key)
    requires LockTable(c)
    ensures LockTable(AfterRead(c, key))
  {
    EvictKeepsLockTable(c, {key});
  }

  lemma FetchKeepsLockTable(c: Cache, t: nat)
    requires LockTable(c) && t in c.threads
    ensures LockTable(Fetch(c, t))
  {
    var key, next := c.threads[t].key, Fetch(c, t);
    assert next.past == c.past;
    if key !in c.locks {
      NewLockKeepsTable(c, next, key);
    }
  }

  lemma NewLockKeepsTable(c: Cache, next: Cache, key: Key)
    requires LockTable(c) && key !in c.locks && next.past == c.past
    requires next.locks == c.locks[key := |c.born|] && next.born == c.born + [(key, Gone(c, key))]
    ensures LockTable(next)
  {
    assert forall k :: Gone(next, k) == Gone(c, k);
    assert forall l :: 0 <= l < |c.born| ==> next.born[l] == c.born[l];
  }

  lemma SameGoneKeepsLockTable(c: Cache, next: Cache)
    requires LockTable(c) && next.locks == c.locks && next.born == c.born
    requires forall k :: Gone(next, k) == Gone(c, k)
    ensures LockTable(next)
  {
  }

  lemma StartLoadPast(mid: Cache, t: nat, k: Key)
    requires t in mid.threads && mid.threads[t].place.Locked?
    ensures PastOf(StartLoad(mid, t), k)
            == if k == mid.threads[t].key && mid.threads[t].place.epoch == Gone(mid, k)
               then PastOf(mid, k).(runs := PastOf(mid, k).runs + 1)
               else PastOf(mid, k)
  {
  }

  lemma LookKeepsLockTable(c: Cache, t: nat)
    requires LockTable(c) && Enabled(c, Look(t))
    ensures LockTable(Next(c, Look(t)))
  {
    var mid := AfterRead(c, c.threads[t].key);
    AfterReadKeepsLockTable(c, c.threads[t].key);
    assert Next(c, Look(t)).past == mid.past;
    SameGoneKeepsLockTable(mid, Next(c, Look(t)));
  }

  lemma RecheckKeepsLockTable(c: Cache, t: nat)
    requires LockTable(c) && Enabled(c, Recheck(t))
    ensures LockTable(Next(c, Recheck(t)))
  {
    var next := Next(c, Recheck(t));
    if Hit(c, c.threads[t].key).Some? {
      SameGoneKeepsLockTable(c, next);
    } else {
      var mid := AfterRead(c, c.threads[t].key);
      AfterReadKeepsLockTable(c, c.threads[t].key);
      forall k ensures Gone(next, k) == Gone(mid, k) {
        StartLoadPast(mid, t, k);
      }
      SameGoneKeepsLockTable(mid, next);
    }
  }

  lemma PlainStepKeepsLockTable(c: Cache, step: Step)
    requires LockTable(c) && Enabled(c, step)
    requires step.Begin? || step.Acquire? || step.LoaderReads? || step.LoaderRaises? || step.Release? || step.Tick?
    ensures LockTable(Next(c, step))
  {
    assert forall k :: Gone(Next(c, step), k) == Gone(c, k);
    SameGoneKeepsLockTable(c, Next(c, step));
  }

  lemma StepKeepsLockTable(c: Cache, step: Step)
    requires LockTable(c) && Enabled(c, step)
    ensures LockTable(Next(c, step))
  {
    match step
    case Look(t) => LookKeepsLockTable(c, t);
    case Recheck(t) => RecheckKeepsLockTable(c, t);
    case FetchLock(t) =>
      FetchKeepsLockTable(c, t);
      SameGoneKeepsLockTable(Fetch(c, t), Next(c, step));
    case StoreValue(t) => StoreKeepsLockTable(c, t);
    case Invalidate(key) => RemovalKeepsLockTable(c, {key}, Next(c, step));
    case InvalidateWhere(accepted) => RemovalKeepsLockTable(c, accepted * Keys(c.store), Next(c, step));
    case Clear => RemovalKeepsLockTable(c, Keys(c.store) + c.locks.Keys, Next(c, step));
    case _ => PlainStepKeepsLockTable(c, step);
  }

  lemma RemovalKeepsLockTable(c: Cache, gone: set<Key>, next: Cache)
    requires LockTable(c) && next == Evict(c, gone).(stamp := next.stamp)
    ensures LockTable(next)
  {
    EvictKeepsLockTable(c, gone);
    SameGoneKeepsLockTable(Evict(c, gone), next);
  }

  lemma StoreKeepsLockTable(c: Cache, t: nat)
    requires LockTable(c) && Enabled(c, StoreValue(t))
    ensures LockTable(Next(c, StoreValue(t)))
  {
    var noted := Noted(c, t);
    SameGoneKeepsLockTable(c, noted);
    EvictKeepsLockTable(noted, Overflow(noted.store, c.maxEntries));
    SameGoneKeepsLockTable(Evict(noted, Overflow(noted.store, c.maxEntries)), Next(c, StoreValue(t)));
  }

  // ---- who holds what ----

  /** A step that moves only `t` and releases at most its own lock leaves the others' locks alone. */
  lemma OthersKeepLocks(c: Cache, next: Cache, t: nat)
    requires ThreadLocks(c)
    requires forall u :: u in next.threads && u != t ==> u in c.threads && next.threads[u] == c.threads[u]
    requires c.born <= next.born
    requires forall l :: l in c.held && c.held[l] != t ==> l in next.held && next.held[l] == c.held[l]
    requires t in next.threads ==> ThreadLock(next, t)
    ensures ThreadLocks(next)
  {
    forall u | u in next.threads ensures ThreadLock(next, u) {
      if u != t {
        assert ThreadLock(c, u);
      }
    }
  }

  /** A step that moves `t` within its lock, or hands it one. */
  lemma MoveKeepsThreadLocks(c: Cache, next: Cache, t: nat)
    requires ThreadLocks(c) && t in c.threads
    requires c.born <= next.born && next.held == c.held
    requires t in next.threads && next.threads == c.threads[t := next.threads[t]]
    requires ThreadLock(next, t)
    ensures ThreadLocks(next)
  {
    OthersKeepLocks(c, next, t);
  }

  lemma FetchKeepsThreadLocks(c: Cache, t: nat)
    requires LockTable(c) && ThreadLocks(c) && Enabled(c, FetchLock(t))
    ensures ThreadLocks(Next(c, FetchLock(t)))
  {
    var next := Next(c, FetchLock(t));
    assert next.threads == Fetch(c, t).threads && next.born == Fetch(c, t).born;
    MoveKeepsThreadLocks(c, next, t);
  }

  lemma RecheckKeepsThreadLocks(c: Cache, t: nat)
    requires ThreadLocks(c) && Enabled(c, Recheck(t))
    ensures ThreadLocks(Next(c, Recheck(t)))
  {
    var next := Next(c, Recheck(t));
    assert ThreadLock(c, t);
    assert next.born == c.born && next.held == c.held;
    MoveKeepsThreadLocks(c, next, t);
  }

  lemma LoadKeepsThreadLocks(c: Cache, step: Step)
    requires ThreadLocks(c) && Enabled(c, step)
    requires step.LoaderReads? || step.LoaderRaises? || step.StoreValue?
    ensures ThreadLocks(Next(c, step))
  {
    var next := Next(c, step);
    assert ThreadLock(c, step.t);
    assert next.born == c.born && next.held == c.held;
    MoveKeepsThreadLocks(c, next, step.t);
  }

  lemma AcquireKeepsThreadLocks(c: Cache, t: nat)
    requires LockTable(c) && ThreadLocks(c) && Enabled(c, Acquire(t))
    ensures ThreadLocks(Next(c, Acquire(t)))
  {
    assert ThreadLock(c, t);
    OthersKeepLocks(c, Next(c, Acquire(t)), t);
  }

  lemma ReleaseKeepsThreadLocks(c: Cache, t: nat)
    requires ThreadLocks(c) && Enabled(c, Release(t))
    ensures ThreadLocks(Next(c, Release(t)))
  {
    assert ThreadLock(c, t);
    OthersKeepLocks(c, Next(c, Release(t)), t);
  }

  lemma LookKeepsThreadLocks(c: Cache, t: nat)
    requires ThreadLocks(c) && Enabled(c, Look(t))
    ensures ThreadLocks(Next(c, Look(t)))
  {
    OthersKeepLocks(c, Next(c, Look(t)), t);
  }

  lemma StepKeepsThreadLocks(c: Cache, step: Step)
    requires LockTable(c) && ThreadLocks(c) && Enabled(c, step)
    ensures ThreadLocks(Next(c, step))
  {
    match step
    case Begin(t, _) => OthersKeepLocks(c, Next(c, step), t);
    case Look(t) => LookKeepsThreadLocks(c, t);
    case Release(t) => ReleaseKeepsThreadLocks(c, t);
    case Acquire(t) => AcquireKeepsThreadLocks(c, t);
    case Invalidate(_) => SameThreadsKeepLocks(c, Next(c, step));
    case InvalidateWhere(_) => SameThreadsKeepLocks(c, Next(c, step));
    case Clear => SameThreadsKeepLocks(c, Next(c, step));
    case Tick(_) => SameThreadsKeepLocks(c, Next(c, step));
    case FetchLock(t) => FetchKeepsThreadLocks(c, t);
    case Recheck(t) => RecheckKeepsThreadLocks(c, t);
    case _ => LoadKeepsThreadLocks(c, step);
  }

  lemma SameThreadsKeepLocks(c: Cache, next: Cache)
    requires ThreadLocks(c) && next.threads == c.threads && next.born == c.born && next.held == c.held
    ensures ThreadLocks(next)
  {
    forall t | t in next.threads ensures ThreadLock(next, t) {
      assert ThreadLock(c, t);
    }
  }

  // ---- and nothing else is held ----

  ghost predicate HeldOk(c: Cache) {
    forall l :: l in c.held ==>
      && c.held[l] in c.threads
      && HoldsLock(c.threads[c.held[l]].place)
      && c.threads[c.held[l]].place.lock == l
  }

  /** A step that moves `t` and keeps it on its lock, if it held one. */
  lemma MoveKeepsHeld(c: Cache, next: Cache, t: nat)
    requires HeldOk(c) && next.held == c.held
    requires t in next.threads && next.threads == c.threads[t := next.threads[t]]
    requires t in c.threads && HoldsLock(c.threads[t].place) ==>
               HoldsLock(next.threads[t].place) && next.threads[t].place.lock == c.threads[t].place.lock
    ensures HeldOk(next)
  {
  }

  lemma StepKeepsHeld(c: Cache, step: Step)
    requires HeldOk(c) && Enabled(c, step)
    ensures HeldOk(Next(c, step))
  {
    hide Hit, Find, Without, Put, PastOf, Overflow, HeldOk;
    var next := Next(c, step);
    match step
    case Begin(t, _) => MoveKeepsHeld(c, next, t);
    case Look(t) => MoveKeepsHeld(c, next, t);
    case FetchLock(t) => MoveKeepsHeld(c, next, t);
    case Recheck(t) => MoveKeepsHeld(c, next, t);
    case LoaderReads(t) => MoveKeepsHeld(c, next, t);
    case LoaderRaises(t) => MoveKeepsHeld(c, next, t);
    case StoreValue(t) => MoveKeepsHeld(c, next, t);
    case Acquire(t) => AcquireKeepsHeld(c, t);
    case Release(t) => ReleaseKeepsHeld(c, t);
    case _ => SameThreadsKeepHeld(c, next);
  }

  lemma SameThreadsKeepHeld(c: Cache, next: Cache)
    requires HeldOk(c) && next.held == c.held && next.threads == c.threads
    ensures HeldOk(next)
  {
  }

  lemma AcquireKeepsHeld(c: Cache, t: nat)
    requires HeldOk(c) && Enabled(c, Acquire(t))
    ensures HeldOk(Next(c, Acquire(t)))
  {
  }

  lemma ReleaseKeepsHeld(c: Cache, t: nat)
    requires HeldOk(c) && Enabled(c, Release(t))
    ensures HeldOk(Next(c, Release(t)))
  {
  }
}
