/** Entries and answers stay in order: bounded and dated. */
module CacheValues {
  import opened Wrappers
  import opened Dict
  import opened CacheThreads
  import opened CacheInvariant

  ghost predicate Values(c: Cache) {
    StoreOk(c) && ThreadValues(c)
  }

  /** Everything but the bound on the store, which the eviction loop restores. */
  ghost predicate Loose(c: Cache) {
    EntriesOk(c) && ThreadValues(c)
  }

  lemma EvictKeepsLoose(c: Cache, keys: set<Key>)
    requires Loose(c)
    ensures Loose(Evict(c, keys))
  {
    EvictKeepsEntries(c, keys);
    EvictKeepsValues(c, keys);
  }

  /** Entries and answers look at nothing else. */
  lemma SamePartsKeepLoose(c: Cache, next: Cache)
    requires Loose(c) && next.store == c.store && next.threads == c.threads && next.ttl == c.ttl
    requires c.clock <= next.clock && c.stamp <= next.stamp
    requires forall k :: Gone(next, k) == Gone(c, k)
    ensures Loose(next)
  {
    forall item | item in next.store ensures EntryOk(next, item) {
      assert EntryOk(c, item);
    }
    forall t | t in next.threads ensures ThreadValue(next, t) {
      assert ThreadValue(c, t);
    }
  }

  lemma MoveKeepsLoose(c: Cache, t: nat, th: Thread)
    requires Loose(c) && ThreadValue(c.(threads := c.threads[t := th]), t)
    ensures Loose(c.(threads := c.threads[t := th]))
  {
    var next := c.(threads := c.threads[t := th]);
    forall item | item in next.store ensures EntryOk(next, item) {
      assert EntryOk(c, item);
    }
    forall u | u in next.threads ensures ThreadValue(next, u) {
      if u != t {
        assert ThreadValue(c, u);
      }
    }
  }

  lemma HitIsOk(c: Cache, th: Thread)
    requires EntriesOk(c) && Hit(c, th.key).Some?
    ensures AnswerOk(c, th, Hit(c, th.key).value)
  {
    var e := Find(c.store, th.key).value;
    assert EntryOk(c, (th.key, e));
  }

  lemma AfterReadKeepsLoose(c: Cache, key: Key)
    requires Loose(c)
    ensures Loose(AfterRead(c, key))
  {
    EvictKeepsLoose(c, {key});
  }

  lemma EvictedStoreFits(c: Cache, keys: set<Key>, max: nat)
    requires |c.store| <= max
    ensures |Evict(c, keys).store| <= max
  {
  }

  lemma StampKeepsLoose(c: Cache)
    requires Loose(c)
    ensures Loose(c.(stamp := c.stamp + 1))
  {
    SamePartsKeepLoose(c, c.(stamp := c.stamp + 1));
  }

  // ---- the steps ----

  lemma BeginKeepsValues(c: Cache, t: nat, key: Key)
    requires Values(c) && t !in c.threads
    ensures Values(Next(c, Begin(t, key)))
  {
    var stamped := c.(stamp := c.stamp + 1);
    StampKeepsLoose(c);
    MoveKeepsLoose(stamped, t, Thread(key, Looking));
    assert Next(c, Begin(t, key)) == stamped.(threads := stamped.threads[t := Thread(key, Looking)]);
  }

  lemma LookKeepsValues(c: Cache, t: nat)
    requires Values(c) && Enabled(c, Look(t))
    ensures Values(Next(c, Look(t)))
  {
    LookKeepsLoose(c, t);
    EvictedStoreFits(c, {c.threads[t].key}, c.maxEntries);
  }

  lemma LookKeepsLoose(c: Cache, t: nat)
    requires Values(c) && Enabled(c, Look(t))
    ensures Loose(Next(c, Look(t)))
  {
    var th := c.threads[t];
    var mid := AfterRead(c, th.key);
    var moved := th.(place := if Hit(c, th.key).Some? then Finished(Hit(c, th.key)) else Missed);
    AfterReadKeepsLoose(c, th.key);
    LookGivesValue(c, t, mid, moved);
    MovedAndStamped(mid, t, moved);
    LookIsMove(c, t, mid, moved);
  }

  lemma LookIsMove(c: Cache, t: nat, mid: Cache, moved: Thread)
    requires Enabled(c, Look(t)) && mid == AfterRead(c, c.threads[t].key)
    requires moved == c.threads[t].(place := if Hit(c, c.threads[t].key).Some? then Finished(Hit(c, c.threads[t].key)) else Missed)
    ensures var after := mid.(threads := mid.threads[t := moved]);
            Next(c, Look(t)) == after.(stamp := after.stamp + 1)
  {
  }

  lemma LookGivesValue(c: Cache, t: nat, mid: Cache, moved: Thread)
    requires Values(c) && Enabled(c, Look(t)) && Loose(mid) && mid == AfterRead(c, c.threads[t].key)
    requires moved == c.threads[t].(place := if Hit(c, c.threads[t].key).Some? then Finished(Hit(c, c.threads[t].key)) else Missed)
    ensures ThreadValue(mid.(threads := mid.threads[t := moved]), t)
  {
    assert ThreadValue(c, t);
    assert mid.threads == c.threads;
    assert ThreadValue(mid, t);
    if Hit(c, c.threads[t].key).Some? {
      HitIsOk(c, c.threads[t]);
    }
  }

  lemma MovedAndStamped(c: Cache, t: nat, th: Thread)
    requires Loose(c) && ThreadValue(c.(threads := c.threads[t := th]), t)
    ensures var moved := c.(threads := c.threads[t := th]); Loose(moved) && Loose(moved.(stamp := moved.stamp + 1))
  {
    MoveKeepsLoose(c, t, th);
    StampKeepsLoose(c.(threads := c.threads[t := th]));
  }

  lemma FetchKeepsValues(c: Cache, t: nat)
    requires Values(c) && Enabled(c, FetchLock(t))
    ensures Values(Next(c, FetchLock(t)))
  {
    assert ThreadValue(c, t);
    var next := Next(c, FetchLock(t));
    MoveKeepsLoose(c, t, next.threads[t]);
    var moved := c.(threads := c.threads[t := next.threads[t]]);
    SamePartsKeepLoose(moved, next);
  }

  lemma AcquireKeepsValues(c: Cache, t: nat)
    requires Values(c) && Enabled(c, Acquire(t))
    ensures Values(Next(c, Acquire(t)))
  {
    assert ThreadValue(c, t);
    var next := Next(c, Acquire(t));
    MoveKeepsLoose(c, t, next.threads[t]);
    SamePartsKeepLoose(c.(threads := c.threads[t := next.threads[t]]), next);
  }

  lemma ReleaseKeepsValues(c: Cache, t: nat)
    requires Values(c) && Enabled(c, Release(t))
    ensures Values(Next(c, Release(t)))
  {
    assert ThreadValue(c, t);
    var next := Next(c, Release(t));
    MoveKeepsLoose(c, t, next.threads[t]);
    SamePartsKeepLoose(c.(threads := c.threads[t := next.threads[t]]), next);
  }

  lemma StartLoadKeepsLoose(mid: Cache, t: nat)
    requires Loose(mid) && t in mid.threads && mid.threads[t].place.Locked?
    ensures Loose(StartLoad(mid, t))
  {
    assert ThreadValue(mid, t);
    var next := StartLoad(mid, t);
    MoveKeepsLoose(mid, t, next.threads[t]);
    var moved := mid.(threads := mid.threads[t := next.threads[t]]);
    forall k ensures Gone(next, k) == Gone(moved, k) {
      StartLoadPast(mid, t, k);
    }
    SamePartsKeepLoose(moved, next);
  }

  lemma RecheckHitKeepsValues(c: Cache, t: nat)
    requires Values(c) && Enabled(c, Recheck(t)) && Hit(c, c.threads[t].key).Some?
    ensures Values(Next(c, Recheck(t)))
  {
    var th := c.threads[t];
    assert ThreadValue(c, t);
    HitIsOk(c, th);
    MovedAndStamped(c, t, th.(place := Releasing(th.place.lock, th.place.epoch, Hit(c, th.key))));
  }

  lemma RecheckMissKeepsValues(c: Cache, t: nat)
    requires Values(c) && Enabled(c, Recheck(t)) && Hit(c, c.threads[t].key).None?
    ensures Values(Next(c, Recheck(t)))
  {
    var mid := AfterRead(c, c.threads[t].key);
    AfterReadKeepsLoose(c, c.threads[t].key);
    StartLoadKeepsLoose(mid, t);
    StampKeepsLoose(StartLoad(mid, t));
    assert |mid.store| <= c.maxEntries;
  }

  lemma ReadKeepsValues(c: Cache, t: nat)
    requires Values(c) && Enabled(c, LoaderReads(t))
    ensures Values(Next(c, LoaderReads(t)))
  {
    var next := Next(c, LoaderReads(t));
    assert ThreadValue(c, t);
    var stamped := c.(stamp := c.stamp + 1);
    StampKeepsLoose(c);
    MoveKeepsLoose(stamped, t, next.threads[t]);
    assert next == stamped.(threads := stamped.threads[t := next.threads[t]]);
  }

  lemma RaisesKeepsValues(c: Cache, t: nat)
    requires Values(c) && Enabled(c, LoaderRaises(t))
    ensures Values(Next(c, LoaderRaises(t)))
  {
    assert ThreadValue(c, t);
    var next := Next(c, LoaderRaises(t));
    MoveKeepsLoose(c, t, next.threads[t]);
    var moved := c.(threads := c.threads[t := next.threads[t]]);
    assert forall k :: Gone(next, k) == Gone(moved, k);
    SamePartsKeepLoose(moved, next);
  }

  lemma NotedIsLoose(c: Cache, t: nat)
    requires Values(c) && Enabled(c, StoreValue(t)) && ThreadLock(c, t) && LockTable(c)
    ensures Loose(Noted(c, t))
  {
    var th := c.threads[t];
    var entry := Entry(c.clock, th.place.value, th.place.epoch);
    var next := Noted(c, t);
    assert ThreadValue(c, t);
    PutMeaning(c.store, th.key, entry);
    forall k ensures Gone(next, k) == Gone(c, k) {}
    forall item | item in next.store ensures EntryOk(next, item) {
      if item != (th.key, entry) {
        assert EntryOk(c, item);
      }
    }
    forall u | u in next.threads ensures ThreadValue(next, u) {
      assert ThreadValue(c, u);
    }
  }

  /** After the eviction loop the store is the newest insertions, no more than fit. */
  lemma OverflowGone(c: Cache)
    requires Unique(c.store)
    ensures |Evict(c, Overflow(c.store, c.maxEntries)).store| <= c.maxEntries
  {
    if |c.store| > c.maxEntries {
      OverflowLeavesTheNewest(c.store, |c.store| - c.maxEntries);
    }
  }

  lemma MoveThenStamp(mid: Cache, t: nat, th: Thread)
    requires Values(mid) && ThreadValue(mid.(threads := mid.threads[t := th]), t)
    ensures Values(mid.(threads := mid.threads[t := th], stamp := mid.stamp + 1))
  {
    MoveKeepsLoose(mid, t, th);
    StampKeepsLoose(mid.(threads := mid.threads[t := th]));
  }

  lemma TrimmedIsOk(c: Cache, t: nat)
    requires Values(c) && Enabled(c, StoreValue(t)) && ThreadLock(c, t) && LockTable(c)
    ensures Values(Trimmed(c, t))
  {
    var noted := Noted(c, t);
    NotedIsLoose(c, t);
    OverflowGone(noted);
    EvictKeepsLoose(noted, Overflow(noted.store, c.maxEntries));
  }

  /** A loaded value, answered at the moment it is stored. */
  lemma OwnAnswerKeepsValues(mid: Cache, t: nat, next: Cache)
    requires Values(mid) && t in mid.threads && mid.threads[t].place.Loaded?
    requires var th := mid.threads[t];
             var p := th.place;
             var moved := th.(place := Releasing(p.lock, p.epoch, Some(Answer(p.value, mid.clock, mid.clock))));
             next == mid.(threads := mid.threads[t := moved], stamp := mid.stamp + 1)
    ensures Values(next)
  {
    assert ThreadValue(mid, t);
    MoveThenStamp(mid, t, next.threads[t]);
  }

  /** The state the eviction loop leaves, before the thread moves on. */
  function Trimmed(c: Cache, t: nat): (mid: Cache)
    requires t in c.threads && c.threads[t].place.Loaded?
    ensures mid.threads == c.threads && mid.clock == c.clock && mid.stamp == c.stamp
    ensures var p := c.threads[t].place;
            var moved := c.threads[t].(place := Releasing(p.lock, p.epoch, Some(Answer(p.value, c.clock, c.clock))));
            Next(c, StoreValue(t)) == mid.(threads := c.threads[t := moved], stamp := c.stamp + 1)
  {
    Evict(Noted(c, t), Overflow(Noted(c, t).store, c.maxEntries))
  }

  lemma StoreKeepsValues(c: Cache, t: nat)
    requires Values(c) && Enabled(c, StoreValue(t)) && ThreadLock(c, t) && LockTable(c)
    ensures Values(Next(c, StoreValue(t)))
  {
    var mid := Trimmed(c, t);
    var next := Next(c, StoreValue(t));
    TrimmedIsOk(c, t);
    OwnAnswerKeepsValues(mid, t, next);
  }

  lemma RemovalKeepsValues(c: Cache, gone: set<Key>)
    requires Values(c)
    ensures Values(Evict(c, gone).(stamp := c.stamp + 1))
  {
    EvictKeepsLoose(c, gone);
    StampKeepsLoose(Evict(c, gone));
  }

  lemma StepKeepsValues(c: Cache, step: Step)
    requires LockTable(c) && ThreadLocks(c) && Values(c) && Enabled(c, step)
    ensures Values(Next(c, step))
  {
    match step
    case Begin(t, key) => BeginKeepsValues(c, t, key);
    case Look(t) => LookKeepsValues(c, t);
    case FetchLock(t) => FetchKeepsValues(c, t);
    case Acquire(t) => AcquireKeepsValues(c, t);
    case Recheck(t) =>
      if Hit(c, c.threads[t].key).Some? {
        RecheckHitKeepsValues(c, t);
      } else {
        RecheckMissKeepsValues(c, t);
      }
    case LoaderReads(t) => ReadKeepsValues(c, t);
    case LoaderRaises(t) => RaisesKeepsValues(c, t);
    case StoreValue(t) => StoreKeepsValues(c, t);
    case Release(t) => ReleaseKeepsValues(c, t);
    case Invalidate(key) => RemovalKeepsValues(c, {key});
    case InvalidateWhere(accepted) => RemovalKeepsValues(c, accepted * Keys(c.store));
    case Clear => RemovalKeepsValues(c, Keys(c.store) + c.locks.Keys);
    case Tick(elapsed) => SamePartsKeepLoose(c, Next(c, step));
  }
}
