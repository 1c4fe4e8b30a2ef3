/** What a get is answered with: a live entry as it stands, and nothing older than the time to live. */
module CacheAnswers {
  import opened Wrappers
  import opened Dict
  import opened CacheThreads
  import opened CacheInvariant
  import opened CacheValues
  import opened CacheFlight
  import opened CacheTheorems
  import opened CacheOverlap

  /** The item is stored under the key, and no older than the time to live. */
  ghost predicate LiveItem(c: Cache, k: Key, item: (Key, Entry)) {
    item in c.store && item.0 == k && c.clock - item.1.storedAt <= c.ttl
  }

  lemma HitOfLive(c: Cache, k: Key, item: (Key, Entry))
    requires Unique(c.store) && LiveItem(c, k, item)
    ensures Hit(c, k) == Some(Answer(item.1.value, c.clock, item.1.storedAt))
  {
    FindUnique(c.store, k, item.1);
  }

  lemma NoHitOfAged(c: Cache, k: Key)
    requires forall item :: !LiveItem(c, k, item)
    ensures Hit(c, k).None? && k !in Keys(AfterRead(c, k).store)
  {
    KeyAt(c.store, k);
    KeyAt(AfterRead(c, k).store, k);
    if Find(c.store, k).Some? {
      assert !LiveItem(c, k, (k, Find(c.store, k).value));
    }
  }

  /**
    The first look of a get: a stored entry no older than the time to live is the answer and
    nothing else moves; an older one is gone afterwards, and the get has missed.
   */
  lemma LookExactly(c: Cache, t: nat)
    requires Reachable(c) && Enabled(c, Look(t))
    ensures var k := c.threads[t].key;
            var next := Next(c, Look(t));
            && (forall item :: item in c.store && item.0 == k && c.clock - item.1.storedAt <= c.ttl ==>
                  && next.threads[t].place == Finished(Some(Answer(item.1.value, c.clock, item.1.storedAt)))
                  && next.store == c.store && next.locks == c.locks && next.past == c.past)
            && ((forall item :: item in c.store && item.0 == k ==> c.clock - item.1.storedAt > c.ttl) ==>
                  next.threads[t].place == Missed && k !in Keys(next.store))
  {
    ReachableInv(c);
    var k := c.threads[t].key;
    forall item | LiveItem(c, k, item) ensures Hit(c, k) == Some(Answer(item.1.value, c.clock, item.1.storedAt)) {
      HitOfLive(c, k, item);
    }
    if forall item :: !LiveItem(c, k, item) {
      NoHitOfAged(c, k);
    }
  }

  /** The second look, under the lock: the same, and a miss starts the loader. */
  lemma RecheckExactly(c: Cache, t: nat)
    requires Reachable(c) && Enabled(c, Recheck(t))
    ensures var k := c.threads[t].key;
            var p := c.threads[t].place;
            var next := Next(c, Recheck(t));
            && (forall item :: item in c.store && item.0 == k && c.clock - item.1.storedAt <= c.ttl ==>
                  && next.threads[t].place == Releasing(p.lock, p.epoch, Some(Answer(item.1.value, c.clock, item.1.storedAt)))
                  && next.store == c.store && next.locks == c.locks && next.past == c.past)
            && ((forall item :: item in c.store && item.0 == k ==> c.clock - item.1.storedAt > c.ttl) ==>
                  next.threads[t].place == Loading(p.lock, p.epoch) && k !in Keys(next.store))
  {
    ReachableInv(c);
    var k := c.threads[t].key;
    forall item | LiveItem(c, k, item) ensures Hit(c, k) == Some(Answer(item.1.value, c.clock, item.1.storedAt)) {
      HitOfLive(c, k, item);
    }
    if forall item :: !LiveItem(c, k, item) {
      NoHitOfAged(c, k);
    }
  }

  /** An entry that has aged past the time to live answers no more: the next first look misses. */
  lemma AgedIsMissed(c: Cache, elapsed: real, item: (Key, Entry), u: nat)
    requires Reachable(c) && elapsed >= 0.0 && item in c.store && c.clock + elapsed - item.1.storedAt > c.ttl
    requires u in c.threads && c.threads[u].key == item.0 && c.threads[u].place.Looking?
    ensures var later := Next(c, Tick(elapsed));
            && later.clock == c.clock + elapsed
            && Next(later, Look(u)).threads[u].place == Missed
            && item.0 !in Keys(Next(later, Look(u)).store)
  {
    var later := Next(c, Tick(elapsed));
    ReachableInv(c);
    ReachableNext(c, Tick(elapsed));
    forall other | other in c.store && other.0 == item.0 ensures other == item {
      FindUnique(c.store, item.0, item.1);
      FindUnique(c.store, item.0, other.1);
    }
    LookExactly(later, u);
  }

  // ---- the answer of a get that loads ----

  /** `t` has loaded `value`, and holds it, or has it as its answer. */
  ghost predicate Brings(c: Cache, t: nat, value: Value) {
    t in c.threads &&
    match c.threads[t].place
    case Loaded(_, _, v) => v == value
    case Releasing(_, _, answer) => answer.Some? && answer.value.value == value
    case Finished(answer) => answer.Some? && answer.value.value == value
    case _ => false
  }

  lemma StepKeepsBrings(c: Cache, step: Step, t: nat, value: Value)
    requires Enabled(c, step) && Brings(c, t, value)
    ensures Brings(Next(c, step), t, value)
  {
    hide Hit, Find, Without, Put, PastOf, Overflow;
  }

  /** Whatever the other gets and removals do, a get whose loader has read a value is answered with that value. */
  lemma {:induction false} LoadedIsAnswered(c: Cache, steps: seq<Step>, t: nat, value: Value)
    requires CanRun(c, steps) && t in c.threads && Brings(c, t, value)
    ensures Brings(Run(c, steps), t, value)
    decreases |steps|
  {
    hide Brings, Next;
    if steps != [] {
      StepKeepsBrings(c, steps[0], t, value);
      BringsIsThere(Next(c, steps[0]), t, value);
      LoadedIsAnswered(Next(c, steps[0]), steps[1..], t, value);
    }
  }

  lemma BringsIsThere(c: Cache, t: nat, value: Value)
    requires Brings(c, t, value)
    ensures t in c.threads
  {
  }

  /** A loader may raise whenever it runs: nothing is stored or removed, and its get ends without an answer. */
  lemma RaiseStoresNothing(c: Cache, t: nat)
    requires t in c.threads && c.threads[t].place.Loading?
    ensures Enabled(c, LoaderRaises(t)) && Enabled(c, LoaderReads(t))
    ensures var next := Next(c, LoaderRaises(t));
            && next.store == c.store && next.locks == c.locks && next.held == c.held
            && Enabled(next, Release(t)) && Next(next, Release(t)).threads[t].place == Finished(None)
  {
  }

  /** At the end a get hands over the answer it had under its lock, and frees that lock. */
  lemma ReleaseHandsOver(c: Cache, t: nat)
    requires Enabled(c, Release(t))
    ensures Next(c, Release(t)).threads[t].place == Finished(c.threads[t].place.answer)
    ensures Next(c, Release(t)).held == c.held - {c.threads[t].place.lock}
    ensures Next(c, Release(t)).store == c.store && Next(c, Release(t)).locks == c.locks
  {
  }

  // ---- a stored value over a run ----

  /** A step that removes `k`, stores another value for it, or pushes it out for want of room. */
  ghost predicate Disturbs(c: Cache, step: Step, k: Key)
    requires Enabled(c, step)
  {
    || step == Invalidate(k)
    || (step.InvalidateWhere? && k in step.accepted)
    || step.Clear?
    || (step.StoreValue? && (c.threads[step.t].key == k || k !in Keys(Next(c, step).store)))
  }

  ghost predicate Undisturbed(c: Cache, steps: seq<Step>, k: Key)
    requires CanRun(c, steps)
    decreases |steps|
  {
    steps != [] ==> !Disturbs(c, steps[0], k) && Undisturbed(Next(c, steps[0]), steps[1..], k)
  }

  lemma StoreKeepsItem(c: Cache, t: nat, item: (Key, Entry))
    requires Unique(c.store) && Enabled(c, StoreValue(t)) && item in c.store
    requires c.threads[t].key != item.0 && item.0 in Keys(Next(c, StoreValue(t)).store)
    ensures item in Next(c, StoreValue(t)).store
  {
    var stored := Stored(c, t);
    var next := Next(c, StoreValue(t));
    StoredItems(c, t, item);
    StoreIsEvictStored(c, t);
    KeyAt(next.store, item.0);
  }

  lemma ClockGoesOn(c: Cache, step: Step)
    requires Enabled(c, step)
    ensures c.clock <= Next(c, step).clock && Next(c, step).ttl == c.ttl
  {
  }

  lemma {:induction false} ClockGoesOnOver(c: Cache, steps: seq<Step>)
    requires CanRun(c, steps)
    ensures c.clock <= Run(c, steps).clock && Run(c, steps).ttl == c.ttl
    decreases |steps|
  {
    if steps != [] {
      ClockGoesOn(c, steps[0]);
      ClockGoesOnOver(Next(c, steps[0]), steps[1..]);
    }
  }

  lemma StepKeepsItem(c: Cache, step: Step, item: (Key, Entry))
    requires Unique(c.store) && Enabled(c, step) && LiveItem(c, item.0, item) && !Disturbs(c, step, item.0)
    ensures item in Next(c, step).store
  {
    match step
    case Look(t) => if c.threads[t].key == item.0 { HitOfLive(c, item.0, item); }
    case Recheck(t) => if c.threads[t].key == item.0 { HitOfLive(c, item.0, item); }
    case StoreValue(t) => StoreKeepsItem(c, t, item);
    case _ =>
  }

  lemma {:induction false} RunKeepsItem(c: Cache, steps: seq<Step>, item: (Key, Entry))
    requires Inv(c) && CanRun(c, steps) && Undisturbed(c, steps, item.0)
    requires item in c.store && Run(c, steps).clock - item.1.storedAt <= c.ttl
    ensures item in Run(c, steps).store
    decreases |steps|
  {
    if steps != [] {
      ClockGoesOnOver(c, steps);
      StepKeepsInv(c, steps[0]);
      StepKeepsItem(c, steps[0], item);
      ClockGoesOn(c, steps[0]);
      RunKeepsItem(Next(c, steps[0]), steps[1..], item);
    }
  }

  /**
    From the moment a value is stored, and as long as no more than the time to live has gone
    by with no removal of its key, no later store of it and no eviction for room, every get
    of the key is answered with that value at its next look, first or second.
   */
  lemma StoredAnswersWhileLive(c: Cache, t: nat, steps: seq<Step>, u: nat)
    requires Reachable(c) && Enabled(c, StoreValue(t)) && c.maxEntries >= 1
    requires CanRun(Next(c, StoreValue(t)), steps)
    requires Undisturbed(Next(c, StoreValue(t)), steps, c.threads[t].key)
    requires Run(Next(c, StoreValue(t)), steps).clock - c.clock <= c.ttl
    ensures var k, value := c.threads[t].key, c.threads[t].place.value;
            var d := Run(Next(c, StoreValue(t)), steps);
            u in d.threads && d.threads[u].key == k ==>
              && (d.threads[u].place.Looking? ==>
                    Next(d, Look(u)).threads[u].place == Finished(Some(Answer(value, d.clock, c.clock))))
              && (d.threads[u].place.Locked? ==>
                    && Next(d, Recheck(u)).threads[u].place.Releasing?
                    && Next(d, Recheck(u)).threads[u].place.answer == Some(Answer(value, d.clock, c.clock)))
  {
    var k, p := c.threads[t].key, c.threads[t].place;
    var item := (k, Entry(c.clock, p.value, p.epoch));
    var next := Next(c, StoreValue(t));
    var d := Run(next, steps);
    ReachableInv(c);
    ReachableNext(c, StoreValue(t));
    ReachableInv(next);
    StoredIsFound(c, t);
    ClockGoesOn(c, StoreValue(t));
    RunKeepsItem(next, steps, item);
    ClockGoesOnOver(next, steps);
    ReachableRun(next, steps);
    if u in d.threads && d.threads[u].key == k {
      if d.threads[u].place.Looking? {
        LookExactly(d, u);
      } else if d.threads[u].place.Locked? {
        RecheckExactly(d, u);
      }
    }
  }

  lemma {:induction false} PutPresent(store: Dict<Key, Entry>, k: Key, entry: Entry)
    requires k in Keys(store)
    ensures |Put(store, k, entry)| == |store|
  {
    if store[0].0 != k {
      assert Keys(store) == {store[0].0} + Keys(store[1..]);
      PutPresent(store[1..], k, entry);
    }
  }

  /** A value put where there is room for one survives the eviction loop. */
  lemma PutFits(store: Dict<Key, Entry>, k: Key, entry: Entry, max: nat)
    requires Unique(store) && |store| <= max && max >= 1
    ensures var full := Put(store, k, entry);
            Unique(full) && (k, entry) in Without(full, Overflow(full, max))
  {
    var full := Put(store, k, entry);
    PutMeaning(store, k, entry);
    if |full| <= max {
      NothingWithout(full, Overflow(full, max));
    } else {
      if k in Keys(store) {
        PutPresent(store, k, entry);
      }
      PutAbsent(store, k, entry);
      OverflowLeavesTheNewest(full, |full| - max);
      assert full[|full| - max..][max - 1] == (k, entry);
    }
  }

  /** A value just stored is found, whether or not its key was stored before. */
  lemma StoredIsFound(c: Cache, t: nat)
    requires Inv(c) && Enabled(c, StoreValue(t)) && c.maxEntries >= 1
    ensures var p := c.threads[t].place;
            var entry := Entry(c.clock, p.value, p.epoch);
            && (c.threads[t].key, entry) in Next(c, StoreValue(t)).store
            && Find(Next(c, StoreValue(t)).store, c.threads[t].key) == Some(entry)
  {
    var k, p := c.threads[t].key, c.threads[t].place;
    var entry := Entry(c.clock, p.value, p.epoch);
    var full := Put(c.store, k, entry);
    PutFits(c.store, k, entry, c.maxEntries);
    WithoutUnique(full, Overflow(full, c.maxEntries));
    FindUnique(Without(full, Overflow(full, c.maxEntries)), k, entry);
    assert Next(c, StoreValue(t)).store == Without(full, Overflow(full, c.maxEntries));
  }
}
