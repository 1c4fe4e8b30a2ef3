/** The promises of the cache, for any number of threads and every interleaving. */
module CacheTheorems {
  import opened Wrappers
  import opened Dict
  import opened CacheThreads
  import opened CacheInvariant
  import opened CacheValues
  import opened CacheFlight

  ghost predicate Inv(c: Cache) {
    LockTable(c) && ThreadLocks(c) && HeldOk(c) && Values(c) && Spans(c)
  }

  lemma InitInv(ttl: real, maxEntries: nat)
    ensures Inv(Init(ttl, maxEntries))
  {
    var c := Init(ttl, maxEntries);
    forall k ensures Flight(c, k) && NoLeak(c, k) {
      assert Loads(c, k) == {};
    }
  }

  lemma StepKeepsInv(c: Cache, step: Step)
    requires Inv(c) && Enabled(c, step)
    ensures Inv(Next(c, step))
  {
    StepKeepsLockTable(c, step);
    StepKeepsThreadLocks(c, step);
    StepKeepsHeld(c, step);
    StepKeepsValues(c, step);
    StepKeepsSpans(c, step);
  }

  predicate CanRun(c: Cache, steps: seq<Step>)
    decreases |steps|
  {
    steps != [] ==> Enabled(c, steps[0]) && CanRun(Next(c, steps[0]), steps[1..])
  }

  function Run(c: Cache, steps: seq<Step>): Cache
    requires CanRun(c, steps)
    decreases |steps|
  {
    if steps == [] then c else Run(Next(c, steps[0]), steps[1..])
  }

  lemma {:induction false} RunKeepsInv(c: Cache, steps: seq<Step>)
    requires Inv(c) && CanRun(c, steps)
    ensures Inv(Run(c, steps))
    decreases |steps|
  {
    if steps != [] {
      StepKeepsInv(c, steps[0]);
      RunKeepsInv(Next(c, steps[0]), steps[1..]);
    }
  }

  ghost predicate Reachable(c: Cache) {
    exists ttl: real, max: nat, steps: seq<Step> :: CanRun(Init(ttl, max), steps) && Run(Init(ttl, max), steps) == c
  }

  lemma ReachableInv(c: Cache)
    requires Reachable(c)
    ensures Inv(c)
  {
    var ttl: real, max: nat, steps: seq<Step> :| CanRun(Init(ttl, max), steps) && Run(Init(ttl, max), steps) == c;
    InitInv(ttl, max);
    RunKeepsInv(Init(ttl, max), steps);
  }

  lemma {:induction false} RunSnoc(c: Cache, steps: seq<Step>, step: Step)
    requires CanRun(c, steps) && Enabled(Run(c, steps), step)
    ensures CanRun(c, steps + [step]) && Run(c, steps + [step]) == Next(Run(c, steps), step)
    decreases |steps|
  {
    if steps == [] {
      assert [step][1..] == [];
    } else {
      assert (steps + [step])[1..] == steps[1..] + [step];
      RunSnoc(Next(c, steps[0]), steps[1..], step);
    }
  }

  lemma ReachableNext(c: Cache, step: Step)
    requires Reachable(c) && Enabled(c, step)
    ensures Reachable(Next(c, step))
  {
    var ttl: real, max: nat, steps: seq<Step> :| CanRun(Init(ttl, max), steps) && Run(Init(ttl, max), steps) == c;
    RunSnoc(Init(ttl, max), steps, step);
  }

  lemma {:induction false} ReachableRun(c: Cache, steps: seq<Step>)
    requires Reachable(c) && CanRun(c, steps)
    ensures Reachable(Run(c, steps))
    decreases |steps|
  {
    if steps != [] {
      ReachableNext(c, steps[0]);
      ReachableRun(Next(c, steps[0]), steps[1..]);
    }
  }

  // ---- single flight ----

  ghost predicate InLoader(c: Cache, t: nat, k: Key) {
    t in c.threads && c.threads[t].key == k && (c.threads[t].place.Loading? || c.threads[t].place.Loaded?)
  }

  /**
    Two loader runs for one key overlap only across a removal of that key: one of the
    two threads fetched its lock before the key was last removed.
   */
  lemma OverlapNeedsARemoval(c: Cache, t: nat, u: nat, k: Key)
    requires Reachable(c) && t != u && InLoader(c, t, k) && InLoader(c, u, k)
    ensures c.threads[t].place.epoch < Gone(c, k) || c.threads[u].place.epoch < Gone(c, k)
    ensures c.threads[t].place.epoch != c.threads[u].place.epoch
  {
    ReachableInv(c);
    EpochIsPast(c, t);
    EpochIsPast(c, u);
    if c.threads[t].place.epoch == c.threads[u].place.epoch {
      OneHolderPerSpan(c, t, u);
    }
  }

  /**
    Between two removals of a key its lock lets at most one loader run begin that does
    not raise; once that run has stored its value, the key stays stored.
   */
  lemma OneRunPerSpan(c: Cache, k: Key)
    requires Reachable(c)
    ensures PastOf(c, k).runs <= 1
    ensures PastOf(c, k).won.Some? ==> k in Keys(c.store) && forall t :: InLoader(c, t, k) ==> c.threads[t].place.epoch < Gone(c, k)
  {
    ReachableInv(c);
    assert Flight(c, k);
    KeyAt(c.store, k);
    if PastOf(c, k).won.Some? {
      forall t | InLoader(c, t, k) ensures c.threads[t].place.epoch < Gone(c, k) {
        EpochIsPast(c, t);
        assert t !in Loads(c, k);
      }
    }
  }

  /**
    A waiter that gets the lock after the winner is answered with the winner's value
    and runs no loader, unless the entry has aged past the time to live or a thread from before
    the last removal overwrote it.
   */
  lemma WaiterIsAnsweredByTheWinner(c: Cache, t: nat)
    requires Reachable(c) && Enabled(c, Recheck(t))
    requires var k := c.threads[t].key; c.threads[t].place.epoch == Gone(c, k) && PastOf(c, k).won.Some?
    ensures var k := c.threads[t].key;
            var next := Next(c, Recheck(t));
            || (exists item :: item in c.store && item.0 == k && c.clock - item.1.storedAt > c.ttl)
            || (exists item :: item in c.store && item.0 == k && item.1.epoch < Gone(c, k))
            || (&& next.threads[t].place.Releasing?
                && next.threads[t].place.answer.Some?
                && next.threads[t].place.answer.value.value == PastOf(c, k).won.value
                && PastOf(next, k).runs == PastOf(c, k).runs)
  {
    var k := c.threads[t].key;
    var e := CurrentEntry(c, k);
    if Hit(c, k).None? {
      EvictPast(c, {k}, k);
      assert AfterRead(c, k) == Evict(c, {k});
      StartLoadPast(AfterRead(c, k), t, k);
    }
  }

  lemma CurrentEntry(c: Cache, k: Key) returns (e: Entry)
    requires Reachable(c) && PastOf(c, k).won.Some?
    ensures Find(c.store, k) == Some(e) && (k, e) in c.store && e.epoch <= Gone(c, k)
    ensures e.epoch == Gone(c, k) ==> e.value == PastOf(c, k).won.value
  {
    ReachableInv(c);
    assert Flight(c, k);
    KeyAt(c.store, k);
    e := Find(c.store, k).value;
    assert EntryOk(c, (k, e));
  }

  // ---- structure ----

  /** The bound holds after every step, and a lock outlives its key only while the key is being fetched or after a raise. */
  lemma BoundedAndTidy(c: Cache, k: Key)
    requires Reachable(c)
    ensures |c.store| <= c.maxEntries && Unique(c.store)
    ensures k in c.locks ==> k in Keys(c.store) || PastOf(c, k).raised || exists t :: InFlight(c, t, k)
  {
    ReachableInv(c);
    assert NoLeak(c, k);
    KeyAt(c.store, k);
  }

  // ---- staleness ----

  /** Every answer was stored at most a time to live before it was taken, and read no later than it was stored. */
  lemma BoundedStaleness(c: Cache, t: nat)
    requires Reachable(c) && t in c.threads && c.threads[t].place.Finished? && c.threads[t].place.answer.Some?
    ensures var a := c.threads[t].place.answer.value;
            && a.value.key == c.threads[t].key
            && a.value.readTime <= a.storedAt <= a.at
            && (a.at == a.storedAt || a.value.readTime >= a.at - c.ttl - (a.storedAt - a.value.readTime))
  {
    ReachableInv(c);
    assert ThreadValue(c, t);
  }
}
