/** When two loader runs for one key can overlap. */
module CacheOverlap {
  import opened Wrappers
  import opened Dict
  import opened CacheThreads
  import opened CacheInvariant
  import opened CacheValues
  import opened CacheFlight
  import opened CacheTheorems

  // ---- what can and cannot happen without another removal ----

  ghost predicate Overlapped(c: Cache, t: nat, k: Key) {
    InLoader(c, t, k) && exists u :: u != t && InLoader(c, u, k)
  }

  /** From `c`, with no further removal of `k`, another loader run for `k` comes to overlap the one of `t`. */
  ghost predicate CanJoin(c: Cache, t: nat, k: Key) {
    exists steps: seq<Step> :: CanRun(c, steps) && Gone(Run(c, steps), k) == Gone(c, k) && Overlapped(Run(c, steps), t, k)
  }

  /** A get of `k` past its lock fetch and short of its second look. */
  predicate Pending(c: Cache, u: nat, k: Key) {
    u in c.threads && c.threads[u].key == k && (c.threads[u].place.Fetched? || c.threads[u].place.Locked?)
  }

  /** `u` goes by a lock its key has since lost to a removal. */
  predicate Outdated(c: Cache, u: nat, k: Key) {
    u in c.threads && HasLock(c.threads[u].place) && c.threads[u].place.epoch < Gone(c, k)
  }

  /** The key is not stored, and the run, or a get still to look again, is from before its last removal. */
  ghost predicate Open(c: Cache, t: nat, k: Key) {
    && k !in Keys(c.store)
    && (Outdated(c, t, k) || exists u :: Pending(c, u, k) && Outdated(c, u, k))
  }

  // ---- a closed run stays alone ----

  ghost predicate Left(c: Cache, t: nat) {
    t in c.threads && (c.threads[t].place.Releasing? || c.threads[t].place.Finished?)
  }

  ghost predicate Shut(c: Cache, t: nat, k: Key) {
    || Left(c, t)
    || (InLoader(c, t, k) && !Overlapped(c, t, k) && !Open(c, t, k))
  }

  lemma EvictKeepsHas(c: Cache, keys: set<Key>, k: Key)
    requires Has(c, k) && Gone(Evict(c, keys), k) == Gone(c, k)
    ensures Has(Evict(c, keys), k)
  {
    EvictPast(c, keys, k);
    var item :| item in c.store && item.0 == k;
    assert item in Evict(c, keys).store;
  }

  lemma StoreKeepsHas(c: Cache, t: nat, k: Key)
    requires Unique(c.store) && Enabled(c, StoreValue(t)) && Has(c, k) && Gone(Next(c, StoreValue(t)), k) == Gone(c, k)
    ensures Has(Next(c, StoreValue(t)), k)
  {
    var stored := Stored(c, t);
    StoreIsEvictStored(c, t);
    StoredHas(c, t, k);
    assert Gone(stored, k) == Gone(c, k);
    EvictKeepsHas(stored, Overflow(stored.store, c.maxEntries), k);
  }

  lemma GoneGrows(c: Cache, step: Step, k: Key)
    requires Enabled(c, step)
    ensures Gone(c, k) <= Gone(Next(c, step), k)
  {
    match step
    case Look(t) => EvictPast(c, {c.threads[t].key}, k);
    case Recheck(t) =>
      EvictPast(c, {c.threads[t].key}, k);
      if Hit(c, c.threads[t].key).None? {
        StartLoadPast(AfterRead(c, c.threads[t].key), t, k);
      }
    case StoreValue(t) => EvictPast(Noted(c, t), Overflow(Noted(c, t).store, c.maxEntries), k);
    case Invalidate(key) => EvictPast(c, {key}, k);
    case InvalidateWhere(accepted) => EvictPast(c, accepted * Keys(c.store), k);
    case Clear => EvictPast(c, Keys(c.store) + c.locks.Keys, k);
    case _ =>
  }

  lemma {:induction false} GoneGrowsOver(c: Cache, steps: seq<Step>, k: Key)
    requires CanRun(c, steps)
    ensures Gone(c, k) <= Gone(Run(c, steps), k)
    decreases |steps|
  {
    if steps != [] {
      GoneGrows(c, steps[0], k);
      GoneGrowsOver(Next(c, steps[0]), steps[1..], k);
    }
  }

  lemma StepKeepsHas(c: Cache, step: Step, k: Key)
    requires Unique(c.store) && Enabled(c, step) && Has(c, k) && Gone(Next(c, step), k) == Gone(c, k)
    ensures Has(Next(c, step), k)
  {
    match step
    case Look(t) => if AfterRead(c, c.threads[t].key) != c { EvictKeepsHas(c, {c.threads[t].key}, k); }
    case Recheck(t) => RecheckKeepsHas(c, t, k);
    case StoreValue(t) => StoreKeepsHas(c, t, k);
    case Invalidate(key) => EvictKeepsHas(c, {key}, k);
    case InvalidateWhere(accepted) => EvictKeepsHas(c, accepted * Keys(c.store), k);
    case Clear => EvictKeepsHas(c, Keys(c.store) + c.locks.Keys, k);
    case _ => assert Next(c, step).store == c.store;
  }

  lemma RecheckKeepsHas(c: Cache, t: nat, k: Key)
    requires Enabled(c, Recheck(t)) && Has(c, k) && Gone(Next(c, Recheck(t)), k) == Gone(c, k)
    ensures Has(Next(c, Recheck(t)), k)
  {
    var mid := AfterRead(c, c.threads[t].key);
    if Hit(c, c.threads[t].key).None? {
      StartLoadPast(mid, t, k);
      if mid != c {
        EvictKeepsHas(c, {c.threads[t].key}, k);
      }
    }
  }

  /** Over a stored key a second look answers, or removes the aged entry. */
  lemma StoredAnswersRecheck(c: Cache, u: nat, k: Key)
    requires Enabled(c, Recheck(u)) && c.threads[u].key == k && Has(c, k)
    ensures Next(c, Recheck(u)).threads[u].place.Releasing? || Gone(Next(c, Recheck(u)), k) > Gone(c, k)
  {
    KeyAt(c.store, k);
    if Hit(c, k).None? {
      EvictPast(c, {k}, k);
      StartLoadPast(AfterRead(c, k), u, k);
    }
  }

  /** While a closed run goes on, no other get of its key enters the loader. */
  lemma NobodyEnters(c: Cache, u: nat, t: nat, k: Key)
    requires Inv(c) && Enabled(c, Recheck(u)) && c.threads[u].key == k
    requires Shut(c, t, k) && InLoader(c, t, k) && Gone(Next(c, Recheck(u)), k) == Gone(c, k)
    ensures Next(c, Recheck(u)).threads[u].place.Releasing?
  {
    KeyAt(c.store, k);
    if Has(c, k) {
      StoredAnswersRecheck(c, u, k);
    } else {
      EpochIsPast(c, t);
      EpochIsPast(c, u);
      assert Pending(c, u, k);
      OneHolderPerSpan(c, t, u);
    }
  }

  /** What a step does to the gets it does not move. */
  lemma OthersStay(c: Cache, step: Step, u: nat)
    requires Enabled(c, step) && u in c.threads
    ensures u in Next(c, step).threads && Next(c, step).threads[u].key == c.threads[u].key
    ensures Mover(step) != Some(u) ==> Next(c, step).threads[u] == c.threads[u]
  {
    hide Hit, Find, Without, Put, PastOf, Overflow;
  }

  function Mover(step: Step): Option<nat> {
    match step
    case Begin(t, _) => Some(t)
    case Look(t) => Some(t)
    case FetchLock(t) => Some(t)
    case Acquire(t) => Some(t)
    case Recheck(t) => Some(t)
    case LoaderReads(t) => Some(t)
    case LoaderRaises(t) => Some(t)
    case StoreValue(t) => Some(t)
    case Release(t) => Some(t)
    case _ => None
  }

  lemma LeftStaysLeft(c: Cache, step: Step, t: nat)
    requires Enabled(c, step) && Left(c, t)
    ensures Left(Next(c, step), t)
  {
    hide Hit, Find, Without, Put, PastOf, Overflow;
  }

  lemma LoaderStaysOrLeaves(c: Cache, step: Step, t: nat, k: Key)
    requires Enabled(c, step) && InLoader(c, t, k)
    ensures var next := Next(c, step);
            Left(next, t) || (InLoader(next, t, k) && next.threads[t].place.epoch == c.threads[t].place.epoch)
  {
    hide Hit, Find, Without, Put, PastOf, Overflow;
  }

  lemma NoNewLoader(c: Cache, step: Step, t: nat, k: Key, u: nat)
    requires Inv(c) && Enabled(c, step) && Gone(Next(c, step), k) == Gone(c, k)
    requires Shut(c, t, k) && InLoader(c, t, k) && u != t && InLoader(Next(c, step), u, k)
    ensures InLoader(c, u, k)
  {
    hide Hit, Find, Without, Put, PastOf, Overflow, Inv, Shut;
    if step == Recheck(u) {
      OthersStay(c, step, u);
      NobodyEnters(c, u, t, k);
    }
  }

  lemma NoNewOutdated(c: Cache, step: Step, k: Key, u: nat)
    requires Enabled(c, step) && Gone(Next(c, step), k) == Gone(c, k)
    requires Pending(Next(c, step), u, k) && Outdated(Next(c, step), u, k)
    ensures Pending(c, u, k) && Outdated(c, u, k)
  {
    hide Hit, Find, Without, Put, PastOf, Overflow;
  }

  lemma StepKeepsShut(c: Cache, step: Step, t: nat, k: Key)
    requires Inv(c) && Enabled(c, step) && Shut(c, t, k) && Gone(Next(c, step), k) == Gone(c, k)
    ensures Shut(Next(c, step), t, k)
  {
    hide Inv, Next, Open, Gone;
    var next := Next(c, step);
    if Left(c, t) {
      LeftStaysLeft(c, step, t);
    } else {
      LoaderStaysOrLeaves(c, step, t, k);
      if !Left(next, t) {
        forall u | u != t && InLoader(next, u, k) ensures false {
          NoNewLoader(c, step, t, k, u);
        }
        StepKeepsItClosed(c, step, t, k);
      }
    }
  }

  lemma StepKeepsItClosed(c: Cache, step: Step, t: nat, k: Key)
    requires Inv(c) && Enabled(c, step) && !Open(c, t, k) && Gone(Next(c, step), k) == Gone(c, k)
    requires InLoader(c, t, k) && InLoader(Next(c, step), t, k)
    requires Next(c, step).threads[t].place.epoch == c.threads[t].place.epoch
    ensures !Open(Next(c, step), t, k)
  {
    KeyAt(c.store, k);
    KeyAt(Next(c, step).store, k);
    if Has(c, k) {
      StepKeepsHas(c, step, k);
    } else {
      hide Inv, Next, Pending, Has;
      forall u | Pending(Next(c, step), u, k) ensures !Outdated(Next(c, step), u, k) {
        if Outdated(Next(c, step), u, k) {
          NoNewOutdated(c, step, k, u);
        }
      }
    }
  }

  lemma {:induction false} ShutNeverOverlaps(c: Cache, steps: seq<Step>, t: nat, k: Key)
    requires Inv(c) && CanRun(c, steps) && Shut(c, t, k) && Gone(Run(c, steps), k) == Gone(c, k)
    ensures !Overlapped(Run(c, steps), t, k)
    decreases |steps|
  {
    hide Inv;
    if steps != [] {
      var next := Next(c, steps[0]);
      GoneGrows(c, steps[0], k);
      GoneGrowsOver(next, steps[1..], k);
      StepKeepsInv(c, steps[0]);
      StepKeepsShut(c, steps[0], t, k);
      ShutNeverOverlaps(next, steps[1..], t, k);
    }
  }

  // ---- an open run can be joined ----

  lemma JoinAfter(c: Cache, step: Step, t: nat, k: Key)
    requires Enabled(c, step) && Gone(Next(c, step), k) == Gone(c, k) && CanJoin(Next(c, step), t, k)
    ensures CanJoin(c, t, k)
  {
    hide Next, Gone, Overlapped;
    var steps: seq<Step> :| CanRun(Next(c, step), steps) && Gone(Run(Next(c, step), steps), k) == Gone(Next(c, step), k)
                            && Overlapped(Run(Next(c, step), steps), t, k);
    var all := [step] + steps;
    assert all[1..] == steps;
    assert CanRun(c, all) && Run(c, all) == Run(Next(c, step), steps);
  }

  lemma JoinNow(c: Cache, t: nat, k: Key)
    requires Overlapped(c, t, k)
    ensures CanJoin(c, t, k)
  {
    var steps: seq<Step> := [];
    assert CanRun(c, steps) && Run(c, steps) == c;
  }

  lemma JoinLocked(c: Cache, t: nat, u: nat, k: Key)
    requires InLoader(c, t, k) && u != t && k !in Keys(c.store)
    requires u in c.threads && c.threads[u].key == k && c.threads[u].place.Locked?
    ensures CanJoin(c, t, k)
  {
    var next := Next(c, Recheck(u));
    StartLoadPast(c, u, k);
    assert AfterRead(c, k) == c;
    assert InLoader(next, u, k) && InLoader(next, t, k);
    JoinNow(next, t, k);
    JoinAfter(c, Recheck(u), t, k);
  }

  lemma JoinFree(c: Cache, t: nat, u: nat, k: Key)
    requires InLoader(c, t, k) && u != t && k !in Keys(c.store)
    requires u in c.threads && c.threads[u].key == k && c.threads[u].place.Fetched? && c.threads[u].place.lock !in c.held
    ensures CanJoin(c, t, k)
  {
    var next := Next(c, Acquire(u));
    assert InLoader(next, t, k) && next.past == c.past;
    JoinLocked(next, t, u, k);
    JoinAfter(c, Acquire(u), t, k);
  }

  /** The holder of a lock is a get of that lock's key and span. */
  lemma HolderOf(c: Cache, u: nat) returns (v: nat)
    requires Inv(c) && u in c.threads && c.threads[u].place.Fetched? && c.threads[u].place.lock in c.held
    ensures v in c.threads && HoldsLock(c.threads[v].place) && c.threads[v].key == c.threads[u].key
    ensures c.threads[v].place.lock == c.threads[u].place.lock && c.threads[v].place.epoch == c.threads[u].place.epoch
  {
    v := c.held[c.threads[u].place.lock];
    assert ThreadLock(c, u) && ThreadLock(c, v);
  }

  lemma JoinFetched(c: Cache, t: nat, u: nat, k: Key)
    requires Inv(c) && InLoader(c, t, k) && !Overlapped(c, t, k) && k !in Keys(c.store)
    requires u in c.threads && c.threads[u].key == k && c.threads[u].place.Fetched?
    requires c.threads[u].place.epoch != c.threads[t].place.epoch
    ensures CanJoin(c, t, k)
  {
    if c.threads[u].place.lock !in c.held {
      JoinFree(c, t, u, k);
    } else {
      var v := HolderOf(c, u);
      assert !InLoader(c, v, k);
      if c.threads[v].place.Locked? {
        JoinLocked(c, t, v, k);
      } else {
        var next := Next(c, Release(v));
        assert InLoader(next, t, k) && next.past == c.past;
        JoinFree(next, t, u, k);
        JoinAfter(c, Release(v), t, k);
      }
    }
  }

  /** A thread no get has used yet. */
  lemma {:induction false} FreshThread(used: set<nat>) returns (t: nat)
    ensures forall u :: u in used ==> u < t
    decreases used
  {
    if used == {} {
      t := 0;
    } else {
      var u :| u in used;
      var v := FreshThread(used - {u});
      assert forall w :: w in used ==> w == u || w in used - {u};
      t := if v <= u then u + 1 else v;
    }
  }

  /** A get that begins now comes to its key's own lock. */
  lemma JoinFresh(c: Cache, t: nat, k: Key)
    requires Inv(c) && InLoader(c, t, k) && !Overlapped(c, t, k) && k !in Keys(c.store) && Outdated(c, t, k)
    ensures CanJoin(c, t, k)
  {
    hide Next, CanJoin, Inv, CanRun, Run, Overlapped;
    var u := FreshThread(c.threads.Keys);
    ThreeStepsIn(c, u, k);
    var c1 := Next(c, Begin(u, k));
    var c2 := Next(c1, Look(u));
    var c3 := Next(c2, FetchLock(u));
    FreshIsOutside(c, c3, u, t, k);
    StepKeepsInv(c, Begin(u, k));
    StepKeepsInv(c1, Look(u));
    StepKeepsInv(c2, FetchLock(u));
    JoinFetched(c3, t, u, k);
    JoinAfter(c2, FetchLock(u), t, k);
    JoinAfter(c1, Look(u), t, k);
    JoinAfter(c, Begin(u, k), t, k);
  }

  lemma FreshIsOutside(c: Cache, next: Cache, u: nat, t: nat, k: Key)
    requires u !in c.threads && u in next.threads && next.threads == c.threads[u := next.threads[u]]
    requires next.threads[u].place.Fetched? && InLoader(c, t, k) && !Overlapped(c, t, k)
    ensures InLoader(next, t, k) && !Overlapped(next, t, k)
  {
    assert forall v :: v != u ==> (InLoader(next, v, k) <==> InLoader(c, v, k));
  }

  lemma ThreeStepsIn(c: Cache, u: nat, k: Key)
    requires u !in c.threads && k !in Keys(c.store)
    ensures var c1 := Next(c, Begin(u, k));
            && Enabled(c1, Look(u)) && c1.past == c.past
            && var c2 := Next(c1, Look(u));
            && Enabled(c2, FetchLock(u)) && c2.past == c.past
            && var c3 := Next(c2, FetchLock(u));
            && c3.past == c.past && c3.store == c.store
            && u in c3.threads && c3.threads == c.threads[u := c3.threads[u]]
            && c3.threads[u].key == k && c3.threads[u].place.Fetched? && c3.threads[u].place.epoch == Gone(c, k)
  {
  }

  /**
    Without another removal of the key, another loader run can come to overlap this
    one if and only if one does already, or the key is not stored and this run, or a get
    still to look a second time, goes by a lock from before the key's last removal.
   */
  lemma JoinsExactly(c: Cache, t: nat, k: Key)
    requires Reachable(c) && InLoader(c, t, k)
    ensures CanJoin(c, t, k) <==> Overlapped(c, t, k) || Open(c, t, k)
  {
    ReachableInv(c);
    if Overlapped(c, t, k) {
      JoinNow(c, t, k);
    } else if !Open(c, t, k) {
      forall steps: seq<Step> | CanRun(c, steps) && Gone(Run(c, steps), k) == Gone(c, k)
        ensures !Overlapped(Run(c, steps), t, k)
      {
        ShutNeverOverlaps(c, steps, t, k);
      }
    } else if Outdated(c, t, k) {
      JoinFresh(c, t, k);
    } else {
      var u :| Pending(c, u, k) && Outdated(c, u, k);
      EpochIsPast(c, t);
      if c.threads[u].place.Locked? {
        JoinLocked(c, t, u, k);
      } else {
        JoinFetched(c, t, u, k);
      }
    }
  }

  /** One removal is always enough: after it another run can join, whatever the state. */
  lemma RemovalAdmitsOverlap(c: Cache, t: nat, k: Key)
    requires Reachable(c) && InLoader(c, t, k)
    ensures CanJoin(Next(c, Invalidate(k)), t, k)
  {
    var next := Next(c, Invalidate(k));
    ReachableInv(c);
    ReachableNext(c, Invalidate(k));
    EpochIsPast(c, t);
    EvictPast(c, {k}, k);
    KeyAt(next.store, k);
    JoinsExactly(next, t, k);
  }

  // ---- runs from the start ----

  lemma InitReachable(ttl: real, maxEntries: nat)
    ensures Reachable(Init(ttl, maxEntries))
  {
    var steps: seq<Step> := [];
    assert CanRun(Init(ttl, maxEntries), steps) && Run(Init(ttl, maxEntries), steps) == Init(ttl, maxEntries);
  }

  lemma LoaderRuns() returns (c: Cache)
    ensures Reachable(c) && InLoader(c, 0, "k") && c.threads[0].place.Loading? && c.maxEntries == 256 && c.ttl == 60.0
  {
    var c0 := Init(60.0, 256);
    InitReachable(60.0, 256);
    ThreeStepsIn(c0, 0, "k");
    ReachableNext(c0, Begin(0, "k"));
    var c1 := Next(c0, Begin(0, "k"));
    ReachableNext(c1, Look(0));
    var c2 := Next(c1, Look(0));
    ReachableNext(c2, FetchLock(0));
    var c3 := Next(c2, FetchLock(0));
    ReachableNext(c3, Acquire(0));
    var c4 := Next(c3, Acquire(0));
    ReachableNext(c4, Recheck(0));
    c := Next(c4, Recheck(0));
  }

  /** Two loader runs for one key do overlap in some run of the cache. */
  lemma OverlapHappens() returns (c: Cache)
    ensures Reachable(c) && Overlapped(c, 0, "k")
  {
    var c1 := LoaderRuns();
    RemovalAdmitsOverlap(c1, 0, "k");
    var c2 := Next(c1, Invalidate("k"));
    ReachableNext(c1, Invalidate("k"));
    var steps: seq<Step> :| CanRun(c2, steps) && Gone(Run(c2, steps), "k") == Gone(c2, "k") && Overlapped(Run(c2, steps), 0, "k");
    ReachableRun(c2, steps);
    c := Run(c2, steps);
  }

  /** A load lies between its read and its store in some run of the cache. */
  lemma LoadHappens() returns (c: Cache)
    ensures Reachable(c) && !Quiet(c, "k") && c.maxEntries >= 1 && c.ttl >= 0.0
  {
    var c1 := LoaderRuns();
    ReachableNext(c1, LoaderReads(0));
    c := Next(c1, LoaderReads(0));
    assert LoadedFor(c, 0, "k");
  }
}
