/** What a removal promises the gets that begin after it. */
module CacheCoherence {
  import opened Wrappers
  import opened Dict
  import opened CacheThreads
  import opened CacheInvariant
  import opened CacheValues
  import opened CacheFlight
  import opened CacheTheorems
  import opened CacheOverlap
  import opened CacheAnswers

  ghost predicate AnsweredSince(th: Thread, stamp: nat) {
    (th.place.Releasing? || th.place.Finished?) && th.place.answer.Some? ==> th.place.answer.value.value.readAt >= stamp
  }

  /** Whatever can still reach a get of `k` that is not in `before` was read at or after step `stamp`. */
  ghost predicate Afresh(c: Cache, k: Key, stamp: nat, before: set<nat>) {
    && stamp <= c.stamp
    && (forall item :: item in c.store && item.0 == k ==> item.1.value.readAt >= stamp)
    && (forall t :: LoadedFor(c, t, k) ==> c.threads[t].place.value.readAt >= stamp)
    && (forall t :: t in c.threads && c.threads[t].key == k && t !in before ==> AnsweredSince(c.threads[t], stamp))
  }

  lemma HitIsAfresh(c: Cache, k: Key, stamp: nat, before: set<nat>)
    requires Afresh(c, k, stamp, before)
    ensures Hit(c, k).Some? ==> Hit(c, k).value.value.readAt >= stamp
  {
    if Hit(c, k).Some? {
      assert (k, Find(c.store, k).value) in c.store;
    }
  }

  lemma StoreKeepsAfresh(c: Cache, t: nat, k: Key, stamp: nat, before: set<nat>)
    requires Unique(c.store) && Enabled(c, StoreValue(t)) && Afresh(c, k, stamp, before)
    ensures Afresh(Next(c, StoreValue(t)), k, stamp, before)
  {
    var next := Next(c, StoreValue(t));
    StoreIsEvictStored(c, t);
    assert c.threads[t].key == k ==> LoadedFor(c, t, k);
    forall item | item in next.store && item.0 == k ensures item.1.value.readAt >= stamp {
      StoredItems(c, t, item);
    }
    assert forall u :: LoadedFor(next, u, k) ==> LoadedFor(c, u, k);
  }

  /** A step that adds nothing to the store and moves one thread. */
  lemma MoveKeepsAfresh(c: Cache, next: Cache, t: nat, k: Key, stamp: nat, before: set<nat>)
    requires Afresh(c, k, stamp, before) && c.stamp <= next.stamp
    requires forall item :: item in next.store ==> item in c.store
    requires t in next.threads && next.threads == c.threads[t := next.threads[t]]
    requires next.threads[t].key == k && t !in before ==> AnsweredSince(next.threads[t], stamp)
    requires LoadedFor(next, t, k) ==> next.threads[t].place.value.readAt >= stamp
    ensures Afresh(next, k, stamp, before)
  {
    forall u | LoadedFor(next, u, k) ensures next.threads[u].place.value.readAt >= stamp {
      assert u != t ==> LoadedFor(c, u, k);
    }
  }

  lemma RemovalKeepsAfresh(c: Cache, next: Cache, k: Key, stamp: nat, before: set<nat>)
    requires Afresh(c, k, stamp, before) && c.stamp <= next.stamp && next.threads == c.threads
    requires forall item :: item in next.store ==> item in c.store
    ensures Afresh(next, k, stamp, before)
  {
    assert forall u :: LoadedFor(next, u, k) ==> LoadedFor(c, u, k);
  }

  lemma StepKeepsAfresh(c: Cache, step: Step, k: Key, stamp: nat, before: set<nat>)
    requires Unique(c.store) && Enabled(c, step) && Afresh(c, k, stamp, before)
    ensures Afresh(Next(c, step), k, stamp, before)
  {
    hide Afresh, Hit, Find, PastOf;
    var next := Next(c, step);
    HitIsAfresh(c, k, stamp, before);
    match step
    case StoreValue(t) => StoreKeepsAfresh(c, t, k, stamp, before);
    case LoaderReads(t) =>
      StampIsPast(c, k, stamp, before);
      MoveKeepsAfresh(c, next, t, k, stamp, before);
    case Begin(t, _) => MoveKeepsAfresh(c, next, t, k, stamp, before);
    case Look(t) => MoveKeepsAfresh(c, next, t, k, stamp, before);
    case FetchLock(t) => MoveKeepsAfresh(c, next, t, k, stamp, before);
    case Acquire(t) => MoveKeepsAfresh(c, next, t, k, stamp, before);
    case Recheck(t) => MoveKeepsAfresh(c, next, t, k, stamp, before);
    case LoaderRaises(t) => MoveKeepsAfresh(c, next, t, k, stamp, before);
    case Release(t) =>
      StampIsPast(c, k, stamp, before);
      MoveKeepsAfresh(c, next, t, k, stamp, before);
    case _ => RemovalKeepsAfresh(c, next, k, stamp, before);
  }

  lemma StampIsPast(c: Cache, k: Key, stamp: nat, before: set<nat>)
    requires Afresh(c, k, stamp, before)
    ensures stamp <= c.stamp
    ensures forall t :: t in c.threads && c.threads[t].key == k && t !in before ==> AnsweredSince(c.threads[t], stamp)
  {
  }

  lemma {:induction false} RunKeepsAfresh(c: Cache, steps: seq<Step>, k: Key, stamp: nat, before: set<nat>)
    requires Inv(c) && CanRun(c, steps) && Afresh(c, k, stamp, before)
    ensures Afresh(Run(c, steps), k, stamp, before)
    decreases |steps|
  {
    hide Next, Afresh;
    if steps != [] {
      StepKeepsInv(c, steps[0]);
      StepKeepsAfresh(c, steps[0], k, stamp, before);
      RunKeepsAfresh(Next(c, steps[0]), steps[1..], k, stamp, before);
    }
  }

  /** Every get of `k` begun after `c` is answered, if at all, with a value read at or after step `stamp`. */
  ghost predicate Coherent(c: Cache, k: Key, stamp: nat) {
    forall steps: seq<Step>, t: nat ::
      CanRun(c, steps) && t !in c.threads && t in Run(c, steps).threads
      && Run(c, steps).threads[t].key == k
      && Run(c, steps).threads[t].place.Finished? && Run(c, steps).threads[t].place.answer.Some?
      ==> Run(c, steps).threads[t].place.answer.value.value.readAt >= stamp
  }

  /** The steps that are meant to remove `k`. */
  predicate Removes(step: Step, k: Key) {
    step == Invalidate(k) || (step.InvalidateWhere? && k in step.accepted) || step.Clear?
  }

  lemma RemovedMeaning(c: Cache, step: Step, k: Key)
    requires Removes(step, k)
    ensures Enabled(c, step)
    ensures var next := Next(c, step);
            && k !in Keys(next.store) && next.threads == c.threads && next.stamp == c.stamp + 1
            && next.ttl == c.ttl && next.maxEntries == c.maxEntries && next.clock == c.clock
  {
    KeyAt(c.store, k);
    KeyAt(Next(c, step).store, k);
  }

  lemma QuietRemovalIsCoherent(c: Cache, step: Step, k: Key)
    requires Reachable(c) && Removes(step, k) && Quiet(c, k)
    ensures Coherent(Next(c, step), k, c.stamp)
  {
    var next := Next(c, step);
    var before := c.threads.Keys;
    ReachableInv(c);
    RemovedMeaning(c, step, k);
    StepKeepsInv(c, step);
    assert Afresh(next, k, c.stamp, before) by {
      KeyAt(next.store, k);
      assert forall t :: LoadedFor(next, t, k) ==> LoadedFor(c, t, k);
    }
    forall steps: seq<Step>, t: nat |
      CanRun(next, steps) && t !in next.threads && t in Run(next, steps).threads
      && Run(next, steps).threads[t].key == k
      && Run(next, steps).threads[t].place.Finished? && Run(next, steps).threads[t].place.answer.Some?
      ensures Run(next, steps).threads[t].place.answer.value.value.readAt >= c.stamp
    {
      RunKeepsAfresh(next, steps, k, c.stamp, before);
      assert AnsweredSince(Run(next, steps).threads[t], c.stamp);
    }
  }

  /** A value stored now answers at once. */
  lemma StoredAnswersAtOnce(c: Cache, t: nat)
    requires Inv(c) && Enabled(c, StoreValue(t)) && c.maxEntries >= 1 && c.ttl >= 0.0
    ensures var k := c.threads[t].key;
            Hit(Next(c, StoreValue(t)), k) == Some(Answer(c.threads[t].place.value, c.clock, c.clock))
  {
    StoredIsFound(c, t);
  }

  /** A get that begins while the key is live is answered by it. */
  lemma LiveAnswersNext(c: Cache, u: nat, k: Key)
    requires u !in c.threads && Hit(c, k).Some?
    ensures var steps := [Begin(u, k), Look(u)];
            && CanRun(c, steps)
            && u in Run(c, steps).threads
            && Run(c, steps).threads[u] == Thread(k, Finished(Hit(c, k)))
  {
    var begun := Next(c, Begin(u, k));
    assert Hit(begun, k) == Hit(c, k);
    var looked := Next(begun, Look(u));
    assert [Begin(u, k), Look(u)][1..] == [Look(u)] && [Look(u)][1..] == [];
    assert CanRun(looked, []) && Run(looked, []) == looked;
    assert CanRun(begun, [Look(u)]) && Run(begun, [Look(u)]) == looked;
  }

  /** A load that is past its read when the key is removed answers a later get with what it read. */
  lemma StaleRun(c: Cache, t: nat, u: nat, k: Key)
    requires Inv(c) && LoadedFor(c, t, k) && u !in c.threads && k !in Keys(c.store)
    requires c.maxEntries >= 1 && c.ttl >= 0.0
    ensures var steps := [StoreValue(t), Begin(u, k), Look(u)];
            && CanRun(c, steps)
            && u in Run(c, steps).threads
            && Run(c, steps).threads[u] == Thread(k, Finished(Some(Answer(c.threads[t].place.value, c.clock, c.clock))))
  {
    var stored := Next(c, StoreValue(t));
    StoredAnswersAtOnce(c, t);
    assert u !in stored.threads;
    hide Next, Hit, Inv;
    LiveAnswersNext(stored, u, k);
    assert [StoreValue(t), Begin(u, k), Look(u)][1..] == [Begin(u, k), Look(u)];
  }

  lemma LoadedIsIncoherent(c: Cache, step: Step, t: nat, k: Key)
    requires Inv(c) && Removes(step, k) && LoadedFor(c, t, k) && c.maxEntries >= 1 && c.ttl >= 0.0
    ensures Enabled(c, step) && !Coherent(Next(c, step), k, c.stamp)
  {
    hide Next, Coherent;
    var u := FreshThread(c.threads.Keys);
    RemovedMeaning(c, step, k);
    StepKeepsInv(c, step);
    assert ThreadValue(c, t);
    hide Inv;
    StaleIsIncoherent(Next(c, step), t, u, k, c.stamp);
  }

  lemma StaleIsIncoherent(c: Cache, t: nat, u: nat, k: Key, stamp: nat)
    requires Inv(c) && LoadedFor(c, t, k) && u !in c.threads && k !in Keys(c.store)
    requires c.maxEntries >= 1 && c.ttl >= 0.0 && c.threads[t].place.value.readAt < stamp
    ensures !Coherent(c, k, stamp)
  {
    hide Next, Inv;
    StaleRun(c, t, u, k);
  }

  /**
    Removing a key, alone, by predicate or with everything else, makes every later get
    of it read afresh exactly when no load of that key lies between its read and its
    store at that moment; otherwise that load can put its older value back, and a get
    that begins later is answered with it.
   */
  lemma RemovalIsCoherentExactly(c: Cache, step: Step, k: Key)
    requires Reachable(c) && Removes(step, k) && c.maxEntries >= 1 && c.ttl >= 0.0
    ensures Enabled(c, step) && (Coherent(Next(c, step), k, c.stamp) <==> Quiet(c, k))
  {
    ReachableInv(c);
    if Quiet(c, k) {
      QuietRemovalIsCoherent(c, step, k);
    } else {
      var t :| t in c.threads && LoadedFor(c, t, k);
      LoadedIsIncoherent(c, step, t, k);
    }
  }
}
