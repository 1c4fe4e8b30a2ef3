/**
  The cache under any number of threads. Each block under `_store_lock` is one
  step; per-key locks are objects that can outlive their place in the lock map.
 */
module CacheThreads {
  import opened Wrappers
  import opened Dict

  type Key = string

  /** One loader read: which thread made it, at which step and at what time. */
  datatype Value = Value(key: Key, reader: nat, readAt: nat, readTime: real)

  /** A stored value and, as history, how often the key had been removed for its writer's lock. */
  datatype Entry = Entry(storedAt: real, value: Value, epoch: nat)

  /** What a get answers with: a value, when it was taken, and when that value was stored. */
  datatype Answer = Answer(value: Value, at: real, storedAt: real)

  datatype Place =
    | Looking
    | Missed
    | Fetched(lock: nat, epoch: nat)
    | Locked(lock: nat, epoch: nat)
    | Loading(lock: nat, epoch: nat)
    | Loaded(lock: nat, epoch: nat, value: Value)
    | Releasing(lock: nat, epoch: nat, answer: Option<Answer>)
    | Finished(answer: Option<Answer>)

  /** One get. */
  datatype Thread = Thread(key: Key, place: Place)

  /**
    History of one key: how often it was removed, the value the holders of its
    current lock have stored since, the loader runs they have begun and not failed,
    and whether one of them failed.
   */
  datatype Past = Past(gone: nat, won: Option<Value>, runs: nat, raised: bool)

  datatype Cache = Cache(
    ttl: real,
    maxEntries: nat,
    store: Dict<Key, Entry>,
    locks: map<Key, nat>,
    held: map<nat, nat>,
    born: seq<(Key, nat)>,
    threads: map<nat, Thread>,
    clock: real,
    stamp: nat,
    past: map<Key, Past>)

  datatype Step =
    | Begin(t: nat, key: Key)
    | Look(t: nat)
    | FetchLock(t: nat)
    | Acquire(t: nat)
    | Recheck(t: nat)
    | LoaderReads(t: nat)
    | LoaderRaises(t: nat)
    | StoreValue(t: nat)
    | Release(t: nat)
    | Invalidate(key: Key)
    | InvalidateWhere(accepted: set<Key>)
    | Clear
    | Tick(elapsed: real)

  function PastOf(c: Cache, key: Key): Past {
    if key in c.past then c.past[key] else Past(0, None, 0, false)
  }

  function Gone(c: Cache, key: Key): nat {
    PastOf(c, key).gone
  }

  function Without(store: Dict<Key, Entry>, keys: set<Key>): (r: Dict<Key, Entry>)
    ensures forall x :: x in r <==> x in store && x.0 !in keys
    ensures |r| <= |store|
  {
    if store == [] then []
    else (if store[0].0 in keys then [] else [store[0]]) + Without(store[1..], keys)
  }

  /** Remove some keys from both maps at once. */
  function Evict(c: Cache, keys: set<Key>): Cache {
    c.(store := Without(c.store, keys),
       locks := c.locks - keys,
       past := map k | k in c.past.Keys + keys ::
                 if k in keys then Past(Gone(c, k) + 1, None, 0, false)
                 else PastOf(c, k))
  }

  /** `_read`: a live entry answers; an aged one is evicted on the way. */
  function Hit(c: Cache, key: Key): Option<Answer> {
    var e := Find(c.store, key);
    if e.Some? && c.clock - e.value.storedAt <= c.ttl
    then Some(Answer(e.value.value, c.clock, e.value.storedAt))
    else None
  }

  function AfterRead(c: Cache, key: Key): Cache {
    if Find(c.store, key).Some? && Hit(c, key).None? then Evict(c, {key}) else c
  }

  function SetPlace(c: Cache, t: nat, place: Place): Cache
    requires t in c.threads
  {
    c.(threads := c.threads[t := c.threads[t].(place := place)])
  }

  /** Between a loader's read and its store. */
  predicate LoadedFor(c: Cache, t: nat, key: Key) {
    t in c.threads && c.threads[t].key == key && c.threads[t].place.Loaded?
  }

  predicate Quiet(c: Cache, key: Key) {
    forall t :: t in c.threads ==> !LoadedFor(c, t, key)
  }

  /** The keys the eviction loop takes once the store holds `store`. */
  function Overflow(store: Dict<Key, Entry>, max: nat): set<Key> {
    if |store| <= max then {} else Keys(store[..|store| - max])
  }

  /** The store as it is between the assignment and the eviction loop. */
  function Noted(c: Cache, t: nat): Cache
    requires t in c.threads && c.threads[t].place.Loaded?
  {
    var key := c.threads[t].key;
    var p := c.threads[t].place;
    var past := PastOf(c, key);
    c.(store := Put(c.store, key, Entry(c.clock, p.value, p.epoch)),
       past := if p.epoch == past.gone then c.past[key := past.(won := Some(p.value))] else c.past)
  }

  function StoreOf(c: Cache, t: nat): Cache
    requires t in c.threads && c.threads[t].place.Loaded?
  {
    var p := c.threads[t].place;
    var noted := Noted(c, t);
    SetPlace(Evict(noted, Overflow(noted.store, c.maxEntries)), t,
             Releasing(p.lock, p.epoch, Some(Answer(p.value, c.clock, c.clock))))
  }

  predicate Enabled(c: Cache, step: Step) {
    match step
    case Begin(t, _) => t !in c.threads
    case Look(t) => t in c.threads && c.threads[t].place.Looking?
    case FetchLock(t) => t in c.threads && c.threads[t].place.Missed?
    case Acquire(t) =>
      t in c.threads && c.threads[t].place.Fetched? && c.threads[t].place.lock !in c.held
    case Recheck(t) => t in c.threads && c.threads[t].place.Locked?
    case LoaderReads(t) => t in c.threads && c.threads[t].place.Loading?
    case LoaderRaises(t) => t in c.threads && c.threads[t].place.Loading?
    case StoreValue(t) => t in c.threads && c.threads[t].place.Loaded?
    case Release(t) => t in c.threads && c.threads[t].place.Releasing?
    case Tick(elapsed) => elapsed >= 0.0
    case _ => true
  }

  function Fetch(c: Cache, t: nat): Cache
    requires t in c.threads
  {
    var key := c.threads[t].key;
    if key in c.locks then
      SetPlace(c, t, Fetched(c.locks[key], Gone(c, key)))
    else
      SetPlace(c.(locks := c.locks[key := |c.born|], born := c.born + [(key, Gone(c, key))]),
               t, Fetched(|c.born|, Gone(c, key)))
  }

  function Looked(c: Cache, t: nat): Cache
    requires t in c.threads
  {
    var key := c.threads[t].key;
    SetPlace(AfterRead(c, key), t, if Hit(c, key).Some? then Finished(Hit(c, key)) else Missed)
  }

  /** A miss under the lock: the loader starts, counted if the lock is still the key's own. */
  function StartLoad(mid: Cache, t: nat): Cache
    requires t in mid.threads && mid.threads[t].place.Locked?
  {
    var key := mid.threads[t].key;
    var p := mid.threads[t].place;
    var past := PastOf(mid, key);
    mid.(threads := mid.threads[t := mid.threads[t].(place := Loading(p.lock, p.epoch))],
         past := if p.epoch == past.gone then mid.past[key := past.(runs := past.runs + 1)] else mid.past)
  }

  function Rechecked(c: Cache, t: nat): Cache
    requires t in c.threads && c.threads[t].place.Locked?
  {
    var hit := Hit(c, c.threads[t].key);
    var p := c.threads[t].place;
    if hit.Some? then SetPlace(c, t, Releasing(p.lock, p.epoch, hit))
    else StartLoad(AfterRead(c, c.threads[t].key), t)
  }

  function Raised(c: Cache, t: nat): Cache
    requires t in c.threads && c.threads[t].place.Loading?
  {
    var key := c.threads[t].key;
    var p := c.threads[t].place;
    var past := PastOf(c, key);
    c.(threads := c.threads[t := c.threads[t].(place := Releasing(p.lock, p.epoch, None))],
       past := if p.epoch == past.gone
               then c.past[key := past.(runs := if past.runs > 0 then past.runs - 1 else 0, raised := true)]
               else c.past)
  }

  function Act(c: Cache, step: Step): Cache
    requires Enabled(c, step)
  {
    match step
    case Begin(t, key) => c.(threads := c.threads[t := Thread(key, Looking)])
    case Look(t) => Looked(c, t)
    case FetchLock(t) => Fetch(c, t)
    case Acquire(t) =>
      var p := c.threads[t].place;
      SetPlace(c.(held := c.held[p.lock := t]), t, Locked(p.lock, p.epoch))
    case Recheck(t) => Rechecked(c, t)
    case LoaderReads(t) =>
      var p := c.threads[t].place;
      SetPlace(c, t, Loaded(p.lock, p.epoch, Value(c.threads[t].key, t, c.stamp, c.clock)))
    case LoaderRaises(t) => Raised(c, t)
    case StoreValue(t) => StoreOf(c, t)
    case Release(t) =>
      var p := c.threads[t].place;
      SetPlace(c.(held := c.held - {p.lock}), t, Finished(p.answer))
    case Invalidate(key) => Evict(c, {key})
    case InvalidateWhere(accepted) => Evict(c, accepted * Keys(c.store))
    case Clear => Evict(c, Keys(c.store) + c.locks.Keys)
    case Tick(elapsed) => c.(clock := c.clock + elapsed)
  }

  function Next(c: Cache, step: Step): Cache
    requires Enabled(c, step)
  {
    var acted := Act(c, step);
    acted.(stamp := c.stamp + 1)
  }

  function Init(ttl: real, maxEntries: nat): Cache {
    Cache(ttl, maxEntries, [], map[], map[], [], map[], 0.0, 0, map[])
  }
}
