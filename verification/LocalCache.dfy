/** The single-process cache: a bounded, oldest-first map of finished responses and a
    map of computations in flight.  Code between two awaits is atomic; waiters are not
    cancelled.  A future is named by the caller that created it, its owner. */
module LocalCache {
  import opened Common
  import opened GatewayTypes

  datatype Error = BudgetHardBreach(gate: nat) | OtherError

  datatype Outcome = Returns(r: Response) | Raises(e: Error)

  datatype Cache = Cache(
    keys: seq<string>,                // _completed's keys, in insertion order
    completed: map<string, Response>,
    pending: map<string, nat>,        // the owner of each computation in flight
    futures: map<nat, Outcome>)       // the settled futures

  /** What a caller finds in the critical section. */
  datatype Finding = Cached(r: Response) | Owner | Rider(owner: nat)

  function Find(cache: Cache, key: string): Finding
  {
    if key in cache.completed then Cached(cache.completed[key])
    else if key in cache.pending then Rider(cache.pending[key])
    else Owner
  }

  function Entered(cache: Cache, c: nat, key: string): Cache {
    if Find(cache, key).Owner? then cache.(pending := cache.pending[key := c]) else cache
  }

  /** The keys with key moved or added to the end. */
  function Touched(keys: seq<string>, key: string): seq<string> {
    Without(keys, key) + [key]
  }

  function Without(keys: seq<string>, key: string): seq<string> {
    if keys == [] then []
    else (if keys[0] == key then [] else [keys[0]]) + Without(keys[1..], key)
  }

  /** How many of the oldest entries have to go. */
  function Excess(count: nat, max: nat): nat {
    if count > max then count - max else 0
  }

  /** _remember */
  function Remembered(cache: Cache, key: string, r: Response, max: nat): Cache {
    var keys := Touched(cache.keys, key);
    var kept := keys[Excess(|keys|, max)..];
    cache.(keys := kept,
           completed := map k | k in kept && (k == key || k in cache.completed) :: if k == key then r else cache.completed[k])
  }

  /** The owner's computation is over. */
  function Settled(cache: Cache, c: nat, key: string, outcome: Outcome, max: nat): Cache {
    var kept := match outcome
                case Returns(r) => Remembered(cache, key, r, max)
                case Raises(_) => cache;
    kept.(pending := kept.pending - {key}, futures := kept.futures[c := outcome])
  }

  ghost predicate Distinct(keys: seq<string>) {
    forall i, j | 0 <= i < j < |keys| :: keys[i] != keys[j]
  }

  ghost predicate Spans(keys: seq<string>, completed: map<string, Response>) {
    forall k :: k in keys <==> k in completed
  }

  /** What is left of all has these keys, in this order. */
  ghost predicate Remains(all: map<string, Response>, keys: seq<string>, completed: map<string, Response>) {
    && Distinct(keys) && Spans(keys, completed)
    && forall k | k in completed :: k in all && completed[k] == all[k]
  }

  lemma DropOldest(all: map<string, Response>, keys: seq<string>, completed: map<string, Response>)
    requires keys != [] && Remains(all, keys, completed)
    ensures Remains(all, keys[1..], completed - {keys[0]})
  {
    assert forall k :: k in keys <==> k == keys[0] || k in keys[1..];
  }

  lemma TouchedSpans(keys: seq<string>, completed: map<string, Response>, key: string, r: Response)
    requires Distinct(keys) && Spans(keys, completed)
    ensures Remains(completed[key := r], Touched(keys, key), completed[key := r])
  {
    WithoutKeeps(keys, key);
    DistinctConcat(Without(keys, key), [key]);
  }

  ghost predicate WellFormed(cache: Cache) {
    Distinct(cache.keys) && Spans(cache.keys, cache.completed)
  }

  lemma {:induction false} WithoutAbsent(keys: seq<string>, key: string)
    requires key !in keys
    ensures Without(keys, key) == keys
  {
    if keys != [] {
      WithoutAbsent(keys[1..], key);
    }
  }

  lemma {:induction false} WithoutIs(keys: seq<string>, key: string, j: nat)
    requires Distinct(keys) && j < |keys| && keys[j] == key
    ensures Without(keys, key) == keys[..j] + keys[j + 1..]
  {
    if j == 0 {
      WithoutAbsent(keys[1..], key);
      assert keys[..0] + keys[1..] == keys[1..];
    } else {
      WithoutIs(keys[1..], key, j - 1);
      assert keys[..j] + keys[j + 1..] == [keys[0]] + (keys[1..][..j - 1] + keys[1..][j..]);
    }
  }

  lemma DistinctConcat(xs: seq<string>, ys: seq<string>)
    requires Distinct(xs) && Distinct(ys) && forall x | x in xs :: x !in ys
    ensures Distinct(xs + ys)
  {
    forall i, j | 0 <= i < j < |xs + ys| ensures (xs + ys)[i] != (xs + ys)[j] {
      if i < |xs| <= j { assert xs[i] in xs && ys[j - |xs|] in ys; }
    }
  }

  lemma {:induction false} WithoutKeeps(keys: seq<string>, key: string)
    requires Distinct(keys)
    ensures Distinct(Without(keys, key))
    ensures forall k :: k in Without(keys, key) <==> k in keys && k != key
  {
    if keys != [] {
      WithoutKeeps(keys[1..], key);
      var rest := Without(keys[1..], key);
      assert forall k :: k in keys <==> k == keys[0] || k in keys[1..];
      assert keys[0] !in keys[1..];
      DistinctConcat(if keys[0] == key then [] else [keys[0]], rest);
    }
  }

  lemma RememberedWellFormed(cache: Cache, key: string, r: Response, max: nat)
    requires WellFormed(cache)
    ensures WellFormed(Remembered(cache, key, r, max))
    ensures |Remembered(cache, key, r, max).keys| <= max
  {
    WithoutKeeps(cache.keys, key);
    var keys := Touched(cache.keys, key);
    DistinctConcat(Without(cache.keys, key), [key]);
    var kept := keys[Excess(|keys|, max)..];
    forall i, j | 0 <= i < j < |kept| ensures kept[i] != kept[j] {
      assert keys[i + Excess(|keys|, max)] != keys[j + Excess(|keys|, max)];
    }
    forall k | k in kept ensures k == key || k in cache.completed {
      assert k in keys;
    }
  }

  /** _remember of a new key drops the oldest entry of a full cache and appends it; of a
      key that is there already, at place j, it only moves it to the end. */
  lemma {:induction false} RememberedMeans(cache: Cache, key: string, r: Response, max: nat, j: nat)
    requires WellFormed(cache)
    ensures var after := Remembered(cache, key, r, max);
            && (forall k | k in after.completed && k != key ::
                  k in cache.completed && after.completed[k] == cache.completed[k])
            && (0 < max && |cache.keys| <= max ==>
                  && key in after.completed && after.completed[key] == r
                  && (key !in cache.keys ==>
                        after.keys == (if |cache.keys| == max then cache.keys[1..] else cache.keys) + [key])
                  && (j < |cache.keys| && cache.keys[j] == key ==>
                        after.keys == cache.keys[..j] + cache.keys[j + 1..] + [key]))
  {
    if 0 < max && |cache.keys| <= max {
      RememberedKeys(cache, key, r, max, j);
      var keys := Remembered(cache, key, r, max).keys;
      assert keys[|keys| - 1] == key;
    }
  }

  lemma {:induction false} RememberedKeys(cache: Cache, key: string, r: Response, max: nat, j: nat)
    requires WellFormed(cache) && |cache.keys| <= max
    ensures var keys := Remembered(cache, key, r, max).keys;
            && (0 < max ==> keys != [] && keys[|keys| - 1] == key)
            && (key !in cache.keys && 0 < max ==>
                  keys == (if |cache.keys| == max then cache.keys[1..] else cache.keys) + [key])
            && (j < |cache.keys| && cache.keys[j] == key ==>
                  keys == cache.keys[..j] + cache.keys[j + 1..] + [key])
  {
    if key !in cache.keys {
      WithoutAbsent(cache.keys, key);
    } else if j < |cache.keys| && cache.keys[j] == key {
      WithoutIs(cache.keys, key, j);
    }
    var touched := Touched(cache.keys, key);
    assert Remembered(cache, key, r, max).keys == touched[Excess(|touched|, max)..];
  }

  /** The only map over the kept keys that takes key to r and the others to what they were. */
  lemma RememberedIs(cache: Cache, key: string, r: Response, max: nat, keys: seq<string>, completed: map<string, Response>)
    requires keys == Touched(cache.keys, key)[Excess(|Touched(cache.keys, key)|, max)..] && Spans(keys, completed)
    requires forall k | k in completed ::
               if k == key then completed[k] == r else k in cache.completed && completed[k] == cache.completed[k]
    ensures Remembered(cache, key, r, max) == cache.(keys := keys, completed := completed)
  {
  }

  /** After its owner settles, a result is retained under its key if anything is. */
  lemma StoredLast(cache: Cache, c: nat, key: string, outcome: Outcome, max: nat)
    ensures outcome.Returns? && max > 0 ==>
              var after := Settled(Entered(cache, c, key), c, key, outcome, max);
              key in after.completed && after.completed[key] == outcome.r
  {
    if outcome.Returns? && max > 0 {
      var keys := Touched(cache.keys, key);
      var kept := keys[Excess(|keys|, max)..];
      assert kept[|kept| - 1] == key;
    }
  }

  // -- The class -----------------------------------------------------------------

  class LocalCache {
    const maxEntries: nat
    var keys: seq<string>
    var completed: map<string, Response>
    var pending: map<string, nat>
    var futures: map<nat, Outcome>

    function Current(): Cache reads this { Cache(keys, completed, pending, futures) }

    ghost predicate Valid() reads this { WellFormed(Current()) }

    constructor (maxEntries: nat)
      ensures Valid() && Current() == Cache([], map[], map[], map[]) && this.maxEntries == maxEntries
    {
      this.maxEntries := maxEntries;
      keys, completed, pending, futures := [], map[], map[], map[];
    }

    /** The critical section of get_or_compute. */
    method Enter(c: nat, key: string) returns (found: Finding)
      requires Valid()
      modifies this`pending
      ensures Valid() && found == Find(old(Current()), key)
      ensures Current() == Entered(old(Current()), c, key)
    {
      if key in completed {
        return Cached(completed[key]);
      }
      if key in pending {
        return Rider(pending[key]);
      }
      pending := pending[key := c];
      return Owner;
    }

    /** _remember: store, move to the end, then evict from the front while over the bound. */
    method Remember(key: string, r: Response)
      requires Valid()
      modifies this`keys, this`completed
      ensures Valid() && |keys| <= maxEntries
      ensures Current() == Remembered(old(Current()), key, r, maxEntries)
    {
      ghost var touched := Touched(keys, key);
      ghost var all := completed[key := r];
      TouchedSpans(keys, completed, key, r);
      keys := Without(keys, key) + [key];
      completed := completed[key := r];
      ghost var dropped: nat := 0;
      while |keys| > maxEntries
        invariant dropped <= Excess(|touched|, maxEntries) && keys == touched[dropped..]
        invariant Remains(all, keys, completed)
      {
        DropOldest(all, keys, completed);
        completed := completed - {keys[0]};
        keys := keys[1..];
        dropped := dropped + 1;
      }
      RememberedIs(old(Current()), key, r, maxEntries, keys, completed);
    }

    /** The rest of get_or_compute for the owner, once compute() is over. */
    method Settle(c: nat, key: string, outcome: Outcome)
      requires Valid()
      modifies this
      ensures Valid() && Current() == Settled(old(Current()), c, key, outcome, maxEntries)
    {
      if outcome.Returns? {
        Remember(key, outcome.r);
      }
      pending := pending - {key};
      futures := futures[c := outcome];
    }
  }

  // -- Any number of callers, any interleaving ---------------------------------------

  datatype Pc =
    | Idle
    | Uncached                        // no task_ref: computing without the cache
    | Running                         // the owner, awaiting its own compute()
    | Waiting(owner: nat)             // awaiting the owner's future
    | Done(outcome: Outcome, hit: bool)

  /** History: a compute() of this key succeeded, or its entry was evicted. */
  datatype Event = Stored(key: string) | Evicted(key: string)

  datatype State = State(cache: Cache, callers: seq<Pc>, log: seq<Event>)

  datatype Action =
    | Enter(c: nat)
    | Finish(c: nat, outcome: Outcome)
    | Wake(c: nat)

  predicate Enabled(s: State, a: Action) {
    a.c < |s.callers| &&
    match a
    case Enter(c) => s.callers[c].Idle?
    case Finish(c, _) => s.callers[c].Running? || s.callers[c].Uncached?
    case Wake(c) => s.callers[c].Waiting? && s.callers[c].owner in s.cache.futures
  }

  function Evictions(keys: seq<string>): seq<Event> {
    seq(|keys|, i requires 0 <= i < |keys| => Evicted(keys[i]))
  }

  function Apply(ref: nat -> string, max: nat, s: State, a: Action): State
    requires Enabled(s, a)
  {
    var t := ref(a.c);
    match a
    case Enter(c) =>
      if t == "" then s.(callers := s.callers[c := Uncached])
      else
        s.(cache := Entered(s.cache, c, t),
           callers := s.callers[c := match Find(s.cache, t)
                                     case Cached(r) => Done(Returns(r), true)
                                     case Owner => Running
                                     case Rider(owner) => Waiting(owner)])
    case Finish(c, outcome) =>
      if s.callers[c].Uncached? then s.(callers := s.callers[c := Done(outcome, false)])
      else
        s.(cache := Settled(s.cache, c, t, outcome, max),
           callers := s.callers[c := Done(outcome, false)],
           log := if outcome.Raises? then s.log else Appended(s.log, s.cache.keys, t, max))
    case Wake(c) =>
      s.(callers := s.callers[c := Done(s.cache.futures[s.callers[c].owner], true)])
  }

  function Init(n: nat): State {
    State(Cache([], map[], map[], map[]), seq(n, _ => Idle), [])
  }

  ghost predicate Run(ref: nat -> string, max: nat, s: State, acts: seq<Action>)
    decreases |acts|
  {
    acts != [] ==> Enabled(s, acts[0]) && Run(ref, max, Apply(ref, max, s, acts[0]), acts[1..])
  }

  ghost function Final(ref: nat -> string, max: nat, s: State, acts: seq<Action>): State
    requires Run(ref, max, s, acts)
    decreases |acts|
  {
    if acts == [] then s else Final(ref, max, Apply(ref, max, s, acts[0]), acts[1..])
  }

  /** The keys of the stores in the log, in order; and of the evictions. */
  function Stores(log: seq<Event>): seq<string> {
    if log == [] then []
    else Stores(log[..|log| - 1]) + if log[|log| - 1].Stored? then [log[|log| - 1].key] else []
  }

  function Evicts(log: seq<Event>): seq<string> {
    if log == [] then []
    else Evicts(log[..|log| - 1]) + if log[|log| - 1].Evicted? then [log[|log| - 1].key] else []
  }

  /** The last thing that happened to key is that it was stored. */
  predicate Retained(log: seq<Event>, key: string) {
    log != [] &&
    var last := log[|log| - 1];
    last == Stored(key) || (last != Evicted(key) && Retained(log[..|log| - 1], key))
  }

  /** Nothing is stored while it is retained. */
  predicate Alternates(log: seq<Event>) {
    log != [] ==>
      && Alternates(log[..|log| - 1])
      && (log[|log| - 1].Stored? ==> !Retained(log[..|log| - 1], log[|log| - 1].key))
  }

  ghost predicate FlightOf(ref: nat -> string, s: State, k: string)
    requires k in s.cache.pending
  {
    var c := s.cache.pending[k];
    k !in s.cache.completed && k != "" && c < |s.callers| && s.callers[c].Running? && ref(c) == k
  }

  ghost predicate OwnerOf(ref: nat -> string, s: State, c: nat)
    requires c < |s.callers|
  {
    s.callers[c].Running? ==> ref(c) in s.cache.pending && s.cache.pending[ref(c)] == c
  }

  /** Each pending key has exactly one running owner, and is not completed. */
  ghost predicate Flights(ref: nat -> string, s: State) {
    && (forall k | k in s.cache.pending :: FlightOf(ref, s, k))
    && (forall c | 0 <= c < |s.callers| :: OwnerOf(ref, s, c))
  }

  /** A settled future holds its owner's outcome; a waiter waits for a caller of its
      own key that is running or has settled. */
  ghost predicate Futures(ref: nat -> string, s: State) {
    && (forall o | o in s.cache.futures :: o < |s.callers| && s.callers[o] == Done(s.cache.futures[o], false))
    && (forall c | 0 <= c < |s.callers| && s.callers[c].Waiting? ::
          var o := s.callers[c].owner;
          o < |s.callers| && ref(o) == ref(c) && (s.callers[o].Running? || o in s.cache.futures))
  }

  /** The log tells the map: what is retained is what was stored and not evicted, and
      evictions come in the order of the stores. */
  ghost predicate Logged(max: nat, cache: Cache, log: seq<Event>) {
    && Stores(log) == Evicts(log) + cache.keys
    && |cache.keys| == (if |Stores(log)| < max then |Stores(log)| else max)
    && Alternates(log)
    && forall k :: k in cache.completed <==> Retained(log, k)
  }

  /** Some owner of key k came to this outcome itself. */
  ghost predicate OwnOutcome(ref: nat -> string, s: State, k: string, outcome: Outcome) {
    exists o :: 0 <= o < |s.callers| && ref(o) == k && s.callers[o] == Done(outcome, false)
  }

  ghost predicate AnswerOf(ref: nat -> string, s: State, c: nat)
    requires c < |s.callers|
  {
    s.callers[c].Done? && s.callers[c].hit ==> OwnOutcome(ref, s, ref(c), s.callers[c].outcome)
  }

  /** Every retained response and every second-hand answer is an owner's own. */
  ghost predicate Answers(ref: nat -> string, s: State) {
    && (forall k | k in s.cache.completed :: OwnOutcome(ref, s, k, Returns(s.cache.completed[k])))
    && (forall c | 0 <= c < |s.callers| :: AnswerOf(ref, s, c))
  }

  ghost predicate Inv(ref: nat -> string, max: nat, s: State) {
    && WellFormed(s.cache) && Flights(ref, s) && Futures(ref, s) && Answers(ref, s)
    && Logged(max, s.cache, s.log)
  }

  lemma {:induction false} EvictionLog(log: seq<Event>, keys: seq<string>)
    ensures Stores(log + Evictions(keys)) == Stores(log)
    ensures Evicts(log + Evictions(keys)) == Evicts(log) + keys
    decreases |keys|
  {
    if keys == [] {
      assert log + Evictions(keys) == log;
    } else {
      var all := log + Evictions(keys);
      assert all[..|all| - 1] == log + Evictions(keys[..|keys| - 1]);
      EvictionLog(log, keys[..|keys| - 1]);
      assert keys == keys[..|keys| - 1] + [keys[|keys| - 1]];
    }
  }

  lemma {:induction false} EvictedSince(log: seq<Event>, i: nat) returns (m: nat)
    requires i < |log| && log[i].Stored? && !Retained(log, log[i].key)
    ensures i < m < |log| && log[m] == Evicted(log[i].key)
    decreases |log|
  {
    if log[|log| - 1] == Evicted(log[i].key) {
      m := |log| - 1;
    } else {
      m := EvictedSince(log[..|log| - 1], i);
    }
  }

  /** Between two stores of a key it was evicted. */
  lemma {:induction false} EvictedBetween(log: seq<Event>, i: nat, j: nat) returns (m: nat)
    requires Alternates(log) && i < j < |log| && log[i].Stored? && log[j] == log[i]
    ensures i < m < j && log[m] == Evicted(log[i].key)
    decreases |log|
  {
    var init := log[..|log| - 1];
    if j < |log| - 1 {
      m := EvictedBetween(init, i, j);
    } else {
      m := EvictedSince(init, i);
    }
  }

  lemma {:induction false} AppendEvictions(log: seq<Event>, keys: seq<string>)
    requires Alternates(log)
    ensures Alternates(log + Evictions(keys))
    decreases |keys|
  {
    var all := log + Evictions(keys);
    if keys == [] {
      assert all == log;
    } else {
      AppendEvictions(log, keys[..|keys| - 1]);
      assert all[..|all| - 1] == log + Evictions(keys[..|keys| - 1]);
    }
  }

  lemma {:induction false} RetainedAfter(log: seq<Event>, keys: seq<string>, k: string)
    ensures Retained(log + Evictions(keys), k) <==> k !in keys && Retained(log, k)
    decreases |keys|
  {
    var all := log + Evictions(keys);
    if keys == [] {
      assert all == log;
    } else {
      RetainedAfter(log, keys[..|keys| - 1], k);
      assert all[..|all| - 1] == log + Evictions(keys[..|keys| - 1]);
      assert k in keys <==> k == keys[|keys| - 1] || k in keys[..|keys| - 1];
    }
  }

  /** What a success appends to the log: the store, then the evictions it causes. */
  function Appended(log: seq<Event>, keys: seq<string>, t: string, max: nat): seq<Event> {
    var touched := Touched(keys, t);
    log + [Stored(t)] + Evictions(touched[..Excess(|touched|, max)])
  }

  lemma AppendStored(log: seq<Event>, t: string)
    requires Alternates(log) && !Retained(log, t)
    ensures Alternates(log + [Stored(t)]) && Stores(log + [Stored(t)]) == Stores(log) + [t]
    ensures Evicts(log + [Stored(t)]) == Evicts(log)
  {
    assert (log + [Stored(t)])[..|log|] == log;
  }

  lemma QueueStep(max: nat, keys: seq<string>, log: seq<Event>, t: string)
    requires Alternates(log) && !Retained(log, t) && t !in keys
    ensures var touched, all := Touched(keys, t), Appended(log, keys, t, max);
            && touched == keys + [t] && Alternates(all)
            && Stores(all) == Stores(log) + [t]
            && Evicts(all) == Evicts(log) + touched[..Excess(|touched|, max)]
  {
    WithoutAbsent(keys, t);
    var touched := keys + [t];
    var gone := touched[..Excess(|touched|, max)];
    var stored := log + [Stored(t)];
    AppendStored(log, t);
    AppendEvictions(stored, gone);
    EvictionLog(stored, gone);
  }

  lemma QueueRetains(max: nat, keys: seq<string>, log: seq<Event>, t: string, k: string)
    requires Alternates(log) && !Retained(log, t)
    ensures var touched := Touched(keys, t);
            Retained(Appended(log, keys, t, max), k)
            <==> k !in touched[..Excess(|touched|, max)] && (k == t || Retained(log, k))
  {
    assert (log + [Stored(t)])[..|log|] == log;
    RetainedAfter(log + [Stored(t)], Touched(keys, t)[..Excess(|Touched(keys, t)|, max)], k);
  }

  lemma QueueShift(stores: seq<string>, evicts: seq<string>, keys: seq<string>, t: string, e: nat)
    requires stores == evicts + keys && e <= |keys| + 1
    ensures stores + [t] == (evicts + (keys + [t])[..e]) + (keys + [t])[e..]
  {
    assert (keys + [t])[..e] + (keys + [t])[e..] == keys + [t];
  }

  lemma LoggedKeys(max: nat, cache: Cache, log: seq<Event>, t: string, r: Response)
    requires WellFormed(cache) && Logged(max, cache, log) && t !in cache.completed
    ensures var after, all := Remembered(cache, t, r, max), Appended(log, cache.keys, t, max);
            && Stores(all) == Evicts(all) + after.keys && Alternates(all)
            && |after.keys| == (if |Stores(all)| < max then |Stores(all)| else max)
  {
    assert t !in cache.keys;
    QueueStep(max, cache.keys, log, t);
    QueueShift(Stores(log), Evicts(log), cache.keys, t, Excess(|Touched(cache.keys, t)|, max));
  }

  lemma LoggedEntries(max: nat, cache: Cache, log: seq<Event>, t: string, r: Response, k: string)
    requires WellFormed(cache) && Logged(max, cache, log) && t !in cache.completed
    ensures k in Remembered(cache, t, r, max).completed <==> Retained(Appended(log, cache.keys, t, max), k)
  {
    WithoutAbsent(cache.keys, t);
    KeptKeys(cache, t, r, max);
    QueueRetains(max, cache.keys, log, t, k);
  }

  /** A success of a running owner: stored at the end, the oldest evicted. */
  lemma LoggedStep(max: nat, cache: Cache, log: seq<Event>, t: string, r: Response)
    requires WellFormed(cache) && Logged(max, cache, log) && t !in cache.completed
    ensures Logged(max, Remembered(cache, t, r, max), Appended(log, cache.keys, t, max))
  {
    LoggedKeys(max, cache, log, t, r);
    forall k ensures k in Remembered(cache, t, r, max).completed <==> Retained(Appended(log, cache.keys, t, max), k) {
      LoggedEntries(max, cache, log, t, r, k);
    }
  }

  lemma KeptKeys(cache: Cache, t: string, r: Response, max: nat)
    requires WellFormed(cache) && t !in cache.completed
    ensures var touched := cache.keys + [t];
            forall k :: k in Remembered(cache, t, r, max).completed
                        <==> k !in touched[..Excess(|touched|, max)] && (k == t || k in cache.completed)
  {
    WithoutAbsent(cache.keys, t);
    RememberedWellFormed(cache, t, r, max);
    DistinctConcat(cache.keys, [t]);
    var touched := cache.keys + [t];
    var e := Excess(|touched|, max);
    var after := Remembered(cache, t, r, max);
    forall k ensures k in after.completed <==> k !in touched[..e] && (k == t || k in cache.completed) {
      assert k in touched <==> k == t || k in cache.keys;
      assert k in touched <==> k in touched[..e] || k in touched[e..];
    }
  }

  lemma FlightsStep(ref: nat -> string, max: nat, s: State, a: Action)
    requires WellFormed(s.cache) && Flights(ref, s) && Enabled(s, a)
    ensures Flights(ref, Apply(ref, max, s, a))
  {
    var s' := Apply(ref, max, s, a);
    assert OwnerOf(ref, s, a.c);
    forall k | k in s'.cache.pending ensures FlightOf(ref, s', k) {
      if k in s.cache.pending { assert FlightOf(ref, s, k); }
    }
    forall c | 0 <= c < |s'.callers| ensures OwnerOf(ref, s', c) {
      assert OwnerOf(ref, s, c);
    }
  }

  lemma FuturesStep(ref: nat -> string, max: nat, s: State, a: Action)
    requires Flights(ref, s) && Futures(ref, s) && Enabled(s, a)
    ensures Futures(ref, Apply(ref, max, s, a))
  {
    if a.Enter? && ref(a.c) in s.cache.pending { assert FlightOf(ref, s, ref(a.c)); }
  }

  lemma OutcomeStays(ref: nat -> string, max: nat, s: State, a: Action, k: string, outcome: Outcome)
    requires Enabled(s, a) && OwnOutcome(ref, s, k, outcome)
    ensures OwnOutcome(ref, Apply(ref, max, s, a), k, outcome)
  {
    var o :| 0 <= o < |s.callers| && ref(o) == k && s.callers[o] == Done(outcome, false);
    assert Apply(ref, max, s, a).callers[o] == s.callers[o];
  }

  lemma AnswersStep(ref: nat -> string, max: nat, s: State, a: Action)
    requires Flights(ref, s) && Futures(ref, s) && Answers(ref, s) && Enabled(s, a)
    ensures Answers(ref, Apply(ref, max, s, a))
  {
    var s' := Apply(ref, max, s, a);
    forall k | k in s'.cache.completed ensures OwnOutcome(ref, s', k, Returns(s'.cache.completed[k])) {
      if k in s.cache.completed && s'.cache.completed[k] == s.cache.completed[k] {
        OutcomeStays(ref, max, s, a, k, Returns(s.cache.completed[k]));
      } else {
        assert s'.callers[a.c] == Done(Returns(s'.cache.completed[k]), false);
      }
    }
    forall c | 0 <= c < |s'.callers| ensures AnswerOf(ref, s', c) {
      assert AnswerOf(ref, s, c);
      if s'.callers[c] == s.callers[c] {
        if s.callers[c].Done? && s.callers[c].hit { OutcomeStays(ref, max, s, a, ref(c), s.callers[c].outcome); }
      } else if a.Wake? {
        var o := s.callers[c].owner;
        assert s.callers[o] == Done(s.cache.futures[o], false);
        OutcomeStays(ref, max, s, a, ref(c), s.cache.futures[o]);
      } else if a.Enter? && ref(c) in s.cache.completed && ref(c) != "" {
        OutcomeStays(ref, max, s, a, ref(c), Returns(s.cache.completed[ref(c)]));
      }
    }
  }

  lemma Step(ref: nat -> string, max: nat, s: State, a: Action)
    requires Inv(ref, max, s) && Enabled(s, a)
    ensures Inv(ref, max, Apply(ref, max, s, a))
  {
    if a.Finish? && s.callers[a.c].Running? && a.outcome.Returns? {
      assert OwnerOf(ref, s, a.c) && FlightOf(ref, s, ref(a.c));
      LoggedStep(max, s.cache, s.log, ref(a.c), a.outcome.r);
      RememberedWellFormed(s.cache, ref(a.c), a.outcome.r, max);
    }
    FlightsStep(ref, max, s, a);
    FuturesStep(ref, max, s, a);
    AnswersStep(ref, max, s, a);
  }

  lemma {:induction false} RunInv(ref: nat -> string, max: nat, s: State, acts: seq<Action>)
    requires Inv(ref, max, s) && Run(ref, max, s, acts)
    ensures Inv(ref, max, Final(ref, max, s, acts))
    decreases |acts|
  {
    if acts != [] {
      Step(ref, max, s, acts[0]);
      RunInv(ref, max, Apply(ref, max, s, acts[0]), acts[1..]);
    }
  }

  // -- Over whole runs ---------------------------------------------------------------

  ghost function After(ref: nat -> string, max: nat, n: nat, acts: seq<Action>): State
    requires Run(ref, max, Init(n), acts)
  {
    Final(ref, max, Init(n), acts)
  }

  lemma AfterInv(ref: nat -> string, max: nat, n: nat, acts: seq<Action>)
    requires Run(ref, max, Init(n), acts)
    ensures Inv(ref, max, After(ref, max, n, acts))
  {
    RunInv(ref, max, Init(n), acts);
  }

  /** Two running owners of one task_ref are one; a pending key is never also completed. */
  lemma OneFlightPerKey(ref: nat -> string, max: nat, n: nat, acts: seq<Action>, c: nat, d: nat)
    requires Run(ref, max, Init(n), acts)
    requires var s := After(ref, max, n, acts);
             c < |s.callers| && d < |s.callers| && s.callers[c].Running? && s.callers[d].Running? && ref(c) == ref(d)
    ensures c == d && ref(c) !in After(ref, max, n, acts).cache.completed
  {
    var s := After(ref, max, n, acts);
    AfterInv(ref, max, n, acts);
    assert OwnerOf(ref, s, c) && OwnerOf(ref, s, d) && FlightOf(ref, s, ref(c));
  }

  /** A waiter is never stranded: its owner has the same task_ref and is either still
      running or has settled, and then the waiter gets exactly the owner's outcome,
      result or exception. */
  lemma WaiterGetsOwnersOutcome(ref: nat -> string, max: nat, n: nat, acts: seq<Action>, c: nat)
    requires Run(ref, max, Init(n), acts)
    requires c < |After(ref, max, n, acts).callers| && After(ref, max, n, acts).callers[c].Waiting?
    ensures var s := After(ref, max, n, acts);
            var o := s.callers[c].owner;
            && o < |s.callers| && ref(o) == ref(c)
            && (s.callers[o].Running? || Enabled(s, Wake(c)))
            && (Enabled(s, Wake(c)) ==>
                  && s.callers[o].Done? && !s.callers[o].hit
                  && Apply(ref, max, s, Wake(c)).callers[c] == Done(s.callers[o].outcome, true))
  {
    AfterInv(ref, max, n, acts);
  }

  /** The steps of two callers of one task_ref, the first of which fails while the second
      waits for it. */
  function FailsWhileAwaited(c: nat, d: nat, e: Error): seq<Action> {
    [Enter(c), Enter(d), Finish(c, Raises(e)), Wake(d)]
  }

  /** A waiter does get its owner's failure: a run in which the owner raises and the waiter,
      which never computed, is told the same exception; only a caller that enters after
      that starts afresh. */
  lemma WaiterInheritsFailure(ref: nat -> string, max: nat, n: nat, c: nat, d: nat, e: Error)
    requires c < n && d < n && c != d && ref(c) == ref(d) != ""
    ensures Run(ref, max, Init(n), FailsWhileAwaited(c, d, e))
    ensures var s := After(ref, max, n, FailsWhileAwaited(c, d, e));
            && |s.callers| == n && s.callers[c] == Done(Raises(e), false) && s.callers[d] == Done(Raises(e), true)
            && Find(s.cache, ref(c)).Owner?
  {
    var acts := FailsWhileAwaited(c, d, e);
    var s1 := Apply(ref, max, Init(n), acts[0]);
    var s2 := Apply(ref, max, s1, acts[1]);
    var s3 := Apply(ref, max, s2, acts[2]);
    var s4 := Apply(ref, max, s3, acts[3]);
    assert Final(ref, max, s3, acts[3..]) == s4 by { assert acts[3..][1..] == []; }
    assert Final(ref, max, s2, acts[2..]) == s4 by { assert acts[2..][1..] == acts[3..]; }
    assert Final(ref, max, s1, acts[1..]) == s4 by { assert acts[1..][1..] == acts[2..]; }
  }

  /** A caller that is done stays as it is, and comes to an outcome of its own by its own
      Finish step only. */
  lemma FinishStep(ref: nat -> string, max: nat, s: State, a: Action, c: nat, outcome: Outcome)
    requires Enabled(s, a) && c < |s.callers|
    ensures |Apply(ref, max, s, a).callers| == |s.callers|
    ensures s.callers[c].Done? ==> Apply(ref, max, s, a).callers[c] == s.callers[c]
    ensures Apply(ref, max, s, a).callers[c] == Done(outcome, false)
            <==> s.callers[c] == Done(outcome, false) || a == Finish(c, outcome)
  {
  }

  lemma {:induction false} RunFinishes(ref: nat -> string, max: nat, s: State, acts: seq<Action>, c: nat, outcome: Outcome)
    requires Run(ref, max, s, acts) && c < |s.callers|
    ensures |Final(ref, max, s, acts).callers| == |s.callers|
    ensures s.callers[c].Done? ==> Final(ref, max, s, acts).callers[c] == s.callers[c]
    ensures Final(ref, max, s, acts).callers[c] == Done(outcome, false)
            <==> s.callers[c] == Done(outcome, false) || Finish(c, outcome) in acts
    decreases |acts|
  {
    if acts != [] {
      FinishStep(ref, max, s, acts[0], c, outcome);
      RunFinishes(ref, max, Apply(ref, max, s, acts[0]), acts[1..], c, outcome);
      assert forall a :: a in acts <==> a == acts[0] || a in acts[1..];
    }
  }

  /** A caller is told an outcome as its own exactly when its own compute() came to it. */
  lemma {:induction false} OwnIsFinished(ref: nat -> string, max: nat, n: nat, acts: seq<Action>, c: nat, outcome: Outcome)
    requires Run(ref, max, Init(n), acts) && c < n
    ensures |After(ref, max, n, acts).callers| == n
    ensures After(ref, max, n, acts).callers[c] == Done(outcome, false) <==> Finish(c, outcome) in acts
  {
    RunFinishes(ref, max, Init(n), acts, c, outcome);
  }

  lemma {:induction false} RunSplits(ref: nat -> string, max: nat, s: State, acts: seq<Action>, p: nat)
    requires Run(ref, max, s, acts) && p <= |acts|
    ensures Run(ref, max, s, acts[..p]) && Run(ref, max, Final(ref, max, s, acts[..p]), acts[p..])
    ensures Final(ref, max, s, acts) == Final(ref, max, Final(ref, max, s, acts[..p]), acts[p..])
    decreases p
  {
    if p == 0 {
      assert acts[..0] == [] && acts[0..] == acts;
    } else {
      RunSplits(ref, max, Apply(ref, max, s, acts[0]), acts[1..], p - 1);
      assert acts[..p][0] == acts[0] && acts[..p][1..] == acts[1..][..p - 1] && acts[1..][p - 1..] == acts[p..];
    }
  }

  /** A caller that enters while the response to its task_ref is retained is told that
      response as a hit, for good, and nothing is stored or evicted for it. */
  lemma {:induction false} RetainedIsReturned(ref: nat -> string, max: nat, n: nat, acts: seq<Action>, p: nat)
    requires Run(ref, max, Init(n), acts) && p < |acts| && acts[p].Enter? && ref(acts[p].c) != ""
    requires Run(ref, max, Init(n), acts[..p]) && ref(acts[p].c) in After(ref, max, n, acts[..p]).cache.completed
    ensures var c, s := acts[p].c, After(ref, max, n, acts[..p]);
            && c < |After(ref, max, n, acts).callers|
            && After(ref, max, n, acts).callers[c] == Done(Returns(s.cache.completed[ref(c)]), true)
            && Enabled(s, acts[p]) && Apply(ref, max, s, acts[p]).cache == s.cache
            && Apply(ref, max, s, acts[p]).log == s.log
  {
    var c, s := acts[p].c, After(ref, max, n, acts[..p]);
    RunSplits(ref, max, Init(n), acts, p);
    var rest := acts[p..];
    assert rest[0] == acts[p];
    RunFinishes(ref, max, Apply(ref, max, s, rest[0]), rest[1..], c, Raises(OtherError));
  }

  /** Whatever a caller is told at second hand, an owner of its task_ref came to itself. */
  lemma HitsAreOwned(ref: nat -> string, max: nat, n: nat, acts: seq<Action>, c: nat)
    requires Run(ref, max, Init(n), acts)
    requires var s := After(ref, max, n, acts);
             c < |s.callers| && s.callers[c].Done? && s.callers[c].hit
    ensures var s := After(ref, max, n, acts);
            OwnOutcome(ref, s, ref(c), s.callers[c].outcome)
  {
    AfterInv(ref, max, n, acts);
    assert AnswerOf(ref, After(ref, max, n, acts), c);
  }

  /** The bound holds, nothing is evicted before it is reached, and evictions come in
      the order of the stores: the entries left are the newest ones. */
  lemma OldestFirst(ref: nat -> string, max: nat, n: nat, acts: seq<Action>)
    requires Run(ref, max, Init(n), acts)
    ensures var s := After(ref, max, n, acts);
            && Stores(s.log) == Evicts(s.log) + s.cache.keys
            && |s.cache.keys| == (if |Stores(s.log)| < max then |Stores(s.log)| else max)
            && (forall k :: k in s.cache.completed <==> k in s.cache.keys)
  {
    AfterInv(ref, max, n, acts);
  }

  /** Between two successful computes of one task_ref, its entry was evicted. */
  lemma RecomputedOnlyAfterEviction(ref: nat -> string, max: nat, n: nat, acts: seq<Action>, i: nat, j: nat)
    returns (m: nat)
    requires Run(ref, max, Init(n), acts)
    requires var log := After(ref, max, n, acts).log; i < j < |log| && log[i].Stored? && log[j] == log[i]
    ensures var log := After(ref, max, n, acts).log; i < m < j && log[m] == Evicted(log[i].key)
  {
    AfterInv(ref, max, n, acts);
    m := EvictedBetween(After(ref, max, n, acts).log, i, j);
  }
}
