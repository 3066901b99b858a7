/** The sliding-window rate limiter.  check() reads the clock before it takes the lock,
    so the stamps it records need not be in order; the lock orders the checks. */
module RateLimiter {

  /** The deque after popping stamps from the front while the front one is too old. */
  function Pruned(calls: seq<real>, now: real, window: real): seq<real> {
    if calls != [] && now - calls[0] > window then Pruned(calls[1..], now, window) else calls
  }

  /** The first k stamps are stale, and the one after them is not. */
  ghost predicate StalePrefix(calls: seq<real>, now: real, window: real, k: nat) {
    && k <= |calls|
    && (forall i | 0 <= i < k :: now - calls[i] > window)
    && (k < |calls| ==> now - calls[k] <= window)
  }

  function Admits(calls: seq<real>, now: real, window: real, maxCalls: int): bool {
    |Pruned(calls, now, window)| < maxCalls
  }

  function Checked(calls: seq<real>, now: real, window: real, maxCalls: int): seq<real> {
    if Admits(calls, now, window, maxCalls) then Pruned(calls, now, window) + [now] else Pruned(calls, now, window)
  }

  class SlidingWindowRateLimiter {
    const maxCalls: int
    const window: real
    var calls: seq<real>

    constructor (maxCalls: int, window: real)
      ensures this.maxCalls == maxCalls && this.window == window && calls == []
    {
      this.maxCalls, this.window := maxCalls, window;
      calls := [];
    }

    /** What check() does under the lock, for a clock read earlier. */
    method Check(now: real) returns (admitted: bool)
      modifies this
      ensures admitted == Admits(old(calls), now, window, maxCalls)
      ensures calls == Checked(old(calls), now, window, maxCalls)
      ensures exists k: nat :: StalePrefix(old(calls), now, window, k) && admitted == (|old(calls)| - k < maxCalls)
                && calls == old(calls)[k..] + if admitted then [now] else []
    {
      ghost var k := PrunedIsSuffix(calls, now, window);
      while calls != [] && now - calls[0] > window
        invariant Pruned(calls, now, window) == Pruned(old(calls), now, window)
        decreases |calls|
      {
        calls := calls[1..];
      }
      if |calls| >= maxCalls {
        return false;
      }
      calls := calls + [now];
      return true;
    }

    /** reset() */
    method Reset()
      modifies this
      ensures calls == []
    {
      calls := [];
    }
  }

  // -- Sequences of checks ---------------------------------------------------------

  /** One check: when it read the clock and when it got the lock. */
  datatype Event = Event(now: real, lock: real)

  /** The deque and, as history, the admitted checks, oldest first. */
  datatype State = State(calls: seq<real>, admitted: seq<Event>)

  function Step(s: State, e: Event, window: real, maxCalls: int): State {
    State(Checked(s.calls, e.now, window, maxCalls),
          if Admits(s.calls, e.now, window, maxCalls) then s.admitted + [e] else s.admitted)
  }

  /** The checks in lock order. */
  function Replay(events: seq<Event>, window: real, maxCalls: int): State {
    if events == [] then State([], [])
    else Step(Replay(events[..|events| - 1], window, maxCalls), events[|events| - 1], window, maxCalls)
  }

  /** Locks are taken in this order, each at most skew after its clock reading. */
  ghost predicate Timed(events: seq<Event>, skew: real) {
    && (forall i | 0 <= i < |events| :: events[i].now <= events[i].lock <= events[i].now + skew)
    && (forall i, j | 0 <= i < j < |events| :: events[i].lock <= events[j].lock)
  }

  /** How many of these got the lock in the closed interval. */
  function CountIn(admitted: seq<Event>, from: real, to: real): nat {
    if admitted == [] then 0
    else CountIn(admitted[..|admitted| - 1], from, to)
         + if from <= admitted[|admitted| - 1].lock <= to then 1 else 0
  }

  /** From the first of these that is in an interval of this length to the last, there
      are at most maxCalls. */
  ghost predicate AtMost(admitted: seq<Event>, length: real, maxCalls: int) {
    forall p, q | 0 <= p <= q < |admitted| && admitted[q].lock - admitted[p].lock <= length :: q - p + 1 <= maxCalls
  }

  lemma {:induction false} CountSpan(admitted: seq<Event>, from: real, to: real) returns (p: nat, q: nat)
    requires CountIn(admitted, from, to) > 0
    ensures p <= q < |admitted| && CountIn(admitted, from, to) <= q - p + 1
    ensures from <= admitted[p].lock <= to && from <= admitted[q].lock <= to
    decreases |admitted|
  {
    var init, last := admitted[..|admitted| - 1], |admitted| - 1;
    if CountIn(init, from, to) == 0 {
      p, q := last, last;
    } else {
      p, q := CountSpan(init, from, to);
      if from <= admitted[last].lock <= to { q := last; }
    }
  }

  function Stamps(admitted: seq<Event>): seq<real> {
    seq(|admitted|, i requires 0 <= i < |admitted| => admitted[i].now)
  }

  lemma {:induction false} PrunedIsSuffix(calls: seq<real>, now: real, window: real) returns (k: nat)
    ensures StalePrefix(calls, now, window, k) && Pruned(calls, now, window) == calls[k..]
  {
    if calls != [] && now - calls[0] > window {
      var j := PrunedIsSuffix(calls[1..], now, window);
      k := j + 1;
      assert calls[1..][j..] == calls[k..];
      forall i | 0 <= i < k ensures now - calls[i] > window {
        if i > 0 { assert calls[i] == calls[1..][i - 1]; }
      }
    } else {
      k := 0;
    }
  }

  /** The deque holds the stamps of the latest admissions; everything dropped was
      admitted more than window - skew before the last lock. */
  ghost predicate Tail(s: State, dropped: nat, last: real, reach: real) {
    && dropped <= |s.admitted| && s.calls == Stamps(s.admitted)[dropped..]
    && (forall i | 0 <= i < dropped :: last - s.admitted[i].lock > reach)
    && (forall i | 0 <= i < |s.admitted| :: s.admitted[i].lock <= last)
  }

  lemma StampsAppend(admitted: seq<Event>, e: Event, k: nat)
    requires k <= |admitted|
    ensures Stamps(admitted + [e])[k..] == Stamps(admitted)[k..] + [e.now]
  {
    assert Stamps(admitted + [e]) == Stamps(admitted) + [e.now];
  }

  /** One more admission fits if all that are near it are still in the deque. */
  lemma OneMore(admitted: seq<Event>, e: Event, dropped: nat, reach: real, maxCalls: int)
    requires AtMost(admitted, reach, maxCalls) && dropped <= |admitted| && |admitted| - dropped < maxCalls
    requires forall i | 0 <= i < dropped :: e.lock - admitted[i].lock > reach
    ensures AtMost(admitted + [e], reach, maxCalls)
  {
    var more := admitted + [e];
    forall p, q | 0 <= p <= q < |more| && more[q].lock - more[p].lock <= reach ensures q - p + 1 <= maxCalls {
      if q == |admitted| {
        assert p < |admitted| ==> more[p] == admitted[p];
      } else {
        assert more[p] == admitted[p] && more[q] == admitted[q];
      }
    }
  }

  lemma StepTail(s: State, e: Event, window: real, maxCalls: int, skew: real, dropped: nat, last: real)
    returns (dropped': nat)
    requires Tail(s, dropped, last, window - skew) && last <= e.lock && e.now <= e.lock
    requires forall i | 0 <= i < |s.admitted| :: s.admitted[i].lock <= s.admitted[i].now + skew
    requires AtMost(s.admitted, window - skew, maxCalls)
    ensures Tail(Step(s, e, window, maxCalls), dropped', e.lock, window - skew)
    ensures AtMost(Step(s, e, window, maxCalls).admitted, window - skew, maxCalls)
  {
    var k := PrunedIsSuffix(s.calls, e.now, window);
    dropped' := dropped + k;
    assert s.calls[k..] == Stamps(s.admitted)[dropped'..];
    forall i | 0 <= i < dropped' ensures e.lock - s.admitted[i].lock > window - skew {
      if i >= dropped { assert s.calls[i - dropped] == s.admitted[i].now; }
    }
    if Admits(s.calls, e.now, window, maxCalls) {
      StampsAppend(s.admitted, e, dropped');
      OneMore(s.admitted, e, dropped', window - skew, maxCalls);
    }
  }

  lemma {:induction false} ReplayTail(events: seq<Event>, window: real, maxCalls: int, skew: real)
    returns (dropped: nat)
    requires Timed(events, skew) && events != []
    ensures Tail(Replay(events, window, maxCalls), dropped, events[|events| - 1].lock, window - skew)
    ensures AtMost(Replay(events, window, maxCalls).admitted, window - skew, maxCalls)
    ensures forall i | 0 <= i < |Replay(events, window, maxCalls).admitted| ::
              Replay(events, window, maxCalls).admitted[i] in events
    decreases |events|
  {
    var init, e := events[..|events| - 1], events[|events| - 1];
    var s := Replay(init, window, maxCalls);
    if init == [] {
      dropped := StepTail(s, e, window, maxCalls, skew, 0, e.lock);
    } else {
      var d := ReplayTail(init, window, maxCalls, skew);
      dropped := StepTail(s, e, window, maxCalls, skew, d, init[|init| - 1].lock);
    }
    assert e in events && forall x :: x in init ==> x in events;
  }

  /** The threaded bound: whatever order the stamps are in, no closed interval of lock
      times of length window - skew contains more than maxCalls admissions. */
  lemma ThreadedBound(events: seq<Event>, window: real, maxCalls: int, skew: real, from: real, to: real)
    requires Timed(events, skew) && maxCalls >= 0 && to - from <= window - skew
    ensures CountIn(Replay(events, window, maxCalls).admitted, from, to) <= maxCalls
  {
    var admitted := Replay(events, window, maxCalls).admitted;
    if events != [] && CountIn(admitted, from, to) > 0 {
      var d := ReplayTail(events, window, maxCalls, skew);
      var p, q := CountSpan(admitted, from, to);
      assert admitted[q].lock - admitted[p].lock <= window - skew;
    }
  }

  // -- The bound is exact -------------------------------------------------------------

  /** A burst whose clock readings are old when it gets the lock. */
  function Burst(n: nat, skew: real): seq<Event> { seq(n, _ => Event(0.0, skew)) }

  lemma {:induction false} BurstReplay(n: nat, window: real, maxCalls: nat, skew: real)
    requires n <= maxCalls && window >= 0.0
    ensures Replay(Burst(n, skew), window, maxCalls) == State(Stamps(Burst(n, skew)), Burst(n, skew))
  {
    if n > 0 {
      BurstReplay(n - 1, window, maxCalls, skew);
      var init, all := Burst(n - 1, skew), Burst(n, skew);
      assert all == init + [Event(0.0, skew)] && all[..n - 1] == init;
      StampsAppend(init, Event(0.0, skew), 0);
      FreshStay(Stamps(init), 0.0, window);
    }
  }

  lemma FreshStay(calls: seq<real>, now: real, window: real)
    requires forall i | 0 <= i < |calls| :: now - calls[i] <= window
    ensures Pruned(calls, now, window) == calls
  {
  }

  lemma {:induction false} BurstCount(n: nat, skew: real, to: real)
    requires to >= skew
    ensures CountIn(Burst(n, skew), skew, to) == n
  {
    if n > 0 {
      assert Burst(n, skew)[..n - 1] == Burst(n - 1, skew);
      BurstCount(n - 1, skew, to);
    }
  }

  lemma {:induction false} PruneAll(calls: seq<real>, now: real, window: real)
    requires forall i | 0 <= i < |calls| :: now - calls[i] > window
    ensures Pruned(calls, now, window) == []
  {
    if calls != [] { PruneAll(calls[1..], now, window); }
  }

  /** One more check just past the window after the stamps of a burst is admitted. */
  lemma LateComer(window: real, maxCalls: nat, skew: real, late: Event)
    requires maxCalls >= 1 && window >= 0.0 && late.now > window
    ensures Replay(Burst(maxCalls, skew) + [late], window, maxCalls).admitted == Burst(maxCalls, skew) + [late]
  {
    var burst := Burst(maxCalls, skew);
    assert (burst + [late])[..|burst|] == burst;
    BurstReplay(maxCalls, window, maxCalls, skew);
    PruneAll(Stamps(burst), late.now, window);
  }

  /** A longer interval can be overfilled: maxCalls stale checks and one just past the
      window after their stamps. */
  lemma Overfull(window: real, maxCalls: nat, skew: real, length: real) returns (events: seq<Event>)
    requires maxCalls >= 1 && 0.0 <= skew <= window && length > window - skew
    ensures Timed(events, skew)
    ensures CountIn(Replay(events, window, maxCalls).admitted, skew, skew + length) == maxCalls + 1
  {
    var burst := Burst(maxCalls, skew);
    var late := Event(skew + length, skew + length);
    events := burst + [late];
    LateComer(window, maxCalls, skew, late);
    assert events[..|events| - 1] == burst;
    BurstCount(maxCalls, skew, skew + length);
  }

  /** No closed interval of lock times up to this length holds more than maxCalls. */
  ghost predicate Capped(admitted: seq<Event>, length: real, maxCalls: int) {
    forall from, to | to - from <= length :: CountIn(admitted, from, to) <= maxCalls
  }

  /** Every closed interval of lock times of the given length holds at most maxCalls
      admissions, for every timing with this skew, exactly when the length is at most
      window - skew.  In particular the window itself is too long under any skew. */
  lemma BoundIsExact(window: real, maxCalls: nat, skew: real, length: real)
    requires maxCalls >= 1 && 0.0 <= skew <= window
    ensures length <= window - skew <==>
              forall events | Timed(events, skew) :: Capped(Replay(events, window, maxCalls).admitted, length, maxCalls)
  {
    if length <= window - skew {
      forall events, from, to | Timed(events, skew) && to - from <= length
        ensures CountIn(Replay(events, window, maxCalls).admitted, from, to) <= maxCalls
      {
        ThreadedBound(events, window, maxCalls, skew, from, to);
      }
    } else {
      var events := Overfull(window, maxCalls, skew, length);
      assert CountIn(Replay(events, window, maxCalls).admitted, skew, skew + length) > maxCalls;
    }
  }

  // -- In-order clock readings: the deque is the log seen through the window ------------

  /** The stamps no older than the window. */
  function Recent(stamps: seq<real>, now: real, window: real): seq<real> {
    if stamps == [] then []
    else if now - stamps[0] <= window then [stamps[0]] + Recent(stamps[1..], now, window)
    else Recent(stamps[1..], now, window)
  }

  ghost predicate Ascending(stamps: seq<real>) {
    forall i, j | 0 <= i < j < |stamps| :: stamps[i] <= stamps[j]
  }

  lemma {:induction false} RecentAll(stamps: seq<real>, now: real, window: real)
    requires forall i | 0 <= i < |stamps| :: now - stamps[i] <= window
    ensures Recent(stamps, now, window) == stamps
  {
    if stamps != [] { RecentAll(stamps[1..], now, window); }
  }

  /** Popping from the front removes exactly the stale stamps when they are in order. */
  lemma {:induction false} PrunedIsRecent(stamps: seq<real>, now: real, window: real)
    requires Ascending(stamps)
    ensures Pruned(stamps, now, window) == Recent(stamps, now, window)
  {
    if stamps != [] && now - stamps[0] > window {
      PrunedIsRecent(stamps[1..], now, window);
    } else {
      RecentAll(stamps, now, window);
    }
  }

  lemma {:induction false} RecentAppend(stamps: seq<real>, x: real, now: real, window: real)
    ensures Recent(stamps + [x], now, window) == Recent(stamps, now, window) + if now - x <= window then [x] else []
  {
    if stamps == [] {
      assert stamps + [x] == [x];
    } else {
      assert (stamps + [x])[1..] == stamps[1..] + [x];
      RecentAppend(stamps[1..], x, now, window);
    }
  }

  lemma {:induction false} RecentTwice(stamps: seq<real>, now: real, later: real, window: real)
    requires now <= later
    ensures Recent(Recent(stamps, now, window), later, window) == Recent(stamps, later, window)
  {
    if stamps != [] {
      RecentTwice(stamps[1..], now, later, window);
      if now - stamps[0] <= window {
        var kept := [stamps[0]] + Recent(stamps[1..], now, window);
        assert kept[0] == stamps[0] && kept[1..] == Recent(stamps[1..], now, window);
        assert Recent(stamps, now, window) == kept;
      }
    }
  }

  lemma {:induction false} RecentAscending(stamps: seq<real>, now: real, window: real)
    requires Ascending(stamps)
    ensures Ascending(Recent(stamps, now, window))
    ensures forall x | x in Recent(stamps, now, window) :: x in stamps
  {
    if stamps != [] {
      RecentAscending(stamps[1..], now, window);
      forall x | x in Recent(stamps[1..], now, window) ensures stamps[0] <= x && x in stamps {
        assert x in stamps[1..];
      }
    }
  }

  ghost predicate InOrder(events: seq<Event>) {
    forall i, j | 0 <= i < j < |events| :: events[i].now <= events[j].now
  }

  lemma {:induction false} AdmittedInOrder(events: seq<Event>, window: real, maxCalls: int)
    requires InOrder(events)
    ensures Ascending(Stamps(Replay(events, window, maxCalls).admitted))
    ensures forall e | e in Replay(events, window, maxCalls).admitted :: e in events
    decreases |events|
  {
    if events != [] {
      AdmittedInOrder(events[..|events| - 1], window, maxCalls);
      var s := Replay(events[..|events| - 1], window, maxCalls);
      forall i | 0 <= i < |s.admitted| ensures s.admitted[i].now <= events[|events| - 1].now {
        assert s.admitted[i] in events[..|events| - 1];
      }
      StampsAppend(s.admitted, events[|events| - 1], 0);
    }
  }

  /** With clock readings in lock order, the deque after a check is exactly the admitted
      stamps of the last window, and a check is rejected exactly when maxCalls
      admissions lie in its window. */
  lemma {:induction false} LogRefinement(events: seq<Event>, window: real, maxCalls: int)
    requires InOrder(events) && events != [] && window >= 0.0
    ensures var now := events[|events| - 1].now;
            var before := Replay(events[..|events| - 1], window, maxCalls);
            var after := Replay(events, window, maxCalls);
            && after.calls == Recent(Stamps(after.admitted), now, window)
            && (after.admitted == before.admitted <==> |Recent(Stamps(before.admitted), now, window)| >= maxCalls)
    decreases |events|
  {
    var init, e := events[..|events| - 1], events[|events| - 1];
    var s := Replay(init, window, maxCalls);
    var log := Stamps(s.admitted);
    AdmittedInOrder(init, window, maxCalls);
    if init != [] {
      LogRefinement(init, window, maxCalls);
      RecentTwice(log, init[|init| - 1].now, e.now, window);
      RecentAscending(log, init[|init| - 1].now, window);
    }
    PrunedIsRecent(s.calls, e.now, window);
    assert Pruned(s.calls, e.now, window) == Recent(log, e.now, window);
    if Admits(s.calls, e.now, window, maxCalls) {
      StampsAppend(s.admitted, e, 0);
      assert Stamps(s.admitted + [e]) == log + [e.now];
      RecentAppend(log, e.now, e.now, window);
    }
  }

  /** The same checks with no delay between clock and lock. */
  function Undelayed(events: seq<Event>): seq<Event> {
    seq(|events|, i requires 0 <= i < |events| => Event(events[i].now, events[i].now))
  }

  lemma {:induction false} UndelayedReplay(events: seq<Event>, window: real, maxCalls: int)
    ensures Replay(Undelayed(events), window, maxCalls).calls == Replay(events, window, maxCalls).calls
    ensures Replay(Undelayed(events), window, maxCalls).admitted == Undelayed(Replay(events, window, maxCalls).admitted)
    decreases |events|
  {
    if events != [] {
      UndelayedReplay(events[..|events| - 1], window, maxCalls);
      assert Undelayed(events)[..|events| - 1] == Undelayed(events[..|events| - 1]);
    }
  }

  /** Then every closed window of stamps holds at most maxCalls admissions. */
  lemma InOrderBound(events: seq<Event>, window: real, maxCalls: int, from: real)
    requires InOrder(events) && maxCalls >= 0
    ensures CountIn(Undelayed(Replay(events, window, maxCalls).admitted), from, from + window) <= maxCalls
  {
    UndelayedReplay(events, window, maxCalls);
    ThreadedBound(Undelayed(events), window, maxCalls, 0.0, from, from + window);
  }
}
