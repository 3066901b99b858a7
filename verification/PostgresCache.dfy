/** PostgresCache.get_or_compute as the code runs it: one caller going through its
    statements while other callers, on this replica and others, do anything the
    protocol allows between any two of them, crashes of other replicas included. */
module PostgresCache {
  import opened Common
  import opened GatewayTypes
  import opened LockProtocol
  import opened LockInvariant
  import opened LockTheorems

  datatype Answer = Answered(r: Response, hit: bool) | Exception

  /** a is not done by c and does not kill its replica. */
  predicate Foreign(cfg: Config, c: nat, a: Action) {
    if a.Crash? then a.r != cfg.replica(c) else a.c != c
  }

  predicate ByOthers(cfg: Config, c: nat, acts: seq<Action>) {
    forall i | 0 <= i < |acts| :: Foreign(cfg, c, acts[i])
  }

  lemma OthersLeave(cfg: Config, s: State, a: Action, c: nat)
    requires Enabled(cfg, s, a) && c < |s.workers| && Foreign(cfg, c, a)
    ensures |Apply(cfg, s, a).workers| == |s.workers|
    ensures Apply(cfg, s, a).workers[c] == s.workers[c]
  {
  }

  lemma NeverMore(cfg: Config, s: State, a: Action)
    requires Enabled(cfg, s, a)
    ensures Measure(Apply(cfg, s, a)) <= Measure(s)
  {
    if a.Crash? { CrashDecreases(cfg, s, a); } else { StepDecreases(cfg, s, a); }
  }

  ghost predicate Reached(cfg: Config, n: nat, rows: map<string, Response>, trace: seq<Action>, s: State) {
    && cfg.order.CommitThenUnlock?
    && Run(cfg, Init(n, rows), trace) && s == After(cfg, n, rows, trace)
    && |s.workers| == n
  }

  lemma ReachedInv(cfg: Config, n: nat, rows: map<string, Response>, trace: seq<Action>, s: State)
    requires Reached(cfg, n, rows, trace, s)
    ensures Inv(cfg, s, rows)
  {
    AfterInv(cfg, n, rows, trace);
  }

  lemma Extend(cfg: Config, n: nat, rows: map<string, Response>, trace: seq<Action>, s: State, a: Action)
    requires Reached(cfg, n, rows, trace, s) && Enabled(cfg, s, a)
    ensures Reached(cfg, n, rows, trace + [a], Apply(cfg, s, a))
  {
    RunAppend(cfg, Init(n, rows), trace, [a]);
    SameCallersStep(cfg, s, a);
  }

  /** Every row of before is in after, unchanged. */
  predicate Keeps(before: map<string, Response>, after: map<string, Response>) {
    forall t | t in before :: t in after && after[t] == before[t]
  }

  lemma StepKeeps(cfg: Config, rows: map<string, Response>, s: State, a: Action)
    requires cfg.order.CommitThenUnlock? && Inv(cfg, s, rows) && Enabled(cfg, s, a)
    ensures Keeps(s.table, Apply(cfg, s, a).table)
  {
    forall t | t in s.table ensures t in Apply(cfg, s, a).table && Apply(cfg, s, a).table[t] == s.table[t] {
      RowStays(cfg, s, a, t);
    }
  }

  /** a is caller c's next statement, other than getconn and pg_advisory_lock. */
  predicate Follows(cfg: Config, c: nat, pc: Pc, a: Action) {
    !a.Crash? && a.c == c &&
    match a
    case BeginUncached(_) => pc.Idle? && cfg.taskRef(c) == ""
    case Select(_) => pc.Locked?
    case Finish(_, _) => pc.Computing? || pc.Uncached?
    case Insert(_) => pc.Computed?
    case Commit(_) => pc.Inserted?
    case Unlock(_) => pc.Hit? || pc.Committed? || pc.Failed?
    case PutBack(_) => pc.HitUnlocked? || pc.Stored? || pc.FailedUnlocked?
    case _ => false
  }

  /** Where it is then: row is what a lookup finds. */
  function NextPc(pc: Pc, a: Action, row: Option<Response>): Pc {
    match pc
    case Idle => Uncached
    case Locked => if row.Some? then Hit(row.value) else Computing
    case Computing => if a.Finish? && a.outcome.Some? then Computed(a.outcome.value) else Failed
    case Uncached => if a.Finish? && a.outcome.Some? then Returned(a.outcome.value, false) else Raised
    case Computed(r) => Inserted(r, true)
    case Inserted(r, _) => Committed(r)
    case Hit(r) => HitUnlocked(r)
    case Committed(r) => Stored(r)
    case Failed => FailedUnlocked
    case HitUnlocked(r) => Returned(r, true)
    case Stored(r) => Returned(r, false)
    case FailedUnlocked => Raised
    case _ => pc
  }

  function Lookup(table: map<string, Response>, t: string): Option<Response> {
    if t in table then Some(table[t]) else None
  }

  lemma OwnEffect(cfg: Config, s: State, rows: map<string, Response>, c: nat, a: Action)
    requires cfg.order.CommitThenUnlock? && Inv(cfg, s, rows) && c < |s.workers|
    requires Follows(cfg, c, s.workers[c].pc, a)
    ensures Enabled(cfg, s, a)
    ensures Apply(cfg, s, a).workers[c]
              == s.workers[c].(pc := NextPc(s.workers[c].pc, a, Lookup(s.table, cfg.taskRef(c))))
    ensures a.Select? ==> Apply(cfg, s, a).table == s.table
  {
    assert RowOf(cfg, s, c) && ConnOf(cfg, s, c);
    if a.Insert? { InsertEnabled(cfg, s, rows, c); }
  }

  /** A caller that has given its lock back has no lock left in its session. */
  lemma GivenBack(cfg: Config, s: State, c: nat, k: Key)
    requires Conns(cfg, s) && Locks(cfg, s) && c < |s.workers| && k in s.locks
    requires HasConn(s.workers[c].pc) && !Holding(s.workers[c].pc)
    ensures s.locks[k].session != s.workers[c].conn
  {
    assert InUse(cfg, s, k);
    var d :| 0 <= d < |s.workers| && Holding(s.workers[d].pc) && cfg.KeyOf(d) == k;
    assert LockOf(cfg, s, d) && Apart(s, c, d);
  }

  // -- A failed attempt is not replayed -----------------------------------------------

  /** The trace goes on with caller c's next statement. */
  lemma Moves(cfg: Config, n: nat, rows: map<string, Response>, trace: seq<Action>, s: State, c: nat, a: Action)
    returns (next: State)
    requires Reached(cfg, n, rows, trace, s) && c < n && Follows(cfg, c, s.workers[c].pc, a)
    ensures Reached(cfg, n, rows, trace + [a], next)
    ensures next.workers[c] == s.workers[c].(pc := NextPc(s.workers[c].pc, a, Lookup(s.table, cfg.taskRef(c))))
  {
    ReachedInv(cfg, n, rows, trace, s);
    OwnEffect(cfg, s, rows, c, a);
    Extend(cfg, n, rows, trace, s, a);
    next := Apply(cfg, s, a);
  }

  /** The owner's compute() raises and its lock is given back: the row is still missing. */
  lemma OwnerFails(cfg: Config, n: nat, rows: map<string, Response>, trace: seq<Action>, s: State, owner: nat)
    returns (next: State)
    requires Reached(cfg, n, rows, trace, s) && owner < n && cfg.taskRef(owner) != "" && s.workers[owner].pc.Computing?
    ensures Reached(cfg, n, rows, trace + [Finish(owner, None), Unlock(owner)], next)
    ensures next.workers[owner].pc == FailedUnlocked && cfg.KeyOf(owner) !in next.locks
    ensures next.table == s.table && cfg.taskRef(owner) !in s.table
    ensures forall d | 0 <= d < n && d != owner :: next.workers[d] == s.workers[d]
  {
    ReachedInv(cfg, n, rows, trace, s);
    assert RowOf(cfg, s, owner) && LockOf(cfg, s, owner);
    Extend(cfg, n, rows, trace, s, Finish(owner, None));
    var failed := Apply(cfg, s, Finish(owner, None));
    Extend(cfg, n, rows, trace + [Finish(owner, None)], failed, Unlock(owner));
    next := Apply(cfg, failed, Unlock(owner));
    assert trace + [Finish(owner, None)] + [Unlock(owner)] == trace + [Finish(owner, None), Unlock(owner)];
  }

  /** The statements of a caller that finds no row, up to the end of its compute(). */
  function Attempt(c: nat, r: Response): seq<Action> {
    [Lock(c), Select(c), Finish(c, Some(r))]
  }

  /** And from there to its answer. */
  function Conclusion(c: nat): seq<Action> {
    [Insert(c), Commit(c), Unlock(c), PutBack(c)]
  }

  lemma Attempts(cfg: Config, n: nat, rows: map<string, Response>, trace: seq<Action>, s: State, c: nat, r: Response)
    returns (next: State)
    requires Reached(cfg, n, rows, trace, s) && c < n && s.workers[c].pc.Connected?
    requires cfg.KeyOf(c) !in s.locks && cfg.taskRef(c) !in s.table
    ensures Reached(cfg, n, rows, trace + Attempt(c, r), next) && next.workers[c].pc == Computed(r)
  {
    Extend(cfg, n, rows, trace, s, Lock(c));
    var locked := Apply(cfg, s, Lock(c));
    var missed := Moves(cfg, n, rows, trace + [Lock(c)], locked, c, Select(c));
    next := Moves(cfg, n, rows, trace + [Lock(c)] + [Select(c)], missed, c, Finish(c, Some(r)));
    assert trace + [Lock(c)] + [Select(c)] + [Finish(c, Some(r))] == trace + Attempt(c, r);
  }

  lemma Concludes(cfg: Config, n: nat, rows: map<string, Response>, trace: seq<Action>, s: State, c: nat)
    returns (next: State)
    requires Reached(cfg, n, rows, trace, s) && c < n && s.workers[c].pc.Computed?
    ensures Reached(cfg, n, rows, trace + Conclusion(c), next)
    ensures next.workers[c].pc == Returned(s.workers[c].pc.r, false)
  {
    var one := trace + [Insert(c)];
    var two := one + [Commit(c)];
    var three := two + [Unlock(c)];
    next := Moves(cfg, n, rows, trace, s, c, Insert(c));
    next := Moves(cfg, n, rows, one, next, c, Commit(c));
    next := Moves(cfg, n, rows, two, next, c, Unlock(c));
    next := Moves(cfg, n, rows, three, next, c, PutBack(c));
    assert three + [PutBack(c)] == trace + Conclusion(c);
  }

  /** A waiter does not get its owner's failure: from any state in which it waits while
      the owner computes, the owner can fail and the waiter then compute for itself,
      store its own result and return it. */
  lemma WaiterStartsAfresh(cfg: Config, n: nat, rows: map<string, Response>, trace: seq<Action>, s: State,
                           owner: nat, waiter: nat, r: Response)
    returns (next: State)
    requires Reached(cfg, n, rows, trace, s) && owner < n && waiter < n
    requires cfg.taskRef(owner) == cfg.taskRef(waiter) != ""
    requires s.workers[owner].pc.Computing? && s.workers[waiter].pc.Connected?
    ensures Reached(cfg, n, rows, trace + [Finish(owner, None), Unlock(owner)] + Attempt(waiter, r) + Conclusion(waiter), next)
    ensures next.workers[waiter].pc == Returned(r, false)
    ensures cfg.taskRef(waiter) in next.table && next.table[cfg.taskRef(waiter)] == r
  {
    var failed := OwnerFails(cfg, n, rows, trace, s, owner);
    var steps := trace + [Finish(owner, None), Unlock(owner)];
    var computed := Attempts(cfg, n, rows, steps, failed, waiter, r);
    next := Concludes(cfg, n, rows, steps + Attempt(waiter, r), computed, waiter);
    ReachedInv(cfg, n, rows, steps + Attempt(waiter, r) + Conclusion(waiter), next);
    assert RowOf(cfg, next, waiter);
  }

  /** The database, the pools and the callers. */
  class Cluster {
    const cfg: Config
    const rows: map<string, Response>
    var workers: seq<Worker>
    var pool: set<Conn>
    var locks: map<Key, Held>
    var table: map<string, Response>
    var produced: map<nat, Response>   // history, read by no statement
    var lost: set<nat>                              // history, read by no statement
    ghost var trace: seq<Action>                    // every step taken so far, by anyone

    function Current(): State reads this {
      State(workers, pool, locks, table, produced, lost)
    }

    /** The cluster is where the steps taken so far lead, from |workers| fresh callers. */
    ghost predicate Valid() reads this {
      Reached(cfg, |workers|, rows, trace, Current())
    }

    constructor (cfg: Config, n: nat, rows: map<string, Response>)
      requires cfg.order.CommitThenUnlock?
      ensures Valid() && Current() == Init(n, rows) && trace == []
      ensures this.cfg == cfg && this.rows == rows
    {
      this.cfg, this.rows := cfg, rows;
      var s := Init(n, rows);
      workers, pool, locks, table, produced, lost := s.workers, s.pool, s.locks, s.table, s.produced, s.lost;
      trace := [];
    }

    /** Caller c's session holds no lock. */
    ghost predicate NoLockLeft(c: nat) reads this
      requires c < |workers|
    {
      forall k | k in locks :: locks[k].session != workers[c].conn
    }

    /** Caller c's session holds the lock of c's task_ref. */
    ghost predicate Excludes(c: nat) reads this
      requires c < |workers|
    {
      cfg.KeyOf(c) in locks && locks[cfg.KeyOf(c)] == Held(workers[c].conn, 1)
    }

    lemma LockState(c: nat)
      requires Valid() && c < |workers| && HasConn(workers[c].pc)
      ensures if Holding(workers[c].pc) then Excludes(c) else NoLockLeft(c)
    {
      ReachedInv(cfg, |workers|, rows, trace, Current());
      assert LockOf(cfg, Current(), c);
      if !Holding(workers[c].pc) {
        forall k | k in locks ensures locks[k].session != workers[c].conn { GivenBack(cfg, Current(), c, k); }
      }
    }

    lemma RowState(c: nat)
      requires Valid() && c < |workers| && workers[c].pc.Stored?
      ensures cfg.taskRef(c) in table && table[cfg.taskRef(c)] == workers[c].pc.r
    {
      ReachedInv(cfg, |workers|, rows, trace, Current());
      assert ConnOf(cfg, Current(), c) && RowOf(cfg, Current(), c);
    }

    /** One atomic step of anybody. */
    method Perform(a: Action)
      requires Valid() && Enabled(cfg, Current(), a)
      modifies this
      ensures Valid() && trace == old(trace) + [a]
      ensures Current() == Apply(cfg, old(Current()), a)
      ensures |workers| == old(|workers|) && Keeps(old(table), table)
    {
      ReachedInv(cfg, |workers|, rows, trace, Current());
      StepKeeps(cfg, rows, Current(), a);
      Extend(cfg, |workers|, rows, trace, Current(), a);
      var s := Apply(cfg, Current(), a);
      workers, pool, locks, table, produced, lost := s.workers, s.pool, s.locks, s.table, s.produced, s.lost;
      trace := trace + [a];
    }

    /** Any number of steps of the others. */
    method Interfere(c: nat)
      requires Valid() && c < |workers|
      modifies this
      ensures Valid() && |workers| == old(|workers|) && workers[c] == old(workers[c])
      ensures old(trace) <= trace && ByOthers(cfg, c, trace[|old(trace)|..])
      ensures Keeps(old(table), table)
      ensures Measure(Current()) <= old(Measure(Current()))
    {
      var more: nat := *;
      while more > 0
        invariant Valid() && |workers| == old(|workers|) && workers[c] == old(workers[c])
        invariant old(trace) <= trace && ByOthers(cfg, c, trace[|old(trace)|..])
        invariant Keeps(old(table), table)
        invariant Measure(Current()) <= old(Measure(Current()))
      {
        var a: Action := *;
        if Foreign(cfg, c, a) && Enabled(cfg, Current(), a) {
          OthersLeave(cfg, Current(), a, c);
          NeverMore(cfg, Current(), a);
          Perform(a);
        }
        more := more - 1;
      }
    }

    /** Whatever the others do, and then caller c's statement a. */
    method Proceed(c: nat, a: Action)
      requires Valid() && c < |workers| && Follows(cfg, c, workers[c].pc, a)
      modifies this
      ensures Valid() && |workers| == old(|workers|)
      ensures var row := if old(workers[c].pc.Locked?) then Lookup(table, cfg.taskRef(c)) else None;
              workers[c] == old(workers[c]).(pc := NextPc(old(workers[c].pc), a, row))
      ensures old(trace) <= trace && Keeps(old(table), table)
    {
      Interfere(c);
      ReachedInv(cfg, |workers|, rows, trace, Current());
      OwnEffect(cfg, Current(), rows, c, a);
      Perform(a);
    }

    /** The holder of the lock that c waits for takes a step, then the others any number. */
    method HolderMoves(c: nat)
      requires Valid() && c < |workers| && workers[c].pc.Connected? && cfg.KeyOf(c) in locks
      modifies this
      ensures Valid() && |workers| == old(|workers|) && workers[c] == old(workers[c])
      ensures old(trace) <= trace && Keeps(old(table), table)
      ensures Measure(Current()) < old(Measure(Current()))
    {
      ReachedInv(cfg, |workers|, rows, trace, Current());
      assert InUse(cfg, Current(), cfg.KeyOf(c));
      var d :| 0 <= d < |workers| && Holding(workers[d].pc) && cfg.KeyOf(d) == cfg.KeyOf(c);
      var outcome: Option<Response> := *;
      OwnStep(cfg, Current(), rows, d, outcome);
      var a := OwnAction(cfg, Current(), d, outcome);
      StepDecreases(cfg, Current(), a);
      OthersLeave(cfg, Current(), a, c);
      Perform(a);
      Interfere(c);
    }

    /** SELECT pg_advisory_lock: returns once no other session has the lock.  While it
        is blocked the lock's holder keeps moving, which is all that is asked of the
        scheduler; the steps all callers have left run out, so the wait is finite. */
    method AdvisoryLock(c: nat)
      requires Valid() && c < |workers| && workers[c].pc.Connected?
      modifies this
      ensures Valid() && |workers| == old(|workers|) && workers[c] == old(workers[c]).(pc := Locked)
      ensures old(trace) <= trace && Keeps(old(table), table)
    {
      Interfere(c);
      while cfg.KeyOf(c) in locks
        invariant Valid() && |workers| == old(|workers|) && workers[c] == old(workers[c])
        invariant old(trace) <= trace && Keeps(old(table), table)
        decreases Measure(Current())
      {
        HolderMoves(c);
      }
      Perform(Lock(c));
    }

    /** PostgresCache._acquire_and_check.  A hit gives the lock back; a miss keeps it. */
    method AcquireAndCheck(c: nat) returns (row: Option<Response>)
      requires Valid() && c < |workers| && workers[c].pc.Connected?
      modifies this
      ensures Valid() && |workers| == old(|workers|)
      ensures workers[c] == old(workers[c]).(pc := if row.Some? then HitUnlocked(row.value) else Computing)
      ensures cfg.taskRef(c) in old(table) ==> row == Some(old(table)[cfg.taskRef(c)])
      ensures if row.Some? then NoLockLeft(c) else Excludes(c)
      ensures old(trace) <= trace && Keeps(old(table), table)
    {
      AdvisoryLock(c);
      Proceed(c, Select(c));
      row := if workers[c].pc.Hit? then Some(workers[c].pc.r) else None;
      if row.Some? {
        Proceed(c, Unlock(c));
      }
      LockState(c);
    }

    /** PostgresCache._store_and_release: insert and commit, and only then unlock. */
    method StoreAndRelease(c: nat)
      requires Valid() && c < |workers| && workers[c].pc.Computed?
      modifies this
      ensures Valid() && |workers| == old(|workers|)
      ensures workers[c] == old(workers[c]).(pc := Stored(old(workers[c].pc.r)))
      ensures cfg.taskRef(c) in table && table[cfg.taskRef(c)] == old(workers[c].pc.r)
      ensures NoLockLeft(c)
      ensures old(trace) <= trace && Keeps(old(table), table)
    {
      Proceed(c, Insert(c));
      Proceed(c, Commit(c));
      Proceed(c, Unlock(c));
      LockState(c);
      RowState(c);
    }

    /** pool.getconn: an idle connection of this replica or a new one. */
    method GetConn(c: nat)
      requires Valid() && c < |workers| && workers[c].pc.Idle? && cfg.taskRef(c) != ""
      modifies this
      ensures Valid() && |workers| == old(|workers|) && workers[c].pc == Connected
      ensures old(trace) <= trace && Keeps(old(table), table)
    {
      Interfere(c);
      var conn: Conn := *;
      if !Enabled(cfg, Current(), Borrow(c, conn)) {
        ReachedInv(cfg, |workers|, rows, trace, Current());
        OwnStep(cfg, Current(), rows, c, None);
        conn := Conn(cfg.replica(c), MaxSerial(workers) + 1);
      }
      Perform(Borrow(c, conn));
    }

    /** What a caller that found no row does: compute(), then store or give up. */
    method ComputeAsOwner(c: nat, outcome: Option<Response>)
      requires Valid() && c < |workers| && workers[c].pc.Computing?
      modifies this
      ensures Valid() && |workers| == old(|workers|)
      ensures workers[c].pc == if outcome.Some? then Stored(outcome.value) else FailedUnlocked
      ensures old(trace) <= trace && Keeps(old(table), table)
    {
      Proceed(c, Finish(c, outcome));     // compute()
      if outcome.None? {
        Proceed(c, Unlock(c));            // _release_without_storing
      } else {
        StoreAndRelease(c);
      }
    }

    /** From the borrowed connection to the point where it is put back. */
    method OnConnection(c: nat, outcome: Option<Response>)
      requires Valid() && c < |workers| && workers[c].pc.Connected?
      modifies this
      ensures Valid() && |workers| == old(|workers|)
      ensures old(trace) <= trace && Keeps(old(table), table)
      ensures var pc := workers[c].pc;
              || (pc.HitUnlocked? && (cfg.taskRef(c) in old(table) ==> pc.r == old(table)[cfg.taskRef(c)]))
              || (cfg.taskRef(c) !in old(table) && outcome.Some? && pc == Stored(outcome.value))
              || (cfg.taskRef(c) !in old(table) && outcome.None? && pc == FailedUnlocked)
    {
      var cached := AcquireAndCheck(c);
      if cached.None? {
        ComputeAsOwner(c, outcome);
      }
    }

    lemma AnswerOf(c: nat)
      requires Valid() && c < |workers| && (workers[c].pc.Returned? || workers[c].pc.Raised?)
      ensures c in produced <==> workers[c].pc.Returned? && !workers[c].pc.hit
      ensures workers[c].pc.Returned? && cfg.taskRef(c) != "" ==>
                cfg.taskRef(c) in table && table[cfg.taskRef(c)] == workers[c].pc.r
    {
      ReachedInv(cfg, |workers|, rows, trace, Current());
      assert RecordOf(cfg, Current(), c) && RowOf(cfg, Current(), c);
    }

    /** PostgresCache.get_or_compute for caller c, whose compute() comes to the given
        outcome if it is called (None when it raises).  A row that is there is returned
        without computing.  Otherwise the answer is some row committed meanwhile, or
        the caller's own result, which is then the row; an exception stores nothing. */
    method GetOrCompute(c: nat, outcome: Option<Response>) returns (answer: Answer)
      requires Valid() && c < |workers| && workers[c].pc.Idle?
      modifies this
      ensures Valid() && |workers| == old(|workers|)
      ensures old(trace) <= trace && Keeps(old(table), table)
      ensures workers[c].pc == if answer.Answered? then Returned(answer.r, answer.hit) else Raised
      ensures c in produced <==> answer.Answered? && !answer.hit
      ensures answer.Answered? && !answer.hit ==> outcome == Some(answer.r)
      ensures answer.Exception? ==> outcome.None?
      ensures cfg.taskRef(c) == "" && answer.Answered? ==> !answer.hit
      ensures cfg.taskRef(c) != "" && answer.Answered? ==>
                cfg.taskRef(c) in table && table[cfg.taskRef(c)] == answer.r
      ensures cfg.taskRef(c) != "" && cfg.taskRef(c) in old(table) ==>
                answer == Answered(old(table)[cfg.taskRef(c)], true)
    {
      if cfg.taskRef(c) == "" {
        Proceed(c, BeginUncached(c));
        Proceed(c, Finish(c, outcome));
      } else {
        GetConn(c);
        OnConnection(c, outcome);
        Proceed(c, PutBack(c));           // putconn
      }
      answer := if workers[c].pc.Returned? then Answered(workers[c].pc.r, workers[c].pc.hit) else Exception;
      AnswerOf(c);
    }
  }
}
