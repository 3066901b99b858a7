/** What the protocol guarantees over whole runs. */
module LockTheorems {
  import opened Common
  import opened GatewayTypes
  import opened LockProtocol
  import opened LockInvariant

  /** The state a run from n fresh callers and the given rows ends in. */
  ghost function After(cfg: Config, n: nat, rows: map<string, Response>, acts: seq<Action>): State
    requires Run(cfg, Init(n, rows), acts)
  {
    Final(cfg, Init(n, rows), acts)
  }

  lemma AfterInv(cfg: Config, n: nat, rows: map<string, Response>, acts: seq<Action>)
    requires cfg.order.CommitThenUnlock? && Run(cfg, Init(n, rows), acts)
    ensures Inv(cfg, After(cfg, n, rows, acts), rows)
  {
    InitInv(cfg, n, rows);
    RunInv(cfg, Init(n, rows), acts, rows);
  }

  // -- At most one successful compute() per task_ref ---------------------------

  /** At most one caller's compute() has returned a result for t. */
  ghost predicate OneSuccess(cfg: Config, s: State, t: string) {
    forall c, d | c in s.produced && d in s.produced :: cfg.taskRef(c) == t && cfg.taskRef(d) == t ==> c == d
  }

  ghost predicate NobodyDied(s: State) {
    s.lost == {} && forall c | 0 <= c < |s.workers| :: !s.workers[c].pc.Dead?
  }

  lemma {:induction false} CrashFreeRun(cfg: Config, s: State, acts: seq<Action>)
    requires NobodyDied(s) && Run(cfg, s, acts) && CrashFree(acts)
    ensures NobodyDied(Final(cfg, s, acts))
    decreases |acts|
  {
    if acts != [] {
      assert !acts[0].Crash?;
      CrashFreeRun(cfg, Apply(cfg, s, acts[0]), acts[1..]);
    }
  }

  lemma AtMostOnce(cfg: Config, n: nat, rows: map<string, Response>, acts: seq<Action>, t: string)
    requires cfg.order.CommitThenUnlock? && Run(cfg, Init(n, rows), acts) && CrashFree(acts) && t != ""
    ensures OneSuccess(cfg, After(cfg, n, rows, acts), t)
    ensures t in rows ==> forall c | c in After(cfg, n, rows, acts).produced :: cfg.taskRef(c) != t
  {
    var s := After(cfg, n, rows, acts);
    AfterInv(cfg, n, rows, acts);
    CrashFreeRun(cfg, Init(n, rows), acts);
    forall c, d | c in s.produced && d in s.produced && cfg.taskRef(c) == t && cfg.taskRef(d) == t
      ensures c == d && t !in rows
    {
      assert Rivals(cfg, s, c, d) && ResultOf(cfg, s, rows, c);
    }
  }

  /** Every answer for a task_ref is its stored row; only the caller that computed
      it is told cache_hit=False, and a hit comes from an earlier row or from the
      compute() of another caller with the very same task_ref, whatever lock keys
      collide.  Crashes are allowed. */
  lemma Agreement(cfg: Config, n: nat, rows: map<string, Response>, acts: seq<Action>, c: nat)
    requires cfg.order.CommitThenUnlock? && Run(cfg, Init(n, rows), acts)
    requires var s := After(cfg, n, rows, acts);
             c < |s.workers| && s.workers[c].pc.Returned? && cfg.taskRef(c) != ""
    ensures var s := After(cfg, n, rows, acts);
            var pc := s.workers[c].pc;
            var t := cfg.taskRef(c);
            && t in s.table && s.table[t] == pc.r
            && (!pc.hit ==> t !in rows && c in s.produced && s.produced[c] == pc.r)
            && (pc.hit ==> c !in s.produced
                           && if t in rows then pc.r == rows[t]
                              else exists o :: o != c && Owns(cfg, s, o, t) && s.produced[o] == pc.r)
  {
    var s := After(cfg, n, rows, acts);
    AfterInv(cfg, n, rows, acts);
    var t := cfg.taskRef(c);
    assert RowOf(cfg, s, c) && RecordOf(cfg, s, c) && ResultOf(cfg, s, rows, c) && SourceOf(cfg, s, rows, t);
  }

  lemma SameAnswer(cfg: Config, n: nat, rows: map<string, Response>, acts: seq<Action>, c: nat, d: nat)
    requires cfg.order.CommitThenUnlock? && Run(cfg, Init(n, rows), acts)
    requires var s := After(cfg, n, rows, acts);
             && c < |s.workers| && d < |s.workers| && cfg.taskRef(c) == cfg.taskRef(d) != ""
             && s.workers[c].pc.Returned? && s.workers[d].pc.Returned?
    ensures var s := After(cfg, n, rows, acts);
            && s.workers[c].pc.r == s.workers[d].pc.r
            && (c != d ==> s.workers[c].pc.hit || s.workers[d].pc.hit)
  {
    var s := After(cfg, n, rows, acts);
    Agreement(cfg, n, rows, acts, c);
    Agreement(cfg, n, rows, acts, d);
    AfterInv(cfg, n, rows, acts);
    assert RecordOf(cfg, s, c) && RecordOf(cfg, s, d);
    if !s.workers[c].pc.hit && !s.workers[d].pc.hit { assert Rivals(cfg, s, c, d); }
  }

  /** An insert never meets a row or another open insert: it does not wait, and the
      ON CONFLICT branch is never taken. */
  lemma InsertNeverConflicts(cfg: Config, n: nat, rows: map<string, Response>, acts: seq<Action>, c: nat)
    requires cfg.order.CommitThenUnlock? && Run(cfg, Init(n, rows), acts)
    requires c < |After(cfg, n, rows, acts).workers| && After(cfg, n, rows, acts).workers[c].pc.Computed?
    ensures cfg.taskRef(c) !in After(cfg, n, rows, acts).table
    ensures Enabled(cfg, After(cfg, n, rows, acts), Insert(c))
  {
    AfterInv(cfg, n, rows, acts);
    InsertEnabled(cfg, After(cfg, n, rows, acts), rows, c);
  }

  lemma InsertEnabled(cfg: Config, s: State, rows: map<string, Response>, c: nat)
    requires Inv(cfg, s, rows) && c < |s.workers| && s.workers[c].pc.Computed?
    ensures cfg.taskRef(c) !in s.table && Enabled(cfg, s, Insert(c))
  {
    assert RowOf(cfg, s, c) && ConnOf(cfg, s, c);
    forall d | 0 <= d < |s.workers| && cfg.taskRef(d) == cfg.taskRef(c) ensures !OpenInsert(s.workers[d].pc) {
      assert RowOf(cfg, s, d);
      if OpenInsert(s.workers[d].pc) { Exclusion(cfg, s, c, d); }
    }
  }

  /** Once the owner has unlocked, a waiter that gets the lock finds the owner's row. */
  lemma WaiterSeesRow(cfg: Config, n: nat, rows: map<string, Response>, acts: seq<Action>, owner: nat, waiter: nat)
    requires cfg.order.CommitThenUnlock? && Run(cfg, Init(n, rows), acts)
    requires var s := After(cfg, n, rows, acts);
             && owner < |s.workers| && waiter < |s.workers| && cfg.taskRef(owner) == cfg.taskRef(waiter) != ""
             && s.workers[waiter].pc.Locked?
             && (s.workers[owner].pc.Stored? || s.workers[owner].pc.Returned?)
    ensures var s := After(cfg, n, rows, acts);
            Apply(cfg, s, Select(waiter)).workers[waiter].pc == Hit(s.workers[owner].pc.r)
  {
    AfterInv(cfg, n, rows, acts);
    assert RowOf(cfg, After(cfg, n, rows, acts), owner);
  }

  // -- Crashes -----------------------------------------------------------------

  /** A committed row is never changed or removed. */
  lemma {:induction false} RowsArePermanent(cfg: Config, s: State, acts: seq<Action>, rows: map<string, Response>, t: string)
    requires cfg.order.CommitThenUnlock? && Inv(cfg, s, rows) && Run(cfg, s, acts) && t in s.table
    ensures t in Final(cfg, s, acts).table && Final(cfg, s, acts).table[t] == s.table[t]
    decreases |acts|
  {
    if acts != [] {
      Step(cfg, s, acts[0], rows);
      RowStays(cfg, s, acts[0], t);
      RowsArePermanent(cfg, Apply(cfg, s, acts[0]), acts[1..], rows, t);
    }
  }

  ghost function SuccessesFor(cfg: Config, s: State, t: string): set<nat> {
    set c | c in s.produced && cfg.taskRef(c) == t
  }

  ghost function LostFor(cfg: Config, s: State, t: string): set<nat> {
    set c | c in s.lost && cfg.taskRef(c) == t
  }

  /** With crashes at any step, the successful computes for a task_ref exceed one
      by at most the owners that died between their compute() and their commit. */
  lemma CrashBound(cfg: Config, n: nat, rows: map<string, Response>, acts: seq<Action>, t: string)
    requires cfg.order.CommitThenUnlock? && Run(cfg, Init(n, rows), acts) && t != ""
    ensures var s := After(cfg, n, rows, acts);
            |SuccessesFor(cfg, s, t)| <= 1 + |LostFor(cfg, s, t)|
  {
    var s := After(cfg, n, rows, acts);
    AfterInv(cfg, n, rows, acts);
    var all, dead := SuccessesFor(cfg, s, t), LostFor(cfg, s, t);
    if all - dead != {} {
      var o :| o in all - dead;
      forall c | c in all ensures c in dead + {o} {
        if c !in dead { assert Rivals(cfg, s, c, o); }
      }
      Within(all, dead + {o});
    } else {
      forall c | c in all ensures c in dead { assert c !in all - dead; }
      Within(all, dead);
    }
  }

  lemma {:induction false} Within(small: set<nat>, big: set<nat>)
    requires small <= big
    ensures |small| <= |big|
  {
    if small != {} {
      var x :| x in small;
      Within(small - {x}, big - {x});
    }
  }

  // -- No orphaned lock, no deadlock, every run ends ----------------------------

  /** A pooled connection holds no lock, and a session in use holds at most its
      own caller's lock, once. */
  lemma NoOrphanedLock(cfg: Config, n: nat, rows: map<string, Response>, acts: seq<Action>, k: Key)
    requires cfg.order.CommitThenUnlock? && Run(cfg, Init(n, rows), acts)
    requires k in After(cfg, n, rows, acts).locks
    ensures var s := After(cfg, n, rows, acts);
            && s.locks[k].session !in s.pool && s.locks[k].depth == 1
            && exists c | 0 <= c < |s.workers| ::
                 Holding(s.workers[c].pc) && s.workers[c].conn == s.locks[k].session && cfg.KeyOf(c) == k
  {
    var s := After(cfg, n, rows, acts);
    AfterInv(cfg, n, rows, acts);
    assert InUse(cfg, s, k);
    var c :| 0 <= c < |s.workers| && Holding(s.workers[c].pc) && cfg.KeyOf(c) == k;
    assert LockOf(cfg, s, c) && ConnOf(cfg, s, c);
  }

  lemma OneLockPerSession(cfg: Config, n: nat, rows: map<string, Response>, acts: seq<Action>, k: Key, l: Key)
    requires cfg.order.CommitThenUnlock? && Run(cfg, Init(n, rows), acts)
    requires var s := After(cfg, n, rows, acts);
             k in s.locks && l in s.locks && s.locks[k].session == s.locks[l].session
    ensures k == l
  {
    NoOrphanedLock(cfg, n, rows, acts, k);
    NoOrphanedLock(cfg, n, rows, acts, l);
    AfterInv(cfg, n, rows, acts);
    var s := After(cfg, n, rows, acts);
    var c :| 0 <= c < |s.workers| && Holding(s.workers[c].pc) && s.workers[c].conn == s.locks[k].session && cfg.KeyOf(c) == k;
    var d :| 0 <= d < |s.workers| && Holding(s.workers[d].pc) && s.workers[d].conn == s.locks[l].session && cfg.KeyOf(d) == l;
    assert Apart(s, c, d);
  }

  /** A connection that was borrowed and is not in use by its borrower any more has come
      back: it is in the pool, or borrowed again. */
  ghost predicate CameBack(cfg: Config, s: State, c: nat)
    requires c < |s.workers|
  {
    cfg.taskRef(c) != "" && (s.workers[c].pc.Returned? || s.workers[c].pc.Raised?) ==>
      s.workers[c].conn in s.pool || InUseBy(s, s.workers[c].conn)
  }

  ghost predicate InUseBy(s: State, conn: Conn) {
    exists d | 0 <= d < |s.workers| :: HasConn(s.workers[d].pc) && s.workers[d].conn == conn
  }

  ghost predicate AllCameBack(cfg: Config, s: State) { forall c | 0 <= c < |s.workers| :: CameBack(cfg, s, c) }

  lemma ConnectionStays(cfg: Config, s: State, a: Action, conn: Conn)
    requires Enabled(cfg, s, a) && !a.Crash? && (conn in s.pool || InUseBy(s, conn))
    ensures conn in Apply(cfg, s, a).pool || InUseBy(Apply(cfg, s, a), conn)
  {
    var s' := Apply(cfg, s, a);
    Others(cfg, s, a);
    if a.Borrow? && a.conn == conn {
      assert HasConn(s'.workers[a.c].pc);
    } else if InUseBy(s, conn) {
      var d :| 0 <= d < |s.workers| && HasConn(s.workers[d].pc) && s.workers[d].conn == conn;
      if !(a.PutBack? && a.c == d) { assert HasConn(s'.workers[d].pc) && s'.workers[d].conn == conn; }
    }
  }

  lemma CameBackStep(cfg: Config, s: State, rows: map<string, Response>, a: Action, c: nat)
    requires cfg.order.CommitThenUnlock? && Inv(cfg, s, rows) && Enabled(cfg, s, a) && !a.Crash?
    requires c < |s.workers| && CameBack(cfg, s, c)
    ensures |Apply(cfg, s, a).workers| == |s.workers| && CameBack(cfg, Apply(cfg, s, a), c)
  {
    Others(cfg, s, a);
    assert RowOf(cfg, s, a.c);
    var conn := s.workers[c].conn;
    if conn in s.pool || InUseBy(s, conn) { ConnectionStays(cfg, s, a, conn); }
  }

  lemma {:induction false} RunBringsBack(cfg: Config, s: State, acts: seq<Action>, rows: map<string, Response>)
    requires cfg.order.CommitThenUnlock? && Inv(cfg, s, rows) && Run(cfg, s, acts) && CrashFree(acts) && AllCameBack(cfg, s)
    ensures AllCameBack(cfg, Final(cfg, s, acts))
    decreases |acts|
  {
    if acts != [] {
      assert !acts[0].Crash?;
      forall c | 0 <= c < |s.workers|
        ensures |Apply(cfg, s, acts[0]).workers| == |s.workers| && CameBack(cfg, Apply(cfg, s, acts[0]), c)
      {
        CameBackStep(cfg, s, rows, acts[0], c);
      }
      SameCallersStep(cfg, s, acts[0]);
      Step(cfg, s, acts[0], rows);
      RunBringsBack(cfg, Apply(cfg, s, acts[0]), acts[1..], rows);
    }
  }

  /** No connection is leaked: that of every answered caller is in the pool again, or in
      use by another caller. */
  lemma {:induction false} ConnectionsComeBack(cfg: Config, n: nat, rows: map<string, Response>, acts: seq<Action>, c: nat)
    requires cfg.order.CommitThenUnlock? && Run(cfg, Init(n, rows), acts) && CrashFree(acts)
    requires var s := After(cfg, n, rows, acts);
             c < |s.workers| && cfg.taskRef(c) != "" && (s.workers[c].pc.Returned? || s.workers[c].pc.Raised?)
    ensures var s := After(cfg, n, rows, acts);
            || s.workers[c].conn in s.pool
            || exists d | 0 <= d < |s.workers| && d != c :: HasConn(s.workers[d].pc) && s.workers[d].conn == s.workers[c].conn
  {
    var s := After(cfg, n, rows, acts);
    InitInv(cfg, n, rows);
    RunBringsBack(cfg, Init(n, rows), acts, rows);
    assert CameBack(cfg, s, c);
  }

  /** A crash leaves nothing of its replica's sessions but what they had committed. */
  lemma CrashLeavesRows(cfg: Config, s: State, a: Action)
    requires Enabled(cfg, s, a) && a.Crash?
    ensures var s' := Apply(cfg, s, a);
            && s'.table == s.table && s'.produced == s.produced && |s'.workers| == |s.workers|
            && (forall k | k in s'.locks :: s'.locks[k].session.home != a.r)
            && (forall conn | conn in s'.pool :: conn.home != a.r)
            && forall c | 0 <= c < |s.workers| ::
                 if cfg.replica(c) == a.r then Finished(s'.workers[c].pc) else s'.workers[c] == s.workers[c]
  {
    assert forall c | 0 <= c < |s.workers| :: Apply(cfg, s, a).workers[c] == Fate(cfg, a.r, c, s.workers[c]);
  }

  function MaxSerial(ws: seq<Worker>): nat {
    if ws == [] then 0 else
      var m := MaxSerial(ws[1..]);
      if ws[0].conn.serial > m then ws[0].conn.serial else m
  }

  lemma {:induction false} SerialBound(ws: seq<Worker>, c: nat)
    requires c < |ws|
    ensures ws[c].conn.serial <= MaxSerial(ws)
  {
    if c > 0 { SerialBound(ws[1..], c - 1); }
  }

  /** What a caller that is not waiting for its lock does next; outcome is what its
      compute() comes to. */
  function OwnAction(cfg: Config, s: State, c: nat, outcome: Option<Response>): (a: Action)
    requires c < |s.workers|
    ensures !a.Crash? && a.c == c
  {
    match s.workers[c].pc
    case Idle =>
      if cfg.taskRef(c) == "" then BeginUncached(c)
      else Borrow(c, Conn(cfg.replica(c), MaxSerial(s.workers) + 1))
    case Connected => Lock(c)
    case Locked => Select(c)
    case Computing => Finish(c, outcome)
    case Uncached => Finish(c, outcome)
    case Computed(_) => Insert(c)
    case Inserted(_, _) => Commit(c)
    case Hit(_) => Unlock(c)
    case Committed(_) => Unlock(c)
    case Failed => Unlock(c)
    case _ => PutBack(c)
  }

  lemma OwnStep(cfg: Config, s: State, rows: map<string, Response>, c: nat, outcome: Option<Response>)
    requires cfg.order.CommitThenUnlock? && Inv(cfg, s, rows) && c < |s.workers|
    requires !Finished(s.workers[c].pc)
    requires s.workers[c].pc.Connected? ==> cfg.KeyOf(c) !in s.locks
    ensures Enabled(cfg, s, OwnAction(cfg, s, c, outcome))
  {
    assert RowOf(cfg, s, c) && ConnOf(cfg, s, c);
    if s.workers[c].pc.Computed? { InsertEnabled(cfg, s, rows, c); }
    forall d | 0 <= d < |s.workers| ensures s.workers[d].conn.serial <= MaxSerial(s.workers) {
      SerialBound(s.workers, d);
    }
  }

  /** While any caller is unanswered, some caller can take a step, whatever its
      compute() comes to; if the caller named is blocked on its lock, the step is
      that of the lock's holder. */
  lemma NoDeadlock(cfg: Config, s: State, rows: map<string, Response>, c: nat, outcome: Option<Response>)
    returns (d: nat)
    requires cfg.order.CommitThenUnlock? && Inv(cfg, s, rows) && c < |s.workers| && !Finished(s.workers[c].pc)
    ensures d < |s.workers| && Enabled(cfg, s, OwnAction(cfg, s, d, outcome))
    ensures d == c || (s.workers[c].pc.Connected? && Holding(s.workers[d].pc) && cfg.KeyOf(d) == cfg.KeyOf(c))
  {
    d := c;
    if s.workers[c].pc.Connected? && cfg.KeyOf(c) in s.locks {
      assert InUse(cfg, s, cfg.KeyOf(c));
      d :| 0 <= d < |s.workers| && Holding(s.workers[d].pc) && cfg.KeyOf(d) == cfg.KeyOf(c);
    }
    OwnStep(cfg, s, rows, d, outcome);
  }

  /** The most steps a caller can still take. */
  function StepsLeft(w: Worker): nat {
    match w.pc
    case Idle => 8
    case Connected => 7
    case Locked => 6
    case Computing => 5
    case Computed(_) => 4
    case Inserted(_, _) => 3
    case Committed(_) => 2
    case Unlocked(_, _) => 2
    case Hit(_) => 2
    case Failed => 2
    case Stored(_) => 1
    case HitUnlocked(_) => 1
    case FailedUnlocked => 1
    case Uncached => 1
    case _ => 0
  }

  ghost function Measure(s: State): nat { CountBy(StepsLeft, s.workers) }

  /** A caller on its way to the end of its compute() and one on its way back. */
  predicate Outward(a: Action) { a.BeginUncached? || a.Borrow? || a.Lock? || a.Select? || a.Finish? }

  lemma RankDropsOutward(cfg: Config, s: State, a: Action)
    requires Enabled(cfg, s, a) && Outward(a)
    ensures |Apply(cfg, s, a).workers| == |s.workers|
    ensures StepsLeft(Apply(cfg, s, a).workers[a.c]) < StepsLeft(s.workers[a.c])
  {
  }

  lemma RankDropsBack(cfg: Config, s: State, a: Action)
    requires Enabled(cfg, s, a) && !a.Crash? && !Outward(a)
    ensures |Apply(cfg, s, a).workers| == |s.workers|
    ensures StepsLeft(Apply(cfg, s, a).workers[a.c]) < StepsLeft(s.workers[a.c])
  {
  }

  lemma StepDecreases(cfg: Config, s: State, a: Action)
    requires Enabled(cfg, s, a) && !a.Crash?
    ensures Measure(Apply(cfg, s, a)) < Measure(s)
  {
    Others(cfg, s, a);
    if Outward(a) { RankDropsOutward(cfg, s, a); } else { RankDropsBack(cfg, s, a); }
    CountByUpdate(StepsLeft, s.workers, a.c, Apply(cfg, s, a).workers[a.c]);
  }

  lemma {:induction false} CountByMonotone<T>(f: T -> nat, xs: seq<T>, ys: seq<T>)
    requires |xs| == |ys| && forall i | 0 <= i < |xs| :: f(xs[i]) <= f(ys[i])
    ensures CountBy(f, xs) <= CountBy(f, ys)
    ensures CountBy(f, xs) == CountBy(f, ys) ==> forall i | 0 <= i < |xs| :: f(xs[i]) == f(ys[i])
  {
    if xs != [] {
      CountByMonotone(f, xs[1..], ys[1..]);
      forall i | 0 <= i < |xs| && CountBy(f, xs) == CountBy(f, ys) ensures f(xs[i]) == f(ys[i]) {
        if i > 0 { assert f(xs[1..][i - 1]) == f(ys[1..][i - 1]); }
      }
    }
  }

  /** A crash ends at least one caller that had steps left. */
  lemma CrashDecreases(cfg: Config, s: State, a: Action)
    requires Enabled(cfg, s, a) && a.Crash?
    ensures Measure(Apply(cfg, s, a)) < Measure(s)
  {
    var s' := Apply(cfg, s, a);
    CountByMonotone(StepsLeft, s'.workers, s.workers);
    var c :| 0 <= c < |s.workers| && cfg.replica(c) == a.r && !Finished(s.workers[c].pc);
    assert StepsLeft(s'.workers[c]) < StepsLeft(s.workers[c]);
  }

  lemma {:induction false} RunDecreases(cfg: Config, s: State, acts: seq<Action>)
    requires Run(cfg, s, acts)
    ensures |acts| + Measure(Final(cfg, s, acts)) <= Measure(s)
    decreases |acts|
  {
    if acts != [] {
      if acts[0].Crash? { CrashDecreases(cfg, s, acts[0]); } else { StepDecreases(cfg, s, acts[0]); }
      RunDecreases(cfg, Apply(cfg, s, acts[0]), acts[1..]);
    }
  }

  lemma {:induction false} FreshMeasure(ws: seq<Worker>)
    requires forall c | 0 <= c < |ws| :: ws[c].pc == Idle
    ensures CountBy(StepsLeft, ws) == 8 * |ws|
  {
    if ws != [] { FreshMeasure(ws[1..]); }
  }

  /** A run of n callers, with crashes or without, has at most 8n steps, and one in
      which nobody can go any further has answered every caller whose replica is up. */
  lemma EveryRunEnds(cfg: Config, n: nat, rows: map<string, Response>, acts: seq<Action>)
    requires cfg.order.CommitThenUnlock? && Run(cfg, Init(n, rows), acts)
    ensures |acts| <= 8 * n
    ensures var s := After(cfg, n, rows, acts);
            (forall a: Action :: !a.Crash? ==> !Enabled(cfg, s, a)) ==>
              |s.workers| == n && forall c | 0 <= c < n :: Finished(s.workers[c].pc)
    ensures CrashFree(acts) ==> NobodyDied(After(cfg, n, rows, acts))
  {
    var s := After(cfg, n, rows, acts);
    AfterInv(cfg, n, rows, acts);
    if CrashFree(acts) { CrashFreeRun(cfg, Init(n, rows), acts); }
    RunDecreases(cfg, Init(n, rows), acts);
    FreshMeasure(Init(n, rows).workers);
    SameCallers(cfg, Init(n, rows), acts);
    if forall a: Action :: !a.Crash? ==> !Enabled(cfg, s, a) {
      forall c | 0 <= c < n ensures Finished(s.workers[c].pc) {
        if !Finished(s.workers[c].pc) { var d := NoDeadlock(cfg, s, rows, c, None); }
      }
    }
  }

  lemma {:induction false} SameCallers(cfg: Config, s: State, acts: seq<Action>)
    requires Run(cfg, s, acts)
    ensures |Final(cfg, s, acts).workers| == |s.workers|
    decreases |acts|
  {
    if acts != [] { SameCallers(cfg, Apply(cfg, s, acts[0]), acts[1..]); }
  }

  // -- The order of commit and unlock is what makes it work ---------------------

  /** A listing of states, each one step after the last, is a run. */
  lemma {:induction false} RunOf(cfg: Config, states: seq<State>, acts: seq<Action>)
    requires |states| == |acts| + 1
    requires forall i | 0 <= i < |acts| :: Enabled(cfg, states[i], acts[i]) && states[i + 1] == Apply(cfg, states[i], acts[i])
    ensures Run(cfg, states[0], acts) && Final(cfg, states[0], acts) == states[|acts|]
    decreases |acts|
  {
    if acts != [] {
      forall i | 0 <= i < |acts[1..]|
        ensures Enabled(cfg, states[1..][i], acts[1..][i])
                && states[1..][i + 1] == Apply(cfg, states[1..][i], acts[1..][i])
      {
        assert Enabled(cfg, states[i + 1], acts[i + 1]);
      }
      RunOf(cfg, states[1..], acts[1..]);
    }
  }

  /** A caller alone with its lock key free and no row runs straight to a result. */
  lemma ComputesAlone(cfg: Config, s: State, c: nat, conn: Conn, r: Response)
    returns (acts: seq<Action>)
    requires c < |s.workers| && s.workers[c].pc.Idle? && cfg.taskRef(c) != ""
    requires cfg.taskRef(c) !in s.table && cfg.KeyOf(c) !in s.locks && conn.home == cfg.replica(c)
    requires forall d | 0 <= d < |s.workers| :: HasConn(s.workers[d].pc) ==> s.workers[d].conn != conn
    ensures Run(cfg, s, acts) && CrashFree(acts)
    ensures Final(cfg, s, acts) ==
              s.(workers := s.workers[c := Worker(Computed(r), conn)], pool := s.pool - {conn},
                 locks := s.locks[cfg.KeyOf(c) := Held(conn, 1)], produced := s.produced[c := r])
  {
    acts := [Borrow(c, conn), Lock(c), Select(c), Finish(c, Some(r))];
    var s1 := Apply(cfg, s, acts[0]);
    var s2 := Apply(cfg, s1, acts[1]);
    var s3 := Apply(cfg, s2, acts[2]);
    var s4 := Apply(cfg, s3, acts[3]);
    RunOf(cfg, [s, s1, s2, s3, s4], acts);
    assert s4.workers == s.workers[c := Worker(Computed(r), conn)];
  }

  /** The earlier order: insert, then unlock, with the row still uncommitted. */
  lemma UnlocksEarly(cfg: Config, s: State, c: nat)
    returns (acts: seq<Action>)
    requires cfg.order.UnlockThenCommit? && c < |s.workers| && s.workers[c].pc.Computed?
    requires cfg.KeyOf(c) in s.locks && s.locks[cfg.KeyOf(c)] == Held(s.workers[c].conn, 1)
    requires forall d | 0 <= d < |s.workers| :: !OpenInsert(s.workers[d].pc)
    ensures Run(cfg, s, acts) && CrashFree(acts)
    ensures var pc := Unlocked(s.workers[c].pc.r, cfg.taskRef(c) !in s.table);
            Final(cfg, s, acts) == Moved(s, c, pc).(locks := s.locks - {cfg.KeyOf(c)})
  {
    acts := [Insert(c), Unlock(c)];
    var s1 := Apply(cfg, s, acts[0]);
    var s2 := Apply(cfg, s1, acts[1]);
    RunOf(cfg, [s, s1, s2], acts);
    assert s2.workers == Moved(s, c, Unlocked(s.workers[c].pc.r, cfg.taskRef(c) !in s.table)).workers;
  }

  /** With the earlier order, x unlocks before its commit, so y gets the lock, finds
      no row, and computes as well. */
  lemma RaceRun(cfg: Config, n: nat, rows: map<string, Response>, x: nat, y: nat, r: Response)
    returns (acts: seq<Action>)
    requires cfg.order.UnlockThenCommit? && x < n && y < n && x != y
    requires cfg.taskRef(x) == cfg.taskRef(y) != "" && cfg.taskRef(x) !in rows
    ensures Run(cfg, Init(n, rows), acts) && CrashFree(acts)
    ensures x in After(cfg, n, rows, acts).produced && y in After(cfg, n, rows, acts).produced
  {
    var s := Init(n, rows);
    var one := ComputesAlone(cfg, s, x, Conn(cfg.replica(x), 1), r);
    var s1 := Final(cfg, s, one);
    var two := UnlocksEarly(cfg, s1, x);
    var s2 := Final(cfg, s1, two);
    var three := ComputesAlone(cfg, s2, y, Conn(cfg.replica(y), 2), r);
    RunAppend(cfg, s, one, two);
    RunAppend(cfg, s, one + two, three);
    acts := one + two + three;
  }

  /** Two callers share a task_ref that has no row yet: no crash-free run computes
      it twice if and only if the commit comes before the unlock. */
  lemma CommitOrderIsExact(cfg: Config, n: nat, rows: map<string, Response>, x: nat, y: nat)
    requires x < n && y < n && x != y
    requires cfg.taskRef(x) == cfg.taskRef(y) != "" && cfg.taskRef(x) !in rows
    ensures cfg.order.CommitThenUnlock? <==>
              forall acts :: Run(cfg, Init(n, rows), acts) && CrashFree(acts) ==>
                               OneSuccess(cfg, After(cfg, n, rows, acts), cfg.taskRef(x))
  {
    if cfg.order.CommitThenUnlock? {
      forall acts | Run(cfg, Init(n, rows), acts) && CrashFree(acts)
        ensures OneSuccess(cfg, After(cfg, n, rows, acts), cfg.taskRef(x))
      {
        AtMostOnce(cfg, n, rows, acts, cfg.taskRef(x));
      }
    } else {
      var r := Response(x, "", WithinBudget, None);
      var acts := RaceRun(cfg, n, rows, x, y, r);
      assert !OneSuccess(cfg, After(cfg, n, rows, acts), cfg.taskRef(x));
    }
  }
}
