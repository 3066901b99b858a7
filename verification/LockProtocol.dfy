/** The cross-replica idempotency protocol of PostgresCache.get_or_compute, one
    atomic database or pool operation per step, with any number of callers and
    any interleaving of their steps.

    What is taken from Postgres: a statement sees everything committed before it
    starts; pg_advisory_unlock takes effect at once, not at commit; advisory locks
    belong to a session and stack within it; an insert whose key is being inserted
    by another open transaction waits for that transaction; a session that dies
    loses its locks and its uncommitted rows.  Statements otherwise succeed. */
module LockProtocol {
  import opened Common
  import opened GatewayTypes

  type Replica = nat
  type Key = int

  /** A database session, owned by the connection pool of one replica. */
  datatype Conn = Conn(home: Replica, serial: nat)

  /** Whether the insert is committed before the unlock statement is sent, as the
      code does, or after it, as an earlier version did. */
  datatype Order = CommitThenUnlock | UnlockThenCommit

  /** What is fixed for a run: the task_ref each caller carries ("" when it has
      none), the replica it runs on, and the advisory-lock hash, which may collide. */
  datatype Config = Config(taskRef: nat -> string, replica: nat -> Replica,
                           lockKey: string -> Key, order: Order)
  {
    function KeyOf(c: nat): Key { lockKey(taskRef(c)) }
  }

  /** Where a caller is in get_or_compute. */
  datatype Pc =
    | Idle                              // not yet entered
    | Uncached                          // no task_ref: computing without the cache
    | Connected                         // connection borrowed; pg_advisory_lock is next
    | Locked                            // lock granted; the lookup is next
    | Hit(r: Response)                  // row found; the unlock is next
    | HitUnlocked(r: Response)          // hit, lock released; putconn is next
    | Computing                         // miss: awaiting compute() with the lock held
    | Computed(r: Response)             // compute() returned; the insert is next
    | Inserted(r: Response, wrote: bool)// insert ran, its transaction still open
    | Committed(r: Response)            // row committed; the unlock is next
    | Unlocked(r: Response, wrote: bool)// earlier order only: unlocked, still uncommitted
    | Stored(r: Response)               // committed and unlocked; putconn is next
    | Failed                            // compute() raised; the unlock is next
    | FailedUnlocked                    // lock released after a failure; putconn is next
    | Returned(r: Response, hit: bool)  // answered
    | Raised                            // the exception reached the caller
    | Dead                              // its replica crashed

  datatype Worker = Worker(pc: Pc, conn: Conn)

  /** A held advisory lock: by which session, and how often it was granted. */
  datatype Held = Held(session: Conn, depth: nat)

  datatype State = State(
    workers: seq<Worker>,
    pool: set<Conn>,                // connections sitting idle in a pool
    locks: map<Key, Held>,
    table: map<string, Response>,   // committed rows of completions
    produced: map<nat, Response>,   // history: what each caller's own compute() returned
    lost: set<nat>)                 // history: callers that died between that and their commit

  datatype Action =
    | BeginUncached(c: nat)
    | Borrow(c: nat, conn: Conn)
    | Lock(c: nat)
    | Select(c: nat)
    | Finish(c: nat, outcome: Option<Response>)   // compute() returns Some, or raises None
    | Insert(c: nat)
    | Commit(c: nat)
    | Unlock(c: nat)
    | PutBack(c: nat)
    | Crash(r: Replica)

  predicate HasConn(pc: Pc) {
    !(pc.Idle? || pc.Uncached? || pc.Returned? || pc.Raised? || pc.Dead?)
  }

  predicate Finished(pc: Pc) { pc.Returned? || pc.Raised? || pc.Dead? }

  /** An insert of this caller is in an open transaction. */
  predicate OpenInsert(pc: Pc) { (pc.Inserted? || pc.Unlocked?) && pc.wrote }

  /** compute() has returned and its row is not committed yet. */
  predicate Uncommitted(pc: Pc) { pc.Computed? || pc.Inserted? || pc.Unlocked? }

  function Acquired(locks: map<Key, Held>, k: Key, conn: Conn): map<Key, Held> {
    locks[k := Held(conn, if k in locks then locks[k].depth + 1 else 1)]
  }

  /** pg_advisory_unlock: one grant less, and no effect for a session without the lock. */
  function Released(locks: map<Key, Held>, k: Key, conn: Conn): map<Key, Held> {
    if k !in locks || locks[k].session != conn then locks
    else if locks[k].depth > 1 then locks[k := Held(conn, (locks[k].depth - 1) as nat)]
    else locks - {k}
  }

  predicate CanUnlock(order: Order, pc: Pc) {
    pc.Hit? || pc.Failed? || pc.Committed? || (order.UnlockThenCommit? && pc.Inserted?)
  }

  predicate CanCommit(order: Order, pc: Pc) {
    if order.CommitThenUnlock? then pc.Inserted? else pc.Unlocked?
  }

  predicate Enabled(cfg: Config, s: State, a: Action) {
    if a.Crash? then
      exists c | 0 <= c < |s.workers| :: cfg.replica(c) == a.r && !Finished(s.workers[c].pc)
    else
      a.c < |s.workers| &&
      var pc := s.workers[a.c].pc;
      var t := cfg.taskRef(a.c);
      match a
      case BeginUncached(c) => pc.Idle? && t == ""
      case Borrow(c, conn) =>
        && pc.Idle? && t != "" && conn.home == cfg.replica(c)
        && forall d | 0 <= d < |s.workers| :: HasConn(s.workers[d].pc) ==> s.workers[d].conn != conn
      case Lock(c) =>
        pc.Connected? && (cfg.KeyOf(c) in s.locks ==> s.locks[cfg.KeyOf(c)].session == s.workers[c].conn)
      case Select(c) => pc.Locked?
      case Finish(c, _) => pc.Computing? || pc.Uncached?
      case Insert(c) =>
        pc.Computed? && forall d | 0 <= d < |s.workers| :: cfg.taskRef(d) == t ==> !OpenInsert(s.workers[d].pc)
      case Commit(c) => CanCommit(cfg.order, pc)
      case Unlock(c) => CanUnlock(cfg.order, pc)
      case PutBack(c) => pc.HitUnlocked? || pc.Stored? || pc.FailedUnlocked?
  }

  function Moved(s: State, c: nat, pc: Pc): State
    requires c < |s.workers|
  {
    s.(workers := s.workers[c := s.workers[c].(pc := pc)])
  }

  function Fate(cfg: Config, r: Replica, c: nat, w: Worker): Worker {
    if cfg.replica(c) == r && !Finished(w.pc) then w.(pc := Dead) else w
  }

  function AfterCrash(cfg: Config, s: State, r: Replica): State {
    s.(workers := seq(|s.workers|, c requires 0 <= c < |s.workers| => Fate(cfg, r, c, s.workers[c])),
       pool := (set conn | conn in s.pool && conn.home != r),
       locks := (map k | k in s.locks && s.locks[k].session.home != r :: s.locks[k]),
       lost := s.lost + (set c | c in s.produced && c < |s.workers| && cfg.replica(c) == r
                                 && cfg.taskRef(c) != "" && Uncommitted(s.workers[c].pc)))
  }

  function WithRow(s: State, t: string, r: Response, wrote: bool): State {
    if wrote then s.(table := s.table[t := r]) else s
  }

  function Apply(cfg: Config, s: State, a: Action): State
    requires Enabled(cfg, s, a)
  {
    if a.Crash? then AfterCrash(cfg, s, a.r)
    else
      var w := s.workers[a.c];
      var t := cfg.taskRef(a.c);
      match a
      case BeginUncached(c) => Moved(s, c, Uncached)
      case Borrow(c, conn) =>
        s.(workers := s.workers[c := Worker(Connected, conn)], pool := s.pool - {conn})
      case Lock(c) =>
        Moved(s, c, Locked).(locks := Acquired(s.locks, cfg.KeyOf(c), w.conn))
      case Select(c) =>
        Moved(s, c, if t in s.table then Hit(s.table[t]) else Computing)
      case Finish(c, outcome) =>
        (match outcome
         case Some(r) =>
           Moved(s, c, if w.pc.Uncached? then Returned(r, false) else Computed(r))
           .(produced := s.produced[c := r])
         case None =>
           Moved(s, c, if w.pc.Uncached? then Raised else Failed))
      case Insert(c) =>
        Moved(s, c, Inserted(w.pc.r, t !in s.table))
      case Commit(c) =>
        WithRow(Moved(s, c, if w.pc.Inserted? then Committed(w.pc.r) else Stored(w.pc.r)), t, w.pc.r, w.pc.wrote)
      case Unlock(c) =>
        Moved(s, c, match w.pc
                    case Hit(r) => HitUnlocked(r)
                    case Committed(r) => Stored(r)
                    case Inserted(r, wrote) => Unlocked(r, wrote)
                    case _ => FailedUnlocked)
        .(locks := Released(s.locks, cfg.KeyOf(c), w.conn))
      case PutBack(c) =>
        Moved(s, c, match w.pc
                    case HitUnlocked(r) => Returned(r, true)
                    case Stored(r) => Returned(r, false)
                    case _ => Raised)
        .(pool := s.pool + {w.conn})
  }

  /** n callers that have not started, nothing borrowed or locked, and whatever
      rows earlier requests left in the table. */
  function Init(n: nat, rows: map<string, Response>): State {
    State(seq(n, _ => Worker(Idle, Conn(0, 0))), {}, map[], rows, map[], {})
  }

  // -- Runs -------------------------------------------------------------------

  ghost predicate Run(cfg: Config, s: State, acts: seq<Action>)
    decreases |acts|
  {
    acts != [] ==> Enabled(cfg, s, acts[0]) && Run(cfg, Apply(cfg, s, acts[0]), acts[1..])
  }

  ghost function Final(cfg: Config, s: State, acts: seq<Action>): State
    requires Run(cfg, s, acts)
    decreases |acts|
  {
    if acts == [] then s else Final(cfg, Apply(cfg, s, acts[0]), acts[1..])
  }

  ghost predicate CrashFree(acts: seq<Action>) {
    forall i | 0 <= i < |acts| :: !acts[i].Crash?
  }

  lemma {:induction false} RunAppend(cfg: Config, s: State, acts: seq<Action>, more: seq<Action>)
    requires Run(cfg, s, acts)
    ensures Run(cfg, s, acts + more) <==> Run(cfg, Final(cfg, s, acts), more)
    ensures Run(cfg, s, acts + more) ==>
              Final(cfg, s, acts + more) == Final(cfg, Final(cfg, s, acts), more)
    decreases |acts|
  {
    if acts == [] {
      assert acts + more == more;
    } else {
      assert (acts + more)[1..] == acts[1..] + more;
      RunAppend(cfg, Apply(cfg, s, acts[0]), acts[1..], more);
    }
  }
}
