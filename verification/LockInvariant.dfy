/** What every step of the protocol keeps, for the order commit-then-unlock. */
module LockInvariant {
  import opened Common
  import opened GatewayTypes
  import opened LockProtocol

  /** The lock of this caller's task_ref is held. */
  predicate Holding(pc: Pc) {
    pc.Locked? || pc.Hit? || pc.Computing? || pc.Computed? || pc.Inserted? || pc.Committed? || pc.Failed?
  }

  /** The caller has looked, found nothing, and not yet committed a row itself. */
  predicate Missed(pc: Pc) { pc.Computing? || pc.Computed? || pc.Inserted? }

  /** The caller knows the stored row. */
  predicate Knows(pc: Pc) {
    pc.Hit? || pc.HitUnlocked? || pc.Committed? || pc.Stored? || pc.Returned?
  }

  /** The caller's own compute() has returned. */
  predicate Succeeded(pc: Pc) {
    pc.Computed? || pc.Inserted? || pc.Committed? || pc.Stored? || (pc.Returned? && !pc.hit)
  }

  ghost predicate ConnOf(cfg: Config, s: State, c: nat)
    requires c < |s.workers|
  {
    HasConn(s.workers[c].pc) ==>
      && cfg.taskRef(c) != ""
      && s.workers[c].conn.home == cfg.replica(c)
      && s.workers[c].conn !in s.pool
  }

  ghost predicate Apart(s: State, c: nat, d: nat)
    requires c < |s.workers| && d < |s.workers|
  {
    c != d && HasConn(s.workers[c].pc) && HasConn(s.workers[d].pc) ==> s.workers[c].conn != s.workers[d].conn
  }

  /** Borrowed connections are distinct, belong to the borrower's replica and are
      out of the pool. */
  ghost predicate Conns(cfg: Config, s: State) {
    && (forall c | 0 <= c < |s.workers| :: ConnOf(cfg, s, c))
    && (forall c, d | 0 <= c < |s.workers| && 0 <= d < |s.workers| :: Apart(s, c, d))
  }

  ghost predicate LockOf(cfg: Config, s: State, c: nat)
    requires c < |s.workers|
  {
    Holding(s.workers[c].pc) ==>
      cfg.KeyOf(c) in s.locks && s.locks[cfg.KeyOf(c)] == Held(s.workers[c].conn, 1)
  }

  ghost predicate InUse(cfg: Config, s: State, k: Key) {
    exists c | 0 <= c < |s.workers| :: Holding(s.workers[c].pc) && cfg.KeyOf(c) == k
  }

  /** A lock is held once, by the session of the one caller that is using it. */
  ghost predicate Locks(cfg: Config, s: State) {
    && (forall c | 0 <= c < |s.workers| :: LockOf(cfg, s, c))
    && (forall k | k in s.locks :: InUse(cfg, s, k))
  }

  ghost predicate RowOf(cfg: Config, s: State, c: nat)
    requires c < |s.workers|
  {
    var pc := s.workers[c].pc;
    var t := cfg.taskRef(c);
    t != "" ==>
      && !pc.Unlocked? && !pc.Uncached?
      && (Missed(pc) ==> t !in s.table)
      && (pc.Inserted? ==> pc.wrote)
      && (Knows(pc) ==> t in s.table && s.table[t] == pc.r)
  }

  /** What a caller knows about the row of its task_ref is true. */
  ghost predicate Rows(cfg: Config, s: State) {
    forall c | 0 <= c < |s.workers| :: RowOf(cfg, s, c)
  }

  ghost predicate Owns(cfg: Config, s: State, c: nat, t: string) {
    c in s.produced && c !in s.lost && cfg.taskRef(c) == t
  }

  /** What is recorded about this caller's own compute() agrees with where it is. */
  ghost predicate RecordOf(cfg: Config, s: State, c: nat)
    requires c < |s.workers|
  {
    var pc := s.workers[c].pc;
    && (Succeeded(pc) ==> c in s.produced && s.produced[c] == pc.r)
    && (c in s.produced ==> Succeeded(pc) || pc.Dead?)
    && (c in s.lost ==> c in s.produced && cfg.taskRef(c) != "" && pc.Dead?)
  }

  ghost predicate Records(cfg: Config, s: State) {
    && (forall c | 0 <= c < |s.workers| :: RecordOf(cfg, s, c))
    && (forall c | c in s.produced :: c < |s.workers|)
    && (forall c | c in s.lost :: c < |s.workers|)
  }

  /** A surviving result is on its way into the table, under the lock, or in it. */
  ghost predicate ResultOf(cfg: Config, s: State, rows: map<string, Response>, c: nat)
    requires c < |s.workers|
  {
    var t := cfg.taskRef(c);
    c in s.produced && t != "" ==>
      && t !in rows
      && (c in s.lost || s.workers[c].pc.Computed? || s.workers[c].pc.Inserted?
          || (t in s.table && s.table[t] == s.produced[c]))
  }

  /** Every row was there before or is the surviving result of some caller. */
  ghost predicate SourceOf(cfg: Config, s: State, rows: map<string, Response>, t: string)
    requires t in s.table
  {
    if t in rows then s.table[t] == rows[t]
    else exists c :: Owns(cfg, s, c, t) && s.produced[c] == s.table[t]
  }

  ghost predicate Results(cfg: Config, s: State, rows: map<string, Response>) {
    && (forall c | 0 <= c < |s.workers| :: ResultOf(cfg, s, rows, c))
    && (forall t | t in s.table :: SourceOf(cfg, s, rows, t))
    && rows.Keys <= s.table.Keys
  }

  ghost predicate Rivals(cfg: Config, s: State, c: nat, d: nat) {
    cfg.taskRef(c) != "" && Owns(cfg, s, c, cfg.taskRef(c)) && Owns(cfg, s, d, cfg.taskRef(c))
  }

  /** No task_ref has two surviving results. */
  ghost predicate OneOwner(cfg: Config, s: State) {
    forall c, d :: Rivals(cfg, s, c, d) ==> c == d
  }

  ghost predicate Inv(cfg: Config, s: State, rows: map<string, Response>) {
    && Conns(cfg, s) && Locks(cfg, s) && Rows(cfg, s)
    && Records(cfg, s) && Results(cfg, s, rows) && OneOwner(cfg, s)
  }

  /** Two callers that both hold their locks do not share a lock key. */
  lemma Exclusion(cfg: Config, s: State, c: nat, d: nat)
    requires Conns(cfg, s) && Locks(cfg, s)
    requires c < |s.workers| && d < |s.workers|
    requires Holding(s.workers[c].pc) && Holding(s.workers[d].pc) && cfg.KeyOf(c) == cfg.KeyOf(d)
    ensures c == d
  {
    assert LockOf(cfg, s, c) && LockOf(cfg, s, d) && Apart(s, c, d);
  }

  lemma InitInv(cfg: Config, n: nat, rows: map<string, Response>)
    ensures Inv(cfg, Init(n, rows), rows)
  {
  }

  lemma ConnOfStep(cfg: Config, s: State, a: Action, c: nat)
    requires Conns(cfg, s) && Enabled(cfg, s, a) && c < |s.workers|
    ensures |Apply(cfg, s, a).workers| == |s.workers| && ConnOf(cfg, Apply(cfg, s, a), c)
  {
    assert ConnOf(cfg, s, c);
    if !a.Crash? { assert Apart(s, a.c, c) && ConnOf(cfg, s, a.c); }
  }

  lemma ApartStep(cfg: Config, s: State, a: Action, c: nat, d: nat)
    requires Enabled(cfg, s, a) && !a.Crash? && c < |s.workers| && d < |s.workers| && Apart(s, c, d)
    ensures |Apply(cfg, s, a).workers| == |s.workers| && Apart(Apply(cfg, s, a), c, d)
  {
  }

  lemma ApartCrash(cfg: Config, s: State, a: Action, c: nat, d: nat)
    requires Enabled(cfg, s, a) && a.Crash? && c < |s.workers| && d < |s.workers| && Apart(s, c, d)
    ensures |Apply(cfg, s, a).workers| == |s.workers| && Apart(Apply(cfg, s, a), c, d)
  {
  }

  lemma ConnsStep(cfg: Config, s: State, a: Action)
    requires Conns(cfg, s) && Enabled(cfg, s, a)
    ensures Conns(cfg, Apply(cfg, s, a))
  {
    forall c | 0 <= c < |s.workers| ensures ConnOf(cfg, Apply(cfg, s, a), c) {
      ConnOfStep(cfg, s, a, c);
    }
    forall c, d | 0 <= c < |s.workers| && 0 <= d < |s.workers| ensures Apart(Apply(cfg, s, a), c, d) {
      assert Apart(s, c, d);
      if a.Crash? { ApartCrash(cfg, s, a, c, d); } else { ApartStep(cfg, s, a, c, d); }
    }
    SameCallersStep(cfg, s, a);
  }

  lemma SameCallersStep(cfg: Config, s: State, a: Action)
    requires Enabled(cfg, s, a)
    ensures |Apply(cfg, s, a).workers| == |s.workers|
  {
  }

  /** The callers that do not take the step stay as they were. */
  lemma Others(cfg: Config, s: State, a: Action)
    requires Enabled(cfg, s, a) && !a.Crash?
    ensures |Apply(cfg, s, a).workers| == |s.workers|
    ensures Apply(cfg, s, a).workers == s.workers[a.c := Apply(cfg, s, a).workers[a.c]]
    ensures forall d | 0 <= d < |s.workers| && d != a.c :: Apply(cfg, s, a).workers[d] == s.workers[d]
  {
  }

  /** A caller waiting for its lock never already has it in its own session. */
  lemma NotReentrant(cfg: Config, s: State, c: nat)
    requires Conns(cfg, s) && Locks(cfg, s) && c < |s.workers| && s.workers[c].pc.Connected?
    ensures cfg.KeyOf(c) in s.locks ==> s.locks[cfg.KeyOf(c)].session != s.workers[c].conn
  {
    if cfg.KeyOf(c) in s.locks {
      assert InUse(cfg, s, cfg.KeyOf(c));
      var d :| 0 <= d < |s.workers| && Holding(s.workers[d].pc) && cfg.KeyOf(d) == cfg.KeyOf(c);
      assert LockOf(cfg, s, d) && Apart(s, c, d);
    }
  }

  lemma LockOfSelf(cfg: Config, s: State, a: Action)
    requires cfg.order.CommitThenUnlock? && Conns(cfg, s) && Locks(cfg, s) && Rows(cfg, s)
    requires Enabled(cfg, s, a) && !a.Crash?
    ensures LockOf(cfg, Apply(cfg, s, a), a.c)
  {
    if a.Lock? { NotReentrant(cfg, s, a.c); }
    assert LockOf(cfg, s, a.c);
  }

  lemma LockOfOther(cfg: Config, s: State, a: Action, d: nat)
    requires cfg.order.CommitThenUnlock? && Conns(cfg, s) && Locks(cfg, s)
    requires Enabled(cfg, s, a) && !a.Crash? && d < |s.workers| && d != a.c
    ensures LockOf(cfg, Apply(cfg, s, a), d)
  {
    var s' := Apply(cfg, s, a);
    assert s'.workers[d] == s.workers[d];
    if Holding(s.workers[d].pc) {
      assert LockOf(cfg, s, d) && Apart(s, a.c, d);
      if a.Lock? {
        assert s.workers[d].conn != s.workers[a.c].conn;
      } else if a.Unlock? {
        assert Holding(s.workers[a.c].pc);
        if cfg.KeyOf(a.c) == cfg.KeyOf(d) { Exclusion(cfg, s, a.c, d); }
      }
    }
  }

  lemma InUseStep(cfg: Config, s: State, a: Action, k: Key)
    requires cfg.order.CommitThenUnlock? && Conns(cfg, s) && Locks(cfg, s)
    requires Enabled(cfg, s, a) && !a.Crash? && k in Apply(cfg, s, a).locks
    ensures InUse(cfg, Apply(cfg, s, a), k)
  {
    Others(cfg, s, a);
    var s' := Apply(cfg, s, a);
    var c := a.c;
    if k in s.locks {
      assert InUse(cfg, s, k);
      c :| 0 <= c < |s.workers| && Holding(s.workers[c].pc) && cfg.KeyOf(c) == k;
      assert LockOf(cfg, s, c);
    }
    assert Holding(s'.workers[c].pc) && cfg.KeyOf(c) == k;
  }

  lemma LocksCrash(cfg: Config, s: State, a: Action)
    requires Conns(cfg, s) && Locks(cfg, s) && Enabled(cfg, s, a) && a.Crash?
    ensures Locks(cfg, Apply(cfg, s, a))
  {
    var s' := Apply(cfg, s, a);
    forall k | k in s'.locks ensures InUse(cfg, s', k) {
      assert InUse(cfg, s, k);
      var c :| 0 <= c < |s.workers| && Holding(s.workers[c].pc) && cfg.KeyOf(c) == k;
      assert LockOf(cfg, s, c) && ConnOf(cfg, s, c) && s'.workers[c] == s.workers[c];
    }
    forall c | 0 <= c < |s'.workers| ensures LockOf(cfg, s', c) {
      assert LockOf(cfg, s, c) && ConnOf(cfg, s, c);
    }
  }

  lemma LocksStep(cfg: Config, s: State, a: Action)
    requires cfg.order.CommitThenUnlock? && Conns(cfg, s) && Locks(cfg, s) && Rows(cfg, s) && Enabled(cfg, s, a)
    ensures Locks(cfg, Apply(cfg, s, a))
  {
    if a.Crash? {
      LocksCrash(cfg, s, a);
    } else {
      forall c | 0 <= c < |s.workers| ensures LockOf(cfg, Apply(cfg, s, a), c) {
        if c == a.c { LockOfSelf(cfg, s, a); } else { LockOfOther(cfg, s, a, c); }
      }
      forall k | k in Apply(cfg, s, a).locks ensures InUse(cfg, Apply(cfg, s, a), k) {
        InUseStep(cfg, s, a, k);
      }
    }
  }

  lemma RowOfSelf(cfg: Config, s: State, a: Action)
    requires cfg.order.CommitThenUnlock? && Enabled(cfg, s, a) && !a.Crash? && RowOf(cfg, s, a.c)
    ensures |Apply(cfg, s, a).workers| == |s.workers| && RowOf(cfg, Apply(cfg, s, a), a.c)
  {
  }

  lemma RowOfCrash(cfg: Config, s: State, a: Action, c: nat)
    requires Enabled(cfg, s, a) && a.Crash? && c < |s.workers| && RowOf(cfg, s, c)
    ensures |Apply(cfg, s, a).workers| == |s.workers| && RowOf(cfg, Apply(cfg, s, a), c)
  {
  }

  lemma RowOfOther(cfg: Config, s: State, a: Action, d: nat)
    requires cfg.order.CommitThenUnlock? && Conns(cfg, s) && Locks(cfg, s) && Rows(cfg, s)
    requires Enabled(cfg, s, a) && !a.Crash? && d < |s.workers| && d != a.c
    ensures RowOf(cfg, Apply(cfg, s, a), d)
  {
    assert Apply(cfg, s, a).workers[d] == s.workers[d];
    assert RowOf(cfg, s, d) && RowOf(cfg, s, a.c);
    if a.Commit? && Missed(s.workers[d].pc) && cfg.taskRef(d) == cfg.taskRef(a.c) {
      Exclusion(cfg, s, a.c, d);
    }
  }

  lemma RowsStep(cfg: Config, s: State, a: Action)
    requires cfg.order.CommitThenUnlock? && Conns(cfg, s) && Locks(cfg, s) && Rows(cfg, s) && Enabled(cfg, s, a)
    ensures Rows(cfg, Apply(cfg, s, a))
  {
    forall c | 0 <= c < |s.workers| ensures RowOf(cfg, Apply(cfg, s, a), c) {
      assert RowOf(cfg, s, c);
      if a.Crash? { RowOfCrash(cfg, s, a, c); } else if c == a.c { RowOfSelf(cfg, s, a); } else { RowOfOther(cfg, s, a, c); }
    }
    SameCallersStep(cfg, s, a);
  }

  /** A committed row is never changed or removed. */
  lemma RowStays(cfg: Config, s: State, a: Action, t: string)
    requires cfg.order.CommitThenUnlock? && Conns(cfg, s) && Rows(cfg, s) && Enabled(cfg, s, a) && t in s.table
    ensures t in Apply(cfg, s, a).table && Apply(cfg, s, a).table[t] == s.table[t]
  {
    if a.Commit? { assert RowOf(cfg, s, a.c) && ConnOf(cfg, s, a.c); }
  }

  lemma RecordOfCrash(cfg: Config, s: State, a: Action, c: nat)
    requires Enabled(cfg, s, a) && a.Crash? && c < |s.workers| && RecordOf(cfg, s, c) && RowOf(cfg, s, c)
    ensures |Apply(cfg, s, a).workers| == |s.workers| && RecordOf(cfg, Apply(cfg, s, a), c)
  {
  }

  lemma RecordOfSelf(cfg: Config, s: State, a: Action)
    requires cfg.order.CommitThenUnlock? && Enabled(cfg, s, a) && !a.Crash? && RecordOf(cfg, s, a.c) && RowOf(cfg, s, a.c)
    ensures |Apply(cfg, s, a).workers| == |s.workers| && RecordOf(cfg, Apply(cfg, s, a), a.c)
  {
  }

  lemma RecordOfStep(cfg: Config, s: State, a: Action, c: nat)
    requires cfg.order.CommitThenUnlock? && Rows(cfg, s) && Records(cfg, s) && Enabled(cfg, s, a) && c < |s.workers|
    ensures |Apply(cfg, s, a).workers| == |s.workers| && RecordOf(cfg, Apply(cfg, s, a), c)
  {
    assert RecordOf(cfg, s, c) && RowOf(cfg, s, c);
    if a.Crash? {
      RecordOfCrash(cfg, s, a, c);
    } else if a.c == c {
      RecordOfSelf(cfg, s, a);
    } else {
      Others(cfg, s, a);
    }
  }

  lemma RecordsStep(cfg: Config, s: State, a: Action)
    requires cfg.order.CommitThenUnlock? && Rows(cfg, s) && Records(cfg, s) && Enabled(cfg, s, a)
    ensures Records(cfg, Apply(cfg, s, a))
  {
    forall c | 0 <= c < |s.workers| ensures RecordOf(cfg, Apply(cfg, s, a), c) {
      RecordOfStep(cfg, s, a, c);
    }
    SameCallersStep(cfg, s, a);
  }

  lemma ResultOfStep(cfg: Config, s: State, a: Action, rows: map<string, Response>, c: nat)
    requires cfg.order.CommitThenUnlock? && Inv(cfg, s, rows) && Enabled(cfg, s, a) && c < |s.workers|
    ensures ResultOf(cfg, Apply(cfg, s, a), rows, c)
  {
    assert ResultOf(cfg, s, rows, c) && RowOf(cfg, s, c) && RecordOf(cfg, s, c);
    if !a.Crash? { assert RowOf(cfg, s, a.c); }
  }

  /** A surviving result stays recorded and surviving, if its row is there. */
  lemma OwnerStays(cfg: Config, s: State, a: Action, c: nat, t: string)
    requires cfg.order.CommitThenUnlock? && Rows(cfg, s) && Records(cfg, s) && Enabled(cfg, s, a)
    requires Owns(cfg, s, c, t) && t in s.table
    ensures Owns(cfg, Apply(cfg, s, a), c, t) && Apply(cfg, s, a).produced[c] == s.produced[c]
  {
    assert RowOf(cfg, s, c) && RecordOf(cfg, s, c);
  }

  lemma SourceOfStep(cfg: Config, s: State, a: Action, rows: map<string, Response>, t: string)
    requires cfg.order.CommitThenUnlock? && Inv(cfg, s, rows) && Enabled(cfg, s, a)
    requires t in Apply(cfg, s, a).table
    ensures SourceOf(cfg, Apply(cfg, s, a), rows, t)
  {
    var s' := Apply(cfg, s, a);
    if t in s.table {
      assert SourceOf(cfg, s, rows, t);
      RowStays(cfg, s, a, t);
      if t !in rows {
        var c :| Owns(cfg, s, c, t) && s.produced[c] == s.table[t];
        assert RecordOf(cfg, s, c) && RowOf(cfg, s, c);
        OwnerStays(cfg, s, a, c, t);
      }
    } else {
      assert RecordOf(cfg, s, a.c) && ResultOf(cfg, s, rows, a.c) && ConnOf(cfg, s, a.c);
      assert Owns(cfg, s', a.c, t) && s'.produced[a.c] == s'.table[t];
    }
  }

  /** While a caller computes, nobody owns a surviving result for its task_ref. */
  lemma SoleOwner(cfg: Config, s: State, rows: map<string, Response>, c: nat, d: nat)
    requires Inv(cfg, s, rows) && c < |s.workers| && s.workers[c].pc.Computing? && cfg.taskRef(c) != ""
    ensures !Owns(cfg, s, d, cfg.taskRef(c))
  {
    if Owns(cfg, s, d, cfg.taskRef(c)) {
      assert RowOf(cfg, s, c) && ResultOf(cfg, s, rows, d) && RecordOf(cfg, s, c);
      Exclusion(cfg, s, c, d);
      assert false;
    }
  }

  lemma OneOwnerStep(cfg: Config, s: State, a: Action, rows: map<string, Response>)
    requires cfg.order.CommitThenUnlock? && Inv(cfg, s, rows) && Enabled(cfg, s, a)
    ensures OneOwner(cfg, Apply(cfg, s, a))
  {
    var s' := Apply(cfg, s, a);
    forall c, d | Rivals(cfg, s', c, d) ensures c == d {
      if a.Finish? { assert RowOf(cfg, s, a.c); }
      if Rivals(cfg, s, c, d) {
      } else if Owns(cfg, s, d, cfg.taskRef(c)) {
        SoleOwner(cfg, s, rows, a.c, d);
      } else {
        assert d == a.c;
        if c != d { SoleOwner(cfg, s, rows, a.c, c); }
      }
    }
  }

  /** Every step keeps the invariant. */
  lemma Step(cfg: Config, s: State, a: Action, rows: map<string, Response>)
    requires cfg.order.CommitThenUnlock? && Inv(cfg, s, rows) && Enabled(cfg, s, a)
    ensures Inv(cfg, Apply(cfg, s, a), rows)
  {
    ConnsStep(cfg, s, a);
    LocksStep(cfg, s, a);
    RowsStep(cfg, s, a);
    RecordsStep(cfg, s, a);
    OneOwnerStep(cfg, s, a, rows);
    forall c | 0 <= c < |s.workers| ensures ResultOf(cfg, Apply(cfg, s, a), rows, c) {
      ResultOfStep(cfg, s, a, rows, c);
    }
    forall t | t in Apply(cfg, s, a).table ensures SourceOf(cfg, Apply(cfg, s, a), rows, t) {
      SourceOfStep(cfg, s, a, rows, t);
    }
  }

  lemma {:induction false} RunInv(cfg: Config, s: State, acts: seq<Action>, rows: map<string, Response>)
    requires cfg.order.CommitThenUnlock? && Inv(cfg, s, rows) && Run(cfg, s, acts)
    ensures Inv(cfg, Final(cfg, s, acts), rows)
    decreases |acts|
  {
    if acts != [] {
      Step(cfg, s, acts[0], rows);
      RunInv(cfg, Apply(cfg, s, acts[0]), acts[1..], rows);
    }
  }
}
