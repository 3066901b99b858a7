/** What handle_completion guarantees about payment over every interleaving, crashes
    included: refusals and hits cost nothing, a bill is whole unless it was torn, and a
    retried task is paid for once. */
module GatewayTheorems {
  import opened Common
  import opened GatewayTypes
  import opened Repository
  import opened GatewayProtocol
  import opened GatewayInvariant
  import L = LockProtocol
  import LI = LockInvariant
  import LT = LockTheorems

  // -- The lock protocol underneath ----------------------------------------------

  /** The cache steps of a gateway run are a run of the lock protocol, with the same
      crashes. */
  lemma {:induction false} Projection(setup: Setup, s: State, acts: seq<Action>) returns (l: seq<L.Action>)
    requires Run(setup, s, acts)
    ensures L.Run(setup.lock, s.lock, l) && (CrashFree(acts) ==> L.CrashFree(l))
    ensures L.Final(setup.lock, s.lock, l) == Final(setup, s, acts).lock
    decreases |acts|
  {
    if acts == [] {
      l := [];
    } else {
      var next := Apply(setup, s, acts[0]);
      var rest := Projection(setup, next, acts[1..]);
      if acts[0].Cache? || acts[0].Leave? {
        l := [CacheAction(s, acts[0])] + rest;
        assert l[1..] == rest;
      } else {
        l := rest;
      }
    }
  }

  ghost function After(setup: Setup, n: nat, rows: map<string, Response>, acts: seq<Action>): State
    requires Run(setup, Init(n, rows), acts)
  {
    Final(setup, Init(n, rows), acts)
  }

  lemma AfterInv(setup: Setup, n: nat, rows: map<string, Response>, acts: seq<Action>)
    requires setup.lock.order.CommitThenUnlock? && Run(setup, Init(n, rows), acts)
    ensures Inv(setup, After(setup, n, rows, acts), rows)
  {
    InitInv(setup, n, rows);
    RunInv(setup, Init(n, rows), acts, rows);
  }

  ghost predicate Reached(setup: Setup, n: nat, rows: map<string, Response>, acts: seq<Action>, s: State) {
    Run(setup, Init(n, rows), acts) && s == After(setup, n, rows, acts)
  }

  lemma Extend(setup: Setup, n: nat, rows: map<string, Response>, acts: seq<Action>, s: State, a: Action)
    requires Reached(setup, n, rows, acts, s) && Enabled(setup, s, a)
    ensures Reached(setup, n, rows, acts + [a], Apply(setup, s, a))
  {
    RunExtends(setup, Init(n, rows), acts, a);
  }

  // -- Who pays ----------------------------------------------------------------------

  /** A 400 or a 429 came without a provider call and left no cost row; the decision
      behind a firewall block or a 429 is on file, the latter under the id returned. */
  lemma RefusalsCostNothing(setup: Setup, n: nat, rows: map<string, Response>, acts: seq<Action>, i: nat)
    requires setup.lock.order.CommitThenUnlock? && Run(setup, Init(n, rows), acts)
    requires i < |After(setup, n, rows, acts).stages| == |After(setup, n, rows, acts).lock.workers|
    requires var reply := ReplyTo(After(setup, n, rows, acts), i); reply.Status400? || reply.Status429?
    ensures var s := After(setup, n, rows, acts);
            var reply := ReplyTo(s, i);
            && i !in s.called && RowsOf(i, s.costs) == [] && i !in s.lock.produced
            && (reply.Status429? ==>
                  && reply.gate < |s.gates|
                  && s.gates[reply.gate] == Gate(reply.gate, setup.request(i).run, BudgetGate, Escalated))
            && (reply == Status400(RedactionBlocked) ==> BlockRecorded(setup, s, i))
  {
    var s := After(setup, n, rows, acts);
    AfterInv(setup, n, rows, acts);
    assert StageOf(setup, s, i) && BillOf(setup, s, i);
  }

  /** A cache hit calls no provider and adds no cost row. */
  lemma HitsCostNothing(setup: Setup, n: nat, rows: map<string, Response>, acts: seq<Action>, i: nat)
    requires setup.lock.order.CommitThenUnlock? && Run(setup, Init(n, rows), acts)
    requires i < |After(setup, n, rows, acts).stages| == |After(setup, n, rows, acts).lock.workers|
    requires ReplyTo(After(setup, n, rows, acts), i).Status200? && ReplyTo(After(setup, n, rows, acts), i).hit
    ensures var s := After(setup, n, rows, acts);
            i !in s.called && RowsOf(i, s.costs) == []
  {
    var s := After(setup, n, rows, acts);
    AfterInv(setup, n, rows, acts);
    assert StageOf(setup, s, i) && BillOf(setup, s, i) && LI.RecordOf(setup.lock, s.lock, i);
  }

  /** A computed answer was paid for by its own request, and carries a cost id exactly
      when all three rows of its bill were written, namely that of the usd row. */
  lemma AnswersArePaid(setup: Setup, n: nat, rows: map<string, Response>, acts: seq<Action>, i: nat)
    requires setup.lock.order.CommitThenUnlock? && Run(setup, Init(n, rows), acts)
    requires i < |After(setup, n, rows, acts).stages| == |After(setup, n, rows, acts).lock.workers|
    requires ReplyTo(After(setup, n, rows, acts), i).Status200? && !ReplyTo(After(setup, n, rows, acts), i).hit
    ensures var s := After(setup, n, rows, acts);
            var r := ReplyTo(s, i).r;
            && r.id == i && i in s.called && !r.budget.HardBreach? && |RowsOf(i, s.costs)| <= 3
            && (r.costId.Some? <==> |RowsOf(i, s.costs)| == 3)
            && (r.costId.Some? ==> UsdRowOf(s, i, r.costId.value))
  {
    var s := After(setup, n, rows, acts);
    AfterInv(setup, n, rows, acts);
    assert StageOf(setup, s, i) && BillOf(setup, s, i) && LI.RecordOf(setup.lock, s.lock, i);
  }

  // -- Whole bills and torn ones -----------------------------------------------------

  function Full(stage: Stage): nat { if RowsWritten(stage) == 3 then 1 else 0 }

  /** Some but not all rows of a bill. */
  predicate Partial(stage: Stage) { 0 < RowsWritten(stage) < 3 }

  /** A bill being written, with a row already there. */
  ghost predicate Midway(s: State, i: nat) {
    i < |s.stages| && s.stages[i].Metering? && s.stages[i].rows > 0 && InCompute(s, i)
  }

  /** This step leaves the bill of request i unfinished for good: a row after the first
      fails to be written, or the replica that is writing it crashes. */
  ghost predicate TearsBill(setup: Setup, s: State, a: Action, i: nat) {
    Midway(s, i) && if Crashes(a) then setup.lock.replica(i) == a.a.r else a == Meter(i, false)
  }

  ghost predicate Tears(setup: Setup, s: State, a: Action) {
    exists i :: TearsBill(setup, s, a, i)
  }

  /** No step of the run tears a bill. */
  ghost predicate NeverTears(setup: Setup, s: State, acts: seq<Action>)
    requires Run(setup, s, acts)
    decreases |acts|
  {
    acts != [] ==> !Tears(setup, s, acts[0]) && NeverTears(setup, Apply(setup, s, acts[0]), acts[1..])
  }

  /** This bill is partial and nobody will go on with it. */
  ghost predicate Torn(s: State, i: nat)
    requires i < |s.stages|
  {
    Partial(s.stages[i]) && (s.stages[i].Metered? || !Alive(s, i))
  }

  ghost predicate NoneTorn(s: State) { forall i | 0 <= i < |s.stages| :: !Torn(s, i) }

  lemma TornStep(setup: Setup, s: State, a: Action, i: nat)
    requires |s.stages| == |s.lock.workers| && Enabled(setup, s, a) && !Crashes(a)
    requires i < |s.stages| && StageOf(setup, s, i) && setup.lock.order.CommitThenUnlock?
    ensures |Apply(setup, s, a).stages| == |s.stages|
    ensures Torn(Apply(setup, s, a), i) <==> Torn(s, i) || TearsBill(setup, s, a, i)
  {
    if a.Cache? || a.Leave? {
      LI.Others(setup.lock, s.lock, CacheAction(s, a));
      if a.Cache? { CacheMoves(setup.lock, s.lock, a.a); }
    }
  }

  lemma TornCrash(setup: Setup, s: State, a: Action, i: nat)
    requires |s.stages| == |s.lock.workers| && Enabled(setup, s, a) && Crashes(a)
    requires i < |s.stages| && StageOf(setup, s, i)
    ensures |Apply(setup, s, a).stages| == |s.stages|
    ensures Torn(Apply(setup, s, a), i) <==> Torn(s, i) || TearsBill(setup, s, a, i)
  {
  }

  lemma NoneTornStep(setup: Setup, s: State, a: Action, rows: map<string, Response>)
    requires setup.lock.order.CommitThenUnlock? && Inv(setup, s, rows) && Enabled(setup, s, a)
    ensures NoneTorn(Apply(setup, s, a)) <==> NoneTorn(s) && !Tears(setup, s, a)
  {
    var s' := Apply(setup, s, a);
    forall i: nat | i < |s.stages|
      ensures |s'.stages| == |s.stages| && (Torn(s', i) <==> Torn(s, i) || TearsBill(setup, s, a, i))
    {
      assert StageOf(setup, s, i);
      if Crashes(a) { TornCrash(setup, s, a, i); } else { TornStep(setup, s, a, i); }
    }
    if Tears(setup, s, a) {
      var i :| TearsBill(setup, s, a, i);
      assert Torn(s', i);
    }
  }

  lemma {:induction false} RunTears(setup: Setup, s: State, acts: seq<Action>, rows: map<string, Response>)
    requires setup.lock.order.CommitThenUnlock? && Inv(setup, s, rows) && Run(setup, s, acts)
    ensures NoneTorn(Final(setup, s, acts)) <==> NoneTorn(s) && NeverTears(setup, s, acts)
    decreases |acts|
  {
    if acts != [] {
      NoneTornStep(setup, s, acts[0], rows);
      Step(setup, s, acts[0], rows);
      RunTears(setup, Apply(setup, s, acts[0]), acts[1..], rows);
    }
  }

  lemma {:induction false} CountFull(stages: seq<Stage>)
    requires forall i | 0 <= i < |stages| :: RowsWritten(stages[i]) <= 3
    ensures CountBy(RowsWritten, stages) >= 3 * CountBy(Full, stages)
    ensures CountBy(RowsWritten, stages) == 3 * CountBy(Full, stages)
            <==> forall i | 0 <= i < |stages| :: !Partial(stages[i])
  {
    if stages != [] {
      CountFull(stages[1..]);
      assert forall i | 0 < i < |stages| :: stages[i] == stages[1..][i - 1];
    }
  }

  /** Once every request is answered or dead, the costs table holds three rows per fully
      metered completion and nothing else exactly when no step of the run failed to
      write, or crashed before writing, a row after the first of its bill. */
  lemma CostsAreThreePerCompletion(setup: Setup, n: nat, rows: map<string, Response>, acts: seq<Action>)
    requires setup.lock.order.CommitThenUnlock? && Run(setup, Init(n, rows), acts)
    requires var s := After(setup, n, rows, acts);
             |s.stages| == |s.lock.workers| &&
             forall i | 0 <= i < |s.stages| :: ReplyTo(s, i) != NoReply || !Alive(s, i)
    ensures var s := After(setup, n, rows, acts);
            |s.costs| == 3 * CountBy(Full, s.stages) <==> NeverTears(setup, Init(n, rows), acts)
  {
    var s := After(setup, n, rows, acts);
    AfterInv(setup, n, rows, acts);
    InitInv(setup, n, rows);
    RunTears(setup, Init(n, rows), acts, rows);
    forall i | 0 <= i < |s.stages| ensures RowsWritten(s.stages[i]) <= 3 && (Partial(s.stages[i]) <==> Torn(s, i)) {
      assert BillOf(setup, s, i) && StageOf(setup, s, i);
    }
    CountFull(s.stages);
  }

  /** Nothing stands between this request and the budget check. */
  ghost predicate Eligible(setup: Setup, i: nat) {
    var q := setup.request(i);
    q.wellFormed && q.run != "" && !q.deliberate && q.tier.Some? && !q.blocked && setup.lock.taskRef(i) == ""
  }

  /** A run with a torn bill: the tokens row of request 0 is not written, the request is
      answered 200 all the same, and its usd row stands alone. */
  lemma TornBill(setup: Setup, n: nat, rows: map<string, Response>, usage: Usage) returns (acts: seq<Action>, s: State)
    requires n >= 1 && Eligible(setup, 0) && setup.policy.LimitFor(setup.Agent(0)) > 0.0
    ensures acts == [Check(0), Cache(L.BeginUncached(0)), Budget(0), Call(0, Some(usage)),
                     Meter(0, true), Meter(0, false), Leave(0)]
    ensures Reached(setup, n, rows, acts, s) && |s.stages| == |s.lock.workers| == n
    ensures var reply := ReplyTo(s, 0); reply.Status200? && !reply.hit && reply.r.costId.None?
    ensures s.costs == [Entry(0, Cost(0, setup.request(0).run, usage.provider, Usd, usage.usd))]
  {
    acts, s := Admits(setup, n, rows, [], Init(n, rows), 0);
    acts, s := PaysFirst(setup, n, rows, acts, s, 0, usage);
    s := AnswersTorn(setup, n, rows, acts, s, 0);
    acts := acts + [Meter(0, false), Leave(0)];
  }

  lemma AnswersTorn(setup: Setup, n: nat, rows: map<string, Response>, acts: seq<Action>, s: State, i: nat)
    returns (s': State)
    requires Reached(setup, n, rows, acts, s)
    requires i < |s.stages| == |s.lock.workers| && s.stages[i].Metering? && s.stages[i].rows == 1
    requires s.lock.workers[i].pc.Uncached?
    ensures Reached(setup, n, rows, acts + [Meter(i, false), Leave(i)], s')
    ensures |s'.stages| == |s'.lock.workers| == |s.stages| && s'.costs == s.costs
    ensures var reply := ReplyTo(s', i); reply.Status200? && !reply.hit && reply.r.costId.None?
  {
    Extend(setup, n, rows, acts, s, Meter(i, false));
    s' := Apply(setup, s, Meter(i, false));
    Extend(setup, n, rows, acts + [Meter(i, false)], s', Leave(i));
    s' := Apply(setup, s', Leave(i));
    assert acts + [Meter(i, false)] + [Leave(i)] == acts + [Meter(i, false), Leave(i)];
  }

  /** A request whose agent has budget left is answered by the provider and writes its
      usd row. */
  lemma PaysFirst(setup: Setup, n: nat, rows: map<string, Response>, acts: seq<Action>, s: State, i: nat, usage: Usage)
    returns (acts': seq<Action>, s': State)
    requires Reached(setup, n, rows, acts, s)
    requires i < |s.stages| == |s.lock.workers| && s.stages[i].InCache? && s.lock.workers[i].pc.Uncached?
    requires !Ruling(setup, i, s.costs).1.HardBreach?
    ensures acts' == acts + [Budget(i), Call(i, Some(usage)), Meter(i, true)] && Reached(setup, n, rows, acts', s')
    ensures var (tier, state) := Ruling(setup, i, s.costs);
            s' == s.(stages := s.stages[i := Metering(setup.Agent(i), tier, state, usage, 1, |s.costs|)],
                     costs := s.costs + [NextRow(setup, s, i, usage, 0)], called := s.called + [i])
  {
    s' := Rules(setup, n, rows, acts, s, i);
    Extend(setup, n, rows, acts + [Budget(i)], s', Call(i, Some(usage)));
    s' := Apply(setup, s', Call(i, Some(usage)));
    Extend(setup, n, rows, acts + [Budget(i)] + [Call(i, Some(usage))], s', Meter(i, true));
    s' := Apply(setup, s', Meter(i, true));
    acts' := acts + [Budget(i), Call(i, Some(usage)), Meter(i, true)];
    assert acts + [Budget(i)] + [Call(i, Some(usage))] + [Meter(i, true)] == acts';
  }

  /** An eligible request gets to its budget check. */
  lemma Admits(setup: Setup, n: nat, rows: map<string, Response>, acts: seq<Action>, s: State, i: nat)
    returns (acts': seq<Action>, s': State)
    requires Reached(setup, n, rows, acts, s) && Eligible(setup, i)
    requires i < |s.stages| == |s.lock.workers| && s.stages[i].Fresh? && s.lock.workers[i].pc.Idle?
    ensures acts' == acts + [Check(i), Cache(L.BeginUncached(i))] && Reached(setup, n, rows, acts', s')
    ensures s' == s.(stages := s.stages[i := InCache], lock := L.Moved(s.lock, i, L.Uncached))
  {
    Extend(setup, n, rows, acts, s, Check(i));
    var checked := Apply(setup, s, Check(i));
    Extend(setup, n, rows, acts + [Check(i)], checked, Cache(L.BeginUncached(i)));
    s' := Apply(setup, checked, Cache(L.BeginUncached(i)));
    acts' := acts + [Check(i), Cache(L.BeginUncached(i))];
    assert acts + [Check(i)] + [Cache(L.BeginUncached(i))] == acts';
  }

  // -- A retried task never double-spends ----------------------------------------------

  lemma {:induction false} RowIsIn(costs: seq<Entry>, k: nat)
    requires k < |costs|
    ensures RowsOf(costs[k].req, costs) != []
    decreases |costs|
  {
    if k < |costs| - 1 { RowIsIn(costs[..|costs| - 1], k); }
  }

  /** This request's replica crashed before its result was committed. */
  ghost predicate Wasted(setup: Setup, s: State, i: nat) {
    !Alive(s, i) && !LI.Owns(setup.lock, s.lock, i, setup.lock.taskRef(i))
  }

  /** A request that got a provider answer and was not stopped by a crash is still under
      its lock or has a surviving result. */
  lemma PayerIsOwner(setup: Setup, s: State, rows: map<string, Response>, i: nat)
    requires Inv(setup, s, rows) && i < |s.stages| && Billed(s.stages[i]) && !Wasted(setup, s, i)
    requires setup.lock.taskRef(i) != ""
    ensures s.lock.workers[i].pc.Computing? || LI.Owns(setup.lock, s.lock, i, setup.lock.taskRef(i))
  {
    assert StageOf(setup, s, i) && LI.RowOf(setup.lock, s.lock, i) && LI.RecordOf(setup.lock, s.lock, i);
  }

  /** Of the requests with one task_ref, at most one got a provider answer without
      losing it in a crash. */
  lemma OnePayer(setup: Setup, s: State, rows: map<string, Response>, i: nat, j: nat)
    requires Inv(setup, s, rows) && i < |s.stages| && j < |s.stages|
    requires setup.lock.taskRef(i) == setup.lock.taskRef(j) != ""
    requires Billed(s.stages[i]) && Billed(s.stages[j]) && !Wasted(setup, s, i) && !Wasted(setup, s, j)
    ensures i == j && setup.lock.taskRef(i) !in rows
  {
    PayerIsOwner(setup, s, rows, i);
    PayerIsOwner(setup, s, rows, j);
    assert LI.RowOf(setup.lock, s.lock, i) && LI.ResultOf(setup.lock, s.lock, rows, i);
    if s.lock.workers[i].pc.Computing? {
      LI.SoleOwner(setup.lock, s.lock, rows, i, j);
      LI.Exclusion(setup.lock, s.lock, i, j);
    } else if s.lock.workers[j].pc.Computing? {
      LI.SoleOwner(setup.lock, s.lock, rows, j, i);
    } else {
      assert LI.Rivals(setup.lock, s.lock, i, j);
    }
  }

  /** The requests of a task_ref that got a provider answer. */
  ghost function PayersFor(setup: Setup, s: State, t: string): set<nat> {
    set i: nat | i < |s.stages| && Billed(s.stages[i]) && setup.lock.taskRef(i) == t
  }

  /** Those of them that a crash stopped before their commit. */
  ghost function WastedFor(setup: Setup, s: State, t: string): set<nat> {
    set i | i in PayersFor(setup, s, t) && Wasted(setup, s, i)
  }

  /** With crashes at any step, the requests of a task_ref that are paid for exceed one by
      at most the owners that died between their provider call and their commit. */
  lemma PayersBound(setup: Setup, n: nat, rows: map<string, Response>, acts: seq<Action>, t: string)
    requires setup.lock.order.CommitThenUnlock? && Run(setup, Init(n, rows), acts) && t != ""
    ensures var s := After(setup, n, rows, acts);
            |PayersFor(setup, s, t)| <= 1 + |WastedFor(setup, s, t)|
  {
    var s := After(setup, n, rows, acts);
    AfterInv(setup, n, rows, acts);
    var all, dead := PayersFor(setup, s, t), WastedFor(setup, s, t);
    if all - dead != {} {
      var o :| o in all - dead;
      forall i | i in all ensures i in dead + {o} {
        if i !in dead { OnePayer(setup, s, rows, i, o); }
      }
      LT.Within(all, dead + {o});
    } else {
      forall i | i in all ensures i in dead { assert i !in all - dead; }
      LT.Within(all, dead);
    }
  }

  lemma AllAlive(setup: Setup, n: nat, rows: map<string, Response>, acts: seq<Action>)
    requires Run(setup, Init(n, rows), acts) && CrashFree(acts)
    ensures LT.NobodyDied(After(setup, n, rows, acts).lock)
  {
    var l := Projection(setup, Init(n, rows), acts);
    LT.CrashFreeRun(setup.lock, L.Init(n, rows), l);
  }

  /** Without crashes, all cost rows of requests with one task_ref come from one request,
      so there are at most three; and none if its answer was already stored. */
  lemma NeverDoubleSpends(setup: Setup, n: nat, rows: map<string, Response>, acts: seq<Action>, k: nat, l: nat)
    requires setup.lock.order.CommitThenUnlock? && Run(setup, Init(n, rows), acts) && CrashFree(acts)
    requires var costs := After(setup, n, rows, acts).costs;
             && k < |costs| && l < |costs|
             && setup.lock.taskRef(costs[k].req) == setup.lock.taskRef(costs[l].req) != ""
    ensures var costs := After(setup, n, rows, acts).costs;
            && costs[k].req == costs[l].req && |RowsOf(costs[k].req, costs)| <= 3
            && setup.lock.taskRef(costs[k].req) !in rows
  {
    var s := After(setup, n, rows, acts);
    AfterInv(setup, n, rows, acts);
    AllAlive(setup, n, rows, acts);
    var i, j := s.costs[k].req, s.costs[l].req;
    RowIsIn(s.costs, k);
    RowIsIn(s.costs, l);
    assert BillOf(setup, s, i) && BillOf(setup, s, j);
    OnePayer(setup, s, rows, i, j);
  }

  /** A hard breach is not stored: when it is raised no row exists for the task_ref. */
  lemma BreachLeavesNoRow(setup: Setup, n: nat, rows: map<string, Response>, acts: seq<Action>, i: nat)
    requires setup.lock.order.CommitThenUnlock? && Run(setup, Init(n, rows), acts)
    requires var s := After(setup, n, rows, acts);
             Enabled(setup, s, Leave(i)) && s.stages[i].Queued? && setup.lock.taskRef(i) != ""
    ensures var s' := Apply(setup, After(setup, n, rows, acts), Leave(i));
            && s'.lock.workers[i].pc == L.Failed && setup.lock.taskRef(i) !in s'.lock.table
            && i !in s'.lock.produced
  {
    var s := After(setup, n, rows, acts);
    AfterInv(setup, n, rows, acts);
    assert StageOf(setup, s, i) && LI.RowOf(setup.lock, s.lock, i);
  }

  /** A hard breach is not replayed either: a request of the same task_ref that waits for
      the lock can take it over, finds no row, and has the budget decide on the spend
      recorded by then. */
  lemma BreachIsReevaluated(setup: Setup, n: nat, rows: map<string, Response>, acts: seq<Action>, s: State, i: nat, j: nat)
    returns (s': State)
    requires setup.lock.order.CommitThenUnlock? && Reached(setup, n, rows, acts, s)
    requires Enabled(setup, s, Leave(i)) && s.stages[i].Queued?
    requires j < |s.stages| && s.lock.workers[j].pc.Connected?
    requires setup.lock.taskRef(i) == setup.lock.taskRef(j) != ""
    ensures Reached(setup, n, rows, acts + Takeover(i, j) + [Budget(j)], s')
    ensures |s'.stages| == |s.stages| == |s'.lock.workers|
    ensures s'.costs == s.costs && s'.lock.workers[i].pc == L.FailedUnlocked
    ensures var (tier, state) := Ruling(setup, j, s.costs);
            s'.stages[j] == if state.HardBreach? then Breached else Cleared(setup.Agent(j), tier, state)
  {
    AfterInv(setup, n, rows, acts);
    assert StageOf(setup, s, j) && LI.RecordOf(setup.lock, s.lock, j);
    var freed := GivesUp(setup, n, rows, acts, s, i);
    var steps := acts + [Leave(i), Cache(L.Unlock(i))];
    var afresh := TakesUp(setup, n, rows, steps, freed, j);
    assert steps + [Cache(L.Lock(j)), Cache(L.Select(j))] == acts + Takeover(i, j);
    s' := Rules(setup, n, rows, acts + Takeover(i, j), afresh, j);
  }

  /** And whenever a request's lookup finds no row, it is at its budget check and at no
      provider call, and the check goes by the spend recorded by then. */
  lemma OwnerAsksBudget(setup: Setup, n: nat, rows: map<string, Response>, acts: seq<Action>, s: State, j: nat)
    returns (s': State)
    requires setup.lock.order.CommitThenUnlock? && Reached(setup, n, rows, acts, s)
    requires Enabled(setup, s, Cache(L.Select(j))) && setup.lock.taskRef(j) !in s.lock.table
    ensures Reached(setup, n, rows, acts + [Cache(L.Select(j))], s') && s'.costs == s.costs
    ensures InCompute(s', j) && Enabled(setup, s', Budget(j)) && forall usage :: !Enabled(setup, s', Call(j, usage))
    ensures var (tier, state) := Ruling(setup, j, s.costs);
            Apply(setup, s', Budget(j)).stages[j]
              == if state.HardBreach? then Breached else Cleared(setup.Agent(j), tier, state)
  {
    AfterInv(setup, n, rows, acts);
    assert StageOf(setup, s, j) && LI.RecordOf(setup.lock, s.lock, j);
    Extend(setup, n, rows, acts, s, Cache(L.Select(j)));
    s' := Apply(setup, s, Cache(L.Select(j)));
  }

  /** i raises and gives its lock back; j gets it and looks for the row. */
  function Takeover(i: nat, j: nat): seq<Action> {
    [Leave(i), Cache(L.Unlock(i)), Cache(L.Lock(j)), Cache(L.Select(j))]
  }

  lemma Frees(setup: Setup, n: nat, rows: map<string, Response>, acts: seq<Action>, s: State, i: nat)
    returns (s': State)
    requires Reached(setup, n, rows, acts, s)
    requires i < |s.stages| == |s.lock.workers| && Admitted(s.stages[i]) && s.lock.workers[i].pc.Failed?
    requires LI.LockOf(setup.lock, s.lock, i)
    ensures Reached(setup, n, rows, acts + [Cache(L.Unlock(i))], s')
    ensures s' == s.(lock := L.Moved(s.lock, i, L.FailedUnlocked).(locks := s.lock.locks - {setup.lock.KeyOf(i)}))
  {
    Extend(setup, n, rows, acts, s, Cache(L.Unlock(i)));
    s' := Apply(setup, s, Cache(L.Unlock(i)));
  }

  lemma GivesUp(setup: Setup, n: nat, rows: map<string, Response>, acts: seq<Action>, s: State, i: nat)
    returns (s': State)
    requires setup.lock.order.CommitThenUnlock? && Reached(setup, n, rows, acts, s)
    requires Enabled(setup, s, Leave(i)) && s.stages[i].Queued? && setup.lock.taskRef(i) != ""
    ensures Reached(setup, n, rows, acts + [Leave(i), Cache(L.Unlock(i))], s')
    ensures s'.stages == s.stages && s'.costs == s.costs && s'.lock.table == s.lock.table
    ensures s'.lock.workers == L.Moved(s.lock, i, L.FailedUnlocked).workers
    ensures setup.lock.KeyOf(i) !in s'.lock.locks && setup.lock.taskRef(i) !in s.lock.table
  {
    AfterInv(setup, n, rows, acts);
    assert LI.RowOf(setup.lock, s.lock, i) && LI.LockOf(setup.lock, s.lock, i);
    Extend(setup, n, rows, acts, s, Leave(i));
    var left := s.(lock := L.Moved(s.lock, i, L.Failed));
    s' := Frees(setup, n, rows, acts + [Leave(i)], left, i);
    assert acts + [Leave(i)] + [Cache(L.Unlock(i))] == acts + [Leave(i), Cache(L.Unlock(i))];
  }

  lemma Rules(setup: Setup, n: nat, rows: map<string, Response>, acts: seq<Action>, s: State, j: nat)
    returns (s': State)
    requires Reached(setup, n, rows, acts, s)
    requires j < |s.stages| == |s.lock.workers| && s.stages[j].InCache? && InCompute(s, j)
    ensures Reached(setup, n, rows, acts + [Budget(j)], s')
    ensures var (tier, state) := Ruling(setup, j, s.costs);
            s' == s.(stages := s.stages[j := if state.HardBreach? then Breached else Cleared(setup.Agent(j), tier, state)])
  {
    Extend(setup, n, rows, acts, s, Budget(j));
    s' := Apply(setup, s, Budget(j));
  }

  lemma TakesUp(setup: Setup, n: nat, rows: map<string, Response>, acts: seq<Action>, s: State, j: nat)
    returns (s': State)
    requires Reached(setup, n, rows, acts, s)
    requires j < |s.stages| == |s.lock.workers| && Admitted(s.stages[j]) && s.lock.workers[j].pc.Connected?
    requires setup.lock.KeyOf(j) !in s.lock.locks && setup.lock.taskRef(j) !in s.lock.table
    ensures Reached(setup, n, rows, acts + [Cache(L.Lock(j)), Cache(L.Select(j))], s')
    ensures s'.stages == s.stages && s'.costs == s.costs
    ensures s'.lock.workers == L.Moved(s.lock, j, L.Computing).workers
  {
    Extend(setup, n, rows, acts, s, Cache(L.Lock(j)));
    var locked := Apply(setup, s, Cache(L.Lock(j)));
    Extend(setup, n, rows, acts + [Cache(L.Lock(j))], locked, Cache(L.Select(j)));
    s' := Apply(setup, locked, Cache(L.Select(j)));
    assert acts + [Cache(L.Lock(j))] + [Cache(L.Select(j))] == acts + [Cache(L.Lock(j)), Cache(L.Select(j))];
  }

  /** Every row the run added is the answer of a request that was within its budget. */
  lemma NoBreachIsStored(setup: Setup, n: nat, rows: map<string, Response>, acts: seq<Action>, t: string)
    requires setup.lock.order.CommitThenUnlock? && Run(setup, Init(n, rows), acts)
    requires t in After(setup, n, rows, acts).lock.table && t !in rows
    ensures var s := After(setup, n, rows, acts);
            exists o | 0 <= o < |s.stages| :: s.stages[o].Metered? && !s.stages[o].state.HardBreach?
              && setup.lock.taskRef(o) == t && s.lock.table[t].id == o && s.lock.table[t].budget == s.stages[o].state
  {
    var s := After(setup, n, rows, acts);
    AfterInv(setup, n, rows, acts);
    assert LI.SourceOf(setup.lock, s.lock, rows, t);
    var o :| LI.Owns(setup.lock, s.lock, o, t) && s.lock.produced[o] == s.lock.table[t];
    assert StageOf(setup, s, o);
  }

  /** Requests with one task_ref that are answered are all answered with the same body;
      only one of them computed it, and none did if it was stored before. */
  lemma OneAnswer(setup: Setup, n: nat, rows: map<string, Response>, acts: seq<Action>, i: nat, j: nat)
    requires setup.lock.order.CommitThenUnlock? && Run(setup, Init(n, rows), acts)
    requires var s := After(setup, n, rows, acts);
             && i < |s.stages| == |s.lock.workers| && j < |s.stages|
             && setup.lock.taskRef(i) == setup.lock.taskRef(j) != ""
             && ReplyTo(s, i).Status200? && ReplyTo(s, j).Status200?
    ensures var s := After(setup, n, rows, acts);
            && ReplyTo(s, i).r == ReplyTo(s, j).r
            && (!ReplyTo(s, i).hit && !ReplyTo(s, j).hit ==> i == j)
            && (setup.lock.taskRef(i) in rows ==> ReplyTo(s, i) == Status200(rows[setup.lock.taskRef(i)], true))
  {
    var s := After(setup, n, rows, acts);
    AfterInv(setup, n, rows, acts);
    assert LI.RowOf(setup.lock, s.lock, i) && LI.RowOf(setup.lock, s.lock, j);
    assert LI.RecordOf(setup.lock, s.lock, i) && LI.RecordOf(setup.lock, s.lock, j);
    assert LI.ResultOf(setup.lock, s.lock, rows, i) && LI.SourceOf(setup.lock, s.lock, rows, setup.lock.taskRef(i));
    assert !ReplyTo(s, i).hit && !ReplyTo(s, j).hit ==> LI.Rivals(setup.lock, s.lock, i, j);
  }

}
