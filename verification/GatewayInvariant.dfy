/** What every step of the gateway keeps. */
module GatewayInvariant {
  import opened Common
  import opened GatewayTypes
  import opened Repository
  import opened GatewayProtocol
  import L = LockProtocol
  import LI = LockInvariant

  /** The cost rows a request has to write, in order. */
  function Due(usage: Usage): seq<(Unit, real)> {
    [(Usd, usage.usd), (Tokens, usage.tokens), (Ms, usage.ms)]
  }

  /** How many of them it has written. */
  function RowsWritten(stage: Stage): nat {
    if stage.Metering? || stage.Metered? then stage.rows else 0
  }

  predicate Billed(stage: Stage) { stage.Metering? || stage.Metered? }

  /** The rows of one request, in table order. */
  function RowsOf(i: nat, costs: seq<Entry>): seq<Cost> {
    if costs == [] then []
    else RowsOf(i, costs[..|costs| - 1])
         + if costs[|costs| - 1].req == i then [costs[|costs| - 1].cost] else []
  }

  /** These are the first rows of the request's bill, under its own run id. */
  ghost predicate BillSoFar(run: string, stage: Stage, mine: seq<Cost>) {
    && |mine| == RowsWritten(stage) <= 3
    && forall k | 0 <= k < |mine| :: IsDue(run, stage, k, mine[k])
  }

  ghost predicate IsDue(run: string, stage: Stage, k: nat, row: Cost) {
    Billed(stage) && k < 3 && row.run == run && row.provider == stage.usage.provider
    && (row.unit, row.amount) == Due(stage.usage)[k]
  }

  ghost predicate BillOf(setup: Setup, s: State, i: nat)
    requires i < |s.stages|
  {
    BillSoFar(setup.request(i).run, s.stages[i], RowsOf(i, s.costs))
  }

  /** Where the cache has a request and how far its compute() got agree.  Of a request
      whose replica crashed it is only known how far it got. */
  ghost predicate StageOf(setup: Setup, s: State, i: nat)
    requires i < |s.stages| == |s.lock.workers|
  {
    var pc := s.lock.workers[i].pc;
    var waiting := pc.Idle? || pc.Dead?;
    var computing := pc.Computing? || pc.Uncached? || pc.Dead?;
    var raised := Raising(pc);
    && (i in s.lock.produced ==>
          s.stages[i].Metered? && Ending(i, s.stages[i]) == Some(Some(s.lock.produced[i])))
    && (i in s.called ==> Billed(s.stages[i]) || s.stages[i].Broke?)
    && match s.stages[i]
       case Fresh => waiting
       case Refused(why) => waiting && (why.RedactionBlocked? ==> BlockRecorded(setup, s, i))
       case Blocking => waiting
       case InCache => i !in s.lock.produced && !raised
       case Breached => computing
       case Queued(g) =>
         (computing || raised) && i !in s.lock.produced
         && g < |s.gates| && s.gates[g] == Gate(g, setup.request(i).run, BudgetGate, Escalated)
       case Cleared(agent, _, state) => computing && agent == setup.Agent(i) && !state.HardBreach?
       case Metering(agent, _, state, _, rows, usdRow) =>
         computing && agent == setup.Agent(i) && !state.HardBreach? && rows < 3 && i in s.called
         && (rows > 0 ==> UsdRowOf(s, i, usdRow))
       case Metered(_, state, _, rows, usdRow) =>
         (computing || i in s.lock.produced) && !state.HardBreach? && rows <= 3 && i in s.called
         && (rows > 0 ==> UsdRowOf(s, i, usdRow))
       case Broke => (computing || raised) && i !in s.lock.produced
  }

  /** The firewall's decision on request i is on file. */
  ghost predicate BlockRecorded(setup: Setup, s: State, i: nat) {
    exists g | 0 <= g < |s.gates| :: s.gates[g] == Gate(g, setup.request(i).run, RedactionFirewall, Rejected)
  }

  /** Row number id is the usd row of request i. */
  ghost predicate UsdRowOf(s: State, i: nat, id: nat) {
    id < |s.costs| && s.costs[id].req == i && s.costs[id].cost.id == id && s.costs[id].cost.unit.Usd?
  }

  ghost predicate Inv(setup: Setup, s: State, rows: map<string, Response>) {
    && |s.stages| == |s.lock.workers|
    && LI.Inv(setup.lock, s.lock, rows)
    && (forall i | 0 <= i < |s.stages| :: StageOf(setup, s, i))
    && (forall i | 0 <= i < |s.stages| :: BillOf(setup, s, i))
    && (forall i, j | 0 <= i < j < |s.called| :: s.called[i] != s.called[j])
    && (forall k | 0 <= k < |s.costs| :: s.costs[k].req < |s.stages|)
    && |s.costs| == CountBy(RowsWritten, s.stages)
  }

  lemma {:induction false} NothingWritten(stages: seq<Stage>)
    requires forall i | 0 <= i < |stages| :: stages[i].Fresh?
    ensures CountBy(RowsWritten, stages) == 0
  {
    if stages != [] { NothingWritten(stages[1..]); }
  }

  lemma InitInv(setup: Setup, n: nat, rows: map<string, Response>)
    ensures Inv(setup, Init(n, rows), rows)
  {
    LI.InitInv(setup.lock, n, rows);
    NothingWritten(Init(n, rows).stages);
  }

  /** A replica crashes. */
  predicate Crashes(a: Action) { a.Cache? && a.a.Crash? }

  /** The request that takes the step. */
  function IndexOf(a: Action): nat
    requires !Crashes(a)
  {
    match a
    case Cache(l) => l.c
    case Check(i) => i case RecordBlock(i) => i case Budget(i) => i case Queue(i) => i
    case Call(i, _) => i case Meter(i, _) => i case Break(i) => i case Leave(i) => i
  }

  /** The step the cache takes in a crash, a cache step or the end of compute(). */
  function CacheAction(s: State, a: Action): L.Action
    requires a.Cache? || (a.Leave? && a.i < |s.stages| && Ending(a.i, s.stages[a.i]).Some?)
  {
    if a.Cache? then a.a else L.Finish(a.i, Ending(a.i, s.stages[a.i]).value)
  }

  /** The cache keeps its own invariant. */
  lemma CacheStep(setup: Setup, s: State, a: Action, rows: map<string, Response>)
    requires setup.lock.order.CommitThenUnlock? && Inv(setup, s, rows) && Enabled(setup, s, a)
    ensures var s' := Apply(setup, s, a);
            && LI.Inv(setup.lock, s'.lock, rows)
            && |s'.lock.workers| == |s.lock.workers| == |s'.stages|
  {
    if a.Cache? || a.Leave? {
      LI.Step(setup.lock, s.lock, CacheAction(s, a), rows);
      LI.SameCallersStep(setup.lock, s.lock, CacheAction(s, a));
    }
  }

  /** Nothing that StageOf says about d has changed. */
  ghost predicate SameFor(s: State, s': State, d: nat)
    requires d < |s.stages| == |s.lock.workers|
  {
    && |s'.stages| == |s'.lock.workers| == |s.stages|
    && s'.stages[d] == s.stages[d] && s'.lock.workers[d] == s.lock.workers[d]
    && (d in s'.lock.produced <==> d in s.lock.produced)
    && (d in s.lock.produced ==> s'.lock.produced[d] == s.lock.produced[d])
    && (d in s'.called ==> d in s.called) && (d in s.called ==> d in s'.called)
    && s.gates <= s'.gates && s.costs <= s'.costs
  }

  lemma OthersSame(setup: Setup, s: State, a: Action, d: nat)
    requires |s.stages| == |s.lock.workers| && Enabled(setup, s, a) && !Crashes(a) && d < |s.stages| && d != IndexOf(a)
    ensures SameFor(s, Apply(setup, s, a), d)
  {
    match a
    case Cache(l) => LI.Others(setup.lock, s.lock, l);
    case Leave(i) => LI.Others(setup.lock, s.lock, L.Finish(i, Ending(i, s.stages[i]).value));
    case _ =>
  }

  lemma StageFrame(setup: Setup, s: State, s': State, d: nat)
    requires d < |s.stages| == |s.lock.workers| && SameFor(s, s', d) && StageOf(setup, s, d)
    ensures StageOf(setup, s', d)
  {
    if BlockRecorded(setup, s, d) {
      var g :| 0 <= g < |s.gates| && s.gates[g] == Gate(g, setup.request(d).run, RedactionFirewall, Rejected);
      assert s'.gates[g] == s.gates[g];
    }
  }

  /** A request that does not move keeps its place. */
  lemma StageOfOther(setup: Setup, s: State, a: Action, d: nat)
    requires !Crashes(a) && d < |s.stages| == |s.lock.workers| && d != IndexOf(a)
    requires Enabled(setup, s, a) && StageOf(setup, s, d)
    ensures |Apply(setup, s, a).stages| == |Apply(setup, s, a).lock.workers| == |s.stages|
    ensures StageOf(setup, Apply(setup, s, a), d)
  {
    OthersSame(setup, s, a, d);
    StageFrame(setup, s, Apply(setup, s, a), d);
  }

  /** In a crash every request keeps its place or dies there. */
  lemma StageOfCrash(setup: Setup, s: State, a: Action, d: nat)
    requires Crashes(a) && d < |s.stages| == |s.lock.workers| && Enabled(setup, s, a) && StageOf(setup, s, d)
    ensures |Apply(setup, s, a).stages| == |Apply(setup, s, a).lock.workers| == |s.stages|
    ensures StageOf(setup, Apply(setup, s, a), d)
  {
  }

  /** compute() raised. */
  predicate Raising(pc: L.Pc) { pc.Failed? || pc.FailedUnlocked? || pc.Raised? }

  /** No cache step but the end of compute() leaves compute() or starts raising. */
  lemma CacheMoves(cfg: L.Config, s: L.State, l: L.Action)
    requires cfg.order.CommitThenUnlock? && L.Enabled(cfg, s, l) && !l.Crash? && !l.Finish?
    ensures var pc, pc' := s.workers[l.c].pc, L.Apply(cfg, s, l).workers[l.c].pc;
            && !pc.Computing? && !pc.Uncached? && !pc'.Dead?
            && (Raising(pc) <==> Raising(pc'))
            && L.Apply(cfg, s, l).produced == s.produced
  {
  }

  lemma StageOfSelfCache(setup: Setup, s: State, l: L.Action)
    requires setup.lock.order.CommitThenUnlock? && !l.Crash? && |s.stages| == |s.lock.workers| && Enabled(setup, s, Cache(l))
    requires StageOf(setup, s, l.c)
    ensures |Apply(setup, s, Cache(l)).lock.workers| == |s.stages|
    ensures StageOf(setup, Apply(setup, s, Cache(l)), l.c)
  {
    CacheMoves(setup.lock, s.lock, l);
    LI.Others(setup.lock, s.lock, l);
  }

  lemma StageOfSelfLeave(setup: Setup, s: State, i: nat)
    requires |s.stages| == |s.lock.workers| && Enabled(setup, s, Leave(i)) && StageOf(setup, s, i)
    requires LI.RecordOf(setup.lock, s.lock, i)
    ensures |Apply(setup, s, Leave(i)).lock.workers| == |s.stages|
    ensures StageOf(setup, Apply(setup, s, Leave(i)), i)
  {
  }

  lemma StageOfSelfOwn(setup: Setup, s: State, a: Action)
    requires |s.stages| == |s.lock.workers| && Enabled(setup, s, a) && !a.Cache? && !a.Leave?
    requires StageOf(setup, s, IndexOf(a))
    ensures StageOf(setup, Apply(setup, s, a), IndexOf(a))
  {
    if a.RecordBlock? {
      assert Apply(setup, s, a).gates[|s.gates|] == Gate(|s.gates|, setup.request(a.i).run, RedactionFirewall, Rejected);
    }
  }

  lemma StageOfSelf(setup: Setup, s: State, a: Action, rows: map<string, Response>)
    requires !Crashes(a)
    requires setup.lock.order.CommitThenUnlock? && Inv(setup, s, rows) && Enabled(setup, s, a)
    ensures |Apply(setup, s, a).stages| == |Apply(setup, s, a).lock.workers| == |s.stages|
    ensures StageOf(setup, Apply(setup, s, a), IndexOf(a))
  {
    assert StageOf(setup, s, IndexOf(a));
    match a
    case Cache(l) => StageOfSelfCache(setup, s, l);
    case Leave(i) => assert LI.RecordOf(setup.lock, s.lock, i); StageOfSelfLeave(setup, s, i);
    case _ => StageOfSelfOwn(setup, s, a);
  }

  /** A bill depends only on how far it is paid and on what was used. */
  lemma SameBill(run: string, stage: Stage, stage': Stage, mine: seq<Cost>)
    requires BillSoFar(run, stage, mine) && RowsWritten(stage') == RowsWritten(stage)
    requires Billed(stage) ==> Billed(stage') && stage'.usage == stage.usage
    ensures BillSoFar(run, stage', mine)
  {
    forall k | 0 <= k < |mine| ensures IsDue(run, stage', k, mine[k]) { assert IsDue(run, stage, k, mine[k]); }
  }

  lemma BillStays(setup: Setup, s: State, a: Action, d: nat)
    requires Enabled(setup, s, a) && !(a.Meter? && a.ok) && d < |s.stages|
    requires StageOf(setup, s, d)
    ensures var s' := Apply(setup, s, a);
            && |s'.stages| == |s.stages| && s'.costs == s.costs
            && RowsWritten(s'.stages[d]) == RowsWritten(s.stages[d])
            && (Billed(s.stages[d]) ==> Billed(s'.stages[d]) && s'.stages[d].usage == s.stages[d].usage)
  {
  }

  /** A step writes at most the moving request's next row. */
  lemma BillOfStep(setup: Setup, s: State, a: Action, rows: map<string, Response>, d: nat)
    requires Inv(setup, s, rows) && Enabled(setup, s, a) && d < |s.stages|
    ensures |Apply(setup, s, a).stages| == |s.stages| && BillOf(setup, Apply(setup, s, a), d)
  {
    assert BillOf(setup, s, d) && StageOf(setup, s, d);
    if a.Meter? && a.ok {
      RowsStep(setup, s, a, d);
      if d == a.i { NextRowIsDue(setup, s, a, RowsOf(d, s.costs)); }
    } else {
      BillStays(setup, s, a, d);
      SameBill(setup.request(d).run, s.stages[d], Apply(setup, s, a).stages[d], RowsOf(d, s.costs));
    }
  }

  lemma RowsStep(setup: Setup, s: State, a: Action, d: nat)
    requires Enabled(setup, s, a) && a.Meter? && a.ok
    ensures var row := NextRow(setup, s, a.i, s.stages[a.i].usage, s.stages[a.i].rows);
            RowsOf(d, Apply(setup, s, a).costs) == RowsOf(d, s.costs) + if d == a.i then [row.cost] else []
  {
    var costs := Apply(setup, s, a).costs;
    assert costs[..|costs| - 1] == s.costs;
  }

  lemma NextRowIsDue(setup: Setup, s: State, a: Action, mine: seq<Cost>)
    requires Enabled(setup, s, a) && a.Meter? && a.ok
    requires BillSoFar(setup.request(a.i).run, s.stages[a.i], mine)
    ensures var st := s.stages[a.i];
            BillSoFar(setup.request(a.i).run, Apply(setup, s, a).stages[a.i],
                      mine + [NextRow(setup, s, a.i, st.usage, st.rows).cost])
  {
    var st := s.stages[a.i];
    var more := mine + [NextRow(setup, s, a.i, st.usage, st.rows).cost];
    forall k | 0 <= k < |more| ensures IsDue(setup.request(a.i).run, Apply(setup, s, a).stages[a.i], k, more[k]) {
      if k < |mine| { assert IsDue(setup.request(a.i).run, st, k, mine[k]); }
    }
  }

  lemma CallsStep(setup: Setup, s: State, a: Action, rows: map<string, Response>)
    requires Inv(setup, s, rows) && Enabled(setup, s, a)
    ensures var s' := Apply(setup, s, a);
            && (forall i, j | 0 <= i < j < |s'.called| :: s'.called[i] != s'.called[j])
            && (forall k | 0 <= k < |s'.costs| :: s'.costs[k].req < |s'.stages|)
  {
    if a.Call? { assert StageOf(setup, s, a.i); }
  }

  /** A step that is not a cache step moves one request and writes what it moves by. */
  lemma RowsMove(setup: Setup, s: State, a: Action)
    requires Enabled(setup, s, a) && !a.Cache? && !a.Leave? && StageOf(setup, s, a.i)
    ensures var s' := Apply(setup, s, a);
            && |s'.stages| == |s.stages| && s'.stages == s.stages[a.i := s'.stages[a.i]]
            && |s'.costs| - |s.costs| == RowsWritten(s'.stages[a.i]) - RowsWritten(s.stages[a.i])
  {
  }

  lemma CountStep(setup: Setup, s: State, a: Action, rows: map<string, Response>)
    requires Inv(setup, s, rows) && Enabled(setup, s, a)
    ensures |Apply(setup, s, a).costs| == CountBy(RowsWritten, Apply(setup, s, a).stages)
  {
    if !a.Cache? && !a.Leave? {
      assert StageOf(setup, s, a.i);
      RowsMove(setup, s, a);
      CountByUpdate(RowsWritten, s.stages, a.i, Apply(setup, s, a).stages[a.i]);
    }
  }

  lemma Step(setup: Setup, s: State, a: Action, rows: map<string, Response>)
    requires setup.lock.order.CommitThenUnlock? && Inv(setup, s, rows) && Enabled(setup, s, a)
    ensures Inv(setup, Apply(setup, s, a), rows)
  {
    CacheStep(setup, s, a, rows);
    CallsStep(setup, s, a, rows);
    CountStep(setup, s, a, rows);
    forall d | 0 <= d < |s.stages|
      ensures StageOf(setup, Apply(setup, s, a), d) && BillOf(setup, Apply(setup, s, a), d)
    {
      assert StageOf(setup, s, d);
      BillOfStep(setup, s, a, rows, d);
      if Crashes(a) {
        StageOfCrash(setup, s, a, d);
      } else if d == IndexOf(a) {
        StageOfSelf(setup, s, a, rows);
      } else {
        StageOfOther(setup, s, a, d);
      }
    }
  }

  lemma {:induction false} RunInv(setup: Setup, s: State, acts: seq<Action>, rows: map<string, Response>)
    requires setup.lock.order.CommitThenUnlock? && Inv(setup, s, rows) && Run(setup, s, acts)
    ensures Inv(setup, Final(setup, s, acts), rows)
    decreases |acts|
  {
    if acts != [] {
      Step(setup, s, acts[0], rows);
      RunInv(setup, Apply(setup, s, acts[0]), acts[1..], rows);
    }
  }
}
