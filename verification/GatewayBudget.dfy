/** What the budget check decides and what it cannot prevent: every answer and every 429
    follows the policy at the moment of its own check, and concurrent requests overshoot
    the daily limit by a bounded amount, which is exact. */
module GatewayBudget {
  import opened Common
  import opened GatewayTypes
  import opened Repository
  import opened GatewayProtocol
  import opened GatewayInvariant
  import opened GatewayTheorems
  import opened GatewayReplies
  import L = LockProtocol
  import LI = LockInvariant
  import LT = LockTheorems

  // -- What was decided -------------------------------------------------------------

  /** What the budget check of request i came to, if it has had one. */
  function Verdict(setup: Setup, i: nat, stage: Stage): Option<(string, BudgetState)> {
    match stage
    case Breached => Some((setup.request(i).tier.GetOr(""), HardBreach))
    case Queued(_) => Some((setup.request(i).tier.GetOr(""), HardBreach))
    case Cleared(_, tier, state) => Some((tier, state))
    case Metering(_, tier, state, _, _, _) => Some((tier, state))
    case Metered(tier, state, _, _, _) => Some((tier, state))
    case _ => None
  }

  lemma VerdictStep(setup: Setup, s: State, a: Action, i: nat)
    requires Enabled(setup, s, a) && i < |s.stages|
    ensures |Apply(setup, s, a).stages| == |s.stages|
    ensures var after := Verdict(setup, i, Apply(setup, s, a).stages[i]);
            || after.None? || after == Verdict(setup, i, s.stages[i])
            || (a == Budget(i) && after == Some(Ruling(setup, i, s.costs)))
  {
  }

  /** Step p of the run is the budget check of request i, and this is what it comes to in
      the state the run is in by then. */
  ghost predicate DecidedBy(setup: Setup, s: State, acts: seq<Action>, i: nat, p: nat, verdict: (string, BudgetState)) {
    && p < |acts| && acts[p] == Budget(i)
    && Run(setup, s, acts[..p]) && Ruling(setup, i, Final(setup, s, acts[..p]).costs) == verdict
  }

  lemma DecidedLater(setup: Setup, s: State, acts: seq<Action>, i: nat, p: nat, verdict: (string, BudgetState))
    requires acts != [] && Enabled(setup, s, acts[0])
    requires DecidedBy(setup, Apply(setup, s, acts[0]), acts[1..], i, p, verdict)
    ensures DecidedBy(setup, s, acts, i, p + 1, verdict)
  {
    assert acts[..p + 1][0] == acts[0] && acts[..p + 1][1..] == acts[1..][..p];
  }

  lemma {:induction false} VerdictOf(setup: Setup, s: State, acts: seq<Action>, i: nat) returns (p: Option<nat>)
    requires Run(setup, s, acts) && i < |s.stages|
    ensures |Final(setup, s, acts).stages| == |s.stages|
    ensures var verdict := Verdict(setup, i, Final(setup, s, acts).stages[i]);
            && (p.None? ==> verdict.None? || verdict == Verdict(setup, i, s.stages[i]))
            && (p.Some? ==> verdict.Some? && DecidedBy(setup, s, acts, i, p.value, verdict.value))
    decreases |acts|
  {
    p := None;
    if acts != [] {
      var next := Apply(setup, s, acts[0]);
      VerdictStep(setup, s, acts[0], i);
      var later := VerdictOf(setup, next, acts[1..], i);
      var verdict := Verdict(setup, i, Final(setup, next, acts[1..]).stages[i]);
      if later.Some? {
        DecidedLater(setup, s, acts, i, later.value, verdict.value);
        p := Some(later.value + 1);
      } else if verdict.Some? && acts[0] == Budget(i) {
        assert acts[..0] == [];
        p := Some(0);
      }
    }
  }

  /** A computed answer and a 429 follow the policy in the very state in which the
      request's own check ran: the spend recorded by then had reached the limit of the
      agent for a 429, and for an answer it grants the tier and the budget_state that the
      answer carries. */
  lemma {:induction false} AnswersFollowPolicy(setup: Setup, n: nat, rows: map<string, Response>, acts: seq<Action>, i: nat)
    returns (p: nat)
    requires setup.lock.order.CommitThenUnlock? && Run(setup, Init(n, rows), acts)
    requires i < |After(setup, n, rows, acts).stages| == |After(setup, n, rows, acts).lock.workers|
    requires var reply := ReplyTo(After(setup, n, rows, acts), i); reply.Status429? || (reply.Status200? && !reply.hit)
    ensures p < |acts| && acts[p] == Budget(i) && Run(setup, Init(n, rows), acts[..p])
    ensures setup.request(i).tier.Some?
    ensures var reply := ReplyTo(After(setup, n, rows, acts), i);
            var agent, policy := setup.Agent(i), setup.policy;
            var spend := SpendOf(setup, agent, After(setup, n, rows, acts[..p]).costs);
            && Provides(policy, agent, policy.LimitFor(agent), policy.RatioFor(agent))
            && if reply.Status429? then spend >= policy.LimitFor(agent)
               else Grants(policy, policy.LimitFor(agent), policy.RatioFor(agent), setup.request(i).tier.value,
                           spend, reply.r.tier, reply.r.budget)
  {
    var s := After(setup, n, rows, acts);
    AfterInv(setup, n, rows, acts);
    AfterPlaces(setup, n, rows, acts, i);
    AdmissionMeans(setup.request(i), setup.deliberateEnabled);
    StagesLast(setup, Init(n, rows), acts);
    assert StageOf(setup, s, i) && LI.RecordOf(setup.lock, s.lock, i);
    var found := VerdictOf(setup, Init(n, rows), acts, i);
    p := found.value;
    DecideMeans(setup.policy, setup.Agent(i), setup.request(i).tier.GetOr(""),
                SpendOf(setup, setup.Agent(i), After(setup, n, rows, acts[..p]).costs));
  }

  // -- The daily budget under concurrency ------------------------------------------------

  /** The stages of the requests that are still running: a crash ends a request. */
  function Live(s: State): seq<Stage> {
    seq(|s.stages|, i requires 0 <= i < |s.stages| => if Alive(s, i) then s.stages[i] else Broke)
  }

  /** This request has passed the budget check of the agent and not yet recorded its
      usd cost. */
  function InFlightOf(agent: string): Stage -> nat {
    (stage: Stage) =>
      if (stage.Cleared? || (stage.Metering? && stage.rows == 0)) && stage.agent == agent then 1 else 0
  }

  function InFlight(agent: string, s: State): nat { CountBy(InFlightOf(agent), Live(s)) }

  /** Along the run at most k computes of the agent are in flight, and none of its
      provider calls costs more than c. */
  ghost predicate Bounded(setup: Setup, s: State, acts: seq<Action>, agent: string, k: nat, c: real)
    requires Run(setup, s, acts)
    decreases |acts|
  {
    && InFlight(agent, s) <= k
    && (acts != [] ==>
          && (acts[0].Call? && acts[0].usage.Some? && setup.Agent(acts[0].i) == agent ==> acts[0].usage.value.usd <= c)
          && Bounded(setup, Apply(setup, s, acts[0]), acts[1..], agent, k, c))
  }

  /** n computes at c each: c times n, as TimesIsProduct says. */
  function Times(c: real, n: nat): real { if n == 0 then 0.0 else c + Times(c, n - 1) }

  lemma {:induction false} TimesGrows(c: real, n: nat, m: nat)
    requires c >= 0.0 && n <= m
    ensures 0.0 <= Times(c, n) <= Times(c, m)
    decreases m
  {
    if n < m {
      TimesGrows(c, n, m - 1);
    } else if n > 0 {
      TimesGrows(c, n - 1, m - 1);
    }
  }

  lemma {:induction false} TimesIsProduct(c: real, n: nat)
    ensures Times(c, n) == c * n as real
  {
    if n > 0 { TimesIsProduct(c, n - 1); }
  }

  /** What n computes in flight may still spend fits beside what is spent. */
  ghost predicate Room(limit: real, c: real, k: nat, n: nat, spend: real) {
    (n == 0 && spend == 0.0) || spend + Times(c, n) < limit + Times(c, k)
  }

  /** Another compute passes the check, or one records at most c, or one gives up. */
  lemma RoomStep(limit: real, c: real, k: nat, n: nat, n': nat, spend: real, spend': real)
    requires Room(limit, c, k, n, spend) && c >= 0.0 && n' <= k
    requires || (n' + 1 == n && spend' <= spend + c)
             || (spend' == spend && n' <= n)
             || (spend' == spend && spend < limit)
    ensures Room(limit, c, k, n', spend')
  {
    TimesGrows(c, n', k);
    if n' <= n { TimesGrows(c, n', n); }
  }

  /** No call of the agent whose usage is not yet recorded cost more than c. */
  ghost predicate Cheap(s: State, agent: string, c: real) {
    forall i | 0 <= i < |s.stages| && s.stages[i].Metering? && s.stages[i].agent == agent :: s.stages[i].usage.usd <= c
  }

  /** What is spent, and what those in flight may still spend, fits. */
  ghost predicate Fits(setup: Setup, s: State, agent: string, k: nat, c: real) {
    && Cheap(s, agent, c)
    && Room(setup.policy.LimitFor(agent), c, k, InFlight(agent, s), SpendOf(setup, agent, s.costs))
  }

  /** A cost row adds to its agent's spend exactly if it is a usd row. */
  lemma RowSpend(setup: Setup, s: State, a: Action, agent: string)
    requires Enabled(setup, s, a) && a.Meter? && a.ok
    ensures SpendOf(setup, agent, Apply(setup, s, a).costs)
            == SpendOf(setup, agent, s.costs)
               + if s.stages[a.i].rows == 0 && setup.Agent(a.i) == agent then s.stages[a.i].usage.usd else 0.0
  {
    var f := UsdOf(setup, agent);
    var row := NextRow(setup, s, a.i, s.stages[a.i].usage, s.stages[a.i].rows);
    SumByAppend(f, s.costs, [row]);
    assert SumBy(f, [row]) == f(row);
    assert f(row) == UsdFor(setup.agentOf, agent)(row.cost);
    assert Apply(setup, s, a).costs == s.costs + [row];
  }

  /** A request's own step changes its stage alone. */
  lemma InFlightStep(setup: Setup, s: State, a: Action, agent: string)
    requires |s.stages| == |s.lock.workers| && Enabled(setup, s, a) && !a.Cache? && !a.Leave?
    ensures |Apply(setup, s, a).stages| == |s.stages|
    ensures InFlight(agent, Apply(setup, s, a))
            == InFlight(agent, s) - InFlightOf(agent)(s.stages[a.i]) + InFlightOf(agent)(Apply(setup, s, a).stages[a.i])
  {
    var stage := Apply(setup, s, a).stages[a.i];
    assert Live(Apply(setup, s, a)) == Live(s)[a.i := stage];
    CountByUpdate(InFlightOf(agent), Live(s), a.i, stage);
  }

  /** A cache step does not change who is in flight. */
  lemma InFlightCache(setup: Setup, s: State, a: Action, agent: string)
    requires setup.lock.order.CommitThenUnlock? && |s.stages| == |s.lock.workers| && Enabled(setup, s, a)
    requires !Crashes(a) && (a.Cache? || a.Leave?)
    ensures InFlight(agent, Apply(setup, s, a)) == InFlight(agent, s)
  {
    LI.Others(setup.lock, s.lock, CacheAction(s, a));
    if a.Cache? { CacheMoves(setup.lock, s.lock, a.a); }
    assert Live(Apply(setup, s, a)) == Live(s);
  }

  /** A crash puts nobody in flight. */
  lemma InFlightCrash(setup: Setup, s: State, a: Action, agent: string)
    requires |s.stages| == |s.lock.workers| && Enabled(setup, s, a) && Crashes(a)
    ensures InFlight(agent, Apply(setup, s, a)) <= InFlight(agent, s)
  {
    LT.CountByMonotone(InFlightOf(agent), Live(Apply(setup, s, a)), Live(s));
  }

  /** This step ends the time in flight of one of the agent's computes. */
  predicate Settles(s: State, a: Action, agent: string) {
    a.Meter? && a.i < |s.stages| && s.stages[a.i].Metering? && s.stages[a.i].rows == 0 && s.stages[a.i].agent == agent
  }

  lemma InFlightMove(setup: Setup, s: State, a: Action, agent: string)
    requires Enabled(setup, s, a) && !a.Cache? && !a.Leave? && StageOf(setup, s, a.i)
    ensures |Apply(setup, s, a).stages| == |s.stages|
    ensures var before, after := InFlightOf(agent)(s.stages[a.i]), InFlightOf(agent)(Apply(setup, s, a).stages[a.i]);
            if Settles(s, a, agent) then before == 1 && after == 0
            else after <= before + if a.Budget? && SpendOf(setup, agent, s.costs) < setup.policy.LimitFor(agent) then 1 else 0
  {
  }

  lemma SpendStays(setup: Setup, s: State, a: Action, agent: string)
    requires Enabled(setup, s, a) && !(a.Meter? && a.ok)
    ensures SpendOf(setup, agent, Apply(setup, s, a).costs) == SpendOf(setup, agent, s.costs)
  {
  }

  /** How a step changes the spend and the number in flight. */
  lemma SpendStep(setup: Setup, s: State, a: Action, rows: map<string, Response>, agent: string)
    requires setup.lock.order.CommitThenUnlock? && Inv(setup, s, rows) && Enabled(setup, s, a)
    ensures var s' := Apply(setup, s, a);
            var spend, spend' := SpendOf(setup, agent, s.costs), SpendOf(setup, agent, s'.costs);
            if Settles(s, a, agent) then
              && InFlight(agent, s') == InFlight(agent, s) - 1
              && spend' == spend + if a.ok then s.stages[a.i].usage.usd else 0.0
            else
              && spend' == spend
              && InFlight(agent, s') <= InFlight(agent, s) +
                   if a.Budget? && spend < setup.policy.LimitFor(agent) then 1 else 0
  {
    if !(a.Meter? && a.ok) { SpendStays(setup, s, a, agent); }
    if Crashes(a) {
      InFlightCrash(setup, s, a, agent);
    } else if a.Cache? || a.Leave? {
      InFlightCache(setup, s, a, agent);
    } else {
      assert StageOf(setup, s, a.i);
      InFlightStep(setup, s, a, agent);
      InFlightMove(setup, s, a, agent);
      if a.Meter? && a.ok { RowSpend(setup, s, a, agent); }
    }
  }

  lemma UsageStep(setup: Setup, s: State, a: Action, agent: string, c: real)
    requires |s.stages| == |s.lock.workers| && Enabled(setup, s, a) && Cheap(s, agent, c)
    requires a.Call? ==> StageOf(setup, s, a.i)
    requires a.Call? && a.usage.Some? && setup.Agent(a.i) == agent ==> a.usage.value.usd <= c
    ensures Cheap(Apply(setup, s, a), agent, c)
  {
  }

  lemma FitsStep(setup: Setup, s: State, a: Action, rows: map<string, Response>, agent: string, k: nat, c: real)
    requires setup.lock.order.CommitThenUnlock? && Inv(setup, s, rows) && Enabled(setup, s, a)
    requires Fits(setup, s, agent, k, c) && c >= 0.0 && InFlight(agent, Apply(setup, s, a)) <= k
    requires a.Call? && a.usage.Some? && setup.Agent(a.i) == agent ==> a.usage.value.usd <= c
    ensures Fits(setup, Apply(setup, s, a), agent, k, c)
  {
    if a.Call? { assert StageOf(setup, s, a.i); }
    UsageStep(setup, s, a, agent, c);
    SpendStep(setup, s, a, rows, agent);
    RoomStep(setup.policy.LimitFor(agent), c, k, InFlight(agent, s), InFlight(agent, Apply(setup, s, a)),
             SpendOf(setup, agent, s.costs), SpendOf(setup, agent, Apply(setup, s, a).costs));
  }

  lemma {:induction false} RunFits(setup: Setup, s: State, acts: seq<Action>, rows: map<string, Response>,
                                   agent: string, k: nat, c: real)
    requires setup.lock.order.CommitThenUnlock? && Inv(setup, s, rows) && Run(setup, s, acts)
    requires Bounded(setup, s, acts, agent, k, c) && Fits(setup, s, agent, k, c) && c >= 0.0
    ensures Fits(setup, Final(setup, s, acts), agent, k, c)
    decreases |acts|
  {
    if acts != [] {
      Step(setup, s, acts[0], rows);
      FitsStep(setup, s, acts[0], rows, agent, k, c);
      RunFits(setup, Apply(setup, s, acts[0]), acts[1..], rows, agent, k, c);
    }
  }

  lemma {:induction false} NoneInFlight(agent: string, stages: seq<Stage>)
    requires forall i | 0 <= i < |stages| :: stages[i].Fresh?
    ensures CountBy(InFlightOf(agent), stages) == 0
  {
    if stages != [] { NoneInFlight(agent, stages[1..]); }
  }

  /** With at most k computes of an agent between budget check and metering, each
      costing at most c, its recorded spend stays below its limit plus k times c. */
  lemma {:induction false} OvershootBound(setup: Setup, n: nat, rows: map<string, Response>, acts: seq<Action>,
                                          agent: string, k: nat, c: real)
    requires setup.lock.order.CommitThenUnlock? && Run(setup, Init(n, rows), acts) && c >= 0.0
    requires Bounded(setup, Init(n, rows), acts, agent, k, c)
    ensures var spend := SpendOf(setup, agent, After(setup, n, rows, acts).costs);
            spend == 0.0 || spend < setup.policy.LimitFor(agent) + Times(c, k)
  {
    InitInv(setup, n, rows);
    NoneInFlight(agent, Live(Init(n, rows)));
    RunFits(setup, Init(n, rows), acts, rows, agent, k, c);
    TimesGrows(c, 0, InFlight(agent, After(setup, n, rows, acts)));
  }

  // -- The bound is exact ------------------------------------------------------------

  /** A workload: what runs, and the bounds k and c on an agent's computes. */
  datatype Load = Load(setup: Setup, n: nat, rows: map<string, Response>, agent: string, k: nat, c: real)

  /** A run of the workload within its bounds that ends in s. */
  ghost predicate Leads(w: Load, acts: seq<Action>, s: State) {
    && Reached(w.setup, w.n, w.rows, acts, s)
    && Bounded(w.setup, Init(w.n, w.rows), acts, w.agent, w.k, w.c)
    && |s.stages| == |s.lock.workers| == w.n
  }

  ghost predicate CheapCall(w: Load, a: Action) {
    a.Call? && a.usage.Some? && w.setup.Agent(a.i) == w.agent ==> a.usage.value.usd <= w.c
  }

  lemma {:induction false} BoundedExtends(w: Load, s: State, acts: seq<Action>, last: State, a: Action)
    requires Run(w.setup, s, acts) && last == Final(w.setup, s, acts)
    requires Bounded(w.setup, s, acts, w.agent, w.k, w.c)
    requires Enabled(w.setup, last, a) && CheapCall(w, a) && InFlight(w.agent, Apply(w.setup, last, a)) <= w.k
    ensures Run(w.setup, s, acts + [a]) && Bounded(w.setup, s, acts + [a], w.agent, w.k, w.c)
    decreases |acts|
  {
    var all := acts + [a];
    RunExtends(w.setup, s, acts, a);
    if acts == [] {
      assert all[1..] == [];
    } else {
      assert all[0] == acts[0] && all[1..] == acts[1..] + [a];
      BoundedExtends(w, Apply(w.setup, s, acts[0]), acts[1..], last, a);
    }
  }

  lemma Goes(w: Load, acts: seq<Action>, s: State, a: Action)
    requires Leads(w, acts, s) && Enabled(w.setup, s, a) && CheapCall(w, a)
    requires InFlight(w.agent, Apply(w.setup, s, a)) <= w.k
    requires |Apply(w.setup, s, a).lock.workers| == w.n
    ensures Leads(w, acts + [a], Apply(w.setup, s, a))
  {
    BoundedExtends(w, Init(w.n, w.rows), acts, s, a);
    Extend(w.setup, w.n, w.rows, acts, s, a);
  }

  /** Request i is eligible, and one of the agent's. */
  ghost predicate Ready(w: Load, i: nat) { i < w.n && Eligible(w.setup, i) && w.setup.Agent(i) == w.agent }

  ghost predicate Untouched(s: State, i: nat) {
    i < |s.stages| == |s.lock.workers| && s.stages[i].Fresh? && s.lock.workers[i].pc.Idle?
  }

  /** Request i has passed its check and is about to call the provider. */
  ghost predicate Poised(w: Load, s: State, i: nat) {
    && i < |s.stages| == |s.lock.workers| && s.stages[i].Cleared? && s.stages[i].agent == w.agent
    && s.lock.workers[i].pc.Uncached?
  }

  /** Only request i has moved. */
  ghost predicate Beside(s: State, s': State, i: nat) {
    && |s'.stages| == |s.stages| && |s'.lock.workers| == |s.lock.workers| == |s.stages|
    && forall j | 0 <= j < |s.stages| && j != i :: s'.stages[j] == s.stages[j] && s'.lock.workers[j] == s.lock.workers[j]
  }

  ghost function SpentBy(w: Load, s: State): real { SpendOf(w.setup, w.agent, s.costs) }

  /** One more request gets to the check. */
  lemma Arrives(w: Load, acts: seq<Action>, s: State, i: nat) returns (acts': seq<Action>, s': State)
    requires w.setup.lock.order.CommitThenUnlock? && Leads(w, acts, s) && Ready(w, i) && Untouched(s, i)
    requires InFlight(w.agent, s) <= w.k
    ensures acts' == acts + [Check(i), Cache(L.BeginUncached(i))] && Leads(w, acts', s')
    ensures s' == s.(stages := s.stages[i := InCache], lock := L.Moved(s.lock, i, L.Uncached))
    ensures InFlight(w.agent, s') == InFlight(w.agent, s)
  {
    InFlightStep(w.setup, s, Check(i), w.agent);
    Goes(w, acts, s, Check(i));
    var checked := s.(stages := s.stages[i := InCache]);
    InFlightCache(w.setup, checked, Cache(L.BeginUncached(i)), w.agent);
    Goes(w, acts + [Check(i)], checked, Cache(L.BeginUncached(i)));
    s' := checked.(lock := L.Moved(s.lock, i, L.Uncached));
    acts' := acts + [Check(i), Cache(L.BeginUncached(i))];
    assert acts + [Check(i)] + [Cache(L.BeginUncached(i))] == acts';
  }

  /** And passes it. */
  lemma Passes(w: Load, acts: seq<Action>, s: State, i: nat) returns (acts': seq<Action>, s': State)
    requires w.setup.lock.order.CommitThenUnlock? && Leads(w, acts, s) && Ready(w, i) && Untouched(s, i)
    requires SpentBy(w, s) < w.setup.policy.LimitFor(w.agent) && InFlight(w.agent, s) < w.k
    ensures Leads(w, acts', s') && acts <= acts' && Poised(w, s', i) && Beside(s, s', i)
    ensures SpentBy(w, s') == SpentBy(w, s) && InFlight(w.agent, s') == InFlight(w.agent, s) + 1
  {
    var arrived, begun := Arrives(w, acts, s, i);
    InFlightStep(w.setup, begun, Budget(i), w.agent);
    Goes(w, arrived, begun, Budget(i));
    acts', s' := arrived + [Budget(i)], Apply(w.setup, begun, Budget(i));
  }

  function Bill(usd: real): Usage { Usage("", usd, 0.0, 0.0) }

  /** Request i is answered, at this cost. */
  lemma IsAnswered(w: Load, acts: seq<Action>, s: State, i: nat, p: real) returns (acts': seq<Action>, s': State)
    requires Leads(w, acts, s) && Ready(w, i) && Poised(w, s, i) && p <= w.c
    requires InFlight(w.agent, s) <= w.k
    ensures Leads(w, acts', s') && acts' == acts + [Call(i, Some(Bill(p)))] && Beside(s, s', i)
    ensures InFlight(w.agent, s') == InFlight(w.agent, s) && SpentBy(w, s') == SpentBy(w, s)
    ensures s'.stages[i].Metering? && s'.stages[i].agent == w.agent && s'.stages[i].usage == Bill(p)
    ensures s'.stages[i].rows == 0 && s'.lock == s.lock
  {
    InFlightStep(w.setup, s, Call(i, Some(Bill(p))), w.agent);
    Goes(w, acts, s, Call(i, Some(Bill(p))));
    acts', s' := acts + [Call(i, Some(Bill(p)))], Apply(w.setup, s, Call(i, Some(Bill(p))));
  }

  /** The next row of request i's bill is written. */
  lemma Writes(w: Load, acts: seq<Action>, s: State, i: nat) returns (acts': seq<Action>, s': State)
    requires Leads(w, acts, s) && Ready(w, i) && InFlight(w.agent, s) <= w.k
    requires s.stages[i].Metering? && s.stages[i].agent == w.agent && s.stages[i].rows < 3
    requires s.lock.workers[i].pc.Uncached?
    ensures Leads(w, acts', s') && acts' == acts + [Meter(i, true)] && Beside(s, s', i) && s'.lock == s.lock
    ensures var first := s.stages[i].rows == 0;
            && InFlight(w.agent, s') == InFlight(w.agent, s) - (if first then 1 else 0)
            && SpentBy(w, s') == SpentBy(w, s) + if first then s.stages[i].usage.usd else 0.0
    ensures if s.stages[i].rows == 2 then s'.stages[i].Metered?
            else s'.stages[i].Metering? && s'.stages[i].agent == w.agent && s'.stages[i].rows == s.stages[i].rows + 1
  {
    InFlightStep(w.setup, s, Meter(i, true), w.agent);
    RowSpend(w.setup, s, Meter(i, true), w.agent);
    Goes(w, acts, s, Meter(i, true));
    acts', s' := acts + [Meter(i, true)], Apply(w.setup, s, Meter(i, true));
  }

  /** One request in flight pays p and writes its whole bill. */
  lemma Pays(w: Load, acts: seq<Action>, s: State, i: nat, p: real) returns (acts': seq<Action>, s': State)
    requires Leads(w, acts, s) && Ready(w, i) && Poised(w, s, i) && p <= w.c && InFlight(w.agent, s) <= w.k
    ensures Leads(w, acts', s') && acts <= acts' && Beside(s, s', i)
    ensures SpentBy(w, s') == SpentBy(w, s) + p && InFlight(w.agent, s') == InFlight(w.agent, s) - 1
  {
    acts', s' := IsAnswered(w, acts, s, i, p);
    acts', s' := Writes(w, acts', s', i);
    acts', s' := Writes(w, acts', s', i);
    acts', s' := Writes(w, acts', s', i);
  }

  ghost predicate AllReady(w: Load, from: nat, to: nat) {
    forall j: nat | from <= j < to :: Ready(w, j)
  }

  ghost predicate AllUntouched(s: State, from: nat, to: nat) {
    forall j: nat | from <= j < to :: Untouched(s, j)
  }

  ghost predicate AllPoised(w: Load, s: State, from: nat, to: nat) {
    forall j: nat | from <= j < to :: Poised(w, s, j)
  }

  lemma UntouchedStay(s: State, s': State, i: nat, from: nat, to: nat)
    requires Beside(s, s', i) && AllUntouched(s, from, to) && i < from
    ensures AllUntouched(s', from, to)
  {
    forall j: nat | from <= j < to ensures Untouched(s', j) { assert Untouched(s, j); }
  }

  lemma PoisedStay(w: Load, s: State, s': State, i: nat, from: nat, to: nat)
    requires Beside(s, s', i) && AllPoised(w, s, from, to) && !(from <= i < to)
    ensures AllPoised(w, s', from, to)
  {
    forall j: nat | from <= j < to ensures Poised(w, s', j) { assert Poised(w, s, j); }
  }

  /** A request passes the check and pays before anybody else moves. */
  lemma PassesAndPays(w: Load, acts: seq<Action>, s: State, i: nat, p: real) returns (acts': seq<Action>, s': State)
    requires w.setup.lock.order.CommitThenUnlock? && Leads(w, acts, s) && w.k >= 1 && p <= w.c
    requires Ready(w, i) && AllUntouched(s, i, w.n)
    requires InFlight(w.agent, s) == 0 && SpentBy(w, s) < w.setup.policy.LimitFor(w.agent)
    ensures Leads(w, acts', s') && acts <= acts' && InFlight(w.agent, s') == 0
    ensures SpentBy(w, s') == SpentBy(w, s) + p && AllUntouched(s', i + 1, w.n)
  {
    var passed, s1 := Passes(w, acts, s, i);
    UntouchedStay(s, s1, i, i + 1, w.n);
    acts', s' := Pays(w, passed, s1, i, p);
    UntouchedStay(s1, s', i, i + 1, w.n);
  }

  /** The first of the m requests from i on. */
  lemma FirstOf(w: Load, acts: seq<Action>, s: State, i: nat, m: nat, p: real) returns (acts': seq<Action>, s': State)
    requires w.setup.lock.order.CommitThenUnlock? && Leads(w, acts, s) && w.k >= 1 && 0.0 <= p <= w.c && m > 0
    requires AllReady(w, i, i + m) && AllUntouched(s, i, w.n)
    requires InFlight(w.agent, s) == 0 && SpentBy(w, s) + Times(p, m) < w.setup.policy.LimitFor(w.agent)
    ensures Leads(w, acts', s') && acts <= acts' && InFlight(w.agent, s') == 0
    ensures AllReady(w, i + 1, i + m) && AllUntouched(s', i + 1, w.n)
    ensures SpentBy(w, s') + Times(p, m - 1) == SpentBy(w, s) + Times(p, m)
  {
    TimesGrows(p, 0, m);
    assert Ready(w, i);
    acts', s' := PassesAndPays(w, acts, s, i, p);
  }

  /** m requests from i on, one after the other, each paying p, under the limit. */
  lemma {:induction false} Serial(w: Load, acts: seq<Action>, s: State, i: nat, m: nat, p: real)
    returns (acts': seq<Action>, s': State)
    requires w.setup.lock.order.CommitThenUnlock? && Leads(w, acts, s) && w.k >= 1 && 0.0 <= p <= w.c
    requires AllReady(w, i, i + m) && AllUntouched(s, i, w.n)
    requires InFlight(w.agent, s) == 0 && SpentBy(w, s) + Times(p, m) < w.setup.policy.LimitFor(w.agent)
    ensures Leads(w, acts', s') && acts <= acts' && InFlight(w.agent, s') == 0
    ensures SpentBy(w, s') == SpentBy(w, s) + Times(p, m) && AllUntouched(s', i + m, w.n)
    decreases m
  {
    acts', s' := acts, s;
    if m > 0 {
      var paid, s1 := FirstOf(w, acts, s, i, m, p);
      acts', s' := Serial(w, paid, s1, i + 1, m - 1, p);
    }
  }

  /** m requests from i on all pass the check before any of them pays; those from first
      on have done so already. */
  lemma {:induction false} Rush(w: Load, acts: seq<Action>, s: State, first: nat, i: nat, m: nat)
    returns (acts': seq<Action>, s': State)
    requires w.setup.lock.order.CommitThenUnlock? && Leads(w, acts, s) && InFlight(w.agent, s) + m <= w.k
    requires first <= i && AllPoised(w, s, first, i) && AllReady(w, i, i + m) && AllUntouched(s, i, i + m)
    requires SpentBy(w, s) < w.setup.policy.LimitFor(w.agent)
    ensures Leads(w, acts', s') && acts <= acts' && AllPoised(w, s', first, i + m)
    ensures SpentBy(w, s') == SpentBy(w, s) && InFlight(w.agent, s') == InFlight(w.agent, s) + m
    decreases m
  {
    acts', s' := acts, s;
    if m > 0 {
      assert Ready(w, i) && Untouched(s, i);
      var passed, s1 := Passes(w, acts, s, i);
      PoisedStay(w, s, s1, i, first, i);
      UntouchedStay(s, s1, i, i + 1, i + m);
      acts', s' := Rush(w, passed, s1, first, i + 1, m - 1);
    }
  }

  /** The first of the requests poised from i on pays the most. */
  lemma PaysInTurn(w: Load, acts: seq<Action>, s: State, i: nat, to: nat) returns (acts': seq<Action>, s': State)
    requires Leads(w, acts, s) && InFlight(w.agent, s) <= w.k && i < to
    requires AllReady(w, i, to) && AllPoised(w, s, i, to)
    ensures Leads(w, acts', s') && acts <= acts' && AllReady(w, i + 1, to) && AllPoised(w, s', i + 1, to)
    ensures SpentBy(w, s') == SpentBy(w, s) + w.c && InFlight(w.agent, s') == InFlight(w.agent, s) - 1
  {
    assert Ready(w, i) && Poised(w, s, i);
    acts', s' := Pays(w, acts, s, i, w.c);
    PoisedStay(w, s, s', i, i + 1, to);
  }

  /** m requests in flight from i on all pay the most. */
  lemma {:induction false} Settle(w: Load, acts: seq<Action>, s: State, i: nat, m: nat)
    returns (acts': seq<Action>, s': State)
    requires Leads(w, acts, s) && m <= InFlight(w.agent, s) <= w.k
    requires AllReady(w, i, i + m) && AllPoised(w, s, i, i + m)
    ensures Leads(w, acts', s') && acts <= acts'
    ensures SpentBy(w, s') == SpentBy(w, s) + Times(w.c, m)
    decreases m
  {
    acts', s' := acts, s;
    if m > 0 {
      var paid, s1 := PaysInTurn(w, acts, s, i, i + m);
      acts', s' := Settle(w, paid, s1, i + 1, m - 1);
    }
  }

  /** The workload has m + k requests of the agent that only the budget can stop. */
  ghost predicate Enough(w: Load, m: nat) {
    w.setup.lock.order.CommitThenUnlock? && m + w.k <= w.n && AllReady(w, 0, m + w.k)
  }

  /** The race: m payments of p one after the other, under the limit, and then k
      requests that all pass the check before any of them pays c. */
  lemma Race(w: Load, m: nat, p: real) returns (before: seq<Action>, s: State, all: seq<Action>, s': State)
    requires Enough(w, m) && w.k >= 1 && 0.0 <= p <= w.c && Times(p, m) < w.setup.policy.LimitFor(w.agent)
    ensures Leads(w, before, s) && InFlight(w.agent, s) == 0 && SpentBy(w, s) == Times(p, m)
    ensures Leads(w, all, s') && before <= all && SpentBy(w, s') == Times(p, m) + Times(w.c, w.k)
  {
    NoneInFlight(w.agent, Live(Init(w.n, w.rows)));
    before, s := Serial(w, [], Init(w.n, w.rows), 0, m, p);
    all, s' := Rush(w, before, s, m, m, w.k);
    all, s' := Settle(w, all, s', m, w.k);
  }

  /** A share of q in m payments none of which is above c. */
  lemma Share(q: real, m: nat, c: real) returns (p: real)
    requires 0.0 <= q < Times(c, m)
    ensures 0.0 <= p <= c && Times(p, m) == q
  {
    p := q / m as real;
    TimesIsProduct(p, m);
    if p > c {
      TimesOrder(c, p, m);
      assert false;
    }
  }

  lemma {:induction false} TimesOrder(c: real, d: real, n: nat)
    requires c <= d
    ensures Times(c, n) <= Times(d, n)
  {
    if n > 0 { TimesOrder(c, d, n - 1); }
  }

  /** Every run of the workload within its bounds keeps what the agent has spent below
      its limit plus x. */
  ghost predicate StaysBelow(w: Load, x: real) {
    forall acts | Run(w.setup, Init(w.n, w.rows), acts)
                  && Bounded(w.setup, Init(w.n, w.rows), acts, w.agent, w.k, w.c) ::
      SpentBy(w, After(w.setup, w.n, w.rows, acts)) < w.setup.policy.LimitFor(w.agent) + x
  }

  /** A run that takes the agent to its limit plus x, when x is less than k times c. */
  lemma Exceeds(w: Load, m: nat, x: real) returns (acts: seq<Action>, s: State)
    requires Enough(w, m) && w.k >= 1 && x < Times(w.c, w.k)
    requires 0.0 < w.setup.policy.LimitFor(w.agent) <= Times(w.c, m)
    ensures Leads(w, acts, s) && SpentBy(w, s) >= w.setup.policy.LimitFor(w.agent) + x
  {
    var p := Below(w.setup.policy.LimitFor(w.agent), Times(w.c, w.k) - x, m, w.c);
    var before, s0;
    before, s0, acts, s := Race(w, m, p);
  }

  /** m payments that together stay below the limit, by no more than the amount given. */
  lemma Below(limit: real, gap: real, m: nat, c: real) returns (p: real)
    requires 0.0 < limit <= Times(c, m) && gap > 0.0
    ensures 0.0 <= p <= c && limit - gap <= Times(p, m) < limit
  {
    p := Share(if gap >= limit then 0.0 else limit - gap, m, c);
  }

  /** How far concurrent requests can overshoot: with at most k computes of the agent in
      flight that cost at most c each, its recorded spend always stays below its limit
      plus x if and only if x is at least k times c. */
  lemma OvershootIsExact(w: Load, m: nat, x: real)
    requires Enough(w, m) && w.k >= 1 && w.c > 0.0
    requires 0.0 < w.setup.policy.LimitFor(w.agent) <= w.c * m as real
    ensures StaysBelow(w, x) <==> x >= w.c * w.k as real
  {
    TimesIsProduct(w.c, w.k);
    TimesIsProduct(w.c, m);
    if x >= Times(w.c, w.k) { NeverExceeds(w, x); } else { CanExceed(w, m, x); }
  }

  lemma CanExceed(w: Load, m: nat, x: real)
    requires Enough(w, m) && w.k >= 1 && x < Times(w.c, w.k)
    requires 0.0 < w.setup.policy.LimitFor(w.agent) <= Times(w.c, m)
    ensures !StaysBelow(w, x)
  {
    var acts, s := Exceeds(w, m, x);
  }

  lemma NeverExceeds(w: Load, x: real)
    requires w.setup.lock.order.CommitThenUnlock? && w.c >= 0.0 && x >= Times(w.c, w.k)
    requires w.setup.policy.LimitFor(w.agent) > 0.0
    ensures StaysBelow(w, x)
  {
    TimesGrows(w.c, 0, w.k);
    forall acts | Run(w.setup, Init(w.n, w.rows), acts) && Bounded(w.setup, Init(w.n, w.rows), acts, w.agent, w.k, w.c)
      ensures SpentBy(w, After(w.setup, w.n, w.rows, acts)) < w.setup.policy.LimitFor(w.agent) + x
    {
      OvershootBound(w.setup, w.n, w.rows, acts, w.agent, w.k, w.c);
    }
  }

  /** The check-then-act race is real: an agent can be below its limit with nothing in
      flight, and then two requests that cost c each take it above the limit plus c. */
  lemma {:induction false} RaceOvershoots(w: Load, m: nat)
    returns (before: seq<Action>, s: State, all: seq<Action>, s': State)
    requires Enough(w, m) && w.k == 2 && w.c > 0.0
    requires 0.0 < w.setup.policy.LimitFor(w.agent) <= w.c * m as real
    ensures Leads(w, before, s) && InFlight(w.agent, s) == 0 && SpentBy(w, s) < w.setup.policy.LimitFor(w.agent)
    ensures Leads(w, all, s') && before <= all && SpentBy(w, s') > w.setup.policy.LimitFor(w.agent) + w.c
  {
    TimesIsProduct(w.c, m);
    TimesIsProduct(w.c, 2);
    var p := Below(w.setup.policy.LimitFor(w.agent), w.c / 2.0, m, w.c);
    before, s, all, s' := Race(w, m, p);
  }
}
