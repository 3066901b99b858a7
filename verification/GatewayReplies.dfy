/** What a request is answered and billed, read off its own fields and the steps of the
    run: which refusal its fields mean, which steps lead to which reply, and whose
    amounts its cost rows carry. */
module GatewayReplies {
  import opened Common
  import opened GatewayTypes
  import opened Repository
  import opened GatewayProtocol
  import opened GatewayInvariant
  import opened GatewayTheorems
  import L = LockProtocol
  import LI = LockInvariant

  // -- Admission --------------------------------------------------------------------

  /** The request has what the later checks look at. */
  ghost predicate Readable(q: Request) { q.wellFormed && q.run != "" }

  /** It asks for the deliberate hint while that is switched off. */
  ghost predicate Premature(q: Request, deliberateEnabled: bool) { q.deliberate && !deliberateEnabled }

  /** The fields of a request that is refused for this reason: each check is reached only
      if the ones before it pass. */
  ghost predicate Barred(q: Request, deliberateEnabled: bool, why: Refusal) {
    match why
    case InvalidRequest => !Readable(q)
    case NotImplemented => Readable(q) && Premature(q, deliberateEnabled)
    case UnknownModel => Readable(q) && !Premature(q, deliberateEnabled) && q.tier.None?
    case RedactionBlocked => Readable(q) && !Premature(q, deliberateEnabled) && q.tier.Some? && q.blocked
  }

  ghost predicate BarredAtAll(q: Request, deliberateEnabled: bool) {
    exists why :: Barred(q, deliberateEnabled, why)
  }

  lemma AdmissionMeans(q: Request, deliberateEnabled: bool)
    ensures var stage := AdmissionOf(q, deliberateEnabled);
            && (stage.InCache? <==> Readable(q) && !Premature(q, deliberateEnabled) && q.tier.Some? && !q.blocked)
            && (stage.InCache? <==> !BarredAtAll(q, deliberateEnabled))
            && (stage.Blocking? <==> Barred(q, deliberateEnabled, RedactionBlocked))
            && (stage.InCache? || stage.Blocking? || stage.Refused?)
            && forall why :: stage == Refused(why) <==> Barred(q, deliberateEnabled, why) && why != RedactionBlocked
  {
    var stage := AdmissionOf(q, deliberateEnabled);
    if !stage.InCache? {
      var why := if stage.Refused? then stage.why else RedactionBlocked;
      assert Barred(q, deliberateEnabled, why);
    }
  }

  /** Where the admission checks can have led request i by now. */
  ghost predicate PlaceOf(setup: Setup, i: nat, stage: Stage) {
    || stage.Fresh?
    || (stage == Admission(setup, i))
    || (Admission(setup, i).Blocking? && stage == Refused(RedactionBlocked))
    || (Admission(setup, i).InCache? && Admitted(stage))
  }

  lemma PlaceStep(setup: Setup, s: State, a: Action, i: nat)
    requires Enabled(setup, s, a) && i < |s.stages| && PlaceOf(setup, i, s.stages[i])
    ensures |Apply(setup, s, a).stages| == |s.stages| && PlaceOf(setup, i, Apply(setup, s, a).stages[i])
  {
  }

  lemma {:induction false} RunPlaces(setup: Setup, s: State, acts: seq<Action>, i: nat)
    requires Run(setup, s, acts) && i < |s.stages| && PlaceOf(setup, i, s.stages[i])
    ensures |Final(setup, s, acts).stages| == |s.stages| && PlaceOf(setup, i, Final(setup, s, acts).stages[i])
    decreases |acts|
  {
    if acts != [] {
      PlaceStep(setup, s, acts[0], i);
      RunPlaces(setup, Apply(setup, s, acts[0]), acts[1..], i);
    }
  }

  lemma AfterPlaces(setup: Setup, n: nat, rows: map<string, Response>, acts: seq<Action>, i: nat)
    requires setup.lock.order.CommitThenUnlock? && Run(setup, Init(n, rows), acts)
    requires i < |After(setup, n, rows, acts).stages|
    ensures PlaceOf(setup, i, After(setup, n, rows, acts).stages[i])
  {
    StagesLast(setup, Init(n, rows), acts);
    RunPlaces(setup, Init(n, rows), acts, i);
  }

  lemma {:induction false} StagesLast(setup: Setup, s: State, acts: seq<Action>)
    requires Run(setup, s, acts)
    ensures |Final(setup, s, acts).stages| == |s.stages|
    decreases |acts|
  {
    if acts != [] { StagesLast(setup, Apply(setup, s, acts[0]), acts[1..]); }
  }

  /** In every run the fields of a request decide whether it is refused and why: if they
      bar it, it calls no provider, leaves no cost row and has no other reply than that
      refusal; and no other request is ever answered 400. */
  lemma {:induction false} RefusedByFields(setup: Setup, n: nat, rows: map<string, Response>, acts: seq<Action>, i: nat)
    requires setup.lock.order.CommitThenUnlock? && Run(setup, Init(n, rows), acts)
    requires i < |After(setup, n, rows, acts).stages| == |After(setup, n, rows, acts).lock.workers|
    ensures var s := After(setup, n, rows, acts);
            && (ReplyTo(s, i).Status400? ==> Barred(setup.request(i), setup.deliberateEnabled, ReplyTo(s, i).why))
            && forall why | Barred(setup.request(i), setup.deliberateEnabled, why) ::
                 && ReplyTo(s, i) in {NoReply, Status400(why)}
                 && i !in s.called && RowsOf(i, s.costs) == []
  {
    var s := After(setup, n, rows, acts);
    AfterInv(setup, n, rows, acts);
    AfterPlaces(setup, n, rows, acts, i);
    AdmissionMeans(setup.request(i), setup.deliberateEnabled);
    assert StageOf(setup, s, i) && BillOf(setup, s, i);
  }

  /** Nothing the firewall matches goes upstream: no provider call, no cost row, no other
      reply than a 400. */
  lemma {:induction false} BlockedStaysInside(setup: Setup, n: nat, rows: map<string, Response>, acts: seq<Action>, i: nat)
    requires setup.lock.order.CommitThenUnlock? && Run(setup, Init(n, rows), acts)
    requires i < |After(setup, n, rows, acts).stages| == |After(setup, n, rows, acts).lock.workers|
    requires setup.request(i).blocked
    ensures var s := After(setup, n, rows, acts);
            && i !in s.called && RowsOf(i, s.costs) == []
            && (ReplyTo(s, i) == NoReply || ReplyTo(s, i).Status400?)
  {
    AdmissionMeans(setup.request(i), setup.deliberateEnabled);
    var why :| Barred(setup.request(i), setup.deliberateEnabled, why);
    RefusedByFields(setup, n, rows, acts, i);
  }

  // -- Replies ----------------------------------------------------------------------

  /** The provider answered request i in these steps. */
  ghost predicate WasAnswered(acts: seq<Action>, i: nat) { exists usage :: Call(i, Some(usage)) in acts }

  /** Something in request i's compute() raised in these steps. */
  ghost predicate WasBroken(acts: seq<Action>, i: nat) { Break(i) in acts || Call(i, None) in acts }

  lemma HistoryStep(setup: Setup, s: State, a: Action, i: nat)
    requires Enabled(setup, s, a) && i < |s.stages|
    ensures |Apply(setup, s, a).stages| == |s.stages|
    ensures var was, now := s.stages[i], Apply(setup, s, a).stages[i];
            && (now.Queued? <==> was.Queued? || a == Queue(i))
            && (now.Broke? <==> was.Broke? || a == Break(i) || a == Call(i, None))
            && (Billed(now) <==> Billed(was) || (a.Call? && a.i == i && a.usage.Some?))
            && (Billed(now) ==> now.usage == if Billed(was) then was.usage else a.usage.value)
  {
  }

  lemma {:induction false} RunHistory(setup: Setup, s: State, acts: seq<Action>, i: nat)
    requires Run(setup, s, acts) && i < |s.stages|
    ensures |Final(setup, s, acts).stages| == |s.stages|
    ensures var was, now := s.stages[i], Final(setup, s, acts).stages[i];
            && (now.Queued? <==> was.Queued? || Queue(i) in acts)
            && (now.Broke? <==> was.Broke? || WasBroken(acts, i))
            && (Billed(now) <==> Billed(was) || WasAnswered(acts, i))
            && (Billed(now) ==> (Billed(was) && was.usage == now.usage) || Call(i, Some(now.usage)) in acts)
    decreases |acts|
  {
    if acts != [] {
      var next := Apply(setup, s, acts[0]);
      HistoryStep(setup, s, acts[0], i);
      RunHistory(setup, next, acts[1..], i);
      assert forall a :: a in acts <==> a == acts[0] || a in acts[1..];
      if acts[0].Call? && acts[0].i == i && acts[0].usage.Some? {
        assert Call(i, Some(acts[0].usage.value)) in acts;
      }
    }
  }

  /** Once the budget check has run the request is past it for good. */
  lemma {:induction false} RunChecks(setup: Setup, s: State, acts: seq<Action>, i: nat)
    requires Run(setup, s, acts) && i < |s.stages|
    ensures |Final(setup, s, acts).stages| == |s.stages|
    ensures Final(setup, s, acts).stages[i].InCache? ==>
              Budget(i) !in acts && (s.stages[i].InCache? || s.stages[i].Fresh?)
    decreases |acts|
  {
    if acts != [] {
      RunChecks(setup, Apply(setup, s, acts[0]), acts[1..], i);
      assert forall a :: a in acts <==> a == acts[0] || a in acts[1..];
    }
  }

  /** Which reply is given follows from the steps taken, whatever else runs: 429 exactly
      after the hard breach's gate row, 500 exactly after an exception, a computed answer
      exactly after the provider answered; and a request answered by the cache took no
      step of a compute() at all. */
  lemma {:induction false} ReplyIsHistory(setup: Setup, n: nat, rows: map<string, Response>, acts: seq<Action>, i: nat)
    requires setup.lock.order.CommitThenUnlock? && Run(setup, Init(n, rows), acts)
    requires i < |After(setup, n, rows, acts).stages| == |After(setup, n, rows, acts).lock.workers|
    requires ReplyTo(After(setup, n, rows, acts), i) != NoReply
    ensures var reply := ReplyTo(After(setup, n, rows, acts), i);
            && (reply.Status429? <==> Queue(i) in acts)
            && (reply.Status500? <==> WasBroken(acts, i))
            && (reply.Status200? && !reply.hit <==> WasAnswered(acts, i))
            && (reply.Status200? && reply.hit ==> Budget(i) !in acts)
  {
    var s := After(setup, n, rows, acts);
    AfterInv(setup, n, rows, acts);
    StagesLast(setup, Init(n, rows), acts);
    RunHistory(setup, Init(n, rows), acts, i);
    RunChecks(setup, Init(n, rows), acts, i);
    assert StageOf(setup, s, i) && LI.RecordOf(setup.lock, s.lock, i);
  }

  // -- Bills ------------------------------------------------------------------------

  /** The rows of a request are, in this order, the dollars, the tokens and the time that
      its own provider call reported, under its own run and that provider. */
  lemma {:induction false} BillIsUsage(setup: Setup, n: nat, rows: map<string, Response>, acts: seq<Action>, i: nat)
    returns (usage: Usage)
    requires setup.lock.order.CommitThenUnlock? && Run(setup, Init(n, rows), acts)
    requires i < |After(setup, n, rows, acts).stages|
    requires RowsOf(i, After(setup, n, rows, acts).costs) != []
    ensures Call(i, Some(usage)) in acts
    ensures var mine := RowsOf(i, After(setup, n, rows, acts).costs);
            && |mine| <= 3
            && (forall k | 0 <= k < |mine| :: mine[k].run == setup.request(i).run && mine[k].provider == usage.provider)
            && mine[0].unit == Usd && mine[0].amount == usage.usd
            && (|mine| > 1 ==> mine[1].unit == Tokens && mine[1].amount == usage.tokens)
            && (|mine| > 2 ==> mine[2].unit == Ms && mine[2].amount == usage.ms)
  {
    var s := After(setup, n, rows, acts);
    AfterInv(setup, n, rows, acts);
    StagesLast(setup, Init(n, rows), acts);
    RunHistory(setup, Init(n, rows), acts, i);
    assert BillOf(setup, s, i);
    usage := s.stages[i].usage;
    var mine := RowsOf(i, s.costs);
    forall k | 0 <= k < |mine| ensures IsDue(setup.request(i).run, s.stages[i], k, mine[k]) {}
  }

  // -- The policy -------------------------------------------------------------------

  /** What the policy file gives an agent: its own entry goes before the defaults, field
      by field, and 20 dollars and 0.8 stand in for what neither has. */
  ghost predicate Provides(policy: Policy, agent: string, limit: real, ratio: real) {
    var own := if agent in policy.agents then policy.agents[agent] else Limits(None, None);
    && (own.dailyUsd.Some? ==> limit == own.dailyUsd.value)
    && (own.dailyUsd.None? && policy.defaults.dailyUsd.Some? ==> limit == policy.defaults.dailyUsd.value)
    && (own.dailyUsd.None? && policy.defaults.dailyUsd.None? ==> limit == 20.0)
    && (own.softRatio.Some? ==> ratio == own.softRatio.value)
    && (own.softRatio.None? && policy.defaults.softRatio.Some? ==> ratio == policy.defaults.softRatio.value)
    && (own.softRatio.None? && policy.defaults.softRatio.None? ==> ratio == 0.8)
  }

  /** What an agent with this limit and ratio that asks for this tier gets at this spend:
      below the soft line the tier asked for, from there on one step down where the
      policy has a step, and from the limit on nothing. */
  ghost predicate Grants(policy: Policy, limit: real, ratio: real, asked: string, spend: real,
                         tier: string, budget: BudgetState) {
    && spend < limit
    && (spend < limit * ratio ==> budget == WithinBudget && tier == asked)
    && (spend >= limit * ratio ==> budget == SoftBreach)
    && (spend >= limit * ratio && asked in policy.downgrade ==> tier == policy.downgrade[asked])
    && (spend >= limit * ratio && asked !in policy.downgrade ==> tier == asked)
  }

  lemma DecideMeans(policy: Policy, agent: string, asked: string, spend: real)
    ensures Provides(policy, agent, policy.LimitFor(agent), policy.RatioFor(agent))
    ensures var (tier, budget) := policy.Decide(agent, asked, spend);
            && (budget.HardBreach? <==> spend >= policy.LimitFor(agent))
            && (!budget.HardBreach? ==>
                  Grants(policy, policy.LimitFor(agent), policy.RatioFor(agent), asked, spend, tier, budget))
  {
  }
}
