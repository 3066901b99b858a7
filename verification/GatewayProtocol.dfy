/** handle_completion over the idempotency cache: any number of concurrent requests,
    each database statement, provider call and cost row a step of its own.  The cache
    is the lock protocol; compute() is what a request does while the protocol has it
    Computing (or Uncached).  A crash of a replica stops its requests where they are.
    One UTC day; policies are data. */
module GatewayProtocol {
  import opened Common
  import opened GatewayTypes
  import opened Repository
  import L = LockProtocol

  /** One entry of budgets.yaml; an absent field falls through to the defaults. */
  datatype Limits = Limits(dailyUsd: Option<real>, softRatio: Option<real>)

  datatype Policy = Policy(defaults: Limits, agents: map<string, Limits>, downgrade: map<string, string>) {
    /** limits_for */
    function LimitFor(agent: string): real {
      if agent in agents && agents[agent].dailyUsd.Some? then agents[agent].dailyUsd.value
      else if defaults.dailyUsd.Some? then defaults.dailyUsd.value else 20.0
    }

    function RatioFor(agent: string): real {
      if agent in agents && agents[agent].softRatio.Some? then agents[agent].softRatio.value
      else if defaults.softRatio.Some? then defaults.softRatio.value else 0.8
    }

    /** downgrade_tier */
    function Downgrade(tier: string): string {
      if tier in downgrade then downgrade[tier] else tier
    }

    /** check_and_apply_budget, given the spend it read. */
    function Decide(agent: string, tier: string, spend: real): (string, BudgetState) {
      if spend >= LimitFor(agent) then (tier, HardBreach)
      else if spend >= LimitFor(agent) * RatioFor(agent) then (Downgrade(tier), SoftBreach)
      else (tier, WithinBudget)
    }
  }

  /** A request, with what the stateless checks in front of the cache make of it. */
  datatype Request = Request(
    wellFormed: bool,            // the contract schema holds; model and messages are there
    deliberate: bool,
    tier: Option<string>,        // the routed tier; None for an unknown model
    blocked: bool,               // the redaction firewall matches
    run: string)                 // agent_run_id

  datatype Setup = Setup(
    lock: L.Config,
    request: nat -> Request,
    agentOf: string -> string,   // agent_runs.agent_name
    policy: Policy,
    deliberateEnabled: bool)
  {
    function Agent(i: nat): string { agentOf(request(i).run) }
  }

  datatype Refusal = InvalidRequest | NotImplemented | UnknownModel | RedactionBlocked

  /** What a provider call came to. */
  datatype Usage = Usage(provider: string, usd: real, tokens: real, ms: real)

  /** Where a request is in handle_completion and its _compute closure. */
  datatype Stage =
    | Fresh
    | Refused(why: Refusal)                                  // answered 400
    | Blocking                                               // firewall matched; its gate row is next
    | InCache                                                // in get_or_compute, no effect of its own yet
    | Breached                                               // budget exhausted; the gate row is next
    | Queued(gate: nat)                                      // gate row written; answered 429 once raised
    | Cleared(agent: string, tier: string, state: BudgetState)      // budget passed; the provider is next
    | Metering(agent: string, tier: string, state: BudgetState, usage: Usage, rows: nat, usdRow: nat) // cost rows so far
    | Metered(tier: string, state: BudgetState, usage: Usage, rows: nat, usdRow: nat)    // body built, rows written
    | Broke                                                  // some other exception: answered 500

  /** A cost row and the request that wrote it. */
  datatype Entry = Entry(req: nat, cost: Cost)

  datatype State = State(
    lock: L.State,
    stages: seq<Stage>,
    costs: seq<Entry>,
    gates: seq<Gate>,
    called: seq<nat>)            // history: the provider calls, by request

  datatype Action =
    | Check(i: nat)                          // steps 0 to 3
    | RecordBlock(i: nat)
    | Cache(a: L.Action)                     // a crash, or a cache step but the end of compute()
    | Budget(i: nat)                         // check_and_apply_budget
    | Queue(i: nat)                          // the hard breach's gate row
    | Call(i: nat, usage: Option<Usage>)     // provider.complete; None when it raises
    | Meter(i: nat, ok: bool)                // the next cost row, or its failure
    | Break(i: nat)                          // any other statement of _compute raises
    | Leave(i: nat)                          // _compute returns or raises

  /** Steps 0 to 3: validation, the deliberate flag, routing, the redaction scan. */
  function AdmissionOf(q: Request, deliberateEnabled: bool): Stage {
    if !q.wellFormed || q.run == "" then Refused(InvalidRequest)
    else if q.deliberate && !deliberateEnabled then Refused(NotImplemented)
    else if q.tier.None? then Refused(UnknownModel)
    else if q.blocked then Blocking
    else InCache
  }

  function Admission(setup: Setup, i: nat): Stage {
    AdmissionOf(setup.request(i), setup.deliberateEnabled)
  }

  /** The cost row a metering request writes next. */
  function NextRow(setup: Setup, s: State, i: nat, usage: Usage, rows: nat): Entry
    requires rows < 3
  {
    var run := setup.request(i).run;
    Entry(i, match rows
             case 0 => Cost(|s.costs|, run, usage.provider, Usd, usage.usd)
             case 1 => Cost(|s.costs|, run, usage.provider, Tokens, usage.tokens)
             case 2 => Cost(|s.costs|, run, usage.provider, Ms, usage.ms))
  }

  function UsdOf(setup: Setup, agent: string): Entry -> real {
    (e: Entry) => UsdFor(setup.agentOf, agent)(e.cost)
  }

  /** The recorded spend of an agent: the sum of its usd rows. */
  function SpendOf(setup: Setup, agent: string, costs: seq<Entry>): real {
    SumBy(UsdOf(setup, agent), costs)
  }

  /** What the budget check of request i comes to when these rows are there. */
  function Ruling(setup: Setup, i: nat, costs: seq<Entry>): (string, BudgetState) {
    setup.policy.Decide(setup.Agent(i), setup.request(i).tier.GetOr(""), SpendOf(setup, setup.Agent(i), costs))
  }

  predicate InCompute(s: State, i: nat) {
    i < |s.lock.workers| && (s.lock.workers[i].pc.Computing? || s.lock.workers[i].pc.Uncached?)
  }

  predicate Alive(s: State, i: nat) { i < |s.lock.workers| && !s.lock.workers[i].pc.Dead? }

  /** Past the checks in front of the cache. */
  predicate Admitted(stage: Stage) { !stage.Fresh? && !stage.Refused? && !stage.Blocking? }

  /** How _compute ends, if it can end now: its result, or its exception. */
  function Ending(i: nat, stage: Stage): Option<Option<Response>> {
    match stage
    case Metered(tier, state, _, rows, usdRow) =>
      Some(Some(Response(i, tier, state, if rows == 3 then Some(usdRow) else None)))
    case Queued(_) => Some(None)
    case Broke => Some(None)
    case _ => None
  }

  predicate Enabled(setup: Setup, s: State, a: Action) {
    && |s.stages| == |s.lock.workers|
    && match a
       case Check(i) => i < |s.stages| && s.stages[i].Fresh? && Alive(s, i)
       case RecordBlock(i) => i < |s.stages| && s.stages[i].Blocking? && Alive(s, i)
       case Cache(l) =>
         !l.Finish? && (l.Crash? || (l.c < |s.stages| && Admitted(s.stages[l.c]))) && L.Enabled(setup.lock, s.lock, l)
       case Budget(i) => i < |s.stages| && s.stages[i].InCache? && InCompute(s, i)
       case Queue(i) => i < |s.stages| && s.stages[i].Breached? && InCompute(s, i)
       case Call(i, _) => i < |s.stages| && s.stages[i].Cleared? && InCompute(s, i)
       case Meter(i, _) => i < |s.stages| && s.stages[i].Metering? && s.stages[i].rows < 3 && InCompute(s, i)
       case Break(i) =>
         i < |s.stages| && InCompute(s, i)
         && (s.stages[i].InCache? || s.stages[i].Breached? || s.stages[i].Cleared?)
       case Leave(i) => i < |s.stages| && InCompute(s, i) && Ending(i, s.stages[i]).Some?
  }

  function At(s: State, i: nat, stage: Stage): State
    requires i < |s.stages|
  {
    s.(stages := s.stages[i := stage])
  }

  function Apply(setup: Setup, s: State, a: Action): State
    requires Enabled(setup, s, a)
  {
    match a
    case Check(i) => At(s, i, Admission(setup, i))
    case RecordBlock(i) =>
      At(s, i, Refused(RedactionBlocked))
      .(gates := s.gates + [Gate(|s.gates|, setup.request(i).run, RedactionFirewall, Rejected)])
    case Cache(l) => s.(lock := L.Apply(setup.lock, s.lock, l))
    case Budget(i) =>
      var (tier, state) := Ruling(setup, i, s.costs);
      At(s, i, if state.HardBreach? then Breached else Cleared(setup.Agent(i), tier, state))
    case Queue(i) =>
      At(s, i, Queued(|s.gates|))
      .(gates := s.gates + [Gate(|s.gates|, setup.request(i).run, BudgetGate, Escalated)])
    case Call(i, usage) =>
      var st := s.stages[i];
      At(s, i, if usage.Some? then Metering(st.agent, st.tier, st.state, usage.value, 0, 0) else Broke)
      .(called := s.called + [i])
    case Meter(i, ok) =>
      var st := s.stages[i];
      if ok then
        var usdRow := if st.rows == 0 then |s.costs| else st.usdRow;
        At(s, i, if st.rows == 2 then Metered(st.tier, st.state, st.usage, 3, usdRow)
                 else Metering(st.agent, st.tier, st.state, st.usage, st.rows + 1, usdRow))
        .(costs := s.costs + [NextRow(setup, s, i, st.usage, st.rows)])
      else
        At(s, i, Metered(st.tier, st.state, st.usage, st.rows, st.usdRow))
    case Break(i) => At(s, i, Broke)
    case Leave(i) =>
      s.(lock := L.Apply(setup.lock, s.lock, L.Finish(i, Ending(i, s.stages[i]).value)))
  }

  function Init(n: nat, rows: map<string, Response>): State {
    State(L.Init(n, rows), seq(n, _ => Fresh), [], [], [])
  }

  ghost predicate Run(setup: Setup, s: State, acts: seq<Action>)
    decreases |acts|
  {
    acts != [] ==> Enabled(setup, s, acts[0]) && Run(setup, Apply(setup, s, acts[0]), acts[1..])
  }

  ghost function Final(setup: Setup, s: State, acts: seq<Action>): State
    requires Run(setup, s, acts)
    decreases |acts|
  {
    if acts == [] then s else Final(setup, Apply(setup, s, acts[0]), acts[1..])
  }

  ghost predicate CrashFree(acts: seq<Action>) {
    forall i | 0 <= i < |acts| :: !(acts[i].Cache? && acts[i].a.Crash?)
  }

  /** A run can be continued by one more step. */
  lemma {:induction false} RunExtends(setup: Setup, s: State, acts: seq<Action>, a: Action)
    requires Run(setup, s, acts) && Enabled(setup, Final(setup, s, acts), a)
    ensures Run(setup, s, acts + [a])
    ensures Final(setup, s, acts + [a]) == Apply(setup, Final(setup, s, acts), a)
    decreases |acts|
  {
    var all := acts + [a];
    if acts == [] {
      assert all[1..] == [];
    } else {
      assert all[0] == acts[0] && all[1..] == acts[1..] + [a];
      RunExtends(setup, Apply(setup, s, acts[0]), acts[1..], a);
    }
  }

  // -- What the callers see -----------------------------------------------------

  datatype Reply = NoReply | Status200(r: Response, hit: bool) | Status400(why: Refusal) | Status429(gate: nat) | Status500

  function ReplyTo(s: State, i: nat): Reply
    requires i < |s.stages| == |s.lock.workers|
  {
    match s.stages[i]
    case Refused(why) => Status400(why)
    case stage =>
      match s.lock.workers[i].pc
      case Returned(r, hit) => Status200(r, hit)
      case Raised => if stage.Queued? then Status429(stage.gate) else Status500
      case _ => NoReply
  }
}
