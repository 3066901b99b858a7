/** The costs and gate_decisions tables, and the in-memory repository that keeps a
    running total of each agent's spend beside them.  Amounts are exact rationals. */
module Repository {
  import opened Common

  datatype Unit = Usd | Tokens | Ms

  /** id stands for the row's uuid. */
  datatype Cost = Cost(id: nat, run: string, provider: string, unit: Unit, amount: real)

  datatype Decider = BudgetGate | RedactionFirewall

  datatype Decision = Rejected | Escalated

  datatype Gate = Gate(id: nat, run: string, decider: Decider, outcome: Decision)

  /** What this row adds to the usd spend of an agent. */
  function UsdFor(agentOf: string -> string, agent: string): Cost -> real {
    (c: Cost) => if c.unit.Usd? && agentOf(c.run) == agent then c.amount else 0.0
  }

  /** The daily spend as the SQL query computes it: the sum of the agent's usd rows. */
  function Spend(agentOf: string -> string, agent: string, costs: seq<Cost>): real {
    SumBy(UsdFor(agentOf, agent), costs)
  }

  /** The three rows of one metered completion. */
  function Bill(id: nat, run: string, provider: string, usd: real, tokens: real, ms: real): seq<Cost> {
    [Cost(id, run, provider, Usd, usd), Cost(id + 1, run, provider, Tokens, tokens), Cost(id + 2, run, provider, Ms, ms)]
  }

  lemma BillSpend(agentOf: string -> string, agent: string, costs: seq<Cost>, id: nat, run: string, provider: string,
                  usd: real, tokens: real, ms: real)
    ensures Spend(agentOf, agent, costs + Bill(id, run, provider, usd, tokens, ms))
            == Spend(agentOf, agent, costs) + if agentOf(run) == agent then usd else 0.0
  {
    var bill := Bill(id, run, provider, usd, tokens, ms);
    var f := UsdFor(agentOf, agent);
    SumByAppend(f, costs, bill);
    assert bill[1..] == [bill[1], bill[2]] && bill[1..][1..] == [bill[2]] && bill[1..][1..][1..] == [];
    assert SumBy(f, [bill[2]]) == 0.0;
    assert SumBy(f, bill[1..]) == 0.0;
  }

  function NameIn(names: map<string, string>, default: string): string -> string {
    (run: string) => if run in names then names[run] else default
  }

  /** Names of runs without rows do not matter to the spend. */
  lemma {:induction false} SpendByRunsPresent(f: string -> string, g: string -> string, agent: string, costs: seq<Cost>)
    requires forall i | 0 <= i < |costs| :: f(costs[i].run) == g(costs[i].run)
    ensures Spend(f, agent, costs) == Spend(g, agent, costs)
  {
    if costs != [] { SpendByRunsPresent(f, g, agent, costs[1..]); }
  }

  class FakeRepository {
    var costs: seq<Cost>
    var gates: seq<Gate>
    var agentNames: map<string, string>
    var dailySpend: map<string, real>
    var defaultAgent: string
    var nextId: nat
    ghost var seeded: map<string, real>   // what set_daily_spend left beyond the cost rows

    constructor (defaultAgent: string)
      ensures Balanced() && costs == [] && gates == [] && agentNames == map[] && seeded == map[]
      ensures this.defaultAgent == defaultAgent
    {
      costs, gates, agentNames, dailySpend, nextId := [], [], map[], map[], 0;
      seeded := map[];
      this.defaultAgent := defaultAgent;
    }

    /** get_agent_name */
    function AgentName(run: string): string reads this`agentNames, this`defaultAgent {
      if run in agentNames then agentNames[run] else defaultAgent
    }

    /** get_daily_spend */
    function DailySpend(agent: string): real reads this`dailySpend {
      if agent in dailySpend then dailySpend[agent] else 0.0
    }

    function Names(): string -> string reads this`agentNames, this`defaultAgent {
      NameIn(agentNames, defaultAgent)
    }

    ghost function Seed(agent: string): real reads this`seeded {
      if agent in seeded then seeded[agent] else 0.0
    }

    /** Each running total is the sum of that agent's usd rows. */
    ghost predicate TotalsBalance() reads this {
      forall agent :: DailySpend(agent) == Seed(agent) + Spend(Names(), agent, costs)
    }

    /** Row ids are distinct and below the next one. */
    ghost predicate IdsDistinct() reads this {
      && (forall i | 0 <= i < |costs| :: costs[i].id < nextId)
      && (forall i | 0 <= i < |gates| :: gates[i].id < nextId)
      && (forall i, j | 0 <= i < j < |costs| :: costs[i].id != costs[j].id)
      && (forall i, j | 0 <= i < j < |gates| :: gates[i].id != gates[j].id)
    }

    ghost predicate Balanced() reads this { TotalsBalance() && IdsDistinct() }

    /** set_agent_name: the totals stay balanced when the run has no usd row yet. */
    method SetAgentName(run: string, agent: string)
      requires Balanced()
      modifies this`agentNames
      ensures agentNames == old(agentNames)[run := agent]
      ensures (forall i | 0 <= i < |costs| :: costs[i].run != run) ==> Balanced()
    {
      var names := agentNames[run := agent];
      if forall i | 0 <= i < |costs| :: costs[i].run != run {
        forall other ensures Spend(NameIn(names, defaultAgent), other, costs) == Spend(Names(), other, costs) {
          SpendByRunsPresent(NameIn(names, defaultAgent), Names(), other, costs);
        }
      }
      agentNames := names;
    }

    /** set_daily_spend */
    method SetDailySpend(agent: string, usd: real)
      requires Balanced()
      modifies this`dailySpend, this`seeded
      ensures Balanced() && DailySpend(agent) == usd
      ensures forall other | other != agent :: DailySpend(other) == old(DailySpend(other))
    {
      seeded := seeded[agent := usd - Spend(Names(), agent, costs)];
      dailySpend := dailySpend[agent := usd];
    }

    /** insert_costs_rows: the id of the usd row, or a refusal that writes nothing. */
    method InsertCostsRows(run: string, provider: string, usd: real, tokens: real, ms: real) returns (id: Option<nat>)
      requires Balanced()
      modifies this`costs, this`dailySpend, this`nextId
      ensures Balanced()
      ensures id.Some? <==> run != ""
      ensures id.None? ==> costs == old(costs) && dailySpend == old(dailySpend)
      ensures id.Some? ==>
                && costs == old(costs) + [Cost(id.value, run, provider, Usd, usd),
                                          Cost(id.value + 1, run, provider, Tokens, tokens),
                                          Cost(id.value + 2, run, provider, Ms, ms)]
                && (forall i | 0 <= i < |old(costs)| :: old(costs)[i].id != id.value)
      ensures forall agent :: DailySpend(agent)
                == old(DailySpend(agent)) +
                   if run != "" && agent == (if run in agentNames then agentNames[run] else defaultAgent) then usd else 0.0
    {
      if run == "" {
        return None;
      }
      ghost var before := costs;
      var first := AppendBill(run, provider, usd, tokens, ms);
      var agent := AgentName(run);
      dailySpend := dailySpend[agent := DailySpend(agent) + usd];
      forall other ensures DailySpend(other) == Seed(other) + Spend(Names(), other, costs) {
        BillSpend(Names(), other, before, first, run, provider, usd, tokens, ms);
      }
      id := Some(first);
    }

    /** The loop over the three units; the id of the usd row. */
    method AppendBill(run: string, provider: string, usd: real, tokens: real, ms: real) returns (usdRow: nat)
      requires IdsDistinct()
      modifies this`costs, this`nextId
      ensures usdRow == old(nextId) && costs == old(costs) + Bill(usdRow, run, provider, usd, tokens, ms)
      ensures IdsDistinct()
    {
      var rows := [(Usd, usd), (Tokens, tokens), (Ms, ms)];
      usdRow := 0;
      ghost var first, bill := nextId, Bill(nextId, run, provider, usd, tokens, ms);
      for k := 0 to 3
        invariant nextId == first + k && IdsDistinct()
        invariant costs == old(costs) + bill[..k]
        invariant usdRow == if k == 0 then 0 else first
      {
        var (unit, amount) := rows[k];
        if unit == Usd { usdRow := nextId; }
        costs := costs + [Cost(nextId, run, provider, unit, amount)];
        nextId := nextId + 1;
        assert bill[..k + 1] == bill[..k] + [bill[k]];
      }
      assert bill[..3] == bill;
    }

    /** gate_decisions insert: an append, never an update. */
    method InsertGateDecision(run: string, decider: Decider, outcome: Decision) returns (id: Option<nat>)
      requires Balanced()
      modifies this`gates, this`nextId
      ensures Balanced()
      ensures id.Some? <==> run != ""
      ensures gates == old(gates) + if id.Some? then [Gate(id.value, run, decider, outcome)] else []
      ensures id.Some? ==> forall i | 0 <= i < |old(gates)| :: old(gates)[i].id != id.value
    {
      if run == "" {
        return None;
      }
      id := Some(nextId);
      gates := gates + [Gate(nextId, run, decider, outcome)];
      nextId := nextId + 1;
    }
  }
}
