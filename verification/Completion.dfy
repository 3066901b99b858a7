/** handle_completion as the code runs it, one request at a time, on the in-memory
    repository and the single-process cache: validation, routing, redaction, cache,
    budget, provider, metering, in that order.  GatewayProtocol has the same steps
    interleaved. */
module Completion {
  import opened Common
  import opened GatewayTypes
  import opened Repository
  import opened GatewayProtocol
  import opened GatewayReplies
  import LC = LocalCache

  /** The rows of a metered completion, or nothing when there is no cost id. */
  function BillOrNone(run: string, usage: Usage, costId: Option<nat>): seq<Cost> {
    match costId
    case Some(id) => Bill(id, run, usage.provider, usage.usd, usage.tokens, usage.ms)
    case None => []
  }

  class Gateway {
    const repo: FakeRepository
    const cache: LC.LocalCache
    const policy: Policy
    const deliberateEnabled: bool

    constructor (repo: FakeRepository, cache: LC.LocalCache, policy: Policy, deliberateEnabled: bool)
      ensures this.repo == repo && this.cache == cache && this.policy == policy
      ensures this.deliberateEnabled == deliberateEnabled
    {
      this.repo, this.cache, this.policy, this.deliberateEnabled := repo, cache, policy, deliberateEnabled;
    }

    /** Between requests no computation is in flight. */
    ghost predicate Valid() reads repo, cache {
      repo.Balanced() && cache.Valid() && cache.pending == map[]
    }

    /** Neither the tables nor the retained responses have changed. */
    twostate predicate NothingSpent() reads repo, cache {
      && repo.costs == old(repo.costs) && cache.completed == old(cache.completed) && cache.keys == old(cache.keys)
      && forall agent :: repo.DailySpend(agent) == old(repo.DailySpend(agent))
    }

    /** What a compute() that comes to out has done: on a hard breach its gate row, on a
        failed call nothing, else the three rows of its bill, or none if metering fails. */
    twostate predicate Computed(q: Request, id: nat, provider: Option<Usage>, metering: bool, out: LC.Outcome) reads repo
      requires q.tier.Some?
    {
      var agent := old(repo.AgentName(q.run));
      var spend := old(repo.DailySpend(agent));
      var limit, ratio := policy.LimitFor(agent), policy.RatioFor(agent);
      if spend >= limit then
        && repo.costs == old(repo.costs) && out.Raises? && out.e.BudgetHardBreach?
        && repo.gates == old(repo.gates) + [Gate(out.e.gate, q.run, BudgetGate, Escalated)]
        && forall other :: repo.DailySpend(other) == old(repo.DailySpend(other))
      else if provider.None? then
        && out == LC.Raises(LC.OtherError) && repo.costs == old(repo.costs) && repo.gates == old(repo.gates)
        && forall other :: repo.DailySpend(other) == old(repo.DailySpend(other))
      else
        && repo.gates == old(repo.gates)
        && out.Returns? && out.r.id == id
        && Grants(policy, limit, ratio, q.tier.value, spend, out.r.tier, out.r.budget)
        && (out.r.costId.Some? <==> metering)
        && repo.costs == old(repo.costs) + BillOrNone(q.run, provider.value, out.r.costId)
        && forall other :: repo.DailySpend(other)
             == old(repo.DailySpend(other)) + if metering && other == agent then provider.value.usd else 0.0
    }

    /** _compute: budget, then provider, then metering.  provider is what the call comes
        to if it is made; metering says whether its cost rows can be written. */
    method Compute(q: Request, id: nat, provider: Option<Usage>, metering: bool) returns (out: LC.Outcome)
      requires repo.Balanced() && q.run != "" && q.tier.Some?
      modifies repo
      ensures repo.Balanced() && repo.agentNames == old(repo.agentNames)
      ensures Computed(q, id, provider, metering, out)
    {
      var agent := repo.AgentName(q.run);
      DecideMeans(policy, agent, q.tier.value, repo.DailySpend(agent));
      var (tier, state) := policy.Decide(agent, q.tier.value, repo.DailySpend(agent));
      if state.HardBreach? {
        var gate := repo.InsertGateDecision(q.run, BudgetGate, Escalated);
        return LC.Raises(LC.BudgetHardBreach(gate.value));
      }
      if provider.None? {
        return LC.Raises(LC.OtherError);
      }
      var usage := provider.value;
      if !metering {
        return LC.Returns(Response(id, tier, state, None));
      }
      var costId := repo.InsertCostsRows(q.run, usage.provider, usage.usd, usage.tokens, usage.ms);
      return LC.Returns(Response(id, tier, state, costId));
    }

    /** cache.get_or_compute: a retained response, or the compute() and, if that
        returns, its response retained. */
    method GetOrCompute(q: Request, id: nat, taskRef: string, provider: Option<Usage>, metering: bool)
      returns (out: LC.Outcome, hit: bool)
      requires Valid() && q.run != "" && q.tier.Some?
      modifies repo, cache
      ensures Valid() && repo.agentNames == old(repo.agentNames)
      ensures hit <==> taskRef != "" && taskRef in old(cache.completed)
      ensures hit ==> out == LC.Returns(old(cache.completed)[taskRef]) && NothingSpent() && repo.gates == old(repo.gates)
      ensures !hit ==> Computed(q, id, provider, metering, out)
      ensures out.Raises? || taskRef == "" ==> cache.completed == old(cache.completed) && cache.keys == old(cache.keys)
      ensures !hit && out.Returns? && taskRef != "" && cache.maxEntries > 0 ==>
                taskRef in cache.completed && cache.completed[taskRef] == out.r
    {
      if taskRef == "" {
        out := Compute(q, id, provider, metering);
        return out, false;
      }
      var found := cache.Enter(id, taskRef);
      if found.Cached? {
        return LC.Returns(found.r), true;
      }
      out := Compute(q, id, provider, metering);
      cache.Settle(id, taskRef, out);
      LC.StoredLast(old(cache.Current()), id, taskRef, out, cache.maxEntries);
      hit := false;
    }

    /** handle_completion.  A refusal, a cache hit, a hard breach and a failed provider
        call spend nothing and store nothing; only a request that was within its limit
        spends, once, and then its response is what the cache remembers. */
    method HandleCompletion(q: Request, id: nat, taskRef: string, provider: Option<Usage>, metering: bool) returns (reply: Reply)
      requires Valid()
      modifies repo, cache
      ensures Valid() && repo.agentNames == old(repo.agentNames)
      ensures !(reply.Status200? && !reply.hit) ==> NothingSpent()
      ensures reply.Status400? ==> Barred(q, deliberateEnabled, reply.why)
      ensures forall why :: Barred(q, deliberateEnabled, why) ==> reply == Status400(why)
      ensures reply.Status400? && reply.why != RedactionBlocked ==> repo.gates == old(repo.gates)
      ensures reply == Status400(RedactionBlocked) ==>
                exists g :: repo.gates == old(repo.gates) + [Gate(g, q.run, RedactionFirewall, Rejected)]
      ensures !BarredAtAll(q, deliberateEnabled) && taskRef != "" && taskRef in old(cache.completed) ==>
                reply == Status200(old(cache.completed)[taskRef], true) && repo.gates == old(repo.gates)
      ensures !BarredAtAll(q, deliberateEnabled) ==> q.tier.Some?
      ensures !BarredAtAll(q, deliberateEnabled) && (taskRef == "" || taskRef !in old(cache.completed)) ==>
                var agent := old(repo.AgentName(q.run));
                var spend := old(repo.DailySpend(agent));
                var limit, ratio := policy.LimitFor(agent), policy.RatioFor(agent);
                if spend >= limit then
                  && reply.Status429?
                  && repo.gates == old(repo.gates) + [Gate(reply.gate, q.run, BudgetGate, Escalated)]
                else if provider.None? then reply == Status500 && repo.gates == old(repo.gates)
                else
                  && reply.Status200? && !reply.hit && reply.r.id == id
                  && Grants(policy, limit, ratio, q.tier.value, spend, reply.r.tier, reply.r.budget)
                  && (reply.r.costId.Some? <==> metering) && repo.gates == old(repo.gates)
                  && repo.costs == old(repo.costs) + BillOrNone(q.run, provider.value, reply.r.costId)
                  && repo.DailySpend(agent) == spend + (if metering then provider.value.usd else 0.0)
                  && (metering ==> repo.DailySpend(agent) < limit + provider.value.usd)
                  && (taskRef != "" && cache.maxEntries > 0 ==>
                        taskRef in cache.completed && cache.completed[taskRef] == reply.r)
      ensures taskRef == "" ==> cache.completed == old(cache.completed) && cache.keys == old(cache.keys)
    {
      AdmissionMeans(q, deliberateEnabled);
      var admission := AdmissionOf(q, deliberateEnabled);
      if admission.Refused? {
        return Status400(admission.why);
      }
      if admission.Blocking? {
        var gate := repo.InsertGateDecision(q.run, RedactionFirewall, Rejected);
        return Status400(RedactionBlocked);
      }
      var out, hit := GetOrCompute(q, id, taskRef, provider, metering);
      reply := match out
        case Returns(r) => Status200(r, hit)
        case Raises(BudgetHardBreach(gate)) => Status429(gate)
        case Raises(OtherError) => Status500;
    }
  }

  /** A retried task: the second request with the same task_ref is answered with the
      first one's body and adds nothing to the costs. */
  method RetriedTask(gateway: Gateway, q: Request, id: nat, retryId: nat, taskRef: string,
                     provider: Option<Usage>, again: Option<Usage>, metering: bool, meteringAgain: bool)
    returns (first: Reply, second: Reply)
    requires gateway.Valid() && taskRef != "" && gateway.cache.maxEntries > 0
    modifies gateway.repo, gateway.cache
    ensures first.Status200? ==>
              && second == Status200(first.r, true)
              && |gateway.repo.costs| == |old(gateway.repo.costs)| + if first.hit || !metering then 0 else 3
  {
    first := gateway.HandleCompletion(q, id, taskRef, provider, metering);
    second := gateway.HandleCompletion(q, retryId, taskRef, again, meteringAgain);
  }
}
