/** _complete_ingest_with_redaction_fallback: on a redaction block, drop the first
    remaining source and try again with the rest. */
module Fallback {

  type Source = string
  type Body = nat

  /** What one gateway call comes to: an answer with its cost, the firewall's block, or
      any other gateway error. */
  datatype Attempt = Answer(body: Body, cost: real) | Blocked | OtherError(code: string)

  /** Each batch is sent at most once, so what the gateway says is a function of it. */
  type Gateway = seq<Source> -> Attempt

  datatype Outcome =
    | Completed(body: Body, cost: real, used: seq<Source>, skipped: seq<Source>)
    | Reraised(code: string)
    | AllBlocked

  /** Every suffix longer than n sources was refused by the firewall. */
  ghost predicate LongerBlocked(gateway: Gateway, fetched: seq<Source>, n: nat) {
    forall k | 0 <= k < |fetched| - n :: gateway(fetched[k..]).Blocked?
  }

  /** The longest suffix that is not blocked decides: its answer is returned, its error
      is raised; all is blocked exactly when every non-empty suffix is. */
  method CompleteWithFallback(gateway: Gateway, fetched: seq<Source>) returns (out: Outcome, calls: nat)
    ensures calls <= |fetched|
    ensures out.Completed? ==>
              && out.skipped + out.used == fetched && out.used != []
              && gateway(out.used) == Answer(out.body, out.cost)
              && LongerBlocked(gateway, fetched, |out.used|) && calls == |out.skipped| + 1
    ensures out.Reraised? ==>
              exists k | 0 <= k < |fetched| ::
                gateway(fetched[k..]) == OtherError(out.code) && LongerBlocked(gateway, fetched, |fetched| - k)
    ensures out.AllBlocked? <==> forall k | 0 <= k < |fetched| :: gateway(fetched[k..]).Blocked?
  {
    var remaining, skipped := fetched, [];
    calls := 0;
    while remaining != []
      invariant calls <= |fetched| && skipped == fetched[..calls] && remaining == fetched[calls..]
      invariant LongerBlocked(gateway, fetched, |remaining|)
      decreases |remaining|
    {
      var attempt := gateway(remaining);
      calls := calls + 1;
      match attempt
      case Answer(body, cost) =>
        return Completed(body, cost, remaining, skipped), calls;
      case OtherError(code) =>
        assert gateway(fetched[calls - 1..]) == OtherError(code);
        return Reraised(code), calls;
      case Blocked =>
        skipped := skipped + [remaining[0]];
        remaining := remaining[1..];
    }
    return AllBlocked, calls;
  }

  /** The firewall blocks exactly the batches that contain a bad source. */
  ghost predicate BlocksBad(gateway: Gateway, bad: set<Source>) {
    forall batch :: gateway(batch).Blocked? <==> exists s :: s in batch && s in bad
  }

  /** Then what is used is precisely what follows the last bad source. */
  lemma UsedFollowsLastBad(gateway: Gateway, fetched: seq<Source>, bad: set<Source>, used: seq<Source>, skipped: seq<Source>)
    requires BlocksBad(gateway, bad) && skipped + used == fetched && used != []
    requires !gateway(used).Blocked? && LongerBlocked(gateway, fetched, |used|)
    ensures forall s | s in used :: s !in bad
    ensures skipped != [] ==> skipped[|skipped| - 1] in bad
  {
    if skipped != [] {
      var k := |skipped| - 1;
      assert fetched[k..] == [skipped[k]] + used;
      assert gateway(fetched[k..]).Blocked?;
    }
  }

  /** And all is blocked exactly when the last source is bad, or nothing was fetched. */
  lemma AllBlockedIffLastBad(gateway: Gateway, fetched: seq<Source>, bad: set<Source>)
    requires BlocksBad(gateway, bad)
    ensures (forall k | 0 <= k < |fetched| :: gateway(fetched[k..]).Blocked?)
            <==> fetched == [] || fetched[|fetched| - 1] in bad
  {
    if fetched != [] {
      var last := fetched[|fetched| - 1];
      assert fetched[|fetched| - 1..] == [last];
      forall k | 0 <= k < |fetched| ensures last in fetched[k..] {
        assert fetched[k..][|fetched| - 1 - k] == last;
      }
    }
  }
}
