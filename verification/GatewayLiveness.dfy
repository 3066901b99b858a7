/** Every request is answered: no composed run goes on for ever, and none gets stuck
    before its requests are answered or dead. */
module GatewayLiveness {
  import opened Common
  import opened GatewayTypes
  import opened Repository
  import opened GatewayProtocol
  import opened GatewayInvariant
  import opened GatewayTheorems
  import L = LockProtocol
  import LI = LockInvariant
  import LT = LockTheorems

  /** The most steps of its own a request can still take, its cache steps aside. */
  function StageLeft(stage: Stage): nat {
    match stage
    case Fresh => 6
    case InCache => 5
    case Cleared(_, _, _) => 4
    case Metering(_, _, _, _, rows, _) => if rows < 3 then 3 - rows else 0
    case Breached => 1
    case Blocking => 1
    case _ => 0
  }

  ghost function Measure(s: State): nat { LT.Measure(s.lock) + CountBy(StageLeft, s.stages) }

  lemma StageLeftDrops(setup: Setup, s: State, a: Action)
    requires Enabled(setup, s, a) && !a.Cache? && !a.Leave?
    ensures Apply(setup, s, a).lock == s.lock && |Apply(setup, s, a).stages| == |s.stages|
    ensures Apply(setup, s, a).stages == s.stages[a.i := Apply(setup, s, a).stages[a.i]]
    ensures StageLeft(Apply(setup, s, a).stages[a.i]) < StageLeft(s.stages[a.i])
  {
  }

  lemma StepDecreases(setup: Setup, s: State, a: Action)
    requires Enabled(setup, s, a)
    ensures Measure(Apply(setup, s, a)) < Measure(s)
  {
    if Crashes(a) {
      LT.CrashDecreases(setup.lock, s.lock, a.a);
    } else if a.Cache? || a.Leave? {
      LT.StepDecreases(setup.lock, s.lock, CacheAction(s, a));
    } else {
      StageLeftDrops(setup, s, a);
      CountByUpdate(StageLeft, s.stages, a.i, Apply(setup, s, a).stages[a.i]);
    }
  }

  lemma {:induction false} RunDecreases(setup: Setup, s: State, acts: seq<Action>)
    requires Run(setup, s, acts)
    ensures |acts| + Measure(Final(setup, s, acts)) <= Measure(s)
    decreases |acts|
  {
    if acts != [] {
      StepDecreases(setup, s, acts[0]);
      RunDecreases(setup, Apply(setup, s, acts[0]), acts[1..]);
    }
  }

  lemma {:induction false} FreshMeasure(stages: seq<Stage>)
    requires forall i | 0 <= i < |stages| :: stages[i].Fresh?
    ensures CountBy(StageLeft, stages) == 6 * |stages|
  {
    if stages != [] { FreshMeasure(stages[1..]); }
  }

  /** What a request whose compute() has the cache does next; the provider call fails. */
  function ComputeAction(i: nat, stage: Stage): Action {
    match stage
    case InCache => Budget(i)
    case Breached => Queue(i)
    case Cleared(_, _, _) => Call(i, None)
    case Metering(_, _, _, _, _, _) => Meter(i, true)
    case _ => Leave(i)
  }

  lemma ComputeGoesOn(setup: Setup, s: State, i: nat)
    requires i < |s.stages| == |s.lock.workers| && StageOf(setup, s, i) && InCompute(s, i)
    requires LI.RecordOf(setup.lock, s.lock, i)
    ensures Enabled(setup, s, ComputeAction(i, s.stages[i]))
  {
    if s.stages[i].Metered? || s.stages[i].Queued? || s.stages[i].Broke? {
      assert Ending(i, s.stages[i]).Some?;
    }
  }

  /** While a request whose replica is up is unanswered, somebody can take a step. */
  lemma NoDeadlock(setup: Setup, s: State, rows: map<string, Response>, i: nat) returns (a: Action)
    requires setup.lock.order.CommitThenUnlock? && Inv(setup, s, rows)
    requires i < |s.stages| && ReplyTo(s, i).NoReply? && Alive(s, i)
    ensures Enabled(setup, s, a) && !Crashes(a)
  {
    assert StageOf(setup, s, i) && LI.RecordOf(setup.lock, s.lock, i);
    if s.stages[i].Fresh? {
      a := Check(i);
    } else if s.stages[i].Blocking? {
      a := RecordBlock(i);
    } else {
      var d := LT.NoDeadlock(setup.lock, s.lock, rows, i, None);
      assert StageOf(setup, s, d);
      a := GoesOn(setup, s, rows, d);
    }
  }

  /** A request in the cache that could move there, were its compute() over, can move. */
  lemma GoesOn(setup: Setup, s: State, rows: map<string, Response>, d: nat) returns (a: Action)
    requires setup.lock.order.CommitThenUnlock? && Inv(setup, s, rows)
    requires d < |s.stages| && Admitted(s.stages[d]) && L.Enabled(setup.lock, s.lock, LT.OwnAction(setup.lock, s.lock, d, None))
    ensures Enabled(setup, s, a) && !Crashes(a)
  {
    assert StageOf(setup, s, d) && LI.RecordOf(setup.lock, s.lock, d);
    if InCompute(s, d) {
      ComputeGoesOn(setup, s, d);
      a := ComputeAction(d, s.stages[d]);
    } else {
      a := Cache(LT.OwnAction(setup.lock, s.lock, d, None));
    }
  }

  /** A run of n requests, with crashes or without, has at most 14n steps, and one in which
      nobody can go any further has answered every request whose replica is up; without
      crashes, every request. */
  lemma EveryRequestIsAnswered(setup: Setup, n: nat, rows: map<string, Response>, acts: seq<Action>)
    requires setup.lock.order.CommitThenUnlock? && Run(setup, Init(n, rows), acts)
    ensures |acts| <= 14 * n
    ensures var s := After(setup, n, rows, acts);
            |s.stages| == |s.lock.workers| &&
            ((forall a: Action :: !Crashes(a) ==> !Enabled(setup, s, a)) ==>
               forall i | 0 <= i < |s.stages| :: ReplyTo(s, i) != NoReply || (!Alive(s, i) && !CrashFree(acts)))
  {
    var s := After(setup, n, rows, acts);
    AfterInv(setup, n, rows, acts);
    RunDecreases(setup, Init(n, rows), acts);
    FreshMeasure(Init(n, rows).stages);
    LT.FreshMeasure(Init(n, rows).lock.workers);
    if CrashFree(acts) { AllAlive(setup, n, rows, acts); }
    if forall a: Action :: !Crashes(a) ==> !Enabled(setup, s, a) {
      forall i | 0 <= i < |s.stages| ensures ReplyTo(s, i) != NoReply || (!Alive(s, i) && !CrashFree(acts)) {
        if ReplyTo(s, i).NoReply? && Alive(s, i) { var a := NoDeadlock(setup, s, rows, i); }
      }
    }
  }
}
