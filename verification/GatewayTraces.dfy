/**
 What happened before an execution. Every execution of any run follows, in this order, the
 passed gate of its call, the answered consume of its lock when a PIN is required, and its
 acknowledged ALLOW; a call that failed its gate never executes.
 */
module GatewayTraces {
  import opened Gateway
  import opened GatewayRuns
  import opened PayloadLock

  // ----- what a sequence of actions contains -------------------------------------------------------------

  predicate Gated(actions: seq<Action>, c: string) { Gate(c, true) in actions }

  predicate Refused(actions: seq<Action>, c: string) { Gate(c, false) in actions }

  ghost predicate AnswersAt(actions: seq<Action>, k: int, c: string) {
    && 0 <= k < |actions| && actions[k].Consume? && actions[k].correlation == c && actions[k].outcome == Done
    && Gated(actions[..k], c)
  }

  /** A consume was answered after the gate was passed. */
  ghost predicate Answered(actions: seq<Action>, c: string) { exists k :: AnswersAt(actions, k, c) }

  ghost predicate AllowsAt(actions: seq<Action>, k: int, c: string, risk: Risk) {
    && 0 <= k < |actions| && actions[k] == EmitAllow(c, Done)
    && Gated(actions[..k], c) && (risk == PinRequired ==> Answered(actions[..k], c))
  }

  /** An ALLOW was acknowledged after that. */
  ghost predicate Allowed(actions: seq<Action>, c: string, risk: Risk) { exists k :: AllowsAt(actions, k, c, risk) }

  ghost predicate RunsAt(actions: seq<Action>, k: int, c: string, risk: Risk) {
    && 0 <= k < |actions| && actions[k].Dispatch? && actions[k].correlation == c && actions[k].transport
    && Allowed(actions[..k], c, risk)
  }

  /** The transport ran after that. */
  ghost predicate Ran(actions: seq<Action>, c: string, risk: Risk) { exists k :: RunsAt(actions, k, c, risk) }

  lemma Longer(actions: seq<Action>, a: Action, c: string, risk: Risk)
    ensures Gated(actions, c) ==> Gated(actions + [a], c)
    ensures Answered(actions, c) ==> Answered(actions + [a], c)
    ensures Allowed(actions, c, risk) ==> Allowed(actions + [a], c, risk)
    ensures Ran(actions, c, risk) ==> Ran(actions + [a], c, risk)
  {
    var longer := actions + [a];
    assert forall k :: 0 <= k <= |actions| ==> longer[..k] == actions[..k];
    if k :| AnswersAt(actions, k, c) {
      assert AnswersAt(longer, k, c);
    }
    if k :| AllowsAt(actions, k, c, risk) {
      assert AllowsAt(longer, k, c, risk);
    }
    if k :| RunsAt(actions, k, c, risk) {
      assert RunsAt(longer, k, c, risk);
    }
  }

  // ----- what a reachable state says about the actions behind it -------------------------------------------

  /** The stage of a call tells what it has been through. */
  ghost predicate CallTraced(s: State, actions: seq<Action>, c: string) {
    && (Refused(actions, c) ==> c in s.calls && Over(s.calls[c].stage))
    && (c in s.calls ==>
          var Call(r, stage, _) := s.calls[c];
          && (stage == Consuming || stage == Allowing || stage == Dispatching ==> Gated(actions, c))
          && ((stage == Allowing || stage == Dispatching) && r.risk == PinRequired ==> Answered(actions, c))
          && (stage == Dispatching ==> Allowed(actions, c, r.risk)))
  }

  ghost predicate ExecutionTraced(s: State, actions: seq<Action>, i: int) {
    0 <= i < |s.executions| ==>
      var Execution(c, r, _, _) := s.executions[i];
      Ran(actions, c, r.risk) && !Refused(actions, c)
  }

  ghost predicate Traced(s: State, actions: seq<Action>) {
    (forall c :: CallTraced(s, actions, c)) && forall i :: ExecutionTraced(s, actions, i)
  }

  /** A call the action is not about. */
  lemma OtherCall(h: Hashing, s: State, actions: seq<Action>, a: Action, c: string)
    requires Enabled(s, a) && CallTraced(s, actions, c) && (a.Register? || a.correlation != c)
    ensures CallTraced(Apply(h, s, a), actions + [a], c)
  {
    if c in s.calls {
      Longer(actions, a, c, s.calls[c].request.risk);
    }
  }

  lemma GateTraced(h: Hashing, s: State, actions: seq<Action>, c: string, pass: bool)
    requires AtStage(s, c, Gating) && CallTraced(s, actions, c)
    ensures CallTraced(Apply(h, s, Gate(c, pass)), actions + [Gate(c, pass)], c)
  {
    assert Gate(c, pass) in actions + [Gate(c, pass)];
  }

  lemma ConsumeTraced(h: Hashing, s: State, actions: seq<Action>, a: Action)
    requires a.Consume? && AtStage(s, a.correlation, Consuming) && CallTraced(s, actions, a.correlation)
    ensures CallTraced(Apply(h, s, a), actions + [a], a.correlation)
  {
    var c, longer := a.correlation, actions + [a];
    assert longer[..|actions|] == actions;
    Longer(actions, a, c, s.calls[c].request.risk);
    if a.outcome == Done {
      assert AnswersAt(longer, |actions|, c);
    }
  }

  lemma AllowTraced(h: Hashing, s: State, actions: seq<Action>, c: string, outcome: Outcome)
    requires AtStage(s, c, Allowing) && CallTraced(s, actions, c)
    ensures CallTraced(Apply(h, s, EmitAllow(c, outcome)), actions + [EmitAllow(c, outcome)], c)
  {
    var a := EmitAllow(c, outcome);
    var longer, risk := actions + [a], s.calls[c].request.risk;
    assert longer[..|actions|] == actions;
    Longer(actions, a, c, risk);
    if outcome == Done {
      assert AllowsAt(longer, |actions|, c, risk);
    }
  }

  lemma StepTraced(h: Hashing, s: State, actions: seq<Action>, a: Action, c: string)
    requires Enabled(s, a) && CallTraced(s, actions, c)
    ensures CallTraced(Apply(h, s, a), actions + [a], c)
  {
    if a.Register? || a.correlation != c {
      OtherCall(h, s, actions, a, c);
    } else {
      match a {
        case Gate(_, pass) => GateTraced(h, s, actions, c, pass);
        case Consume(_, _, _) => ConsumeTraced(h, s, actions, a);
        case EmitAllow(_, outcome) => AllowTraced(h, s, actions, c, outcome);
        case _ =>
      }
    }
  }

  /** An execution is added by a dispatch only. */
  lemma ExecutionsGrow(h: Hashing, s: State, a: Action)
    requires Enabled(s, a)
    ensures Apply(h, s, a).executions == s.executions
      || (a.Dispatch? && a.transport
          && Apply(h, s, a).executions == s.executions + [Execution(a.correlation, s.calls[a.correlation].request,
                                                                    s.calls[a.correlation].spent, |s.log|)])
  {
  }

  lemma OldExecution(h: Hashing, s: State, actions: seq<Action>, a: Action, i: nat)
    requires Inv(h, s) && Enabled(s, a) && i < |s.executions| && ExecutionTraced(s, actions, i)
    ensures var Execution(c, r, _, _) := s.executions[i];
      Ran(actions + [a], c, r.risk) && !Refused(actions + [a], c)
  {
    var c := s.executions[i].correlation;
    assert ExecutionOk(s, i);
    Longer(actions, a, c, s.executions[i].request.risk);
  }

  lemma NewExecution(s: State, actions: seq<Action>, a: Action)
    requires a.Dispatch? && a.transport && AtStage(s, a.correlation, Dispatching)
    requires CallTraced(s, actions, a.correlation)
    ensures Ran(actions + [a], a.correlation, s.calls[a.correlation].request.risk)
    ensures !Refused(actions + [a], a.correlation)
  {
    var longer, risk := actions + [a], s.calls[a.correlation].request.risk;
    assert longer[..|actions|] == actions;
    assert RunsAt(longer, |actions|, a.correlation, risk);
  }

  lemma StepKeepsTraces(h: Hashing, s: State, actions: seq<Action>, a: Action)
    requires Inv(h, s) && Enabled(s, a) && Traced(s, actions)
    ensures Traced(Apply(h, s, a), actions + [a])
  {
    var s' := Apply(h, s, a);
    forall c
      ensures CallTraced(s', actions + [a], c)
    {
      assert CallTraced(s, actions, c);
      StepTraced(h, s, actions, a, c);
    }
    ExecutionsGrow(h, s, a);
    forall i
      ensures ExecutionTraced(s', actions + [a], i)
    {
      if 0 <= i < |s.executions| {
        assert ExecutionTraced(s, actions, i);
        OldExecution(h, s, actions, a, i);
      } else if i == |s.executions| && a.Dispatch? && a.transport {
        assert CallTraced(s, actions, a.correlation);
        NewExecution(s, actions, a);
      }
    }
  }

  lemma {:induction false} ReachableTraced(h: Hashing, s: State, actions: seq<Action>)
    requires Reachable(h, s, actions)
    ensures Traced(s, actions)
    decreases |actions|
  {
    if actions != [] {
      var n := |actions| - 1;
      var before :| Reachable(h, before, actions[..n]) && Enabled(before, actions[n])
        && s == Apply(h, before, actions[n]);
      ReachableTraced(h, before, actions[..n]);
      ReachableKeeps(h, before, actions[..n]);
      StepKeepsTraces(h, before, actions[..n], actions[n]);
      assert actions[..n] + [actions[n]] == actions;
    }
  }

  /**
   In every run, whatever failed in it: an execution comes after its call's passed gate, its
   answered consume if a PIN was required, and its acknowledged ALLOW, in this order; and no
   call whose gate failed is ever executed.
   */
  lemma ExecutedInOrder(h: Hashing, s: State, actions: seq<Action>, i: nat)
    requires Reachable(h, s, actions) && i < |s.executions|
    ensures Ran(actions, s.executions[i].correlation, s.executions[i].request.risk)
    ensures !Refused(actions, s.executions[i].correlation)
  {
    ReachableTraced(h, s, actions);
    assert ExecutionTraced(s, actions, i);
  }
}
