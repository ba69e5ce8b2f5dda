/** The recovery chain as an object that every call extends in place (tools/failure_intel.py,
    RecoveryChain, _execute_action, recover, _recover_validation). */
module RecoveryChains {
  import opened Wrappers
  import opened FailurePolicy
  import opened FailureRecovery

  class RecoveryChain {
    var steps: seq<Step>

    constructor ()
      ensures steps == []
    {
      steps := [];
    }

    method Record(f: Failure, recovery: Action, result: StepResult)
      modifies this
      ensures steps == old(steps) + [StepFor(old(steps), f, recovery, result)]
    {
      steps := steps + [Step(|steps| + 1, f.command, f.category, f.subtype, f.fingerprint, Some(recovery), result)];
    }

    /** `_execute_action`: run the action, decide again on failure, in at most `maxAttempts`
        passes. */
    method ExecuteAction(f: Failure, d: Decision, call: Call) returns (decision: Decision)
      modifies this
      ensures (steps, decision) == Executed(old(steps), f, d, call, 0, call.maxAttempts)
    {
      decision := d;
      var attempt := 0;
      while attempt < call.maxAttempts && HasExecutor(decision.next)
        invariant attempt <= call.maxAttempts
        invariant Executed(steps, f, decision, call, attempt, call.maxAttempts - attempt)
                  == Executed(old(steps), f, d, call, 0, call.maxAttempts)
      {
        var action := decision.next.value;
        var outcome := call.replies.executor(attempt);
        attempt := attempt + 1;
        match outcome
        case Done(recoveredAt) =>
          Record(f, action, Succeeded);
          decision := decision.(final := FinalAfter(action, recoveredAt, call.context, call.revalidate, call.replies));
          return;
        case Broken =>
          Record(f, action, Failed);
          decision := Decide(f, call.context, steps);
          if !HasExecutor(decision.next) {
            return;
          }
          if decision.next == Some(action) {
            decision := decision.(next := Some(STOP), final := STOPPED);
            return;
          }
      }
    }

    /** `recover`: RECOVERED is reported exactly if the input was a success or an executor of
        this call verified it, and the chain stays bounded. */
    method Recover(call: Call) returns (decision: Decision)
      modifies this
      ensures (steps, decision) == Recovered(old(steps), call)
      ensures old(steps) <= steps && OneCall(old(steps), Added(old(steps), steps))
      ensures old(RunsOnce(steps)) ==> RunsOnce(steps)
      ensures decision.final == RECOVERED <==> call.input.Success? || Verified(call, Added(old(steps), steps))
    {
      RecoverIsBounded(steps, call);
      ghost var after := Recovered(steps, call).0;
      if RunsOnce(steps) {
        OneCallRunsOnce(steps, after);
      }
      match call.input
      case Success =>
        decision := Decision(None, RECOVERED, false, 0, 0, false, None, {});
      case Single(f) =>
        decision := RecoverFailure(f, call);
      case Aggregate(whole, failures) =>
        decision := RecoverValidation(whole, failures, call);
    }

    method RecoverFailure(f: Failure, call: Call) returns (decision: Decision)
      modifies this
      ensures (steps, decision) == RecoveredOne(old(steps), f, call)
    {
      if LoopDetected(steps, f.fingerprint) {
        Record(f, STOP, Halted);
        decision := Halt(Decide(f, call.context, steps));
        return;
      }
      decision := Decide(f, call.context, steps);
      if call.apply && HasExecutor(decision.next) {
        decision := ExecuteAction(f, decision, call);
      }
    }

    /** `_recover_validation` */
    method RecoverValidation(whole: Failure, failures: seq<Failure>, call: Call) returns (decision: Decision)
      modifies this
      ensures (steps, decision) == RecoveredMany(old(steps), whole, failures, call)
    {
      if failures == [] {
        decision := Decide(whole, call.context, steps);
        return;
      }
      var k := Diagnose(failures, call.context);
      decision := Combined(failures, Decisions(failures, call.context, steps), k);
      if call.apply && HasExecutor(decision.next) {
        if LoopDetected(steps, failures[k].fingerprint) {
          decision := Halt(decision);
        } else {
          decision := ExecuteAction(failures[k], decision, call);
        }
      }
    }

    /** Diagnoses every failed command; the first of the dominant final state wins. */
    method Diagnose(failures: seq<Failure>, context: Context) returns (best: nat)
      requires failures != []
      ensures best == Dominant(Decisions(failures, context, steps)) < |failures|
    {
      ghost var ds := Decisions(failures, context, steps);
      best := 0;
      var final := Decide(failures[0], context, steps).final;
      for i := 1 to |failures|
        invariant best == Dominant(ds[..i]) < i && final == ds[best].final
      {
        assert ds[..i + 1][..i] == ds[..i];
        var d := Decide(failures[i], context, steps);
        assert ds[i] == d;
        if Rank(d.final) < Rank(final) {
          best, final := i, d.final;
        }
      }
      assert ds[..|failures|] == ds;
    }
  }
}
