/** Bounded recovery over one shared chain (tools/failure_intel.py, RecoveryChain,
    _execute_action, recover, _recover_validation, _follow_up_refresh). Executors are
    arbitrary: whatever they report, recovery stays bounded. */
module FailureRecovery {
  import opened Wrappers
  import opened FailurePolicy

  /** What one executor reports; only an escalated run names the level it passed at. */
  datatype Outcome = Broken | Done(recoveredAt: Option<Level>)

  /** All that the outside world answers during one call: the outcome of its n-th executor, the
      scope recomputation and retry that may follow a refresh, and the commands that an
      escalated validation runs. */
  datatype Replies = Replies(executor: nat -> Outcome, rescope: bool, retry: bool, escalated: set<string>)

  datatype Input =
    | Success
    | Single(failure: Failure)
    | Aggregate(whole: Failure, failures: seq<Failure>)

  datatype Call = Call(
    input: Input, context: Context, apply: bool, revalidate: bool, maxAttempts: nat, replies: Replies)

  predicate HasExecutor(next: Option<Action>) {
    match next
    case Some(a) => a !in {STOP, REPORT_ENVIRONMENT, REPORT_CODE_FAILURE}
    case None => false
  }

  const REFRESHES := {REFRESH_INDEX, REFRESH_PACKET, REBUILD_GRAPH}

  function StepFor(steps: seq<Step>, f: Failure, action: Action, result: StepResult): Step {
    Step(|steps| + 1, f.command, f.category, f.subtype, f.fingerprint, Some(action), result)
  }

  /** `_follow_up_refresh` */
  function FollowUp(context: Context, revalidate: bool, replies: Replies): Final {
    if !context.hasManifest then RETRYING
    else if !replies.rescope then ESCALATED
    else if !revalidate then RETRYING
    else if replies.retry then RECOVERED
    else ESCALATED
  }

  /** Final state once an executor has succeeded. */
  function FinalAfter(action: Action, recoveredAt: Option<Level>, context: Context, revalidate: bool, replies: Replies): Final {
    if action in REFRESHES then FollowUp(context, revalidate, replies)
    else if action == RETRY_VALIDATION then RECOVERED
    else if action == ESCALATE_VALIDATION then (if recoveredAt.Some? then RECOVERED else ESCALATED)
    else RETRYING
  }

  /** The rest of `_execute_action`, with `attempt` executors already run and at most `left`
      more. */
  function Executed(
    steps: seq<Step>, f: Failure, d: Decision, call: Call, attempt: nat, left: nat): (seq<Step>, Decision)
    decreases left
  {
    if left == 0 || !HasExecutor(d.next) then (steps, d)
    else
      var action := d.next.value;
      match call.replies.executor(attempt)
      case Done(recoveredAt) =>
        (steps + [StepFor(steps, f, action, Succeeded)],
         d.(final := FinalAfter(action, recoveredAt, call.context, call.revalidate, call.replies)))
      case Broken =>
        var steps' := steps + [StepFor(steps, f, action, Failed)];
        var again := Decide(f, call.context, steps');
        if !HasExecutor(again.next) then (steps', again)
        else if again.next == d.next then (steps', again.(next := Some(STOP), final := STOPPED))
        else Executed(steps', f, again, call, attempt + 1, left - 1)
  }

  function Decisions(failures: seq<Failure>, context: Context, steps: seq<Step>): seq<Decision> {
    seq(|failures|, i requires 0 <= i < |failures| => Decide(failures[i], context, steps))
  }

  /** First decision of the dominant final state. */
  function Dominant(ds: seq<Decision>): (k: nat)
    requires ds != []
    ensures k < |ds|
  {
    if |ds| == 1 then 0
    else
      var k := Dominant(ds[..|ds| - 1]);
      if Rank(ds[|ds| - 1].final) < Rank(ds[k].final) then |ds| - 1 else k
  }

  lemma {:induction false} DominantIsFirstLeast(ds: seq<Decision>)
    requires ds != []
    ensures forall i | 0 <= i < |ds| :: Rank(ds[Dominant(ds)].final) <= Rank(ds[i].final)
    ensures forall i | 0 <= i < Dominant(ds) :: Rank(ds[Dominant(ds)].final) < Rank(ds[i].final)
  {
    if |ds| > 1 {
      var init := ds[..|ds| - 1];
      DominantIsFirstLeast(init);
      assert forall i | 0 <= i < |init| :: init[i] == ds[i];
    }
  }

  /** The failed commands that are to be retried by their own decisions. */
  function RetryCommands(failures: seq<Failure>, ds: seq<Decision>): set<string>
    requires |ds| == |failures|
  {
    set i | 0 <= i < |failures| && ds[i].next == Some(RETRY_VALIDATION) && failures[i].command != "" :: failures[i].command
  }

  /** The winner's decision, with the commands that a retry of the aggregate runs. */
  function Combined(failures: seq<Failure>, ds: seq<Decision>, k: nat): Decision
    requires |ds| == |failures| && k < |ds|
  {
    ds[k].(retry := RetryCommands(failures, ds))
  }

  /** A decision, carried out unless only a diagnosis was asked for. */
  function Applied(steps: seq<Step>, f: Failure, d: Decision, call: Call): (seq<Step>, Decision) {
    if !call.apply || !HasExecutor(d.next) then (steps, d) else Executed(steps, f, d, call, 0, call.maxAttempts)
  }

  function Halt(d: Decision): Decision {
    d.(next := Some(STOP), final := STOPPED)
  }

  /** `recover` for one failure */
  function RecoveredOne(steps: seq<Step>, f: Failure, call: Call): (seq<Step>, Decision) {
    if LoopDetected(steps, f.fingerprint)
    then
      var steps' := steps + [StepFor(steps, f, STOP, Halted)];
      (steps', Halt(Decide(f, call.context, steps')))
    else Applied(steps, f, Decide(f, call.context, steps), call)
  }

  /** `_recover_validation`: every failed command is diagnosed, the dominant one acted on. */
  function RecoveredMany(steps: seq<Step>, whole: Failure, failures: seq<Failure>, call: Call): (seq<Step>, Decision) {
    if failures == [] then (steps, Decide(whole, call.context, steps))
    else
      var ds := Decisions(failures, call.context, steps);
      var k := Dominant(ds);
      var d := Combined(failures, ds, k);
      if call.apply && HasExecutor(d.next) && LoopDetected(steps, failures[k].fingerprint)
      then (steps, Halt(d))
      else Applied(steps, failures[k], d, call)
  }

  /** `recover` */
  function Recovered(steps: seq<Step>, call: Call): (seq<Step>, Decision) {
    match call.input
    case Success => (steps, Decision(None, RECOVERED, false, 0, 0, false, None, {}))
    case Single(f) => RecoveredOne(steps, f, call)
    case Aggregate(whole, failures) => RecoveredMany(steps, whole, failures, call)
  }

  // ---- One call ----

  predicate Executor(s: Step) {
    HasExecutor(s.recovery)
  }

  /** What one call may add to the chain: nothing, one step, or a first step that failed
      followed by the escalation of a stale state. All carry the failure's own identity. */
  ghost predicate OneRound(steps: seq<Step>, f: Failure, added: seq<Step>) {
    && |added| <= 2
    && (forall s | s in added ::
          s.command == f.command && s.category == f.category && s.fingerprint == f.fingerprint && s.recovery.Some?)
    && (|added| == 2 ==>
          && f.category == STALE_STATE && added[0].result == Failed
          && added[0].recovery != Some(ESCALATE_VALIDATION) && added[1].recovery == Some(ESCALATE_VALIDATION))
    && (forall s | s in added && Executor(s) && HasExecuted(steps, f.command, f.category) ::
          f.category == STALE_STATE && s.recovery == Some(ESCALATE_VALIDATION))
  }

  predicate EscalationPassed(o: Outcome) {
    o.Done? && o.recoveredAt.Some?
  }

  /** Success was reported by the last executor the call ran, or by the retry after it. */
  ghost predicate Verified(call: Call, added: seq<Step>) {
    added != [] &&
    var s := added[|added| - 1];
    && s.result == Succeeded
    && (|| s.recovery == Some(RETRY_VALIDATION)
        || (s.recovery == Some(ESCALATE_VALIDATION) && EscalationPassed(call.replies.executor(|added| - 1)))
        || (s.recovery.Some? && s.recovery.value in REFRESHES
            && call.revalidate && call.context.hasManifest && call.replies.rescope && call.replies.retry))
  }

  lemma RanBefore(steps: seq<Step>, f: Failure, s: Step)
    requires s.command == f.command && s.category == f.category && s.recovery.Some?
    ensures HasExecuted(steps + [s], f.command, f.category)
  {
    assert s in steps + [s];
  }

  function Added(before: seq<Step>, after: seq<Step>): seq<Step>
    requires |before| <= |after|
  {
    after[|before|..]
  }

  /** A second executor is an escalation, and there is no third. */
  lemma SecondRound(steps: seq<Step>, f: Failure, d: Decision, call: Call, left: nat)
    requires HasExecuted(steps, f.command, f.category) && d.next == Some(ESCALATE_VALIDATION) && d.final != RECOVERED
    requires f.category == STALE_STATE
    ensures var (steps', d') := Executed(steps, f, d, call, 1, left);
            && (steps' == steps || exists r :: steps' == steps + [StepFor(steps, f, ESCALATE_VALIDATION, r)])
            && (d'.final == RECOVERED <==>
                  && |steps'| > |steps| && steps'[|steps|].result == Succeeded
                  && EscalationPassed(call.replies.executor(1)))
  {
    if left > 0 && call.replies.executor(1).Broken? {
      var steps' := steps + [StepFor(steps, f, ESCALATE_VALIDATION, Failed)];
      RanBefore(steps, f, StepFor(steps, f, ESCALATE_VALIDATION, Failed));
      RepeatsOnlyEscalate(f, call.context, steps');
    }
  }

  /** What a round of executors promises. */
  ghost predicate Round(steps: seq<Step>, f: Failure, call: Call, after: (seq<Step>, Decision)) {
    && steps <= after.0
    && OneRound(steps, f, Added(steps, after.0))
    && (after.1.final == RECOVERED <==> Verified(call, Added(steps, after.0)))
  }

  /** What the policy promises of a decision, given what already ran. */
  ghost predicate Policied(d: Decision, f: Failure, steps: seq<Step>) {
    && d.next.Some? && d.final != RECOVERED
    && (HasExecuted(steps, f.command, f.category) ==>
          d.next == if f.category == STALE_STATE then Some(ESCALATE_VALIDATION) else Some(STOP))
  }

  lemma DecisionsArePolicied(f: Failure, context: Context, steps: seq<Step>)
    ensures Policied(Decide(f, context, steps), f, steps)
  {
    DecideNeverRecovers(f, context, steps);
    if HasExecuted(steps, f.command, f.category) {
      RepeatsOnlyEscalate(f, context, steps);
    }
  }

  /** One executor that failed, and nothing after it. */
  lemma OneFailedStep(steps: seq<Step>, f: Failure, d: Decision, call: Call, again: Decision)
    requires Policied(d, f, steps) && HasExecutor(d.next) && again.final != RECOVERED
    ensures Round(steps, f, call, (steps + [StepFor(steps, f, d.next.value, Failed)], again))
  {
    assert Added(steps, steps + [StepFor(steps, f, d.next.value, Failed)]) == [StepFor(steps, f, d.next.value, Failed)];
  }

  /** A failed executor, and then the escalation of a stale state. */
  lemma FailedThenEscalated(steps: seq<Step>, f: Failure, d: Decision, call: Call, again: Decision, left: nat)
    requires Policied(d, f, steps) && HasExecutor(d.next)
    requires Policied(again, f, steps + [StepFor(steps, f, d.next.value, Failed)])
    requires HasExecutor(again.next) && again.next != d.next
    ensures var steps' := steps + [StepFor(steps, f, d.next.value, Failed)];
            Round(steps, f, call, Executed(steps', f, again, call, 1, left))
  {
    var first := StepFor(steps, f, d.next.value, Failed);
    var steps' := steps + [first];
    RanBefore(steps, f, first);
    SecondRound(steps', f, again, call, left);
    var after := Executed(steps', f, again, call, 1, left);
    if after.0 == steps' {
      OneFailedStep(steps, f, d, call, after.1);
    } else {
      var r :| after.0 == steps' + [StepFor(steps', f, ESCALATE_VALIDATION, r)];
      TwoSteps(steps, f, call, first, StepFor(steps', f, ESCALATE_VALIDATION, r), after);
    }
  }

  lemma FirstFails(steps: seq<Step>, f: Failure, d: Decision, call: Call, left: nat)
    requires Policied(d, f, steps)
    requires left > 0 && HasExecutor(d.next) && call.replies.executor(0).Broken?
    ensures Round(steps, f, call, Executed(steps, f, d, call, 0, left))
  {
    var steps' := steps + [StepFor(steps, f, d.next.value, Failed)];
    var again := Decide(f, call.context, steps');
    DecisionsArePolicied(f, call.context, steps');
    if !HasExecutor(again.next) {
      OneFailedStep(steps, f, d, call, again);
    } else if again.next == d.next {
      OneFailedStep(steps, f, d, call, Halt(again));
    } else {
      FailedThenEscalated(steps, f, d, call, again, left - 1);
    }
  }

  lemma TwoSteps(steps: seq<Step>, f: Failure, call: Call, first: Step, second: Step, after: (seq<Step>, Decision))
    requires after.0 == steps + [first] + [second] && !HasExecuted(steps, f.command, f.category)
    requires f.category == STALE_STATE && first.result == Failed && second.recovery == Some(ESCALATE_VALIDATION)
    requires first.recovery.Some? && first.recovery != Some(ESCALATE_VALIDATION)
    requires forall s | s in [first, second] ::
               s.command == f.command && s.category == f.category && s.fingerprint == f.fingerprint
    requires after.1.final == RECOVERED <==> second.result == Succeeded && EscalationPassed(call.replies.executor(1))
    ensures Round(steps, f, call, after)
  {
    assert Added(steps, after.0) == [first, second];
  }

  lemma FirstSucceeds(steps: seq<Step>, f: Failure, d: Decision, call: Call, left: nat)
    requires Policied(d, f, steps)
    requires left > 0 && HasExecutor(d.next) && call.replies.executor(0).Done?
    ensures Round(steps, f, call, Executed(steps, f, d, call, 0, left))
  {
    assert Added(steps, steps + [StepFor(steps, f, d.next.value, Succeeded)]) == [StepFor(steps, f, d.next.value, Succeeded)];
  }

  /** Whatever the executors report, executing a decision is one round. */
  lemma ExecutedIsOneRound(steps: seq<Step>, f: Failure, d: Decision, call: Call, left: nat)
    requires Policied(d, f, steps)
    ensures Round(steps, f, call, Executed(steps, f, d, call, 0, left))
  {
    if left > 0 && HasExecutor(d.next) {
      if call.replies.executor(0).Broken? {
        FirstFails(steps, f, d, call, left);
      } else {
        FirstSucceeds(steps, f, d, call, left);
      }
    }
  }

  /** The steps of one call: one round about one failure, and executors only for a failure
      fingerprint the chain has not seen. */
  ghost predicate OneCall(steps: seq<Step>, added: seq<Step>) {
    added == [] ||
    exists f ::
      && OneRound(steps, f, added)
      && forall s | s in added && Executor(s) :: !LoopDetected(steps, f.fingerprint)
  }

  lemma AppliedIsOneCall(steps: seq<Step>, f: Failure, d: Decision, call: Call)
    requires Policied(d, f, steps)
    requires call.apply && HasExecutor(d.next) ==> !LoopDetected(steps, f.fingerprint)
    ensures var after := Applied(steps, f, d, call);
            && steps <= after.0 && OneCall(steps, Added(steps, after.0))
            && (after.1.final == RECOVERED <==> Verified(call, Added(steps, after.0)))
  {
    ExecutedIsOneRound(steps, f, d, call, call.maxAttempts);
  }

  /** One call of `recover`, whatever its executors report: at most two executors, never the
      same action twice; none for a fingerprint seen before; and RECOVERED exactly if the input
      was a success or an executor verified it. */
  lemma RecoverIsBounded(steps: seq<Step>, call: Call)
    ensures var (steps', d) := Recovered(steps, call);
            && steps <= steps' && OneCall(steps, Added(steps, steps'))
            && (d.final == RECOVERED <==> call.input.Success? || Verified(call, Added(steps, steps')))
  {
    match call.input
    case Success =>
    case Single(f) =>
      if LoopDetected(steps, f.fingerprint) {
        var stop := StepFor(steps, f, STOP, Halted);
        assert Added(steps, steps + [stop]) == [stop];
        RanBefore(steps, f, stop);
        assert OneRound(steps, f, [stop]);
      } else {
        DecisionsArePolicied(f, call.context, steps);
        AppliedIsOneCall(steps, f, Decide(f, call.context, steps), call);
      }
    case Aggregate(whole, failures) =>
      if failures == [] {
        DecideNeverRecovers(whole, call.context, steps);
      } else {
        var ds := Decisions(failures, call.context, steps);
        var k := Dominant(ds);
        DecisionsArePolicied(failures[k], call.context, steps);
        if !(call.apply && HasExecutor(ds[k].next) && LoopDetected(steps, failures[k].fingerprint)) {
          AppliedIsOneCall(steps, failures[k], Combined(failures, ds, k), call);
        }
      }
  }

  // ---- Whole sessions ----

  /** The chain after a sequence of calls. */
  function Session(steps: seq<Step>, calls: seq<Call>): seq<Step>
    decreases |calls|
  {
    if calls == [] then steps else Session(Recovered(steps, calls[0]).0, calls[1..])
  }

  /** Among the executors run for one (command, category), every later one is the escalation of
      a stale state. So at most one of them is no escalation, and any other category has at
      most one executor in all. */
  ghost predicate RunsOnce(steps: seq<Step>) {
    forall i, j |
      && 0 <= i < j < |steps|
      && Executor(steps[i]) && Executor(steps[j])
      && steps[i].command == steps[j].command && steps[i].category == steps[j].category ::
      steps[j].category == STALE_STATE && steps[j].recovery == Some(ESCALATE_VALIDATION)
  }

  function ExecutorRuns(steps: seq<Step>): nat {
    if steps == [] then 0
    else ExecutorRuns(steps[..|steps| - 1]) + if Executor(steps[|steps| - 1]) then 1 else 0
  }

  function Fingerprints(steps: seq<Step>): set<string> {
    set s | s in steps :: s.fingerprint
  }

  lemma OneCallRunsOnce(steps: seq<Step>, after: seq<Step>)
    requires RunsOnce(steps) && steps <= after && OneCall(steps, Added(steps, after))
    ensures RunsOnce(after)
  {
    var added := Added(steps, after);
    forall i, j |
      && 0 <= i < j < |after| && |steps| <= j
      && Executor(after[i]) && Executor(after[j])
      && after[i].command == after[j].command && after[i].category == after[j].category
      ensures after[j].category == STALE_STATE && after[j].recovery == Some(ESCALATE_VALIDATION)
    {
      assert after[j] == added[j - |steps|] && after[j] in added;
      if i < |steps| {
        assert after[i] in steps;
      } else {
        assert after[i] == added[i - |steps|] && after[i] in added;
      }
    }
  }

  lemma {:induction false} ExecutorRunsAdd(steps: seq<Step>, added: seq<Step>)
    ensures ExecutorRuns(steps + added) == ExecutorRuns(steps) + ExecutorRuns(added) <= ExecutorRuns(steps) + |added|
  {
    if added == [] {
      assert steps + added == steps;
    } else {
      var init := added[..|added| - 1];
      ExecutorRunsAdd(steps, init);
      assert (steps + added)[..|steps + added| - 1] == steps + init;
    }
  }

  lemma {:induction false} RunsNeedExecutors(steps: seq<Step>)
    ensures ExecutorRuns(steps) > 0 ==> exists s :: s in steps && Executor(s)
  {
    if steps != [] {
      RunsNeedExecutors(steps[..|steps| - 1]);
      assert steps[|steps| - 1] in steps;
    }
  }

  /** A call that runs executors brings a new fingerprint into the chain, for two runs at most. */
  lemma OneCallIsPaid(steps: seq<Step>, after: seq<Step>)
    requires steps <= after && OneCall(steps, Added(steps, after))
    ensures ExecutorRuns(after) - ExecutorRuns(steps) <= 2 * (|Fingerprints(after)| - |Fingerprints(steps)|)
  {
    var added := Added(steps, after);
    assert after == steps + added;
    ExecutorRunsAdd(steps, added);
    assert Fingerprints(steps) <= Fingerprints(after);
    SubsetSize(Fingerprints(steps), Fingerprints(after));
    RunsNeedExecutors(added);
    if ExecutorRuns(added) > 0 {
      var s :| s in added && Executor(s);
      assert s in after && s.fingerprint !in Fingerprints(steps);
      SubsetSize(Fingerprints(steps) + {s.fingerprint}, Fingerprints(after));
    }
  }

  lemma SubsetSize<T>(a: set<T>, b: set<T>)
    requires a <= b
    ensures |a| <= |b|
  {
    assert b == a + (b - a);
  }

  /** Recovery is bounded over any sequence of calls that share one chain. */
  lemma {:induction false} SessionIsBounded(steps: seq<Step>, calls: seq<Call>)
    requires RunsOnce(steps) && ExecutorRuns(steps) <= 2 * |Fingerprints(steps)|
    ensures var after := Session(steps, calls);
            && steps <= after && RunsOnce(after)
            && ExecutorRuns(after) <= 2 * |Fingerprints(after)|
    decreases |calls|
  {
    if calls != [] {
      var after := Recovered(steps, calls[0]).0;
      RecoverIsBounded(steps, calls[0]);
      OneCallRunsOnce(steps, after);
      OneCallIsPaid(steps, after);
      SessionIsBounded(after, calls[1..]);
    }
  }

  lemma ExecutorsActOnNews(steps: seq<Step>, call: Call, k: nat)
    requires |steps| <= k < |Recovered(steps, call).0| && Executor(Recovered(steps, call).0[k])
    ensures Recovered(steps, call).0[k].fingerprint !in Fingerprints(steps)
  {
    RecoverIsBounded(steps, call);
    var after := Recovered(steps, call).0;
    assert after[k] == Added(steps, after)[k - |steps|];
    assert after[k] in Added(steps, after);
  }

  lemma {:induction false} SessionGrows(steps: seq<Step>, calls: seq<Call>)
    ensures steps <= Session(steps, calls)
    decreases |calls|
  {
    if calls != [] {
      RecoverIsBounded(steps, calls[0]);
      SessionGrows(Recovered(steps, calls[0]).0, calls[1..]);
    }
  }

  /** A fingerprint that one call recorded is never acted on after any further calls. */
  lemma ActedOnOnce(steps: seq<Step>, first: Call, calls: seq<Call>, later: Call, i: nat, k: nat)
    requires i < |Recovered(steps, first).0|
    requires var before := Session(Recovered(steps, first).0, calls);
             |before| <= k < |Recovered(before, later).0| && Executor(Recovered(before, later).0[k])
    ensures var before := Session(Recovered(steps, first).0, calls);
            Recovered(before, later).0[k].fingerprint != Recovered(steps, first).0[i].fingerprint
  {
    var recorded := Recovered(steps, first).0;
    var before := Session(recorded, calls);
    SessionGrows(recorded, calls);
    ExecutorsActOnNews(before, later, k);
    assert recorded[i] == before[i] && before[i] in before;
  }

  /** Without `apply`, an aggregate is judged by its dominant failure, and nothing is recorded. */
  lemma DiagnosisIsDominant(steps: seq<Step>, whole: Failure, failures: seq<Failure>, call: Call, i: nat)
    requires call.input == Aggregate(whole, failures) && !call.apply && i < |failures|
    ensures var (steps', d) := Recovered(steps, call);
            && steps' == steps
            && d.(retry := {}) in Decisions(failures, call.context, steps)
            && Rank(d.final) <= Rank(Decide(failures[i], call.context, steps).final)
  {
    var ds := Decisions(failures, call.context, steps);
    DominantIsFirstLeast(ds);
    DecideNeverRecovers(failures[Dominant(ds)], call.context, steps);
    assert ds[Dominant(ds)] in ds && ds[i] == Decide(failures[i], call.context, steps);
  }

  /** Without `apply` nothing is executed, and only an input that was a success is RECOVERED. */
  lemma DiagnosisNeverRecovers(steps: seq<Step>, call: Call)
    requires !call.apply
    ensures var (steps', d) := Recovered(steps, call);
            && (d.final == RECOVERED <==> call.input.Success?)
            && steps <= steps' && forall s | s in Added(steps, steps') :: !Executor(s)
  {
    match call.input
    case Success =>
    case Single(f) =>
      DecideNeverRecovers(f, call.context, steps);
      var stop := StepFor(steps, f, STOP, Halted);
      assert Added(steps, steps + [stop]) == [stop];
    case Aggregate(whole, failures) =>
      if failures == [] {
        DecideNeverRecovers(whole, call.context, steps);
      } else {
        DecideNeverRecovers(failures[Dominant(Decisions(failures, call.context, steps))], call.context, steps);
      }
  }

  // ---- What RECOVERED says about an aggregate ----

  function OrElse(commands: set<string>, command: string): set<string> {
    if commands != {} then commands else if command == "" then {} else {command}
  }

  /** The commands that ran once more before the last step `s` of a call made it RECOVERED: those
      of the decision, those of the escalated scope, or the failed ones that the caller names. */
  function RanAgain(call: Call, s: Step, d: Decision): set<string> {
    if s.recovery == Some(RETRY_VALIDATION) then OrElse(d.retry, s.command)
    else if s.recovery == Some(ESCALATE_VALIDATION) then call.replies.escalated
    else OrElse(call.context.failed, s.command)
  }

  /** The executors whose success can be reported as RECOVERED. */
  predicate Verifies(next: Option<Action>) {
    next.Some? && (next.value in REFRESHES || next.value in {RETRY_VALIDATION, ESCALATE_VALIDATION})
  }

  /** How a decision comes to be RECOVERED: by its own action, or by the escalation of a stale
      state after that failed. */
  lemma ExecutedRecovers(steps: seq<Step>, f: Failure, d: Decision, call: Call, left: nat)
    requires Policied(d, f, steps) && Executed(steps, f, d, call, 0, left).1.final == RECOVERED
    ensures var (steps', d') := Executed(steps, f, d, call, 0, left);
            && |steps'| > |steps|
            && var s := steps'[|steps'| - 1];
               && s.command == f.command
               && (|| (s.recovery == d.next && Verifies(d.next) && d'.retry == d.retry)
                   || (f.category == STALE_STATE && s.recovery == Some(ESCALATE_VALIDATION)))
  {
    ExecutedIsOneRound(steps, f, d, call, left);
    var (steps', d') := Executed(steps, f, d, call, 0, left);
    var added := Added(steps, steps');
    assert added[|added| - 1] in added && steps'[|steps'| - 1] == added[|added| - 1];
  }

  const MILD := {UNCLEAR, ESCALATED, RETRYING}

  lemma WinnerIsMild(f: Failure, context: Context, steps: seq<Step>)
    requires Verifies(Decide(f, context, steps).next) || f.category == STALE_STATE
    ensures Decide(f, context, steps).final in MILD
  {
  }

  lemma MildIsRanked(a: Final, b: Final)
    requires a in MILD && Rank(a) <= Rank(b) && b != RECOVERED
    ensures b in MILD
  {
  }

  /** A RECOVERED aggregate has carried out the combined decision. */
  lemma RecoveredIsExecuted(steps: seq<Step>, whole: Failure, failures: seq<Failure>, call: Call) returns (k: nat)
    requires call.input == Aggregate(whole, failures) && Recovered(steps, call).1.final == RECOVERED
    ensures failures != [] && k == Dominant(Decisions(failures, call.context, steps)) < |failures|
    ensures Recovered(steps, call)
            == Executed(steps, failures[k], Combined(failures, Decisions(failures, call.context, steps), k), call, 0, call.maxAttempts)
  {
    if failures == [] {
      DecideNeverRecovers(whole, call.context, steps);
      assert false;
    }
    k := Dominant(Decisions(failures, call.context, steps));
    DecideNeverRecovers(failures[k], call.context, steps);
  }

  /** The last step of a RECOVERED aggregate, and the commands of its decision. */
  ghost predicate Recovers(steps: seq<Step>, failures: seq<Failure>, call: Call, k: nat, s: Step, d: Decision)
    requires k < |failures|
  {
    && s.command == failures[k].command
    && (|| (s.recovery == Decide(failures[k], call.context, steps).next && Verifies(s.recovery)
            && d.retry == RetryCommands(failures, Decisions(failures, call.context, steps)))
        || (failures[k].category == STALE_STATE && s.recovery == Some(ESCALATE_VALIDATION)))
  }

  lemma RecoveredAggregate(steps: seq<Step>, whole: Failure, failures: seq<Failure>, call: Call) returns (k: nat)
    requires call.input == Aggregate(whole, failures) && Recovered(steps, call).1.final == RECOVERED
    ensures failures != [] && k == Dominant(Decisions(failures, call.context, steps)) < |failures|
    ensures var (steps', d) := Recovered(steps, call);
            |steps'| > |steps| && Recovers(steps, failures, call, k, steps'[|steps'| - 1], d)
  {
    k := RecoveredIsExecuted(steps, whole, failures, call);
    DecisionsArePolicied(failures[k], call.context, steps);
    ExecutedRecovers(steps, failures[k], Combined(failures, Decisions(failures, call.context, steps), k), call,
                     call.maxAttempts);
  }

  /** RECOVERED hides no failure of the code, of the environment or of a contract: every failed
      command was by itself to be retried, escalated, or unclear. */
  lemma RecoveredHidesNothingWorse(steps: seq<Step>, whole: Failure, failures: seq<Failure>, call: Call, i: nat)
    requires call.input == Aggregate(whole, failures) && Recovered(steps, call).1.final == RECOVERED
    requires i < |failures|
    ensures Decide(failures[i], call.context, steps).final in MILD
  {
    var k := RecoveredAggregate(steps, whole, failures, call);
    var ds := Decisions(failures, call.context, steps);
    WinnerIsMild(failures[k], call.context, steps);
    DominantIsFirstLeast(ds);
    DecideNeverRecovers(failures[i], call.context, steps);
    assert ds[i] == Decide(failures[i], call.context, steps) && ds[k] == Decide(failures[k], call.context, steps);
    MildIsRanked(ds[k].final, ds[i].final);
  }

  /** A transient failure that was never met before. */
  predicate FreshTransient(f: Failure, steps: seq<Step>) {
    && f.category == ENVIRONMENT_FAILURE && f.subtype == "transient_service"
    && !HasExecuted(steps, f.command, f.category) && AttemptsFor(steps, f.fingerprint) == 0
  }

  /** Exactly such failures are retried by their own decision. */
  lemma RetryIsForTransients(f: Failure, context: Context, steps: seq<Step>)
    ensures Decide(f, context, steps).next == Some(RETRY_VALIDATION) <==> FreshTransient(f, steps)
  {
  }

  /** Every failed command is run again by the action, as can be told before the call. */
  ghost predicate Covers(action: Option<Action>, steps: seq<Step>, failures: seq<Failure>, call: Call, winner: Failure) {
    if action == Some(RETRY_VALIDATION) then
      forall f | f in failures ::
        f.command != "" && exists g :: g in failures && g.command == f.command && FreshTransient(g, steps)
    else if action == Some(ESCALATE_VALIDATION) then
      forall f | f in failures :: f.command in call.replies.escalated
    else if call.context.failed != {} then
      forall f | f in failures :: f.command in call.context.failed
    else
      forall f | f in failures :: f.command == winner.command != ""
  }

  lemma RetriedExactly(steps: seq<Step>, failures: seq<Failure>, context: Context, command: string)
    ensures command in RetryCommands(failures, Decisions(failures, context, steps)) <==>
              command != "" && exists g :: g in failures && g.command == command && FreshTransient(g, steps)
  {
    var ds := Decisions(failures, context, steps);
    forall i | 0 <= i < |failures| ensures ds[i].next == Some(RETRY_VALIDATION) <==> FreshTransient(failures[i], steps) {
      RetryIsForTransients(failures[i], context, steps);
    }
    if g :| g in failures && g.command == command && FreshTransient(g, steps) {
      var i :| 0 <= i < |failures| && failures[i] == g;
    }
  }

  lemma RetryCovers(steps: seq<Step>, failures: seq<Failure>, call: Call, k: nat, s: Step, d: Decision)
    requires k < |failures| && Recovers(steps, failures, call, k, s, d) && s.recovery == Some(RETRY_VALIDATION)
    ensures (forall f | f in failures :: f.command in RanAgain(call, s, d))
            <==> Covers(s.recovery, steps, failures, call, failures[k])
  {
    RetryIsForTransients(failures[k], call.context, steps);
    RetriedExactly(steps, failures, call.context, s.command);
    forall f | f in failures
      ensures f.command in RanAgain(call, s, d) <==>
              f.command != "" && exists g :: g in failures && g.command == f.command && FreshTransient(g, steps)
    {
      RetriedExactly(steps, failures, call.context, f.command);
    }
  }

  lemma OthersCover(steps: seq<Step>, failures: seq<Failure>, call: Call, k: nat, s: Step, d: Decision)
    requires k < |failures| && s.command == failures[k].command && s.recovery != Some(RETRY_VALIDATION)
    ensures (forall f | f in failures :: f.command in RanAgain(call, s, d))
            <==> Covers(s.recovery, steps, failures, call, failures[k])
  {
  }

  /** A RECOVERED aggregate has run every failed command again exactly if: after a retry, each is
      the command of a fresh transient failure; after an escalation, the escalated scope holds
      them; after a refresh, the caller named them, or all are the winner's. */
  lemma RecoveredCoversExactly(steps: seq<Step>, whole: Failure, failures: seq<Failure>, call: Call)
    requires call.input == Aggregate(whole, failures) && Recovered(steps, call).1.final == RECOVERED
    ensures failures != []
    ensures var (steps', d) := Recovered(steps, call);
            && |steps'| > |steps|
            && var s := steps'[|steps'| - 1];
               (forall f | f in failures :: f.command in RanAgain(call, s, d))
               <==> Covers(s.recovery, steps, failures, call, failures[Dominant(Decisions(failures, call.context, steps))])
  {
    var k := RecoveredAggregate(steps, whole, failures, call);
    var (steps', d) := Recovered(steps, call);
    ActionCovers(steps, failures, call, k, steps'[|steps'| - 1], d);
  }

  lemma ActionCovers(steps: seq<Step>, failures: seq<Failure>, call: Call, k: nat, s: Step, d: Decision)
    requires k < |failures| && Recovers(steps, failures, call, k, s, d)
    ensures (forall f | f in failures :: f.command in RanAgain(call, s, d))
            <==> Covers(s.recovery, steps, failures, call, failures[k])
  {
    if s.recovery == Some(RETRY_VALIDATION) {
      RetryCovers(steps, failures, call, k, s, d);
    } else {
      OthersCover(steps, failures, call, k, s, d);
    }
  }

  // ---- A failed command that nothing runs again ----

  function Plain(command: string, category: Category, subtype: string): Failure {
    Failure(command, category, subtype, None, command, Flags(false, false, false, false, false, false))
  }

  const SERVICE := Plain("pytest a -q", ENVIRONMENT_FAILURE, "transient_service")
  const TARGET := Plain("pytest b -q", MISSING_TARGET, "")

  function BothFailed(): Call {
    Call(Aggregate(SERVICE, [SERVICE, TARGET]), Context(None, false, {}), true, false, 3,
         Replies(n => Done(None), false, false, {}))
  }

  lemma BothAreRetrying()
    ensures var call, failures := BothFailed(), [SERVICE, TARGET];
            var ds := Decisions(failures, call.context, []);
            && Dominant(ds) == 0 && ds[0].next == Some(RETRY_VALIDATION)
            && RetryCommands(failures, ds) == {SERVICE.command}
  {
    var call, failures := BothFailed(), [SERVICE, TARGET];
    var ds := Decisions(failures, call.context, []);
    assert ds[0].final == RETRYING && ds[0].next == Some(RETRY_VALIDATION);
    assert ds[1].final == RETRYING && ds[1].next == Some(REFRESH_INDEX);
    assert ds[..1] == [ds[0]];
  }

  /** A transient failure and a missing target: one retry of the first makes the aggregate
      RECOVERED, and the second command is not run again. */
  lemma UnretriedFailureExample()
    ensures var (steps, d) := Recovered([], BothFailed());
            && d.final == RECOVERED && |steps| == 1 && steps[0].recovery == Some(RETRY_VALIDATION)
            && TARGET.command !in RanAgain(BothFailed(), steps[0], d)
  {
    BothAreRetrying();
    assert SERVICE.command[7] != TARGET.command[7];
  }
}
