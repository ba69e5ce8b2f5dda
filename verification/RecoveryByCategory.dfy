/** What recovery does about each category of failure (tools/failure_intel.py,
    _policy_next_action, escalation_target, recover, _recover_validation), over single calls and
    whole sessions. */
module RecoveryByCategory {
  import opened Wrappers
  import opened FailurePolicy
  import opened FailureRecovery

  /** Debt or drift that was there before. */
  ghost predicate Baseline(subtype: string) {
    exists prefix :: subtype == prefix + "baseline_debt" || subtype == prefix + "baseline_drift"
  }

  /** The executor that first treats a failure, by category and subtype; most categories have
      none. */
  ghost predicate Treats(category: Category, subtype: string, action: Action) {
    match category
    case STALE_STATE =>
      && (subtype == "stale_graph" ==> action == REBUILD_GRAPH)
      && (subtype == "stale_packet" ==> action == REFRESH_PACKET)
      && (subtype == "stale_scope" ==> action == RECOMPUTE_SCOPE)
      && (subtype == "stale_manifest" ==> action == REGENERATE_EXECUTION_SURFACE)
      && (subtype !in {"stale_graph", "stale_packet", "stale_scope", "stale_manifest"} ==> action == REFRESH_INDEX)
    case CONCURRENT_MODIFICATION => action == REGENERATE_EXECUTION_SURFACE
    case MISSING_TARGET => action == REFRESH_INDEX
    case MISSING_TEST => action == REFRESH_INDEX
    case VALIDATION_UNAVAILABLE => action == ESCALATE_VALIDATION
    case TIMEOUT => action == ESCALATE_VALIDATION
    case UNKNOWN => action == ESCALATE_VALIDATION
    case VALIDATION_FAILURE => !Baseline(subtype) && action == ESCALATE_VALIDATION
    case ENVIRONMENT_FAILURE => subtype == "transient_service" && action == RETRY_VALIDATION
    case _ => false
  }

  /** A failure that some executor may treat; all others are only reported. */
  ghost predicate Treatable(category: Category, subtype: string) {
    || category in {STALE_STATE, CONCURRENT_MODIFICATION, MISSING_TARGET, MISSING_TEST, VALIDATION_UNAVAILABLE, TIMEOUT, UNKNOWN}
    || (category == VALIDATION_FAILURE && !Baseline(subtype))
    || (category == ENVIRONMENT_FAILURE && subtype == "transient_service")
  }

  /** A treatable failure whose treatment can be verified. */
  ghost predicate Curable(category: Category, subtype: string) {
    Treatable(category, subtype) && category != CONCURRENT_MODIFICATION
  }

  /** A step without an executor, or the treatment of its own failure, or the escalation of a
      stale state. */
  ghost predicate Fits(s: Step) {
    Executor(s) ==>
      || Treats(s.category, s.subtype, s.recovery.value)
      || (s.category == STALE_STATE && s.recovery.value == ESCALATE_VALIDATION)
  }

  lemma BaselineExactly(subtype: string)
    ensures Baseline(subtype) <==> EndsWith(subtype, "baseline_debt") || EndsWith(subtype, "baseline_drift")
  {
    if EndsWith(subtype, "baseline_debt") {
      assert subtype == subtype[..|subtype| - 13] + "baseline_debt";
    }
    if EndsWith(subtype, "baseline_drift") {
      assert subtype == subtype[..|subtype| - 14] + "baseline_drift";
    }
    forall prefix | subtype == prefix + "baseline_debt" ensures EndsWith(subtype, "baseline_debt") {
      assert subtype[|prefix|..] == "baseline_debt";
    }
    forall prefix | subtype == prefix + "baseline_drift" ensures EndsWith(subtype, "baseline_drift") {
      assert subtype[|prefix|..] == "baseline_drift";
    }
  }

  lemma EndsDiffer(s: string, suffix: string, k: nat)
    requires 0 < k <= |suffix| && k <= |s| && s[|s| - k] != suffix[|suffix| - k]
    ensures !EndsWith(s, suffix)
  {
    if |suffix| <= |s| {
      assert s[|s| - |suffix|..][|suffix| - k] == s[|s| - k];
    }
  }

  lemma InconsistentIsNotBaseline(subtype: string)
    requires subtype in {"index_invalid", "validator_inconsistent", "incremental_full_mismatch"}
    ensures !Baseline(subtype)
  {
    BaselineExactly(subtype);
    EndsDiffer(subtype, "baseline_debt", if subtype == "validator_inconsistent" then 2 else 1);
    EndsDiffer(subtype, "baseline_drift", if subtype == "validator_inconsistent" then 2 else 1);
  }

  // ---- The policy, category by category ----

  /** A decision runs no executor but the treatment of the failure, or the escalation of a stale
      state that was treated before. */
  ghost predicate Sparing(f: Failure, next: Option<Action>) {
    HasExecutor(next) ==>
      || Treats(f.category, f.subtype, next.value)
      || (f.category == STALE_STATE && next.value == ESCALATE_VALIDATION)
  }

  lemma PolicyTreats(f: Failure)
    ensures var action := PolicyNextAction(f);
            if Treatable(f.category, f.subtype) then HasExecutor(Some(action)) && Treats(f.category, f.subtype, action)
            else !HasExecutor(Some(action))
  {
    if f.category == VALIDATION_FAILURE {
      BaselineExactly(f.subtype);
      if f.subtype in {"index_invalid", "validator_inconsistent", "incremental_full_mismatch"} {
        InconsistentIsNotBaseline(f.subtype);
      }
    }
  }

  lemma DecisionsAreSparing(f: Failure, context: Context, steps: seq<Step>)
    ensures Sparing(f, Decide(f, context, steps).next)
  {
    PolicyTreats(f);
  }

  // ---- Steps of calls and sessions ----

  ghost predicate AllFit(added: seq<Step>, f: Failure) {
    forall s | s in added :: s.category == f.category && s.subtype == f.subtype && Fits(s)
  }

  lemma OneStepFits(steps: seq<Step>, f: Failure, next: Option<Action>, result: StepResult)
    requires Sparing(f, next) && HasExecutor(next)
    ensures AllFit(Added(steps, steps + [StepFor(steps, f, next.value, result)]), f)
  {
  }

  lemma AddedTwice(a: seq<Step>, b: seq<Step>, c: seq<Step>)
    requires a <= b <= c
    ensures a <= c && Added(a, c) == Added(a, b) + Added(b, c)
  {
  }

  lemma {:induction false} ExecutedFits(steps: seq<Step>, f: Failure, d: Decision, call: Call, attempt: nat, left: nat)
    requires Sparing(f, d.next)
    ensures var (steps', _) := Executed(steps, f, d, call, attempt, left);
            steps <= steps' && AllFit(Added(steps, steps'), f)
    decreases left
  {
    if left > 0 && HasExecutor(d.next) {
      var result := if call.replies.executor(attempt).Done? then Succeeded else Failed;
      var steps' := steps + [StepFor(steps, f, d.next.value, result)];
      var again := Decide(f, call.context, steps');
      OneStepFits(steps, f, d.next, result);
      if result == Failed && HasExecutor(again.next) && again.next != d.next {
        DecisionsAreSparing(f, call.context, steps');
        ExecutedFits(steps', f, again, call, attempt + 1, left - 1);
        AddedTwice(steps, steps', Executed(steps', f, again, call, attempt + 1, left - 1).0);
      }
    }
  }

  /** The failures a call is about. */
  function FailuresOf(call: Call): seq<Failure> {
    match call.input
    case Success => []
    case Single(f) => [f]
    case Aggregate(_, failures) => failures
  }

  lemma CallFits(steps: seq<Step>, call: Call) returns (f: Failure)
    ensures var (steps', _) := Recovered(steps, call);
            steps <= steps' && (steps' == steps || (f in FailuresOf(call) && AllFit(Added(steps, steps'), f)))
  {
    match call.input
    case Success =>
      f :| true;
    case Single(g) =>
      f := g;
      DecisionsAreSparing(f, call.context, steps);
      ExecutedFits(steps, f, Decide(f, call.context, steps), call, 0, call.maxAttempts);
      assert Added(steps, steps + [StepFor(steps, f, STOP, Halted)]) == [StepFor(steps, f, STOP, Halted)];
    case Aggregate(whole, failures) =>
      if failures == [] {
        f := whole;
      } else {
        var ds := Decisions(failures, call.context, steps);
        f := failures[Dominant(ds)];
        DecisionsAreSparing(f, call.context, steps);
        ExecutedFits(steps, f, Combined(failures, ds, Dominant(ds)), call, 0, call.maxAttempts);
      }
  }

  /** Whatever the calls report, every executor that a session adds is the treatment of its own
      category and subtype, or the escalation of a stale state: no failure of the code, a test,
      syntax, an import, ownership, a contract, a language, the tool chain or the infrastructure
      ever gets one. */
  lemma {:induction false} SessionFits(steps: seq<Step>, calls: seq<Call>)
    ensures steps <= Session(steps, calls)
    ensures forall s | s in Added(steps, Session(steps, calls)) :: Fits(s) && (Executor(s) ==> Treatable(s.category, s.subtype))
    decreases |calls|
  {
    if calls != [] {
      var after := Recovered(steps, calls[0]).0;
      CallIsFit(steps, calls[0]);
      SessionFits(after, calls[1..]);
      AddedTwice(steps, after, Session(after, calls[1..]));
    }
  }

  lemma CallIsFit(steps: seq<Step>, call: Call)
    ensures steps <= Recovered(steps, call).0
    ensures forall s | s in Added(steps, Recovered(steps, call).0) ::
              Fits(s) && (Executor(s) ==> Treatable(s.category, s.subtype))
  {
    var f := CallFits(steps, call);
    forall s | s in Added(steps, Recovered(steps, call).0) ensures Fits(s) && (Executor(s) ==> Treatable(s.category, s.subtype)) {
      assert Fits(s);
    }
  }

  // ---- What RECOVERED says ----

  lemma MildIsCurable(f: Failure, context: Context, steps: seq<Step>)
    requires Decide(f, context, steps).final in MILD
    ensures Curable(f.category, f.subtype)
  {
    PolicyTreats(f);
  }

  lemma VerifiedIsCurable(call: Call, added: seq<Step>, f: Failure)
    requires Verified(call, added) && AllFit(added, f)
    ensures Curable(f.category, f.subtype)
  {
    var s := added[|added| - 1];
    assert s in added;
  }

  lemma RecoveredSingleIsCurable(steps: seq<Step>, f: Failure, call: Call)
    requires call.input == Single(f) && Recovered(steps, call).1.final == RECOVERED
    ensures Curable(f.category, f.subtype)
  {
    RecoverIsBounded(steps, call);
    var g := CallFits(steps, call);
    VerifiedIsCurable(call, Added(steps, Recovered(steps, call).0), f);
  }

  /** RECOVERED hides nothing: every failure of the call, alone or in an aggregate, is of a
      category that recovery can cure. */
  lemma RecoveredIsCurable(steps: seq<Step>, call: Call, f: Failure)
    requires Recovered(steps, call).1.final == RECOVERED && f in FailuresOf(call)
    ensures Curable(f.category, f.subtype)
  {
    match call.input
    case Single(_) => RecoveredSingleIsCurable(steps, f, call);
    case Aggregate(whole, failures) =>
      var i :| 0 <= i < |failures| && failures[i] == f;
      RecoveredHidesNothingWorse(steps, whole, failures, call, i);
      MildIsCurable(f, call.context, steps);
  }

  /** A stale state whose first treatment breaks is escalated; everything else is treated once. */
  function Kind(f: Failure): Call {
    Call(Single(f), Context(None, true, {}), true, true, 2,
         Replies(n => if n == 0 && f.category == STALE_STATE then Broken else Done(Some(2)), true, true, {}))
  }

  lemma CurableRecovers(f: Failure)
    requires Curable(f.category, f.subtype)
    ensures Recovered([], Kind(f)).1.final == RECOVERED
  {
    PolicyTreats(f);
    var call := Kind(f);
    var d := Decide(f, call.context, []);
    assert d.next == Some(PolicyNextAction(f));
    if f.category == STALE_STATE {
      var step := StepFor([], f, d.next.value, Failed);
      RanBefore([], f, step);
      assert [] + [step] == [step];
      RepeatsOnlyEscalate(f, call.context, [step]);
    }
  }

  /** Some call recovers from a failure exactly if its category and subtype can be cured. */
  lemma CurableExactly(f: Failure)
    ensures Curable(f.category, f.subtype)
            <==> exists call: Call :: call.input == Single(f) && Recovered([], call).1.final == RECOVERED
  {
    if Curable(f.category, f.subtype) {
      CurableRecovers(f);
      assert Kind(f).input == Single(f);
    }
    if call: Call :| call.input == Single(f) && Recovered([], call).1.final == RECOVERED {
      RecoveredSingleIsCurable([], f, call);
    }
  }

  // ---- The first treatment, and what is only reported ----

  /** Never met before: neither its fingerprint, nor its command with its category. */
  predicate Fresh(f: Failure, steps: seq<Step>) {
    !LoopDetected(steps, f.fingerprint) && !HasExecuted(steps, f.command, f.category)
  }

  lemma {:induction false} NeverAttempted(steps: seq<Step>, fingerprint: string)
    requires !LoopDetected(steps, fingerprint)
    ensures AttemptsFor(steps, fingerprint) == 0
  {
    if steps != [] {
      var init := steps[..|steps| - 1];
      assert forall s | s in init :: s in steps;
      NeverAttempted(init, fingerprint);
    }
  }

  /** The final state that a failure has before anything was done about it. */
  ghost predicate Judged(f: Failure, final: Final) {
    match f.category
    case STALE_STATE => final == RETRYING
    case MISSING_TARGET => final == RETRYING
    case MISSING_TEST => final == RETRYING
    case CONCURRENT_MODIFICATION => final == STOPPED
    case VALIDATION_UNAVAILABLE => final == ESCALATED
    case TIMEOUT => final == ESCALATED
    case VALIDATION_FAILURE => final == if Baseline(f.subtype) then STOPPED else ESCALATED
    case UNKNOWN => final == UNCLEAR
    case ENVIRONMENT_FAILURE => final == if f.subtype == "transient_service" then RETRYING else ENVIRONMENT
    case CODE_FAILURE => final == CODE
    case TEST_FAILURE => final == CODE
    case SYNTAX_FAILURE => final == CODE
    case IMPORT_FAILURE => final == CODE
    case OWNERSHIP_FAILURE => final == BLOCKED
    case CONTRACT_FAILURE =>
      final == if f.subtype != "safety_contract_blocked" && InChange(f) then CODE else BLOCKED
    case LANGUAGE_FAILURE => final == if InChange(f) then CODE else STOPPED
    case TOOLCHAIN_FAILURE => final == STOPPED
    case INFRASTRUCTURE_FAILURE => final == STOPPED
  }

  /** The layer at fault is the code itself. */
  predicate InChange(f: Failure) {
    f.ownership == Some("source_code") || f.ownership == Some("test") || f.ownership == Some("route")
  }

  /** A fresh failure is treated exactly if its category and subtype have a treatment, and by
      that first; otherwise, or without `apply`, it is only judged. */
  lemma TreatedExactly(steps: seq<Step>, f: Failure, call: Call)
    requires call.input == Single(f) && call.maxAttempts > 0 && Fresh(f, steps)
    ensures var (steps', d) := Recovered(steps, call);
            if call.apply && Treatable(f.category, f.subtype)
            then
              && |steps'| > |steps| && steps'[|steps|].recovery.Some?
              && Treats(f.category, f.subtype, steps'[|steps|].recovery.value)
            else steps' == steps && Judged(f, d.final)
  {
    PolicyTreats(f);
    NeverAttempted(steps, f.fingerprint);
    var d := Decide(f, call.context, steps);
    assert d.next == Some(PolicyNextAction(f));
    if call.apply && Treatable(f.category, f.subtype) {
      FirstStep(steps, f, d, call, call.maxAttempts);
    } else {
      JudgedByPolicy(f);
    }
  }

  lemma FirstStep(steps: seq<Step>, f: Failure, d: Decision, call: Call, left: nat)
    requires left > 0 && HasExecutor(d.next) && Sparing(f, d.next)
    ensures var steps' := Executed(steps, f, d, call, 0, left).0;
            |steps'| > |steps| && steps'[|steps|].recovery == d.next
  {
    if call.replies.executor(0).Broken? {
      var steps1 := steps + [StepFor(steps, f, d.next.value, Failed)];
      var again := Decide(f, call.context, steps1);
      DecisionsAreSparing(f, call.context, steps1);
      ExecutedFits(steps1, f, again, call, 1, left - 1);
      assert steps1[|steps|].recovery == d.next;
    }
  }

  lemma JudgedByPolicy(f: Failure)
    ensures Judged(f, PolicyFinal(f.category, Some(PolicyNextAction(f))))
  {
    PolicyTreats(f);
    BaselineExactly(f.subtype);
  }

  /** How a first executor that succeeds ends the call: only a verified success is RECOVERED. */
  ghost predicate SucceedsWith(call: Call, action: Action, final: Final) {
    match action
    case RETRY_VALIDATION => final == RECOVERED
    case ESCALATE_VALIDATION =>
      final == if call.replies.executor(0).Done? && call.replies.executor(0).recoveredAt.Some? then RECOVERED else ESCALATED
    case RECOMPUTE_SCOPE => final == RETRYING
    case REGENERATE_EXECUTION_SURFACE => final == RETRYING
    case _ =>
      final ==
        if !call.context.hasManifest then RETRYING
        else if call.replies.rescope && !call.revalidate then RETRYING
        else if call.replies.rescope && call.replies.retry then RECOVERED
        else ESCALATED
  }

  /** A fresh failure whose first executor succeeds ends as that executor says; one whose executor
      breaks is stopped, but a stale state is escalated once more, and stopped if that breaks too. */
  lemma EndsExactly(steps: seq<Step>, f: Failure, call: Call)
    requires call.input == Single(f) && call.apply && call.maxAttempts > 1 && Fresh(f, steps)
    requires Treatable(f.category, f.subtype)
    ensures var (steps', d) := Recovered(steps, call);
            && |steps'| > |steps| && steps'[|steps|].recovery.Some?
            && if call.replies.executor(0).Done? then
                 |steps'| == |steps| + 1 && SucceedsWith(call, steps'[|steps|].recovery.value, d.final)
               else if f.category != STALE_STATE || call.replies.executor(1).Broken? then d.final == STOPPED
               else d.final == if call.replies.executor(1).recoveredAt.Some? then RECOVERED else ESCALATED
  {
    TreatedExactly(steps, f, call);
    NeverAttempted(steps, f.fingerprint);
    PolicyTreats(f);
    var d := Decide(f, call.context, steps);
    if call.replies.executor(0).Broken? {
      BrokenEnds(steps, f, d, call);
    }
  }

  lemma BrokenEnds(steps: seq<Step>, f: Failure, d: Decision, call: Call)
    requires call.maxAttempts > 1 && call.replies.executor(0).Broken?
    requires HasExecutor(d.next) && Treats(f.category, f.subtype, d.next.value) && Treatable(f.category, f.subtype)
    ensures Executed(steps, f, d, call, 0, call.maxAttempts).1.final ==
              if f.category != STALE_STATE || call.replies.executor(1).Broken? then STOPPED
              else if call.replies.executor(1).recoveredAt.Some? then RECOVERED else ESCALATED
  {
    var step := StepFor(steps, f, d.next.value, Failed);
    var steps1 := steps + [step];
    RanBefore(steps, f, step);
    RepeatsOnlyEscalate(f, call.context, steps1);
    if f.category == STALE_STATE && call.replies.executor(1).Broken? {
      var second := StepFor(steps1, f, ESCALATE_VALIDATION, Failed);
      RanBefore(steps1, f, second);
      RepeatsOnlyEscalate(f, call.context, steps1 + [second]);
    }
  }

  /** A failure seen before is stopped: alone it is recorded once more, as a halt without an
      executor; as the dominant one of an aggregate that is to be acted on it leaves no step. */
  lemma SeenBeforeIsStopped(steps: seq<Step>, f: Failure, call: Call)
    requires call.input == Single(f) && LoopDetected(steps, f.fingerprint)
    ensures var (steps', d) := Recovered(steps, call);
            && d.next == Some(STOP) && d.final == STOPPED
            && |steps'| == |steps| + 1 && steps < steps'
            && steps'[|steps|] == Step(|steps| + 1, f.command, f.category, f.subtype, f.fingerprint, Some(STOP), Halted)
  {
    assert StepFor(steps, f, STOP, Halted) == Step(|steps| + 1, f.command, f.category, f.subtype, f.fingerprint, Some(STOP), Halted);
  }

  lemma SeenWinnerIsStopped(steps: seq<Step>, whole: Failure, failures: seq<Failure>, call: Call)
    requires call.input == Aggregate(whole, failures) && failures != [] && call.apply
    requires var winner := failures[Dominant(Decisions(failures, call.context, steps))];
             LoopDetected(steps, winner.fingerprint) && HasExecutor(Decide(winner, call.context, steps).next)
    ensures var (steps', d) := Recovered(steps, call);
            steps' == steps && d.next == Some(STOP) && d.final == STOPPED
  {
    var k := Dominant(Decisions(failures, call.context, steps));
    assert Combined(failures, Decisions(failures, call.context, steps), k).next == Decide(failures[k], call.context, steps).next;
  }

  /** What a first decision says of itself: who is worth a retry, and how often that was done. */
  lemma MarksExactly(f: Failure, context: Context, steps: seq<Step>)
    requires Fresh(f, steps)
    ensures var d := Decide(f, context, steps);
            && (d.retryable <==>
                  || f.category in {STALE_STATE, MISSING_TARGET, MISSING_TEST}
                  || (f.category == ENVIRONMENT_FAILURE && f.subtype == "transient_service"))
            && d.retryBudget == (if d.retryable then 1 else 0) && d.retriesUsed == 0
            && (d.escalationRequired <==> d.escalationTarget.Some? && d.escalationTarget != context.scope)
  {
    NeverAttempted(steps, f.fingerprint);
    PolicyTreats(f);
  }

  // ---- What decides about an aggregate ----

  /** Some failure of the list has that final by itself. */
  ghost predicate Ends(steps: seq<Step>, failures: seq<Failure>, context: Context, final: Final) {
    exists f :: f in failures && Decide(f, context, steps).final == final
  }

  /** Without `apply` an aggregate is stopped if some failure is, else blocked, else a matter of the
      environment, else of the code, else unclear, else to be escalated, else retrying. */
  lemma WorstDecides(steps: seq<Step>, whole: Failure, failures: seq<Failure>, call: Call)
    requires call.input == Aggregate(whole, failures) && failures != [] && !call.apply
    ensures Recovered(steps, call).1.final ==
              if Ends(steps, failures, call.context, STOPPED) then STOPPED
              else if Ends(steps, failures, call.context, BLOCKED) then BLOCKED
              else if Ends(steps, failures, call.context, ENVIRONMENT) then ENVIRONMENT
              else if Ends(steps, failures, call.context, CODE) then CODE
              else if Ends(steps, failures, call.context, UNCLEAR) then UNCLEAR
              else if Ends(steps, failures, call.context, ESCALATED) then ESCALATED
              else RETRYING
  {
    var final := Recovered(steps, call).1.final;
    var k := Dominant(Decisions(failures, call.context, steps));
    assert Decide(failures[k], call.context, steps).final == final;
    assert Ends(steps, failures, call.context, final);
    DecideNeverRecovers(failures[k], call.context, steps);
    forall other | Ends(steps, failures, call.context, other) ensures Rank(final) <= Rank(other) {
      var f :| f in failures && Decide(f, call.context, steps).final == other;
      var i :| 0 <= i < |failures| && failures[i] == f;
      DiagnosisIsDominant(steps, whole, failures, call, i);
    }
  }

  // ---- Escalation targets ----

  ghost predicate Inconsistent(f: Failure) {
    f.subtype == "incremental_full_mismatch" || f.subtype == "validator_inconsistent"
  }

  /** The target of a first decision lies below the current level exactly if a wide change meets
      the top level, or an incomplete impact meets one of the two top levels, with nothing more
      severe about. */
  lemma DowngradesExactly(f: Failure, context: Context, steps: seq<Step>)
    requires Fresh(f, steps) && context.scope.Some?
    ensures var target := Decide(f, context, steps).escalationTarget;
            var severe := Inconsistent(f) || f.flags.contractGap || f.flags.graphGap;
            var wide := f.flags.crossModule || f.flags.crossLanguage || f.flags.publicChanged;
            (target.Some? && target.value < context.scope.value) <==>
              !severe && (if wide then context.scope.value == 5 else f.flags.impactGap && context.scope.value >= 4)
  {
    NeverAttempted(steps, f.fingerprint);
  }

  /** The first target is the level that the doubt about the failure asks for, and where there is
      none, the next one for failures that are not simply reported. */
  lemma EscalatesAsDoubted(f: Failure, context: Context, steps: seq<Step>)
    requires Fresh(f, steps)
    ensures var target := Decide(f, context, steps).escalationTarget;
            if Inconsistent(f) || f.flags.contractGap || f.flags.graphGap then target == Some(5)
            else if f.flags.crossModule || f.flags.crossLanguage || f.flags.publicChanged then target == Some(4)
            else if f.flags.impactGap then target == Some(if context.scope == None || context.scope == Some(0) then 2 else 3)
            else match f.category
                 case TIMEOUT => target == Some(NextLevel(context.scope))
                 case UNKNOWN => target == Some(NextLevel(context.scope))
                 case VALIDATION_FAILURE => target == Some(NextLevel(context.scope))
                 case LANGUAGE_FAILURE => target == Some(NextLevel(context.scope))
                 case CONTRACT_FAILURE => target == if InChange(f) then None else Some(NextLevel(context.scope))
                 case OWNERSHIP_FAILURE => target == if InChange(f) then None else Some(NextLevel(context.scope))
                 case VALIDATION_UNAVAILABLE => target == if context.scope.Some? then context.scope else Some(2)
                 case _ => target == None
  {
    NeverAttempted(steps, f.fingerprint);
  }

  /** L2 without a level, else the next one up to L5. */
  function NextLevel(current: Option<Level>): Level {
    if current.None? then 2 else if current.value == 5 then 5 else current.value + 1
  }

  /** A change across modules at L5 is to be escalated to L4. */
  lemma DowngradeExample()
    ensures var f := Failure("pytest a -q", UNKNOWN, "", None, "f", Flags(true, false, false, false, false, false));
            Decide(f, Context(Some(5), false, {}), []).escalationTarget == Some(4)
  {
    var f := Failure("pytest a -q", UNKNOWN, "", None, "f", Flags(true, false, false, false, false, false));
    assert Fresh(f, []);
  }
}
