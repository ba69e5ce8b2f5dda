/** Which action follows a classified failure (tools/failure_intel.py, retry_budget,
    _policy_next_action, _policy_final, escalation_target, decide, _repeat_decision).
    Classification is a parameter: category, subtype and fingerprint are arbitrary. */
module FailurePolicy {
  import opened Wrappers

  datatype Category =
    | CODE_FAILURE | TEST_FAILURE | VALIDATION_FAILURE | SYNTAX_FAILURE | IMPORT_FAILURE | CONTRACT_FAILURE
    | OWNERSHIP_FAILURE | LANGUAGE_FAILURE | STALE_STATE | CONCURRENT_MODIFICATION | MISSING_TARGET | MISSING_TEST
    | VALIDATION_UNAVAILABLE | ENVIRONMENT_FAILURE | TOOLCHAIN_FAILURE | TIMEOUT | INFRASTRUCTURE_FAILURE | UNKNOWN

  datatype Action =
    | REFRESH_INDEX | REFRESH_PACKET | REBUILD_GRAPH | RECOMPUTE_SCOPE | RETRY_VALIDATION | ESCALATE_VALIDATION
    | REGENERATE_EXECUTION_SURFACE | STOP | REPORT_ENVIRONMENT | REPORT_CODE_FAILURE

  datatype Final = STOPPED | BLOCKED | ENVIRONMENT | CODE | UNCLEAR | ESCALATED | RETRYING | RECOVERED

  /** Validation levels L0 to L5. */
  type Level = n: nat | n <= 5

  /** `_uncertainty_flags`, as far as they are not read off category and subtype. */
  datatype Flags = Flags(
    crossModule: bool, crossLanguage: bool, publicChanged: bool, contractGap: bool, graphGap: bool, impactGap: bool)

  datatype Failure = Failure(
    command: string, category: Category, subtype: string, ownership: Option<string>, fingerprint: string, flags: Flags)

  /** `failed` are the failed commands that the caller names. */
  datatype Context = Context(scope: Option<Level>, hasManifest: bool, failed: set<string>)

  datatype StepResult = Succeeded | Failed | Halted

  /** One recorded step. A `recovery` of None is a step that only diagnosed. */
  datatype Step = Step(
    attempt: nat, command: string, category: Category, subtype: string, fingerprint: string,
    recovery: Option<Action>, result: StepResult)

  /** `retry` are the commands that a retry runs, if they are not just the failed one. */
  datatype Decision = Decision(
    next: Option<Action>, final: Final, retryable: bool, retryBudget: nat, retriesUsed: nat,
    escalationRequired: bool, escalationTarget: Option<Level>, retry: set<string>)

  // ---- What the chain remembers ----

  predicate LoopDetected(steps: seq<Step>, fingerprint: string) {
    exists s :: s in steps && s.fingerprint == fingerprint
  }

  predicate HasExecuted(steps: seq<Step>, command: string, category: Category) {
    exists s :: s in steps && s.command == command && s.category == category && s.recovery.Some?
  }

  function AttemptsFor(steps: seq<Step>, fingerprint: string): nat {
    if steps == [] then 0
    else
      AttemptsFor(steps[..|steps| - 1], fingerprint) + if steps[|steps| - 1].fingerprint == fingerprint then 1 else 0
  }

  // ---- The policy ----

  predicate Retryable(category: Category, subtype: string) {
    category in {STALE_STATE, MISSING_TARGET, MISSING_TEST}
    || (category == ENVIRONMENT_FAILURE && subtype == "transient_service")
  }

  function RetryBudget(retryable: bool, category: Category, subtype: string): nat {
    if !retryable then 0
    else if category in {STALE_STATE, MISSING_TARGET, MISSING_TEST} then 1
    else if category == ENVIRONMENT_FAILURE && subtype == "transient_service" then 1
    else 0
  }

  predicate EndsWith(s: string, suffix: string) {
    |suffix| <= |s| && s[|s| - |suffix|..] == suffix
  }

  function StaleAction(subtype: string): Action {
    if subtype == "stale_graph" then REBUILD_GRAPH
    else if subtype == "stale_packet" then REFRESH_PACKET
    else if subtype == "stale_scope" then RECOMPUTE_SCOPE
    else if subtype == "stale_manifest" then REGENERATE_EXECUTION_SURFACE
    else REFRESH_INDEX
  }

  predicate OwnedByCode(ownership: Option<string>) {
    ownership in {Some("source_code"), Some("test"), Some("route")}
  }

  function PolicyNextAction(f: Failure): Action {
    match f.category
    case STALE_STATE => StaleAction(f.subtype)
    case CONCURRENT_MODIFICATION => REGENERATE_EXECUTION_SURFACE
    case MISSING_TARGET => REFRESH_INDEX
    case MISSING_TEST => REFRESH_INDEX
    case VALIDATION_UNAVAILABLE => ESCALATE_VALIDATION
    case TIMEOUT => ESCALATE_VALIDATION
    case ENVIRONMENT_FAILURE => if f.subtype == "transient_service" then RETRY_VALIDATION else REPORT_ENVIRONMENT
    case CODE_FAILURE => REPORT_CODE_FAILURE
    case TEST_FAILURE => REPORT_CODE_FAILURE
    case SYNTAX_FAILURE => REPORT_CODE_FAILURE
    case IMPORT_FAILURE => REPORT_CODE_FAILURE
    case OWNERSHIP_FAILURE => STOP
    case CONTRACT_FAILURE =>
      if f.subtype == "safety_contract_blocked" then STOP
      else if OwnedByCode(f.ownership) then REPORT_CODE_FAILURE
      else STOP
    case LANGUAGE_FAILURE => if OwnedByCode(f.ownership) then REPORT_CODE_FAILURE else STOP
    case VALIDATION_FAILURE =>
      if f.subtype in {"index_invalid", "validator_inconsistent", "incremental_full_mismatch"} then ESCALATE_VALIDATION
      else if EndsWith(f.subtype, "baseline_debt") || EndsWith(f.subtype, "baseline_drift") then STOP
      else ESCALATE_VALIDATION
    case TOOLCHAIN_FAILURE => STOP
    case INFRASTRUCTURE_FAILURE => STOP
    case UNKNOWN => ESCALATE_VALIDATION
  }

  function PolicyFinal(category: Category, next: Option<Action>): Final {
    match next
    case None => RECOVERED
    case Some(REGENERATE_EXECUTION_SURFACE) => if category == CONCURRENT_MODIFICATION then STOPPED else RETRYING
    case Some(ESCALATE_VALIDATION) => if category == UNKNOWN then UNCLEAR else ESCALATED
    case Some(REPORT_ENVIRONMENT) => ENVIRONMENT
    case Some(REPORT_CODE_FAILURE) => CODE
    case Some(STOP) => if category in {CONTRACT_FAILURE, OWNERSHIP_FAILURE} then BLOCKED else STOPPED
    case Some(_) => RETRYING
  }

  function Bump(current: Option<Level>, steps: nat): Level {
    match current
    case None => 2
    case Some(level) => if level + steps <= 5 then level + steps else 5
  }

  function EscalationTarget(current: Option<Level>, f: Failure): Option<Level> {
    if f.subtype in {"incremental_full_mismatch", "validator_inconsistent"} then Some(5)
    else if f.flags.contractGap || f.flags.graphGap then Some(5)
    else if f.flags.crossModule || f.flags.crossLanguage || f.flags.publicChanged then Some(4)
    else if f.flags.impactGap then (if current in {None, Some(0)} then Some(2) else Some(3))
    else
      match f.category
      case CODE_FAILURE => None
      case TEST_FAILURE => None
      case SYNTAX_FAILURE => None
      case IMPORT_FAILURE => None
      case ENVIRONMENT_FAILURE => None
      case TOOLCHAIN_FAILURE => None
      case INFRASTRUCTURE_FAILURE => None
      case CONTRACT_FAILURE => if OwnedByCode(f.ownership) then None else Some(Bump(current, 1))
      case OWNERSHIP_FAILURE => if OwnedByCode(f.ownership) then None else Some(Bump(current, 1))
      case VALIDATION_UNAVAILABLE => if current.Some? then current else Some(2)
      case STALE_STATE => None
      case MISSING_TARGET => None
      case MISSING_TEST => None
      case CONCURRENT_MODIFICATION => None
      case _ => Some(Bump(current, 1))
  }

  /** The same (command, category) already went through recovery: stop or escalate. */
  function RepeatDecision(f: Failure, current: Option<Level>, used: nat): Decision {
    if f.category == STALE_STATE then
      Decision(Some(ESCALATE_VALIDATION), ESCALATED, false, 1, used, true, Some(Bump(current, 1)), {})
    else if f.category in {MISSING_TARGET, MISSING_TEST} then
      Decision(Some(STOP), STOPPED, false, 1, used, false, None, {})
    else
      Decision(Some(STOP), PolicyFinal(f.category, Some(STOP)), false, 0, used, false, None, {})
  }

  const RETRY_ACTIONS := {REFRESH_INDEX, REFRESH_PACKET, REBUILD_GRAPH, RECOMPUTE_SCOPE, RETRY_VALIDATION}

  /** `decide` */
  function Decide(f: Failure, context: Context, steps: seq<Step>): Decision {
    var current := context.scope;
    var retryable := Retryable(f.category, f.subtype);
    var budget := RetryBudget(retryable, f.category, f.subtype);
    var used := AttemptsFor(steps, f.fingerprint);
    var next := PolicyNextAction(f);
    if HasExecuted(steps, f.command, f.category) then RepeatDecision(f, current, used)
    else if retryable && used >= budget && next in RETRY_ACTIONS then RepeatDecision(f, current, used)
    else
      var target := EscalationTarget(current, f);
      var forced := next == ESCALATE_VALIDATION && target.None?;
      Decision(Some(next), PolicyFinal(f.category, Some(next)), retryable, budget, used,
               forced || (target.Some? && target != current),
               if forced then Some(Bump(current, 1)) else target, {})
  }

  // ---- Dominance of finals ----

  const FINAL_PRIORITY := [STOPPED, BLOCKED, ENVIRONMENT, CODE, UNCLEAR, ESCALATED, RETRYING, RECOVERED]

  /** Place of a final in the priority list. */
  function Rank(final: Final): (k: nat)
    ensures k < |FINAL_PRIORITY| && FINAL_PRIORITY[k] == final
  {
    match final
    case STOPPED => 0
    case BLOCKED => 1
    case ENVIRONMENT => 2
    case CODE => 3
    case UNCLEAR => 4
    case ESCALATED => 5
    case RETRYING => 6
    case RECOVERED => 7
  }

  /** Before anything ran, the decision is never RECOVERED, always names an action, and
      escalates only with a level to escalate to. */
  lemma DecideNeverRecovers(f: Failure, context: Context, steps: seq<Step>)
    ensures var d := Decide(f, context, steps);
            && d.next.Some? && d.final != RECOVERED && d.retry == {}
            && (d.next == Some(ESCALATE_VALIDATION) ==> d.escalationTarget.Some?)
  {
  }

  /** After a recorded recovery of the same command and category only a stale state still gets
      an executor, and it can only escalate. */
  lemma RepeatsOnlyEscalate(f: Failure, context: Context, steps: seq<Step>)
    requires HasExecuted(steps, f.command, f.category)
    ensures var next := Decide(f, context, steps).next;
            next == if f.category == STALE_STATE then Some(ESCALATE_VALIDATION) else Some(STOP)
  {
  }
}
