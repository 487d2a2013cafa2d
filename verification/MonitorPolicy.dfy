/** The monitor's state classification and action choice (src/eagle-monitor-policy.mjs). */
module MonitorPolicy {
  import opened Prelude

  const CRASH_LOOP_LIMIT: nat := 3
  const CRASH_LOOP_WINDOW_MS := 10 * 60 * 1000
  const DEAD_CONFIRMATION_MS := 1_000
  const BROKER_UNAVAILABLE_ALERT_MS := 5 * 60_000
  const NOTIFICATION_BACKLOG_LIMIT: nat := 16
  const NOTIFICATION_REPEAT_MS := 60 * 60 * 1000
  const NOTIFICATION_REPEAT_MAX_MS := 4 * 60 * 60 * 1000
  const NOTIFICATION_RETRY_MS := 5 * 60_000
  const POST_SEND_STALL_MS := 2 * 60 * 60 * 1000
  const PRE_SEND_STALL_ESCALATION_MS := 30 * 60 * 1000
  const PRE_SEND_STALL_MS := 5 * 60 * 1000

  datatype MonitorState =
    | AmbiguousUnconfirmedDelivery | CrashLoop | DiskFull | Healthy
    | HumanRequiredAuthChallenge | HumanRequiredOther | PowerSleep | SendConfirmedCapture
    | Settled | StalledBeforeSend | Startup | VersionSkew

  datatype Action =
    | AttachExactWorkflow | HoldIdleSleepAssertion | NotifyUser | Observe
    | ReconcileExactWorkflow | ReleaseIdleSleepAssertion | StartBroker

  datatype FailureCode =
    | AuthenticationRequired | CaptchaRequired | HumanVerificationRequired | VerificationChallenge
    | InterruptedBeforeSendConfirmation | CompletionTimeoutAfterConfirmedSend
    | ConversationHeadCommitMismatch | MarkerCountChanged | SendConfirmationAmbiguous
    | OtherFailure(code: string)

  datatype Status = Cancelled | Failed | HumanRequired | Succeeded | OtherStatus(name: string)

  datatype Phase =
    | BrowserOwned | CapturePending | CodexRecovering | Created | ModelPolicyVerified | Preflight
    | PromptStaged | RestartReconciling | SendConfirmed | SettledPhase | OtherPhase(name: string)

  datatype Delivery =
    | ChildStopped | ChildUnavailable | NotConfirmed | Queued | ReconcilingDelivery
    | SentGenerating | SentResponseIncomplete | SentWaitingResponse | WorkflowStopped
    | OtherDelivery(name: string)

  datatype Kind = EgoExchange | Convergence | OtherKind(name: string)

  datatype Reason =
    | MonitorStorageUnavailable | SleepWakeRevalidation | BrokerCrashLoop | MonitorPolicyVersionSkew
    | BrokerRuntimeVersionSkew | BrokerIpcUnavailable | BrokerConclusivelyDead | BrokerLivenessAmbiguous
    | ExactWorkflowNotFound | ExactWorkflowBindingMismatch | FailureReported(code: FailureCode)
    | WorkflowSettled | WorkflowTerminal(status: Status) | SupervisedDelivery(delivery: Delivery)
    | CaptureStalled | ReadOnlyCapture | PreSendStallEscalated | PreSendProgressStalled | WorkflowProgressing
    | TerminalReconciliationUnresolved | ActionFailed(action: Action)
    | SemanticStagnant | SemanticLooping | NotificationBacklogOverflow

  datatype Classification = Classification(humanRequired: bool, reason: Reason, state: MonitorState)

  /** `updatedAt` is the latest transition or update time the workflow carries, if any. */
  datatype Workflow = Workflow(
    kind: Kind, status: Status, phase: Phase, failure: Option<FailureCode>,
    delivery: Option<Delivery>, binding: Option<string>, updatedAt: Option<int>)

  datatype Observation = Observation(
    writable: bool, spaceAvailable: bool,
    sleepDetected: bool, wakeDetected: bool,
    crashLoop: bool, policyMatches: bool,
    runtimeAbsent: bool, runtimeMatches: bool,
    brokerAvailable: bool, conclusivelyDead: bool, deadConfirmed: bool, unavailableExpired: bool,
    workflow: Option<Workflow>, bindingAvailable: bool, bindingMatches: bool,
    nowMs: int)

  function Allowed(state: MonitorState): set<Action> {
    match state
    case AmbiguousUnconfirmedDelivery =>
      {Observe, AttachExactWorkflow, HoldIdleSleepAssertion, ReleaseIdleSleepAssertion, ReconcileExactWorkflow,
       NotifyUser}
    case CrashLoop => {Observe, ReleaseIdleSleepAssertion, NotifyUser}
    case DiskFull => {Observe, ReleaseIdleSleepAssertion, NotifyUser}
    case Healthy => {Observe, AttachExactWorkflow, HoldIdleSleepAssertion, ReleaseIdleSleepAssertion, NotifyUser}
    case HumanRequiredAuthChallenge => {Observe, ReleaseIdleSleepAssertion, NotifyUser}
    case HumanRequiredOther => {Observe, ReleaseIdleSleepAssertion, NotifyUser}
    case PowerSleep => {Observe, ReleaseIdleSleepAssertion}
    case SendConfirmedCapture =>
      {Observe, AttachExactWorkflow, HoldIdleSleepAssertion, ReleaseIdleSleepAssertion, ReconcileExactWorkflow,
       NotifyUser}
    case Settled => {Observe, ReleaseIdleSleepAssertion}
    case StalledBeforeSend => {Observe, AttachExactWorkflow, HoldIdleSleepAssertion, ReleaseIdleSleepAssertion,
                               NotifyUser}
    case Startup => {Observe, ReleaseIdleSleepAssertion, StartBroker, HoldIdleSleepAssertion}
    case VersionSkew => {Observe, ReleaseIdleSleepAssertion, NotifyUser}
  }

  predicate Terminal(status: Status) {
    !status.OtherStatus?
  }

  predicate AuthChallenge(code: FailureCode) {
    code.AuthenticationRequired? || code.CaptchaRequired? || code.HumanVerificationRequired?
    || code.VerificationChallenge?
  }

  predicate Ambiguous(code: FailureCode) {
    || code.InterruptedBeforeSendConfirmation? || code.CompletionTimeoutAfterConfirmedSend?
    || code.ConversationHeadCommitMismatch? || code.MarkerCountChanged? || code.SendConfirmationAmbiguous?
  }

  function PhaseText(phase: Phase): string {
    match phase
    case BrowserOwned => "browser_owned"
    case CapturePending => "capture_pending"
    case CodexRecovering => "codex_recovering"
    case Created => "created"
    case ModelPolicyVerified => "model_policy_verified"
    case Preflight => "preflight"
    case PromptStaged => "prompt_staged"
    case RestartReconciling => "restart_reconciling"
    case SendConfirmed => "send_confirmed"
    case SettledPhase => "settled"
    case OtherPhase(name) => name
  }

  /** A lower-case word of at most 64 characters. */
  predicate IsCode(s: string) {
    && 1 <= |s| <= 64 && 'a' <= s[0] <= 'z'
    && forall i :: 0 <= i < |s| ==> 'a' <= s[i] <= 'z' || '0' <= s[i] <= '9' || s[i] == '_'
  }

  /** `safeEvidenceCode` of the phase of the observed workflow, if there is one. */
  function PhaseCode(workflow: Option<Workflow>): Option<string> {
    if workflow.Some? && IsCode(PhaseText(workflow.value.phase)) then Some(PhaseText(workflow.value.phase)) else None
  }

  predicate SendConfirmedPhase(phase: Phase) {
    phase.CapturePending? || phase.RestartReconciling? || phase.SendConfirmed?
  }

  predicate ConfirmedPendingDelivery(delivery: Option<Delivery>) {
    && delivery.Some?
    && (delivery.value.SentGenerating? || delivery.value.SentResponseIncomplete? || delivery.value.SentWaitingResponse?)
  }

  predicate PreSendPhase(phase: Phase) {
    phase.BrowserOwned? || phase.Created? || phase.ModelPolicyVerified? || phase.Preflight? || phase.PromptStaged?
  }

  /** Whether the workflow is at least this old; one without any time is infinitely old. */
  predicate AgedAtLeast(workflow: Workflow, nowMs: int, ageMs: int) {
    workflow.updatedAt.None? || nowMs - workflow.updatedAt.value >= ageMs || ageMs <= 0
  }

  function ClassifyWorkflow(w: Workflow, o: Observation): Classification {
    if !o.bindingMatches then Classification(true, ExactWorkflowBindingMismatch, HumanRequiredOther)
    else if w.failure.Some? && AuthChallenge(w.failure.value) then
      Classification(true, FailureReported(w.failure.value), HumanRequiredAuthChallenge)
    else if w.failure.Some? && Ambiguous(w.failure.value) then
      Classification(true, FailureReported(w.failure.value), AmbiguousUnconfirmedDelivery)
    else if w.status.Succeeded? || w.phase.SettledPhase? then Classification(false, WorkflowSettled, Settled)
    else if Terminal(w.status) then Classification(true, WorkflowTerminal(w.status), HumanRequiredOther)
    else if w.delivery.Some? && (w.delivery.value.NotConfirmed? || w.delivery.value.ReconcilingDelivery?) then
      Classification(false, SupervisedDelivery(w.delivery.value), AmbiguousUnconfirmedDelivery)
    else if && w.delivery.Some?
            && (w.delivery.value.ChildStopped? || w.delivery.value.ChildUnavailable?
                || w.delivery.value.WorkflowStopped?)
    then
      Classification(true, SupervisedDelivery(w.delivery.value), HumanRequiredOther)
    else if SendConfirmedPhase(w.phase) || ConfirmedPendingDelivery(w.delivery) then
      var stalled := AgedAtLeast(w, o.nowMs, POST_SEND_STALL_MS);
      Classification(stalled, if stalled then CaptureStalled else ReadOnlyCapture, SendConfirmedCapture)
    else if && (PreSendPhase(w.phase) || w.delivery == Some(Queued))
            && AgedAtLeast(w, o.nowMs, PRE_SEND_STALL_MS)
    then
      var escalated := AgedAtLeast(w, o.nowMs, PRE_SEND_STALL_ESCALATION_MS);
      Classification(escalated, if escalated then PreSendStallEscalated else PreSendProgressStalled, StalledBeforeSend)
    else Classification(false, WorkflowProgressing, Healthy)
  }

  /** `classifyMonitorState`. */
  function Classify(o: Observation): Classification {
    if !o.writable || !o.spaceAvailable then Classification(true, MonitorStorageUnavailable, DiskFull)
    else if o.sleepDetected || o.wakeDetected then Classification(false, SleepWakeRevalidation, PowerSleep)
    else if o.crashLoop then Classification(true, BrokerCrashLoop, CrashLoop)
    else if !o.policyMatches then Classification(true, MonitorPolicyVersionSkew, VersionSkew)
    else if !o.runtimeAbsent && !o.runtimeMatches then Classification(true, BrokerRuntimeVersionSkew, VersionSkew)
    else if !o.brokerAvailable then
      if !o.conclusivelyDead && o.unavailableExpired then
        Classification(true, BrokerIpcUnavailable, HumanRequiredOther)
      else
        Classification(false, if o.conclusivelyDead then BrokerConclusivelyDead else BrokerLivenessAmbiguous, Startup)
    else if o.workflow.None? then Classification(true, ExactWorkflowNotFound, HumanRequiredOther)
    else ClassifyWorkflow(o.workflow.value, o)
  }

  /** `chooseMonitorAction`. */
  function Choose(c: Classification, o: Observation): Action {
    if c.state.Startup? then
      if o.conclusivelyDead && o.deadConfirmed then StartBroker else Observe
    else if && (c.state.AmbiguousUnconfirmedDelivery? || c.state.SendConfirmedCapture?)
            && o.workflow.Some? && Terminal(o.workflow.value.status)
            && o.bindingAvailable && o.workflow.value.kind.EgoExchange?
    then ReconcileExactWorkflow
    else if && c.state.AmbiguousUnconfirmedDelivery?
            && o.workflow.Some? && o.workflow.value.kind.Convergence?
            && o.workflow.value.status == OtherStatus("running")
    then AttachExactWorkflow
    else if c.humanRequired then NotifyUser
    else if c.state.Healthy? || c.state.StalledBeforeSend? || c.state.SendConfirmedCapture? then AttachExactWorkflow
    else Observe
  }

  /** The states in which an idle-sleep assertion may be held (`isActiveWorkflow`). */
  predicate ActiveWorkflow(state: MonitorState) {
    !(|| state.CrashLoop? || state.DiskFull? || state.HumanRequiredAuthChallenge? || state.HumanRequiredOther?
      || state.PowerSleep? || state.Settled? || state.VersionSkew?)
  }

  /** No observation makes the engine's own action checks throw: the chosen action, the report
      of a human boundary and the power action are all in the allowlist of their state. */
  lemma ChoicesAreAllowed(o: Observation)
    ensures var c := Classify(o);
            && Choose(c, o) in Allowed(c.state)
            && (c.humanRequired ==> NotifyUser in Allowed(c.state))
            && (if ActiveWorkflow(c.state) then HoldIdleSleepAssertion else ReleaseIdleSleepAssertion)
               in Allowed(c.state)
            && ReleaseIdleSleepAssertion in Allowed(c.state)
  {
    var c := Classify(o);
    match c.state
    case AmbiguousUnconfirmedDelivery =>
    case CrashLoop =>
    case DiskFull =>
    case Healthy =>
    case HumanRequiredAuthChallenge =>
    case HumanRequiredOther =>
    case PowerSleep =>
    case SendConfirmedCapture =>
    case Settled =>
    case StalledBeforeSend =>
    case Startup =>
    case VersionSkew =>
  }

  /** The one action with process-level authority has an exact precondition. */
  lemma StartAuthorityExact(o: Observation)
    ensures Choose(Classify(o), o) == StartBroker <==>
            && o.writable && o.spaceAvailable && !o.sleepDetected && !o.wakeDetected
            && !o.crashLoop && o.policyMatches && (o.runtimeAbsent || o.runtimeMatches)
            && !o.brokerAvailable && o.conclusivelyDead && o.deadConfirmed
  {
    if !(Classify(o).state.Startup?) {
      assert Choose(Classify(o), o) != StartBroker;
    }
  }

  /** Reconciliation only ever touches a terminal exchange whose delivery is ambiguous, through
      the session's own binding. */
  lemma ReconcileAuthority(o: Observation)
    requires Choose(Classify(o), o) == ReconcileExactWorkflow
    ensures o.workflow.Some? && Terminal(o.workflow.value.status) && o.workflow.value.kind.EgoExchange?
    ensures o.bindingAvailable && o.bindingMatches && o.brokerAvailable
    ensures o.workflow.value.failure.Some? && Ambiguous(o.workflow.value.failure.value)
  {
    assert Classify(o) == ClassifyWorkflow(o.workflow.value, o);
  }

  /** The last report is raised exactly while the broker is unavailable for the full alert
      time without being proven dead, everything before it in the ladder being in order. */
  lemma UnavailableReportExact(o: Observation)
    ensures Classify(o).reason == BrokerIpcUnavailable <==>
            && o.writable && o.spaceAvailable && !o.sleepDetected && !o.wakeDetected
            && !o.crashLoop && o.policyMatches && (o.runtimeAbsent || o.runtimeMatches)
            && !o.brokerAvailable && !o.conclusivelyDead && o.unavailableExpired
  {
    if o.workflow.Some? {
      assert ClassifyWorkflow(o.workflow.value, o).reason != BrokerIpcUnavailable;
    }
  }
}
