/** The monitor's classification and action, stated over the fields of an observation alone: for each
    state, for the call for a human and for each action, the observations that lead to it, and for
    each action the states that permit it (src/eagle-monitor-policy.mjs). Nothing here is stated
    through the tables and tests the program classifies with. */
module MonitorLadder {
  import opened Prelude
  import opened MonitorPolicy

  /** The monitor itself is in order. */
  predicate Undisturbed(o: Observation) {
    && o.writable && o.spaceAvailable && !o.sleepDetected && !o.wakeDetected
    && !o.crashLoop && o.policyMatches && (o.runtimeAbsent || o.runtimeMatches)
  }

  /** It observes its exact workflow through an available broker. */
  predicate Watches(o: Observation) {
    Undisturbed(o) && o.brokerAvailable && o.workflow.Some? && o.bindingMatches
  }

  predicate Challenged(w: Workflow) {
    w.failure.Some? && w.failure.value in
      {AuthenticationRequired, CaptchaRequired, HumanVerificationRequired, VerificationChallenge}
  }

  predicate Unconfirmed(w: Workflow) {
    w.failure.Some? && w.failure.value in
      {InterruptedBeforeSendConfirmation, CompletionTimeoutAfterConfirmedSend, ConversationHeadCommitMismatch,
       MarkerCountChanged, SendConfirmationAmbiguous}
  }

  /** No failure decides, and the workflow has neither settled nor stopped. */
  predicate Underway(w: Workflow) {
    && !Challenged(w) && !Unconfirmed(w) && w.phase != SettledPhase
    && w.status !in {Cancelled, Failed, HumanRequired, Succeeded}
  }

  predicate Delivers(w: Workflow, deliveries: set<Delivery>) {
    w.delivery.Some? && w.delivery.value in deliveries
  }

  /** Underway, with nothing in its delivery that supervision has to act on. */
  predicate Unsupervised(w: Workflow) {
    && Underway(w)
    && !Delivers(w, {NotConfirmed, ReconcilingDelivery, ChildStopped, ChildUnavailable, WorkflowStopped})
  }

  predicate Sent(w: Workflow) {
    || w.phase in {CapturePending, RestartReconciling, SendConfirmed}
    || Delivers(w, {SentGenerating, SentResponseIncomplete, SentWaitingResponse})
  }

  predicate NotYetSent(w: Workflow) {
    && !Sent(w)
    && (|| w.phase in {BrowserOwned, Created, ModelPolicyVerified, Preflight, PromptStaged}
        || Delivers(w, {Queued}))
  }

  /** Its last transition was at least that long ago, or is unknown. */
  predicate Aged(w: Workflow, nowMs: int, ms: nat) {
    w.updatedAt.None? || nowMs - w.updatedAt.value >= ms
  }

  // ---- states ---------------------------------------------------------

  /** The states that need no workflow. */
  lemma MonitorStatesExactly(o: Observation)
    ensures var s := Classify(o).state;
      && (s.DiskFull? <==> !o.writable || !o.spaceAvailable)
      && (s.PowerSleep? <==> o.writable && o.spaceAvailable && (o.sleepDetected || o.wakeDetected))
      && (s.CrashLoop? <==>
          o.writable && o.spaceAvailable && !o.sleepDetected && !o.wakeDetected && o.crashLoop)
      && (s.VersionSkew? <==>
          && o.writable && o.spaceAvailable && !o.sleepDetected && !o.wakeDetected && !o.crashLoop
          && (!o.policyMatches || (!o.runtimeAbsent && !o.runtimeMatches)))
      && (s.Startup? <==>
          Undisturbed(o) && !o.brokerAvailable && (o.conclusivelyDead || !o.unavailableExpired))
  {
  }

  /** The states a workflow is in. */
  lemma WorkflowStatesExactly(o: Observation)
    requires Watches(o)
    ensures var s, w := Classify(o).state, o.workflow.value;
      && (s.HumanRequiredAuthChallenge? <==> Challenged(w))
      && (s.AmbiguousUnconfirmedDelivery? <==>
          Unconfirmed(w) || (Underway(w) && Delivers(w, {NotConfirmed, ReconcilingDelivery})))
      && (s.Settled? <==>
          !Challenged(w) && !Unconfirmed(w) && (w.status == Succeeded || w.phase == SettledPhase))
      && (s.HumanRequiredOther? <==>
          || (!Challenged(w) && !Unconfirmed(w) && w.phase != SettledPhase
              && w.status in {Cancelled, Failed, HumanRequired})
          || (Underway(w) && Delivers(w, {ChildStopped, ChildUnavailable, WorkflowStopped})))
      && (s.SendConfirmedCapture? <==> Unsupervised(w) && Sent(w))
      && (s.StalledBeforeSend? <==> Unsupervised(w) && NotYetSent(w) && Aged(w, o.nowMs, 300_000))
      && (s.Healthy? <==> Unsupervised(w) && !Sent(w) && !(NotYetSent(w) && Aged(w, o.nowMs, 300_000)))
  {
  }

  /** Without its workflow an undisturbed monitor is starting up or needs a human. */
  lemma UnwatchedStatesExactly(o: Observation)
    requires Undisturbed(o) && !Watches(o)
    ensures var s := Classify(o).state;
            s == if o.brokerAvailable || (!o.conclusivelyDead && o.unavailableExpired)
                 then HumanRequiredOther else Startup
  {
  }

  /** A human is called for exactly when the monitor is disturbed other than by sleep, the broker
      has been unavailable too long, or the workflow is missing, foreign, challenged, unconfirmed,
      stopped, or has made no progress for half an hour before its Send or two hours after it. */
  lemma HumanRequiredExactly(o: Observation)
    ensures Classify(o).humanRequired <==>
      || !o.writable || !o.spaceAvailable
      || (&& !o.sleepDetected && !o.wakeDetected
          && (|| o.crashLoop || !o.policyMatches || (!o.runtimeAbsent && !o.runtimeMatches)
              || (!o.brokerAvailable && !o.conclusivelyDead && o.unavailableExpired)
              || (o.brokerAvailable && !Watches(o))
              || (o.brokerAvailable && WorkflowNeedsHuman(o.workflow.value, o.nowMs))))
  {
  }

  predicate WorkflowNeedsHuman(w: Workflow, nowMs: int) {
    || Challenged(w) || Unconfirmed(w)
    || (w.phase != SettledPhase && w.status in {Cancelled, Failed, HumanRequired})
    || (Underway(w) && Delivers(w, {ChildStopped, ChildUnavailable, WorkflowStopped}))
    || (Unsupervised(w) && Sent(w) && Aged(w, nowMs, 7_200_000))
    || (Unsupervised(w) && NotYetSent(w) && Aged(w, nowMs, 1_800_000))
  }

  /** The reason of each state. */
  lemma ReasonsExactly(o: Observation)
    ensures var c := Classify(o);
      match c.state
      case DiskFull => c.reason == MonitorStorageUnavailable
      case PowerSleep => c.reason == SleepWakeRevalidation
      case CrashLoop => c.reason == BrokerCrashLoop
      case VersionSkew => c.reason == if o.policyMatches then BrokerRuntimeVersionSkew else MonitorPolicyVersionSkew
      case Startup => c.reason == if o.conclusivelyDead then BrokerConclusivelyDead else BrokerLivenessAmbiguous
      case HumanRequiredOther =>
        c.reason == if !o.brokerAvailable then BrokerIpcUnavailable
                    else if o.workflow.None? then ExactWorkflowNotFound
                    else if !o.bindingMatches then ExactWorkflowBindingMismatch
                    else if o.workflow.value.status in {Cancelled, Failed, HumanRequired}
                    then WorkflowTerminal(o.workflow.value.status)
                    else if o.workflow.value.delivery.Some? then SupervisedDelivery(o.workflow.value.delivery.value)
                    else WorkflowProgressing
      case _ =>
        Watches(o) && c.reason == WorkflowReason(c.state, o.workflow.value, o.nowMs)
  {
  }

  function WorkflowReason(state: MonitorState, w: Workflow, nowMs: int): Reason {
    if state.Settled? then WorkflowSettled
    else if state.Healthy? then WorkflowProgressing
    else if state.SendConfirmedCapture? then
      if Aged(w, nowMs, 7_200_000) then CaptureStalled else ReadOnlyCapture
    else if state.StalledBeforeSend? then
      if Aged(w, nowMs, 1_800_000) then PreSendStallEscalated else PreSendProgressStalled
    else if w.failure.Some? && (Challenged(w) || Unconfirmed(w)) then FailureReported(w.failure.value)
    else if w.delivery.Some? then SupervisedDelivery(w.delivery.value)
    else WorkflowProgressing
  }

  // ---- actions --------------------------------------------------------

  /** A finished exchange with ambiguous delivery, reached through the session's own binding. */
  predicate Reconcilable(o: Observation) {
    && Watches(o) && o.bindingAvailable && Unconfirmed(o.workflow.value) && o.workflow.value.kind == EgoExchange
    && o.workflow.value.status in {Cancelled, Failed, HumanRequired, Succeeded}
  }

  /** A running convergence whose delivery is ambiguous is attached to whatever its failure says. */
  predicate RunsUnconfirmed(o: Observation) {
    && Watches(o) && o.workflow.value.kind == Convergence && o.workflow.value.status == OtherStatus("running")
    && (|| Unconfirmed(o.workflow.value)
        || (Underway(o.workflow.value) && Delivers(o.workflow.value, {NotConfirmed, ReconcilingDelivery})))
  }

  /** Each action but the broker start, of which `StartAuthorityExact` speaks. */
  lemma ActionsExactly(o: Observation)
    ensures var c, action := Classify(o), Choose(Classify(o), o);
      && (action.ReconcileExactWorkflow? <==> Reconcilable(o))
      && (action.AttachExactWorkflow? <==>
          || RunsUnconfirmed(o)
          || (&& Watches(o) && Unsupervised(o.workflow.value)
              && !WorkflowNeedsHuman(o.workflow.value, o.nowMs)))
      && (action.NotifyUser? <==> c.humanRequired && !Reconcilable(o) && !RunsUnconfirmed(o))
      && (action.Observe? <==>
          || c.state.PowerSleep? || c.state.Settled?
          || (c.state.Startup? && !(o.conclusivelyDead && o.deadConfirmed))
          || (&& Watches(o) && Underway(o.workflow.value) && !RunsUnconfirmed(o)
              && Delivers(o.workflow.value, {NotConfirmed, ReconcilingDelivery})))
      && !action.HoldIdleSleepAssertion? && !action.ReleaseIdleSleepAssertion?
  {
  }

  /** What a tick does about a terminal that it has already reconciled. */
  lemma UnresolvedIsReported(o: Observation)
    ensures Choose(Classification(true, TerminalReconciliationUnresolved, HumanRequiredOther), o) == NotifyUser
  {
  }

  /** The states that permit an action, action by action. */
  lemma AllowedExactly(s: MonitorState)
    ensures Observe in Allowed(s) && ReleaseIdleSleepAssertion in Allowed(s)
    ensures StartBroker in Allowed(s) <==> s == Startup
    ensures ReconcileExactWorkflow in Allowed(s) <==> s in {AmbiguousUnconfirmedDelivery, SendConfirmedCapture}
    ensures AttachExactWorkflow in Allowed(s) <==>
            s in {AmbiguousUnconfirmedDelivery, Healthy, SendConfirmedCapture, StalledBeforeSend}
    ensures NotifyUser in Allowed(s) <==> s !in {PowerSleep, Settled, Startup}
    ensures HoldIdleSleepAssertion in Allowed(s) <==>
            s in {AmbiguousUnconfirmedDelivery, Healthy, SendConfirmedCapture, StalledBeforeSend, Startup}
    ensures ActiveWorkflow(s) <==> HoldIdleSleepAssertion in Allowed(s)
  {
    match s
    case AmbiguousUnconfirmedDelivery =>
    case CrashLoop =>
    case DiskFull =>
    case Healthy =>
    case HumanRequiredAuthChallenge =>
    case HumanRequiredOther =>
    case PowerSleep =>
    case SendConfirmedCapture =>
    case Settled =>
    case StalledBeforeSend =>
    case Startup =>
    case VersionSkew =>
  }

  // ---- the phase that is recorded -------------------------------------

  predicate Lower(c: char) {
    c in "abcdefghijklmnopqrstuvwxyz"
  }

  predicate CodeLetter(c: char) {
    Lower(c) || c in "0123456789_"
  }

  /** The phase a tick records: any name of one to 64 lower-case letters, digits and underscores that
      begins with a letter. */
  lemma PhaseExactly(w: Workflow)
    ensures var code, named := PhaseCode(Some(w)), w.phase;
      && PhaseCode(None) == None
      && (named == SendConfirmed ==> code == Some("send_confirmed"))
      && (named == CapturePending ==> code == Some("capture_pending"))
      && (named == RestartReconciling ==> code == Some("restart_reconciling"))
      && (named == CodexRecovering ==> code == Some("codex_recovering"))
      && (named == BrowserOwned ==> code == Some("browser_owned"))
      && (named == Created ==> code == Some("created"))
      && (named == ModelPolicyVerified ==> code == Some("model_policy_verified"))
      && (named == Preflight ==> code == Some("preflight"))
      && (named == PromptStaged ==> code == Some("prompt_staged"))
      && (named == SettledPhase ==> code == Some("settled"))
      && (named.OtherPhase? ==>
            && (code.Some? ==> code.value == named.name)
            && (code.Some? <==>
                && 0 < |named.name| < 65 && Lower(named.name[0])
                && forall i :: 0 <= i < |named.name| ==> CodeLetter(named.name[i])))
  {
    hide IsCode, CodeLetter, Lower;
    if w.phase.OtherPhase? { CodeExactly(w.phase.name); } else { NamedIsCode(w.phase); }
  }

  lemma CodeExactly(s: string)
    ensures IsCode(s) <==> 0 < |s| < 65 && Lower(s[0]) && forall i :: 0 <= i < |s| ==> CodeLetter(s[i])
  {
    hide CodeLetter, Lower;
    forall c: char ensures Lower(c) <==> 'a' <= c <= 'z' { LettersAre(c); }
    forall c: char ensures CodeLetter(c) <==> 'a' <= c <= 'z' || '0' <= c <= '9' || c == '_' { LettersAre(c); }
  }

  lemma NamedIsCode(phase: Phase)
    requires !phase.OtherPhase?
    ensures IsCode(PhaseText(phase))
  {
    hide IsCode;
    match phase
    case BrowserOwned => BrowserOwnedIsCode();
    case CapturePending => CapturePendingIsCode();
    case CodexRecovering => CodexRecoveringIsCode();
    case Created => ShortNamesAreCodes();
    case ModelPolicyVerified => ModelPolicyVerifiedIsCode();
    case Preflight => ShortNamesAreCodes();
    case PromptStaged => PromptStagedIsCode();
    case RestartReconciling => RestartReconcilingIsCode();
    case SendConfirmed => SendConfirmedIsCode();
    case SettledPhase => ShortNamesAreCodes();
  }

  lemma BrowserOwnedIsCode()
    ensures IsCode("browser_owned")
  {
  }

  lemma CapturePendingIsCode()
    ensures IsCode("capture_pending")
  {
  }

  lemma CodexRecoveringIsCode()
    ensures IsCode("codex_recovering")
  {
  }

  lemma ModelPolicyVerifiedIsCode()
    ensures IsCode("model_policy_verified")
  {
  }

  lemma PromptStagedIsCode()
    ensures IsCode("prompt_staged")
  {
  }

  lemma RestartReconcilingIsCode()
    ensures IsCode("restart_reconciling")
  {
  }

  lemma SendConfirmedIsCode()
    ensures IsCode("send_confirmed")
  {
  }

  lemma ShortNamesAreCodes()
    ensures IsCode("created") && IsCode("preflight") && IsCode("settled")
  {
  }

  lemma LettersAre(c: char)
    ensures Lower(c) <==> 'a' <= c <= 'z'
    ensures CodeLetter(c) <==> 'a' <= c <= 'z' || '0' <= c <= '9' || c == '_'
  {
    Alphabet("abcdefghijklmnopqrstuvwxyz", 'a', c);
    Alphabet("0123456789", '0', c);
    assert "0123456789_" == "0123456789" + "_";
  }

  /** Consecutive letters from the first one on. */
  lemma Alphabet(s: string, first: char, c: char)
    requires forall i :: 0 <= i < |s| ==> s[i] as int == first as int + i
    ensures c in s <==> first as int <= c as int < first as int + |s|
  {
    if first as int <= c as int < first as int + |s| {
      assert s[c as int - first as int] == c;
    }
  }
}
