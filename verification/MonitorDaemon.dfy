/** The monitor engine as the object it is: a state updated in place, a state file and the
    effects of the running tick. Its methods follow the source step by step and are proved to
    carry out exactly the ticks of module `MonitorEngine`. */
module MonitorDaemon {
  import opened Prelude
  import P = MonitorPolicy
  import opened NotificationQueue
  import S = SemanticState
  import C = SemanticClassifier
  import opened MonitorEngine

  class EagleMonitorEngine {
    const cfg: Config
    var state: EngineState
    var disk: Option<EngineState>
    var log: seq<Step>
    ghost var origin: Option<EngineState>

    /** The state file is what the writes of the current tick made of the one it started from. */
    ghost predicate Valid()
      reads this
    {
      disk == DiskAfter(origin, log)
    }

    ghost function View(): Memory
      reads this
    {
      Memory(state, log)
    }

    constructor (cfg: Config, disk: Option<EngineState>)
      ensures Valid() && this.cfg == cfg && this.disk == disk && log == []
    {
      this.cfg := cfg;
      this.disk := disk;
      origin := disk;
      log := [];
      state := DefaultState(0);
    }

    method WriteState()
      requires Valid()
      modifies this`disk, this`log
      ensures Valid() && View() == Write(cfg, old(View()))
    {
      disk := Some(Stored(cfg, state));
      log := log + [Persist(Stored(cfg, state))];
    }

    method Perform(step: Step)
      requires Valid() && !step.Persist?
      modifies this`log
      ensures Valid() && View() == Emit(old(View()), step)
    {
      ghost var before := log;
      log := log + [step];
      assert log[..|log| - 1] == before;
    }

    method RecordAction(action: P.Action, nowMs: int, outcome: ActionOutcome)
      modifies this`state
      ensures View() == SetAction(old(View()), action, nowMs, outcome)
    {
      state := state.(lastAction := Some(LastAction(action, nowMs, outcome)));
    }

    method RetainPendingNotification()
      modifies this`state
      ensures state == old(state).(backlog := Retain(old(state).backlog, old(state).notification))
    {
      if state.notification.None? || state.notification.value.outcome.Accepted? { return; }
      var backlog := state.backlog;
      var present, overflow := false, false;
      for i := 0 to |backlog|
        invariant present <==> exists k :: 0 <= k < i && backlog[k].key == state.notification.value.key
        invariant overflow <==> exists k :: 0 <= k < i && backlog[k].reason.NotificationBacklogOverflow?
        invariant state == old(state)
      {
        present := present || backlog[i].key == state.notification.value.key;
        overflow := overflow || backlog[i].reason.NotificationBacklogOverflow?;
      }
      if present { return; }
      if |backlog| < P.NOTIFICATION_BACKLOG_LIMIT {
        state := state.(backlog := backlog + [state.notification.value]);
      } else if !overflow {
        state := state.(backlog := backlog + [OverflowSummary()]);
      }
    }

    method SetNotification(r: Receipt)
      modifies this`state
      ensures View() == SetCurrent(old(View()), r)
    {
      state := state.(notification := Some(r));
    }

    /** Submits the current receipt, writing the intent before the dispatch and the outcome
        after it. */
    method SubmitNotification(nowMs: int, wallMs: int, accepted: bool) returns (outcome: ActionOutcome)
      requires Valid() && state.notification.Some?
      modifies this`state, this`disk, this`log
      ensures Valid() && View() == SubmitCurrent(cfg, old(View()), nowMs, wallMs, accepted)
      ensures var r := old(state).notification.value;
              outcome == if Submits(r, nowMs) then (if accepted then Succeeded else ActionFailure)
                         else if r.outcome.Accepted? && !RepeatDue(r, nowMs) then AlreadyReported
                         else ActionFailure
    {
      hide DiskAfter, Stored, RepeatDelay;
      ghost var r0 := state.notification.value;
      var r := state.notification.value;
      if r.outcome.Accepted? {
        if r.nextRepeatAt.None? || nowMs < r.nextRepeatAt.value {
          SetNotification(r);
          return AlreadyReported;
        }
        r := r.(outcome := Pending, repeatCount := r.repeatCount + 1, acceptedAt := None, nextRepeatAt := None);
      }
      assert r == Reopened(r0, nowMs);
      if r.retryAt.Some? && nowMs < r.retryAt.value {
        SetNotification(r);
        return ActionFailure;
      }
      var attemptedAt := if wallMs > nowMs then wallMs else nowMs;
      r := r.(outcome := Dispatching, attemptedAt := Some(attemptedAt),
              retryAt := Some(attemptedAt + P.NOTIFICATION_RETRY_MS));
      assert r == Dispatched(r0, nowMs, wallMs);
      SetNotification(r);
      WriteState();
      Perform(Submit(r.key, accepted));
      if accepted {
        r := r.(outcome := Accepted, retryAt := None, acceptedAt := Some(nowMs),
                nextRepeatAt := Some(nowMs + RepeatDelay(r.repeatCount)));
      } else {
        r := r.(outcome := Failed);
      }
      SetNotification(r);
      WriteState();
      outcome := if accepted then Succeeded else ActionFailure;
    }

    method NotifyUser(c: P.Classification, identity: Identity, nowMs: int, wallMs: int, accepted: bool)
      returns (outcome: ActionOutcome)
      requires Valid()
      modifies this`state, this`disk, this`log
      ensures Valid() && View() == Notify(cfg, old(View()), c, identity, nowMs, wallMs, accepted)
      ensures var r := Promoted(old(state), ReportKey(identity, c.reason, c.state), c).notification.value;
              outcome == if Submits(r, nowMs) then (if accepted then Succeeded else ActionFailure)
                         else if r.outcome.Accepted? && !RepeatDue(r, nowMs) then AlreadyReported
                         else ActionFailure
    {
      var key := ReportKey(identity, c.reason, c.state);
      if state.notification.None? || state.notification.value.key != key {
        RetainPendingNotification();
        var known := Lookup(state.backlog, key);
        state := state.(notification := Some(if known.Some? then known.value else NewReport(key, c.reason, c.state)),
                        backlog := WithoutKey(state.backlog, key));
      }
      assert state == Promoted(old(state), key, c);
      outcome := SubmitNotification(nowMs, wallMs, accepted);
    }

    /** The action of a safe-mode tick; a failure turns into a report of its own. */
    method Dispatch(a: Assessment, input: TickInput) returns (classification: P.Classification, report: bool)
      requires Valid()
      modifies this`state, this`disk, this`log
      ensures Valid()
      ensures var acted := Act(cfg, old(View()), a, input);
              View() == acted.memory && classification == acted.classification && report == acted.report
    {
      hide DiskAfter;
      var now := input.nowMs;
      classification, report := a.classification, a.action.NotifyUser?;
      var failed := false;
      if a.action.StartBroker? {
        state := state.(recoveryCount := state.recoveryCount + 1, brokerStarts := a.brokerStarts + [now]);
        RecordAction(a.action, now, ActionDispatching);
        if input.dispatchRecorded {
          WriteState();
          Perform(StartBroker(now));
        }
        failed := !input.dispatchRecorded || !input.startSucceeds;
        if !failed { RecordAction(a.action, now, Succeeded); }
      } else if a.action.AttachExactWorkflow? {
        Perform(AttachWorkflow);
        failed := !input.attachSucceeds;
        if !failed { RecordAction(a.action, now, Succeeded); }
      } else if a.action.ReconcileExactWorkflow? {
        state := state.(recoveryCount := state.recoveryCount + 1);
        RecordAction(a.action, now, ActionDispatching);
        if input.dispatchRecorded {
          WriteState();
          Perform(ReconcileWorkflow);
        }
        failed := !input.dispatchRecorded || !input.reconciles;
        if !failed {
          state := state.(reconciliation := a.terminal);
          RecordAction(a.action, now, TerminalObserved);
          classification, report := UnresolvedTerminal(), true;
        }
      }
      if failed {
        classification, report := P.Classification(true, P.ActionFailed(a.action), P.HumanRequiredOther), true;
        RecordAction(a.action, now, ActionFailure);
      }
    }

    method ReportCurrent(c: P.Classification, report: bool, a: Assessment, input: TickInput)
      requires Valid()
      modifies this`state, this`disk, this`log
      ensures Valid() && View() == Report(cfg, Acted(old(View()), c, report), a, input)
    {
      hide DiskAfter, Promoted, SubmitCurrent;
      if report && c.humanRequired {
        var outcome := NotifyUser(c, ReportIdentity(state, a, input, None), input.nowMs, input.reportWallMs,
                                  input.reportAccepted);
        if a.action.NotifyUser? {
          RecordAction(a.action, input.nowMs, outcome);
        }
      } else if state.notification.Some? && !state.notification.value.outcome.Accepted? {
        var _ := SubmitNotification(input.nowMs, input.reportWallMs, input.reportAccepted);
      } else if c.state.Healthy? || c.state.Settled? {
        state := state.(notification := None);
      }
    }

    method SetRetained(r: Receipt)
      requires |state.backlog| > 0
      modifies this`state
      ensures View() == SetLast(old(View()), r)
    {
      state := state.(backlog := state.backlog[|state.backlog| - 1 := r]);
    }

    /** Moves the entry to the end of the backlog. */
    method Rotate(index: nat)
      requires index < |state.backlog|
      modifies this`state
      ensures log == old(log)
      ensures var was := old(state).backlog;
              state == old(state).(backlog := was[..index] + was[index + 1..] + [was[index]])
    {
      var pending := state.backlog[index];
      state := state.(backlog := state.backlog[..index] + state.backlog[index + 1..]);
      state := state.(backlog := state.backlog + [pending]);
    }

    /** The same submission for the report at the end of the backlog. It is due, so there is
        neither a repeat to reopen nor a retry to wait for. */
    method SubmitRetained(nowMs: int, wallMs: int, accepted: bool)
      requires Valid() && |state.backlog| > 0 && Due(state.backlog[|state.backlog| - 1], nowMs)
      modifies this`state, this`disk, this`log
      ensures Valid() && View() == SubmitLast(cfg, old(View()), nowMs, wallMs, accepted)
    {
      hide DiskAfter, Stored, RepeatDelay;
      ghost var r0 := state.backlog[|state.backlog| - 1];
      var r := state.backlog[|state.backlog| - 1];
      var attemptedAt := if wallMs > nowMs then wallMs else nowMs;
      r := r.(outcome := Dispatching, attemptedAt := Some(attemptedAt),
              retryAt := Some(attemptedAt + P.NOTIFICATION_RETRY_MS));
      assert r == Dispatched(r0, nowMs, wallMs) && Submits(r0, nowMs);
      SetRetained(r);
      WriteState();
      Perform(Submit(r.key, accepted));
      if accepted {
        r := r.(outcome := Accepted, retryAt := None, acceptedAt := Some(nowMs),
                nextRepeatAt := Some(nowMs + RepeatDelay(r.repeatCount)));
      } else {
        r := r.(outcome := Failed);
      }
      SetRetained(r);
      WriteState();
    }

    /** One due report of the backlog: rotated, submitted and dropped once accepted. */
    method ReportRetained(input: TickInput)
      requires Valid()
      modifies this`state, this`disk, this`log
      ensures Valid() && View() == ReportQueued(cfg, old(View()), input)
    {
      hide DiskAfter, SubmitLast, WithoutAccepted;
      var now := input.nowMs;
      var index := 0;
      while index < |state.backlog| && !Due(state.backlog[index], now)
        invariant 0 <= index <= |state.backlog|
        invariant forall k :: 0 <= k < index ==> !Due(state.backlog[k], now)
      {
        index := index + 1;
      }
      assert index == FirstDue(state.backlog, now);
      if index < |state.backlog| {
        Rotate(index);
        SubmitRetained(now, input.queuedWallMs, input.queuedAccepted);
      }
      state := state.(backlog := WithoutAccepted(state.backlog));
    }

    method Supervise(input: TickInput) returns (ticked: bool)
      requires Valid()
      modifies this
      ensures Valid()
      ensures ticked <==> MonitorEngine.Tick(cfg, old(disk), input).Some?
      ensures if ticked then View() == MonitorEngine.Tick(cfg, old(disk), input).value else log == []
      ensures disk == DiskAfter(old(disk), Steps(cfg, old(disk), input))
    {
      hide DiskAfter, Act, Report, ReportQueued, ReportSemantic, Assess, C.Classify, Finish;
      origin, log := disk, [];
      NothingWritten(disk);
      if !input.session.active || input.broker.checkpoint.workflow != input.session.workflow {
        return false;
      }
      var a := Assess(cfg, disk, input);
      state := a.state;
      var classified := C.ClassifyLiveness(cfg.hashes, state.semantic, SemanticObservation(input, a));
      if classified.Err? {
        return false;
      }
      var semantic := classified.value;
      Perform(SetAwake(input.session.keepAwakeOnAc && input.onAc && P.ActiveWorkflow(a.classification.state)));
      var classification := a.classification;
      if input.session.safeMode {
        var report;
        classification, report := Dispatch(a, input);
        ReportCurrent(classification, report, a, input);
        ReportStall(classification, a, semantic, input);
        ReportRetained(input);
      } else {
        RecordAction(a.action, input.nowMs, ShadowOnly);
      }
      state := Finish(state, classification, a, semantic, input);
      WriteState();
      ticked := true;
    }

    method ReportStall(c: P.Classification, a: Assessment, semantic: S.State, input: TickInput)
      requires Valid()
      modifies this`state, this`disk, this`log
      ensures Valid() && View() == ReportSemantic(cfg, old(View()), c, a, semantic, input)
    {
      hide DiskAfter, Notify, Promoted;
      if && ReadingStates(c.state)
         && (semantic.classification.Looping? || semantic.classification.Stagnant?)
         && !(semantic.incidentKey.Some? && semantic.incidentKey.value in SemanticKeys(a.state.incidents))
      {
        var reason := if semantic.classification.Looping? then P.SemanticLooping else P.SemanticStagnant;
        var _ := NotifyUser(P.Classification(true, reason, c.state),
                            ReportIdentity(state, a, input, semantic.incidentKey),
                            input.nowMs, input.semanticWallMs, input.semanticAccepted);
      }
    }
  }

  lemma NothingWritten(disk: Option<EngineState>)
    ensures DiskAfter(disk, []) == disk
  {
  }
}
