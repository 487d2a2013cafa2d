# Ego Chat: verified model of the broker, the Eagle monitor and the review protocol

Ego Chat keeps a browser conversation durable: one broker owns the browser, the Eagle monitor
watches the broker, and a review protocol decides when a piece of work is settled. This project
models the parts of it in which a program step and a separately written check must agree, or in
which many steps together must keep a promise, and proves those agreements for all inputs and runs.
`dafny verify dfyconfig.toml` checks everything.

Where the program works step by step the model does too: the monitor daemon, the JSON checker, the
broker's data directory and its lease handle are classes, and every loop of the program is a
loop with invariants, proved against a specification function about which the theorems are stated.
Pure code is functions. Digests are functions of what they are taken of (parameters, so that
results hold for every digest; a result that needs a collision-free one says so), and times are
integer milliseconds.

**Semantic liveness** (`LoopDetection`, `SemanticState`, `SemanticClassifier`, `SemanticInvariant`,
`SemanticRuns`, `SemanticOutcomes`). One step of the classifier meets the whole validator exactly
unless it repeats a recorded instant in one of two ways; with a strictly increasing clock no run
leaves the invariant. Waits and progress can only cover finitely much time, and what is outside the
cover is decided by the second observation. Each classification, and each part of the state, is
given exactly.

**The Eagle monitor** (`MonitorPolicy`, `MonitorLadder`, `NotificationQueue`, `MonitorEngine`,
`MonitorDaemon`, `MonitorTick`, `MonitorRuns`, `MonitorExactness`, `MonitorDispatch`, `StartRate`,
`MonitorTimers`, `MonitorRecovery`, `StoreAcceptance`, `StoreSpelledOut`, `NotificationFairness`,
`NotificationConservation`, `NotificationWrites`, `NotificationLoss`). A tick is a sequence of
effects, and a crash, a lost monitor lease or a failing write keeps a prefix of it. What a tick
observes, concludes, dispatches, reports and records is stated over its inputs. Over runs of such
events: broker starts are rate-limited and rest on uninterrupted evidence, uninterrupted evidence
is acted upon, it is exact which writes the store refuses, due reports are submitted in bounded
time, and reports are conserved.

**The broker lease** (`BrokerLease`, `BrokerLeaseRaces`, `BrokerLeaseProgram`). Every access to a
shared file, every liveness check and every hand-over of a driver is one step of a protocol in
which any number of processes interleave and crash. The program itself, run beside arbitrary
interference, is shown to take only protocol steps, and its answers to rest on what it saw there.

**JSON, UTF-8 and canonical bytes** (`JsonText`, `JsonParser`, `JsonRepair`, `JsonKeys`, `Utf8`,
`CanonicalJson`, `CanonicalForm`, `Compaction`, `PromptForm`, `CriteriaJson`). The grammar of RFC
8259, section 2, is a datatype with a printer; the parser is sound and complete for it. Repair, the
duplicate-key check, RFC 8785 canonical bytes, the UTF-8 cut and the prompt compaction are proved
against that.

**Evidence and lineage** (`Attachment`, `AttachmentOutcomes`, `AttachmentDispositions`,
`Settlement`, `SettlementWords`, `Lineage`, `LineageSpelledOut`). Classifier, builder and validator
of attachment evidence agree; settling a review means everything it should mean, down to the
characters of the response; the local checks on a workflow's conversations imply the global chain.

Results that differ from what one might expect of the code:

- The classifier can write a state its validator refuses. `SemanticInvariant.StepValidExactly`
  gives the exact condition; on states of its own it is a settlement or human-boundary flag dropped
  at an unchanged instant (`SemanticRuns.OnlyDroppedBoundariesAreUnsound`).
- The store can refuse a write of the engine. The checkpoint and the workflow of a tick come from two
  requests (src/eagle-monitor-broker.mjs:75-118). If the workflow changes its phase between them and
  the semantic state names an incident, the key the classifier derived holds the one phase and the
  store recomputes it with the other (`StoreAcceptance.MixedPhasesAreRefused`; exactly then,
  `TickWritesAccepted`, `EveryWriteIsAccepted`). The tick fails; in a run it is one cut before its
  last write, so every other result covers it.
- README.md:41 of the program promises an exclusive lease. That no claim is replaced between a
  process's liveness check and its rename is not enough for it: a claim rewritten between the
  *read* and the check already lets two generations drive browsers
  (`BrokerLeaseRaces.StaleReadRace`). The exact condition is on the claim that is in the lock at the
  rename: it names no broker that holds it and no live driven child (`BrokerLease.FencedExactly`).
- docs/eagle-monitor.md:90-94 promises that failed reports are retained. After a crash between the
  acceptance of an overflow summary and the end of its tick, a report that leaves the slot is
  dropped with nobody told (`NotificationConservation.CrashLosesReport`, and from an empty directory
  `NotificationLoss.RunLosesReport`). The exact condition of a loss is that of each displacement:
  the backlog is full and its overflow summary already accepted
  (`NotificationConservation.RetainLosesExactly`). For the report a tick finds in the slot that is
  `LossExactly`; a tick that raises two reports can lose the first of them already when its backlog
  has one place left (`NotificationLoss.TickLosesFirstExactly`).
- Attachment evidence whose lists contradict their counts, but whose totals agree, is classified yet
  can never be recorded under its own classification, only by a capture that gives up
  (`Attachment.IncoherentListsNeverTerminate`, `ExhaustionBuildsExactly`).
- The guards of a conversation resume would accept a return to an earlier conversation; only the
  closing validation of the new state refuses it (`Lineage.GuardsMissAnEarlierConversation`,
  exactly `Lineage.ResumeAcceptedExactly`).

## Model

| member | source | states |
|---|---|---|
| LoopDetection.LoopDetectionExact | src/eagle-monitor-semantic.mjs:774-790 | the detector fires exactly on a suffix of three equal fingerprints or of six with period 2 or 3; each label is the least such period, whatever the order of the tests |
| SemanticClassifier.AdmitEvidence | src/eagle-monitor-semantic.mjs:921-928 | one pass over the evidence appends exactly the unseen identities that still fit and counts all unseen ones |
| SemanticClassifier.NextExpectedWait | src/eagle-monitor-semantic.mjs:812-862 | the edited copy of the wait history, the lease and the restoration flag are those of the wait specification |
| SemanticClassifier.RecordFingerprint | src/eagle-monitor-semantic.mjs:956-969 | the fingerprint window is cleared by new evidence and records independent observations, but not a wait that merely repeats |
| SemanticClassifier.ObserveWindow | src/eagle-monitor-semantic.mjs:942-971 | wait, window and loop of an observation |
| SemanticClassifier.Advance | src/eagle-monitor-semantic.mjs:921-1052 | the imperative body computes the specified next state |
| SemanticInvariant.AdmissionBounded | src/eagle-monitor-semantic.mjs:921-928 | admission admits nothing twice and keeps the identities distinct and at most 512 |
| SemanticOutcomes.AdmissionExactly | src/eagle-monitor-semantic.mjs:921-928 | every new evidence identity is admitted, whatever its kind and result, in checkpoint order, until exactly 512 are known |
| SemanticOutcomes.WaitExactly | src/eagle-monitor-semantic.mjs:812-862 | in every case of a wait step: which entry is looked up, added or left out, and that the one extension is granted exactly when it is due |
| SemanticOutcomes.ProgressLeaseExactly | src/eagle-monitor-semantic.mjs:929-941 | the progress lease is renewed for 15 minutes, over the new digests in order, exactly by evidence that is new and fits |
| SemanticOutcomes.WindowExactly | src/eagle-monitor-semantic.mjs:942-971 | the window holds the last 12 fingerprints it should, and the loop is the period of its suffix, except under new evidence or an unchanged wait |
| SemanticOutcomes.ClassifiesExactly | src/eagle-monitor-semantic.mjs:974-1009 | an if-and-only-if for each of the seven classifications over flags, new evidence, cover, progress, loop and the count of unconfirmed observations |
| SemanticOutcomes.BookkeepingExactly | src/eagle-monitor-semantic.mjs:1010-1052 | identities, metrics, waits, counters and digests of the next state; capacity is exhausted exactly if some evidence is still unknown afterwards |
| SemanticOutcomes.IncidentExactly | src/eagle-monitor-semantic.mjs:1010-1052 | which classifications name an incident and what its key is taken of |
| SemanticOutcomes.RefusesExactly | src/eagle-monitor-semantic.mjs:881-920 | exactly which inputs are refused, and that every other one is answered with the next state |
| SemanticOutcomes.CheckpointExactly | src/eagle-monitor-semantic.mjs:608-763 | exactly the checkpoints that are read: their evidence, its kinds and results, and the bounds of a wait |
| SemanticInvariant.WaitStepValid | src/eagle-monitor-semantic.mjs:812-862 | a wait step keeps the history valid, pins every retained entry and leases one of its entries |
| SemanticInvariant.LadderMeetsRelations | src/eagle-monitor-semantic.mjs:974-1009 | the decision ladder satisfies every relation the validator later checks |
| SemanticInvariant.StepValidExactly | src/eagle-monitor-semantic.mjs:1055-1336 | the next state passes the whole validator if and only if the observation is not an unsound repeat of a recorded instant |
| SemanticInvariant.UnsoundRepeatIsRefused | src/eagle-monitor-semantic.mjs:1055-1336 | every unsound repeat writes a state the validator refuses |
| SemanticRuns.RunStaysValid | src/eagle-monitor-semantic.mjs:881-1336 | over every run with a strictly increasing clock, whatever checkpoints, flags, epochs and workflows, nothing is refused and every state is valid |
| SemanticRuns.OnlyDroppedBoundariesAreUnsound | src/eagle-monitor-semantic.mjs:919-921 | on its own states, with collision-free checkpoint digests, the only unsound repeat drops a settled or human-required flag at the same time and checkpoint with no cover |
| SemanticRuns.DroppedSettlementWitness | src/eagle-monitor-semantic.mjs:977-1009 | a settled first observation repeated at the same instant without its flag writes a state the validator refuses |
| SemanticRuns.RunIsChain | src/eagle-monitor-semantic.mjs:881-1053 | the states an executed run writes form a chain of classified steps, so all results about chains hold of them |
| SemanticRuns.NothingForgotten | src/eagle-monitor-semantic.mjs:921-947 | in a run of one workflow, across epochs, wait entries stay pinned and evidence identities stay |
| SemanticRuns.WaitCoverIsFinite | src/eagle-monitor-semantic.mjs:812-868 | all instants called expected_wait lie in at most 16 intervals of at most 8 h and 1 min |
| SemanticRuns.ExtensionSpentOnce | src/eagle-monitor-semantic.mjs:840-855 | a wait identity is extended at most once and then never changes |
| SemanticRuns.ProgressCoverIsFinite | src/eagle-monitor-semantic.mjs:921-954 | all instants called progressing lie within 15 min of one of at most 512 renewals |
| SemanticRuns.RenewalsConsumeEvidence | src/eagle-monitor-semantic.mjs:926-941 | each renewal uses up evidence identities, and a held lease starts at a renewal |
| SemanticRuns.EvidenceRenewsOnce | src/eagle-monitor-semantic.mjs:924-941 | no evidence digest renews the lease twice, in any epoch |
| SemanticRuns.TwoUncoveredObservationsDecide | src/eagle-monitor-semantic.mjs:997-1009 | two consecutive later observations of one epoch outside the cover end in stagnant or looping |
| SemanticRuns.SixQuietRepetitionsLoop | src/eagle-monitor-semantic.mjs:956-1009 | six repeating observations, all but the first quiet, end in looping despite the 12-entry window; the first may open the run or an epoch, bring evidence or wait |
| SemanticRuns.LoopingIsGenuine | src/eagle-monitor-semantic.mjs:970-1009 | a state called looping shows a repetition in the window it persists |
| SemanticRuns.StoreReproducesIncidentKey | src/eagle-monitor-store.mjs:427-446 | with keys that do not collide, the store recomputes the written incident key exactly if the phase it persists is the checkpoint's |
| MonitorPolicy.ChoicesAreAllowed | src/eagle-monitor-policy.mjs:40-64 | every classification of an observation allows its chosen action, its report and its power action |
| MonitorTick.ActionChecksPass | src/eagle-monitor-engine.mjs:314-351 | no action check of a tick throws, also when its terminal is already reconciled |
| MonitorLadder.MonitorStatesExactly | src/eagle-monitor-policy.mjs:140-171 | when the monitor is out of disk, asleep, in a crash loop, skewed or starting up, over the fields of the observation |
| MonitorLadder.WorkflowStatesExactly | src/eagle-monitor-policy.mjs:172-245 | an if-and-only-if for each state of an observed workflow over its failure, status, phase, delivery and age, with the five minutes of a stall |
| MonitorLadder.HumanRequiredExactly | src/eagle-monitor-policy.mjs:140-245 | exactly when a human is required, with the half hour before a Send and the two hours after it |
| MonitorLadder.ReasonsExactly | src/eagle-monitor-policy.mjs:140-245 | the reason of each state |
| MonitorLadder.ActionsExactly | src/eagle-monitor-policy.mjs:247-280 | an if-and-only-if for each action the monitor can choose |
| MonitorLadder.AllowedExactly | src/eagle-monitor-policy.mjs:40-64 | for each action the states that permit it, and that a state is active exactly if it may hold the machine awake |
| MonitorLadder.PhaseExactly | src/eagle-monitor-constants.mjs:54-58 | the phase that is recorded for each phase of a workflow: any name of one to 64 lower-case letters, digits and underscores that begins with a letter |
| MonitorPolicy.StartAuthorityExact | src/eagle-monitor-policy.mjs:247-280 | the broker is started exactly when it is confirmed dead and nothing earlier in the ladder applies |
| MonitorPolicy.ReconcileAuthority | src/eagle-monitor-policy.mjs:247-280 | reconciliation only touches a terminal exchange with ambiguous delivery through the session's own binding |
| MonitorPolicy.UnavailableReportExact | src/eagle-monitor-policy.mjs:140-245 | broker_ipc_unavailable is classified exactly on expired, unproven unavailability |
| NotificationQueue.RetainKeeps | src/eagle-monitor-engine.mjs:144-156 | retaining keeps the queue invariant and leaves the receipt or a summary in the backlog |
| MonitorDaemon.EagleMonitorEngine.RetainPendingNotification | src/eagle-monitor-engine.mjs:144-156 | the loop over the backlog retains exactly as specified |
| MonitorDaemon.EagleMonitorEngine.SubmitNotification | src/eagle-monitor-engine.mjs:180-218 | intent written, dispatched, outcome written; new state, effects and result in every case |
| MonitorDaemon.EagleMonitorEngine.NotifyUser | src/eagle-monitor-engine.mjs:220-233 | a report takes the slot, reusing its retained receipt, and is submitted |
| MonitorDaemon.EagleMonitorEngine.Dispatch | src/eagle-monitor-engine.mjs:361-420 | the action of a safe-mode tick with its persisted intent and the report a failure turns into |
| MonitorDaemon.EagleMonitorEngine.ReportCurrent | src/eagle-monitor-engine.mjs:421-434 | current report, retry of an unaccepted one, or clearing after recovery |
| MonitorDaemon.EagleMonitorEngine.ReportStall | src/eagle-monitor-engine.mjs:435-449 | a stall or loop of a healthy workflow is reported once per incident key |
| MonitorDaemon.EagleMonitorEngine.ReportRetained | src/eagle-monitor-engine.mjs:450-460 | the first due report is rotated to the end, submitted and dropped once accepted |
| MonitorDaemon.EagleMonitorEngine.Supervise | src/eagle-monitor-engine.mjs:235-544 | a whole tick: memory, effects and state file are those of the specification the run theorems use |
| MonitorRuns.EventShape | src/eagle-monitor-engine.mjs:235-544 | what a tick cut short anywhere can leave in the state file and dispatch to the broker |
| MonitorExactness.LoadedExactly | src/eagle-monitor-engine.mjs:241-257 | a state file of the session is taken over whole, of any other one only broker starts and incidents |
| MonitorExactness.TimersExactly | src/eagle-monitor-engine.mjs:268-291 | both timers of a tick: what keeps them, what restarts them, and when they expire |
| MonitorExactness.ObservationExactly | src/eagle-monitor-engine.mjs:258-305 | everything else the classification sees, with the clock jump that is a wake and the three starts in ten minutes that are a crash loop |
| MonitorExactness.TerminalExactly | src/eagle-monitor-engine.mjs:306-314 | a terminal reconciled before is reported as unresolved as long as it looks the same; anything else is classified anew |
| MonitorExactness.SemanticObservationExactly | src/eagle-monitor-engine.mjs:327-344 | what the semantic classifier is told about broker, transport, recovery and boundaries |
| MonitorExactness.SubmissionExactly | src/eagle-monitor-engine.mjs:180-218 | what a submission leaves of a receipt: retried after five minutes, repeated after one, two and then always four hours |
| MonitorExactness.RetainExactly | src/eagle-monitor-engine.mjs:144-156 | which displaced receipt joins the backlog, and when a summary does instead |
| MonitorExactness.PromotedExactly | src/eagle-monitor-engine.mjs:220-232 | a report that takes the slot keeps its receipt from the slot or the backlog, else it is new |
| MonitorExactness.IncidentsExactly | src/eagle-monitor-engine.mjs:470-502 | a tick adds one incident per change of a classification that is not calm, one per new key of a suspected, stagnant or looping workflow it is reading, and no other |
| MonitorDispatch.TicksExactly | src/eagle-monitor-engine.mjs:235-344 | exactly when a tick has any effect at all |
| MonitorDispatch.ActExactly | src/eagle-monitor-engine.mjs:360-420 | what each action changes and concludes, and when it is reported, for each outcome |
| MonitorDispatch.DispatchesExactly | src/eagle-monitor-engine.mjs:345-420 | which power, broker, attach and reconcile actions a tick dispatches, where in its trace, and that a shadow tick dispatches nothing else |
| MonitorDispatch.ReportsExactly | src/eagle-monitor-engine.mjs:421-449 | which report is in the slot after a tick that has one, and that the tick submitted it unless its receipt still waits |
| MonitorDispatch.SlotExactly | src/eagle-monitor-engine.mjs:421-434 | without a report the slot's own one is tried again, and an accepted one is cleared exactly once the workflow is healthy or settled |
| MonitorDispatch.FinalExactly | src/eagle-monitor-engine.mjs:470-544 | every field but the queue and the last action (`LastActionExactly`) of the state a tick ends with |
| MonitorDispatch.LastActionExactly | src/eagle-monitor-engine.mjs:345-434 | the last action a tick leaves: that of a shadow tick, the outcome of each action, and for a report what its receipt and the notifier made of it |
| MonitorDispatch.EscalatedStallIsReported | src/eagle-monitor-policy.mjs:229-243 | half an hour without progress before the Send: a safe-mode tick that runs to its end submits the report, unless the one it holds waits for its next try |
| StartRate.StartsAreRateLimited | src/eagle-monitor-engine.mjs:241-266 | every closed ten-minute window of every run, across crashes, restarts and resets, holds at most three broker starts |
| StartRate.EventRecords | src/eagle-monitor-engine.mjs:363-369 | a start is recorded on disk before it is dispatched and no event forgets one inside the window |
| MonitorTimers.StartsRestOnUninterruptedDeath | src/eagle-monitor-engine.mjs:268-275 | a start implies a time at least a second earlier since which every completed tick, all of this session, saw the broker conclusively dead |
| MonitorTimers.UnavailabilityRestsOnUninterruptedEvidence | src/eagle-monitor-engine.mjs:276-291 | the report implies five minutes of ticks of this session that saw the broker unavailable, unproven dead and under no other known owner |
| MonitorRecovery.ConfirmedDeathStartsBroker | src/eagle-monitor-engine.mjs:268-275 | a second after a completed tick that saw the broker dead, if all since saw the same, an undisturbed safe-mode tick dispatches the start |
| MonitorRecovery.LastingUnavailabilityIsReported | src/eagle-monitor-engine.mjs:276-291 | five minutes after a tick that recorded the broker unavailable under an owner, if all since saw the same, an undisturbed safe-mode tick reports it |
| StoreAcceptance.TickWritesAccepted | src/eagle-monitor-store.mjs:267-459 | from an accepted state a strictly later tick has every mid-way write accepted, and its last one exactly if the semantic state names no incident or the checkpoint's phase is the workflow's |
| StoreAcceptance.EveryWriteIsAccepted | src/eagle-monitor-store.mjs:131-459 | over every run of strictly later ticks from an empty directory the store accepts all writes if and only if each tick that reaches its last write meets that condition |
| StoreAcceptance.MixedPhasesAreRefused | src/eagle-monitor-broker.mjs:75-118 | a first tick whose checkpoint and workflow were observed in different phases has its last write refused as corrupt |
| StoreSpelledOut.SemanticExactly | src/eagle-monitor-semantic.mjs:1055-1336 | the semantic validator accepts a state if and only if its histories, leases and answer hold as spelled out, classification by classification |
| StoreSpelledOut.AcceptsExactly | src/eagle-monitor-store.mjs:131-459 | the store accepts a state if and only if its queue, timers, incidents and semantic state hold as spelled out |
| NotificationFairness.FairTick | src/eagle-monitor-engine.mjs:421-460 | a completed tick submits a due report or moves it up by one |
| NotificationFairness.DueReportsAreSubmitted | src/eagle-monitor-engine.mjs:450-460 | a due report at position p, at most 16, is submitted within p+1 completed ticks of its session whatever arrives, or was announced by one cut short |
| NotificationConservation.RetainLosesExactly | src/eagle-monitor-engine.mjs:144-156 | retaining loses a receipt exactly if the backlog is full and its overflow summary already accepted |
| NotificationConservation.ReportsAreConserved | src/eagle-monitor-engine.mjs:180-233 | within a session an unaccepted report is still retained, or it left in an event that told the user of it, told of an overflow, or left an unaccepted summary behind |
| NotificationWrites.WrittenReportsAreConserved | src/eagle-monitor-engine.mjs:180-233 | the same from any write inside a tick that retains the report, the one that first records it included, even if that tick displaces it again, is cut short or starts a session |
| NotificationConservation.LossExactly | src/eagle-monitor-engine.mjs:144-156 | some tick, accepted by the store to its end, loses the unaccepted report in the slot silently if and only if the backlog is full and holds an accepted summary |
| NotificationLoss.TickLosesFirstExactly | src/eagle-monitor-engine.mjs:421-449 | a tick that raises two new reports, all refused, over an unaccepted one writes the first to disk and ends without a trace of it exactly if at most one place was left and the backlog holds an accepted summary |
| NotificationConservation.CrashKeepsAcceptedSummary | src/eagle-monitor-engine.mjs:450-460 | a crash right before the last write of a tick that had a summary accepted leaves such a state |
| NotificationConservation.CrashLosesReport | src/eagle-monitor-engine.mjs:144-156 | from any current state with a full backlog whose summary is first due: a tick short of disk space cut before its last write, and one more tick, lose its report though neither told the user of it |
| NotificationLoss.RunLosesReport | src/eagle-monitor-engine.mjs:144-156 | for every configuration and session, a run of later and later ticks from the empty directory and one more tick lose a report |
| BrokerLease.StepSound | src/broker-lease.mjs:207-397 | every protocol step that takes no claim but an abandoned one keeps mutual exclusion, fencing, ledgers, epochs and liveness knowledge |
| BrokerLease.ChildrenAreFenced | src/broker-lease.mjs:108-120 | in every interleaving with crashes whose renames take abandoned claims, all live driven children belong to one generation, one broker holds the claim and activated epochs increase |
| BrokerLease.RetireSafeExactly | src/broker-lease.mjs:167-185 | a rename keeps mutual exclusion and the fence if and only if the claim then in the lock names no broker that holds it and no live driven child |
| BrokerLease.FencedExactly | src/broker-lease.mjs:216-241 | over whole runs: mutual exclusion and the fence hold throughout if and only if every rename takes such an abandoned claim |
| BrokerLease.RecheckSuffices | src/broker-lease.mjs:108-120 | the liveness check repeated on the claim in the lock makes the rename safe |
| BrokerLease.UnchangedClaimSuffices | src/broker-lease.mjs:217-241 | so does renaming the very claim that was read and checked |
| BrokerLeaseRaces.StaleReadRace | src/broker-lease.mjs:216-241 | a run in which a stale read breaks the fence though nothing happens between check and rename |
| BrokerLeaseRaces.ReplacedClaimRace | src/broker-lease.mjs:167-185 | a run in which a replaced claim is renamed away, giving two holders |
| BrokerLeaseProgram.Directory.AnyAlive | src/broker-lease.mjs:108-120 | the loop over broker and children answers yes if and only if, at its check, the broker of the claim or one of its children is alive |
| BrokerLeaseProgram.Directory.RetireStaleClaim | src/broker-lease.mjs:167-185 | empties the lock and says whether anything was in it at the moment of the rename, whatever it was |
| BrokerLeaseProgram.Directory.NextEpoch | src/broker-lease.mjs:187-205 | the epoch file ends one above what it held at the read, which is a step of its own |
| BrokerLeaseProgram.AcquireBrokerLease | src/broker-lease.mjs:207-397 | beside any interference the four-attempt loop takes only protocol steps; it refuses only after finding a process of the claim it read alive, is contended only after losing all four attempts, and left alone acquires the next epoch exactly if the lock is empty or all its claim records are dead |
| BrokerLeaseProgram.BrokerLeaseHandle.RegisterChild | src/broker-lease.mjs:292-353 | succeeds exactly if the claim was the broker's at the read, and then memory and the claim in the lock both record the child |
| BrokerLeaseProgram.BrokerLeaseHandle.UnregisterChild | src/broker-lease.mjs:387-393 | succeeds exactly if the claim was the broker's at the read, and then neither memory nor the claim in the lock records the dead child |
| BrokerLeaseProgram.BrokerLeaseHandle.StartChild | src/ego-adapter.mjs:719-741 | the claim in the lock recorded the child before the child was given its input |
| BrokerLeaseProgram.BrokerLeaseHandle.RunExclusive | src/ego-adapter.mjs:624-773 | however often it runs and whatever runs beside it, live driven children stay fenced in one generation; each answer rests on what was seen: input given, an early settlement, a lost claim or a live child |
| BrokerLeaseProgram.BrokerLeaseHandle.Release | src/broker-lease.mjs:354-386 | the lock is unlinked only after a look that found it the broker's own and none of its children alive, and given up only after forty looks that each found one |
| JsonText.PrintingSplits | src/convergence.mjs:444-450 | what follows a printed value stays behind it |
| JsonParser.ParsesExactly | src/convergence.mjs:444-450 | the parser accepts exactly the printed documents of the grammar and returns the document |
| JsonRepair.EscapeJsonStringControls | src/convergence.mjs:452-496 | the two-flag scanner computes the escaping pass and its count |
| JsonRepair.RemoveJsonTrailingCommas | src/convergence.mjs:498-541 | the scanner with look-ahead computes the comma pass and its count |
| JsonRepair.NormalizeJsonSyntax | src/convergence.mjs:543-550 | both passes in order, counts added |
| JsonRepair.ValidTextIsUntouched | src/convergence.mjs:452-550 | every text of the grammar is returned unchanged and nothing is recorded |
| JsonRepair.RepairIsExact | src/convergence.mjs:452-550 | a document with raw controls and at most one trailing comma per container becomes its clean printing, with the same meaning, and each repair counted once |
| JsonKeys.Checker.ParseValue | src/convergence.mjs:365-434 | the recursive descent over a shared index and node count follows the specification and always advances |
| JsonKeys.HasUniqueJsonObjectKeys | src/convergence.mjs:341-442 | the checker terminates on every text and computes the specified answer |
| JsonKeys.UniqueKeysExactly | src/convergence.mjs:341-442 | on every valid text it accepts if and only if decoded keys are distinct in every object, depth is at most 64 and there are at most 10,000 values |
| Utf8.HasLoneSurrogate | src/attachment-execution-receipt.mjs:152-164 | the index loop finds a surrogate that is not half of a pair exactly when there is one |
| Utf8.EncodingIsInjective | src/attachment-execution-receipt.mjs:166-174 | texts without unpaired surrogates have different encodings |
| Utf8.LoneSurrogatesCollide | src/attachment-execution-receipt.mjs:166-174 | without the check a lone surrogate is encoded like U+FFFD |
| Utf8.FittingIsMonotone | src/convergence.mjs:668-682 | the surrogate-adjusted size is monotone in the cut, so binary search is right |
| Utf8.Utf8Prefix | src/convergence.mjs:668-682 | the low/high loop returns the longest fitting cut |
| Utf8.PrefixIsLongest | src/convergence.mjs:668-682 | the cut is within the limit, no admissible cut is longer, and no pair is split |
| Utf8.CompactUtf8 | src/convergence.mjs:684-697 | the method returns the compacted text, its original size and whether it was cut |
| Utf8.CompactionFits | src/convergence.mjs:684-697 | never more than the limit or the notice; within the limit untouched; otherwise a prefix and the notice |
| PromptForm.CompactExactly | src/convergence.mjs:684-697 | a text that is too long becomes the longest cut that fits beside the notice, without its trailing white space, and the notice |
| CanonicalJson.AcceptsExactly | src/attachment-execution-receipt.mjs:176-230 | a value is refused exactly when it is outside safe integers, paired strings, lists and records |
| CanonicalJson.CanonicalTextReadsBack | src/attachment-execution-receipt.mjs:176-230 | parsing the canonical text gives the value back with its keys in order |
| CanonicalForm.CanonicalTextIsInForm | src/attachment-execution-receipt.mjs:176-230 | the parsed canonical text has no blank, only plain integers, strings in their written form and, in every object at every depth, each key before the next by the first differing code unit; it denotes the value |
| CanonicalForm.StringForm | src/attachment-execution-receipt.mjs:166-174 | a string is written unit by unit: which units are escaped, by which letter or digits, and all others as they are |
| CanonicalForm.BytesForm | src/attachment-execution-receipt.mjs:232-234 | the bytes of a text point by point, a surrogate pair being one point |
| CanonicalJson.BytesExactly | src/attachment-execution-receipt.mjs:176-234 | two accepted values have equal bytes if and only if they are equal up to key order |
| Compaction.ShellLeavesRoom | src/convergence.mjs:946-1024 | in the worst case of all field caps with six-fold escaping the shell leaves at least 512 bytes |
| Compaction.PrepareReviewPrompt | src/convergence.mjs:914-1039 | the prompt always fits; it is compacted exactly if it did not, with the packet cut to exactly the room left, in one pass |
| PromptForm.PromptExactly | src/convergence.mjs:874-912 | every paragraph of the prompt, in order |
| PromptForm.FieldsExactly | src/convergence.mjs:946-974 | which fields are compacted, under which label and to how many bytes |
| CriteriaJson.CriteriaReadBack | src/convergence.mjs:904-905 | the criteria in a prompt parse as one object per criterion with its evidence, identity and status as they are |
| Settlement.ConsumedAnswers | src/convergence.mjs:750-762 | whatever is consumed answers to target, candidate and cycle and covers the contract in order |
| Settlement.SettledMeansSettled | src/convergence.mjs:1237-1286 | settled implies one terminal marker at the end, matching identities, all criteria in order and passing, nothing blocking, no compaction and no blocked candidate |
| Settlement.SettlesExactly | src/convergence.mjs:588-777 | exactly when a response settles, through either review path |
| Settlement.WithheldIsActionable | src/convergence.mjs:1237-1286 | a withheld settlement is returned as a continuing review with a blocking finding and no passing criterion |
| SettlementWords.ResponseSettlesExactly | src/convergence.mjs:699-762 | a strict envelope settles exactly by its decision, findings and criteria; any other response exactly if the marker occurs once and alone on its last line and the last line before it that is not blank spells EGO_CHAT_DECISION: and SETTLED |
| SettlementWords.UnsettledResponse | src/convergence.mjs:699-748 | any other response continues with every criterion undecided and one blocking finding, that of a blocked reviewer exactly if it says BLOCKED |
| SettlementWords.SaysOneThing | src/convergence.mjs:699-713 | no response says two of SETTLED, CONTINUE and BLOCKED |
| SettlementWords.KeepsWhatPrecedes | src/convergence.mjs:699-714 | of a response that says something, the lines in front of its verdict are kept, whatever their line breaks, up to 131,072 bytes |
| SettlementWords.KeepsEverything | src/convergence.mjs:699-714 | of a response that says nothing, all is kept but the closing marker and the blank text around it |
| SettlementWords.SummaryExactly | src/convergence.mjs:712-748 | what is kept is the summary of the review, settled or not, and the text to act on repeats it up to 4,000 bytes |
| SettlementWords.WithheldExactly | src/convergence.mjs:1246-1284 | exactly when a settlement is withheld, by which of the two findings, and that nothing else of the review changes but decision, findings and criteria |
| SettlementWords.EnvelopeExactly | src/convergence.mjs:588-649 | exactly which responses are strict envelopes, and for which review |
| Attachment.ExactlyOneExactly | src/attachment-execution-receipt.mjs:642-746 | EXACTLY_ONE if and only if both observations are sound and stable with one branch, one artifact, one generated image and one matching save association |
| AttachmentOutcomes.StructuralExactly | src/attachment-execution-receipt.mjs:411-481 | the reason that stands against an observation is the first that applies, over its flags, counts and lists; none does exactly if it is sound |
| AttachmentOutcomes.OutcomesExactly | src/attachment-execution-receipt.mjs:642-746 | an if-and-only-if for exactly one, multiple of each kind and zero, over the branches, images, associations and times of a pair |
| AttachmentOutcomes.UnknownsExactly | src/attachment-execution-receipt.mjs:642-746 | why a pair is unknown |
| Attachment.PairValidExactly | src/attachment-execution-receipt.mjs:1342-1506 | the validator accepts a pair's disposition exactly when the runtime is qualified, times are in order and an unknown outcome may be final |
| Attachment.BuildsExactly | src/attachment-execution-receipt.mjs:1576-1686 | for observations and a capture of the confirmed Send, its key derived from that Send, the builder succeeds exactly with a qualified runtime, a capture that can be projected, ordered times and an outcome that may be final; every known outcome terminates so |
| Attachment.ExhaustionBuildsExactly | src/attachment-execution-receipt.mjs:1576-1686 | exactly when a capture that gives up can be recorded |
| Attachment.ReceiptExactly | src/attachment-execution-receipt.mjs:1319-1340 | a receipt exists if and only if the pair was EXACTLY_ONE, and repeats the identities of its one artifact and association |
| AttachmentDispositions.BuiltExactly | src/attachment-execution-receipt.mjs:1576-1686 | every field of a built disposition and of its receipt |
| AttachmentDispositions.RefusesExactly | src/attachment-execution-receipt.mjs:1585-1625 | what the builder refuses and in which order |
| AttachmentDispositions.ValidExactly | src/attachment-execution-receipt.mjs:1342-1506 | exactly the valid dispositions, outcome by outcome |
| Attachment.IncoherentListsNeverTerminate | src/attachment-execution-receipt.mjs:411-481 | a pair with agreeing totals and contradicting lists is valid and classified, and never builds under that classification |
| Lineage.CheckRecord | src/conversation-continuation.mjs:195-241 | one pass of the loop admits a record exactly when it fits what was seen |
| Lineage.ValidateConvergenceContinuationLineage | src/conversation-continuation.mjs:185-257 | the loop accepts exactly the workflows whose history is a chain, stated over all generations at once |
| Lineage.ChainGrowsExactly | src/conversation-continuation.mjs:195-241 | local admission and the global chain are equivalent, one record at a time |
| Lineage.AcceptedLineageIsAChain | src/conversation-continuation.mjs:185-257 | conversations of different generations differ in key, address, space name and task identity, share a Project, times and cycles never go back, generation equals history length and is at most 32 |
| Lineage.ResumeAcceptedExactly | src/conversation-continuation.mjs:485-578 | past the guards, the closing validation accepts exactly if the chain continues |
| LineageSpelledOut.AcceptedExactly | src/conversation-continuation.mjs:185-257 | exactly the accepted workflows: what each record proves, how each goes on, that no conversation returns, and which resume was last |
| LineageSpelledOut.GuardsExactly | src/conversation-continuation.mjs:485-551 | exactly the resumes that pass the guards, in the same conversation or in another |
| LineageSpelledOut.ContinuesExactly | src/conversation-continuation.mjs:185-257 | what the closing validation adds to the guards |
| LineageSpelledOut.ResumedStateExactly | src/conversation-continuation.mjs:552-578 | every field of the state a resume leads to |
| LineageSpelledOut.PromotionExactly | src/conversation-continuation.mjs:406-446 | exactly when a successor is promoted and what that adds to its resume |
| Lineage.GuardsMissAnEarlierConversation | src/conversation-continuation.mjs:500-527 | whatever the digest functions and the two addresses of one Project: a return to the first conversation passes every guard of a resume, and the new state is refused |
| Lineage.BuildConvergenceResume | src/conversation-continuation.mjs:485-578 | succeeds exactly when the resume is allowed and continues the chain; the whole new state |
| Lineage.ResumeExtendsByAtMostOne | src/conversation-continuation.mjs:552-578 | a resume uses up its checkpoint, appends at most one conversation, and cannot be repeated |
| Lineage.BuildSuccessorPromotion | src/conversation-continuation.mjs:406-446 | a reviewed successor becomes exactly the next generation and keeps its review as child |
| Lineage.RunsKeepTheChain | src/conversation-continuation.mjs:406-578 | over every run the history only grows and the generation counts the moves, at most 32 |

## Left out

- SemanticInvariant.StepValidExactly: an ISO timestamp has four year digits; times are unbounded integers here, so a refusal for a year beyond 9999 is not modelled.
- SemanticRuns.RunStaysValid: the checkpoint is any valid one; `projectEagleSemanticCheckpoint`, which computes it, is not modelled, and its fields that reach the state only through its digest are one value.
- StoreAcceptance.EveryWriteIsAccepted: backoff, next observation time and session-text fields of the state, random incident identities, the phase and counters of operational incidents and key-set checks of the JSON are not modelled.
- MonitorDaemon.EagleMonitorEngine.Supervise: `assertCurrent` of the monitor lease is a point where a run may be cut, not a modelled protocol; the process-local storage alert is not modelled; a write is atomic.
- NotificationConservation.ReportsAreConserved: excludes a crash between the acceptance of an overflow summary and the end of its tick, because the property is false there (`LossExactly`, `CrashLosesReport`, `NotificationLoss.TickLosesFirstExactly`).
- BrokerLease.ChildrenAreFenced: assumes that every rename takes an abandoned claim, because the fence is broken otherwise (`FencedExactly`), and that process identities are not reused; legacy lock directories, corrupt files, platforms without process groups and the gap between `lstat` and read are not modelled.
- BrokerLease.StepSound: a release begins only with an idle lane, which bin/ego-chatd.mjs:163-165 arranges; I/O errors end an acquisition in the same way as any other abort.
- BrokerLeaseProgram.AcquireBrokerLease: the crash of the running process and failing I/O are steps of the protocol but not of this method.
- BrokerLeaseProgram.BrokerLeaseHandle.RunExclusive: the prompt mailbox with its capacity and retention, driver output and timeouts are not modelled; a call that settled before its input was written is a parameter.
- JsonRepair.RepairIsExact: a comma in an otherwise empty container is not in the tolerated grammar; `escapeReviewTextQuotes` is a heuristic without an exact specification and is an arbitrary function where it is used.
- JsonParser.ParsesExactly: the numeric value of a number is not modelled, only its text.
- CanonicalJson.BytesExactly: values are finite trees, so the cycles the program refuses do not occur and a shared reference is two equal values; negative zero, a safe integer that the program prints as 0, is the integer zero here.
- Compaction.PrepareReviewPrompt: the fixed wording is a parameter of at most 32 KiB with notices of at most 256 bytes; no text carries a secret, so redaction is the identity.
- Settlement.SettledMeansSettled: the review schema, the alias normalisation, the code fence, the quote repair and the bounded copies of text are arbitrary functions.
- Attachment.BuildsExactly: the capture operation retains the observations it is built from; signatures, key enrolment, the contents of the capture's evidence projection and the check of a runtime identity are not modelled (the check is one flag); digests of observations are the observations, and digests are taken to be well formed.
- Lineage.BuildConvergenceResume: a refusal does not say which of its two error codes it carries; text patterns of keys and digests, the size of a checkpoint and the snapshot of its values are not modelled, and contract and candidate checks are one predicate.
- Lineage.RunsKeepTheChain: other writes to a workflow, which src/broker.mjs makes, are taken to keep its lineage fields and not to lower its cycle.
- Lineage.BuildSuccessorPromotion: the preparation of a successor (`buildSuccessorPreparation`, `buildPreparedSuccessorBinding`) enters as its finished plan.
- src/broker.mjs, src/store.mjs, src/task-*.mjs, src/workflow-supervision.mjs: browser workflow storage and dispatch are not part of this model.
- src/eagle-monitor-lease.mjs: the monitor's own lease follows the pattern of the broker lease without children.
- src/answering-model.mjs, src/browser-capture-policy.mjs, prompt texts, backoff tables: would only add easy members.
- Signing, IPC, launchd, power assertions, notification commands, the CLI and the installer: input and output.
