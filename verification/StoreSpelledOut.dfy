/** What the store's assertions and the semantic validator refuse, stated over the fields of a state
    (src/eagle-monitor-store.mjs, `assertState`; src/eagle-monitor-semantic.mjs,
    `validateEagleSemanticState`). */
module StoreSpelledOut {
  import opened Prelude
  import P = MonitorPolicy
  import L = MonitorLadder
  import opened NotificationQueue
  import S = SemanticState
  import opened LoopDetection
  import opened MonitorEngine
  import MonitorTick
  import StoreAcceptance

  // ---- the semantic state ---------------------------------------------

  predicate Whole(e: S.WaitEntry) {
    && e.startAt <= e.deadlineAt <= e.startAt + 28_800_000 && 0 <= e.maxExtensionMs <= 60_000
    && (|| (e.extensionUsed == 0 && e.effectiveDeadlineAt == e.deadlineAt)
        || (e.extensionUsed == 1 && e.maxExtensionMs > 0 && e.effectiveDeadlineAt == e.deadlineAt + e.maxExtensionMs))
  }

  lemma EntryExactly(e: S.WaitEntry)
    ensures S.ValidWaitEntry(e) <==> Whole(e)
  {
  }

  predicate Histories(s: S.State) {
    && |s.seen| <= 512 && (forall i, j :: 0 <= i < j < |s.seen| ==> s.seen[i] != s.seen[j])
    && 0 < |s.fingerprints| <= 12 && |s.fingerprints| <= s.observationCount
    && 0 <= s.suspectCount <= s.observationCount && s.observationCount > 0
    && (s.brokerEpoch == None || s.brokerEpoch.value >= 0)
    && |s.waitHistory| <= 16
    && (forall i, j :: 0 <= i < j < |s.waitHistory| ==> s.waitHistory[i].identity != s.waitHistory[j].identity)
    && (forall i :: 0 <= i < |s.waitHistory| ==> Whole(s.waitHistory[i]))
    && 0 <= s.metrics.noveltyScore <= 1_000
    && 0 <= s.metrics.unseenEvidenceCount <= s.metrics.qualifyingEvidenceCount <= 40
    && (s.metrics.evidenceCapacityExhausted ==> |s.seen| >= 512)
    && s.metrics.noveltyScore == S.NoveltyThousandths(s.fingerprints)
  }

  /** Both leases are of this state: the progress lease of evidence it knows, for fifteen minutes, and the
      wait lease of an entry it retains. */
  predicate Leases(h: S.Hashes, s: S.State) {
    && (s.progressLease.Some? ==>
          var l := s.progressLease.value;
          && 0 < |l.evidenceDigests| <= 40 && l.expiresAt == l.renewedAt + 900_000 && l.renewedAt <= s.observedAt
          && (forall i, j :: 0 <= i < j < |l.evidenceDigests| ==> l.evidenceDigests[i] < l.evidenceDigests[j])
          && (forall i :: 0 <= i < |l.evidenceDigests| ==> l.evidenceDigests[i] in s.seen)
          && l.evidenceDigest == h.ofEvidence(l.evidenceDigests))
    && (s.waitLease.Some? ==> s.waitLease.value.observedAt == s.observedAt && s.waitLease.value.entry in s.waitHistory)
  }

  predicate Waiting(s: S.State) {
    && s.waitLease.Some? && s.waitLease.value.entry.startAt <= s.observedAt
    && s.observedAt <= s.waitLease.value.entry.effectiveDeadlineAt
  }

  predicate Progressing(s: S.State) {
    && s.progressLease.Some? && s.progressLease.value.renewedAt <= s.observedAt
    && s.observedAt <= s.progressLease.value.expiresAt
  }

  /** What each classification requires of the rest of the state. */
  predicate Answers(s: S.State)
    requires |s.fingerprints| > 0
  {
    var seenLoop := FindLoop(s.fingerprints);
    && (s.classification == S.Settled <==> s.dimensions.settled)
    && (s.dimensions.humanBoundary ==> s.classification in {S.Settled, S.HumanRequired})
    && (s.incidentKey.Some? <==> s.classification in {S.HumanRequired, S.Looping, S.Stagnant, S.Suspect})
    && match s.classification
       case Settled => s.suspectCount == 0 && s.reason == S.VerifiedSettlementObserved
       case HumanRequired =>
         s.suspectCount == 0 && s.dimensions.humanBoundary && s.reason == S.GenuineHumanBoundaryObserved
       case ExpectedWait =>
         && s.suspectCount == 0 && Waiting(s) && s.metrics.loopPattern.None?
         && s.reason == if s.waitLease.value.entry.extensionUsed == 1 then S.BoundedWaitExtension else S.NamedWaitActive
       case Progressing =>
         && s.suspectCount == 0 && Progressing(s)
         && (|| (&& s.reason == S.NewAttributableEvidence && s.metrics.unseenEvidenceCount > 0 && |s.fingerprints| == 1
                 && s.metrics.loopPattern.None? && s.progressLease.value.renewedAt == s.observedAt
                 && |s.progressLease.value.evidenceDigests| == s.metrics.unseenEvidenceCount)
             || (&& s.reason == S.UsefulProgressLeaseActive && s.metrics.unseenEvidenceCount == 0
                 && s.metrics.loopPattern == seenLoop))
       case Suspect =>
         && s.suspectCount == 1 && !Waiting(s) && !Progressing(s) && s.metrics.loopPattern == seenLoop
         && s.reason == S.UsefulProgressUnconfirmed
       case Stagnant =>
         && s.suspectCount >= 2 && !Waiting(s) && !Progressing(s) && seenLoop.None? && s.metrics.loopPattern.None?
         && s.reason == S.UsefulProgressLeaseExpired
       case Looping =>
         && s.metrics.loopPattern == seenLoop && seenLoop.Some? && s.reason == S.LoopDetected(seenLoop.value)
         && (|| (s.suspectCount == 0 && Waiting(s))
             || (s.suspectCount >= 2 && !Waiting(s) && !Progressing(s)))
  }

  lemma LeasesExactly(h: S.Hashes, s: S.State)
    requires S.ValidWaitHistory(s.waitHistory)
    ensures ((s.progressLease.Some? ==> S.ValidProgressLease(h, s.progressLease.value, s))
             && (s.waitLease.Some? ==> S.ValidWaitLease(s.waitLease.value, s))) <==> Leases(h, s)
  {
    hide S.ValidWaitEntry, S.Sort;
    if s.progressLease.Some? { LeasedEvidence(s.progressLease.value.evidenceDigests, s.seen); }
    if s.waitLease.Some? {
      var e := s.waitLease.value.entry;
      var i := S.IndexOf(s.waitHistory, e.identity);
      if k: nat :| k < |s.waitHistory| && s.waitHistory[k] == e {
        assert i <= k;
        assert i == k;
      }
    }
  }

  /** Sorted without repetition is strictly ascending. */
  lemma LeasedEvidence(digests: seq<Digest>, seen: seq<Digest>)
    ensures (Distinct(digests) && digests == S.Sort(digests)) <==>
            forall i, j :: 0 <= i < j < |digests| ==> digests[i] < digests[j]
    ensures (forall d :: d in digests ==> d in seen) <==> forall i :: 0 <= i < |digests| ==> digests[i] in seen
  {
    hide S.Sort;
    S.SortOrders(digests);
    if forall i, j :: 0 <= i < j < |digests| ==> digests[i] < digests[j] {
      S.SortOfAscending(digests);
    }
    if Distinct(digests) && digests == S.Sort(digests) {
      forall i, j | 0 <= i < j < |digests| ensures digests[i] < digests[j] {
        assert S.Sort(digests)[i] <= S.Sort(digests)[j];
      }
    }
  }

  lemma AnswersExactly(s: S.State)
    requires |s.fingerprints| > 0 && s.metrics.noveltyScore == S.NoveltyThousandths(s.fingerprints)
    requires s.metrics.evidenceCapacityExhausted ==> |s.seen| >= S.MAX_EVIDENCE_IDENTITIES
    requires s.suspectCount >= 0
    ensures S.ValidRelations(s) && S.ValidReason(s) <==> Answers(s)
  {
    hide FindLoop, S.NoveltyThousandths;
  }

  /** Exactly the semantic states the validator accepts. */
  lemma SemanticExactly(h: S.Hashes, s: S.State)
    ensures S.ValidState(h, s) <==> Histories(s) && Leases(h, s) && Answers(s)
  {
    hide FindLoop, S.NoveltyThousandths, S.ValidProgressLease, S.ValidWaitLease, S.ValidWaitEntry, Whole, S.ValidReason,
      Answers, Leases;
    forall i | 0 <= i < |s.waitHistory| ensures S.ValidWaitEntry(s.waitHistory[i]) <==> Whole(s.waitHistory[i]) {
      EntryExactly(s.waitHistory[i]);
    }
    HistoriesExactly(s);
    if Histories(s) {
      LeasesExactly(h, s);
      AnswersExactly(s);
    }
  }

  lemma HistoriesExactly(s: S.State)
    ensures Histories(s) <==>
      && S.ValidScalars(s) && S.ValidHistories(s) && S.ValidMetrics(s.metrics) && S.ValidWaitHistory(s.waitHistory)
      && s.metrics.noveltyScore == S.NoveltyThousandths(s.fingerprints)
      && (s.metrics.evidenceCapacityExhausted ==> |s.seen| >= S.MAX_EVIDENCE_IDENTITIES)
  {
    hide S.NoveltyThousandths, S.ValidWaitEntry, Whole;
    forall i | 0 <= i < |s.waitHistory| ensures S.ValidWaitEntry(s.waitHistory[i]) <==> Whole(s.waitHistory[i]) {
      EntryExactly(s.waitHistory[i]);
    }
  }

  // ---- the monitor's state --------------------------------------------

  predicate NoSooner(t: Option<int>) {
    t == None || t.value >= 0
  }

  /** A receipt says when it was tried and when it will be tried again, as its outcome requires. */
  predicate ReceiptHolds(r: Receipt) {
    && r.state !in {P.PowerSleep, P.Settled, P.Startup}
    && NoSooner(r.attemptedAt) && NoSooner(r.retryAt) && NoSooner(r.acceptedAt) && NoSooner(r.nextRepeatAt)
    && match r.outcome
       case Pending => r.attemptedAt == None && r.retryAt == None
       case Accepted => r.attemptedAt != None && r.retryAt == None
       case _ => r.attemptedAt != None && r.retryAt != None && r.retryAt.value >= r.attemptedAt.value
  }

  lemma ReceiptExactly(r: Receipt)
    ensures ValidReceipt(r) <==> ReceiptHolds(r)
  {
    L.AllowedExactly(r.state);
  }

  /** At most sixteen reports and a summary, each once, and none of them the one in the slot; only the
      summary has the summary's key and reason, and it is never in the slot. */
  predicate QueueHolds(slot: Option<Receipt>, backlog: seq<Receipt>) {
    && |backlog| <= 17
    && (|backlog| == 17 ==> exists i :: 0 <= i < 17 && backlog[i].reason == P.NotificationBacklogOverflow)
    && (forall i :: 0 <= i < |backlog| ==>
          && ReceiptHolds(backlog[i])
          && (backlog[i].key == OverflowKey <==> backlog[i].reason == P.NotificationBacklogOverflow))
    && (forall i, j :: 0 <= i < j < |backlog| ==> backlog[i].key != backlog[j].key)
    && (slot.Some? ==>
          && ReceiptHolds(slot.value) && slot.value.key != OverflowKey
          && slot.value.reason != P.NotificationBacklogOverflow
          && forall i :: 0 <= i < |backlog| ==> backlog[i].key != slot.value.key)
  }

  lemma QueueExactly(slot: Option<Receipt>, backlog: seq<Receipt>)
    ensures GoodQueue(slot, backlog) <==> QueueHolds(slot, backlog)
  {
    hide ValidReceipt, ReceiptHolds;
    if slot.Some? { ReceiptExactly(slot.value); }
    forall i | 0 <= i < |backlog| ensures ValidReceipt(backlog[i]) <==> ReceiptHolds(backlog[i]) {
      ReceiptExactly(backlog[i]);
    }
  }

  predicate Derives(h: S.Hashes, x: Incident) {
    x.OperationalIncident? ||
    (&& x.key == h.ofIncident(x.identity) && x.state in {P.Healthy, P.SendConfirmedCapture}
     && (|| (x.identity.classification == S.Looping && x.identity.loopPattern.Some?
             && x.semanticReason == S.LoopDetected(x.identity.loopPattern.value))
         || (x.identity.classification == S.Stagnant && x.identity.loopPattern.None?
             && x.semanticReason == S.UsefulProgressLeaseExpired)
         || (x.identity.classification == S.Suspect && x.identity.loopPattern.None?
             && x.semanticReason == S.UsefulProgressUnconfirmed)))
  }

  lemma DerivedExactly(h: S.Hashes, x: Incident)
    ensures StoreAcceptance.Derived(h, x) <==> Derives(h, x)
  {
  }

  /** A genuine human boundary names one of the four challenges. */
  predicate Challenged(s: EngineState) {
    && s.monitor == P.HumanRequiredAuthChallenge && s.boundary.Some? && s.boundary.value.humanRequired
    && s.boundary.value.reason in
         {P.FailureReported(P.AuthenticationRequired), P.FailureReported(P.CaptchaRequired),
          P.FailureReported(P.HumanVerificationRequired), P.FailureReported(P.VerificationChallenge)}
  }

  lemma ChallengedExactly(s: EngineState)
    ensures StoreAcceptance.GenuineBoundary(s) <==> Challenged(s)
  {
  }

  /** Exactly the states the store accepts. */
  lemma AcceptsExactly(cfg: Config, s: EngineState)
    ensures StoreAcceptance.Accepts(cfg, s) <==>
      && QueueHolds(s.notification, s.backlog)
      && |s.brokerStarts| <= 3 && (forall i :: 0 <= i < |s.brokerStarts| ==> s.brokerStarts[i] >= 0)
      && NoSooner(s.deadSinceAt) && (s.broker.Some? ==> NoSooner(s.broker.value.epoch))
      && (s.unavailability.Some? ==>
            s.unavailability.value.firstObservedAt >= 0 && NoSooner(s.unavailability.value.brokerEpoch))
      && |s.incidents| <= cfg.incidentLimit
      && (forall i :: 0 <= i < |s.incidents| ==> Derives(cfg.hashes, s.incidents[i]))
      && (forall i, j :: 0 <= i < j < |s.incidents| ==>
            s.incidents[i].OperationalIncident? || s.incidents[j].OperationalIncident?
            || s.incidents[i].key != s.incidents[j].key)
      && (s.semantic.Some? ==>
            var m := s.semantic.value;
            && Histories(m) && Leases(cfg.hashes, m) && Answers(m)
            && (s.workflow.Some? ==> m.workflow == s.workflow.value)
            && (s.broker.Some? ==> m.brokerEpoch == s.broker.value.epoch) && m.observedAt == s.updatedAt
            && (m.classification == S.Settled <==> s.monitor == P.Settled)
            && (m.classification == S.HumanRequired <==> Challenged(s))
            && (m.incidentKey.Some? ==> m.incidentKey.value == cfg.hashes.ofIncident(S.IdentityOf(m, s.phase))))
  {
    hide GoodQueue, QueueHolds, S.ValidState, Histories, Leases, Answers, StoreAcceptance.Derived, Derives, Challenged,
      StoreAcceptance.GenuineBoundary;
    QueueExactly(s.notification, s.backlog);
    ChallengedExactly(s);
    forall i | 0 <= i < |s.incidents|
      ensures StoreAcceptance.Derived(cfg.hashes, s.incidents[i]) <==> Derives(cfg.hashes, s.incidents[i])
    {
      DerivedExactly(cfg.hashes, s.incidents[i]);
    }
    if s.semantic.Some? {
      SemanticExactly(cfg.hashes, s.semantic.value);
      HasWindow(s.semantic.value);
    }
  }

  lemma HasWindow(s: S.State)
    ensures Histories(s) ==> |s.fingerprints| > 0
  {
    hide S.NoveltyThousandths;
  }
}
