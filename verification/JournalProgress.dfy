/**
 Every trap and teardown of the journaled runtime succeeds, keeps `JournalInv`, and
 only ever appends to the committed records.
 */
module JournalProgress {
  import opened Words
  import opened TrapAbi
  import opened Capability
  import opened Runtime
  import opened RuntimeInvariant
  import opened RuntimeProgress
  import opened Waiting
  import opened BrokerMoves
  import opened Journal
  import opened Lifecycle
  import opened JournalInvariant

  /** At most one record was added, after the ones already there. */
  predicate Grows(before: seq<EffectRecord>, after: seq<EffectRecord>) {
    after == before || (|after| == |before| + 1 && after[..|before|] == before)
  }

  predicate JournaledLands(j: Journaled, task: u64, r: JournaledTransition) {
    && r.Ok?
    && JournalInv(r.value.0)
    && Lands(j.runtime, task, Ok((r.value.0.runtime, r.value.1)))
    && Grows(j.journal.committed, r.value.0.journal.committed)
  }

  predicate JournaledRuns(j: Journaled, task: u64) {
    JournalInv(j) && Runs(j.runtime, task)
  }

  /** The runtime moved without touching broker or effect, so the journal still fits it. */
  lemma SameBrokerKeeps(j: Journaled, s: RuntimeState)
    requires JournalInv(j) && j.journal.state != JournalDead && Inv(s) && s.profile == Supervised
    requires s.broker == j.runtime.broker && s.effect == j.runtime.effect
    requires Attached(s.sender) <==> Attached(j.runtime.sender)
    requires Attached(s.receiver) <==> Attached(j.runtime.receiver)
    ensures JournalInv(j.(runtime := s))
  {
    hide Inv, Scan, Attached;
  }

  lemma RunsNotDead(j: Journaled, task: u64)
    requires JournaledRuns(j, task)
    ensures j.journal.state != JournalDead
  {
    hide Inv, Scan;
  }

  lemma SealedLands(j: Journaled, task: u64, next: Journaled, outcome: TrapOutcome)
    requires JournalInv(next) && Lands(j.runtime, task, Ok((next.runtime, outcome)))
    requires Grows(j.journal.committed, next.journal.committed)
    ensures JournaledLands(j, task, Sealed(next, outcome))
  {
    hide JournalInv, Lands, ValidateJournaled, Grows;
    JournalInvValidates(next);
  }

  lemma RefuseSubmitLands(j: Journaled, task: u64, status: TrapStatus)
    requires JournaledRuns(j, task)
    ensures JournaledLands(j, task, RefuseSubmit(j, task, status))
  {
    hide Inv, ValidateJournaled, Scan, LiveInv;
    RunsNotDead(j, task);
    FinishLands(j.runtime, task, status, 0);
    var s := SetResult(j.runtime, task, status, 0);
    SameBrokerKeeps(j, s);
    JournalInvValidates(j.(runtime := s));
  }

  /** Appending a reserved record moves the scan and the epoch together. */
  lemma AppendLands(journal: Journal, record: EffectRecord, release: bool, p: Progress)
    requires journal.state == JournalLive && 1 <= journal.reserved
            && |journal.committed| + journal.reserved <= RECORD_COUNT
    requires journal.nextSequence == |journal.committed| + 1 && EpochsSound(journal.committed)
    requires record.WellFormed() && record.recordSequence == 0 && record.decisionEpoch == |journal.committed| + 2
    requires Scan(journal.committed) == Some(p) && Advance(p, record).Some?
    ensures var r := AppendReserved(journal, record, release);
            && r.Ok?
            && r.value.state == JournalLive && r.value.objectGeneration == journal.objectGeneration
            && r.value.reserved == (if release then 0 else journal.reserved - 1)
            && |r.value.committed| == |journal.committed| + 1 && r.value.nextSequence == |r.value.committed| + 1
            && EpochsSound(r.value.committed) && Grows(journal.committed, r.value.committed)
            && Scan(r.value.committed) == Advance(p, record)
  {
    hide Advance, EpochsSound;
    var stored := record.(recordSequence := journal.nextSequence);
    AppendKeepsEpochs(journal.committed, stored);
    ScanAppend(journal.committed, stored);
    AdvanceIgnoresSequence(p, record, stored);
  }

  lemma AdvanceIgnoresSequence(p: Progress, a: EffectRecord, b: EffectRecord)
    requires b == a.(recordSequence := b.recordSequence)
    ensures Advance(p, b) == Advance(p, a)
  {
  }

  lemma BeginLands(journal: Journal, record: EffectRecord, p: Progress)
    requires journal.state == JournalLive && |journal.committed| + 3 <= RECORD_COUNT && journal.reserved == 0
    requires journal.nextSequence == |journal.committed| + 1 && EpochsSound(journal.committed)
    requires record.WellFormed() && record.recordSequence == 0 && record.decisionEpoch == |journal.committed| + 2
    requires Scan(journal.committed) == Some(p) && Advance(p, record).Some? && p.open == Idle
    requires record.eventKind == Requested.Code()
    ensures var r := BeginLifecycle(journal, record);
            && r.Ok?
            && r.value.state == JournalLive && r.value.objectGeneration == journal.objectGeneration
                 && r.value.reserved == 2
            && |r.value.committed| == |journal.committed| + 1 && r.value.nextSequence == |r.value.committed| + 1
            && EpochsSound(r.value.committed) && Grows(journal.committed, r.value.committed)
            && Scan(r.value.committed) == Advance(p, record)
    ensures p.count <= 6
  {
    TwoRecordsEach(journal.committed);
    hide EpochsSound;
    var stored := record.(recordSequence := journal.nextSequence);
    AppendKeepsEpochs(journal.committed, stored);
    ScanAppend(journal.committed, stored);
  }

  /** A request is accepted with its record, or refused for want of room, leaving all else alone. */
  lemma SubmitJournals(j: Journaled, task: u64, after: RuntimeState, outcome: TrapOutcome)
    requires JournaledRuns(j, task) && Lands(j.runtime, task, Ok((after, outcome)))
    requires j.runtime.broker.state == BrokerEmpty && j.runtime.broker.decisionEpoch < U64_MAX
    requires Attached(after.sender) <==> Attached(j.runtime.sender)
    requires Attached(after.receiver) <==> Attached(j.runtime.receiver)
    requires exists argument :: after.broker == SubmittedBroker(j.runtime.broker, 1, argument)
    requires after.effect == j.runtime.effect
    ensures JournaledLands(j, task, JournalSubmit(j, after, task, outcome))
  {
    hide Inv, ValidateJournaled, Scan, Advance, EpochsSound, BeginLifecycle;
    RunsNotDead(j, task);
    RefuseSubmitLands(j, task, JournalFull);
    RefuseSubmitLands(j, task, JournalUnavailable);
    var record := Event(Requested, StatusOk, after.broker.decisionEpoch, RECEIVER_TASK_ID, WORKLOAD_GENERATION,
                        after.broker.request, OBJECT_APPROVAL_BROKER, RIGHT_SUBMIT_APPROVAL);
    BeginRefuses(j.journal, record);
    if j.journal.state == JournalLive && |j.journal.committed| + 3 <= RECORD_COUNT {
      var p := ProgressOf(j.runtime);
      BrokerBounds(j);
      AdvanceRequested(p, record);
      BeginLands(j.journal, record, p);
      SealedLands(j, task, Journaled(after, BeginLifecycle(j.journal, record).value), outcome);
    }
  }

  lemma AdvanceRequested(p: Progress, record: EffectRecord)
    requires p.open == Idle && record.eventKind == Requested.Code() && record.requestSequence == p.count + 1
    ensures Advance(p, record) == Some(Progress(p.count + 1, AwaitingDecision, p.completed))
  {
  }

  lemma BeginRefuses(journal: Journal, record: EffectRecord)
    ensures journal.state != JournalLive ==> BeginLifecycle(journal, record) == Err(Unavailable)
    ensures journal.state == JournalLive && |journal.committed| + journal.reserved + 3 > RECORD_COUNT ==>
              BeginLifecycle(journal, record) == Err(Full)
  {
  }

  /** While the journal is live the epoch and the sequence stay small. */
  lemma BrokerBounds(j: Journaled)
    requires JournalInv(j) && j.journal.state == JournalLive
    ensures 1 <= j.runtime.broker.nextSequence <= 8 && j.runtime.broker.decisionEpoch <= 17
    ensures !j.runtime.broker.sequenceExhausted
    ensures Undecided(j.runtime.broker) ==>
              j.runtime.broker.request.sequence + 1 == j.runtime.broker.nextSequence
              && j.runtime.broker.request
                   == CommitRequest(j.runtime.broker.request.sequence, j.runtime.broker.request.argument)
  {
    hide SlotInv, QueueInv, Scan, EpochsSound;
  }

  /** The supervisor's own decision appends its record under the epoch it just took. */
  lemma DecisionJournals(j: Journaled, task: u64, decision: u64, after: RuntimeState, outcome: TrapOutcome)
    requires JournaledRuns(j, task) && Lands(j.runtime, task, Ok((after, outcome)))
    requires Attached(after.sender) <==> Attached(j.runtime.sender)
    requires Attached(after.receiver) <==> Attached(j.runtime.receiver)
    requires Undecided(j.runtime.broker) && decision <= DECISION_EXPIRE
    requires decision != DECISION_EXPIRE ==> j.runtime.broker.state == BrokerPending
    requires j.runtime.broker.decisionEpoch + 1 < U64_MAX && after.effect == j.runtime.effect
    requires var epoch := j.runtime.broker.decisionEpoch + 1;
             after.broker == (if decision == DECISION_APPROVE
                              then j.runtime.broker.(state := BrokerApproved, decisionEpoch := epoch,
                                        approvalEpoch := epoch, expiryEpoch := epoch + 1)
                              else j.runtime.broker.ClearRequest().(state := BrokerEmpty, decisionEpoch := epoch))
    ensures JournaledLands(j, task, JournalDecision(j, after, decision, outcome))
  {
    hide Inv, ValidateJournaled, Scan, Advance, EpochsSound, AppendReserved;
    RunsNotDead(j, task);
    BrokerBounds(j);
    var b := j.runtime.broker;
    var (kind, status, release) :=
      if decision == DECISION_APPROVE then (Approved, StatusOk, false)
      else if decision == DECISION_DENY then (Denied, ApprovalDenied, true)
      else (Expired, ApprovalExpired, b.state == BrokerPending);
    var record := Event(kind, status, after.broker.decisionEpoch, SENDER_TASK_ID, SUPERVISOR_GENERATION, b.request,
                        OBJECT_APPROVAL_BROKER, RIGHT_DECIDE_APPROVAL);
    AdvanceDecided(ProgressOf(j.runtime), record, kind);
    AppendLands(j.journal, record, release, ProgressOf(j.runtime));
    SealedLands(j, task, Journaled(after, AppendReserved(j.journal, record, release).value), outcome);
  }

  lemma AdvanceDecided(p: Progress, record: EffectRecord, kind: EventKind)
    requires record.eventKind == kind.Code() && record.requestSequence == p.count && p.open != Idle
    requires match kind
             case Requested => false
             case Approved => p.open == AwaitingDecision
             case Denied => p.open == AwaitingDecision
             case Expired => true
             case Completed => p.open == AwaitingCommit && !p.completed
             case Failed => p.open == AwaitingCommit && p.completed
    ensures Advance(p, record)
         == Some(Progress(p.count, if kind == Approved then AwaitingCommit else Idle, p.completed || kind == Completed))
  {
  }

  lemma CompletedJournals(j: Journaled, task: u64, after: RuntimeState, outcome: TrapOutcome)
    requires JournaledRuns(j, task) && Lands(j.runtime, task, Ok((after, outcome)))
    requires Attached(after.sender) <==> Attached(j.runtime.sender)
    requires Attached(after.receiver) <==> Attached(j.runtime.receiver)
    requires j.runtime.broker.state == BrokerApproved && !j.runtime.effect.occupied && after.effect.occupied
    requires j.runtime.broker.decisionEpoch < U64_MAX
    requires after.broker == j.runtime.broker.ClearRequest().(state := BrokerEmpty,
                             decisionEpoch := j.runtime.broker.decisionEpoch + 1)
    ensures JournaledLands(j, task, JournalCompleted(j, after, outcome))
  {
    hide Inv, ValidateJournaled, Scan, Advance, EpochsSound, AppendReserved;
    RunsNotDead(j, task);
    BrokerBounds(j);
    var record := Event(Completed, StatusOk, after.broker.decisionEpoch, SENDER_TASK_ID, SUPERVISOR_GENERATION,
                        j.runtime.broker.request, OBJECT_TEST_EFFECT, RIGHT_COMMIT_EFFECT);
    AdvanceDecided(ProgressOf(j.runtime), record, Completed);
    AppendLands(j.journal, record, false, ProgressOf(j.runtime));
    SealedLands(j, task, Journaled(after, AppendReserved(j.journal, record, false).value), outcome);
  }

  /** The refused commit ends its request: the workload wakes, the broker empties, the record says failed. */
  lemma FailedJournals(j: Journaled, task: u64, after: RuntimeState)
    requires JournaledRuns(j, task) && task == SENDER_TASK_ID
    requires after == SetResult(j.runtime, task, EffectUnavailable, 0)
    requires j.runtime.broker.state == BrokerApproved && j.runtime.effect.occupied
    ensures JournaledLands(j, task, JournalFailed(j, after, task, Resume(task)))
  {
    hide Inv, ValidateJournaled, Scan, Advance, EpochsSound, AppendReserved, WakeWorkload;
    RunsNotDead(j, task);
    BrokerBounds(j);
    RefusedWakes(j, task, after);
    var epoch := after.broker.decisionEpoch + 1;
    var broker := after.broker.ClearRequest().(state := BrokerEmpty, decisionEpoch := epoch);
    var woken := WakeWorkload(after.(broker := broker), EffectUnavailable, 0).value;
    var record := Event(Failed, EffectUnavailable, epoch, SENDER_TASK_ID, SUPERVISOR_GENERATION,
                        j.runtime.broker.request, OBJECT_TEST_EFFECT, RIGHT_COMMIT_EFFECT);
    AdvanceDecided(ProgressOf(j.runtime), record, Failed);
    AppendLands(j.journal, record, false, ProgressOf(j.runtime));
    SealedLands(j, task, Journaled(SetResult(woken, task, EffectUnavailable, 0),
                                   AppendReserved(j.journal, record, false).value), Resume(task));
  }

  /** Ending the refused request wakes the workload and leaves the runtime's invariant. */
  lemma RefusedWakes(j: Journaled, task: u64, after: RuntimeState)
    requires JournaledRuns(j, task) && task == SENDER_TASK_ID
    requires after == SetResult(j.runtime, task, EffectUnavailable, 0)
    requires j.runtime.broker.state == BrokerApproved && j.runtime.broker.decisionEpoch < U64_MAX
    ensures var broker := after.broker.ClearRequest().(state := BrokerEmpty,
                            decisionEpoch := after.broker.decisionEpoch + 1);
            var r := WakeWorkload(after.(broker := broker), EffectUnavailable, 0);
            && r.Ok?
            && Lands(j.runtime, task, Ok((SetResult(r.value, task, EffectUnavailable, 0), Resume(task))))
            && (Attached(r.value.sender) <==> Attached(j.runtime.sender))
            && (Attached(r.value.receiver) <==> Attached(j.runtime.receiver))
            && r.value.broker == broker && r.value.effect == j.runtime.effect && r.value.profile == j.runtime.profile
            && SetResult(r.value, task, EffectUnavailable, 0).receiver == r.value.receiver
            && Attached(SetResult(r.value, task, EffectUnavailable, 0).sender) == Attached(r.value.sender)
  {
    hide ValidateJournaled, Scan, Advance, EpochsSound, SlotInv, QueueInv;
    BrokerBounds(j);
    FinishLands(j.runtime, task, EffectUnavailable, 0);
    var broker := after.broker.ClearRequest().(state := BrokerEmpty, decisionEpoch := after.broker.decisionEpoch + 1);
    SettleLands(after, task, broker, after.effect, EffectUnavailable, 0);
    var woken := WakeWorkload(after.(broker := broker), EffectUnavailable, 0).value;
    FinishLands(woken, task, EffectUnavailable, 0);
    WokenAttached(after, broker);
  }

  lemma WokenAttached(s: RuntimeState, broker: Broker)
    requires WakeWorkload(s.(broker := broker), EffectUnavailable, 0).Ok?
    ensures var woken := WakeWorkload(s.(broker := broker), EffectUnavailable, 0).value;
            && (Attached(woken.sender) <==> Attached(s.sender)) && (Attached(woken.receiver) <==> Attached(s.receiver))
            && woken.broker == broker && woken.effect == s.effect
  {
  }

  lemma ReadLands(j: Journaled, task: u64)
    requires JournaledRuns(j, task)
    ensures JournaledLands(j, task, HandleJournalRead(j, task, Slot(j.runtime, task).context))
  {
    hide Inv, ValidateJournaled, Scan, LiveInv, ResolveObject, ReadTriplet;
    RunsNotDead(j, task);
    ContextFacts(j.runtime, task);
    forall status: TrapStatus, values: (u64, u64, u64)
      ensures var s := SetJournalOutput(j.runtime, task, status, values);
              && Lands(j.runtime, task, Ok((s, Resume(task)))) && JournalInv(j.(runtime := s))
              && ValidateJournaled(j.(runtime := s)).Pass?
    {
      var s := SetJournalOutput(j.runtime, task, status, values);
      ContextKeeps(j.runtime, task, Slot(s, task).context);
      SameBrokerKeeps(j, s);
      JournalInvValidates(j.(runtime := s));
    }
  }

  lemma OtherJournals(j: Journaled, task: u64, after: RuntimeState, outcome: TrapOutcome)
    requires JournaledRuns(j, task) && Lands(j.runtime, task, Ok((after, outcome)))
    requires Attached(after.sender) <==> Attached(j.runtime.sender)
    requires Attached(after.receiver) <==> Attached(j.runtime.receiver)
    requires after.broker == j.runtime.broker && after.effect == j.runtime.effect
    ensures JournaledLands(j, task, Sealed(j.(runtime := after), outcome))
  {
    hide Inv, Scan, LiveInv;
    RunsNotDead(j, task);
    SameBrokerKeeps(j, after);
    SealedLands(j, task, j.(runtime := after), outcome);
  }

  lemma SubmitTrapLands(j: Journaled, task: u64)
    requires JournaledRuns(j, task) && Slot(j.runtime, task).context.rax == 7
    ensures JournaledLands(j, task, HandleJournaledTrap(j, task))
  {
    hide Inv, JournalInv, JournaledLands, Lands, Sealed, JournalSubmit, SubmitApproval, SubmitStatus, Validate;
    var i := Slot(j.runtime, task).context;
    TrapLands(j.runtime, task);
    TrapKeepsAttached(j.runtime, task);
    TrapIsOperation(j.runtime, task);
    LandsOk(j.runtime, task);
    SubmitMove(j.runtime, task, i.rdi, i.rsi, i.rdx);
    var (after, outcome) := HandleTrap(j.runtime, task).value;
    if SubmitStatus(j.runtime, task, i.rdi, i.rsi).Pass? {
      SubmitJournals(j, task, after, outcome);
    } else {
      OtherJournals(j, task, after, outcome);
    }
  }

  lemma DecideTrapLands(j: Journaled, task: u64)
    requires JournaledRuns(j, task) && Slot(j.runtime, task).context.rax == 9
    ensures JournaledLands(j, task, HandleJournaledTrap(j, task))
  {
    hide Inv, JournaledLands, Lands, Sealed, JournalDecision, DecideApproval, DecideStatus, Validate, Scan, LiveInv;
    var i := Slot(j.runtime, task).context;
    RunsNotDead(j, task);
    RequestPresence(j.runtime);
    TrapLands(j.runtime, task);
    TrapKeepsAttached(j.runtime, task);
    TrapIsOperation(j.runtime, task);
    LandsOk(j.runtime, task);
    DecideMove(j.runtime, task, i.rdi, i.rsi, i.rdx);
    var (after, outcome) := HandleTrap(j.runtime, task).value;
    if DecideStatus(j.runtime, task, i.rdi, i.rsi, i.rdx).Pass? {
      DecisionJournals(j, task, i.rdx, after, outcome);
    } else {
      OtherJournals(j, task, after, outcome);
    }
  }

  lemma CommitTrapLands(j: Journaled, task: u64)
    requires JournaledRuns(j, task) && Slot(j.runtime, task).context.rax == 10
    ensures JournaledLands(j, task, HandleJournaledTrap(j, task))
  {
    hide Inv, JournalInv, JournaledLands, Lands, Sealed, JournalCompleted, JournalFailed, CommitStatus, Validate;
    var i := Slot(j.runtime, task).context;
    TrapLands(j.runtime, task);
    TrapKeepsAttached(j.runtime, task);
    TrapIsOperation(j.runtime, task);
    LandsOk(j.runtime, task);
    CommitMove(j.runtime, task, i.rdi, i.rsi, i.rdx);
    var (after, outcome) := HandleTrap(j.runtime, task).value;
    var check := CommitStatus(j.runtime, task, i.rdi, i.rsi, i.rdx);
    if check.Pass? {
      CompletedJournals(j, task, after, outcome);
    } else if check.error == EffectUnavailable {
      FailedJournals(j, task, after);
    } else {
      OtherJournals(j, task, after, outcome);
    }
  }

  lemma LandsOk(s: RuntimeState, task: u64)
    requires Lands(s, task, HandleTrap(s, task)) && Runs(s, task)
    ensures HandleTrap(s, task).Ok? && RunningTask(s) == Ok(task)
    ensures Lands(s, task, Ok((HandleTrap(s, task).value.0, HandleTrap(s, task).value.1)))
  {
    hide HandleTrap, SlotInv, QueueInv, CooperativeInv, SupervisedInv;
  }

  lemma TrapIsOperation(s: RuntimeState, task: u64)
    requires Runs(s, task) && RunningTask(s) == Ok(task)
    ensures var i := Slot(s, task).context;
            && (i.rax == 7 ==> HandleTrap(s, task) == SubmitApproval(s, task, i.rdi, i.rsi, i.rdx))
            && (i.rax == 9 ==> HandleTrap(s, task) == DecideApproval(s, task, i.rdi, i.rsi, i.rdx))
            && (i.rax == 10 ==> HandleTrap(s, task) == CommitEffect(s, task, i.rdi, i.rsi, i.rdx))
  {
    hide Inv, SubmitApproval, DecideApproval, CommitEffect;
  }

  /** Any trap of the journaled runtime succeeds, keeps the invariant and at most appends one record. */
  lemma JournaledTrapLands(j: Journaled, task: u64)
    requires JournaledRuns(j, task)
    ensures JournaledLands(j, task, HandleJournaledTrap(j, task))
  {
    hide Inv, JournalInv, JournaledLands, Lands, Sealed, HandleJournalRead, HandleTrap;
    var rax := Slot(j.runtime, task).context.rax;
    TrapLands(j.runtime, task);
    LandsOk(j.runtime, task);
    if rax == 7 {
      SubmitTrapLands(j, task);
    } else if rax == 9 {
      DecideTrapLands(j, task);
    } else if rax == 10 {
      CommitTrapLands(j, task);
    } else if rax == 11 || rax == 12 {
      ReadLands(j, task);
    } else {
      TrapKeepsAttached(j.runtime, task);
      OtherMove(j.runtime, task);
      OtherJournals(j, task, HandleTrap(j.runtime, task).value.0, HandleTrap(j.runtime, task).value.1);
    }
  }
}
