/**
 Redaction as a property of two runs: rename the arguments of every submit and commit
 injectively, and no status, no scheduling decision and no journal record changes.
 */
module Redaction {
  import opened Words
  import opened TrapAbi
  import opened Capability
  import opened Runtime
  import opened RuntimeInvariant
  import opened RuntimeProgress
  import opened KernelDrive
  import opened Journal
  import opened Lifecycle
  import opened JournalInvariant
  import opened JournalProgress
  import opened JournalDrive

  type Renaming = u64 -> u64

  ghost predicate Injective(f: Renaming) {
    forall x: u64, y: u64 :: f(x) == f(y) ==> x == y
  }

  /** Rename the argument register of submits and commits; leave every other trap alone. */
  function Rename(f: Renaming, frame: TrapFrame): TrapFrame {
    if frame.rax == 7 || frame.rax == 10 then frame.(rdx := f(frame.rdx)) else frame
  }

  function RenameAll(f: Renaming, frames: seq<TrapFrame>): seq<TrapFrame> {
    seq(|frames|, i requires 0 <= i < |frames| => Rename(f, frames[i]))
  }

  /** The same but for the value register. */
  predicate SameButValue(a: TaskSlot, b: TaskSlot) {
    b == a.(context := a.context.(rdx := b.context.rdx))
  }

  /** Two states that differ only in value registers, the held argument and the written value. */
  predicate Related(f: Renaming, s: RuntimeState, t: RuntimeState) {
    && SameButValue(s.sender, t.sender) && SameButValue(s.receiver, t.receiver)
    && t.profile == s.profile && t.queue == s.queue && t.endpoint == s.endpoint && t.manifest == s.manifest
    && t.broker == s.broker.(request := s.broker.request.(argument := t.broker.request.argument))
    && t.effect == s.effect.(value := t.effect.value)
    && (s.broker.requestPresent ==> t.broker.request.argument == f(s.broker.request.argument))
    && (!s.broker.requestPresent ==> t.broker == s.broker)
  }

  /** The caller's captured registers agree, up to the renaming of a submit or commit argument. */
  predicate SameTrap(f: Renaming, s: RuntimeState, t: RuntimeState, task: u64)
    requires IsTask(task)
  {
    var a := Slot(s, task).context;
    var b := Slot(t, task).context;
    b.rdx == (if a.rax == 7 || a.rax == 10 then f(a.rdx) else a.rdx)
  }

  predicate RelatedStep(f: Renaming, r: Transition, q: Transition) {
    r.Ok? && q.Ok? ==> r.value.1 == q.value.1 && Related(f, r.value.0, q.value.0)
  }

  lemma SubmitRelated(f: Renaming, s: RuntimeState, t: RuntimeState, task: u64, handle: u64, kind: u64, argument: u64)
    requires IsTask(task) && Related(f, s, t)
    ensures RelatedStep(f, SubmitApproval(s, task, handle, kind, argument),
                        SubmitApproval(t, task, handle, kind, f(argument)))
  {
    hide Validate, ResolveTyped;
  }

  lemma DecideStatusRelated(
    f: Renaming, s: RuntimeState, t: RuntimeState, task: u64, handle: u64, sequence: u64, decision: u64)
    requires IsTask(task) && Related(f, s, t)
    ensures DecideStatus(s, task, handle, sequence, decision) == DecideStatus(t, task, handle, sequence, decision)
  {
    hide ResolveTyped;
  }

  predicate RelatedStates(f: Renaming, r: Result<RuntimeState, RuntimeError>, q: Result<RuntimeState, RuntimeError>) {
    r.Ok? == q.Ok? && (r.Ok? ==> Related(f, r.value, q.value))
  }

  lemma WakeRelated(f: Renaming, s: RuntimeState, t: RuntimeState, status: TrapStatus, value: u64)
    requires Related(f, s, t)
    ensures RelatedStates(f, WakeWorkload(s, status, value), WakeWorkload(t, status, value))
  {
    hide Push;
    var a := SetState(SetResult(s, RECEIVER_TASK_ID, status, value), RECEIVER_TASK_ID, Ready);
    var b := SetState(SetResult(t, RECEIVER_TASK_ID, status, value), RECEIVER_TASK_ID, Ready);
    assert Related(f, a, b);
  }

  lemma ExhaustionRelated(f: Renaming, s: RuntimeState, t: RuntimeState)
    requires Related(f, s, t)
    ensures RelatedStates(f, FailBrokerEpochExhaustion(s), FailBrokerEpochExhaustion(t))
  {
    hide WakeWorkload;
    WakeRelated(f, s, t, BrokerUnavailable, 0);
  }

  lemma FinishRelated(f: Renaming, s: RuntimeState, t: RuntimeState, task: u64, status: TrapStatus, value: u64)
    requires IsTask(task) && Related(f, s, t)
    ensures RelatedStep(f, Finish(s, task, status, value), Finish(t, task, status, value))
  {
    hide Validate;
  }

  lemma DecideRelated(f: Renaming, s: RuntimeState, t: RuntimeState, task: u64, handle: u64, sequence: u64,
      decision: u64)
    requires IsTask(task) && Related(f, s, t)
    ensures RelatedStep(f, DecideApproval(s, task, handle, sequence, decision),
                        DecideApproval(t, task, handle, sequence, decision))
  {
    hide DecideStatus, WakeWorkload, FailBrokerEpochExhaustion, Finish;
    DecideStatusRelated(f, s, t, task, handle, sequence, decision);
    var check := DecideStatus(s, task, handle, sequence, decision);
    if check.Fail? {
      FinishRelated(f, s, t, task, check.error, 0);
    } else if s.broker.decisionEpoch == U64_MAX
              || (decision == DECISION_APPROVE && s.broker.decisionEpoch + 1 == U64_MAX) {
      ExhaustionRelated(f, s, t);
      var r, q := FailBrokerEpochExhaustion(s), FailBrokerEpochExhaustion(t);
      if r.Ok? { FinishRelated(f, r.value, q.value, task, BrokerUnavailable, 0); }
    } else {
      DecidedRelated(f, s, t, task, decision);
    }
  }

  /** The broker that a decision leaves, approved or cleared. */
  function Decided(b: Broker, decision: u64): Broker
    requires b.decisionEpoch < U64_MAX && (decision == DECISION_APPROVE ==> b.decisionEpoch + 1 < U64_MAX)
  {
    var epoch := b.decisionEpoch + 1;
    if decision == DECISION_APPROVE then
      b.(state := BrokerApproved, decisionEpoch := epoch, approvalEpoch := epoch, expiryEpoch := epoch + 1)
    else b.ClearRequest().(state := BrokerEmpty, decisionEpoch := epoch)
  }

  lemma DecidedRelated(f: Renaming, s: RuntimeState, t: RuntimeState, task: u64, decision: u64)
    requires IsTask(task) && Related(f, s, t)
    requires s.broker.decisionEpoch < U64_MAX && (decision == DECISION_APPROVE ==> s.broker.decisionEpoch + 1 < U64_MAX)
    ensures var a, b := s.(broker := Decided(s.broker, decision)), t.(broker := Decided(t.broker, decision));
            var status := if decision == DECISION_DENY then ApprovalDenied else ApprovalExpired;
            && RelatedStep(f, Finish(a, task, StatusOk, 0), Finish(b, task, StatusOk, 0))
            && var r, q := WakeWorkload(a, status, 0), WakeWorkload(b, status, 0);
               && RelatedStates(f, r, q)
               && (r.Ok? ==> RelatedStep(f, Finish(r.value, task, StatusOk, 0), Finish(q.value, task, StatusOk, 0)))
  {
    hide WakeWorkload, Finish;
    var a, b := s.(broker := Decided(s.broker, decision)), t.(broker := Decided(t.broker, decision));
    var status := if decision == DECISION_DENY then ApprovalDenied else ApprovalExpired;
    assert Related(f, a, b);
    FinishRelated(f, a, b, task, StatusOk, 0);
    WakeRelated(f, a, b, status, 0);
    var r, q := WakeWorkload(a, status, 0), WakeWorkload(b, status, 0);
    if r.Ok? { FinishRelated(f, r.value, q.value, task, StatusOk, 0); }
  }

  /** Injectivity is what makes the renamed commit match exactly when the original does. */
  lemma CommitRelated(f: Renaming, s: RuntimeState, t: RuntimeState, task: u64, handle: u64, sequence: u64,
      argument: u64)
    requires IsTask(task) && Related(f, s, t) && Injective(f)
    ensures RelatedStep(f, CommitEffect(s, task, handle, sequence, argument),
                        CommitEffect(t, task, handle, sequence, f(argument)))
  {
    hide Validate, ResolveTyped;
    assert CommitStatus(s, task, handle, sequence, argument) == CommitStatus(t, task, handle, sequence, f(argument));
    hide CommitStatus;
  }

  lemma SendRelated(f: Renaming, s: RuntimeState, t: RuntimeState, task: u64, handle: u64, message: u64, reserved: u64)
    requires IsTask(task) && Related(f, s, t)
    ensures RelatedStep(f, Send(s, task, handle, message, reserved), Send(t, task, handle, message, reserved))
  {
    SendStatusRelated(f, s, t, task, handle, reserved);
    hide Validate, SendStatus;
  }

  lemma SendStatusRelated(f: Renaming, s: RuntimeState, t: RuntimeState, task: u64, handle: u64, reserved: u64)
    requires IsTask(task) && Related(f, s, t)
    ensures SendStatus(s, task, handle, reserved) == SendStatus(t, task, handle, reserved)
  {
    hide ResolveTyped;
  }

  lemma ReceiveRelated(f: Renaming, s: RuntimeState, t: RuntimeState, task: u64, handle: u64, message: u64,
      reserved: u64)
    requires IsTask(task) && Related(f, s, t)
    ensures RelatedStep(f, Receive(s, task, handle, message, reserved), Receive(t, task, handle, message, reserved))
  {
    hide Validate, ResolveTyped;
  }

  lemma DuplicateTrapRelated(f: Renaming, s: RuntimeState, t: RuntimeState, task: u64, source: u64, requested: u64,
      reserved: u64)
    requires IsTask(task) && Related(f, s, t)
    ensures RelatedStep(f, DuplicateTrap(s, task, source, requested, reserved),
            DuplicateTrap(t, task, source, requested, reserved))
  {
    hide Validate, Duplicate;
  }

  lemma CloseTrapRelated(f: Renaming, s: RuntimeState, t: RuntimeState, task: u64, handle: u64, rights: u64,
      reserved: u64)
    requires IsTask(task) && Related(f, s, t)
    ensures RelatedStep(f, CloseTrap(s, task, handle, rights, reserved), CloseTrap(t, task, handle, rights, reserved))
  {
    hide Validate, Close;
  }

  lemma StartWorkloadRelated(f: Renaming, s: RuntimeState, t: RuntimeState, task: u64, handle: u64, manifestId: u64,
      reserved: u64)
    requires IsTask(task) && Related(f, s, t)
    ensures RelatedStep(f, StartWorkload(s, task, handle, manifestId, reserved),
            StartWorkload(t, task, handle, manifestId, reserved))
  {
    hide Validate, ResolveTyped, InstallBuilding, FirstFree;
  }

  lemma InspectApprovalRelated(f: Renaming, s: RuntimeState, t: RuntimeState, task: u64, handle: u64, kind: u64,
      argument: u64)
    requires IsTask(task) && Related(f, s, t)
    ensures RelatedStep(f, InspectApproval(s, task, handle, kind, argument),
            InspectApproval(t, task, handle, kind, argument))
  {
    hide Validate, ResolveTyped;
  }

  lemma YieldExitRelated(f: Renaming, s: RuntimeState, t: RuntimeState, task: u64, i: TaskContext, k: TaskContext)
    requires IsTask(task) && Related(f, s, t) && k.rdi == i.rdi && k.rsi == i.rsi && k.rdx == i.rdx
    ensures RelatedStep(f, Yield(s, task, i), Yield(t, task, k))
    ensures RelatedStep(f, ExitTrap(s, task, i), ExitTrap(t, task, k))
  {
    hide Validate;
  }

  lemma PlainRelated(f: Renaming, s: RuntimeState, t: RuntimeState, task: u64)
    requires IsTask(task) && Related(f, s, t)
    ensures RelatedStep(f, Refuse(s, task, InvalidOperation), Refuse(t, task, InvalidOperation))
    ensures RelatedStep(f, Finish(s, task, InvalidOperation, 0), Finish(t, task, InvalidOperation, 0))
  {
    hide Validate;
  }

  /** What related states agree on. */
  lemma RelatedAgree(f: Renaming, s: RuntimeState, t: RuntimeState, task: u64)
    requires IsTask(task) && Related(f, s, t)
    ensures RunningTask(s) == RunningTask(t)
    ensures s.broker.state == t.broker.state && s.broker.requestPresent == t.broker.requestPresent
    ensures Slot(s, task).context.rax == Slot(t, task).context.rax
    ensures Slot(s, task).context.rdi == Slot(t, task).context.rdi
    ensures Slot(s, task).context.rsi == Slot(t, task).context.rsi
  {
  }

  lemma OthersRelated(f: Renaming, s: RuntimeState, t: RuntimeState, task: u64)
    requires IsTask(task) && Related(f, s, t) && SameTrap(f, s, t, task)
    requires var rax := Slot(s, task).context.rax; rax != 7 && rax != 9 && rax != 10
    ensures RelatedStep(f, HandleTrap(s, task), HandleTrap(t, task))
  {
    hide Related, Yield, Send, Receive, ExitTrap, DuplicateTrap, CloseTrap, StartWorkload, SubmitApproval,
      InspectApproval, DecideApproval, CommitEffect, Refuse, Finish, RunningTask;
    RelatedAgree(f, s, t, task);
    var i := Slot(s, task).context;
    YieldExitRelated(f, s, t, task, i, Slot(t, task).context);
    SendRelated(f, s, t, task, i.rdi, i.rsi, i.rdx);
    ReceiveRelated(f, s, t, task, i.rdi, i.rsi, i.rdx);
    DuplicateTrapRelated(f, s, t, task, i.rdi, i.rsi, i.rdx);
    CloseTrapRelated(f, s, t, task, i.rdi, i.rsi, i.rdx);
    StartWorkloadRelated(f, s, t, task, i.rdi, i.rsi, i.rdx);
    InspectApprovalRelated(f, s, t, task, i.rdi, i.rsi, i.rdx);
    PlainRelated(f, s, t, task);
  }

  lemma TrapRelated(f: Renaming, s: RuntimeState, t: RuntimeState, task: u64)
    requires Related(f, s, t) && Injective(f) && Runs(s, task) && Runs(t, task) && SameTrap(f, s, t, task)
    ensures RelatedStep(f, HandleTrap(s, task), HandleTrap(t, task))
  {
    hide Inv, Validate, HandleTrap, SubmitApproval, DecideApproval, CommitEffect;
    RunsIsRunning(s, task);
    RunsIsRunning(t, task);
    TrapIsOperation(s, task);
    TrapIsOperation(t, task);
    var i := Slot(s, task).context;
    if i.rax == 7 {
      SubmitRelated(f, s, t, task, i.rdi, i.rsi, i.rdx);
    } else if i.rax == 9 {
      DecideRelated(f, s, t, task, i.rdi, i.rsi, i.rdx);
    } else if i.rax == 10 {
      CommitRelated(f, s, t, task, i.rdi, i.rsi, i.rdx);
    } else {
      OthersRelated(f, s, t, task);
    }
  }

  // The journaling wrapper -----------------------------------------------------

  predicate JournalsRelated(f: Renaming, j: Journaled, k: Journaled) {
    Related(f, j.runtime, k.runtime) && k.journal == j.journal
  }

  predicate JournaledRelatedStep(f: Renaming, r: JournaledTransition, q: JournaledTransition) {
    r.Ok? && q.Ok? ==> r.value.1 == q.value.1 && JournalsRelated(f, r.value.0, q.value.0)
  }

  lemma SubmitJournalRelated(
    f: Renaming, j: Journaled, k: Journaled, s: RuntimeState, t: RuntimeState, task: u64, outcome: TrapOutcome)
    requires IsTask(task) && JournalsRelated(f, j, k) && Related(f, s, t)
    ensures JournaledRelatedStep(f, JournalSubmit(j, s, task, outcome), JournalSubmit(k, t, task, outcome))
  {
    hide ValidateJournaled, BeginLifecycle;
  }

  lemma DecisionJournalRelated(
    f: Renaming, j: Journaled, k: Journaled, s: RuntimeState, t: RuntimeState, decision: u64, outcome: TrapOutcome)
    requires JournalsRelated(f, j, k) && Related(f, s, t)
    ensures JournaledRelatedStep(f, JournalDecision(j, s, decision, outcome), JournalDecision(k, t, decision, outcome))
    ensures JournaledRelatedStep(f, JournalCompleted(j, s, outcome), JournalCompleted(k, t, outcome))
  {
    hide ValidateJournaled, AppendReserved;
  }

  lemma FailedJournalRelated(
    f: Renaming, j: Journaled, k: Journaled, s: RuntimeState, t: RuntimeState, task: u64, outcome: TrapOutcome)
    requires IsTask(task) && JournalsRelated(f, j, k) && Related(f, s, t)
    ensures JournaledRelatedStep(f, JournalFailed(j, s, task, outcome), JournalFailed(k, t, task, outcome))
  {
    hide ValidateJournaled, AppendReserved;
  }

  lemma ReadRelated(f: Renaming, j: Journaled, k: Journaled, task: u64, i: TaskContext, i': TaskContext)
    requires IsTask(task) && JournalsRelated(f, j, k)
    requires i'.rax == i.rax && i'.rdi == i.rdi && i'.rsi == i.rsi && i'.rdx == i.rdx
    ensures JournaledRelatedStep(f, HandleJournalRead(j, task, i), HandleJournalRead(k, task, i'))
  {
    hide ValidateJournaled, ResolveTyped, ReadTriplet;
  }

  lemma JournaledTrapRelated(f: Renaming, j: Journaled, k: Journaled, task: u64)
    requires JournalsRelated(f, j, k) && Injective(f) && JournaledRuns(j, task) && JournaledRuns(k, task)
    requires SameTrap(f, j.runtime, k.runtime, task)
    ensures JournaledRelatedStep(f, HandleJournaledTrap(j, task), HandleJournaledTrap(k, task))
  {
    hide Inv, JournalInv, Related, HandleTrap, HandleJournalRead, JournalSubmit, JournalDecision, JournalCompleted,
      JournalFailed, ValidateJournaled, RunningTask;
    RelatedAgree(f, j.runtime, k.runtime, task);
    var i := Slot(j.runtime, task).context;
    if i.rax == 11 || i.rax == 12 {
      ReadRelated(f, j, k, task, i, Slot(k.runtime, task).context);
    } else {
      TrapLands(j.runtime, task);
      TrapLands(k.runtime, task);
      TrapRelated(f, j.runtime, k.runtime, task);
      var (s, outcome) := HandleTrap(j.runtime, task).value;
      var t := HandleTrap(k.runtime, task).value.0;
      RelatedAgree(f, s, t, task);
      SubmitJournalRelated(f, j, k, s, t, task, outcome);
      DecisionJournalRelated(f, j, k, s, t, i.rdx, outcome);
      FailedJournalRelated(f, j, k, s, t, task, outcome);
    }
  }

  // Teardown and whole runs ------------------------------------------------------

  lemma DetachSupervisedRelated(f: Renaming, s: RuntimeState, t: RuntimeState, task: u64)
    requires Related(f, s, t) && IsTask(task) && DetachSupervised(s, task).Ok? && DetachSupervised(t, task).Ok?
    ensures Related(f, DetachSupervised(s, task).value, DetachSupervised(t, task).value)
  {
  }

  lemma DetachCooperativeRelated(f: Renaming, s: RuntimeState, t: RuntimeState, task: u64)
    requires Related(f, s, t) && IsTask(task) && DetachCooperative(s, task).Ok? && DetachCooperative(t, task).Ok?
    ensures Related(f, DetachCooperative(s, task).value, DetachCooperative(t, task).value)
  {
  }

  lemma BeginRelated(f: Renaming, s: RuntimeState, t: RuntimeState, task: u64)
    requires Related(f, s, t) && BeginTeardown(s, task).Ok? && BeginTeardown(t, task).Ok?
    ensures Related(f, BeginTeardown(s, task).value, BeginTeardown(t, task).value)
  {
    hide Validate, CloseTable, DetachSupervised, DetachCooperative;
    var a := WithSlot(s, task, Slot(s, task).(capabilities := CloseTable(Slot(s, task).capabilities)));
    var b := WithSlot(t, task, Slot(t, task).(capabilities := CloseTable(Slot(t, task).capabilities)));
    if s.profile == Supervised {
      DetachSupervisedRelated(f, a, b, task);
    } else {
      DetachCooperativeRelated(f, a, b, task);
    }
  }

  lemma CompleteRelated(f: Renaming, s: RuntimeState, t: RuntimeState, task: u64)
    requires Related(f, s, t) && CompleteTeardown(s, task).Ok? && CompleteTeardown(t, task).Ok?
    ensures CompleteTeardown(s, task).value.1 == CompleteTeardown(t, task).value.1
    ensures Related(f, CompleteTeardown(s, task).value.0, CompleteTeardown(t, task).value.0)
  {
    hide Validate, NoEntries;
  }

  lemma SealRelated(f: Renaming, j: Journaled, k: Journaled)
    requires JournalsRelated(f, j, k) && SealForTeardown(j).Ok? && SealForTeardown(k).Ok?
    ensures JournalsRelated(f, SealForTeardown(j).value, SealForTeardown(k).value)
  {
    hide AppendReserved;
  }

  lemma TeardownRelated(f: Renaming, j: Journaled, k: Journaled, task: u64)
    requires JournalsRelated(f, j, k) && JournalInv(j) && JournalInv(k)
    requires j.journal.state != JournalDead && Leaving(j.runtime, task) && Leaving(k.runtime, task)
    ensures var a := TeardownJournaled(j, task);
            var b := TeardownJournaled(k, task);
            a.phase == b.phase && JournalsRelated(f, a.state, b.state)
  {
    hide Inv, Related, SealForTeardown, BeginTeardown, CompleteTeardown, ValidateJournaled, NoEntries, Scan,
      EpochsSound, LiveInv, Grows;
    SealLands(j);
    SealLands(k);
    SealRelated(f, j, k);
    BeginJournaledLands(j, task);
    BeginJournaledLands(k, task);
    BeginRelated(f, SealForTeardown(j).value.runtime, SealForTeardown(k).value.runtime, task);
    var begun := BeginJournaledTeardown(j, task).value;
    var begun' := BeginJournaledTeardown(k, task).value;
    TeardownJournaledProgress(j, task);
    TeardownJournaledProgress(k, task);
    CompleteJournaledLands(begun, task);
    CompleteJournaledLands(begun', task);
    RelatedFacts(f, begun.runtime, begun'.runtime, task);
    if CompleteTeardown(begun.runtime, task).Ok? && CompleteTeardown(begun'.runtime, task).Ok? {
      CompleteRelated(f, begun.runtime, begun'.runtime, task);
      var r := CompleteJournaledTeardown(begun, task);
      var q := CompleteJournaledTeardown(begun', task);
      if r.Ok? && r.value.1.Some? {
        RunsIsRunningJournaled(r.value.0, r.value.1.value);
        RunsIsRunningJournaled(q.value.0, r.value.1.value);
      }
    }
  }

  lemma RelatedFacts(f: Renaming, s: RuntimeState, t: RuntimeState, task: u64)
    requires Related(f, s, t) && IsTask(task)
    ensures Stranded(s, task) <==> Stranded(t, task)
    ensures Slot(s, task).capabilities == Slot(t, task).capabilities
  {
  }

  lemma CaptureRelated(f: Renaming, s: RuntimeState, t: RuntimeState, task: u64, frame: TrapFrame)
    requires Related(f, s, t) && Runs(s, task) && Runs(t, task)
    ensures var a := Captured(s, task, frame);
            var b := Captured(t, task, Rename(f, frame));
            && a.Ok? && b.Ok? && Related(f, a.value, b.value) && SameTrap(f, a.value, b.value, task)
  {
    hide Inv;
    CaptureKeeps(s, task, frame);
    CaptureKeeps(t, task, Rename(f, frame));
  }

  lemma DriveRelated(f: Renaming, m: JournaledMachine, n: JournaledMachine, frame: TrapFrame)
    requires Injective(f) && JournaledMachineInv(m) && JournaledMachineInv(n)
    requires m.phase == n.phase && JournalsRelated(f, m.state, n.state)
    ensures var a := DriveJournaled(m, frame);
            var b := DriveJournaled(n, Rename(f, frame));
            a.phase == b.phase && JournalsRelated(f, a.state, b.state)
  {
    hide Inv, JournalInv, Related, HandleJournaledTrap, TeardownJournaled, CaptureTrap, Rename;
    if m.phase.OnCpu? {
      var task := m.phase.task;
      RunsIsRunning(m.state.runtime, task);
      RunsIsRunning(n.state.runtime, task);
      CaptureJournaled(m.state, task, frame);
      CaptureJournaled(n.state, task, Rename(f, frame));
      CaptureRelated(f, m.state.runtime, n.state.runtime, task, frame);
      var j := m.state.(runtime := Captured(m.state.runtime, task, frame).value);
      var k := n.state.(runtime := Captured(n.state.runtime, task, Rename(f, frame)).value);
      JournaledTrapLands(j, task);
      JournaledTrapLands(k, task);
      JournaledTrapRelated(f, j, k, task);
      var (next, outcome) := HandleJournaledTrap(j, task).value;
      var next' := HandleJournaledTrap(k, task).value.0;
      if outcome.Exit? {
        StillJournaling(next);
        TeardownRelated(f, next, next', task);
      } else {
        RunsIsRunningJournaled(next, outcome.task);
        RunsIsRunningJournaled(next', outcome.task);
      }
    }
  }

  /**
   Over any whole run, renaming every submitted and committed argument injectively
   changes neither the phase, nor any saved status, nor a single journal record.
   */
  lemma {:induction false} ArgumentsAreRedacted(f: Renaming, m: JournaledMachine, frames: seq<TrapFrame>)
    requires Injective(f) && JournaledMachineInv(m) && !m.state.runtime.broker.requestPresent
    ensures var a := RunJournaled(m, frames);
            var b := RunJournaled(m, RenameAll(f, frames));
            && a.phase == b.phase
            && a.state.journal == b.state.journal
            && a.state.runtime.sender.context.rax == b.state.runtime.sender.context.rax
            && a.state.runtime.receiver.context.rax == b.state.runtime.receiver.context.rax
            && Related(f, a.state.runtime, b.state.runtime)
    decreases |frames|
  {
    hide JournalInv, DriveJournaled;
    if frames != [] {
      var k := |frames| - 1;
      var renamed := RenameAll(f, frames);
      assert renamed[..k] == RenameAll(f, frames[..k]);
      ArgumentsAreRedacted(f, m, frames[..k]);
      RunJournaledProgress(m, frames[..k]);
      RunJournaledProgress(m, renamed[..k]);
      DriveRelated(f, RunJournaled(m, frames[..k]), RunJournaled(m, renamed[..k]), frames[k]);
    }
  }

  /** The same for every run of a freshly built journaled runtime. */
  lemma {:induction false} JournaledRunsAreRedacted(f: Renaming, supervisor: TaskContext, workload: TaskContext,
      frames: seq<TrapFrame>)
    requires Injective(f) && NewJournaled(supervisor, workload).Ok?
    ensures var m := BootJournaled(NewJournaled(supervisor, workload));
            var a := RunJournaled(m, frames);
            var b := RunJournaled(m, RenameAll(f, frames));
            && a.phase == b.phase && a.state.journal == b.state.journal
            && a.state.runtime.sender.context.rax == b.state.runtime.sender.context.rax
            && a.state.runtime.receiver.context.rax == b.state.runtime.receiver.context.rax
  {
    var created := NewJournaled(supervisor, workload);
    NewJournaledInv(supervisor, workload);
    BootJournaledInv(supervisor, workload);
    DispatchLands(created.value.runtime);
    DispatchKeepsRest(created.value.runtime);
    ArgumentsAreRedacted(f, BootJournaled(created), frames);
  }
}
