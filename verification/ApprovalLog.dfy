/**
 Approvals over whole runs, told from what the two tasks observe: a submit is accepted
 when the caller is parked, a decision or a commit when its trap returns Ok.
 */
module ApprovalLog {
  import opened Words
  import opened TrapAbi
  import opened Capability
  import opened Runtime
  import opened RuntimeInvariant
  import opened RuntimeProgress
  import opened KernelDrive
  import opened Waiting
  import opened BrokerMoves
  import opened Journal
  import opened Lifecycle
  import opened JournalInvariant
  import opened JournalProgress
  import opened JournalDrive

  datatype ApprovalEvent =
    | SubmitEvent(sequence: u64, argument: u64)
    | DecideEvent(sequence: u64, decision: u64)
    | CommitEvent(sequence: u64, argument: u64)

  /** The approval event of a trap from `s` to `s'`, if it was accepted. */
  function EventOf(s: RuntimeState, task: u64, s': RuntimeState, outcome: TrapOutcome): seq<ApprovalEvent>
    requires IsTask(task)
  {
    var i := Slot(s, task).context;
    if i.rax == 7 && outcome.Switch? then [SubmitEvent(s.broker.nextSequence, i.rdx)]
    else if Slot(s', task).context.rax != StatusOk.Code() then []
    else if i.rax == 9 then [DecideEvent(i.rsi, i.rdx)]
    else if i.rax == 10 then [CommitEvent(i.rsi, i.rdx)]
    else []
  }

  predicate NoCommit(log: seq<ApprovalEvent>) {
    forall k :: 0 <= k < |log| ==> !log[k].CommitEvent?
  }

  /** Commit `k` directly follows the approval, which directly follows the submit, of that same pair. */
  predicate Justified(log: seq<ApprovalEvent>, k: int)
    requires 0 <= k < |log| && log[k].CommitEvent?
  {
    && k >= 2
    && log[k - 1] == DecideEvent(log[k].sequence, DECISION_APPROVE)
    && log[k - 2] == SubmitEvent(log[k].sequence, log[k].argument)
  }

  predicate SingleUse(log: seq<ApprovalEvent>) {
    && (forall k :: 0 <= k < |log| && log[k].CommitEvent? ==> Justified(log, k))
    && (forall i, k :: 0 <= i < k < |log| ==> !(log[i].CommitEvent? && log[k].CommitEvent?))
  }

  /** The log ends with what the broker is holding. */
  predicate Tracks(log: seq<ApprovalEvent>, s: RuntimeState) {
    var n := |log|;
    var r := s.broker.request;
    && (s.broker.state == BrokerPending ==> n >= 1 && log[n - 1] == SubmitEvent(r.sequence, r.argument))
    && (s.broker.state == BrokerApproved ==>
          && n >= 2 && log[n - 2] == SubmitEvent(r.sequence, r.argument)
          && log[n - 1] == DecideEvent(r.sequence, DECISION_APPROVE))
    && (Attached(s.sender) && !s.effect.occupied ==> NoCommit(log))
    && (Attached(s.sender) && s.effect.occupied ==> Wrote(log, s.effect.value))
  }

  /** Some commit in the log wrote `value`. */
  predicate Wrote(log: seq<ApprovalEvent>, value: u64) {
    exists k :: 0 <= k < |log| && log[k].CommitEvent? && log[k].argument == value
  }

  lemma WroteGrows(log: seq<ApprovalEvent>, e: ApprovalEvent, value: u64)
    ensures Wrote(log, value) ==> Wrote(log + [e], value)
    ensures e.CommitEvent? && e.argument == value ==> Wrote(log + [e], value)
  {
    var all := log + [e];
    if Wrote(log, value) {
      var k :| 0 <= k < |log| && log[k].CommitEvent? && log[k].argument == value;
      assert all[k] == log[k];
    }
    assert all[|log|] == e;
  }

  predicate LogInv(log: seq<ApprovalEvent>, s: RuntimeState) {
    SingleUse(log) && Tracks(log, s)
  }

  lemma AppendPlain(log: seq<ApprovalEvent>, e: ApprovalEvent)
    requires SingleUse(log) && !e.CommitEvent?
    ensures SingleUse(log + [e]) && (NoCommit(log) ==> NoCommit(log + [e]))
  {
    var all := log + [e];
    forall k | 0 <= k < |all| && all[k].CommitEvent? ensures Justified(all, k) {
      assert Justified(log, k);
    }
  }

  lemma AppendCommit(log: seq<ApprovalEvent>, sequence: u64, argument: u64)
    requires SingleUse(log) && NoCommit(log) && |log| >= 2
    requires log[|log| - 1] == DecideEvent(sequence, DECISION_APPROVE)
    requires log[|log| - 2] == SubmitEvent(sequence, argument)
    ensures SingleUse(log + [CommitEvent(sequence, argument)])
  {
  }

  lemma SubmitLogged(log: seq<ApprovalEvent>, s: RuntimeState, task: u64)
    requires Runs(s, task) && LogInv(log, s) && Slot(s, task).context.rax == 7 && s.profile == Supervised
    ensures var r := HandleTrap(s, task);
            r.Ok? && LogInv(log + EventOf(s, task, r.value.0, r.value.1), r.value.0)
  {
    hide Inv, Validate, SubmitApproval, SubmitStatus, SingleUse, NoCommit, Wrote;
    var i := Slot(s, task).context;
    TrapLands(s, task);
    LandsOk(s, task);
    TrapIsOperation(s, task);
    TrapKeepsAttached(s, task);
    SubmitMove(s, task, i.rdi, i.rsi, i.rdx);
    SubmitOutcome(s, task, i.rdi, i.rsi, i.rdx);
    AppendPlain(log, SubmitEvent(s.broker.nextSequence, i.rdx));
    WroteGrows(log, SubmitEvent(s.broker.nextSequence, i.rdx), s.effect.value);
    assert log + [] == log;
  }

  lemma SubmitOutcome(s: RuntimeState, task: u64, handle: u64, kind: u64, argument: u64)
    requires IsTask(task) && SubmitApproval(s, task, handle, kind, argument).Ok?
    ensures SubmitApproval(s, task, handle, kind, argument).value.1.Switch?
            <==> SubmitStatus(s, task, handle, kind).Pass?
  {
    hide Validate, SubmitStatus;
  }

  lemma DecideLogged(log: seq<ApprovalEvent>, s: RuntimeState, task: u64)
    requires Runs(s, task) && LogInv(log, s) && Slot(s, task).context.rax == 9 && s.profile == Supervised
    ensures var r := HandleTrap(s, task);
            r.Ok? && LogInv(log + EventOf(s, task, r.value.0, r.value.1), r.value.0)
  {
    hide Inv, Validate, DecideApproval, DecideStatus, SingleUse, NoCommit, Wrote;
    var i := Slot(s, task).context;
    TrapLands(s, task);
    LandsOk(s, task);
    TrapIsOperation(s, task);
    TrapKeepsAttached(s, task);
    DecideMove(s, task, i.rdi, i.rsi, i.rdx);
    AppendPlain(log, DecideEvent(i.rsi, i.rdx));
    WroteGrows(log, DecideEvent(i.rsi, i.rdx), s.effect.value);
    assert log + [] == log;
  }

  lemma CommitLogged(log: seq<ApprovalEvent>, s: RuntimeState, task: u64)
    requires Runs(s, task) && LogInv(log, s) && Slot(s, task).context.rax == 10 && s.profile == Supervised
    ensures var r := HandleTrap(s, task);
            r.Ok? && LogInv(log + EventOf(s, task, r.value.0, r.value.1), r.value.0)
  {
    hide Inv, Validate, CommitEffect, CommitStatus, SingleUse, NoCommit, Wrote;
    var i := Slot(s, task).context;
    TrapLands(s, task);
    LandsOk(s, task);
    TrapIsOperation(s, task);
    TrapKeepsAttached(s, task);
    CommitMove(s, task, i.rdi, i.rsi, i.rdx);
    assert log + [] == log;
    if CommitStatus(s, task, i.rdi, i.rsi, i.rdx).Pass? {
      RunsAttachedNow(s, task);
      AppendCommit(log, i.rsi, i.rdx);
      WroteGrows(log, CommitEvent(i.rsi, i.rdx), i.rdx);
    }
  }

  lemma RunsAttachedNow(s: RuntimeState, task: u64)
    requires Runs(s, task)
    ensures Attached(Slot(s, task))
  {
  }

  /** One trap extends the log by what was observed and keeps it in step with the broker. */
  lemma TrapLogged(log: seq<ApprovalEvent>, s: RuntimeState, task: u64)
    requires Runs(s, task) && LogInv(log, s) && s.profile == Supervised
    ensures var r := HandleTrap(s, task);
            r.Ok? && LogInv(log + EventOf(s, task, r.value.0, r.value.1), r.value.0)
  {
    hide Inv, HandleTrap, SingleUse, NoCommit, Wrote;
    var rax := Slot(s, task).context.rax;
    if rax == 7 {
      SubmitLogged(log, s, task);
    } else if rax == 9 {
      DecideLogged(log, s, task);
    } else if rax == 10 {
      CommitLogged(log, s, task);
    } else {
      TrapLands(s, task);
      LandsOk(s, task);
      TrapKeepsAttached(s, task);
      OtherMove(s, task);
      assert log + [] == log;
    }
  }

  // Teardown -----------------------------------------------------------------

  /** Once a task has begun to leave, nothing is awaiting a decision and the effect is not rewritten. */
  predicate Settled(s: RuntimeState, s': RuntimeState) {
    && !Undecided(s'.broker)
    && (Attached(s'.sender) ==> Attached(s.sender) && s'.effect == s.effect)
  }

  lemma SettledTracks(log: seq<ApprovalEvent>, s: RuntimeState, s': RuntimeState)
    requires LogInv(log, s) && Settled(s, s')
    ensures LogInv(log, s')
  {
    hide SingleUse, NoCommit, Attached, Wrote;
  }

  lemma BeginSettles(s: RuntimeState, task: u64)
    requires IsTask(task) && s.profile == Supervised && BeginTeardown(s, task).Ok?
    ensures Settled(s, BeginTeardown(s, task).value) && BeginTeardown(s, task).value.profile == Supervised
  {
    hide Validate, CloseAllSlots;
  }

  lemma CompleteSettles(s: RuntimeState, task: u64)
    requires IsTask(task) && s.profile == Supervised && !Undecided(s.broker) && CompleteTeardown(s, task).Ok?
    ensures Settled(s, CompleteTeardown(s, task).value.0)
  {
    hide Validate, NoEntries;
  }

  // Runs of the supervised runtime ---------------------------------------------

  function Observed(m: Machine, frame: TrapFrame): seq<ApprovalEvent> {
    if m.phase.OnCpu? && IsTask(m.phase.task) && Captured(m.state, m.phase.task, frame).Ok? then
      var s := Captured(m.state, m.phase.task, frame).value;
      match HandleTrap(s, m.phase.task)
      case Ok((s', outcome)) => EventOf(s, m.phase.task, s', outcome)
      case Err(_) => []
    else []
  }

  function Log(m: Machine, frames: seq<TrapFrame>): seq<ApprovalEvent>
    decreases |frames|
  {
    if frames == [] then []
    else
      var k := |frames| - 1;
      Log(m, frames[..k]) + Observed(Run(m, frames[..k]), frames[k])
  }

  lemma TeardownLogged(log: seq<ApprovalEvent>, s: RuntimeState, task: u64)
    requires Leaving(s, task) && s.profile == Supervised && LogInv(log, s)
    ensures LogInv(log, TeardownExited(s, task).state)
  {
    hide Inv, BeginTeardown, CompleteTeardown, LogInv, NoEntries, Settled;
    BeginTeardownLands(s, task);
    BeginSettles(s, task);
    var begun := BeginTeardown(s, task).value;
    SettledTracks(log, s, begun);
    SettledFacts(s, begun);
    if CompleteTeardown(begun, task).Ok? {
      CompleteSettles(begun, task);
      SettledTracks(log, begun, CompleteTeardown(begun, task).value.0);
    }
  }

  lemma SettledFacts(s: RuntimeState, s': RuntimeState)
    requires Settled(s, s')
    ensures !Undecided(s'.broker)
  {
  }

  /** Capture replaces only the caller's registers. */
  lemma CaptureTracks(log: seq<ApprovalEvent>, s: RuntimeState, task: u64, frame: TrapFrame)
    requires Runs(s, task) && LogInv(log, s)
    ensures Captured(s, task, frame).Ok? && LogInv(log, Captured(s, task, frame).value)
  {
    hide Inv, SingleUse, NoCommit, Wrote;
    CaptureKeeps(s, task, frame);
  }

  lemma DriveLogged(log: seq<ApprovalEvent>, m: Machine, frame: TrapFrame)
    requires MachineInv(m) && m.state.profile == Supervised && LogInv(log, m.state)
    ensures LogInv(log + Observed(m, frame), Drive(m, frame).state)
  {
    hide Inv, HandleTrap, TeardownExited, CaptureTrap, LogInv;
    if m.phase.OnCpu? {
      var task := m.phase.task;
      RunsIsRunning(m.state, task);
      CaptureKeeps(m.state, task, frame);
      CaptureTracks(log, m.state, task, frame);
      var s := Captured(m.state, task, frame).value;
      TrapLands(s, task);
      TrapLogged(log, s, task);
      var (next, outcome) := HandleTrap(s, task).value;
      if outcome.Exit? {
        TeardownLogged(log + EventOf(s, task, next, outcome), next, task);
      }
    } else {
      assert log + [] == log;
    }
  }

  /**
   Single use over whole runs: each commit directly follows one approval, which directly
   follows the submit, of exactly that sequence and argument, and at most one commit
   ever succeeds.
   */
  lemma {:induction false} ApprovalsAreSingleUse(m: Machine, frames: seq<TrapFrame>)
    requires MachineInv(m) && m.state.profile == Supervised && LogInv([], m.state)
    ensures SingleUse(Log(m, frames)) && Tracks(Log(m, frames), Run(m, frames).state)
    decreases |frames|
  {
    hide Inv, Drive, Observed, SingleUse, Tracks;
    if frames != [] {
      var k := |frames| - 1;
      ApprovalsAreSingleUse(m, frames[..k]);
      RunProgress(m, frames[..k]);
      DriveLogged(Log(m, frames[..k]), Run(m, frames[..k]), frames[k]);
    }
  }

  // Runs of the journaled runtime ----------------------------------------------

  function ObservedJournaled(m: JournaledMachine, frame: TrapFrame): seq<ApprovalEvent> {
    if m.phase.OnCpu? && IsTask(m.phase.task) && Captured(m.state.runtime, m.phase.task, frame).Ok? then
      var s := Captured(m.state.runtime, m.phase.task, frame).value;
      match HandleJournaledTrap(m.state.(runtime := s), m.phase.task)
      case Ok((j', outcome)) => EventOf(s, m.phase.task, j'.runtime, outcome)
      case Err(_) => []
    else []
  }

  function LogJournaled(m: JournaledMachine, frames: seq<TrapFrame>): seq<ApprovalEvent>
    decreases |frames|
  {
    if frames == [] then []
    else
      var k := |frames| - 1;
      LogJournaled(m, frames[..k]) + ObservedJournaled(RunJournaled(m, frames[..k]), frames[k])
  }

  /** The wrapper keeps the base trap's result, undoes a submit, or ends a failed commit. */
  predicate WrapperShape(s: RuntimeState, task: u64, s': RuntimeState, outcome: TrapOutcome)
    requires IsTask(task)
  {
    || HandleTrap(s, task) == Ok((s', outcome))
    || (outcome.Resume? && Slot(s', task).context.rax != StatusOk.Code() && Settled(s, s'))
    || (outcome.Resume? && s'.broker == s.broker && s'.effect == s.effect
        && (Attached(s'.sender) <==> Attached(s.sender))
        && (Slot(s', task).context.rax != StatusOk.Code() || Slot(s, task).context.rax > 10))
  }

  lemma WrapperHasShape(j: Journaled, task: u64)
    requires JournaledRuns(j, task) && HandleJournaledTrap(j, task).Ok?
    ensures WrapperShape(j.runtime, task, HandleJournaledTrap(j, task).value.0.runtime,
                         HandleJournaledTrap(j, task).value.1)
  {
    hide JournalInv, Inv, ValidateJournaled, HandleTrap, AppendReserved, BeginLifecycle, ResolveObject, ReadTriplet;
    RunsIsRunning(j.runtime, task);
    TrapLands(j.runtime, task);
    if Slot(j.runtime, task).context.rax == 10 {
      CommitShape(j, task);
    }
  }

  lemma CommitShape(j: Journaled, task: u64)
    requires JournaledRuns(j, task) && HandleJournaledTrap(j, task).Ok? && Slot(j.runtime, task).context.rax == 10
    ensures WrapperShape(j.runtime, task, HandleJournaledTrap(j, task).value.0.runtime,
                         HandleJournaledTrap(j, task).value.1)
  {
    hide JournalInv, Inv, ValidateJournaled, Validate, CommitStatus, AppendReserved;
    var i := Slot(j.runtime, task).context;
    RunsIsRunning(j.runtime, task);
    TrapLands(j.runtime, task);
    TrapIsOperation(j.runtime, task);
    CommitMove(j.runtime, task, i.rdi, i.rsi, i.rdx);
  }

  lemma JournaledTrapLogged(log: seq<ApprovalEvent>, j: Journaled, task: u64)
    requires JournaledRuns(j, task) && j.runtime.profile == Supervised && LogInv(log, j.runtime)
    ensures var r := HandleJournaledTrap(j, task);
            r.Ok? && LogInv(log + EventOf(j.runtime, task, r.value.0.runtime, r.value.1), r.value.0.runtime)
  {
    hide JournalInv, Inv, HandleTrap, HandleJournaledTrap, SingleUse, NoCommit;
    JournaledTrapLands(j, task);
    WrapperHasShape(j, task);
    TrapLogged(log, j.runtime, task);
    var (next, outcome) := HandleJournaledTrap(j, task).value;
    if HandleTrap(j.runtime, task) != Ok((next.runtime, outcome)) {
      assert EventOf(j.runtime, task, next.runtime, outcome) == [];
      assert log + [] == log;
    }
  }

  lemma TeardownJournaledLogged(log: seq<ApprovalEvent>, j: Journaled, task: u64)
    requires JournalInv(j) && j.journal.state != JournalDead && Leaving(j.runtime, task) && LogInv(log, j.runtime)
    ensures LogInv(log, TeardownJournaled(j, task).state.runtime)
  {
    hide Inv, SealForTeardown, BeginTeardown, CompleteTeardown, LogInv, NoEntries, Settled, Scan, ValidateJournaled;
    BeginJournaledLands(j, task);
    SealLands(j);
    var closed := SealForTeardown(j).value;
    BeginSettles(closed.runtime, task);
    var begun := BeginJournaledTeardown(j, task).value;
    EpochSettles(j.runtime, closed.runtime, begun.runtime);
    SettledTracks(log, j.runtime, begun.runtime);
    SettledFacts(j.runtime, begun.runtime);
    if CompleteTeardown(begun.runtime, task).Ok? {
      CompleteSettles(begun.runtime, task);
      SettledTracks(log, begun.runtime, CompleteTeardown(begun.runtime, task).value.0);
    }
  }

  lemma EpochSettles(s: RuntimeState, shifted: RuntimeState, s': RuntimeState)
    requires shifted == WithEpoch(s, shifted.broker.decisionEpoch) && Settled(shifted, s')
    ensures Settled(s, s')
  {
  }

  lemma DriveJournaledLogged(log: seq<ApprovalEvent>, m: JournaledMachine, frame: TrapFrame)
    requires JournaledMachineInv(m) && LogInv(log, m.state.runtime)
    ensures LogInv(log + ObservedJournaled(m, frame), DriveJournaled(m, frame).state.runtime)
  {
    hide Inv, JournalInv, HandleJournaledTrap, TeardownJournaled, CaptureTrap, LogInv;
    if m.phase.OnCpu? {
      var task := m.phase.task;
      RunsIsRunning(m.state.runtime, task);
      CaptureJournaled(m.state, task, frame);
      CaptureTracks(log, m.state.runtime, task, frame);
      var j := m.state.(runtime := Captured(m.state.runtime, task, frame).value);
      JournaledIsSupervised(j);
      JournaledTrapLands(j, task);
      JournaledTrapLogged(log, j, task);
      var (next, outcome) := HandleJournaledTrap(j, task).value;
      StillJournaling(next);
      if outcome.Exit? {
        TeardownJournaledLogged(log + EventOf(j.runtime, task, next.runtime, outcome), next, task);
      }
    } else {
      assert log + [] == log;
    }
  }

  lemma JournaledIsSupervised(j: Journaled)
    requires JournalInv(j)
    ensures j.runtime.profile == Supervised
  {
    hide Inv, LiveInv;
  }

  /** The same single-use guarantee over every run of the journaled runtime. */
  lemma {:induction false} JournaledApprovalsAreSingleUse(m: JournaledMachine, frames: seq<TrapFrame>)
    requires JournaledMachineInv(m) && LogInv([], m.state.runtime)
    ensures SingleUse(LogJournaled(m, frames)) && Tracks(LogJournaled(m, frames), RunJournaled(m, frames).state.runtime)
    decreases |frames|
  {
    hide JournalInv, DriveJournaled, ObservedJournaled, SingleUse, Tracks;
    if frames != [] {
      var k := |frames| - 1;
      JournaledApprovalsAreSingleUse(m, frames[..k]);
      RunJournaledProgress(m, frames[..k]);
      DriveJournaledLogged(LogJournaled(m, frames[..k]), RunJournaled(m, frames[..k]), frames[k]);
    }
  }

  // From boot, and what the supervisor sees ----------------------------------------------

  lemma NothingLogged(s: RuntimeState)
    requires s.broker.state == BrokerEmpty && !s.effect.occupied
    ensures LogInv([], s)
  {
  }

  /** Every run of a freshly built supervised runtime, whatever the registers. */
  lemma {:induction false} SupervisedRunsAreSingleUse(supervisor: TaskContext, workload: TaskContext,
      frames: seq<TrapFrame>)
    requires NewSupervised(supervisor, workload).Ok?
    ensures var m := Boot(NewSupervised(supervisor, workload));
            SingleUse(Log(m, frames)) && Tracks(Log(m, frames), Run(m, frames).state)
  {
    var created := NewSupervised(supervisor, workload);
    var m := Boot(created);
    BootProgress(supervisor, workload, Supervised);
    DispatchLands(created.value) by { SupervisedStateInv(supervisor, workload, SupervisorEntries()); }
    DispatchKeepsRest(created.value);
    NothingLogged(m.state);
    ApprovalsAreSingleUse(m, frames);
  }

  /** Every run of a freshly built journaled runtime. */
  lemma {:induction false} JournaledRunsAreSingleUse(supervisor: TaskContext, workload: TaskContext,
      frames: seq<TrapFrame>)
    requires NewJournaled(supervisor, workload).Ok?
    ensures var m := BootJournaled(NewJournaled(supervisor, workload));
            SingleUse(LogJournaled(m, frames)) && Tracks(LogJournaled(m, frames), RunJournaled(m, frames).state.runtime)
  {
    var created := NewJournaled(supervisor, workload);
    var m := BootJournaled(created);
    NewJournaledInv(supervisor, workload);
    BootJournaledInv(supervisor, workload);
    DispatchLands(created.value.runtime);
    DispatchKeepsRest(created.value.runtime);
    NothingLogged(m.state.runtime);
    JournaledApprovalsAreSingleUse(m, frames);
  }

  /** An inspection that succeeds shows the sequence and argument of the last accepted submit. */
  lemma InspectShowsSubmission(log: seq<ApprovalEvent>, s: RuntimeState, task: u64)
    requires Runs(s, task) && LogInv(log, s) && Slot(s, task).context.rax == 8
    ensures var r := HandleTrap(s, task);
            && r.Ok? && r.value.1 == Resume(task)
            && var seen := Slot(r.value.0, task).context;
               seen.rax == StatusOk.Code() ==>
                 |log| > 0 && log[|log| - 1] == SubmitEvent(seen.rdi, seen.rdx) && seen.rsi == 1
  {
    hide Inv, Validate, SingleUse, NoCommit, Wrote, InspectApproval, InspectStatus;
    var i := Slot(s, task).context;
    TrapLands(s, task);
    RunsIsRunning(s, task);
    InspectMove(s, task, i.rdi, i.rsi, i.rdx);
    InspectResumes(s, task, i.rdi, i.rsi, i.rdx);
    PendingKind(s);
  }

  lemma InspectResumes(s: RuntimeState, task: u64, handle: u64, kind: u64, argument: u64)
    requires IsTask(task) && InspectApproval(s, task, handle, kind, argument).Ok?
    ensures InspectApproval(s, task, handle, kind, argument).value.1 == Resume(task)
  {
    hide Validate, InspectStatus;
  }

  lemma PendingKind(s: RuntimeState)
    requires Inv(s)
    ensures s.broker.state == BrokerPending ==> s.broker.requestKind == 1
  {
    hide SlotInv, QueueInv;
  }
}
