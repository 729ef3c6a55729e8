/**
 Whole runs of the journaled runtime under the kernel's drive order.
 */
module JournalDrive {
  import opened Words
  import opened TrapAbi
  import opened Capability
  import opened Runtime
  import opened RuntimeInvariant
  import opened RuntimeProgress
  import opened KernelDrive
  import opened Journal
  import opened Lifecycle
  import opened JournalInvariant
  import opened JournalProgress

  datatype JournaledMachine = JournaledMachine(state: Journaled, phase: Phase)

  function ResumeJournaled(j: Journaled, task: u64): JournaledMachine {
    JournaledMachine(j, if RunningTask(j.runtime) == Ok(task) then OnCpu(task) else KernelFailure(SelectedState))
  }

  function TeardownJournaled(j: Journaled, task: u64): JournaledMachine {
    match BeginJournaledTeardown(j, task)
    case Err(_) => JournaledMachine(j, KernelFailure(HandleFirstTeardown))
    case Ok(begun) =>
      if !IsTask(task) || Slot(begun.runtime, task).capabilities.state != TableClosing
         || !NoEntries(Slot(begun.runtime, task).capabilities.slots) then
        JournaledMachine(begun, KernelFailure(HandleFirstTeardown))
      else
        match CompleteJournaledTeardown(begun, task)
        case Err(_) => JournaledMachine(begun, KernelFailure(TeardownTransition))
        case Ok((next, Some(t))) => ResumeJournaled(next, t)
        case Ok((next, None)) => JournaledMachine(next, Finished)
  }

  function DriveJournaled(m: JournaledMachine, frame: TrapFrame): JournaledMachine {
    if !m.phase.OnCpu? then m
    else
      var task := m.phase.task;
      if !IsTask(task) || RunningTask(m.state.runtime) != Ok(task) then
        JournaledMachine(m.state, KernelFailure(TrapCapture))
      else
        match Captured(m.state.runtime, task, frame)
        case Err(_) => JournaledMachine(m.state, KernelFailure(TrapCapture))
        case Ok(s) =>
          match HandleJournaledTrap(m.state.(runtime := s), task)
          case Err(_) => JournaledMachine(m.state.(runtime := s), KernelFailure(TrapTransition))
          case Ok((next, Resume(t))) => ResumeJournaled(next, t)
          case Ok((next, Switch(t))) => ResumeJournaled(next, t)
          case Ok((next, Exit(t))) => TeardownJournaled(next, t)
  }

  function RunJournaled(m: JournaledMachine, frames: seq<TrapFrame>): JournaledMachine
    decreases |frames|
  {
    if frames == [] then m else DriveJournaled(RunJournaled(m, frames[..|frames| - 1]), frames[|frames| - 1])
  }

  function BootJournaled(created: Result<Journaled, RuntimeError>): JournaledMachine
    requires created.Ok?
  {
    match DispatchNext(created.value.runtime)
    case Ok((s, Some(task))) => ResumeJournaled(created.value.(runtime := s), task)
    case Ok((s, None)) => JournaledMachine(created.value.(runtime := s), Finished)
    case Err(_) => JournaledMachine(created.value, KernelFailure(SelectedState))
  }

  predicate JournaledMachineInv(m: JournaledMachine) {
    && JournalInv(m.state)
    && m.state.journal.state != JournalDead
    && match m.phase
       case OnCpu(task) => Runs(m.state.runtime, task)
       case Finished => BothDead(m.state.runtime) && m.state.journal.state == JournalSealed
       case KernelFailure(point) => point == TeardownTransition && StrandedState(m.state.runtime)
  }

  // Teardown -----------------------------------------------------------------

  function WithEpoch(s: RuntimeState, epoch: u64): RuntimeState {
    s.(broker := s.broker.(decisionEpoch := epoch))
  }

  /** The terminal epoch passes through the supervisor's teardown untouched. */
  lemma SupervisorLeavesAt(s: RuntimeState, epoch: u64)
    requires Leaving(s, SENDER_TASK_ID) && s.profile == Supervised && s.broker.decisionEpoch <= epoch
    ensures var r := BeginTeardown(WithEpoch(s, epoch), SENDER_TASK_ID);
            && r.Ok? && Inv(r.value) && r.value.profile == Supervised
            && r.value.sender.state == Exited && r.value.sender.capabilities.state == TableClosing
            && r.value.broker.state == BrokerClosing && r.value.broker.decisionEpoch == epoch
            && (r.value.receiver.state == Staged <==> s.receiver.state == Staged)
  {
    hide Validate, TableInv, QueueInv, NoEntries, CloseTable;
    SupervisorDetachKeeps(s);
    var plain := DetachSupervised(Emptied(s, SENDER_TASK_ID), SENDER_TASK_ID).value;
    var shifted := DetachSupervised(Emptied(WithEpoch(s, epoch), SENDER_TASK_ID), SENDER_TASK_ID);
    assert shifted == Ok(WithEpoch(plain, epoch));
    EpochIsFree(plain, epoch);
    InvValidates(shifted.value);
    CloseTableState(s.sender.capabilities);
  }

  lemma CloseTableState(t: Table)
    ensures CloseTable(t).state == TableClosing
  {
  }

  lemma EpochIsFree(s: RuntimeState, epoch: u64)
    requires Inv(s) && s.profile == Supervised && s.broker.state == BrokerClosing && s.broker.decisionEpoch <= epoch
    requires s.sender.state != TaskDead
    ensures Inv(WithEpoch(s, epoch))
  {
    hide SlotInv;
  }

  lemma WorkloadLeaves(s: RuntimeState)
    requires Leaving(s, RECEIVER_TASK_ID) && s.profile == Supervised
    ensures var r := BeginTeardown(s, RECEIVER_TASK_ID);
            && r.Ok? && Inv(r.value) && r.value.profile == Supervised
            && r.value.receiver.state == Exited && r.value.receiver.capabilities.state == TableClosing
            && r.value.broker.decisionEpoch == s.broker.decisionEpoch && !Undecided(r.value.broker)
  {
    BeginTeardownLands(s, RECEIVER_TASK_ID);
    ExitedReceiverIdle(BeginTeardown(s, RECEIVER_TASK_ID).value);
    hide Inv, Validate, CloseTable;
  }

  lemma ExitedReceiverIdle(s: RuntimeState)
    requires Inv(s) && s.profile == Supervised && s.receiver.state == Exited
    ensures !Undecided(s.broker)
  {
  }

  /** Sealing closes whatever lifecycle is open, with the system as its actor. */
  lemma SealLands(j: Journaled)
    requires JournalInv(j) && j.journal.state != JournalDead
    ensures var r := SealForTeardown(j);
            && r.Ok?
            && r.value.journal.state == JournalSealed && r.value.journal.reserved == 0
            && r.value.journal.objectGeneration == 1 && |r.value.journal.committed| <= RECORD_COUNT
            && r.value.journal.nextSequence == |r.value.journal.committed| + 1
            && EpochsSound(r.value.journal.committed)
            && Scan(r.value.journal.committed).Some? && Scan(r.value.journal.committed).value.count <= 7
            && Scan(r.value.journal.committed).value.open == Idle
            && Grows(j.journal.committed, r.value.journal.committed)
            && r.value.runtime == WithEpoch(j.runtime, r.value.runtime.broker.decisionEpoch)
            && j.runtime.broker.decisionEpoch <= r.value.runtime.broker.decisionEpoch <= |r.value.journal.committed| + 1
            && (!j.runtime.broker.requestPresent ==> r.value.runtime == j.runtime)
  {
    hide Inv, Scan, Advance, EpochsSound, AppendReserved;
    RequestPresence(j.runtime);
    if j.journal.state == JournalLive && j.runtime.broker.requestPresent {
      BrokerBounds(j);
      var pending := j.runtime.broker.state == BrokerPending;
      var kind := if pending then Denied else Expired;
      var record := Event(kind, if pending then ApprovalDenied else ApprovalExpired,
                          j.runtime.broker.decisionEpoch + 1, 0, 0, j.runtime.broker.request, OBJECT_APPROVAL_BROKER,
                            0);
      AdvanceDecided(ProgressOf(j.runtime), record, kind);
      AppendLands(j.journal, record, pending, ProgressOf(j.runtime));
    }
  }

  lemma BeginJournaledLands(j: Journaled, task: u64)
    requires JournalInv(j) && j.journal.state != JournalDead && Leaving(j.runtime, task)
    ensures var r := BeginJournaledTeardown(j, task);
            && r.Ok? && JournalInv(r.value) && r.value.journal.state == JournalSealed
            && Slot(r.value.runtime, task).state == Exited
            && Slot(r.value.runtime, task).capabilities.state == TableClosing
            && Grows(j.journal.committed, r.value.journal.committed)
            && (Stranded(r.value.runtime, task) <==> Stranded(j.runtime, task))
  {
    hide Inv, ValidateJournaled, Scan, EpochsSound, SealForTeardown, BeginTeardown;
    SealLands(j);
    var closed := SealForTeardown(j).value;
    RequestPresence(j.runtime);
    if task == SENDER_TASK_ID {
      SupervisorLeavesAt(j.runtime, closed.runtime.broker.decisionEpoch);
    } else {
      ExitedReceiverIdle(j.runtime);
      WorkloadLeaves(j.runtime);
    }
    JournalInvValidates(closed.(runtime := BeginTeardown(closed.runtime, task).value));
  }

  lemma CompleteJournaledLands(j: Journaled, task: u64)
    requires JournalInv(j) && j.journal.state == JournalSealed && IsTask(task)
    requires Slot(j.runtime, task).state == Exited && Slot(j.runtime, task).capabilities.state == TableClosing
    ensures var r := CompleteJournaledTeardown(j, task);
            && (r.Err? <==> Stranded(j.runtime, task))
            && (r.Ok? ==> JournalInv(r.value.0) && r.value.0.journal == j.journal)
            && (r.Ok? ==> match r.value.1
                          case Some(next) => Runs(r.value.0.runtime, next)
                          case None => BothDead(r.value.0.runtime))
  {
    hide Inv, ValidateJournaled, Scan, EpochsSound, CompleteTeardown;
    CompleteTeardownLands(j.runtime, task);
    if !Stranded(j.runtime, task) {
      BurialShrinksEpoch(j.runtime, task);
      JournalInvValidates(j.(runtime := CompleteTeardown(j.runtime, task).value.0));
    }
  }

  lemma BurialShrinksEpoch(s: RuntimeState, task: u64)
    requires Inv(s) && s.profile == Supervised && IsTask(task) && !Undecided(s.broker) && CompleteTeardown(s, task).Ok?
    ensures var s' := CompleteTeardown(s, task).value.0;
            s'.broker.decisionEpoch <= s.broker.decisionEpoch && !Undecided(s'.broker)
  {
    hide Inv, Validate, NoEntries;
  }

  // Whole runs ---------------------------------------------------------------

  lemma RunsIsRunningJournaled(j: Journaled, task: u64)
    requires Runs(j.runtime, task)
    ensures ResumeJournaled(j, task) == JournaledMachine(j, OnCpu(task))
  {
    hide Inv;
    RunsIsRunning(j.runtime, task);
  }

  lemma TeardownJournaledProgress(j: Journaled, task: u64)
    requires JournalInv(j) && j.journal.state != JournalDead && Leaving(j.runtime, task)
    ensures JournaledMachineInv(TeardownJournaled(j, task))
    ensures TeardownJournaled(j, task).phase.KernelFailure? <==> Stranded(j.runtime, task)
    ensures Grows(j.journal.committed, TeardownJournaled(j, task).state.journal.committed)
  {
    hide Scan, EpochsSound, BeginJournaledTeardown, CompleteJournaledTeardown, QueueInv, SupervisedInv, TableInv, Grows;
    BeginJournaledLands(j, task);
    var begun := BeginJournaledTeardown(j, task).value;
    CompleteJournaledLands(begun, task);
    var r := CompleteJournaledTeardown(begun, task);
    if r.Ok? && r.value.1.Some? {
      RunsIsRunningJournaled(r.value.0, r.value.1.value);
    }
  }

  lemma CaptureJournaled(j: Journaled, task: u64, frame: TrapFrame)
    requires JournaledRuns(j, task)
    ensures var r := Captured(j.runtime, task, frame);
            && r.Ok? && JournaledRuns(j.(runtime := r.value), task)
            && Slot(r.value, task).context
               == FromTrap(frame, task, Slot(j.runtime, task).generation, Slot(j.runtime, task).context.root)
            && r.value.broker == j.runtime.broker && r.value.effect == j.runtime.effect
            && r.value.receiver.state == j.runtime.receiver.state
  {
    hide Inv, Scan, EpochsSound, LiveInv;
    RunsNotDead(j, task);
    CaptureKeeps(j.runtime, task, frame);
    SameBrokerKeeps(j, Captured(j.runtime, task, frame).value);
  }

  /** One trap: the invariant holds, records only grow, and the kernel fails only by stranding a workload. */
  lemma DriveJournaledProgress(m: JournaledMachine, frame: TrapFrame)
    requires JournaledMachineInv(m)
    ensures JournaledMachineInv(DriveJournaled(m, frame))
    ensures m.state.journal.committed <= DriveJournaled(m, frame).state.journal.committed
    ensures m.phase.OnCpu? ==>
              (DriveJournaled(m, frame).phase.KernelFailure? <==>
               && m.phase.task == SENDER_TASK_ID && m.state.runtime.receiver.state == Staged
               && frame.rax == 3 && frame.rdi == 0 && frame.rsi == 0 && frame.rdx == 0)
  {
    hide Inv, JournalInv, HandleJournaledTrap, TeardownJournaled, CaptureTrap;
    if m.phase.OnCpu? {
      var task := m.phase.task;
      RunsIsRunning(m.state.runtime, task);
      CaptureJournaled(m.state, task, frame);
      var j := m.state.(runtime := Captured(m.state.runtime, task, frame).value);
      JournaledTrapLands(j, task);
      JournaledExitExactly(j, task);
      var (next, outcome) := HandleJournaledTrap(j, task).value;
      StillJournaling(next);
      if outcome.Exit? {
        TeardownJournaledProgress(next, task);
      } else {
        RunsIsRunningJournaled(next, outcome.task);
        RunsNotDead(next, outcome.task);
      }
    }
  }

  lemma StillJournaling(j: Journaled)
    requires JournalInv(j)
    ensures !BothDead(j.runtime) ==> j.journal.state != JournalDead
  {
    hide Inv, Scan, EpochsSound, LiveInv;
  }

  lemma JournaledExitExactly(j: Journaled, task: u64)
    requires JournaledRuns(j, task) && HandleJournaledTrap(j, task).Ok?
    ensures var i := Slot(j.runtime, task).context;
            var (next, outcome) := HandleJournaledTrap(j, task).value;
            && (outcome.Exit? <==> i.rax == 3 && i.rdi == 0 && i.rsi == 0 && i.rdx == 0)
            && (outcome.Exit? ==> next.runtime == SetState(j.runtime, task, Exited))
  {
    hide JournalInv, Inv, ValidateJournaled, HandleTrap, AppendReserved, BeginLifecycle, WakeWorkload, ResolveObject,
      ReadTriplet;
    RunsIsRunning(j.runtime, task);
    TrapLands(j.runtime, task);
    ExitExactly(j.runtime, task);
  }

  /** Every run of the journaled runtime keeps the invariant, whatever the registers. */
  lemma {:induction false} RunJournaledProgress(m: JournaledMachine, frames: seq<TrapFrame>)
    requires JournaledMachineInv(m)
    ensures JournaledMachineInv(RunJournaled(m, frames))
    decreases |frames|
  {
    hide JournalInv, DriveJournaled;
    if frames != [] {
      RunJournaledProgress(m, frames[..|frames| - 1]);
      DriveJournaledProgress(RunJournaled(m, frames[..|frames| - 1]), frames[|frames| - 1]);
    }
  }

  lemma NewJournaledInv(supervisor: TaskContext, workload: TaskContext)
    requires NewJournaled(supervisor, workload).Ok?
    ensures JournalInv(NewJournaled(supervisor, workload).value)
  {
    var entries := JournaledEntries();
    forall i | 0 <= i < |entries| ensures EntryAllowed(Supervised, 1, SUPERVISOR_GENERATION, i, entries[i]) {}
    SupervisedStateInv(supervisor, workload, entries);
    hide Inv;
  }

  lemma BootJournaledInv(supervisor: TaskContext, workload: TaskContext)
    requires NewJournaled(supervisor, workload).Ok?
    ensures JournaledMachineInv(BootJournaled(NewJournaled(supervisor, workload)))
    ensures BootJournaled(NewJournaled(supervisor, workload)).state.journal == LIVE_JOURNAL
  {
    NewJournaledInv(supervisor, workload);
    var j := NewJournaled(supervisor, workload).value;
    DispatchLands(j.runtime);
    var s := DispatchNext(j.runtime).value.0;
    DispatchKeepsRest(j.runtime);
    hide Inv, Scan, EpochsSound, LiveInv, ValidateJournaled, DispatchNext;
    SameBrokerKeeps(j, s);
    RunsIsRunningJournaled(j.(runtime := s), j.runtime.queue[0]);
  }

  lemma DispatchKeepsRest(s: RuntimeState)
    requires DispatchNext(s).Ok?
    ensures var s' := DispatchNext(s).value.0;
            && s'.broker == s.broker && s'.effect == s.effect
            && (Attached(s'.sender) <==> Attached(s.sender)) && (Attached(s'.receiver) <==> Attached(s.receiver))
  {
    hide Validate;
  }
}
