/**
 The order in which the kernel drives the runtime: capture the frame, handle the
 trap, and on exit tear the task down before dispatching the next one. Theorems here
 quantify over every finite run and every register value.
 */
module KernelDrive {
  import opened Words
  import opened TrapAbi
  import opened Capability
  import opened Runtime
  import opened RuntimeInvariant
  import opened RuntimeProgress

  /** The kernel's fail-stop points, named after what it was doing. */
  datatype FailurePoint = TrapCapture | TrapTransition | SelectedState | HandleFirstTeardown | TeardownTransition

  datatype Phase = OnCpu(task: u64) | Finished | KernelFailure(point: FailurePoint)

  datatype Machine = Machine(state: RuntimeState, phase: Phase)

  /** The kernel resumes only the task the runtime says is running. */
  function ResumeScheduled(s: RuntimeState, task: u64): Machine {
    Machine(s, if RunningTask(s) == Ok(task) then OnCpu(task) else KernelFailure(SelectedState))
  }

  function TeardownExited(s: RuntimeState, task: u64): Machine {
    match BeginTeardown(s, task)
    case Err(_) => Machine(s, KernelFailure(HandleFirstTeardown))
    case Ok(begun) =>
      if !IsTask(task) || Slot(begun, task).capabilities.state != TableClosing
         || !NoEntries(Slot(begun, task).capabilities.slots) then
        Machine(begun, KernelFailure(HandleFirstTeardown))
      else
        match CompleteTeardown(begun, task)
        case Err(_) => Machine(begun, KernelFailure(TeardownTransition))
        case Ok((next, Some(t))) => ResumeScheduled(next, t)
        case Ok((next, None)) => Machine(next, Finished)
  }

  /** The owner's root and generation are the ones the task was published with. */
  function Captured(s: RuntimeState, task: u64, frame: TrapFrame): Result<RuntimeState, RuntimeError>
    requires IsTask(task)
  {
    CaptureTrap(s, task, frame, Slot(s, task).context.root, Slot(s, task).generation)
  }

  /** One trap of the task on the processor, up to the next time user code runs. */
  function Drive(m: Machine, frame: TrapFrame): Machine {
    if !m.phase.OnCpu? then m
    else
      var task := m.phase.task;
      if !IsTask(task) || RunningTask(m.state) != Ok(task) then Machine(m.state, KernelFailure(TrapCapture))
      else
        match Captured(m.state, task, frame)
        case Err(_) => Machine(m.state, KernelFailure(TrapCapture))
        case Ok(s) =>
          match HandleTrap(s, task)
          case Err(_) => Machine(s, KernelFailure(TrapTransition))
          case Ok((next, Resume(t))) => ResumeScheduled(next, t)
          case Ok((next, Switch(t))) => ResumeScheduled(next, t)
          case Ok((next, Exit(t))) => TeardownExited(next, t)
  }

  function Run(m: Machine, frames: seq<TrapFrame>): Machine
    decreases |frames|
  {
    if frames == [] then m else Drive(Run(m, frames[..|frames| - 1]), frames[|frames| - 1])
  }

  /** Where runs begin: published, with the first queued task dispatched. */
  function Boot(created: Result<RuntimeState, RuntimeError>): Machine
    requires created.Ok?
  {
    match DispatchNext(created.value)
    case Ok((s, Some(task))) => ResumeScheduled(s, task)
    case Ok((s, None)) => Machine(s, Finished)
    case Err(_) => Machine(created.value, KernelFailure(SelectedState))
  }

  /** The supervisor has exited and been emptied while its workload is still staged. */
  predicate StrandedState(s: RuntimeState) {
    && s.profile == Supervised
    && s.sender.state == Exited && s.sender.capabilities.state == TableClosing && s.receiver.state == Staged
  }

  predicate MachineInv(m: Machine) {
    match m.phase
    case OnCpu(task) => Runs(m.state, task)
    case Finished => Inv(m.state) && BothDead(m.state)
    case KernelFailure(point) => point == TeardownTransition && Inv(m.state) && StrandedState(m.state)
  }

  lemma RunsIsRunning(s: RuntimeState, task: u64)
    requires Runs(s, task)
    ensures RunningTask(s) == Ok(task)
  {
    hide SlotInv, QueueInv, CooperativeInv, SupervisedInv;
  }

  lemma CaptureKeeps(s: RuntimeState, task: u64, frame: TrapFrame)
    requires Runs(s, task)
    ensures var r := Captured(s, task, frame);
            && r.Ok? && Runs(r.value, task)
            && r.value == WithSlot(s, task, Slot(s, task).(context := Slot(r.value, task).context))
            && Slot(r.value, task).context
               == FromTrap(frame, task, Slot(s, task).generation, Slot(s, task).context.root)
  {
    hide SlotInv, QueueInv, CooperativeInv, SupervisedInv;
    ContextFacts(s, task);
    ContextKeeps(s, task, FromTrap(frame, task, Slot(s, task).generation, Slot(s, task).context.root));
  }

  /** Stranding is possible only when a supervised task sender leaves a staged workload. */
  lemma TeardownProgress(s: RuntimeState, task: u64)
    requires Leaving(s, task)
    ensures MachineInv(TeardownExited(s, task)) && TeardownExited(s, task).state.profile == s.profile
    ensures TeardownExited(s, task).phase.KernelFailure? <==> Stranded(s, task)
  {
    hide QueueInv, SupervisedInv, TableInv, Validate, BeginTeardown, CompleteTeardown;
    BeginTeardownLands(s, task);
    BeginKeepsPeerStaged(s, task);
    var begun := BeginTeardown(s, task).value;
    CompleteTeardownLands(begun, task);
    var r := CompleteTeardown(begun, task);
    if r.Ok? && r.value.1.Some? {
      RunsIsRunning(r.value.0, r.value.1.value);
    }
  }

  lemma BeginKeepsPeerStaged(s: RuntimeState, task: u64)
    requires Leaving(s, task) && BeginTeardown(s, task).Ok?
    ensures Stranded(BeginTeardown(s, task).value, task) <==> Stranded(s, task)
  {
    hide Inv, Validate, CloseTable;
  }

  /** One trap: the machine invariant is kept, and the kernel fails only by stranding a workload. */
  lemma DriveProgress(m: Machine, frame: TrapFrame)
    requires MachineInv(m)
    ensures MachineInv(Drive(m, frame)) && Drive(m, frame).state.profile == m.state.profile
    ensures m.phase.OnCpu? ==>
              (Drive(m, frame).phase.KernelFailure? <==>
               && m.state.profile == Supervised && m.phase.task == SENDER_TASK_ID && m.state.receiver.state == Staged
               && frame.rax == 3 && frame.rdi == 0 && frame.rsi == 0 && frame.rdx == 0)
  {
    hide Inv, Validate, TeardownExited, CaptureTrap;
    if m.phase.OnCpu? {
      var task := m.phase.task;
      RunsIsRunning(m.state, task);
      CaptureKeeps(m.state, task, frame);
      var s := Captured(m.state, task, frame).value;
      RunsIsRunning(s, task);
      TrapLands(s, task);
      ExitExactly(s, task);
      var (next, outcome) := HandleTrap(s, task).value;
      if outcome.Exit? {
        TeardownProgress(next, task);
        StagedIsSupervised(m.state);
      } else {
        RunsIsRunning(next, outcome.task);
      }
    }
  }

  lemma StagedIsSupervised(s: RuntimeState)
    requires Inv(s)
    ensures s.receiver.state == Staged ==> s.profile == Supervised
  {
  }

  /** A trap ends the task exactly when it is a well-formed exit, and then only its state changes. */
  lemma ExitExactly(s: RuntimeState, task: u64)
    requires Runs(s, task)
    ensures var i := Slot(s, task).context;
            HandleTrap(s, task).Ok? ==>
              && (HandleTrap(s, task).value.1.Exit? <==> i.rax == 3 && i.rdi == 0 && i.rsi == 0 && i.rdx == 0)
              && (HandleTrap(s, task).value.1.Exit? ==> HandleTrap(s, task).value.0 == SetState(s, task, Exited))
  {
    hide Inv, Validate, ResolveTyped, Duplicate, Close, InstallBuilding, SubmitStatus, DecideStatus, CommitStatus,
      InspectStatus, StartStatus, SendStatus, WakeWorkload, FailBrokerEpochExhaustion;
  }

  /** Over every run, whatever the registers: traps succeed, and the only failure is a stranded workload. */
  lemma {:induction false} RunProgress(m: Machine, frames: seq<TrapFrame>)
    requires MachineInv(m)
    ensures MachineInv(Run(m, frames)) && Run(m, frames).state.profile == m.state.profile
    decreases |frames|
  {
    if frames != [] {
      RunProgress(m, frames[..|frames| - 1]);
      DriveProgress(Run(m, frames[..|frames| - 1]), frames[|frames| - 1]);
    }
  }

  lemma CooperativeStateInv(sender: TaskContext, receiver: TaskContext)
    requires sender.taskId == 1 && receiver.taskId == 2 && sender.root != 0 && receiver.root != 0
    requires sender.generation != 0 && receiver.generation != 0
    ensures Inv(CooperativeState(sender, receiver))
  {
    var s := CooperativeState(sender, receiver);
    assert s.sender.capabilities.slots[0].entry.value == EndpointEntry(1, sender.generation, 5);
    assert TableInv(Cooperative, 1, sender.generation, s.sender.capabilities);
    assert TableInv(Cooperative, 2, receiver.generation, s.receiver.capabilities);
  }

  lemma SupervisedStateInv(supervisor: TaskContext, workload: TaskContext, entries: seq<CapabilityEntry>)
    requires |entries| <= 4
    requires forall i :: 0 <= i < |entries| ==> EntryAllowed(Supervised, 1, SUPERVISOR_GENERATION, i, entries[i])
    requires supervisor.taskId == 1 && workload.taskId == 2 && supervisor.root != 0 && workload.root != 0
    requires supervisor.generation == SUPERVISOR_GENERATION && workload.generation == WORKLOAD_GENERATION
    ensures Inv(SupervisedState(supervisor, workload, entries))
  {
    var s := SupervisedState(supervisor, workload, entries);
    assert TableInv(Supervised, 1, SUPERVISOR_GENERATION, s.sender.capabilities);
    assert TableInv(Supervised, 2, WORKLOAD_GENERATION, s.receiver.capabilities);
  }

  /** Both base profiles: whatever construction accepts boots into the invariant with a task on the processor. */
  lemma BootProgress(sender: TaskContext, receiver: TaskContext, profile: RuntimeProfile)
    requires (if profile == Cooperative then NewCooperative(sender, receiver) else NewSupervised(sender, receiver)).Ok?
    ensures var created := if profile == Cooperative then NewCooperative(sender, receiver)
                           else NewSupervised(sender, receiver);
            var m := Boot(created);
            MachineInv(m) && m.phase.OnCpu? && m.state.profile == profile
  {
    var created := if profile == Cooperative then NewCooperative(sender, receiver)
                   else NewSupervised(sender, receiver);
    if profile == Cooperative {
      CooperativeStateInv(sender, receiver);
    } else {
      SupervisedStateInv(sender, receiver, SupervisorEntries());
    }
    DispatchLands(created.value);
    RunsIsRunning(DispatchNext(created.value).value.0, created.value.queue[0]);
  }

  /** A freshly built runtime accepts every run of traps. */
  lemma EveryRunProgresses(sender: TaskContext, receiver: TaskContext, profile: RuntimeProfile, frames: seq<TrapFrame>)
    requires (if profile == Cooperative then NewCooperative(sender, receiver) else NewSupervised(sender, receiver)).Ok?
    ensures var created := if profile == Cooperative then NewCooperative(sender, receiver)
                           else NewSupervised(sender, receiver);
            var end := Run(Boot(created), frames);
            && MachineInv(end)
            && (profile == Cooperative ==> !end.phase.KernelFailure?)
  {
    var created := if profile == Cooperative then NewCooperative(sender, receiver)
                   else NewSupervised(sender, receiver);
    BootProgress(sender, receiver, profile);
    RunProgress(Boot(created), frames);
  }
}
