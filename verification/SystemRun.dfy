/**
 The whole kernel at work: the runtime that schedules, the owners that hold each task's address
 space, and the kernel memory those spaces are built in, driven by any sequence of traps.
 */
module SystemRun {
  import opened Words
  import opened TrapAbi
  import opened Capability
  import opened Runtime
  import opened KernelDrive
  import opened KernelRuntimes
  import opened AddressSpace
  import AS = AddressSpace
  import opened KernelBackend
  import opened TaskFrames

  /** The kernel's fail-stop points that concern owners. */
  datatype OwnerFault =
    | OwnerMissing | RootMissing | OwnerState | ContextMismatch | ActivationRefused | OwnerInactive | ActiveMismatch
    | ExitedOwnerMissing | ExitedOwnerActive | OwnerTeardown | OwnershipRemains

  datatype SystemPhase = InKernel(phase: Phase) | OwnerFailure(fault: OwnerFault)

  datatype Owners = Owners(sender: Option<Owner>, receiver: Option<Owner>) {
    function Get(task: u64): Option<Owner> {
      if task == SENDER_TASK_ID then sender else if task == RECEIVER_TASK_ID then receiver else None
    }

    function With(task: u64, owner: Option<Owner>): Owners {
      if task == SENDER_TASK_ID then Owners(owner, receiver)
      else if task == RECEIVER_TASK_ID then Owners(sender, owner)
      else this
    }
  }

  /** `active` is the task whose root the processor is to run on, with that root. */
  datatype System = System(
    runtime: KernelRuntime, owners: Owners, kernel: Kernel, active: Option<(u64, u64)>, phase: SystemPhase)
  {
    function Stop(point: FailurePoint): System {
      this.(phase := InKernel(KernelFailure(point)))
    }

    function Fault(fault: OwnerFault): System {
      this.(phase := OwnerFailure(fault))
    }
  }

  /** Owners come only from construction and their own operations. */
  predicate WellOwned(owners: Owners) {
    && (owners.sender.Some? ==> OwnerInv(owners.sender.value))
    && (owners.receiver.Some? ==> OwnerInv(owners.receiver.value))
  }

  /** The identity part of the context check; the instruction and stack pointer policy is the processor's side. */
  predicate ContextFits(c: TaskContext, task: u64, generation: u64, root: u64) {
    && c.taskId == task && c.generation != 0 && c.generation == generation
    && c.root != 0 && c.root == root && c.root % PAGE_SIZE == 0
  }

  function ResumeTask(sys: System, task: u64): (r: System)
    requires WellOwned(sys.owners)
    ensures WellOwned(r.owners)
  {
    var core := sys.runtime.Core();
    if !Chosen(core, task) then sys.Stop(SelectedState)
    else
      var slot := Slot(core, task);
      match sys.owners.Get(task)
      case None => sys.Fault(OwnerMissing)
      case Some(owner) =>
        if owner.root.None? then sys.Fault(RootMissing)
        else if owner.state != Inactive || owner.generation != slot.generation then sys.Fault(OwnerState)
        else if !ContextFits(slot.context, task, slot.generation, owner.root.value) then sys.Fault(ContextMismatch)
        else
          var (running, done) := Activate(owner);
          if done.Fail? then sys.Fault(ActivationRefused)
          else sys.(owners := sys.owners.With(task, Some(running)), active := Some((task, owner.root.value)),
                    phase := InKernel(OnCpu(task)))
  }

  /** The slot of a torn-down task is freed, and whatever the runtime chooses goes on. */
  function BuryTask(sys: System, task: u64): (r: System)
    requires WellOwned(sys.owners)
    ensures WellOwned(r.owners)
  {
    match CompleteIn(sys.runtime, task)
    case Err(_) => sys.Stop(TeardownTransition)
    case Ok((next, Some(t))) => ResumeTask(sys.(runtime := next), t)
    case Ok((next, None)) => sys.(runtime := next, phase := InKernel(Finished))
  }

  /** The address space of an owner taken out of its cell goes back before its task is buried. */
  function ReleaseOwned(sys: System, owner: Owner, task: u64): (r: System)
    requires WellOwned(sys.owners) && OwnerInv(owner)
    ensures WellOwned(r.owners)
  {
    if owner.state != Inactive then sys.Fault(ExitedOwnerActive)
    else
      var (m, torn) := Teardown(Step, AS.Machine(sys.kernel, []), owner);
      var released := sys.(kernel := m.state);
      match torn
      case OwnerRefused(_, _) => released.Fault(OwnerTeardown)
      case BackendRefused(_, _) => released.Fault(OwnerTeardown)
      case TornDown(dead) =>
        if dead.state != Dead || dead.ledger != [] then released.Fault(OwnershipRemains) else BuryTask(released, task)
  }

  function ReleaseThenBury(sys: System, task: u64): (r: System)
    requires WellOwned(sys.owners)
    ensures WellOwned(r.owners)
  {
    match sys.owners.Get(task)
    case None => sys.(active := None).Fault(ExitedOwnerMissing)
    case Some(owner) => ReleaseOwned(sys.(active := None, owners := sys.owners.With(task, None)), owner, task)
  }

  /** Handles first, then the address space, then the slot. */
  function TeardownTask(sys: System, task: u64): (r: System)
    requires WellOwned(sys.owners)
    ensures WellOwned(r.owners)
  {
    match BeginIn(sys.runtime, task)
    case Err(_) => sys.Stop(HandleFirstTeardown)
    case Ok(begun) =>
      var closed := sys.(runtime := begun);
      if !IsTask(task) || Slot(begun.Core(), task).capabilities.state != TableClosing
         || !NoEntries(Slot(begun.Core(), task).capabilities.slots) then closed.Stop(HandleFirstTeardown)
      else ReleaseThenBury(closed, task)
  }

  /** One trap of the task on the processor, up to the next time user code runs. */
  function TrapStep(sys: System, frame: TrapFrame): (r: System)
    requires WellOwned(sys.owners)
    ensures WellOwned(r.owners)
  {
    if !(sys.phase.InKernel? && sys.phase.phase.OnCpu?) then sys
    else
      var task := sys.phase.phase.task;
      if !IsTask(task) || RunningTask(sys.runtime.Core()) != Ok(task) then sys.Stop(TrapCapture)
      else
        match sys.owners.Get(task)
        case None => sys.Fault(OwnerMissing)
        case Some(owner) =>
          if owner.state != Active then sys.Fault(OwnerInactive)
          else if owner.root.None? then sys.Fault(RootMissing)
          else if sys.active != Some((task, owner.root.value)) then sys.Fault(ActiveMismatch)
          else TrapOf(sys, task, owner, frame)
  }

  function TrapOf(sys: System, task: u64, owner: Owner, frame: TrapFrame): (r: System)
    requires WellOwned(sys.owners) && IsTask(task) && OwnerInv(owner) && owner.root.Some?
    ensures WellOwned(r.owners)
  {
    var (idle, done) := Recover(owner);
    if done.Fail? then sys.Stop(TrapCapture)
    else
      var recovered := sys.(owners := sys.owners.With(task, Some(idle)));
      match CaptureIn(sys.runtime, task, frame, owner.root.value, owner.generation)
      case Err(_) => recovered.Stop(TrapCapture)
      case Ok(captured) =>
        if !ContextFits(Slot(captured.Core(), task).context, task, owner.generation, owner.root.value) then
          recovered.(runtime := captured).Stop(TrapCapture)
        else
          match HandleIn(captured, task)
          case Err(_) => recovered.(runtime := captured).Stop(TrapTransition)
          case Ok((next, outcome)) => Continue(recovered.(runtime := next), outcome)
  }

  function Continue(sys: System, outcome: TrapOutcome): (r: System)
    requires WellOwned(sys.owners)
    ensures WellOwned(r.owners)
  {
    match outcome
    case Exit(t) => TeardownTask(sys, t)
    case Resume(t) => ResumeTask(sys.(active := None), t)
    case Switch(t) => ResumeTask(sys.(active := None), t)
  }

  function RunSystem(sys: System, frames: seq<TrapFrame>): (r: System)
    requires WellOwned(sys.owners)
    ensures WellOwned(r.owners)
    decreases |frames|
  {
    if frames == [] then sys else TrapStep(RunSystem(sys, frames[..|frames| - 1]), frames[|frames| - 1])
  }

  // What every reachable system keeps -----------------------------------------------------------------

  function LedgerOf(owner: Option<Owner>): Option<Ledger> {
    if owner.Some? then Some(owner.value.ledger) else None
  }

  /** A live task has its owner, bound to the same generation and root, active exactly while it runs. */
  predicate Bound(slot: TaskSlot, owner: Option<Owner>, running: bool) {
    match owner
    case None => slot.state == TaskDead
    case Some(o) =>
      && slot.state != TaskDead
      && Published(o) && o.live && o.state == (if running then Active else Inactive)
      && o.generation == slot.generation && o.root == Some(slot.context.root)
  }

  /** A stranded supervisor has lost its space but not its slot. */
  predicate Bindings(core: RuntimeState, owners: Owners, phase: Phase) {
    && (if phase.KernelFailure? then owners.sender.None?
          else Bound(core.sender, owners.sender, phase == OnCpu(SENDER_TASK_ID)))
    && Bound(core.receiver, owners.receiver, phase == OnCpu(RECEIVER_TASK_ID))
  }

  /** `k0` is the kernel before the pair of spaces was built. */
  ghost predicate SystemInv(k0: Kernel, sys: System) {
    && Ample(k0) && WellOwned(sys.owners)
    && sys.phase.InKernel? && Sane(sys.runtime, sys.phase.phase)
    && Bindings(sys.runtime.Core(), sys.owners, sys.phase.phase)
    && Held(k0, sys.kernel, LedgerOf(sys.owners.sender), LedgerOf(sys.owners.receiver))
    && sys.active == match sys.phase.phase
                     case OnCpu(task) => Some((task, Slot(sys.runtime.Core(), task).context.root))
                     case _ => None
  }
}
