/**
 Every run of the whole kernel: no check on an owner ever fails, the runtime inside moves exactly
 as it does alone, the running task always sees its own two pages and nothing else, and a finished
 run has given every frame back.
 */
module SystemTheorems {
  import opened Words
  import opened TrapAbi
  import opened Capability
  import opened Runtime
  import opened RI = RuntimeInvariant
  import opened RuntimeProgress
  import opened KernelDrive
  import opened Waiting
  import opened JournalInvariant
  import opened KernelRuntimes
  import opened AS = AddressSpace
  import opened KernelBackend
  import opened TaskFrames
  import opened Extents
  import opened SystemRun

  /** Both tasks bound, and neither on the processor. */
  predicate Parked(core: RuntimeState, owners: Owners) {
    Bound(core.sender, owners.sender, false) && Bound(core.receiver, owners.receiver, false)
  }

  ghost predicate Stores(k0: Kernel, sys: System) {
    && Ample(k0) && WellOwned(sys.owners)
    && Held(k0, sys.kernel, LedgerOf(sys.owners.sender), LedgerOf(sys.owners.receiver))
  }

  lemma BoundAgain(a: TaskSlot, b: TaskSlot, owner: Option<Owner>, running: bool)
    requires SameSpace(a, b) && Bound(a, owner, running)
    ensures Bound(b, owner, running)
  {
    hide Published;
  }

  lemma RootAligned(k0: Kernel, sys: System, task: u64)
    requires Stores(k0, sys) && sys.owners.Get(task).Some? && Published(sys.owners.Get(task).value)
    ensures sys.owners.Get(task).value.root.value % PAGE_SIZE == 0
  {
    hide Pages, Canonical, FreeAfter, Linked, Outside, Ample;
  }

  lemma SlotContext(s: RuntimeState, task: u64)
    requires Runs(s, task)
    ensures var slot := Slot(s, task);
            ContextFits(slot.context, task, slot.generation, slot.context.root) || slot.context.root % PAGE_SIZE != 0
  {
    hide QueueInv, CooperativeInv, SupervisedInv, TableInv, NoEntries;
  }

  /** A parked system resumes whichever task the runtime chose. */
  lemma ResumeLands(k0: Kernel, sys: System, task: u64)
    requires Stores(k0, sys) && Sane(sys.runtime, OnCpu(task)) && Parked(sys.runtime.Core(), sys.owners)
    ensures var r := ResumeTask(sys, task);
            SystemInv(k0, r) && r.runtime == sys.runtime && r.phase == InKernel(OnCpu(task))
  {
    hide Inv, JournalInv, RunningTask, Published, Held, Ample, Runs, Sane;
    SaneIsChosen(sys.runtime, task);
    var core := sys.runtime.Core();
    SlotContext(core, task);
    RootAligned(k0, sys, task);
  }

  /** An exited task's space goes back whole, and the runtime then decides as it does alone. */
  lemma TeardownTaskLands(k0: Kernel, sys: System, task: u64)
    requires Stores(k0, sys) && !Tight(k0.free) && Departing(sys.runtime, task)
            && Parked(sys.runtime.Core(), sys.owners)
    requires var (r, phase) := TeardownIn(sys.runtime, task); Sane(r, phase)
    ensures var r := TeardownTask(sys, task);
            var (runtime, phase) := TeardownIn(sys.runtime, task);
            SystemInv(k0, r) && r.runtime == runtime && r.phase == InKernel(phase)
  {
    hide Inv, JournalInv, RunningTask, Published, Held, Ample, Sane, Teardown, Step, BeginIn, CompleteIn, TeardownIn,
      NoEntries, Tight, Departing, OwnerInv;
    TeardownFacts(sys.runtime, task);
    var begun := BeginIn(sys.runtime, task).value;
    DepartingAlive(sys.runtime, task);
    var owner := sys.owners.Get(task).value;
    ReleaseTask(k0, sys, task);
    var m := Teardown(Step, AS.Machine(sys.kernel, []), owner).0;
    var released := sys.(runtime := begun, owners := sys.owners.With(task, None), active := None, kernel := m.state);
    match CompleteIn(begun, task) {
      case Err(_) =>
        BoundAgain(sys.runtime.Core().receiver, begun.Core().receiver, sys.owners.receiver, false);
      case Ok((next, chosen)) =>
        BoundAgain(Slot(sys.runtime.Core(), Peer(task)), Slot(next.Core(), Peer(task)), sys.owners.Get(Peer(task)),
          false);
        match chosen {
          case Some(t) => ResumeLands(k0, released.(runtime := next), t);
          case None =>
        }
    }
  }

  lemma DepartingAlive(r: KernelRuntime, task: u64)
    requires Departing(r, task)
    ensures IsTask(task) && Slot(r.Core(), task).state == Exited
  {
    hide Inv, JournalInv;
  }

  /** Whichever owner it is, its teardown is accepted and the other's frames stay put. */
  lemma ReleaseTask(k0: Kernel, sys: System, task: u64)
    requires Stores(k0, sys) && !Tight(k0.free) && IsTask(task) && sys.owners.Get(task).Some?
    requires var owner := sys.owners.Get(task).value; Published(owner) && owner.live && owner.state == Inactive
    ensures var owner := sys.owners.Get(task).value;
            var (m, torn) := Teardown(Step, AS.Machine(sys.kernel, []), owner);
            && torn == TornDown(Owner(owner.generation, false, Dead, None, []))
            && Stores(k0, sys.(kernel := m.state, owners := sys.owners.With(task, None)))
  {
    hide Held, Tight, Step, Teardown, Ample;
    var owner := sys.owners.Get(task).value;
    WideIsTight(k0);
    if task == SENDER_TASK_ID {
      ReleaseFirst(k0, AS.Machine(sys.kernel, []), owner, LedgerOf(sys.owners.receiver));
    } else {
      ReleaseSecond(k0, AS.Machine(sys.kernel, []), owner, LedgerOf(sys.owners.sender));
    }
  }

  /** One trap: every owner check passes, and the runtime moves exactly as its own drive says. */
  lemma StepLands(k0: Kernel, sys: System, frame: TrapFrame)
    requires SystemInv(k0, sys) && !Tight(k0.free)
    ensures var r := TrapStep(sys, frame);
            var (runtime, phase) := DriveIn(sys.runtime, sys.phase.phase, frame);
            SystemInv(k0, r) && r.runtime == runtime && r.phase == InKernel(phase)
  {
    hide Inv, JournalInv, RunningTask, Published, Held, Ample, Sane, TeardownTask, ResumeTask, CaptureIn, HandleIn,
      DriveIn, TeardownIn, Tight, Departing, SameSpace;
    var phase := sys.phase.phase;
    if phase.OnCpu? {
      DriveKeepsSane(sys.runtime, phase, frame);
      TrapLandsHere(k0, sys, frame);
    } else {
      IdleDrive(sys.runtime, phase, frame);
    }
  }

  lemma IdleDrive(r: KernelRuntime, phase: Phase, frame: TrapFrame)
    requires !phase.OnCpu?
    ensures DriveIn(r, phase, frame) == (r, phase)
  {
  }

  lemma CapturedFits(k0: Kernel, sys: System, frame: TrapFrame)
    requires SystemInv(k0, sys) && sys.phase.phase.OnCpu?
    ensures var task := sys.phase.phase.task;
            && IsTask(task) && sys.owners.Get(task).Some?
            && var owner := sys.owners.Get(task).value;
               && Published(owner) && owner.live && owner.state == Active
               && owner.root.value == Slot(sys.runtime.Core(), task).context.root
               && owner.generation == Slot(sys.runtime.Core(), task).generation
               && var captured := CaptureIn(sys.runtime, task, frame, owner.root.value, owner.generation);
                  && captured.Ok?
                  && ContextFits(Slot(captured.value.Core(), task).context, task, owner.generation, owner.root.value)
  {
    hide Inv, JournalInv, Held, Ample, Runs;
    var task := sys.phase.phase.task;
    SaneIsChosen(sys.runtime, task);
    SlotContext(sys.runtime.Core(), task);
    RootAligned(k0, sys, task);
  }

  lemma TrapLandsHere(k0: Kernel, sys: System, frame: TrapFrame)
    requires SystemInv(k0, sys) && !Tight(k0.free) && sys.phase.phase.OnCpu?
    requires var (runtime, phase) := DriveIn(sys.runtime, sys.phase.phase, frame); Sane(runtime, phase)
    ensures var r := TrapStep(sys, frame);
            var (runtime, phase) := DriveIn(sys.runtime, sys.phase.phase, frame);
            SystemInv(k0, r) && r.runtime == runtime && r.phase == InKernel(phase)
  {
    hide Inv, JournalInv, RunningTask, Held, Ample, Sane, TeardownTask, ResumeTask, CaptureIn, HandleIn,
      DriveIn, TeardownIn, Tight, Departing, SameSpace, InPlanOrder;
    var task := sys.phase.phase.task;
    TrapFacts(sys.runtime, task, frame);
    CapturedFits(k0, sys, frame);
    var owner := sys.owners.Get(task).value;
    var captured := CaptureIn(sys.runtime, task, frame, owner.root.value, owner.generation).value;
    var (next, outcome) := HandleIn(captured, task).value;
    var idle := owner.(state := Inactive);
    var handled := sys.(runtime := next, owners := sys.owners.With(task, Some(idle)));
    ParkedAgain(sys, task, idle, next.Core());
    if outcome.Exit? {
      TeardownTaskLands(k0, handled, task);
    } else {
      ResumeLands(k0, handled.(active := None), outcome.task);
    }
  }

  lemma ParkedAgain(sys: System, task: u64, idle: Owner, core: RuntimeState)
    requires IsTask(task) && Bindings(sys.runtime.Core(), sys.owners, OnCpu(task)) && sys.owners.Get(task).Some?
    requires idle == sys.owners.Get(task).value.(state := Inactive) && SameSpaces(sys.runtime.Core(), core)
    ensures Parked(core, sys.owners.With(task, Some(idle)))
  {
    hide InPlanOrder;
  }

  /** Over every run: the invariant holds, no owner check fails, and the runtime's run is its run alone. */
  lemma {:induction false} RunLands(k0: Kernel, sys: System, frames: seq<TrapFrame>)
    requires SystemInv(k0, sys) && !Tight(k0.free)
    ensures var r := RunSystem(sys, frames);
            var (runtime, phase) := RunIn(sys.runtime, sys.phase.phase, frames);
            SystemInv(k0, r) && r.runtime == runtime && r.phase == InKernel(phase)
    decreases |frames|
  {
    hide SystemInv, TrapStep, DriveIn, Tight;
    SystemInvParts(k0, sys);
    if frames != [] {
      RunLands(k0, sys, frames[..|frames| - 1]);
      SystemInvParts(k0, RunSystem(sys, frames[..|frames| - 1]));
      StepLands(k0, RunSystem(sys, frames[..|frames| - 1]), frames[|frames| - 1]);
    }
  }

  lemma SystemInvParts(k0: Kernel, sys: System)
    requires SystemInv(k0, sys)
    ensures WellOwned(sys.owners) && sys.phase.InKernel?
  {
  }

  // The owner phase each task state calls for ---------------------------------------------------------

  datatype OwnerPhase = PhaseInactive | PhaseActive | PhaseTeardown | PhaseAbsent

  function PhaseOf(state: TaskState): OwnerPhase {
    match state
    case Running => PhaseActive
    case Exited => PhaseTeardown
    case TaskDead => PhaseAbsent
    case _ => PhaseInactive
  }

  predicate InPhase(owner: Option<Owner>, phase: OwnerPhase) {
    match phase
    case PhaseAbsent => owner.None?
    case PhaseActive => owner.Some? && owner.value.state == LifecycleState.Active
    case PhaseInactive => owner.Some? && owner.value.state == Inactive
    case PhaseTeardown => false
  }

  /** Between traps every owner is in the phase its task's state calls for, and none is half torn down. */
  lemma PhasesAgree(k0: Kernel, sys: System)
    requires SystemInv(k0, sys) && !sys.phase.phase.KernelFailure?
    ensures InPhase(sys.owners.sender, PhaseOf(sys.runtime.Core().sender.state))
    ensures InPhase(sys.owners.receiver, PhaseOf(sys.runtime.Core().receiver.state))
  {
    hide Held, Ample, SlotInv, QueueInv, CooperativeInv, SupervisedInv, InPlanOrder, LiveInv;
  }
}
