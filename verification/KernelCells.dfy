/**
 The driver as it runs: the kernel's static cells hold the runtime object, the two owner objects and
 the memory object, and the trap dispatcher, the teardown of an exited task and the resumption of the
 next one change them one at a time. Each method is proved equal to its function of module SystemRun.
 */
module KernelCells {
  import opened Words
  import opened TrapAbi
  import opened Capability
  import R = Runtime
  import opened Runtime
  import opened KernelDrive
  import opened KernelRuntimes
  import AS = AddressSpace
  import opened AddressSpace
  import opened AddressSpaceOwners
  import opened KernelBackend
  import opened KernelMemory
  import opened KernelOwners
  import opened TaskRuntimes
  import opened JournaledRuntimes
  import opened SystemRun
  import opened SystemTheorems
  import opened TaskFrames

  /** The runtime the kernel holds, plain or journaled. */
  datatype RuntimeObject = PlainObject(plain: TaskRuntime) | JournaledObject(journaled: JournaledRuntime) {
    function Core(): TaskRuntime {
      if PlainObject? then plain else journaled.runtime
    }

    ghost function Parts(): set<object> {
      if PlainObject? then {plain} + plain.Parts() else {journaled} + journaled.Parts()
    }

    ghost predicate Valid()
      reads Parts()
    {
      if PlainObject? then plain.Valid() else journaled.Valid()
    }

    ghost function Value(): KernelRuntime
      requires Valid()
      reads Parts()
    {
      if PlainObject? then Base(plain.Value()) else WithJournal(journaled.Value())
    }
  }

  method CaptureOn(r: RuntimeObject, task: u64, frame: TrapFrame, root: u64, generation: u64)
    returns (captured: Outcome<RuntimeError>)
    requires r.Valid()
    modifies r.Parts()
    ensures r.Valid()
    ensures match CaptureIn(old(r.Value()), task, frame, root, generation)
            case Ok(next) => captured == Pass && r.Value() == next
            case Err(e) => captured == Fail(e) && r.Value() == old(r.Value())
  {
    hide R.CaptureTrap;
    captured := r.Core().CaptureTrap(task, frame, root, generation);
  }

  /** A plain runtime is put back on an error; a journaled one may stop short. */
  method HandleOn(r: RuntimeObject, task: u64) returns (reply: Trapped)
    requires r.Valid()
    modifies r.Parts()
    ensures r.Valid()
    ensures match HandleIn(old(r.Value()), task)
            case Ok((next, outcome)) => reply == Ok(outcome) && r.Value() == next
            case Err(e) => reply == Err(e) && (r.PlainObject? ==> r.Value() == old(r.Value()))
  {
    match r {
      case PlainObject(plain) => reply := plain.HandleTrap(task);
      case JournaledObject(journaled) => reply := journaled.HandleTrap(task);
    }
  }

  method BeginOn(r: RuntimeObject, task: u64) returns (begun: Outcome<RuntimeError>)
    requires r.Valid()
    modifies r.Parts()
    ensures r.Valid()
    ensures match BeginIn(old(r.Value()), task)
            case Ok(next) => begun == Pass && r.Value() == next
            case Err(e) => begun == Fail(e) && (r.PlainObject? ==> r.Value() == old(r.Value()))
  {
    match r {
      case PlainObject(plain) => begun := plain.BeginTeardown(task);
      case JournaledObject(journaled) => begun := journaled.BeginTeardown(task);
    }
  }

  method CompleteOn(r: RuntimeObject, task: u64) returns (next: Result<Option<u64>, RuntimeError>)
    requires r.Valid()
    modifies r.Parts()
    ensures r.Valid()
    ensures match CompleteIn(old(r.Value()), task)
            case Ok((after, chosen)) => next == Ok(chosen) && r.Value() == after
            case Err(e) => next == Err(e) && r.Value() == old(r.Value())
  {
    match r {
      case PlainObject(plain) => next := plain.CompleteTeardown(task);
      case JournaledObject(journaled) => next := journaled.CompleteTeardown(task);
    }
  }

  /** The expected end, up to what a journaled runtime leaves behind when the kernel stops inside it. */
  predicate Reaches(expected: System, actual: System) {
    || actual == expected
    || (&& expected.runtime.WithJournal? && actual == expected.(runtime := actual.runtime)
        && (expected.phase == InKernel(KernelFailure(TrapTransition))
            || expected.phase == InKernel(KernelFailure(HandleFirstTeardown))))
  }

  ghost function OwnerParts(owner: AddressSpaceOwner?): set<object> {
    if owner == null then {} else {owner, owner.ledger, owner.ledger.frames}
  }

  ghost predicate OwnerSound(owner: AddressSpaceOwner?)
    reads OwnerParts(owner)
  {
    owner != null ==> owner.Valid()
  }

  ghost function OwnerValue(owner: AddressSpaceOwner?): Option<Owner>
    requires OwnerSound(owner)
    reads OwnerParts(owner)
  {
    if owner == null then None else Some(owner.Value())
  }

  class Cells {
    const runtime: RuntimeObject
    const memory: PhysicalMemory
    var sender: AddressSpaceOwner?
    var receiver: AddressSpaceOwner?
    var active: Option<(u64, u64)>
    var phase: SystemPhase
    ghost var runtimeRepr: set<object>

    ghost function Repr(): set<object>
      reads this
    {
      {this} + runtimeRepr + memory.Parts() + OwnerParts(sender) + OwnerParts(receiver)
    }

    /** The objects are sound and share nothing. */
    ghost predicate Valid()
      reads this, Repr(), runtime.Parts()
    {
      && runtime.Valid() && memory.allocator.Shape() && OwnerSound(sender) && OwnerSound(receiver)
      && runtimeRepr == runtime.Parts()
      && {this} !! runtimeRepr !! memory.Parts() !! OwnerParts(sender) !! OwnerParts(receiver)
    }

    ghost function Value(): System
      requires Valid()
      reads this, Repr(), runtime.Parts()
    {
      System(runtime.Value(), Owners(OwnerValue(sender), OwnerValue(receiver)), memory.Value(), active, phase)
    }

    constructor (runtime: RuntimeObject, memory: PhysicalMemory, sender: AddressSpaceOwner, receiver: AddressSpaceOwner)
      requires runtime.Valid() && memory.allocator.Shape() && sender.Valid() && receiver.Valid()
      requires runtime.Parts() !! memory.Parts() !! OwnerParts(sender) !! OwnerParts(receiver)
      ensures Valid()
      ensures Value() == System(runtime.Value(), Owners(Some(sender.Value()), Some(receiver.Value())), memory.Value(),
                                None, InKernel(Finished))
    {
      this.runtime, this.memory, this.sender, this.receiver := runtime, memory, sender, receiver;
      active, phase := None, InKernel(Finished);
      runtimeRepr := runtime.Parts();
    }

    function Find(task: u64): AddressSpaceOwner?
      reads this
    {
      if task == SENDER_TASK_ID then sender else if task == RECEIVER_TASK_ID then receiver else null
    }

    // One cell at a time ---------------------------------------------------------------------------------

    method Enter(next: SystemPhase)
      requires Valid()
      modifies this`phase
      ensures Valid() && Repr() == old(Repr()) && Value() == old(Value()).(phase := next)
    {
      hide RuntimeObject.Parts, RuntimeObject.Valid, RuntimeObject.Value;
      phase := next;
    }

    method SetActive(next: Option<(u64, u64)>)
      requires Valid()
      modifies this`active
      ensures Valid() && Repr() == old(Repr()) && Value() == old(Value()).(active := next)
    {
      hide RuntimeObject.Parts, RuntimeObject.Valid, RuntimeObject.Value;
      active := next;
    }

    method IsChosen(task: u64) returns (chosen: bool)
      requires Valid()
      ensures chosen <==> Chosen(Value().runtime.Core(), task)
    {
      var core := runtime.Core();
      var running := core.Running();
      return IsTask(task) && running == Ok(task) && core.Cell(task).state == Running;
    }

    method ActivateOwner(task: u64) returns (done: Outcome<OwnerError>)
      requires Valid() && Find(task) != null
      modifies Find(task)
      ensures Valid() && Repr() == old(Repr())
      ensures var (owner, r) := AS.Activate(old(Find(task).Value()));
              done == r && Value() == old(Value()).(owners := old(Value()).owners.With(task, Some(owner)))
    {
      hide RuntimeObject.Parts, RuntimeObject.Valid, RuntimeObject.Value;
      hide AS.Activate;
      done := Find(task).Activate();
    }

    method RecoverOwner(task: u64) returns (done: Outcome<OwnerError>)
      requires Valid() && Find(task) != null
      modifies Find(task)
      ensures Valid() && Repr() == old(Repr())
      ensures var (owner, r) := AS.Recover(old(Find(task).Value()));
              done == r && Value() == old(Value()).(owners := old(Value()).owners.With(task, Some(owner)))
    {
      hide RuntimeObject.Parts, RuntimeObject.Valid, RuntimeObject.Value;
      hide AS.Recover;
      done := Find(task).Recover();
    }

    /** The owner leaves its cell. */
    method TakeOwner(task: u64) returns (owner: AddressSpaceOwner?)
      requires Valid()
      modifies this`sender, this`receiver
      ensures Valid() && owner == old(Find(task)) && OwnerParts(owner) !! Repr()
              && Repr() + OwnerParts(owner) == old(Repr())
      ensures Value() == old(Value()).(owners := old(Value()).owners.With(task, None))
    {
      hide RuntimeObject.Parts, RuntimeObject.Valid, RuntimeObject.Value;
      owner := Find(task);
      if task == SENDER_TASK_ID {
        sender := null;
      } else if task == RECEIVER_TASK_ID {
        receiver := null;
      }
    }

    method CaptureRuntime(task: u64, frame: TrapFrame, root: u64, generation: u64)
        returns (captured: Outcome<RuntimeError>)
      requires Valid()
      modifies runtimeRepr
      ensures Valid() && Repr() == old(Repr())
      ensures match CaptureIn(old(Value()).runtime, task, frame, root, generation)
              case Ok(next) => captured == Pass && Value() == old(Value()).(runtime := next)
              case Err(e) => captured == Fail(e) && Value() == old(Value())
    {
      hide RuntimeObject.Parts, RuntimeObject.Valid, RuntimeObject.Value;
      hide CaptureIn;
      captured := CaptureOn(runtime, task, frame, root, generation);
    }

    method HandleRuntime(task: u64) returns (reply: Trapped)
      requires Valid()
      modifies runtimeRepr
      ensures Valid() && Repr() == old(Repr())
      ensures match HandleIn(old(Value()).runtime, task)
              case Ok((next, outcome)) => reply == Ok(outcome) && Value() == old(Value()).(runtime := next)
              case Err(e) => reply == Err(e) && Stopped(old(Value()), Value())
    {
      hide RuntimeObject.Parts, RuntimeObject.Valid, RuntimeObject.Value;
      hide HandleIn;
      ObjectKind(runtime);
      reply := HandleOn(runtime, task);
      ObjectKind(runtime);
    }

    method BeginRuntime(task: u64) returns (begun: Outcome<RuntimeError>)
      requires Valid()
      modifies runtimeRepr
      ensures Valid() && Repr() == old(Repr())
      ensures match BeginIn(old(Value()).runtime, task)
              case Ok(next) => begun == Pass && Value() == old(Value()).(runtime := next)
              case Err(e) => begun == Fail(e) && Stopped(old(Value()), Value())
    {
      hide RuntimeObject.Parts, RuntimeObject.Valid, RuntimeObject.Value;
      hide BeginIn;
      ObjectKind(runtime);
      begun := BeginOn(runtime, task);
      ObjectKind(runtime);
    }

    method CompleteRuntime(task: u64) returns (next: Result<Option<u64>, RuntimeError>)
      requires Valid()
      modifies runtimeRepr
      ensures Valid() && Repr() == old(Repr())
      ensures match CompleteIn(old(Value()).runtime, task)
              case Ok((after, chosen)) => next == Ok(chosen) && Value() == old(Value()).(runtime := after)
              case Err(e) => next == Err(e) && Value() == old(Value())
    {
      hide RuntimeObject.Parts, RuntimeObject.Valid, RuntimeObject.Value;
      hide CompleteIn;
      next := CompleteOn(runtime, task);
    }

    /** The task's handles are closed and gone. */
    method HandlesGone(task: u64) returns (gone: bool)
      requires Valid() && IsTask(task)
      ensures gone <==> var table := Slot(Value().runtime.Core(), task).capabilities;
                        table.state == TableClosing && NoEntries(table.slots)
    {
      hide NoEntries;
      var table := runtime.Core().Cell(task).capabilities;
      var empty := table.IsEmpty();
      return table.state == TableClosing && empty;
    }

    /** Gives a taken owner's frames back; the cells see only the memory change. */
    method Release(owner: AddressSpaceOwner) returns (torn: bool)
      requires Valid() && owner.Valid() && OwnerParts(owner) !! Repr()
      requires owner.state == Inactive && owner.live ==> Published(owner.Value())
      modifies memory.Parts(), OwnerParts(owner)
      ensures Valid() && Repr() == old(Repr()) && owner.Valid()
      ensures var (m, result) := Teardown(Step, AS.Machine(old(Value()).kernel, []), old(owner.Value()));
              && Value() == old(Value()).(kernel := m.state) && (torn <==> result.TornDown?)
              && (torn ==> owner.Value() == result.dead)
    {
      hide RuntimeObject.Parts, RuntimeObject.Valid, RuntimeObject.Value;
      hide Teardown, Step;
      torn := TeardownInKernel(owner, memory);
    }

    // The driver -----------------------------------------------------------------------------------------

    /** Why the task may not run, if it may not. */
    method Refusal(task: u64) returns (refusal: Option<SystemPhase>)
      requires Valid() && WellOwned(Value().owners)
      ensures refusal.Some? ==> ResumeTask(Value(), task) == Value().(phase := refusal.value)
      ensures refusal.None? ==>
                && Chosen(Value().runtime.Core(), task) && Find(task) != null
                && var slot := Slot(Value().runtime.Core(), task);
                   && Find(task).root.Some? && Find(task).state == Inactive && Find(task).generation == slot.generation
                   && ContextFits(slot.context, task, slot.generation, Find(task).root.value)
    {
      hide RunningTask, InPlanOrder, Chosen, ContextFits;
      var chosen := IsChosen(task);
      if !chosen {
        return Some(InKernel(KernelFailure(SelectedState)));
      }
      ChosenIsTask(Value().runtime.Core(), task);
      var cell, owner := runtime.Core().Cell(task), Find(task);
      if owner == null {
        return Some(OwnerFailure(OwnerMissing));
      }
      if owner.root.None? {
        return Some(OwnerFailure(RootMissing));
      }
      if owner.state != Inactive || owner.generation != cell.generation {
        return Some(OwnerFailure(OwnerState));
      }
      if !ContextFits(cell.context, task, cell.generation, owner.root.value) {
        return Some(OwnerFailure(ContextMismatch));
      }
      return None;
    }

    /** Hands the processor to the task, if the runtime and its owner agree that it may run. */
    method Resume(task: u64)
      requires Valid() && WellOwned(Value().owners)
      modifies Repr()
      ensures Valid() && Repr() == old(Repr()) && Value() == ResumeTask(old(Value()), task)
    {
      hide RuntimeObject.Parts, RuntimeObject.Valid, RuntimeObject.Value;
      hide RunningTask, InPlanOrder, Chosen, ContextFits;
      var refusal := Refusal(task);
      if refusal.Some? {
        Enter(refusal.value);
        return;
      }
      var root := Find(task).root.value;
      var done := ActivateOwner(task);
      if done.Fail? {
        Enter(OwnerFailure(ActivationRefused));
        return;
      }
      SetActive(Some((task, root)));
      Enter(InKernel(OnCpu(task)));
    }

    /** Frees the torn-down task's slot and goes on with whatever the runtime chooses. */
    method Bury(task: u64)
      requires Valid() && WellOwned(Value().owners)
      modifies Repr()
      ensures Valid() && Repr() == old(Repr()) && Value() == BuryTask(old(Value()), task)
    {
      hide RuntimeObject.Parts, RuntimeObject.Valid, RuntimeObject.Value, CompleteIn, ResumeTask, InPlanOrder;
      var next := CompleteRuntime(task);
      match next {
        case Err(_) => Enter(InKernel(KernelFailure(TeardownTransition)));
        case Ok(None) => Enter(InKernel(Finished));
        case Ok(Some(chosen)) => Resume(chosen);
      }
    }

    /** Gives back the address space of a task whose handles are gone, then buries the task. */
    method ReleaseTask(task: u64)
      requires Valid() && WellOwned(Value().owners)
      modifies Repr()
      ensures Valid() && Repr() <= old(Repr()) && Value() == ReleaseThenBury(old(Value()), task)
    {
      hide RuntimeObject.Parts, RuntimeObject.Valid, RuntimeObject.Value, ReleaseOwned, InPlanOrder;
      SetActive(None);
      var owner := TakeOwner(task);
      if owner == null {
        Enter(OwnerFailure(ExitedOwnerMissing));
      } else {
        ReleaseTaken(owner, task);
      }
    }

    method ReleaseTaken(owner: AddressSpaceOwner, task: u64)
      requires Valid() && WellOwned(Value().owners) && owner.Valid() && OwnerInv(owner.Value())
      requires OwnerParts(owner) !! Repr()
      modifies Repr(), OwnerParts(owner)
      ensures Valid() && Repr() == old(Repr()) && Value() == ReleaseOwned(old(Value()), old(owner.Value()), task)
    {
      hide RuntimeObject.Parts, RuntimeObject.Valid, RuntimeObject.Value, Teardown, Step, BuryTask, InPlanOrder;
      if owner.state != Inactive {
        Enter(OwnerFailure(ExitedOwnerActive));
        return;
      }
      var torn := Release(owner);
      if !torn {
        Enter(OwnerFailure(OwnerTeardown));
      } else if owner.state != Dead || owner.ledger.len != 0 {
        Enter(OwnerFailure(OwnershipRemains));
      } else {
        Bury(task);
      }
    }

    /** Closes the task's handles, gives its address space back, then buries it. */
    method TeardownExited(task: u64)
      requires Valid() && WellOwned(Value().owners)
      modifies Repr()
      ensures Valid() && Repr() <= old(Repr()) && Reaches(TeardownTask(old(Value()), task), Value())
    {
      hide RuntimeObject.Parts, RuntimeObject.Valid, RuntimeObject.Value, BeginIn, ReleaseThenBury, NoEntries,
        InPlanOrder;
      var begun := BeginRuntime(task);
      if begun.Fail? {
        Enter(InKernel(KernelFailure(HandleFirstTeardown)));
        return;
      }
      var gone := false;
      if IsTask(task) {
        gone := HandlesGone(task);
      }
      if !gone {
        Enter(InKernel(KernelFailure(HandleFirstTeardown)));
        return;
      }
      ReleaseTask(task);
    }

    /** One trap: recover the owner, capture, handle, then resume or tear down. */
    method Handle(task: u64, frame: TrapFrame)
      requires Valid() && WellOwned(Value().owners) && IsTask(task) && Find(task) != null && Find(task).root.Some?
      modifies Repr()
      ensures Valid() && Repr() <= old(Repr())
      ensures Reaches(TrapOf(old(Value()), task, old(Find(task).Value()), frame), Value())
    {
      hide RuntimeObject.Parts, RuntimeObject.Valid, RuntimeObject.Value, CaptureIn, HandleIn, Continue, InPlanOrder;
      var root, generation := Find(task).root.value, Find(task).generation;
      var done := RecoverOwner(task);
      if done.Fail? {
        Enter(InKernel(KernelFailure(TrapCapture)));
        return;
      }
      var captured := CaptureRuntime(task, frame, root, generation);
      if captured.Fail? || !ContextFits(runtime.Core().Cell(task).context, task, generation, root) {
        CellIsSlot(runtime, task);
        Enter(InKernel(KernelFailure(TrapCapture)));
        return;
      }
      CellIsSlot(runtime, task);
      var handled := HandleRuntime(task);
      match handled {
        case Err(_) => Enter(InKernel(KernelFailure(TrapTransition)));
        case Ok(outcome) => Proceed(outcome);
      }
    }

    /** Resume the task the trap chose, or tear down the one that left. */
    method Proceed(outcome: TrapOutcome)
      requires Valid() && WellOwned(Value().owners)
      modifies Repr()
      ensures Valid() && Repr() <= old(Repr()) && Reaches(Continue(old(Value()), outcome), Value())
    {
      hide RuntimeObject.Parts, RuntimeObject.Valid, RuntimeObject.Value, TeardownTask, ResumeTask, InPlanOrder;
      match outcome {
        case Exit(task) => TeardownExited(task);
        case Resume(task) =>
          SetActive(None);
          this.Resume(task);
        case Switch(task) =>
          SetActive(None);
          this.Resume(task);
      }
    }

    method Dispatch(frame: TrapFrame)
      requires Valid() && WellOwned(Value().owners)
      modifies Repr()
      ensures Valid() && Repr() <= old(Repr()) && Reaches(TrapStep(old(Value()), frame), Value())
    {
      hide RuntimeObject.Parts, RuntimeObject.Valid, RuntimeObject.Value, TrapOf, InPlanOrder;
      if !(phase.InKernel? && phase.phase.OnCpu?) {
        return;
      }
      var task := phase.phase.task;
      var running := runtime.Core().Running();
      RunningIsRunning(runtime);
      if !IsTask(task) || running != Ok(task) {
        Enter(InKernel(KernelFailure(TrapCapture)));
        return;
      }
      var owner := Find(task);
      if owner == null {
        Enter(OwnerFailure(OwnerMissing));
      } else if owner.state != Active {
        Enter(OwnerFailure(OwnerInactive));
      } else if owner.root.None? {
        Enter(OwnerFailure(RootMissing));
      } else if active != Some((task, owner.root.value)) {
        Enter(OwnerFailure(ActiveMismatch));
      } else {
        Handle(task, frame);
      }
    }

    /** Trap after trap, the objects stay in step with the system the run theorems quantify over. */
    method DispatchAll(frames: seq<TrapFrame>, ghost k0: Kernel)
      requires Valid() && SystemInv(k0, Value()) && !Tight(k0.free)
      modifies Repr()
      ensures Valid() && SystemInv(k0, Value()) && Value() == RunSystem(old(Value()), frames)
    {
      hide RuntimeObject.Parts, RuntimeObject.Valid, RuntimeObject.Value, SystemInv, Tight, TrapStep, WellOwned;
      SystemInvParts(k0, Value());
      var i := 0;
      while i < |frames|
        invariant 0 <= i <= |frames| && Valid() && Repr() <= old(Repr())
        invariant SystemInv(k0, Value()) && WellOwned(old(Value()).owners)
        invariant Value() == RunSystem(old(Value()), frames[..i])
      {
        ghost var before := Value();
        SystemInvParts(k0, before);
        StepLands(k0, before, frames[i]);
        Dispatch(frames[i]);
        NeverStopsInside(k0, TrapStep(before, frames[i]));
        assert frames[..i + 1][..i] == frames[..i];
        i := i + 1;
      }
      assert frames[..i] == frames;
    }
  }

  /** A system that keeps the invariant has not stopped inside its runtime. */
  lemma NeverStopsInside(k0: Kernel, sys: System)
    requires SystemInv(k0, sys)
    ensures sys.phase != InKernel(KernelFailure(TrapTransition))
    ensures sys.phase != InKernel(KernelFailure(HandleFirstTeardown))
  {
  }

  lemma CellIsSlot(r: RuntimeObject, task: u64)
    requires r.Valid() && IsTask(task)
    ensures r.Core().Cell(task).context == Slot(r.Value().Core(), task).context
  {
  }

  lemma RunningIsRunning(r: RuntimeObject)
    requires r.Valid()
    ensures r.Core().Running() == RunningTask(r.Value().Core())
  {
  }

  lemma ChosenIsTask(s: RuntimeState, task: u64)
    requires Chosen(s, task)
    ensures IsTask(task)
  {
  }

  /** Same cells, and the same runtime unless it is a journaled one. */
  predicate Stopped(before: System, after: System) {
    && after == before.(runtime := after.runtime)
    && (before.runtime.Base? ==> after == before) && (before.runtime.WithJournal? ==> after.runtime.WithJournal?)
  }

  lemma ObjectKind(r: RuntimeObject)
    requires r.Valid()
    ensures r.PlainObject? <==> r.Value().Base?
  {
  }
}
