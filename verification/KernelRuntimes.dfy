/**
 The runtime as the kernel holds it, plain or journaled, and what one trap and one teardown do
 to the binding between each task and its address space.
 */
module KernelRuntimes {
  import opened Words
  import opened TrapAbi
  import opened Capability
  import opened Runtime
  import opened RuntimeInvariant
  import opened RuntimeProgress
  import opened KernelDrive
  import opened Waiting
  import opened Journal
  import opened JournalInvariant
  import opened JournalProgress
  import opened JournalDrive

  datatype KernelRuntime = Base(state: RuntimeState) | WithJournal(journaled: Journaled) {
    function Core(): RuntimeState {
      match this
      case Base(s) => s
      case WithJournal(j) => j.runtime
    }
  }

  type KernelResult<T> = Result<T, RuntimeError>

  function CaptureIn(r: KernelRuntime, task: u64, frame: TrapFrame, root: u64, generation: u64):
    KernelResult<KernelRuntime>
  {
    var s :- CaptureTrap(r.Core(), task, frame, root, generation);
    Ok(if r.Base? then Base(s) else WithJournal(r.journaled.(runtime := s)))
  }

  function HandleIn(r: KernelRuntime, task: u64): KernelResult<(KernelRuntime, TrapOutcome)> {
    match r
    case Base(s) => var (next, outcome) :- HandleTrap(s, task); Ok((Base(next), outcome))
    case WithJournal(j) => var (next, outcome) :- HandleJournaledTrap(j, task); Ok((WithJournal(next), outcome))
  }

  function BeginIn(r: KernelRuntime, task: u64): KernelResult<KernelRuntime> {
    match r
    case Base(s) => var begun :- BeginTeardown(s, task); Ok(Base(begun))
    case WithJournal(j) => var begun :- BeginJournaledTeardown(j, task); Ok(WithJournal(begun))
  }

  function CompleteIn(r: KernelRuntime, task: u64): KernelResult<(KernelRuntime, Option<u64>)> {
    match r
    case Base(s) => var (next, chosen) :- CompleteTeardown(s, task); Ok((Base(next), chosen))
    case WithJournal(j) => var (next, chosen) :- CompleteJournaledTeardown(j, task); Ok((WithJournal(next), chosen))
  }

  /** The drive order of whichever runtime is held. */
  function DriveIn(r: KernelRuntime, phase: Phase, frame: TrapFrame): (KernelRuntime, Phase) {
    match r
    case Base(s) => var m := Drive(Machine(s, phase), frame); (Base(m.state), m.phase)
    case WithJournal(j) => var m := DriveJournaled(JournaledMachine(j, phase), frame); (WithJournal(m.state), m.phase)
  }

  function TeardownIn(r: KernelRuntime, task: u64): (KernelRuntime, Phase) {
    match r
    case Base(s) => var m := TeardownExited(s, task); (Base(m.state), m.phase)
    case WithJournal(j) => var m := TeardownJournaled(j, task); (WithJournal(m.state), m.phase)
  }

  /** The invariant of whichever runtime is held. */
  predicate Sane(r: KernelRuntime, phase: Phase) {
    match r
    case Base(s) => MachineInv(Machine(s, phase))
    case WithJournal(j) => JournaledMachineInv(JournaledMachine(j, phase))
  }

  predicate Departing(r: KernelRuntime, task: u64) {
    && Leaving(r.Core(), task)
    && (r.WithJournal? ==> JournalInv(r.journaled) && r.journaled.journal.state != JournalDead)
  }

  /** The task that runs is alive and is the one the runtime names. */
  predicate Chosen(s: RuntimeState, task: u64) {
    IsTask(task) && RunningTask(s) == Ok(task) && Slot(s, task).state == Running
  }

  lemma RunsIsChosen(s: RuntimeState, task: u64)
    requires Runs(s, task)
    ensures Chosen(s, task)
  {
    hide Inv;
    RunsIsRunning(s, task);
  }

  lemma SaneIsChosen(r: KernelRuntime, task: u64)
    requires Sane(r, OnCpu(task))
    ensures Runs(r.Core(), task) && Chosen(r.Core(), task)
  {
    hide Inv, JournalInv;
    RunsIsChosen(r.Core(), task);
  }

  // One trap ------------------------------------------------------------------------------------------

  lemma UndisturbedSameSpace(a: TaskSlot, b: TaskSlot)
    requires Undisturbed(a, b)
    ensures SameSpace(a, b)
  {
  }

  lemma SameSpacesTwice(a: RuntimeState, b: RuntimeState, c: RuntimeState)
    requires SameSpaces(a, b) && SameSpaces(b, c)
    ensures SameSpaces(a, c)
  {
  }

  lemma TrapKeepsSpaces(s: RuntimeState, task: u64)
    requires Runs(s, task)
    ensures HandleTrap(s, task).Ok? && SameSpaces(s, HandleTrap(s, task).value.0)
    ensures HandleTrap(s, task).value.1.Exit? ==> HandleTrap(s, task).value.1.task == task
  {
    hide Inv, HandleTrap, Undisturbed;
    TrapLands(s, task);
    TrapUndisturbed(s, task);
    UndisturbedSameSpace(Slot(s, Peer(task)), Slot(HandleTrap(s, task).value.0, Peer(task)));
  }

  /** Journaling rewrites results, never who is bound to which space. */
  lemma JournaledTrapKeepsSpaces(j: Journaled, task: u64)
    requires JournaledRuns(j, task)
    ensures HandleJournaledTrap(j, task).Ok? && SameSpaces(j.runtime, HandleJournaledTrap(j, task).value.0.runtime)
    ensures HandleJournaledTrap(j, task).value.1.Exit? ==> HandleJournaledTrap(j, task).value.1.task == task
  {
    hide JournalInv, Inv, ValidateJournaled, HandleTrap, AppendReserved, BeginLifecycle, ResolveObject, ReadTriplet;
    JournaledTrapLands(j, task);
    RunsIsRunning(j.runtime, task);
    TrapKeepsSpaces(j.runtime, task);
    var i := Slot(j.runtime, task).context;
    if i.rax != 11 && i.rax != 12 { FailedKeepsSpaces(j, HandleTrap(j.runtime, task).value.0, task); }
  }

  lemma FailedKeepsSpaces(j: Journaled, after: RuntimeState, task: u64)
    requires IsTask(task)
    ensures forall outcome :: JournalFailed(j, after, task, outcome).Ok? ==>
              SameSpaces(after, JournalFailed(j, after, task, outcome).value.0.runtime)
  {
    hide ValidateJournaled, AppendReserved;
  }

  /** One trap, up to a resumption or an exit: every check passes and no binding changes. */
  lemma TrapFacts(r: KernelRuntime, task: u64, frame: TrapFrame)
    requires Sane(r, OnCpu(task))
    ensures Chosen(r.Core(), task)
    ensures var slot := Slot(r.Core(), task);
            var captured := CaptureIn(r, task, frame, slot.context.root, slot.generation);
            && captured.Ok?
            && var handled := HandleIn(captured.value, task);
               && handled.Ok? && SameSpaces(r.Core(), handled.value.0.Core())
               && match handled.value.1 {
                    case Exit(t) =>
                      && t == task && Departing(handled.value.0, task)
                      && DriveIn(r, OnCpu(task), frame) == TeardownIn(handled.value.0, task)
                    case _ =>
                      var t := handled.value.1.task;
                      && Chosen(handled.value.0.Core(), t)
                      && DriveIn(r, OnCpu(task), frame) == (handled.value.0, OnCpu(t))
                  }
  {
    hide Inv, JournalInv, HandleTrap, HandleJournaledTrap, TeardownExited, TeardownJournaled, SameSpaces;
    SaneIsChosen(r, task);
    match r {
      case Base(s) =>
        CaptureKeeps(s, task, frame);
        var c := Captured(s, task, frame).value;
        TrapLands(c, task);
        TrapKeepsSpaces(c, task);
        CaptureSameSpaces(s, task, frame);
        var (next, outcome) := HandleTrap(c, task).value;
        SameSpacesTwice(s, c, next);
        if !outcome.Exit? { RunsIsChosen(next, outcome.task); }
      case WithJournal(j) =>
        CaptureJournaled(j, task, frame);
        var c := j.(runtime := Captured(j.runtime, task, frame).value);
        JournaledTrapLands(c, task);
        JournaledTrapKeepsSpaces(c, task);
        CaptureSameSpaces(j.runtime, task, frame);
        var (next, outcome) := HandleJournaledTrap(c, task).value;
        SameSpacesTwice(j.runtime, c.runtime, next.runtime);
        StillJournaling(next);
        if !outcome.Exit? { RunsIsChosen(next.runtime, outcome.task); }
    }
  }

  lemma CaptureSameSpaces(s: RuntimeState, task: u64, frame: TrapFrame)
    requires Runs(s, task) && Captured(s, task, frame).Ok?
    ensures SameSpaces(s, Captured(s, task, frame).value)
  {
    hide Inv;
  }

  // One teardown --------------------------------------------------------------------------------------

  lemma BeginSpaces(s: RuntimeState, task: u64)
    requires IsTask(task) && BeginTeardown(s, task).Ok?
    ensures SameSpaces(s, BeginTeardown(s, task).value)
  {
    hide Validate, CloseTable;
  }

  lemma SealSpaces(j: Journaled)
    requires SealForTeardown(j).Ok?
    ensures SealForTeardown(j).value.runtime.sender == j.runtime.sender
    ensures SealForTeardown(j).value.runtime.receiver == j.runtime.receiver
  {
    hide AppendReserved, Seal;
  }

  /** A burial frees the exited task's slot and leaves the other binding alone. */
  lemma CompleteSpaces(s: RuntimeState, task: u64)
    requires IsTask(task) && CompleteTeardown(s, task).Ok?
    ensures var s' := CompleteTeardown(s, task).value.0;
            SameSpace(Slot(s, Peer(task)), Slot(s', Peer(task))) && Slot(s', task).state == TaskDead
  {
    hide Validate, NoEntries;
  }

  /** Closing comes first, and only a supervisor leaving a staged workload behind is refused its burial. */
  lemma TeardownFacts(r: KernelRuntime, task: u64)
    requires Departing(r, task)
    ensures IsTask(task)
    ensures var begun := BeginIn(r, task);
            && begun.Ok? && SameSpaces(r.Core(), begun.value.Core())
            && Slot(begun.value.Core(), task).capabilities.state == TableClosing
            && NoEntries(Slot(begun.value.Core(), task).capabilities.slots)
            && match CompleteIn(begun.value, task) {
                 case Err(_) =>
                   && task == SENDER_TASK_ID
                   && TeardownIn(r, task) == (begun.value, KernelFailure(TeardownTransition))
                 case Ok((next, chosen)) =>
                   && Slot(next.Core(), task).state == TaskDead
                   && SameSpace(Slot(r.Core(), Peer(task)), Slot(next.Core(), Peer(task)))
                   && match chosen {
                        case Some(t) => t == Peer(task) && Chosen(next.Core(), t)
                            && TeardownIn(r, task) == (next, OnCpu(t))
                        case None => BothDead(next.Core()) && TeardownIn(r, task) == (next, Finished)
                      }
               }
  {
    hide Inv, JournalInv, BeginTeardown, CompleteTeardown, SealForTeardown, ValidateJournaled, NoEntries, SameSpace,
      RunningTask;
    match r {
      case Base(s) =>
        BeginTeardownLands(s, task);
        BeginSpaces(s, task);
        var begun := BeginTeardown(s, task).value;
        CompleteTeardownLands(begun, task);
        ClosingIsEmpty(begun, task);
        if CompleteTeardown(begun, task).Ok? {
          BuriedFacts(s, begun, task);
        }
      case WithJournal(j) =>
        BeginJournaledLands(j, task);
        SealLands(j);
        SealSpaces(j);
        BeginSpaces(SealForTeardown(j).value.runtime, task);
        var begun := BeginJournaledTeardown(j, task).value;
        CompleteJournaledLands(begun, task);
        JournalInvInv(begun);
        ClosingIsEmpty(begun.runtime, task);
        SealedSpaces(j.runtime, SealForTeardown(j).value.runtime, begun.runtime);
        if CompleteJournaledTeardown(begun, task).Ok? {
          BuriedFacts(j.runtime, begun.runtime, task);
        }
    }
  }

  lemma JournalInvInv(j: Journaled)
    requires JournalInv(j)
    ensures Inv(j.runtime)
  {
  }

  lemma SealedSpaces(s: RuntimeState, closed: RuntimeState, begun: RuntimeState)
    requires closed.sender == s.sender && closed.receiver == s.receiver && SameSpaces(closed, begun)
    ensures SameSpaces(s, begun)
  {
  }

  lemma ClosingIsEmpty(s: RuntimeState, task: u64)
    requires Inv(s) && IsTask(task) && Slot(s, task).state == Exited && Slot(s, task).capabilities.state == TableClosing
    ensures NoEntries(Slot(s, task).capabilities.slots)
  {
    hide QueueInv, CooperativeInv, SupervisedInv, TableInv;
  }

  lemma BuriedFacts(s: RuntimeState, begun: RuntimeState, task: u64)
    requires IsTask(task) && SameSpaces(s, begun) && CompleteTeardown(begun, task).Ok?
    requires var (next, chosen) := CompleteTeardown(begun, task).value;
             match chosen case Some(t) => Runs(next, t) case None => BothDead(next)
    ensures var (next, chosen) := CompleteTeardown(begun, task).value;
            && Slot(next, task).state == TaskDead && SameSpace(Slot(s, Peer(task)), Slot(next, Peer(task)))
            && (chosen.Some? ==> chosen.value == Peer(task) && Chosen(next, chosen.value))
  {
    hide Inv, CompleteTeardown, RunningTask;
    CompleteSpaces(begun, task);
    var (next, chosen) := CompleteTeardown(begun, task).value;
    if chosen.Some? { RunsIsChosen(next, chosen.value); }
  }

  // Whole drives --------------------------------------------------------------------------------------

  lemma DriveKeepsSane(r: KernelRuntime, phase: Phase, frame: TrapFrame)
    requires Sane(r, phase)
    ensures var (r', phase') := DriveIn(r, phase, frame); Sane(r', phase')
  {
    hide MachineInv, JournaledMachineInv, Drive, DriveJournaled;
    match r {
      case Base(s) => DriveProgress(Machine(s, phase), frame);
      case WithJournal(j) => DriveJournaledProgress(JournaledMachine(j, phase), frame);
    }
  }

  function RunIn(r: KernelRuntime, phase: Phase, frames: seq<TrapFrame>): (KernelRuntime, Phase)
    decreases |frames|
  {
    if frames == [] then (r, phase)
    else
      var (r', phase') := RunIn(r, phase, frames[..|frames| - 1]);
      DriveIn(r', phase', frames[|frames| - 1])
  }

  /** The runs here are the runs of the plain and of the journaled machine. */
  lemma {:induction false} RunsAgree(r: KernelRuntime, phase: Phase, frames: seq<TrapFrame>)
    ensures RunIn(r, phase, frames)
            == match r
               case Base(s) => var m := Run(Machine(s, phase), frames); (Base(m.state), m.phase)
               case WithJournal(j) =>
                 var m := RunJournaled(JournaledMachine(j, phase), frames); (WithJournal(m.state), m.phase)
    decreases |frames|
  {
    hide Drive, DriveJournaled;
    if frames != [] { RunsAgree(r, phase, frames[..|frames| - 1]); }
  }
}
