/**
 Capability handles over whole kernel runs: the raw handles a task is given are
 pairwise distinct, and no task ever holds more than publication or the manifest gave it.
 */
module Handles {
  import opened Words
  import opened TrapAbi
  import opened Capability
  import opened Runtime
  import opened RuntimeInvariant
  import opened RuntimeProgress
  import opened KernelDrive
  import opened Waiting

  /** The handle a step returns to `task`: a duplicate that came back Ok. */
  function Granted(m: Machine, frame: TrapFrame, task: u64): seq<u64> {
    if m.phase == OnCpu(task) && IsTask(task) && frame.rax == 4
       && Slot(Drive(m, frame).state, task).context.rax == StatusOk.Code()
    then [Slot(Drive(m, frame).state, task).context.rdx] else []
  }

  function AllGranted(m: Machine, frames: seq<TrapFrame>, task: u64): seq<u64>
    decreases |frames|
  {
    if frames == [] then []
    else
      var k := |frames| - 1;
      AllGranted(m, frames[..k], task) + Granted(Run(m, frames[..k]), frames[k], task)
  }

  /** A running task's own trap moves its table by at most one duplicate or close. */
  lemma TrapMovesTable(s: RuntimeState, task: u64, raw: u64)
    requires Runs(s, task) && HandleTrap(s, task).Ok?
    requires var t := Slot(s, task).capabilities; t.taskId == task && t.taskGeneration == Slot(s, task).generation
    requires GenerationsSound(Slot(s, task).capabilities)
    ensures var t := Slot(s, task).capabilities;
            var slot' := Slot(HandleTrap(s, task).value.0, task);
            && (Spent(t, raw) ==> Spent(slot'.capabilities, raw))
            && (Slot(s, task).context.rax == 4 && slot'.context.rax == StatusOk.Code() ==>
                  !Spent(t, slot'.context.rdx) && Spent(slot'.capabilities, slot'.context.rdx))
  {
    hide Inv, HandleTrap, GenerationsSound, Spent;
    TrapUndisturbed(s, task);
    if Slot(s, task).context.rax == 4 {
      DuplicateMovesTable(s, task, raw);
    } else if Slot(s, task).context.rax == 5 {
      CloseMovesTable(s, task, raw);
    }
  }

  lemma DuplicateMovesTable(s: RuntimeState, task: u64, raw: u64)
    requires Runs(s, task) && HandleTrap(s, task).Ok? && Slot(s, task).context.rax == 4
    requires var t := Slot(s, task).capabilities; t.taskId == task && t.taskGeneration == Slot(s, task).generation
    requires GenerationsSound(Slot(s, task).capabilities)
    ensures var t := Slot(s, task).capabilities;
            var slot' := Slot(HandleTrap(s, task).value.0, task);
            && (Spent(t, raw) ==> Spent(slot'.capabilities, raw))
            && (slot'.context.rax == StatusOk.Code() ==>
                  !Spent(t, slot'.context.rdx) && Spent(slot'.capabilities, slot'.context.rdx))
  {
    hide Inv, Validate, GenerationsSound, Spent, Duplicate;
    var i := Slot(s, task).context;
    RunsIsRunning(s, task);
    ApplyOpSteps(Slot(s, task).capabilities, DuplicateOp(i.rdi, i.rsi), raw);
    DuplicateStatus(Slot(s, task).capabilities, task, Slot(s, task).generation, i.rdi, i.rsi);
  }

  lemma DuplicateStatus(t: Table, task: u64, generation: u64, source: u64, requested: u64)
    ensures Duplicate(t, task, generation, source, requested) != Err(StatusOk)
  {
  }

  lemma CloseMovesTable(s: RuntimeState, task: u64, raw: u64)
    requires Runs(s, task) && HandleTrap(s, task).Ok? && Slot(s, task).context.rax == 5
    requires var t := Slot(s, task).capabilities; t.taskId == task && t.taskGeneration == Slot(s, task).generation
    requires GenerationsSound(Slot(s, task).capabilities)
    ensures Spent(Slot(s, task).capabilities, raw) ==> Spent(Slot(HandleTrap(s, task).value.0, task).capabilities, raw)
  {
    hide Inv, Validate, GenerationsSound, Spent, Close;
    RunsIsRunning(s, task);
    ApplyOpSteps(Slot(s, task).capabilities, CloseOp(Slot(s, task).context.rdi), raw);
  }

  lemma TableFacts(s: RuntimeState, task: u64)
    requires Runs(s, task)
    ensures var t := Slot(s, task).capabilities;
            t.taskId == task && t.taskGeneration == Slot(s, task).generation && GenerationsSound(t)
  {
  }

  lemma ExitGone(s: RuntimeState, task: u64)
    requires Leaving(s, task)
    ensures !Attached(Slot(TeardownExited(s, task).state, task))
  {
    hide Inv, Validate, CloseTable;
    BeginTeardownLands(s, task);
  }

  lemma RunsAttached(s: RuntimeState, task: u64)
    requires Runs(s, task)
    ensures Attached(Slot(s, task))
  {
  }

  /** One kernel step of `task`: spent handles stay spent and a granted one was not spent before. */
  lemma OwnStep(m: Machine, frame: TrapFrame, task: u64, raw: u64)
    requires MachineInv(m) && m.phase == OnCpu(task) && IsTask(task)
    ensures var t := Slot(m.state, task).capabilities;
            var slot' := Slot(Drive(m, frame).state, task);
            && Attached(Slot(m.state, task))
            && (Attached(slot') && Spent(t, raw) ==> Spent(slot'.capabilities, raw))
            && (Granted(m, frame, task) != [] ==>
                  !Spent(t, slot'.context.rdx) && Spent(slot'.capabilities, slot'.context.rdx))
  {
    hide Validate, SlotInv, QueueInv, CooperativeInv, SupervisedInv, HandleTrap, TeardownExited, CaptureTrap, Spent;
    RunsIsRunning(m.state, task);
    CaptureKeeps(m.state, task, frame);
    var s := Captured(m.state, task, frame).value;
    TableFacts(s, task);
    RunsAttached(m.state, task);
    TrapLands(s, task);
    ExitExactly(s, task);
    TrapMovesTable(s, task, raw);
    var (next, outcome) := HandleTrap(s, task).value;
    if outcome.Exit? {
      ExitGone(next, task);
    }
  }

  /** A step of the peer, or of nobody, leaves a cooperative task's table alone. */
  lemma PeerStep(m: Machine, frame: TrapFrame, task: u64)
    requires MachineInv(m) && m.phase != OnCpu(task) && IsTask(task) && m.state.profile == Cooperative
    ensures var slot' := Slot(Drive(m, frame).state, task);
            && Granted(m, frame, task) == []
            && (Attached(slot') ==>
                  Attached(Slot(m.state, task)) && slot'.capabilities == Slot(m.state, task).capabilities)
  {
    hide SlotInv, QueueInv, HandleTrap, TeardownExited, CaptureTrap, Validate;
    if m.phase.OnCpu? {
      StepUndisturbed(m, frame);
    }
  }

  predicate Distinct(xs: seq<u64>) {
    forall i, j :: 0 <= i < j < |xs| ==> xs[i] != xs[j]
  }

  /** Over any cooperative run, a task is never handed the same raw handle twice. */
  lemma {:induction false} GrantedHandlesDistinct(m: Machine, frames: seq<TrapFrame>, task: u64)
    requires MachineInv(m) && IsTask(task) && m.state.profile == Cooperative
    ensures Distinct(AllGranted(m, frames, task))
    ensures var slot := Slot(Run(m, frames).state, task);
            Attached(slot) ==> forall h :: h in AllGranted(m, frames, task) ==> Spent(slot.capabilities, h)
    decreases |frames|
  {
    hide Inv, Drive, Granted, Spent, Attached;
    if frames != [] {
      var k := |frames| - 1;
      var prior := Run(m, frames[..k]);
      var before := AllGranted(m, frames[..k], task);
      GrantedHandlesDistinct(m, frames[..k], task);
      RunProgress(m, frames[..k]);
      if prior.phase != OnCpu(task) {
        PeerStep(prior, frames[k], task);
      } else {
        GrantedShape(prior, frames[k], task);
        OwnStep(prior, frames[k], task, 0);
        forall h | h in before
          ensures Attached(Slot(Run(m, frames).state, task)) ==>
                    Spent(Slot(Run(m, frames).state, task).capabilities, h)
        {
          OwnStep(prior, frames[k], task, h);
        }
      }
    }
  }

  lemma GrantedShape(m: Machine, frame: TrapFrame, task: u64)
    requires IsTask(task)
    ensures Granted(m, frame, task) == []
            || Granted(m, frame, task) == [Slot(Drive(m, frame).state, task).context.rdx]
  {
    hide Drive;
  }

  /** In every reachable state, every live entry is one publication or the manifest installed, or a narrower copy. */
  lemma {:induction false} RightsBounded(m: Machine, frames: seq<TrapFrame>, task: u64, i: nat)
    requires MachineInv(m) && IsTask(task) && i < SLOT_COUNT
    requires var slot := Slot(Run(m, frames).state, task);
             slot.state != TaskDead && slot.capabilities.slots[i].entry.Some?
    ensures var slot := Slot(Run(m, frames).state, task);
            EntryAllowed(m.state.profile, task, slot.generation, i, slot.capabilities.slots[i].entry.value)
  {
    hide Drive, QueueInv, CooperativeInv, SupervisedInv;
    RunProgress(m, frames);
  }
}
