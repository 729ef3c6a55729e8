/**
 When the whole kernel lets user code run: exactly the conditions, and what it leaves
 alone when one of them fails.
 */
module SystemLaws {
  import opened Words
  import opened TrapAbi
  import opened Runtime
  import opened KernelDrive
  import AS = AddressSpace
  import opened KernelRuntimes
  import opened SystemRun

  /** The address space a task runs in is its own: live, idle, of its generation, at its root. */
  predicate OwnSpace(slot: TaskSlot, task: u64, owner: AS.Owner) {
    && owner.live && owner.state == AS.Inactive && owner.generation == slot.generation
    && owner.root == Some(slot.context.root) && slot.context.root % 4096 == 0 && slot.context.root != 0
    && slot.context.taskId == task && slot.context.generation == slot.generation && slot.generation != 0
  }

  /**
   A task is put on the processor exactly when the runtime chose it and the space in its cell is its own. Then that
   space is the active one; otherwise nothing but the phase changes.
   */
  lemma ResumesExactly(sys: System, task: u64)
    requires WellOwned(sys.owners)
    ensures var core, r := sys.runtime.Core(), ResumeTask(sys, task);
            var fits := && Chosen(core, task) && sys.owners.Get(task).Some?
                        && OwnSpace(Slot(core, task), task, sys.owners.Get(task).value);
            && (r.phase == InKernel(OnCpu(task)) <==> fits)
            && (fits ==>
                  var owner := sys.owners.Get(task).value;
                  && r == sys.(owners := r.owners, active := Some((task, owner.root.value)), phase := r.phase)
                  && r.owners.Get(task) == Some(owner.(state := AS.Active))
                  && r.owners.Get(3 - task) == sys.owners.Get(3 - task))
            && (!fits ==> r == sys.(phase := r.phase) && (r.phase.OwnerFailure? || r.phase.phase.KernelFailure?))
  {
  }

  /** The trap of a task is handled only for the task on the processor, in the space that is active for it. */
  predicate Trapping(sys: System, task: u64) {
    && IsTask(task) && RunningTask(sys.runtime.Core()) == Ok(task)
    && sys.owners.Get(task).Some?
    && var owner := sys.owners.Get(task).value;
       owner.state == AS.Active && owner.live && owner.root.Some? && sys.active == Some((task, owner.root.value))
  }

  /** Otherwise the kernel stops where it stands: runtime, spaces and memory as they were. */
  lemma TrapGuarded(sys: System, frame: TrapFrame)
    requires WellOwned(sys.owners) && sys.phase.InKernel? && sys.phase.phase.OnCpu?
    ensures var task, r := sys.phase.phase.task, TrapStep(sys, frame);
            !Trapping(sys, task) ==>
              && r == sys.(phase := r.phase)
              && (r.phase.OwnerFailure? || r.phase == InKernel(KernelFailure(TrapCapture)))
  {
    hide TeardownTask, ResumeTask, HandleIn, CaptureIn;
  }

  /** While not on the processor nothing happens at all. */
  lemma StoppedStays(sys: System, frame: TrapFrame)
    requires WellOwned(sys.owners) && !(sys.phase.InKernel? && sys.phase.phase.OnCpu?)
    ensures TrapStep(sys, frame) == sys
  {
  }
}
