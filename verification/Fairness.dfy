/**
 A program that yields gives the processor up: a ready peer has it next, and the
 caller stands in line behind nobody else.
 */
module Fairness {
  import opened Words
  import opened TrapAbi
  import opened Runtime
  import opened RuntimeInvariant
  import opened RuntimeProgress
  import opened KernelDrive
  import opened Waiting
  import opened JournalInvariant
  import opened JournalDrive
  import opened JournalWaiting
  import opened ReferenceView
  import opened TrapRefinement
  import opened Refinement
  import opened JournalRefinement
  import Ref = Reference

  /** The registers of a well-formed yield. */
  predicate Yields(frame: TrapFrame) {
    frame.rax == 0 && frame.rdi == 0 && frame.rsi == 0 && frame.rdx == 0
  }

  /** What the reference machine makes of a yield. */
  lemma YieldStep(w: Ref.World, frame: Ref.Registers)
    requires w.turn.Of? && 1 <= w.turn.task <= 2 && Yields(frame)
    requires Ref.At(w, w.turn.task).Present? && |Ref.At(w, w.turn.task).names| == 16
    ensures var me := w.turn.task;
            var you := 3 - me;
            var w' := Ref.Step(w, frame);
            && (w.line == [you] && Ref.At(w, you).Present? ==>
                  && w'.turn == Ref.Of(you) && w'.line == [me]
                  && Ref.At(w', me).Present? && Ref.At(w', me).mood == Ref.Waiting
                  && Ref.At(w', me).registers == frame.(rax := 0, rdx := 0)
                  && Ref.At(w', you) == Ref.At(w, you).(mood := Ref.Busy))
            && (w.line == [] ==>
                  && w'.turn == Ref.Of(me) && w'.line == []
                  && Ref.At(w', me).Present? && Ref.At(w', me).mood == Ref.Busy
                  && Ref.At(w', me).registers == frame.(rax := 0, rdx := 0)
                  && Ref.At(w', you) == Ref.At(w, you))
  {
  }

  /** Who stands in line while a task runs. */
  lemma LineIs(s: RuntimeState, task: u64)
    requires Runs(s, task)
    ensures s.queue == if Slot(s, Peer(task)).state == Ready then [Peer(task)] else []
    ensures Peer(task) == 3 - task
  {
    hide SlotInv, CooperativeInv, SupervisedInv;
  }

  /** Reading a task off the view. */
  lemma ReadOff(s: RuntimeState, turn: Ref.Turn, log: Option<Ref.Log>, who: u64)
    requires IsTask(who)
    ensures var t := Ref.At(View(s, turn, log), who);
            && (t.Present? <==> Here(Slot(s, who)))
            && (t.Present? ==>
                  t.mood == MoodOf(Slot(s, who).state) && t.registers == RegistersOf(Slot(s, who).context)
                  && |t.names| == 16)
    ensures View(s, turn, log).line == s.queue && View(s, turn, log).turn == turn
  {
    hide HeldIn, DeskOf;
  }

  /** A yield, on any state that shows the two programs as the reference machine does. */
  predicate Passed(before: RuntimeState, task: u64, after: RuntimeState, phase: Phase, frame: TrapFrame)
    requires IsTask(task)
  {
    var peer := Peer(task);
    && RegistersOf(Slot(after, task).context) == frame.(rax := 0, rdx := 0)
    && if Slot(before, peer).state == Ready then
         phase == OnCpu(peer) && Slot(after, task).state == Ready && after.queue == [task]
       else
         phase == OnCpu(task) && Slot(after, task).state == Running && after.queue == []
  }

  lemma PassedFrom(s: RuntimeState, task: u64, after: RuntimeState, phase: Phase, frame: TrapFrame,
      log: Option<Ref.Log>,
                   log': Option<Ref.Log>)
    requires Runs(s, task) && Yields(frame)
    requires View(after, TurnOf(phase), log') == Ref.Step(Seen(s, task, log), frame)
    requires phase.OnCpu? ==> Runs(after, phase.task)
    ensures Passed(s, task, after, phase, frame)
  {
    hide Inv, View, Ref.Step;
    LineIs(s, task);
    ReadOff(s, Ref.Of(task), log, task);
    ReadOff(s, Ref.Of(task), log, Peer(task));
    ReadOff(after, TurnOf(phase), log', task);
    YieldStep(Seen(s, task, log), frame);
    OnlyRunning(s, task);
    if phase.OnCpu? { OnlyRunning(after, phase.task); }
  }

  lemma OnlyRunning(s: RuntimeState, task: u64)
    requires Runs(s, task)
    ensures Here(Slot(s, task)) && !Active(Slot(s, Peer(task)))
  {
    hide SlotInv, QueueInv, CooperativeInv, SupervisedInv;
  }

  /** After a well-formed yield a ready peer runs and the caller alone waits; without one the caller goes on. */
  lemma YieldPasses(m: Machine, frame: TrapFrame)
    requires MachineInv(m) && m.phase.OnCpu? && Yields(frame)
    ensures IsTask(m.phase.task)
    ensures var m' := Drive(m, frame);
            Passed(m.state, m.phase.task, m'.state, m'.phase, frame)
  {
    hide Inv, View, Drive, Ref.Step, Passed;
    StepRefines(m, frame);
    DriveProgress(m, frame);
    PassedFrom(m.state, m.phase.task, Drive(m, frame).state, Drive(m, frame).phase, frame, None, None);
  }

  lemma JournaledYieldPasses(m: JournaledMachine, frame: TrapFrame)
    requires JournaledMachineInv(m) && m.phase.OnCpu? && Yields(frame)
    ensures IsTask(m.phase.task)
    ensures var m' := DriveJournaled(m, frame);
            Passed(m.state.runtime, m.phase.task, m'.state.runtime, m'.phase, frame)
  {
    hide Inv, JournalInv, View, DriveJournaled, Ref.Step, Passed, LogOf;
    JournaledStepRefines(m, frame);
    DriveJournaledProgress(m, frame);
    var m' := DriveJournaled(m, frame);
    PassedFrom(m.state.runtime, m.phase.task, m'.state.runtime, m'.phase, frame, Some(LogOf(m.state.journal)),
               Some(LogOf(m'.state.journal)));
  }

  // Runs -------------------------------------------------------------------------------------------

  /** The task has the processor at every point of the run. */
  predicate Keeps(m: Machine, frames: seq<TrapFrame>, task: u64) {
    forall k :: 0 <= k <= |frames| ==> Run(m, frames[..k]).phase == OnCpu(task)
  }

  lemma {:induction false} ReadyStaysReady(m: Machine, frames: seq<TrapFrame>, task: u64)
    requires MachineInv(m) && IsTask(task) && Keeps(m, frames, task) && Slot(m.state, Peer(task)).state == Ready
    ensures MachineInv(Run(m, frames)) && Run(m, frames).phase == OnCpu(task)
    ensures Slot(Run(m, frames).state, Peer(task)).state == Ready
    decreases |frames|
  {
    hide Drive, Inv;
    RunProgress(m, frames);
    assert frames[..|frames|] == frames;
    if frames != [] {
      var k := |frames| - 1;
      forall i | 0 <= i <= k ensures Run(m, frames[..k][..i]).phase == OnCpu(task) {
        assert frames[..k][..i] == frames[..i];
      }
      ReadyStaysReady(m, frames[..k], task);
      StepUndisturbed(Run(m, frames[..k]), frames[k]);
      OnlyRunning(Run(m, frames).state, task);
    }
  }

  /** However long a task keeps the processor, its next yield hands it to a peer that was ready. */
  lemma {:induction false} ReadyRunsAfterYield(m: Machine, frames: seq<TrapFrame>, task: u64, frame: TrapFrame)
    requires MachineInv(m) && IsTask(task) && Keeps(m, frames, task) && Slot(m.state, Peer(task)).state == Ready
    requires Yields(frame)
    ensures Run(m, frames + [frame]).phase == OnCpu(Peer(task))
  {
    hide Drive, MachineInv;
    ReadyStaysReady(m, frames, task);
    YieldPasses(Run(m, frames), frame);
    assert (frames + [frame])[..|frames|] == frames;
  }

  predicate KeepsJournaled(m: JournaledMachine, frames: seq<TrapFrame>, task: u64) {
    forall k :: 0 <= k <= |frames| ==> RunJournaled(m, frames[..k]).phase == OnCpu(task)
  }

  lemma {:induction false} ReadyStaysReadyJournaled(m: JournaledMachine, frames: seq<TrapFrame>, task: u64)
    requires JournaledMachineInv(m) && IsTask(task) && KeepsJournaled(m, frames, task)
    requires Slot(m.state.runtime, Peer(task)).state == Ready
    ensures JournaledMachineInv(RunJournaled(m, frames)) && RunJournaled(m, frames).phase == OnCpu(task)
    ensures Slot(RunJournaled(m, frames).state.runtime, Peer(task)).state == Ready
    decreases |frames|
  {
    hide DriveJournaled, Inv, JournalInv;
    RunJournaledProgress(m, frames);
    assert frames[..|frames|] == frames;
    if frames != [] {
      var k := |frames| - 1;
      forall i | 0 <= i <= k ensures RunJournaled(m, frames[..k][..i]).phase == OnCpu(task) {
        assert frames[..k][..i] == frames[..i];
      }
      ReadyStaysReadyJournaled(m, frames[..k], task);
      JournaledStepUndisturbed(RunJournaled(m, frames[..k]), frames[k]);
      OnlyRunning(RunJournaled(m, frames).state.runtime, task);
    }
  }

  lemma {:induction false} ReadyRunsAfterJournaledYield(m: JournaledMachine, frames: seq<TrapFrame>, task: u64,
      frame: TrapFrame)
    requires JournaledMachineInv(m) && IsTask(task) && KeepsJournaled(m, frames, task)
    requires Slot(m.state.runtime, Peer(task)).state == Ready && Yields(frame)
    ensures RunJournaled(m, frames + [frame]).phase == OnCpu(Peer(task))
  {
    hide DriveJournaled, JournaledMachineInv;
    ReadyStaysReadyJournaled(m, frames, task);
    JournaledYieldPasses(RunJournaled(m, frames), frame);
    assert (frames + [frame])[..|frames|] == frames;
  }
}
