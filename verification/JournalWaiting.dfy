/**
 What the task off the processor can notice of a journaled step: as in module Waiting, its saved
 registers change only when a wait ends, here also when a refused effect ends its request.
 */
module JournalWaiting {
  import opened Words
  import opened TrapAbi
  import opened Runtime
  import opened RuntimeInvariant
  import opened RuntimeProgress
  import opened KernelDrive
  import opened Waiting
  import opened BrokerMoves
  import opened Journal
  import opened JournalInvariant
  import opened JournalProgress
  import opened JournalDrive

  lemma SamePeer(s: RuntimeState, task: u64, s': RuntimeState)
    requires IsTask(task) && Slot(s', Peer(task)) == Slot(s, Peer(task))
    ensures Undisturbed(Slot(s, Peer(task)), Slot(s', Peer(task)))
  {
  }

  /** Writing the caller's registers leaves its peer alone. */
  lemma OwnResult(s: RuntimeState, task: u64, status: TrapStatus, value: u64)
    requires IsTask(task)
    ensures Slot(SetResult(s, task, status, value), Peer(task)) == Slot(s, Peer(task))
  {
  }

  /** The request of a refused effect ends with its workload woken, status and value in its registers. */
  lemma FailedUndisturbed(j: Journaled, task: u64)
    requires Runs(j.runtime, task) && Slot(j.runtime, task).context.rax == 10 && HandleTrap(j.runtime, task).Ok?
    requires var (after, outcome) := HandleTrap(j.runtime, task).value;
             && EffectRefused(j.runtime.broker, after.broker, Slot(j.runtime, task).context,
                   Slot(after, task).context.rax)
             && JournalFailed(j, after, task, outcome).Ok?
    ensures var (after, outcome) := HandleTrap(j.runtime, task).value;
            var next := JournalFailed(j, after, task, outcome).value.0;
            Undisturbed(Slot(j.runtime, Peer(task)), Slot(next.runtime, Peer(task)))
  {
    hide Inv, Validate, ValidateJournaled, CommitEffect, CommitStatus, AppendReserved;
    var s := j.runtime;
    var i := Slot(s, task).context;
    RunsIsRunning(s, task);
    TrapIsOperation(s, task);
    CommitMove(s, task, i.rdi, i.rsi, i.rdx);
    RefusalCode(CommitStatus(s, task, i.rdi, i.rsi, i.rdx));
  }

  lemma RefusalCode(check: Outcome<TrapStatus>)
    ensures check.Fail? && check.error.Code() == EffectUnavailable.Code() ==> check == Fail(EffectUnavailable)
  {
  }

  /** Journaling neither wakes nor touches the peer beyond what the trap and a refused effect do. */
  lemma RecordedUndisturbed(j: Journaled, task: u64)
    requires Runs(j.runtime, task) && HandleTrap(j.runtime, task).Ok?
    requires var (after, outcome) := HandleTrap(j.runtime, task).value;
             Recorded(j, after, task, Slot(j.runtime, task).context, outcome).Ok?
    ensures var (after, outcome) := HandleTrap(j.runtime, task).value;
            var next := Recorded(j, after, task, Slot(j.runtime, task).context, outcome).value.0;
            Undisturbed(Slot(j.runtime, Peer(task)), Slot(next.runtime, Peer(task)))
  {
    hide Inv, HandleTrap, ValidateJournaled, AppendReserved, BeginLifecycle, JournalFailed, Undisturbed, SetResult;
    var (after, outcome) := HandleTrap(j.runtime, task).value;
    var i := Slot(j.runtime, task).context;
    TrapUndisturbed(j.runtime, task);
    forall status { OwnResult(j.runtime, task, status, 0); }
    forall status { SamePeer(j.runtime, task, SetResult(j.runtime, task, status, 0)); }
    if EffectRefused(j.runtime.broker, after.broker, i, Slot(after, task).context.rax) {
      FailedUndisturbed(j, task);
    }
  }

  lemma JournaledTrapUndisturbed(j: Journaled, task: u64)
    requires JournaledRuns(j, task)
    ensures HandleJournaledTrap(j, task).Ok?
    ensures Undisturbed(Slot(j.runtime, Peer(task)), Slot(HandleJournaledTrap(j, task).value.0.runtime, Peer(task)))
  {
    hide Inv, JournalInv, HandleTrap, Recorded, Undisturbed, HandleJournalRead;
    JournaledTrapLands(j, task);
    RunsIsRunning(j.runtime, task);
    TrapLands(j.runtime, task);
    var i := Slot(j.runtime, task).context;
    if i.rax == 11 || i.rax == 12 {
      ReadUndisturbed(j, task, i);
    } else {
      RecordedUndisturbed(j, task);
    }
  }

  lemma ReadUndisturbed(j: Journaled, task: u64, i: TaskContext)
    requires IsTask(task) && HandleJournalRead(j, task, i).Ok?
    ensures Undisturbed(Slot(j.runtime, Peer(task)), Slot(HandleJournalRead(j, task, i).value.0.runtime, Peer(task)))
  {
    hide ValidateJournaled, JournalReadStatus, ReadTriplet;
  }

  lemma JournaledTeardownUndisturbed(j: Journaled, task: u64)
    requires IsTask(task)
    ensures Undisturbed(Slot(j.runtime, Peer(task)), Slot(TeardownJournaled(j, task).state.runtime, Peer(task)))
  {
    hide BeginTeardown, CompleteTeardown, ValidateJournaled, SealForTeardown, Undisturbed;
    SamePeer(j.runtime, task, j.runtime);
    if BeginJournaledTeardown(j, task).Ok? {
      var closed, begun := SealForTeardown(j).value, BeginJournaledTeardown(j, task).value;
      SealSamePeer(j, task);
      BeginUndisturbed(closed.runtime, task);
      if CompleteTeardown(begun.runtime, task).Ok? {
        CompleteUndisturbed(begun.runtime, task);
        UndisturbedTwice(Slot(j.runtime, Peer(task)), Slot(begun.runtime, Peer(task)),
                         Slot(CompleteTeardown(begun.runtime, task).value.0, Peer(task)));
      }
    }
  }

  lemma SealSamePeer(j: Journaled, task: u64)
    requires IsTask(task) && SealForTeardown(j).Ok?
    ensures Slot(SealForTeardown(j).value.runtime, Peer(task)) == Slot(j.runtime, Peer(task))
  {
    hide AppendReserved, Seal;
  }

  /** One journaled step: the peer's registers survive, except for the result that ends its wait. */
  lemma JournaledStepUndisturbed(m: JournaledMachine, frame: TrapFrame)
    requires JournaledMachineInv(m) && m.phase.OnCpu?
    ensures IsTask(m.phase.task)
    ensures Undisturbed(Slot(m.state.runtime, Peer(m.phase.task)),
                        Slot(DriveJournaled(m, frame).state.runtime, Peer(m.phase.task)))
  {
    hide Inv, JournalInv, HandleJournaledTrap, TeardownJournaled, Undisturbed, CaptureTrap;
    var task := m.phase.task;
    RunsIsRunning(m.state.runtime, task);
    CaptureJournaled(m.state, task, frame);
    CaptureKeeps(m.state.runtime, task, frame);
    var j := m.state.(runtime := Captured(m.state.runtime, task, frame).value);
    JournaledTrapLands(j, task);
    JournaledTrapUndisturbed(j, task);
    var (next, outcome) := HandleJournaledTrap(j, task).value;
    if outcome.Exit? {
      JournaledTeardownUndisturbed(next, task);
      UndisturbedTwice(Slot(j.runtime, Peer(task)), Slot(next.runtime, Peer(task)),
                       Slot(TeardownJournaled(next, task).state.runtime, Peer(task)));
    }
  }
}
