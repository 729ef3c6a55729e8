/**
 What the task off the processor can notice: its saved registers change only when a
 wait ends, and then only the status and value registers.
 */
module Waiting {
  import opened Words
  import opened TrapAbi
  import opened Capability
  import opened Runtime
  import opened RuntimeInvariant
  import opened RuntimeProgress
  import opened KernelDrive

  predicate Blocked(slot: TaskSlot) {
    slot.state == BlockedReceive || slot.state == BlockedApproval
  }

  /** Equal but for `rax` and `rdx`. */
  predicate OnlyResultDiffers(before: TaskContext, after: TaskContext) {
    after == before.(rax := after.rax, rdx := after.rdx)
  }

  /** All another task's trap may do to a waiting one. */
  predicate Undisturbed(w: TaskSlot, w': TaskSlot) {
    && w'.generation == w.generation
    && (w'.state == w.state
        || (w.state == Ready && w'.state == Running)
        || ((Blocked(w) || w.state == Staged) && (w'.state == Ready || w'.state == Running)))
    && (w'.capabilities == w.capabilities || (w.state == Staged && w'.state != Staged))
    && (if Blocked(w) && !Blocked(w') then OnlyResultDiffers(w.context, w'.context) else w'.context == w.context)
  }

  /** The same live task still bound to the same address space, or a dead slot still dead. */
  predicate SameSpace(a: TaskSlot, b: TaskSlot) {
    && (a.state == TaskDead <==> b.state == TaskDead)
    && (a.state != TaskDead ==> a.generation == b.generation && a.context.root == b.context.root)
  }

  predicate SameSpaces(s: RuntimeState, t: RuntimeState) {
    SameSpace(s.sender, t.sender) && SameSpace(s.receiver, t.receiver)
  }

  function Peer(task: u64): u64
    requires IsTask(task)
  {
    if task == SENDER_TASK_ID then RECEIVER_TASK_ID else SENDER_TASK_ID
  }

  predicate PeerUndisturbed(s: RuntimeState, task: u64, r: Transition)
    requires IsTask(task)
  {
    r.Ok? ==>
      && Undisturbed(Slot(s, Peer(task)), Slot(r.value.0, Peer(task)))
      && (Slot(s, task).state == Running ==> SameSpace(Slot(s, task), Slot(r.value.0, task)))
  }

  /** The trap leaves the caller's own capability table alone. */
  predicate TableKept(s: RuntimeState, task: u64, r: Transition)
    requires IsTask(task)
  {
    r.Ok? && Slot(s, task).state == Running ==> Slot(r.value.0, task).capabilities == Slot(s, task).capabilities
  }

  lemma YieldUndisturbed(s: RuntimeState, task: u64, i: TaskContext)
    requires IsTask(task)
    ensures PeerUndisturbed(s, task, Yield(s, task, i))
    ensures TableKept(s, task, Yield(s, task, i))
  {
    hide Validate;
  }

  lemma SendUndisturbed(s: RuntimeState, task: u64, handle: u64, message: u64, reserved: u64)
    requires IsTask(task)
    ensures PeerUndisturbed(s, task, Send(s, task, handle, message, reserved))
    ensures TableKept(s, task, Send(s, task, handle, message, reserved))
  {
    hide Validate, SendStatus;
  }

  lemma ReceiveUndisturbed(s: RuntimeState, task: u64, handle: u64, message: u64, reserved: u64)
    requires IsTask(task)
    ensures PeerUndisturbed(s, task, Receive(s, task, handle, message, reserved))
    ensures TableKept(s, task, Receive(s, task, handle, message, reserved))
  {
    hide Validate, ResolveEndpoint;
  }

  lemma StartWorkloadUndisturbed(s: RuntimeState, task: u64, handle: u64, manifestId: u64, reserved: u64)
    requires IsTask(task)
    ensures PeerUndisturbed(s, task, StartWorkload(s, task, handle, manifestId, reserved))
    ensures TableKept(s, task, StartWorkload(s, task, handle, manifestId, reserved))
  {
    hide Validate, ResolveObject, InstallBuilding, ManifestAccepted;
  }

  lemma SubmitApprovalUndisturbed(s: RuntimeState, task: u64, handle: u64, kind: u64, argument: u64)
    requires IsTask(task)
    ensures PeerUndisturbed(s, task, SubmitApproval(s, task, handle, kind, argument))
    ensures TableKept(s, task, SubmitApproval(s, task, handle, kind, argument))
  {
    hide Validate, SubmitStatus;
  }

  lemma DecideApprovalUndisturbed(s: RuntimeState, task: u64, handle: u64, sequence: u64, decision: u64)
    requires IsTask(task)
    ensures PeerUndisturbed(s, task, DecideApproval(s, task, handle, sequence, decision))
    ensures TableKept(s, task, DecideApproval(s, task, handle, sequence, decision))
  {
    hide Validate, DecideStatus;
  }

  lemma CommitEffectUndisturbed(s: RuntimeState, task: u64, handle: u64, sequence: u64, argument: u64)
    requires IsTask(task)
    ensures PeerUndisturbed(s, task, CommitEffect(s, task, handle, sequence, argument))
    ensures TableKept(s, task, CommitEffect(s, task, handle, sequence, argument))
  {
    hide Validate, CommitStatus;
  }

  lemma TrapUndisturbed(s: RuntimeState, task: u64)
    requires Runs(s, task)
    ensures PeerUndisturbed(s, task, HandleTrap(s, task))
    ensures Slot(s, task).context.rax != 4 && Slot(s, task).context.rax != 5 ==> TableKept(s, task, HandleTrap(s, task))
  {
    hide Inv, Validate, Duplicate, Close, InspectStatus, Yield, Send, Receive, StartWorkload, SubmitApproval,
      DecideApproval, CommitEffect;
    var i := Slot(s, task).context;
    YieldUndisturbed(s, task, i);
    SendUndisturbed(s, task, i.rdi, i.rsi, i.rdx);
    ReceiveUndisturbed(s, task, i.rdi, i.rsi, i.rdx);
    StartWorkloadUndisturbed(s, task, i.rdi, i.rsi, i.rdx);
    SubmitApprovalUndisturbed(s, task, i.rdi, i.rsi, i.rdx);
    DecideApprovalUndisturbed(s, task, i.rdi, i.rsi, i.rdx);
    CommitEffectUndisturbed(s, task, i.rdi, i.rsi, i.rdx);
  }

  lemma BeginUndisturbed(s: RuntimeState, task: u64)
    requires IsTask(task) && BeginTeardown(s, task).Ok?
    ensures Undisturbed(Slot(s, Peer(task)), Slot(BeginTeardown(s, task).value, Peer(task)))
  {
    hide Validate, CloseTable;
  }

  lemma CompleteUndisturbed(s: RuntimeState, task: u64)
    requires IsTask(task) && CompleteTeardown(s, task).Ok?
    ensures Undisturbed(Slot(s, Peer(task)), Slot(CompleteTeardown(s, task).value.0, Peer(task)))
  {
    hide Validate, NoEntries;
  }

  lemma TeardownUndisturbed(s: RuntimeState, task: u64)
    requires IsTask(task)
    ensures Undisturbed(Slot(s, Peer(task)), Slot(TeardownExited(s, task).state, Peer(task)))
  {
    hide BeginTeardown, CompleteTeardown, NoEntries;
    if BeginTeardown(s, task).Ok? {
      var begun := BeginTeardown(s, task).value;
      BeginUndisturbed(s, task);
      if CompleteTeardown(begun, task).Ok? {
        CompleteUndisturbed(begun, task);
        UndisturbedTwice(Slot(s, Peer(task)), Slot(begun, Peer(task)),
                         Slot(CompleteTeardown(begun, task).value.0, Peer(task)));
      }
    }
  }

  lemma UndisturbedTwice(a: TaskSlot, b: TaskSlot, c: TaskSlot)
    requires Undisturbed(a, b) && Undisturbed(b, c)
    ensures Undisturbed(a, c)
  {
  }

  /** One kernel step: the peer's registers survive, except for the result that ends its wait. */
  lemma StepUndisturbed(m: Machine, frame: TrapFrame)
    requires MachineInv(m) && m.phase.OnCpu?
    ensures IsTask(m.phase.task)
    ensures Undisturbed(Slot(m.state, Peer(m.phase.task)), Slot(Drive(m, frame).state, Peer(m.phase.task)))
  {
    hide Inv, Validate, HandleTrap, TeardownExited, Undisturbed, CaptureTrap;
    var task := m.phase.task;
    RunsIsRunning(m.state, task);
    CaptureKeeps(m.state, task, frame);
    var s := Captured(m.state, task, frame).value;
    TrapLands(s, task);
    TrapUndisturbed(s, task);
    var (next, outcome) := HandleTrap(s, task).value;
    if outcome.Exit? {
      TeardownUndisturbed(next, task);
      UndisturbedTwice(Slot(s, Peer(task)), Slot(next, Peer(task)), Slot(TeardownExited(next, task).state, Peer(task)));
    }
  }

  /** Traps neither bury a task nor close its table. */
  lemma TrapKeepsAttached(s: RuntimeState, task: u64)
    requires Runs(s, task)
    ensures var r := HandleTrap(s, task);
            && r.Ok?
            && (Attached(r.value.0.sender) <==> Attached(s.sender))
            && (Attached(r.value.0.receiver) <==> Attached(s.receiver))
  {
    hide Validate, HandleTrap, TableInv, QueueInv, CooperativeInv, SupervisedInv, NoEntries;
    TrapLands(s, task);
    TrapUndisturbed(s, task);
  }
}
