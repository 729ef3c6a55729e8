/**
 Exactness of the one-slot endpoint, told from what user code can observe: a send
 counts when its trap returns Ok, a value is delivered when the receiver sees Ok.
 */
module Ipc {
  import opened Words
  import opened TrapAbi
  import opened Capability
  import opened Runtime
  import opened RuntimeInvariant
  import opened RuntimeProgress
  import opened KernelDrive
  import opened Waiting

  /** The endpoint's content as a queue of at most one value. */
  function InFlight(s: RuntimeState): seq<u64> {
    if s.endpoint.occupied then [s.endpoint.payload] else []
  }

  /** The value the trap from `s` to `s'` sent, judged by the sender's returned status. */
  function SentBy(s: RuntimeState, task: u64, s': RuntimeState): seq<u64>
    requires IsTask(task)
  {
    if Slot(s, task).context.rax == 1 && Slot(s', task).context.rax == StatusOk.Code()
    then [Slot(s, task).context.rsi] else []
  }

  /** The value the receiver got: from its own trap, or because its wait ended with Ok. */
  function DeliveredBy(s: RuntimeState, task: u64, s': RuntimeState): seq<u64>
    requires IsTask(task)
  {
    if s.receiver.state == BlockedReceive then
      if s'.receiver.state != BlockedReceive && s'.receiver.context.rax == StatusOk.Code()
      then [s'.receiver.context.rdx] else []
    else if task == RECEIVER_TASK_ID && s.receiver.context.rax == 2 && s'.receiver.state == Running
            && s'.receiver.context.rax == StatusOk.Code()
    then [s'.receiver.context.rdx] else []
  }

  predicate Balanced(s: RuntimeState, task: u64, s': RuntimeState)
    requires IsTask(task)
  {
    InFlight(s) + SentBy(s, task, s') == DeliveredBy(s, task, s') + InFlight(s')
  }

  lemma SendBalances(s: RuntimeState, task: u64)
    requires Runs(s, task) && s.profile == Cooperative && Slot(s, task).context.rax == 1
    requires HandleTrap(s, task).Ok?
    ensures Balanced(s, task, HandleTrap(s, task).value.0)
  {
    hide Validate, TableInv, QueueInv;
    var i := Slot(s, task).context;
    if SendStatus(s, task, i.rdi, i.rdx) == StatusOk {
      RightHolder(s, task, i.rdi, OBJECT_ENDPOINT, RIGHT_SEND);
    }
  }

  /** A receive that is refused neither takes nor delivers. */
  lemma RefusedReceiveBalances(s: RuntimeState, task: u64, status: TrapStatus)
    requires Runs(s, task) && Slot(s, task).context.rax == 2 && status != StatusOk
    ensures Balanced(s, task, Refuse(s, task, status).value.0)
  {
    hide Validate, Inv;
  }

  /** A receive from an occupied slot delivers what was in it. */
  lemma TakingBalances(s: RuntimeState)
    requires Runs(s, RECEIVER_TASK_ID) && s.receiver.context.rax == 2 && s.endpoint.occupied
    ensures var taken := s.(endpoint := s.endpoint.(occupied := false, payload := 0));
            Balanced(s, RECEIVER_TASK_ID, SetResult(taken, RECEIVER_TASK_ID, StatusOk, s.endpoint.payload))
  {
    hide Validate, Inv;
  }

  /** A receive that blocks delivers nothing yet. */
  lemma BlockingBalances(s: RuntimeState)
    requires Runs(s, RECEIVER_TASK_ID) && s.receiver.context.rax == 2
    requires SwitchAway(SetState(s, RECEIVER_TASK_ID, BlockedReceive)).Ok?
    ensures Balanced(s, RECEIVER_TASK_ID, SwitchAway(SetState(s, RECEIVER_TASK_ID, BlockedReceive)).value.0)
  {
    hide Validate, TableInv, CooperativeInv, SupervisedInv;
  }

  lemma ReceiveBalances(s: RuntimeState, task: u64)
    requires Runs(s, task) && s.profile == Cooperative && Slot(s, task).context.rax == 2
    requires HandleTrap(s, task).Ok?
    ensures Balanced(s, task, HandleTrap(s, task).value.0)
  {
    hide Validate, Inv, Balanced, ResolveEndpoint, ResolveTyped, SwitchAway;
    var i := Slot(s, task).context;
    RefusalIsNotOk(s, task, i.rdi, RIGHT_RECEIVE);
    var check := if i.rsi != 0 || i.rdx != 0 then Fail(InvalidOperation)
                 else ResolveEndpoint(s, task, i.rdi, RIGHT_RECEIVE);
    if check.Fail? {
      RefusedReceiveBalances(s, task, check.error);
    } else {
      OnlyReceiverReceives(s, task, i.rdi);
      if s.endpoint.occupied {
        TakingBalances(s);
      } else if s.endpoint.senderGeneration == 0 {
        RefusedReceiveBalances(s, task, PeerExited);
      } else {
        BlockingBalances(s);
      }
    }
  }

  lemma OnlyReceiverReceives(s: RuntimeState, task: u64, handle: u64)
    requires Runs(s, task) && ResolveEndpoint(s, task, handle, RIGHT_RECEIVE).Pass?
    ensures task == RECEIVER_TASK_ID
  {
    hide Validate, Inv;
    RightHolder(s, task, handle, OBJECT_ENDPOINT, RIGHT_RECEIVE);
  }

  /** No other operation touches the endpoint, ends a wait, or is mistaken for IPC. */
  lemma OthersBalance(s: RuntimeState, task: u64)
    requires Runs(s, task) && s.profile == Cooperative
    requires Slot(s, task).context.rax != 1 && Slot(s, task).context.rax != 2
    requires HandleTrap(s, task).Ok?
    ensures Balanced(s, task, HandleTrap(s, task).value.0)
  {
    hide Validate, SlotInv, QueueInv, CooperativeInv, Duplicate, Close;
  }

  /** A trap's sends and deliveries balance what the slot holds before and after. */
  lemma TrapBalances(s: RuntimeState, task: u64)
    requires Runs(s, task) && s.profile == Cooperative && HandleTrap(s, task).Ok?
    ensures Balanced(s, task, HandleTrap(s, task).value.0)
  {
    hide Inv, HandleTrap, Balanced;
    if Slot(s, task).context.rax == 1 {
      SendBalances(s, task);
    } else if Slot(s, task).context.rax == 2 {
      ReceiveBalances(s, task);
    } else {
      OthersBalance(s, task);
    }
  }

  // Whole runs ---------------------------------------------------------------

  /** The values one kernel step sends and delivers. */
  function Traffic(m: Machine, frame: TrapFrame): (seq<u64>, seq<u64>) {
    if m.phase.OnCpu? && IsTask(m.phase.task) && Captured(m.state, m.phase.task, frame).Ok? then
      var s := Captured(m.state, m.phase.task, frame).value;
      match HandleTrap(s, m.phase.task)
      case Ok((s', _)) => (SentBy(s, m.phase.task, s'), DeliveredBy(s, m.phase.task, s'))
      case Err(_) => ([], [])
    else ([], [])
  }

  function Sent(m: Machine, frames: seq<TrapFrame>): seq<u64>
    decreases |frames|
  {
    if frames == [] then []
    else
      var k := |frames| - 1;
      Sent(m, frames[..k]) + Traffic(Run(m, frames[..k]), frames[k]).0
  }

  function Delivered(m: Machine, frames: seq<TrapFrame>): seq<u64>
    decreases |frames|
  {
    if frames == [] then []
    else
      var k := |frames| - 1;
      Delivered(m, frames[..k]) + Traffic(Run(m, frames[..k]), frames[k]).1
  }

  lemma TeardownKeepsSlot(s: RuntimeState)
    requires Leaving(s, SENDER_TASK_ID) && s.profile == Cooperative
    ensures var end := TeardownExited(s, SENDER_TASK_ID).state;
            Attached(end.receiver) ==> InFlight(end) == InFlight(s)
  {
    hide Inv, Validate, CloseTable;
  }

  lemma ReceiverTeardownDetaches(s: RuntimeState)
    requires Leaving(s, RECEIVER_TASK_ID)
    ensures !Attached(TeardownExited(s, RECEIVER_TASK_ID).state.receiver)
  {
    hide Inv, Validate, CloseTable;
    BeginTeardownLands(s, RECEIVER_TASK_ID);
  }

  /** Detaching is final: only an attached receiver can still be attached after a step. */
  lemma DetachedStays(m: Machine, frame: TrapFrame)
    requires MachineInv(m)
    ensures Attached(Drive(m, frame).state.receiver) ==> Attached(m.state.receiver)
  {
    hide Drive, Validate, TableInv, QueueInv, CooperativeInv, SupervisedInv;
    if m.phase == OnCpu(SENDER_TASK_ID) {
      StepUndisturbed(m, frame);
    } else if !m.phase.OnCpu? {
      assert Drive(m, frame) == m by { DriveIdle(m, frame); }
    }
  }

  lemma DriveIdle(m: Machine, frame: TrapFrame)
    requires !m.phase.OnCpu?
    ensures Drive(m, frame) == m
  {
  }

  /** One kernel step conserves values while the receiver stays attached. */
  lemma StepBalances(m: Machine, frame: TrapFrame)
    requires MachineInv(m) && m.state.profile == Cooperative
    ensures var (sent, delivered) := Traffic(m, frame);
            var end := Drive(m, frame).state;
            Attached(end.receiver) ==> InFlight(m.state) + sent == delivered + InFlight(end)
  {
    hide Inv, Validate, HandleTrap, TeardownExited, CaptureTrap;
    if m.phase.OnCpu? {
      var task := m.phase.task;
      RunsIsRunning(m.state, task);
      CaptureKeeps(m.state, task, frame);
      var s := Captured(m.state, task, frame).value;
      TrapLands(s, task);
      TrapBalances(s, task);
      var (next, outcome) := HandleTrap(s, task).value;
      if outcome.Exit? {
        if task == SENDER_TASK_ID { TeardownKeepsSlot(next); } else { ReceiverTeardownDetaches(next); }
      }
    }
  }

  /** Until the receiver is torn down, what was sent is what was delivered plus what the slot holds, in order. */
  lemma {:induction false} SentIsDeliveredThenInFlight(m: Machine, frames: seq<TrapFrame>)
    requires MachineInv(m) && m.state.profile == Cooperative && InFlight(m.state) == []
    ensures var end := Run(m, frames).state;
            Attached(end.receiver) ==> Sent(m, frames) == Delivered(m, frames) + InFlight(end)
    decreases |frames|
  {
    hide Inv, Drive, Traffic;
    if frames != [] {
      var k := |frames| - 1;
      var prior := Run(m, frames[..k]);
      SentIsDeliveredThenInFlight(m, frames[..k]);
      RunProgress(m, frames[..k]);
      DetachedStays(prior, frames[k]);
      StepBalances(prior, frames[k]);
      if Attached(Run(m, frames).state.receiver) {
        var (sent, delivered) := Traffic(prior, frames[k]);
        calc {
          Sent(m, frames);
          Delivered(m, frames[..k]) + InFlight(prior.state) + sent;
          Delivered(m, frames[..k]) + (InFlight(prior.state) + sent);
          Delivered(m, frames[..k]) + (delivered + InFlight(Run(m, frames).state));
          Delivered(m, frames) + InFlight(Run(m, frames).state);
        }
      }
    }
  }

  /** The step told the receiver its peer is gone: by its own receive, or by ending its wait. */
  predicate ToldPeerExited(m: Machine, frame: TrapFrame) {
    var end := Drive(m, frame).state;
    && end.receiver.context.rax == PeerExited.Code()
    && Attached(end.receiver)
    && ((m.phase == OnCpu(RECEIVER_TASK_ID) && frame.rax == 2)
        || (m.state.receiver.state == BlockedReceive && end.receiver.state != BlockedReceive))
  }

  lemma ReceiveTold(s: RuntimeState)
    requires Runs(s, RECEIVER_TASK_ID) && s.profile == Cooperative && s.receiver.context.rax == 2
    requires HandleTrap(s, RECEIVER_TASK_ID).Ok?
    ensures var s' := HandleTrap(s, RECEIVER_TASK_ID).value.0;
            s'.receiver.context.rax == PeerExited.Code() ==> InFlight(s') == [] && !Attached(s'.sender)
  {
    hide Validate, TableInv, QueueInv;
  }

  lemma WakeTold(s: RuntimeState)
    requires Runs(s, SENDER_TASK_ID) && s.profile == Cooperative && s.receiver.state == BlockedReceive
    requires HandleTrap(s, SENDER_TASK_ID).Ok?
    ensures var s' := HandleTrap(s, SENDER_TASK_ID).value.0;
            s'.receiver.state == BlockedReceive || s'.receiver.context.rax == StatusOk.Code()
  {
    hide Validate, SlotInv, QueueInv, CooperativeInv, Duplicate, Close, ResolveTyped;
  }

  lemma SenderGone(s: RuntimeState)
    requires Leaving(s, SENDER_TASK_ID)
    ensures !Attached(TeardownExited(s, SENDER_TASK_ID).state.sender)
  {
    hide Inv, Validate, CloseTable;
    BeginTeardownLands(s, SENDER_TASK_ID);
  }

  lemma BlockedSlotEmpty(s: RuntimeState)
    requires Inv(s) && s.profile == Cooperative && s.receiver.state == BlockedReceive
    ensures InFlight(s) == []
  {
    hide SlotInv, QueueInv;
  }

  lemma ToldMeansDrained(m: Machine, frame: TrapFrame)
    requires MachineInv(m) && m.state.profile == Cooperative && ToldPeerExited(m, frame)
    ensures var end := Drive(m, frame).state;
            InFlight(end) == [] && !Attached(end.sender)
  {
    hide Inv, Validate, HandleTrap, TeardownExited, CaptureTrap, Attached;
    DriveIdleUnlessOnCpu(m, frame);
    var task := m.phase.task;
    RunsIsRunning(m.state, task);
    CaptureKeeps(m.state, task, frame);
    var s := Captured(m.state, task, frame).value;
    TrapLands(s, task);
    ExitExactly(s, task);
    var (next, outcome) := HandleTrap(s, task).value;
    if task == RECEIVER_TASK_ID {
      if frame.rax == 2 { ReceiveTold(s); }
    } else {
      BlockedSlotEmpty(s);
      if outcome.Exit? {
        TeardownKeepsSlot(next);
        SenderGone(next);
      } else {
        WakeTold(s);
      }
    }
  }

  lemma DriveIdleUnlessOnCpu(m: Machine, frame: TrapFrame)
    requires MachineInv(m) && ToldPeerExited(m, frame)
    ensures m.phase.OnCpu? && IsTask(m.phase.task)
    ensures m.phase.task == RECEIVER_TASK_ID ==> frame.rax == 2
    ensures m.phase.task == SENDER_TASK_ID ==> m.state.receiver.state == BlockedReceive
  {
    hide Inv;
  }

  /** `PeerExited` reaches the receiver only once every value ever sent was delivered. */
  lemma PeerExitedIsLast(m: Machine, frames: seq<TrapFrame>, k: nat)
    requires MachineInv(m) && m.state.profile == Cooperative && InFlight(m.state) == []
    requires k < |frames| && ToldPeerExited(Run(m, frames[..k]), frames[k])
    ensures Sent(m, frames[..k + 1]) == Delivered(m, frames[..k + 1])
    ensures !Attached(Run(m, frames[..k + 1]).state.sender)
  {
    hide Inv, Drive, Sent, Delivered;
    var prefix := frames[..k + 1];
    assert prefix[..k] == frames[..k];
    RunProgress(m, frames[..k]);
    ToldMeansDrained(Run(m, frames[..k]), frames[k]);
    SentIsDeliveredThenInFlight(m, prefix);
  }

  /** Both guarantees for every run of a freshly built cooperative runtime, whatever the registers. */
  lemma {:induction false} CooperativeRunsDeliver(sender: TaskContext, receiver: TaskContext, frames: seq<TrapFrame>)
    requires NewCooperative(sender, receiver).Ok?
    ensures var m := Boot(NewCooperative(sender, receiver));
            var end := Run(m, frames).state;
            && (Attached(end.receiver) ==> Sent(m, frames) == Delivered(m, frames) + InFlight(end))
            && forall k | 0 <= k < |frames| && ToldPeerExited(Run(m, frames[..k]), frames[k]) ::
                 Sent(m, frames[..k + 1]) == Delivered(m, frames[..k + 1])
  {
    var m := Boot(NewCooperative(sender, receiver));
    BootProgress(sender, receiver, Cooperative);
    BootIsEmpty(sender, receiver);
    hide Inv, Drive, Sent, Delivered, Boot, NewCooperative;
    SentIsDeliveredThenInFlight(m, frames);
    forall k | 0 <= k < |frames| && ToldPeerExited(Run(m, frames[..k]), frames[k])
      ensures Sent(m, frames[..k + 1]) == Delivered(m, frames[..k + 1])
    {
      PeerExitedIsLast(m, frames, k);
    }
  }

  lemma BootIsEmpty(sender: TaskContext, receiver: TaskContext)
    requires NewCooperative(sender, receiver).Ok?
    ensures InFlight(Boot(NewCooperative(sender, receiver)).state) == []
  {
    hide Validate;
  }
}
