/**
 Every trap of a running task succeeds and keeps `Inv`; every teardown succeeds and
 hands the processor on, with one exact exception.
 */
module RuntimeProgress {
  import opened Words
  import opened TrapAbi
  import opened Capability
  import opened Runtime
  import opened RuntimeInvariant

  /** The transition succeeded and left the task its outcome names where the kernel expects it. */
  predicate Lands(s: RuntimeState, task: u64, r: Transition) {
    && r.Ok?
    && Inv(r.value.0)
    && r.value.0.profile == s.profile
    && match r.value.1
       case Resume(t) => t == task && IsTask(t) && Slot(r.value.0, t).state == Running
       case Switch(t) => IsTask(t) && Slot(r.value.0, t).state == Running
       case Exit(t) =>
         && t == task && IsTask(t) && Slot(r.value.0, t).state == Exited
         && Slot(r.value.0, t).capabilities.state == TableLive
  }

  predicate Runs(s: RuntimeState, task: u64) {
    Inv(s) && IsTask(task) && Slot(s, task).state == Running
  }

  /** Registers are free: any context for the same task, generation and root keeps the invariant. */
  lemma ContextKeeps(s: RuntimeState, task: u64, context: TaskContext)
    requires Inv(s) && IsTask(task) && Slot(s, task).state != TaskDead
    requires context.taskId == task && context.generation == Slot(s, task).generation && context.root != 0
    ensures Inv(WithSlot(s, task, Slot(s, task).(context := context)))
  {
    hide Validate, TableInv, NoEntries;
    var slot := Slot(s, task).(context := context);
    assert SlotInv(s.profile, task, slot);
    if task == SENDER_TASK_ID {
      assert Inv(s.(sender := slot));
    } else {
      assert Inv(s.(receiver := slot));
    }
  }

  lemma ContextFacts(s: RuntimeState, task: u64)
    requires Inv(s) && IsTask(task) && Slot(s, task).state != TaskDead
    ensures var slot := Slot(s, task);
            slot.context.taskId == task && slot.context.generation == slot.generation && slot.context.root != 0
  {
  }

  /** A task that resolves a right is the one publication gave it to. */
  lemma RightHolder(s: RuntimeState, task: u64, handle: u64, objectType: u64, right: u64)
    requires Runs(s, task)
    requires (right == RIGHT_SEND && objectType == OBJECT_ENDPOINT) || right == RIGHT_RECEIVE || right == RIGHT_START
            || right == RIGHT_SUBMIT_APPROVAL
             || right == RIGHT_DECIDE_APPROVAL || right == RIGHT_COMMIT_EFFECT
    requires var slot := Slot(s, task);
             ResolveTyped(slot.capabilities, task, slot.generation, handle, objectType, right).Ok?
    ensures task == (if right == RIGHT_RECEIVE || right == RIGHT_SUBMIT_APPROVAL
                     then RECEIVER_TASK_ID else SENDER_TASK_ID)
    ensures s.profile == (if right == RIGHT_SEND || right == RIGHT_RECEIVE then Cooperative else Supervised)
  {
    var slot := Slot(s, task);
    var index := DecodeHandle(handle).value.0;
    assert EntryAllowed(s.profile, task, slot.generation, index, slot.capabilities.slots[index].entry.value);
  }

  lemma FinishLands(s: RuntimeState, task: u64, status: TrapStatus, value: u64)
    requires Runs(s, task)
    ensures Lands(s, task, Finish(s, task, status, value))
    ensures Lands(s, task, Refuse(s, task, status))
  {
    hide Validate, SlotInv, QueueInv, CooperativeInv, SupervisedInv;
    ContextFacts(s, task);
    ContextKeeps(s, task, Slot(s, task).context.SetResult(status, value));
    InvValidates(SetResult(s, task, status, value));
    ContextKeeps(s, task, Slot(s, task).context.SetResult(status, 0));
  }

  lemma HeadRuns(s: RuntimeState)
    requires Inv(s) && s.queue != [] && !Active(s.sender) && !Active(s.receiver)
    ensures IsTask(s.queue[0]) && Slot(s, s.queue[0]).state == Ready
    ensures Runs(SetState(s.(queue := s.queue[1..]), s.queue[0], Running), s.queue[0])
  {
    hide TableInv, NoEntries;
    if s.queue[0] == SENDER_TASK_ID {
      assert SlotInv(s.profile, SENDER_TASK_ID, s.sender.(state := Running));
      assert Inv(s.(queue := s.queue[1..], sender := s.sender.(state := Running)));
    } else {
      assert SlotInv(s.profile, RECEIVER_TASK_ID, s.receiver.(state := Running));
      assert Inv(s.(queue := s.queue[1..], receiver := s.receiver.(state := Running)));
    }
  }

  /** Taking the head of a non-empty queue keeps the invariant. */
  lemma DispatchLands(s: RuntimeState)
    requires Inv(s) && s.queue != [] && !Active(s.sender) && !Active(s.receiver)
    ensures var r := DispatchNext(s);
            && r.Ok? && r.value.1 == Some(s.queue[0]) && IsTask(s.queue[0])
            && Runs(r.value.0, s.queue[0]) && r.value.0.profile == s.profile
  {
    hide Validate, SlotInv, QueueInv, CooperativeInv, SupervisedInv;
    HeadRuns(s);
    InvValidates(SetState(s.(queue := s.queue[1..]), s.queue[0], Running));
  }

  /** A running task put at the end of the queue is ready there. */
  lemma RequeuedInv(s: RuntimeState, task: u64)
    requires Runs(s, task)
    ensures Push(s.queue, task) == Ok(s.queue + [task])
    ensures var s1 := SetState(s, task, Ready).(queue := s.queue + [task]);
            Inv(s1) && !Active(s1.sender) && !Active(s1.receiver)
  {
    hide TableInv, NoEntries;
    assert SlotInv(s.profile, task, Slot(s, task).(state := Ready));
    if task == SENDER_TASK_ID {
      assert Inv(s.(queue := s.queue + [task], sender := s.sender.(state := Ready)));
    } else {
      assert Inv(s.(queue := s.queue + [task], receiver := s.receiver.(state := Ready)));
    }
  }

  lemma RequeueKeeps(s: RuntimeState, task: u64)
    requires Runs(s, task)
    ensures var s1 := SetState(s, task, Ready);
            && Push(s1.queue, task) == Ok(s1.queue + [task])
            && Lands(s, task, SwitchAway(s1.(queue := s1.queue + [task])))
  {
    RequeuedInv(s, task);
    hide Inv, DispatchNext, Push, Active;
    DispatchLands(SetState(s, task, Ready).(queue := s.queue + [task]));
  }

  lemma YieldLands(s: RuntimeState, task: u64, i: TaskContext)
    requires Runs(s, task)
    ensures Lands(s, task, Yield(s, task, i))
  {
    hide Validate, SlotInv, QueueInv, CooperativeInv, SupervisedInv;
    if i.rdi != 0 || i.rsi != 0 || i.rdx != 0 {
      FinishLands(s, task, InvalidOperation, 0);
    } else {
      ContextFacts(s, task);
      ContextKeeps(s, task, Slot(s, task).context.SetResult(StatusOk, 0));
      RequeueKeeps(SetResult(s, task, StatusOk, 0), task);
    }
  }

  lemma SendLands(s: RuntimeState, task: u64, handle: u64, message: u64, reserved: u64)
    requires Runs(s, task)
    ensures Lands(s, task, Send(s, task, handle, message, reserved))
  {
    hide Validate, TableInv, NoEntries;
    var status := SendStatus(s, task, handle, reserved);
    if status != StatusOk {
      FinishLands(s, task, status, 0);
    } else if s.receiver.state == BlockedReceive {
      RightHolder(s, task, handle, OBJECT_ENDPOINT, RIGHT_SEND);
      var s1 := s.(endpoint := s.endpoint.(occupied := false, payload := 0));
      var s2 := SetState(SetResult(s1, RECEIVER_TASK_ID, StatusOk, message), RECEIVER_TASK_ID, Ready);
      FinishLands(s2.(queue := s2.queue + [RECEIVER_TASK_ID]), task, StatusOk, 0);
    } else {
      RightHolder(s, task, handle, OBJECT_ENDPOINT, RIGHT_SEND);
      FinishLands(s.(endpoint := s.endpoint.(occupied := true, payload := message)), task, StatusOk, 0);
    }
  }

  /** The sender never holds the receive right, so only the receiver blocks, and then the sender is ready. */
  lemma ReceiveLands(s: RuntimeState, task: u64, handle: u64, reservedMessage: u64, reserved: u64)
    requires Runs(s, task)
    ensures Lands(s, task, Receive(s, task, handle, reservedMessage, reserved))
  {
    hide Validate, TableInv, NoEntries, ResolveTyped;
    var check := if reservedMessage != 0 || reserved != 0 then Fail(InvalidOperation)
                 else ResolveEndpoint(s, task, handle, RIGHT_RECEIVE);
    if check.Fail? {
      FinishLands(s, task, check.error, 0);
    } else if s.endpoint.occupied {
      FinishLands(s.(endpoint := s.endpoint.(occupied := false, payload := 0)), task, StatusOk, s.endpoint.payload);
    } else if s.endpoint.senderGeneration == 0 {
      FinishLands(s, task, PeerExited, 0);
    } else {
      RightHolder(s, task, handle, OBJECT_ENDPOINT, RIGHT_RECEIVE);
      DispatchLands(SetState(s, task, BlockedReceive));
      InvValidates(SwitchAway(SetState(s, task, BlockedReceive)).value.0);
    }
  }

  lemma ExitKeeps(s: RuntimeState, task: u64)
    requires Runs(s, task)
    ensures Inv(SetState(s, task, Exited))
  {
    hide TableInv, NoEntries;
    assert SlotInv(s.profile, task, Slot(s, task).(state := Exited));
    if task == SENDER_TASK_ID {
      assert Inv(s.(sender := s.sender.(state := Exited)));
    } else {
      assert Inv(s.(receiver := s.receiver.(state := Exited)));
    }
  }

  lemma ExitLands(s: RuntimeState, task: u64, i: TaskContext)
    requires Runs(s, task)
    ensures Lands(s, task, ExitTrap(s, task, i))
  {
    hide Validate, QueueInv, CooperativeInv, SupervisedInv, TableInv;
    FinishLands(s, task, InvalidOperation, 0);
    ExitKeeps(s, task);
    InvValidates(SetState(s, task, Exited));
  }

  lemma DuplicateKeepsTable(
    profile: RuntimeProfile, id: u64, generation: u64, t: Table, source: u64, requested: u64)
    requires IsTask(id) && TableInv(profile, id, generation, t)
    requires Duplicate(t, id, generation, source, requested).Ok?
    ensures var t' := Duplicate(t, id, generation, source, requested).value.0;
            TableInv(profile, id, generation, t') && t'.state == t.state
  {
  }

  lemma DuplicateLands(s: RuntimeState, task: u64, source: u64, requested: u64, reserved: u64)
    requires Runs(s, task)
    ensures Lands(s, task, DuplicateTrap(s, task, source, requested, reserved))
  {
    hide Validate, TableInv, Duplicate, QueueInv, CooperativeInv, SupervisedInv;
    var slot := Slot(s, task);
    var r := Duplicate(slot.capabilities, task, slot.generation, source, requested);
    if reserved != 0 {
      FinishLands(s, task, InvalidOperation, 0);
    } else if r.Err? {
      FinishLands(s, task, r.error, 0);
    } else {
      DuplicateKeepsTable(s.profile, task, slot.generation, slot.capabilities, source, requested);
      TableKeeps(s, task, r.value.0);
      FinishLands(WithSlot(s, task, slot.(capabilities := r.value.0)), task, StatusOk, r.value.1);
    }
  }

  lemma TableKeeps(s: RuntimeState, task: u64, table: Table)
    requires Runs(s, task) && table.state == TableLive && TableInv(s.profile, task, Slot(s, task).generation, table)
    ensures Runs(WithSlot(s, task, Slot(s, task).(capabilities := table)), task)
  {
    hide TableInv, NoEntries;
  }

  lemma CloseKeepsTable(profile: RuntimeProfile, id: u64, generation: u64, t: Table, handle: u64)
    requires TableInv(profile, id, generation, t) && Close(t, id, generation, handle).Ok?
    ensures var t' := Close(t, id, generation, handle).value;
            TableInv(profile, id, generation, t') && t'.state == t.state
  {
  }

  lemma CloseLands(s: RuntimeState, task: u64, handle: u64, reservedRights: u64, reserved: u64)
    requires Runs(s, task)
    ensures Lands(s, task, CloseTrap(s, task, handle, reservedRights, reserved))
  {
    hide Validate, TableInv, Close, QueueInv, CooperativeInv, SupervisedInv;
    var slot := Slot(s, task);
    var r := Close(slot.capabilities, task, slot.generation, handle);
    if reservedRights != 0 || reserved != 0 {
      FinishLands(s, task, InvalidOperation, 0);
    } else if r.Err? {
      FinishLands(s, task, r.error, 0);
    } else {
      CloseKeepsTable(s.profile, task, slot.generation, slot.capabilities, handle);
      TableKeeps(s, task, r.value);
      FinishLands(WithSlot(s, task, slot.(capabilities := r.value)), task, StatusOk, 0);
    }
  }

  /** Starting the staged workload installs exactly the manifest's one route and queues it. */
  lemma LaunchKeeps(s: RuntimeState)
    requires Runs(s, SENDER_TASK_ID) && s.profile == Supervised && s.receiver.state == Staged
    ensures var entry := CapabilityEntry(2, WORKLOAD_GENERATION, OBJECT_APPROVAL_BROKER, RIGHT_SUBMIT_APPROVAL,
                         ObjectReference(1, 1));
            var t := s.receiver.capabilities;
            var installed := t.(slots := t.slots[0 := CapabilitySlot(1, false, Some(entry))]);
            && InstallBuilding(t, OBJECT_APPROVAL_BROKER, ObjectReference(1, 1), RIGHT_SUBMIT_APPROVAL)
               == Some((installed, 16))
            && Push(s.queue, RECEIVER_TASK_ID) == Ok([RECEIVER_TASK_ID])
            && Runs(s.(receiver := s.receiver.(state := Ready, capabilities := installed.(state := TableLive)),
                    manifest := PUBLISHED_MANIFEST, queue := [RECEIVER_TASK_ID]), SENDER_TASK_ID)
  {
    hide Validate;
    var t := s.receiver.capabilities;
    assert Free(t.slots[0]);
    assert FirstFree(t.slots, 0) == 0;
    assert s.queue + [RECEIVER_TASK_ID] == [RECEIVER_TASK_ID];
    var entry := CapabilityEntry(2, WORKLOAD_GENERATION, OBJECT_APPROVAL_BROKER, RIGHT_SUBMIT_APPROVAL,
                                 ObjectReference(1, 1));
    var live := t.(slots := t.slots[0 := CapabilitySlot(1, false, Some(entry))], state := TableLive);
    assert TableInv(Supervised, RECEIVER_TASK_ID, WORKLOAD_GENERATION, live);
    assert EncodeHandle(0, 1) == Some(16);
    assert SlotInv(Supervised, RECEIVER_TASK_ID, s.receiver.(state := Ready, capabilities := live));
  }

  lemma StartLands(s: RuntimeState, task: u64, handle: u64, manifestId: u64, reserved: u64)
    requires Runs(s, task)
    ensures Lands(s, task, StartWorkload(s, task, handle, manifestId, reserved))
  {
    hide Validate, TableInv, InstallBuilding, ResolveTyped, QueueInv, CooperativeInv, SupervisedInv;
    var check := StartStatus(s, task, handle, manifestId, reserved);
    if check.Fail? {
      FinishLands(s, task, check.error, 0);
    } else {
      RightHolder(s, task, handle, OBJECT_TASK_CONTROL, RIGHT_START);
      LaunchKeeps(s);
      var table := InstallBuilding(s.receiver.capabilities, OBJECT_APPROVAL_BROKER, ObjectReference(1, 1),
                                   RIGHT_SUBMIT_APPROVAL).value.0;
      FinishLands(s.(receiver := s.receiver.(state := Ready, capabilities := table.(state := TableLive)),
                  manifest := PUBLISHED_MANIFEST, queue := [RECEIVER_TASK_ID]), task, StatusOk, 0);
    }
  }

  lemma SubmitLands(s: RuntimeState, task: u64, handle: u64, kind: u64, argument: u64)
    requires Runs(s, task)
    ensures Lands(s, task, SubmitApproval(s, task, handle, kind, argument))
  {
    hide Validate, TableInv, NoEntries, ResolveTyped;
    var check := SubmitStatus(s, task, handle, kind);
    if check.Fail? {
      FinishLands(s, task, check.error, 0);
    } else {
      RightHolder(s, task, handle, OBJECT_APPROVAL_BROKER, RIGHT_SUBMIT_APPROVAL);
      var blocked := SetState(s.(broker := SubmittedBroker(s.broker, kind, argument)), task, BlockedApproval);
      DispatchLands(blocked);
      InvValidates(SwitchAway(blocked).value.0);
    }
  }

  lemma InspectLands(s: RuntimeState, task: u64, handle: u64, kind: u64, argument: u64)
    requires Runs(s, task)
    ensures Lands(s, task, InspectApproval(s, task, handle, kind, argument))
  {
    hide Validate, TableInv, NoEntries;
    var check := InspectStatus(s, task, handle, kind, argument);
    if check.Fail? {
      FinishLands(s, task, check.error, 0);
    } else {
      RightHolder(s, task, handle, OBJECT_APPROVAL_BROKER, RIGHT_DECIDE_APPROVAL);
      ContextFacts(s, task);
      var slot := Slot(s, task);
      var context := slot.context.(rax := 0, rdi := s.broker.request.sequence, rsi := s.broker.requestKind,
                     rdx := s.broker.request.argument);
      ContextKeeps(s, task, context);
      InvValidates(WithSlot(s, task, slot.(context := context)));
    }
  }

  /** Waking the workload as the broker settles: the shape every terminal decision shares. */
  lemma SettleLands(s: RuntimeState, task: u64, broker: Broker, effect: Effect, status: TrapStatus, value: u64)
    requires Runs(s, task) && task == SENDER_TASK_ID && s.profile == Supervised && s.receiver.state == BlockedApproval
    requires (broker.state == BrokerEmpty || broker.state == BrokerClosing) && broker.Cleared()
    requires broker.objectGeneration == 1 && 1 <= broker.nextSequence <= broker.decisionEpoch
    requires !broker.sequenceExhausted
    requires EffectInv(s.(effect := effect))
    ensures var r := WakeWorkload(s.(broker := broker, effect := effect), status, value);
            r.Ok? && Runs(r.value, task) && r.value.profile == s.profile
  {
    hide Validate, TableInv, NoEntries;
  }

  lemma ExhaustedLands(s: RuntimeState, task: u64)
    requires Runs(s, task) && task == SENDER_TASK_ID && s.profile == Supervised && Undecided(s.broker)
    ensures var r := FailBrokerEpochExhaustion(s);
            r.Ok? && Runs(r.value, task) && r.value.profile == s.profile
  {
    hide Validate, TableInv, NoEntries;
    SettleLands(s, task, s.broker.ClearRequest().(state := BrokerClosing), s.effect, BrokerUnavailable, 0);
  }

  lemma ApproveLands(s: RuntimeState, task: u64)
    requires Runs(s, task) && task == SENDER_TASK_ID && s.profile == Supervised && s.broker.state == BrokerPending
    requires s.broker.decisionEpoch + 1 < U64_MAX
    ensures var epoch := s.broker.decisionEpoch + 1;
            var broker := s.broker.(state := BrokerApproved, decisionEpoch := epoch, approvalEpoch := epoch,
                          expiryEpoch := epoch + 1);
            Runs(s.(broker := broker), task)
  {
    hide Validate, TableInv, NoEntries;
  }

  lemma DecideLands(s: RuntimeState, task: u64, handle: u64, sequence: u64, decision: u64)
    requires Runs(s, task)
    ensures Lands(s, task, DecideApproval(s, task, handle, sequence, decision))
  {
    hide Validate, TableInv, NoEntries, ResolveTyped;
    var check := DecideStatus(s, task, handle, sequence, decision);
    if check.Fail? {
      FinishLands(s, task, check.error, 0);
    } else {
      RightHolder(s, task, handle, OBJECT_APPROVAL_BROKER, RIGHT_DECIDE_APPROVAL);
      DecisionLands(s, task, handle, sequence, decision);
    }
  }

  lemma DecisionLands(s: RuntimeState, task: u64, handle: u64, sequence: u64, decision: u64)
    requires Runs(s, task) && task == SENDER_TASK_ID && s.profile == Supervised && Undecided(s.broker)
    requires DecideStatus(s, task, handle, sequence, decision).Pass?
    requires decision != DECISION_EXPIRE ==> s.broker.state == BrokerPending
    ensures Lands(s, task, DecideApproval(s, task, handle, sequence, decision))
  {
    hide Validate, TableInv, NoEntries, ResolveTyped, DecideStatus;
    if s.broker.decisionEpoch == U64_MAX
       || (decision == DECISION_APPROVE && s.broker.decisionEpoch + 1 == U64_MAX) {
      ExhaustedLands(s, task);
      FinishLands(FailBrokerEpochExhaustion(s).value, task, BrokerUnavailable, 0);
    } else {
      var epoch := s.broker.decisionEpoch + 1;
      if decision == DECISION_APPROVE {
        ApproveLands(s, task);
        var broker := s.broker.(state := BrokerApproved, decisionEpoch := epoch, approvalEpoch := epoch,
                      expiryEpoch := epoch + 1);
        FinishLands(s.(broker := broker), task, StatusOk, 0);
      } else {
        var broker := s.broker.ClearRequest().(state := BrokerEmpty, decisionEpoch := epoch);
        var status := if decision == DECISION_DENY then ApprovalDenied else ApprovalExpired;
        SettleLands(s, task, broker, s.effect, status, 0);
        FinishLands(WakeWorkload(s.(broker := broker), status, 0).value, task, StatusOk, 0);
      }
    }
  }

  /** An approval is always one epoch short of expiry, so a commit is never too late. */
  lemma CommitNeverExpired(s: RuntimeState, task: u64, handle: u64, sequence: u64, argument: u64)
    requires Runs(s, task)
    ensures CommitStatus(s, task, handle, sequence, argument) != Fail(ApprovalExpired)
    ensures CommitStatus(s, task, handle, sequence, argument).Pass? ==>
              s.broker.decisionEpoch + 1 == s.broker.expiryEpoch
  {
    hide TableInv, Validate;
  }

  lemma CommitLands(s: RuntimeState, task: u64, handle: u64, sequence: u64, argument: u64)
    requires Runs(s, task)
    ensures Lands(s, task, CommitEffect(s, task, handle, sequence, argument))
  {
    hide Validate, TableInv, NoEntries, ResolveTyped;
    var check := CommitStatus(s, task, handle, sequence, argument);
    if check.Fail? {
      FinishLands(s, task, check.error, 0);
    } else {
      RightHolder(s, task, handle, OBJECT_TEST_EFFECT, RIGHT_COMMIT_EFFECT);
      var broker := s.broker.ClearRequest().(state := BrokerEmpty, decisionEpoch := s.broker.decisionEpoch + 1);
      var effect := s.effect.(occupied := true, value := argument);
      SettleLands(s, task, broker, effect, StatusOk, argument);
      FinishLands(WakeWorkload(s.(effect := effect, broker := broker), StatusOk, argument).value, task, StatusOk, 0);
    }
  }

  /** Any trap, whatever its registers, succeeds and keeps the invariant. */
  lemma TrapLands(s: RuntimeState, task: u64)
    requires Runs(s, task)
    ensures Lands(s, task, HandleTrap(s, task))
  {
    hide Validate, SlotInv, QueueInv, CooperativeInv, SupervisedInv;
    var i := Slot(s, task).context;
    match ParseOperation(i.rax)
    case None => FinishLands(s, task, InvalidOperation, 0);
    case Some(OpYield) => YieldLands(s, task, i);
    case Some(OpSend) => SendLands(s, task, i.rdi, i.rsi, i.rdx);
    case Some(OpReceive) => ReceiveLands(s, task, i.rdi, i.rsi, i.rdx);
    case Some(OpExit) => ExitLands(s, task, i);
    case Some(OpDuplicate) => DuplicateLands(s, task, i.rdi, i.rsi, i.rdx);
    case Some(OpClose) => CloseLands(s, task, i.rdi, i.rsi, i.rdx);
    case Some(OpStartWorkload) => StartLands(s, task, i.rdi, i.rsi, i.rdx);
    case Some(OpSubmitApproval) => SubmitLands(s, task, i.rdi, i.rsi, i.rdx);
    case Some(OpInspectApproval) => InspectLands(s, task, i.rdi, i.rsi, i.rdx);
    case Some(OpDecideApproval) => DecideLands(s, task, i.rdi, i.rsi, i.rdx);
    case Some(OpCommitEffect) => CommitLands(s, task, i.rdi, i.rsi, i.rdx);
    case Some(_) => FinishLands(s, task, InvalidOperation, 0);
  }

  lemma CloseTableKeeps(profile: RuntimeProfile, id: u64, generation: u64, t: Table)
    requires TableInv(profile, id, generation, t)
    ensures TableInv(profile, id, generation, CloseTable(t)) && NoEntries(CloseTable(t).slots)
  {
  }

  /** `task` has exited and its table has just been emptied; its peers still see it attached. */
  function Emptied(s: RuntimeState, task: u64): RuntimeState
    requires IsTask(task)
  {
    WithSlot(s, task, Slot(s, task).(capabilities := CloseTable(Slot(s, task).capabilities)))
  }

  predicate Leaving(s: RuntimeState, task: u64) {
    Inv(s) && IsTask(task) && Slot(s, task).state == Exited && Slot(s, task).capabilities.state == TableLive
  }

  lemma EmptiedSlot(s: RuntimeState, task: u64)
    requires Leaving(s, task)
    ensures SlotInv(s.profile, task, Slot(Emptied(s, task), task))
  {
    CloseTableKeeps(s.profile, task, Slot(s, task).generation, Slot(s, task).capabilities);
  }

  lemma DetachCooperativeKeeps(s: RuntimeState, task: u64)
    requires Leaving(s, task) && s.profile == Cooperative
    ensures var r := DetachCooperative(Emptied(s, task), task);
            r.Ok? && Inv(r.value) && r.value.profile == s.profile && Slot(r.value, task) == Slot(Emptied(s, task), task)
  {
    EmptiedSlot(s, task);
    if task == SENDER_TASK_ID {
      assert DetachCooperative(Emptied(s, task), task).Ok?;
    }
  }

  lemma SupervisorDetachKeeps(s: RuntimeState)
    requires Leaving(s, SENDER_TASK_ID) && s.profile == Supervised
    ensures var r := DetachSupervised(Emptied(s, SENDER_TASK_ID), SENDER_TASK_ID);
            r.Ok? && Inv(r.value) && r.value.profile == s.profile && r.value.sender == Emptied(s, SENDER_TASK_ID).sender
  {
    EmptiedSlot(s, SENDER_TASK_ID);
  }

  lemma WorkloadDetachKeeps(s: RuntimeState)
    requires Leaving(s, RECEIVER_TASK_ID) && s.profile == Supervised
    ensures var r := DetachSupervised(Emptied(s, RECEIVER_TASK_ID), RECEIVER_TASK_ID);
            r.Ok? && Inv(r.value) && r.value.profile == s.profile
            && r.value.receiver == Emptied(s, RECEIVER_TASK_ID).receiver
  {
    EmptiedSlot(s, RECEIVER_TASK_ID);
  }

  lemma BeginTeardownLands(s: RuntimeState, task: u64)
    requires Leaving(s, task)
    ensures var r := BeginTeardown(s, task);
            && r.Ok? && Inv(r.value) && r.value.profile == s.profile
            && Slot(r.value, task).state == Exited && Slot(r.value, task).capabilities.state == TableClosing
  {
    hide Validate;
    if s.profile == Cooperative {
      DetachCooperativeKeeps(s, task);
      InvValidates(DetachCooperative(Emptied(s, task), task).value);
    } else {
      if task == SENDER_TASK_ID { SupervisorDetachKeeps(s); } else { WorkloadDetachKeeps(s); }
      InvValidates(DetachSupervised(Emptied(s, task), task).value);
    }
  }

  /** Nothing is left to run exactly when the supervisor leaves a workload it never started. */
  predicate Stranded(s: RuntimeState, task: u64) {
    task == SENDER_TASK_ID && s.receiver.state == Staged
  }

  lemma CompleteTeardownLands(s: RuntimeState, task: u64)
    requires Inv(s) && IsTask(task) && Slot(s, task).state == Exited && Slot(s, task).capabilities.state == TableClosing
    ensures var r := CompleteTeardown(s, task);
            && (r.Err? <==> Stranded(s, task))
            && (r.Err? ==> r.error == NoRunnableTask)
            && (r.Ok? ==> Inv(r.value.0) && r.value.0.profile == s.profile)
            && (r.Ok? ==> match r.value.1
                          case Some(next) => Runs(r.value.0, next)
                          case None => BothDead(r.value.0))
  {
    hide Validate, TableInv;
    var buried := Bury(s, task);
    assert Inv(buried);
    InvValidates(buried);
    if buried.queue != [] {
      DispatchLands(buried);
    }
  }
}
