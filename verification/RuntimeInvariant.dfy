/**
 What every state the kernel can drive the runtime into satisfies. `Validate` alone
 is not preserved by the handlers; `Inv` is, it implies `Validate`, and under it no
 handler takes an error path.
 */
module RuntimeInvariant {
  import opened Words
  import opened TrapAbi
  import opened Capability
  import opened Runtime

  /** The entry publication or the manifest may have put at `index`, or a narrower copy of it. */
  predicate EntryAllowed(profile: RuntimeProfile, id: u64, generation: u64, index: int, e: CapabilityEntry) {
    && e.taskId == id && e.taskGeneration == generation && e.target == ObjectReference(1, 1)
    && (if profile == Cooperative then
          && e.objectType == OBJECT_ENDPOINT
          && (if id == SENDER_TASK_ID
              then e.rights == RIGHT_SEND || e.rights == RIGHT_DUPLICATE || e.rights == RIGHT_SEND + RIGHT_DUPLICATE
              else e.rights == RIGHT_RECEIVE)
        else if id == SENDER_TASK_ID then
          || (index == 0 && e.objectType == OBJECT_TASK_CONTROL && e.rights == RIGHT_START)
          || (index == 1 && e.objectType == OBJECT_APPROVAL_BROKER && e.rights == RIGHT_DECIDE_APPROVAL)
          || (index == 2 && e.objectType == OBJECT_TEST_EFFECT && e.rights == RIGHT_COMMIT_EFFECT)
          || (index == 3 && e.objectType == OBJECT_EFFECT_JOURNAL && e.rights == RIGHT_READ_EFFECT_JOURNAL)
        else
          index == 0 && e.objectType == OBJECT_APPROVAL_BROKER && e.rights == RIGHT_SUBMIT_APPROVAL)
  }

  predicate TableInv(profile: RuntimeProfile, id: u64, generation: u64, t: Table) {
    && t.taskId == id && t.taskGeneration == generation
    && GenerationsSound(t)
    && forall i :: 0 <= i < SLOT_COUNT && t.slots[i].entry.Some? ==>
         EntryAllowed(profile, id, generation, i, t.slots[i].entry.value)
  }

  predicate SlotInv(profile: RuntimeProfile, id: u64, slot: TaskSlot) {
    if slot.state == TaskDead then slot == DeadSlot()
    else
      && slot.generation != 0
      && slot.context.taskId == id && slot.context.generation == slot.generation && slot.context.root != 0
      && TableInv(profile, id, slot.generation, slot.capabilities)
      && TableStateMatches(slot)
      && (slot.state == Staged || slot.capabilities.state == TableClosing ==> NoEntries(slot.capabilities.slots))
      && (slot.state == Staged ==> slot.capabilities == BuildingTable(id, slot.generation))
  }

  predicate QueueInv(s: RuntimeState) {
    match (s.sender.state == Ready, s.receiver.state == Ready)
    case (true, true) =>
      s.queue == [SENDER_TASK_ID, RECEIVER_TASK_ID] || s.queue == [RECEIVER_TASK_ID, SENDER_TASK_ID]
    case (true, false) => s.queue == [SENDER_TASK_ID]
    case (false, true) => s.queue == [RECEIVER_TASK_ID]
    case (false, false) => s.queue == []
  }

  /** A task that holds the processor: running, or exited and not yet buried. */
  predicate Active(slot: TaskSlot) {
    slot.state == Running || slot.state == Exited
  }

  predicate Attached(slot: TaskSlot) {
    slot.state != TaskDead && slot.capabilities.state != TableClosing
  }

  predicate CooperativeInv(s: RuntimeState) {
    var e := s.endpoint;
    && s.receiver.state != Staged && s.receiver.state != BlockedApproval
    && s.manifest == EMPTY_MANIFEST && s.broker == DEAD_BROKER && s.effect == EMPTY_EFFECT
    && e.objectGeneration == (if BothDead(s) then 0 else 1)
    && e.senderTask == (if Attached(s.sender) then SENDER_TASK_ID else 0)
    && e.senderGeneration == (if Attached(s.sender) then s.sender.generation else 0)
    && e.receiverTask == (if Attached(s.receiver) then RECEIVER_TASK_ID else 0)
    && e.receiverGeneration == (if Attached(s.receiver) then s.receiver.generation else 0)
    && (e.occupied ==> Attached(s.receiver))
    && (!e.occupied ==> e.payload == 0)
    && (s.receiver.state == BlockedReceive ==> !e.occupied && Attached(s.sender))
  }

  predicate BrokerInv(s: RuntimeState) {
    var b := s.broker;
    if s.sender.state == TaskDead then b == DEAD_BROKER
    else
      && b.objectGeneration == 1 && 1 <= b.nextSequence <= b.decisionEpoch && !b.sequenceExhausted
      && (s.sender.capabilities.state == TableClosing ==> b.state == BrokerClosing)
      && match b.state
         case BrokerBuilding => false
         case BrokerDead => false
         case BrokerPending =>
           && b.requestPresent && b.requestKind == 1 && b.approvalEpoch == 0 && b.expiryEpoch == 0
           && 1 <= b.request.sequence && b.request.sequence + 1 == b.nextSequence
           && b.request == CommitRequest(b.request.sequence, b.request.argument)
         case BrokerApproved =>
           && b.requestPresent && b.requestKind == 1
           && b.approvalEpoch == b.decisionEpoch && b.expiryEpoch == b.decisionEpoch + 1
           && 1 <= b.request.sequence && b.request.sequence + 1 == b.nextSequence
           && b.request == CommitRequest(b.request.sequence, b.request.argument)
         case _ => b.Cleared()
  }

  predicate EffectInv(s: RuntimeState) {
    if s.sender.state == TaskDead || s.sender.capabilities.state == TableClosing then s.effect == EMPTY_EFFECT
    else
      && s.effect.objectGeneration == 1 && s.effect.supervisorTaskId == SENDER_TASK_ID
      && s.effect.supervisorGeneration == SUPERVISOR_GENERATION
      && (!s.effect.occupied ==> s.effect.value == 0)
  }

  predicate Undecided(b: Broker) {
    b.state == BrokerPending || b.state == BrokerApproved
  }

  predicate SupervisedInv(s: RuntimeState) {
    && s.receiver.state != BlockedReceive
    && s.endpoint == EMPTY_ENDPOINT
    && (s.sender.state != TaskDead ==> s.sender.generation == SUPERVISOR_GENERATION)
    && (s.receiver.state != TaskDead ==> s.receiver.generation == WORKLOAD_GENERATION)
    && s.manifest
         == (if s.receiver.state == Staged || !Attached(s.receiver) then EMPTY_MANIFEST else PUBLISHED_MANIFEST)
    && BrokerInv(s)
    && EffectInv(s)
    && (Undecided(s.broker) <==> s.receiver.state == BlockedApproval)
  }

  predicate Inv(s: RuntimeState) {
    && SlotInv(s.profile, SENDER_TASK_ID, s.sender)
    && SlotInv(s.profile, RECEIVER_TASK_ID, s.receiver)
    && QueueInv(s)
    && !(Active(s.sender) && Active(s.receiver))
    && s.sender.state != Staged && s.sender.state != BlockedReceive && s.sender.state != BlockedApproval
    && (if s.profile == Cooperative then CooperativeInv(s) else SupervisedInv(s))
  }

  lemma SlotInvValidates(profile: RuntimeProfile, id: u64, slot: TaskSlot, queue: seq<u64>)
    requires IsTask(id) && SlotInv(profile, id, slot)
    requires (slot.state == Ready) <==> (id in queue)
    ensures ValidateSlot(id, slot, queue).Pass?
  {
    assert TableValid(slot.capabilities) by {
      if slot.state != TaskDead {
        var t := slot.capabilities;
        forall i | 0 <= i < SLOT_COUNT ensures SlotValid(t, t.slots[i]) {
          if t.slots[i].entry.Some? {
            assert EntryAllowed(profile, id, slot.generation, i, t.slots[i].entry.value);
          }
        }
      }
    }
  }

  /** The inductive invariant implies the source's own validation. */
  lemma InvValidates(s: RuntimeState)
    requires Inv(s)
    ensures Validate(s).Pass?
  {
    SlotInvValidates(s.profile, SENDER_TASK_ID, s.sender, s.queue);
    SlotInvValidates(s.profile, RECEIVER_TASK_ID, s.receiver, s.queue);
  }
}
