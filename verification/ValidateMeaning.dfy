/**
 What the runtime's own consistency checks accept, said positively: which queues,
 tasks, tables and shared objects agree with one another, and which disagreement a
 failed check names.
 */
module ValidateMeaning {
  import opened Words
  import opened Capability
  import opened Runtime
  import opened Journal

  // Tables -----------------------------------------------------------------------------------------

  /** The rights each kind of object can carry. */
  predicate Carries(objectType: u64, rights: u64) {
    match objectType
    case 1 => 1 <= rights <= 7
    case 2 => rights == 8
    case 3 => rights == 16 || rights == 32
    case 4 => rights == 64
    case 5 => rights == 128
    case _ => false
  }

  predicate PlaceAgrees(t: Table, slot: CapabilitySlot) {
    && 1 <= slot.generation < 0x1000_0000_0000_0000
    && match slot.entry
       case None => true
       case Some(e) =>
         && !slot.retired && e.taskId == t.taskId && e.taskGeneration == t.taskGeneration
         && Carries(e.objectType, e.rights) && e.target.id >= 1 && e.target.generation >= 1
  }

  predicate TableAgrees(t: Table) {
    if t.state == TableDead then
      t.taskId == 0 && t.taskGeneration == 0
      && forall i :: 0 <= i < 16 ==> t.slots[i] == CapabilitySlot(1, false, None)
    else
      && t.taskId >= 1 && t.taskGeneration >= 1
      && (forall i :: 0 <= i < 16 ==> PlaceAgrees(t, t.slots[i]))
      && (t.state == TableClosing ==> forall i :: 0 <= i < 16 ==> t.slots[i].entry == None)
  }

  lemma TableExactly(t: Table)
    ensures TableValid(t) <==> TableAgrees(t)
  {
    if t.state == TableDead {
      if TableAgrees(t) {
        assert t.slots == EmptySlots();
      }
    } else {
      forall i | 0 <= i < 16 ensures SlotValid(t, t.slots[i]) <==> PlaceAgrees(t, t.slots[i]) {
      }
    }
  }

  // Tasks ------------------------------------------------------------------------------------------

  predicate QueueAgrees(queue: seq<u64>) {
    (forall i :: 0 <= i < |queue| ==> queue[i] == 1 || queue[i] == 2)
    && forall i, k :: 0 <= i < k < |queue| ==> queue[i] != queue[k]
  }

  /** A live table for a task that can run, a building one before, a closing one only after its exit. */
  predicate TableFits(state: TaskState, table: TableState) {
    match table
    case TableBuilding => state == Staged
    case TableLive => state in {Ready, Running, BlockedReceive, BlockedApproval, Exited}
    case TableClosing => state == Exited
    case TableDead => state == TaskDead
  }

  predicate IdentityAgrees(id: u64, slot: TaskSlot) {
    if slot.state == TaskDead then
      && slot.generation == 0 && slot.context.taskId == 0 && slot.context.generation == 0 && slot.context.root == 0
      && slot.capabilities.state == TableDead
    else
      && slot.generation >= 1 && slot.context.taskId == id && slot.context.generation == slot.generation
      && slot.context.root >= 1 && slot.capabilities.taskId == id && slot.capabilities.taskGeneration == slot.generation
  }

  predicate TaskAgrees(id: u64, slot: TaskSlot, queue: seq<u64>) {
    && TableAgrees(slot.capabilities) && (id in queue <==> slot.state == Ready)
    && IdentityAgrees(id, slot) && TableFits(slot.state, slot.capabilities.state)
  }

  /** Table before queue before identity before table state. */
  function TaskBlame(id: u64, slot: TaskSlot, queue: seq<u64>): RuntimeError {
    if !TableAgrees(slot.capabilities) then CapabilityInvariant
    else if id in queue && slot.state != Ready then InvalidQueueMember
    else if id !in queue && slot.state == Ready then MissingQueueMember
    else if !IdentityAgrees(id, slot) then InvalidGeneration
    else CapabilityInvariant
  }

  lemma TaskExactly(id: u64, slot: TaskSlot, queue: seq<u64>)
    ensures ValidateSlot(id, slot, queue)
         == if TaskAgrees(id, slot, queue) then Pass else Fail(TaskBlame(id, slot, queue))
  {
    hide TableValid, TableAgrees;
    TableExactly(slot.capabilities);
  }

  // Cooperating tasks ------------------------------------------------------------------------------

  predicate NothingSupervised(s: RuntimeState) {
    && s.sender.state !in {Staged, BlockedApproval} && s.receiver.state !in {Staged, BlockedApproval}
    && s.manifest == Manifest(0, 0, 0, 0, 0, false) && s.effect == Effect(0, 0, 0, false, 0)
    && s.broker == Broker(BrokerDead, 0, 0, 0, 0, 0, 0, Request(0, 0, 0, 0, 0, 0, 0, 0, 0, 0), false, 0, false, 0, 0, 0)
  }

  /** An end of the endpoint names its task while that task's table is live, and nobody once it is closing. */
  predicate EndAgrees(id: u64, slot: TaskSlot, task: u64, generation: u64) {
    match slot.capabilities.state
    case TableLive => task == id && generation == slot.generation
    case TableBuilding => (task == 0 && generation == 0) || (task == id && generation != 0)
    case _ => task == 0 && generation == 0
  }

  predicate EndpointAgrees(s: RuntimeState) {
    var e := s.endpoint;
    && EndAgrees(1, s.sender, e.senderTask, e.senderGeneration)
    && EndAgrees(2, s.receiver, e.receiverTask, e.receiverGeneration)
    && (e.occupied ==> e.receiverGeneration != 0 && s.receiver.state != BlockedReceive)
    && (!e.occupied ==> e.payload == 0)
    && (s.receiver.state == BlockedReceive ==> e.senderGeneration != 0)
    && (if s.sender.state == TaskDead && s.receiver.state == TaskDead
        then e == Endpoint(0, 0, 0, 0, 0, false, 0) else e.objectGeneration == 1)
  }

  lemma CooperativeExactly(s: RuntimeState)
    requires s.sender.capabilities.state == TableLive ==> s.sender.generation != 0
    requires s.receiver.capabilities.state == TableLive ==> s.receiver.generation != 0
    ensures ValidateCooperative(s)
         == if !NothingSupervised(s) then Fail(CapabilityInvariant)
            else if EndpointAgrees(s) then Pass else Fail(EndpointInvariant)
  {
  }

  // A supervised pair ------------------------------------------------------------------------------

  predicate Unreached(s: RuntimeState) {
    s.endpoint == Endpoint(0, 0, 0, 0, 0, false, 0) && s.sender.state != BlockedReceive
    && s.receiver.state != BlockedReceive
  }

  predicate GenerationsAgree(s: RuntimeState) {
    (s.sender.state == TaskDead || s.sender.generation == 4)
      && (s.receiver.state == TaskDead || s.receiver.generation == 5)
  }

  /** Published exactly while the workload can run, and with it in building or burial empty. */
  predicate ManifestAgrees(s: RuntimeState) {
    var w, none := s.receiver, Manifest(0, 0, 0, 0, 0, false);
    match w.state
    case Staged =>
      && s.manifest == none && w.capabilities.state == TableBuilding
      && forall i :: 0 <= i < 16 ==> w.capabilities.slots[i].entry == None
    case TaskDead => s.manifest == none
    case _ => w.capabilities.state == TableClosing || s.manifest == Manifest(1, 1, 2, 5, 1, true)
  }

  /** A request is on the desk exactly while one is pending or approved, by the workload that waits for it. */
  predicate BrokerAgrees(s: RuntimeState) {
    var b := s.broker;
    match b.state
    case BrokerBuilding => false
    case BrokerDead =>
      b == Broker(BrokerDead, 0, 0, 0, 0, 0, 0, Request(0, 0, 0, 0, 0, 0, 0, 0, 0, 0), false, 0, false, 0, 0, 0)
    case BrokerPending => Counting(b) && Asked(s) && b.approvalEpoch == 0 && b.expiryEpoch == 0
    case BrokerApproved =>
      && Counting(b) && Asked(s) && b.approvalEpoch >= 1
      && b.expiryEpoch == (if b.approvalEpoch < 0xFFFF_FFFF_FFFF_FFFF then b.approvalEpoch + 1 else b.approvalEpoch)
    case _ => Counting(b) && NothingAsked(b)
  }

  predicate Counting(b: Broker) {
    b.objectGeneration == 1 && b.nextSequence >= 1 && b.decisionEpoch >= 1
  }

  predicate Asked(s: RuntimeState) {
    var b := s.broker;
    && b.requestPresent && b.requestKind == 1 && b.request.sequence >= 1
    && b.request == Request(1, 2, 5, b.request.sequence, 1, 1, 1, b.request.argument, 64, 0)
    && s.receiver.state == BlockedApproval
  }

  predicate NothingAsked(b: Broker) {
    && !b.requestPresent && b.requestKind == 0 && b.request == Request(0, 0, 0, 0, 0, 0, 0, 0, 0, 0)
    && b.approvalEpoch == 0 && b.expiryEpoch == 0
  }

  predicate EffectAgrees(s: RuntimeState) {
    s.effect == Effect(0, 0, 0, false, 0) || (s.effect == Effect(1, 1, 4, s.effect.occupied, s.effect.value)
                                              && (s.effect.occupied || s.effect.value == 0))
  }

  predicate BuriedTogether(s: RuntimeState) {
    s.sender.state == TaskDead && s.receiver.state == TaskDead ==>
      s.broker.state == BrokerDead && s.effect == Effect(0, 0, 0, false, 0)
  }

  /** In the order they are looked at. */
  function SupervisedBlame(s: RuntimeState): RuntimeError {
    if !Unreached(s) then EndpointInvariant
    else if !GenerationsAgree(s) then InvalidGeneration
    else if !ManifestAgrees(s) then ManifestInvariant
    else if !BrokerAgrees(s) then BrokerInvariant
    else if !EffectAgrees(s) then EffectInvariant
    else BrokerInvariant
  }

  predicate SupervisionAgrees(s: RuntimeState) {
    Unreached(s) && GenerationsAgree(s) && ManifestAgrees(s) && BrokerAgrees(s) && EffectAgrees(s) && BuriedTogether(s)
  }

  lemma SupervisedExactly(s: RuntimeState)
    ensures ValidateSupervised(s) == if SupervisionAgrees(s) then Pass else Fail(SupervisedBlame(s))
  {
    ManifestExactly(s);
    BrokerExactly(s);
    EffectExactly(s);
    hide ManifestMatches, ManifestAgrees, BrokerMatches, EffectMatches, EffectAgrees;
  }

  lemma ManifestExactly(s: RuntimeState)
    ensures ManifestMatches(s) <==> ManifestAgrees(s)
    ensures ManifestAgrees(s) && s.receiver.state == TaskDead ==> s.manifest == EMPTY_MANIFEST
  {
  }

  lemma BrokerExactly(s: RuntimeState)
    ensures BrokerMatches(s) <==> BrokerAgrees(s)
    ensures BrokerAgrees(s) && s.broker.state == BrokerDead ==> s.broker == DEAD_BROKER
  {
  }

  lemma EffectExactly(s: RuntimeState)
    ensures EffectMatches(s.effect) <==> EffectAgrees(s)
  {
  }

  // The whole runtime ------------------------------------------------------------------------------

  predicate Agrees(s: RuntimeState) {
    && QueueAgrees(s.queue) && !(s.sender.state == Running && s.receiver.state == Running)
    && TaskAgrees(1, s.sender, s.queue) && TaskAgrees(2, s.receiver, s.queue)
    && if s.profile == Cooperative then NothingSupervised(s) && EndpointAgrees(s) else SupervisionAgrees(s)
  }

  function Blame(s: RuntimeState): RuntimeError {
    if |s.queue| > 2 then InvalidQueueMember
    else if !QueueAgrees(s.queue) then DuplicateQueueMember
    else if s.sender.state == Running && s.receiver.state == Running then MultipleRunningTasks
    else if !TaskAgrees(1, s.sender, s.queue) then TaskBlame(1, s.sender, s.queue)
    else if !TaskAgrees(2, s.receiver, s.queue) then TaskBlame(2, s.receiver, s.queue)
    else if s.profile == Supervised then SupervisedBlame(s)
    else if !NothingSupervised(s) then CapabilityInvariant
    else EndpointInvariant
  }

  lemma QueueExactly(queue: seq<u64>)
    ensures ValidateQueue(queue)
         == if |queue| > 2 then Fail(InvalidQueueMember)
            else if QueueAgrees(queue) then Pass else Fail(DuplicateQueueMember)
    ensures QueueAgrees(queue) ==> |queue| <= 2
  {
    if |queue| > 2 && forall i :: 0 <= i < |queue| ==> queue[i] == 1 || queue[i] == 2 {
      ThreeOfTwo(queue);
    }
  }

  lemma ThreeOfTwo(queue: seq<u64>)
    requires |queue| > 2 && forall i :: 0 <= i < |queue| ==> queue[i] == 1 || queue[i] == 2
    ensures queue[0] == queue[1] || queue[0] == queue[2] || queue[1] == queue[2]
  {
    assert queue[0] == 1 || queue[0] == 2;
    assert queue[1] == 1 || queue[1] == 2;
    assert queue[2] == 1 || queue[2] == 2;
  }

  lemma LiveIsNumbered(id: u64, slot: TaskSlot, queue: seq<u64>)
    requires TaskAgrees(id, slot, queue)
    ensures slot.capabilities.state == TableLive ==> slot.generation != 0
  {
    hide TableAgrees;
  }

  /** The check passes exactly on states whose parts agree, and otherwise names the first disagreement. */
  lemma ValidateExactly(s: RuntimeState)
    ensures Validate(s) == if Agrees(s) then Pass else Fail(Blame(s))
  {
    hide QueueAgrees, TaskAgrees, TaskBlame, ValidateSlot, ValidateQueue, ValidateCooperative, ValidateSupervised,
      SupervisionAgrees, SupervisedBlame, NothingSupervised, EndpointAgrees;
    QueueExactly(s.queue);
    TaskExactly(1, s.sender, s.queue);
    TaskExactly(2, s.receiver, s.queue);
    if s.profile == Supervised {
      SupervisedExactly(s);
    } else if TaskAgrees(1, s.sender, s.queue) && TaskAgrees(2, s.receiver, s.queue) {
      LiveIsNumbered(1, s.sender, s.queue);
      LiveIsNumbered(2, s.receiver, s.queue);
      CooperativeExactly(s);
    }
  }

  // With a journal ---------------------------------------------------------------------------------

  predicate RecordsAgree(j: Journal) {
    forall i :: 0 <= i < |j.committed| ==>
      var r := j.committed[i];
      r.schemaVersion == 1 && r.byteSize == 128 && r.reservedZero == 0 && r.trailingReservedZero == 0
      && r.recordSequence == i + 1
  }

  /** At most one journal handle, the supervisor's, to read and nothing else. */
  predicate ReadersAgree(s: RuntimeState) {
    && (forall i :: 0 <= i < 16 ==> !IsBook(s.receiver.capabilities.slots[i]))
    && (forall i, k :: 0 <= i < k < 16 ==>
          !(IsBook(s.sender.capabilities.slots[i]) && IsBook(s.sender.capabilities.slots[k])))
    && forall i :: 0 <= i < 16 && IsBook(s.sender.capabilities.slots[i]) ==>
         var e := s.sender.capabilities.slots[i].entry.value;
         e.rights == 128 && e.target == ObjectReference(1, 1)
  }

  predicate IsBook(slot: CapabilitySlot) {
    slot.entry.Some? && slot.entry.value.objectType == 5
  }

  /**
   The journal is dead with both tasks, sealed or dead with the workload, and live reserves what its request
   needs.
   */
  predicate JournalAgrees(j: Journaled) {
    var dead := j.runtime.sender.state == TaskDead && j.runtime.receiver.state == TaskDead;
    match j.journal.state
    case JournalBuilding => false
    case JournalDead =>
      && j.journal == Journal(JournalDead, 0, 0, 0, []) && dead
      && forall i :: 0 <= i < 16 ==> !IsBook(j.runtime.sender.capabilities.slots[i])
    case _ =>
      && j.journal.objectGeneration == 1 && j.journal.nextSequence == |j.journal.committed| + 1
      && RecordsAgree(j.journal) && |j.journal.committed| + j.journal.reserved <= 16
      && if j.journal.state == JournalLive then
           && j.runtime.receiver.state != TaskDead
           && j.journal.reserved == (if j.runtime.broker.state == BrokerPending then 2
                                     else if j.runtime.broker.state == BrokerApproved then 1 else 0)
         else
           && j.journal.reserved == 0 && !j.runtime.broker.requestPresent
           && j.runtime.broker.state != BrokerPending && j.runtime.broker.state != BrokerApproved
  }

  lemma JournalExactly(j: Journaled)
    ensures JournalValid(j.journal) && JournalMatches(j) <==> JournalAgrees(j)
  {
    var a := j.runtime.sender.capabilities;
    assert forall i :: 0 <= i < 16 ==> (HoldsJournal(a, i) <==> IsBook(a.slots[i]));
    assert RecordsAgree(j.journal) <==>
           forall i :: 0 <= i < |j.journal.committed| ==>
             j.journal.committed[i].WellFormed() && j.journal.committed[i].recordSequence == i + 1;
  }

  lemma ReadersExactly(s: RuntimeState)
    ensures JournalEntriesValid(s.sender.capabilities) && NoJournalEntries(s.receiver.capabilities) <==> ReadersAgree(s)
  {
    var a, b := s.sender.capabilities, s.receiver.capabilities;
    assert forall i :: 0 <= i < 16 ==> (HoldsJournal(a, i) <==> IsBook(a.slots[i]));
    assert forall i :: 0 <= i < 16 ==> (HoldsJournal(b, i) <==> IsBook(b.slots[i]));
  }

  lemma ValidateJournaledExactly(j: Journaled)
    ensures ValidateJournaled(j)
         == if !Agrees(j.runtime) then Fail(Blame(j.runtime))
            else if ReadersAgree(j.runtime) && JournalAgrees(j) then Pass else Fail(JournalInvariant)
  {
    hide Validate, Agrees, Blame, ReadersAgree, JournalAgrees, JournalValid, JournalMatches, JournalEntriesValid,
      NoJournalEntries;
    ValidateExactly(j.runtime);
    ReadersExactly(j.runtime);
    JournalExactly(j);
  }
}
