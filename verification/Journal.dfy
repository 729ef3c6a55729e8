/**
 The effect journal and the journaling wrapper around the supervised runtime: a
 request reserves the records its lifecycle may still need before it is accepted.
 */
module Journal {
  import opened Words
  import opened TrapAbi
  import opened Capability
  import opened Runtime

  const RECORD_COUNT: nat := 16

  datatype EventKind = Requested | Approved | Denied | Expired | Completed | Failed {
    function Code(): u32 {
      match this
      case Requested => 1
      case Approved => 2
      case Denied => 3
      case Expired => 4
      case Completed => 5
      case Failed => 6
    }
  }

  datatype EffectRecord = EffectRecord(
    schemaVersion: u32, byteSize: u32, eventKind: u32, status: u32,
    recordSequence: u64, decisionEpoch: u64, principalId: u64,
    actorTaskId: u64, actorTaskGeneration: u64, subjectTaskId: u64, subjectTaskGeneration: u64,
    requestSequence: u64, actionId: u64, objectType: u32, reservedZero: u32,
    objectId: u64, objectGeneration: u64, rights: u64, trailingReservedZero: u64)
  {
    /** The record as sixteen little-endian words. */
    function Word(index: nat): Option<u64> {
      match index
      case 0 => Some(schemaVersion + byteSize * 0x1_0000_0000)
      case 1 => Some(eventKind + status * 0x1_0000_0000)
      case 2 => Some(recordSequence)
      case 3 => Some(decisionEpoch)
      case 4 => Some(principalId)
      case 5 => Some(actorTaskId)
      case 6 => Some(actorTaskGeneration)
      case 7 => Some(subjectTaskId)
      case 8 => Some(subjectTaskGeneration)
      case 9 => Some(requestSequence)
      case 10 => Some(actionId)
      case 11 => Some(objectType + reservedZero * 0x1_0000_0000)
      case 12 => Some(objectId)
      case 13 => Some(objectGeneration)
      case 14 => Some(rights)
      case 15 => Some(trailingReservedZero)
      case _ => None
    }

    predicate WellFormed() {
      schemaVersion == 1 && byteSize == 128 && reservedZero == 0 && trailingReservedZero == 0
    }
  }

  function Event(
    kind: EventKind, status: TrapStatus, epoch: u64, actor: u64, actorGeneration: u64,
    request: Request, objectType: u32, rights: u64): EffectRecord
  {
    var effect := objectType == OBJECT_TEST_EFFECT;
    EffectRecord(
      1, 128, kind.Code(), status.Code(), 0, epoch, request.principalId, actor, actorGeneration,
      request.workloadTaskId, request.workloadGeneration, request.sequence, request.actionId, objectType, 0,
      if effect then request.effectObjectId else 1, if effect then request.effectObjectGeneration else 1, rights, 0)
  }

  datatype JournalState = JournalBuilding | JournalLive | JournalSealed | JournalDead

  datatype JournalError = Full | Unavailable | RecordInvalid | Broken

  /** `committed` is the live prefix of the record array; the rest of it holds blank records. */
  datatype Journal = Journal(
    state: JournalState, reserved: nat, objectGeneration: u64, nextSequence: u64, committed: seq<EffectRecord>)

  const DEAD_JOURNAL: Journal := Journal(JournalDead, 0, 0, 0, [])

  const LIVE_JOURNAL: Journal := Journal(JournalLive, 0, 1, 1, [])

  function Seal(j: Journal): Result<Journal, JournalError> {
    if j.state != JournalLive || j.reserved != 0 then Err(Unavailable) else Ok(j.(state := JournalSealed))
  }

  function AppendUnreserved(j: Journal, record: EffectRecord): Result<Journal, JournalError> {
    if |j.committed| >= RECORD_COUNT || j.nextSequence == 0 then Err(Full)
    else if !record.WellFormed() || record.recordSequence != 0 then Err(Broken)
    else Ok(j.(committed := j.committed + [record.(recordSequence := j.nextSequence)],
            nextSequence := if j.nextSequence == U64_MAX then 0 else j.nextSequence + 1))
  }

  /** Accept a request: its own record now, and room for the two that may follow. */
  function BeginLifecycle(j: Journal, record: EffectRecord): Result<Journal, JournalError> {
    if j.state != JournalLive then Err(Unavailable)
    else if |j.committed| + j.reserved + 3 > RECORD_COUNT || j.nextSequence == 0 || j.nextSequence > U64_MAX - 2 then
      Err(Full)
    else
      var j' :- AppendUnreserved(j, record);
      Ok(j'.(reserved := 2))
  }

  function AppendReserved(j: Journal, record: EffectRecord, releaseUnused: bool): Result<Journal, JournalError> {
    if j.state != JournalLive || j.reserved == 0 then Err(Unavailable)
    else
      var j' :- AppendUnreserved(j.(reserved := j.reserved - 1), record);
      Ok(if releaseUnused then j'.(reserved := 0) else j')
  }

  function ReadRecord(j: Journal, sequence: u64): Result<EffectRecord, JournalError> {
    if j.state != JournalLive && j.state != JournalSealed then Err(Unavailable)
    else if sequence == 0 || sequence > |j.committed| then Err(RecordInvalid)
    else if j.committed[sequence - 1].recordSequence != sequence then Err(Broken)
    else Ok(j.committed[sequence - 1])
  }

  function WordOrZero(record: EffectRecord, index: nat): u64 {
    if record.Word(index).Some? then record.Word(index).value else 0
  }

  function ReadTriplet(j: Journal, sequence: u64, triplet: u64): Result<(u64, u64, u64), JournalError> {
    if triplet > 5 then Err(RecordInvalid)
    else
      var record :- ReadRecord(j, sequence);
      Ok((WordOrZero(record, triplet * 3), WordOrZero(record, triplet * 3 + 1), WordOrZero(record, triplet * 3 + 2)))
  }

  predicate JournalValid(j: Journal) {
    if j.state == JournalDead then j == DEAD_JOURNAL
    else
      && j.state != JournalBuilding
      && j.objectGeneration == 1
      && |j.committed| + j.reserved <= RECORD_COUNT
      && j.reserved <= 2
      && (j.state == JournalSealed ==> j.reserved == 0)
      && (forall i :: 0 <= i < |j.committed| ==>
            j.committed[i].WellFormed() && j.committed[i].recordSequence == i + 1)
      && j.nextSequence == |j.committed| + 1
  }

  // The journaling runtime ----------------------------------------------------

  datatype Journaled = Journaled(runtime: RuntimeState, journal: Journal)

  type JournaledTransition = Result<(Journaled, TrapOutcome), RuntimeError>

  predicate HoldsJournal(t: Table, i: int)
    requires 0 <= i < SLOT_COUNT
  {
    t.slots[i].entry.Some? && t.slots[i].entry.value.objectType == OBJECT_EFFECT_JOURNAL
  }

  predicate JournalEntriesValid(t: Table) {
    && (forall i, k :: 0 <= i < k < SLOT_COUNT ==> !(HoldsJournal(t, i) && HoldsJournal(t, k)))
    && (forall i :: 0 <= i < SLOT_COUNT && HoldsJournal(t, i) ==>
          t.slots[i].entry.value.rights == RIGHT_READ_EFFECT_JOURNAL
          && t.slots[i].entry.value.target == ObjectReference(1, 1))
  }

  predicate NoJournalEntries(t: Table) {
    forall i :: 0 <= i < SLOT_COUNT ==> !HoldsJournal(t, i)
  }

  function ExpectedReservations(broker: BrokerState): nat {
    match broker
    case BrokerPending => 2
    case BrokerApproved => 1
    case _ => 0
  }

  predicate JournalMatches(j: Journaled) {
    && (match j.journal.state
        case JournalBuilding => false
        case JournalLive =>
          !BothDead(j.runtime) && j.journal.reserved == ExpectedReservations(j.runtime.broker.state)
        case JournalSealed =>
          && j.journal.reserved == 0 && !j.runtime.broker.requestPresent
          && j.runtime.broker.state != BrokerPending && j.runtime.broker.state != BrokerApproved
        case JournalDead => BothDead(j.runtime) && NoJournalEntries(j.runtime.sender.capabilities))
    && (j.runtime.receiver.state == TaskDead ==>
          j.journal.state == JournalSealed || j.journal.state == JournalDead)
  }

  function ValidateJournaled(j: Journaled): Outcome<RuntimeError> {
    var base := Validate(j.runtime);
    if base.Fail? then base
    else if !JournalValid(j.journal) || !JournalEntriesValid(j.runtime.sender.capabilities)
            || !NoJournalEntries(j.runtime.receiver.capabilities) || !JournalMatches(j) then
      Fail(JournalInvariant)
    else Pass
  }

  /** The checked end of every journaled trap. */
  function Sealed(j: Journaled, outcome: TrapOutcome): JournaledTransition {
    if ValidateJournaled(j).Fail? then Err(JournalInvariant) else Ok((j, outcome))
  }

  /** Put the submit back and report `status` instead. */
  function RefuseSubmit(before: Journaled, task: u64, status: TrapStatus): JournaledTransition
    requires IsTask(task)
  {
    var j := before.(runtime := SetResult(before.runtime, task, status, 0));
    :- ValidateJournaled(j);
    Ok((j, Resume(task)))
  }

  function JournalSubmit(before: Journaled, after: RuntimeState, task: u64, outcome: TrapOutcome): JournaledTransition
    requires IsTask(task)
  {
    if before.runtime.broker.decisionEpoch > U64_MAX - 3 then RefuseSubmit(before, task, BrokerUnavailable)
    else
      var record := Event(Requested, StatusOk, after.broker.decisionEpoch, RECEIVER_TASK_ID, WORKLOAD_GENERATION,
                          after.broker.request, OBJECT_APPROVAL_BROKER, RIGHT_SUBMIT_APPROVAL);
      match BeginLifecycle(before.journal, record)
      case Ok(journal) => Sealed(Journaled(after, journal), outcome)
      case Err(Full) => RefuseSubmit(before, task, JournalFull)
      case Err(Unavailable) => RefuseSubmit(before, task, JournalUnavailable)
      case Err(_) => Err(JournalInvariant)
  }

  function JournalDecision(before: Journaled, after: RuntimeState, decision: u64, outcome: TrapOutcome):
    JournaledTransition
  {
    var settled := after.broker.state == BrokerEmpty;
    var (kind, status, release) :-
      if decision == DECISION_APPROVE && after.broker.state == BrokerApproved then Ok((Approved, StatusOk, false))
      else if decision == DECISION_DENY && settled then Ok((Denied, ApprovalDenied, true))
      else if decision == DECISION_EXPIRE && settled then
        Ok((Expired, ApprovalExpired, before.runtime.broker.state == BrokerPending))
      else Err(JournalInvariant);
    var record := Event(kind, status, after.broker.decisionEpoch, SENDER_TASK_ID, SUPERVISOR_GENERATION,
                        before.runtime.broker.request, OBJECT_APPROVAL_BROKER, RIGHT_DECIDE_APPROVAL);
    match AppendReserved(before.journal, record, release)
    case Ok(journal) => Sealed(Journaled(after, journal), outcome)
    case Err(_) => Err(JournalInvariant)
  }

  /** A commit that wrote the effect closes its lifecycle as completed. */
  function JournalCompleted(before: Journaled, after: RuntimeState, outcome: TrapOutcome): JournaledTransition {
    var record := Event(Completed, StatusOk, after.broker.decisionEpoch, SENDER_TASK_ID, SUPERVISOR_GENERATION,
                        before.runtime.broker.request, OBJECT_TEST_EFFECT, RIGHT_COMMIT_EFFECT);
    match AppendReserved(before.journal, record, false)
    case Ok(journal) => Sealed(Journaled(after, journal), outcome)
    case Err(_) => Err(JournalInvariant)
  }

  /** A commit refused because the effect is taken ends its request and closes its lifecycle as failed. */
  function JournalFailed(before: Journaled, after: RuntimeState, task: u64, outcome: TrapOutcome): JournaledTransition
    requires IsTask(task)
  {
    if after.broker.decisionEpoch == U64_MAX then Err(BrokerInvariant)
    else
      var epoch := after.broker.decisionEpoch + 1;
      var broker := after.broker.ClearRequest().(state := BrokerEmpty, decisionEpoch := epoch);
      var woken :- WakeWorkload(after.(broker := broker), EffectUnavailable, 0);
      var record := Event(Failed, EffectUnavailable, epoch, SENDER_TASK_ID, SUPERVISOR_GENERATION,
                          before.runtime.broker.request, OBJECT_TEST_EFFECT, RIGHT_COMMIT_EFFECT);
      match AppendReserved(before.journal, record, false)
      case Ok(journal) => Sealed(Journaled(SetResult(woken, task, EffectUnavailable, 0), journal), outcome)
      case Err(_) => Err(JournalInvariant)
  }

  function SetJournalOutput(s: RuntimeState, task: u64, status: TrapStatus, values: (u64, u64, u64)): RuntimeState
    requires IsTask(task)
  {
    var slot := Slot(s, task);
    WithSlot(s, task, slot.(context := slot.context.(rax := status.Code(), rdi := values.0, rsi := values.1,
                                       rdx := values.2)))
  }

  function JournalReadStatus(j: Journaled, task: u64, i: TaskContext): Outcome<TrapStatus>
    requires IsTask(task)
  {
    if i.rax == 11 && (i.rsi != 0 || i.rdx != 0) then Fail(InvalidOperation)
    else
      match ResolveObject(j.runtime, task, i.rdi, OBJECT_EFFECT_JOURNAL, RIGHT_READ_EFFECT_JOURNAL, 1,
                          j.journal.objectGeneration)
      case Fail(status) => Fail(status)
      case Pass =>
        if j.journal.state != JournalLive && j.journal.state != JournalSealed then Fail(JournalUnavailable) else Pass
  }

  function JournalErrorStatus(error: JournalError): TrapStatus {
    match error
    case Full => JournalFull
    case RecordInvalid => InvalidRecord
    case _ => JournalUnavailable
  }

  /** The two read-only journal operations: the inventory, and one third of a record. */
  function HandleJournalRead(j: Journaled, task: u64, i: TaskContext): JournaledTransition
    requires IsTask(task)
  {
    var check := JournalReadStatus(j, task, i);
    if check.Fail? then
      Ok((j.(runtime := SetJournalOutput(j.runtime, task, check.error, (0, 0, 0))), Resume(task)))
    else
      var (status, values) :=
        if i.rax == 11 then
          (StatusOk, (if j.journal.committed == [] then 0 else 1, j.journal.nextSequence,
           if |j.journal.committed| <= RECORD_COUNT then |j.journal.committed| else RECORD_COUNT))
        else
          match ReadTriplet(j.journal, i.rsi, i.rdx)
          case Ok(words) => (StatusOk, words)
          case Err(error) => (JournalErrorStatus(error), (0, 0, 0));
      var next := j.(runtime := SetJournalOutput(j.runtime, task, status, values));
      :- ValidateJournaled(next);
      Ok((next, Resume(task)))
  }

  predicate Submitted(before: Broker, after: Broker, i: TaskContext) {
    i.rax == 7 && before.state == BrokerEmpty && after.state == BrokerPending && after.requestPresent
  }

  predicate DecisionTaken(before: Broker, i: TaskContext, rax: u64) {
    i.rax == 9 && before.requestPresent && rax == StatusOk.Code()
  }

  predicate EffectWritten(before: Broker, after: Broker, i: TaskContext, rax: u64) {
    i.rax == 10 && before.state == BrokerApproved && after.state == BrokerEmpty && rax == StatusOk.Code()
  }

  predicate EffectRefused(before: Broker, after: Broker, i: TaskContext, rax: u64) {
    i.rax == 10 && before.state == BrokerApproved && after.state == BrokerApproved && rax == EffectUnavailable.Code()
  }

  /** The record a handled trap calls for, and the check that ends it. */
  function Recorded(j: Journaled, after: RuntimeState, task: u64, i: TaskContext, outcome: TrapOutcome):
    JournaledTransition
    requires IsTask(task)
  {
    var was, now, rax := j.runtime.broker, after.broker, Slot(after, task).context.rax;
    if Submitted(was, now, i) then JournalSubmit(j, after, task, outcome)
    else if DecisionTaken(was, i, rax) then JournalDecision(j, after, i.rdx, outcome)
    else if EffectWritten(was, now, i, rax) then JournalCompleted(j, after, outcome)
    else if EffectRefused(was, now, i, rax) then JournalFailed(j, after, task, outcome)
    else Sealed(j.(runtime := after), outcome)
  }

  function HandleJournaledTrap(j: Journaled, task: u64): JournaledTransition {
    var running :- RunningTask(j.runtime);
    if running != task then Err(WrongState)
    else
      var i := Slot(j.runtime, task).context;
      if i.rax == 11 || i.rax == 12 then HandleJournalRead(j, task, i)
      else
        var (after, outcome) :- HandleTrap(j.runtime, task);
        Recorded(j, after, task, i, outcome)
  }

  /** Close any open lifecycle with the system as actor, then seal. */
  function SealForTeardown(j: Journaled): Result<Journaled, RuntimeError> {
    if j.journal.state != JournalLive then Ok(j)
    else
      var settled :-
        if !j.runtime.broker.requestPresent then Ok(j)
        else if j.runtime.broker.decisionEpoch == U64_MAX
          || !(j.runtime.broker.state == BrokerPending || j.runtime.broker.state == BrokerApproved)
        then Err(JournalInvariant)
        else
          var epoch := j.runtime.broker.decisionEpoch + 1;
          var pending := j.runtime.broker.state == BrokerPending;
          var record := Event(if pending then Denied else Expired, if pending then ApprovalDenied else ApprovalExpired,
                              epoch, 0, 0, j.runtime.broker.request, OBJECT_APPROVAL_BROKER, 0);
          match AppendReserved(j.journal, record, pending)
          case Ok(journal) =>
            Ok(Journaled(j.runtime.(broker := j.runtime.broker.(decisionEpoch := epoch)), journal))
          case Err(_) => Err(JournalInvariant);
      match Seal(settled.journal)
      case Ok(journal) => Ok(settled.(journal := journal))
      case Err(_) => Err(JournalInvariant)
  }

  function BeginJournaledTeardown(j: Journaled, task: u64): Result<Journaled, RuntimeError> {
    if !IsTask(task) then Err(InvalidTask)
    else if Slot(j.runtime, task).state != Exited then Err(WrongState)
    else
      var closed :- SealForTeardown(j);
      var runtime :- BeginTeardown(closed.runtime, task);
      var next := closed.(runtime := runtime);
      if ValidateJournaled(next).Fail? then Err(JournalInvariant) else Ok(next)
  }

  function CompleteJournaledTeardown(j: Journaled, task: u64): Result<(Journaled, Option<u64>), RuntimeError> {
    var (runtime, next) :- CompleteTeardown(j.runtime, task);
    var j' := j.(runtime := runtime);
    if ValidateJournaled(j').Fail? then Err(JournalInvariant) else Ok((j', next))
  }

  function FinishReclamation(j: Journaled): Result<Journaled, RuntimeError> {
    if !BothDead(j.runtime) || j.journal.state != JournalSealed || j.journal.reserved != 0
       || !JournalValid(j.journal) then Err(JournalInvariant)
    else
      var next := j.(journal := DEAD_JOURNAL);
      if ValidateJournaled(next).Fail? then Err(JournalInvariant) else Ok(next)
  }

  /** The supervised entries, then the journal read capability in the next slot. */
  function JournaledEntries(): seq<CapabilityEntry> {
    SupervisorEntries() + [SupervisorEntry(OBJECT_EFFECT_JOURNAL, RIGHT_READ_EFFECT_JOURNAL)]
  }

  function NewJournaled(supervisor: TaskContext, workload: TaskContext): Result<Journaled, RuntimeError> {
    if supervisor.taskId != SENDER_TASK_ID || workload.taskId != RECEIVER_TASK_ID then Err(InvalidTask)
    else if supervisor.generation != SUPERVISOR_GENERATION || workload.generation != WORKLOAD_GENERATION then
      Err(InvalidGeneration)
    else
      var j := Journaled(SupervisedState(supervisor, workload, JournaledEntries()), LIVE_JOURNAL);
      if ValidateJournaled(j).Fail? then Err(PublicationFailure) else Ok(j)
  }
}
