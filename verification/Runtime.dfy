/**
 The two-task runtime as a function of its state: scheduling, one-slot IPC, staged
 launch, the approval broker and teardown, with every defensive check, `validate`
 call and error path of the source. A failed transition yields an error and no
 state: trap handling and teardown put their snapshot back before they return it.
 */
module Runtime {
  import opened Words
  import opened TrapAbi
  import opened Capability

  // State --------------------------------------------------------------------

  datatype TaskState = Staged | Ready | Running | BlockedReceive | BlockedApproval | Exited | TaskDead

  datatype TaskSlot = TaskSlot(generation: u64, state: TaskState, context: TaskContext, capabilities: Table)

  datatype RuntimeProfile = Cooperative | Supervised

  datatype Endpoint = Endpoint(
    objectGeneration: u64, senderTask: u64, senderGeneration: u64,
    receiverTask: u64, receiverGeneration: u64, occupied: bool, payload: u64)

  const EMPTY_ENDPOINT: Endpoint := Endpoint(0, 0, 0, 0, 0, false, 0)

  datatype Manifest = Manifest(
    manifestId: u64, principalId: u64, targetTaskId: u64, targetGeneration: u64, imageId: u64, published: bool)

  const EMPTY_MANIFEST: Manifest := Manifest(0, 0, 0, 0, 0, false)
  const PUBLISHED_MANIFEST: Manifest := Manifest(1, 1, RECEIVER_TASK_ID, WORKLOAD_GENERATION, 1, true)

  datatype Request = Request(
    principalId: u64, workloadTaskId: u64, workloadGeneration: u64, sequence: u64, actionId: u64,
    effectObjectId: u64, effectObjectGeneration: u64, argument: u64, requestedRights: u64, resultingRights: u64)

  const NO_REQUEST: Request := Request(0, 0, 0, 0, 0, 0, 0, 0, 0, 0)

  /** The only request shape the broker ever records. */
  function CommitRequest(sequence: u64, argument: u64): Request {
    Request(1, RECEIVER_TASK_ID, WORKLOAD_GENERATION, sequence, 1, 1, 1, argument, RIGHT_COMMIT_EFFECT, 0)
  }

  datatype BrokerState =
    BrokerBuilding | BrokerEmpty | BrokerPending | BrokerApproved | BrokerClosing | BrokerDead

  datatype Broker = Broker(
    state: BrokerState, objectGeneration: u64, supervisorTaskId: u64, supervisorGeneration: u64,
    workloadTaskId: u64, workloadGeneration: u64, requestKind: u64, request: Request, requestPresent: bool,
    nextSequence: u64, sequenceExhausted: bool, decisionEpoch: u64, approvalEpoch: u64, expiryEpoch: u64)
  {
    function ClearRequest(): Broker {
      this.(requestKind := 0, request := NO_REQUEST, requestPresent := false, approvalEpoch := 0, expiryEpoch := 0)
    }

    predicate Cleared() {
      !requestPresent && requestKind == 0 && request == NO_REQUEST && approvalEpoch == 0 && expiryEpoch == 0
    }
  }

  const DEAD_BROKER: Broker := Broker(BrokerDead, 0, 0, 0, 0, 0, 0, NO_REQUEST, false, 0, false, 0, 0, 0)

  datatype Effect = Effect(
    objectGeneration: u64, supervisorTaskId: u64, supervisorGeneration: u64, occupied: bool, value: u64)

  const EMPTY_EFFECT: Effect := Effect(0, 0, 0, false, 0)

  datatype RuntimeState = RuntimeState(
    profile: RuntimeProfile, sender: TaskSlot, receiver: TaskSlot, queue: seq<u64>,
    endpoint: Endpoint, manifest: Manifest, broker: Broker, effect: Effect)

  datatype TrapOutcome = Resume(task: u64) | Switch(task: u64) | Exit(task: u64)

  datatype RuntimeError =
    | InvalidTask | InvalidGeneration | DuplicateGeneration | WrongState | NoRunningTask
    | MultipleRunningTasks | QueueFull | DuplicateQueueMember | InvalidQueueMember
    | MissingQueueMember | EndpointInvariant | NoRunnableTask | CapabilityInvariant
    | ManifestInvariant | BrokerInvariant | EffectInvariant | JournalInvariant | PublicationFailure

  type Transition = Result<(RuntimeState, TrapOutcome), RuntimeError>

  // Slots and queue ----------------------------------------------------------

  predicate IsTask(task: u64) {
    task == SENDER_TASK_ID || task == RECEIVER_TASK_ID
  }

  function Slot(s: RuntimeState, task: u64): TaskSlot
    requires IsTask(task)
  {
    if task == SENDER_TASK_ID then s.sender else s.receiver
  }

  function WithSlot(s: RuntimeState, task: u64, slot: TaskSlot): RuntimeState
    requires IsTask(task)
  {
    if task == SENDER_TASK_ID then s.(sender := slot) else s.(receiver := slot)
  }

  function SetResult(s: RuntimeState, task: u64, status: TrapStatus, value: u64): RuntimeState
    requires IsTask(task)
  {
    var slot := Slot(s, task);
    WithSlot(s, task, slot.(context := slot.context.SetResult(status, value)))
  }

  function SetState(s: RuntimeState, task: u64, state: TaskState): RuntimeState
    requires IsTask(task)
  {
    WithSlot(s, task, Slot(s, task).(state := state))
  }

  function Push(queue: seq<u64>, task: u64): Result<seq<u64>, RuntimeError> {
    if task in queue then Err(DuplicateQueueMember)
    else if |queue| >= 2 then Err(QueueFull)
    else Ok(queue + [task])
  }

  function RunningTask(s: RuntimeState): Result<u64, RuntimeError> {
    if s.sender.state == Running && s.receiver.state == Running then Err(MultipleRunningTasks)
    else if s.sender.state == Running then Ok(SENDER_TASK_ID)
    else if s.receiver.state == Running then Ok(RECEIVER_TASK_ID)
    else Err(NoRunningTask)
  }

  predicate BothDead(s: RuntimeState) {
    s.sender.state == TaskDead && s.receiver.state == TaskDead
  }

  /** Pop the head of the run queue and mark it running. */
  function DispatchNext(s: RuntimeState): Result<(RuntimeState, Option<u64>), RuntimeError> {
    if s.sender.state == Running || s.receiver.state == Running then Err(WrongState)
    else if s.queue == [] then (if BothDead(s) then Ok((s, None)) else Err(NoRunnableTask))
    else
      var task := s.queue[0];
      if !IsTask(task) then Err(InvalidTask)
      else if Slot(s, task).state != Ready then Err(InvalidQueueMember)
      else
        var next := SetState(s.(queue := s.queue[1..]), task, Running);
        :- Validate(next);
        Ok((next, Some(task)))
  }

  /** `dispatch_next()?.ok_or(NoRunnableTask)?`, then switch to the chosen task. */
  function SwitchAway(s: RuntimeState): Transition {
    var (next, chosen) :- DispatchNext(s);
    if chosen.None? then Err(NoRunnableTask) else Ok((next, Switch(chosen.value)))
  }

  // Validation ---------------------------------------------------------------

  function ValidateQueue(queue: seq<u64>): Outcome<RuntimeError> {
    if |queue| > 2 then Fail(InvalidQueueMember)
    else if (exists i :: 0 <= i < |queue| && !IsTask(queue[i])) || (|queue| == 2 && queue[0] == queue[1]) then
      Fail(DuplicateQueueMember)
    else Pass
  }

  function ValidateSlot(id: u64, slot: TaskSlot, queue: seq<u64>): Outcome<RuntimeError> {
    if !TableValid(slot.capabilities) then Fail(CapabilityInvariant)
    else if (slot.state == Ready) != (id in queue) then
      Fail(if id in queue then InvalidQueueMember else MissingQueueMember)
    else if slot.state == TaskDead &&
            (slot.generation != 0 || slot.context.taskId != 0 || slot.context.generation != 0
             || slot.context.root != 0 || slot.capabilities.state != TableDead) then
      Fail(InvalidGeneration)
    else if slot.state != TaskDead &&
            (slot.generation == 0 || slot.context.taskId != id || slot.context.generation != slot.generation
             || slot.context.root == 0 || slot.capabilities.taskId != id
             || slot.capabilities.taskGeneration != slot.generation) then
      Fail(InvalidGeneration)
    else if !TableStateMatches(slot) then Fail(CapabilityInvariant)
    else Pass
  }

  predicate TableStateMatches(slot: TaskSlot) {
    match slot.state
    case Staged => slot.capabilities.state == TableBuilding
    case Exited => slot.capabilities.state == TableLive || slot.capabilities.state == TableClosing
    case TaskDead => slot.capabilities.state == TableDead
    case _ => slot.capabilities.state == TableLive
  }

  function Validate(s: RuntimeState): Outcome<RuntimeError> {
    var q := ValidateQueue(s.queue);
    if q.Fail? then q
    else if s.sender.state == Running && s.receiver.state == Running then Fail(MultipleRunningTasks)
    else
      var a := ValidateSlot(SENDER_TASK_ID, s.sender, s.queue);
      if a.Fail? then a
      else
        var b := ValidateSlot(RECEIVER_TASK_ID, s.receiver, s.queue);
        if b.Fail? then b
        else if s.profile == Cooperative then ValidateCooperative(s)
        else ValidateSupervised(s)
  }

  predicate Detached(table: Table) {
    table.state == TableClosing || table.state == TableDead
  }

  function ValidateCooperative(s: RuntimeState): Outcome<RuntimeError> {
    var e := s.endpoint;
    if s.sender.state == Staged || s.sender.state == BlockedApproval
       || s.receiver.state == Staged || s.receiver.state == BlockedApproval
       || s.manifest != EMPTY_MANIFEST || s.broker != DEAD_BROKER || s.effect != EMPTY_EFFECT then
      Fail(CapabilityInvariant)
    else if s.sender.capabilities.state == TableLive
            && (e.senderTask != SENDER_TASK_ID || e.senderGeneration != s.sender.generation) then
      Fail(EndpointInvariant)
    else if Detached(s.sender.capabilities) && (e.senderTask != 0 || e.senderGeneration != 0) then
      Fail(EndpointInvariant)
    else if s.receiver.capabilities.state == TableLive
            && (e.receiverTask != RECEIVER_TASK_ID || e.receiverGeneration != s.receiver.generation) then
      Fail(EndpointInvariant)
    else if Detached(s.receiver.capabilities) && (e.receiverTask != 0 || e.receiverGeneration != 0) then
      Fail(EndpointInvariant)
    else if s.receiver.state == BlockedReceive && (e.occupied || e.senderGeneration == 0) then
      Fail(EndpointInvariant)
    else if e.receiverGeneration == 0 && e.occupied then Fail(EndpointInvariant)
    else if (!e.occupied && e.payload != 0)
            || (e.objectGeneration != 0 && e.objectGeneration != 1)
            || (!BothDead(s) && e.objectGeneration != 1)
            || ((e.senderTask == 0) != (e.senderGeneration == 0))
            || ((e.receiverTask == 0) != (e.receiverGeneration == 0))
            || (e.senderTask != 0 && e.senderTask != SENDER_TASK_ID)
            || (e.receiverTask != 0 && e.receiverTask != RECEIVER_TASK_ID) then
      Fail(EndpointInvariant)
    else if BothDead(s) && e != EMPTY_ENDPOINT then Fail(EndpointInvariant)
    else Pass
  }

  function ValidateSupervised(s: RuntimeState): Outcome<RuntimeError> {
    if s.endpoint != EMPTY_ENDPOINT || s.sender.state == BlockedReceive || s.receiver.state == BlockedReceive then
      Fail(EndpointInvariant)
    else if s.sender.state != TaskDead && s.sender.generation != SUPERVISOR_GENERATION then Fail(InvalidGeneration)
    else if s.receiver.state != TaskDead && s.receiver.generation != WORKLOAD_GENERATION then Fail(InvalidGeneration)
    else if !ManifestMatches(s) then Fail(ManifestInvariant)
    else if !BrokerMatches(s) then Fail(BrokerInvariant)
    else if !EffectMatches(s.effect) then Fail(EffectInvariant)
    else if BothDead(s) && (s.manifest != EMPTY_MANIFEST || s.broker != DEAD_BROKER || s.effect != EMPTY_EFFECT) then
      Fail(BrokerInvariant)
    else Pass
  }

  predicate ManifestMatches(s: RuntimeState) {
    var w := s.receiver;
    && (w.state == Staged ==>
          s.manifest == EMPTY_MANIFEST && w.capabilities.state == TableBuilding && NoEntries(w.capabilities.slots))
    && (w.state != Staged && w.state != TaskDead && w.capabilities.state != TableClosing ==>
          s.manifest == PUBLISHED_MANIFEST)
    && (w.state == TaskDead ==> s.manifest == EMPTY_MANIFEST)
  }

  predicate BrokerMatches(s: RuntimeState) {
    var b := s.broker;
    && (match b.state
        case BrokerBuilding => false
        case BrokerPending =>
          && b.requestPresent && b.requestKind == 1 && b.approvalEpoch == 0 && b.expiryEpoch == 0
          && s.receiver.state == BlockedApproval
        case BrokerApproved =>
          && b.requestPresent && b.requestKind == 1 && b.approvalEpoch != 0
          && b.expiryEpoch == (if b.approvalEpoch == U64_MAX then U64_MAX else b.approvalEpoch + 1)
          && s.receiver.state == BlockedApproval
        case _ => b.Cleared())
    && (if b.state != BrokerDead
        then b.objectGeneration == 1 && b.nextSequence != 0 && b.decisionEpoch != 0
        else b == DEAD_BROKER)
    && (b.requestPresent ==>
          b.request.sequence != 0 && b.request == CommitRequest(b.request.sequence, b.request.argument))
  }

  predicate EffectMatches(e: Effect) {
    if e.objectGeneration == 0 then e == EMPTY_EFFECT
    else
      && e.objectGeneration == 1 && e.supervisorTaskId == SENDER_TASK_ID
      && e.supervisorGeneration == SUPERVISOR_GENERATION
      && (!e.occupied ==> e.value == 0)
  }

  // Capability checks --------------------------------------------------------

  function ResolveObject(
    s: RuntimeState, task: u64, handle: u64, objectType: u64, right: u64, id: u64, generation: u64):
    Outcome<TrapStatus>
    requires IsTask(task) && right > 0
  {
    var slot := Slot(s, task);
    match ResolveTyped(slot.capabilities, task, slot.generation, handle, objectType, right)
    case Err(status) => Fail(status)
    case Ok(entry) =>
      if entry.target.id != id || entry.target.generation != generation || generation == 0 then Fail(InvalidHandle)
      else Pass
  }

  function ResolveEndpoint(s: RuntimeState, task: u64, handle: u64, right: u64): Outcome<TrapStatus>
    requires IsTask(task) && right > 0
  {
    var slot := Slot(s, task);
    match ResolveTyped(slot.capabilities, task, slot.generation, handle, OBJECT_ENDPOINT, right)
    case Err(status) => Fail(status)
    case Ok(entry) =>
      if entry.target != ObjectReference(1, 1) || s.endpoint.objectGeneration != 1 then Fail(InvalidHandle)
      else Pass
  }

  /** A refused resolution never reads as success. */
  lemma RefusalIsNotOk(s: RuntimeState, task: u64, handle: u64, right: u64)
    requires IsTask(task) && right > 0
    ensures ResolveEndpoint(s, task, handle, right) != Fail(StatusOk)
  {
  }

  // Trap handlers ------------------------------------------------------------

  /** Record a status, run the source's closing `validate`, and resume the caller. */
  function Finish(s: RuntimeState, task: u64, status: TrapStatus, value: u64): Transition
    requires IsTask(task)
  {
    var next := SetResult(s, task, status, value);
    :- Validate(next);
    Ok((next, Resume(task)))
  }

  /** Record a status and resume without validating. */
  function Refuse(s: RuntimeState, task: u64, status: TrapStatus): Transition
    requires IsTask(task)
  {
    Ok((SetResult(s, task, status, 0), Resume(task)))
  }

  function Yield(s: RuntimeState, task: u64, i: TaskContext): Transition
    requires IsTask(task)
  {
    if i.rdi != 0 || i.rsi != 0 || i.rdx != 0 then Refuse(s, task, InvalidOperation)
    else
      var s1 := SetState(SetResult(s, task, StatusOk, 0), task, Ready);
      var queue :- Push(s1.queue, task);
      SwitchAway(s1.(queue := queue))
  }

  function SendStatus(s: RuntimeState, task: u64, handle: u64, reserved: u64): TrapStatus
    requires IsTask(task)
  {
    if reserved != 0 then InvalidOperation
    else
      match ResolveEndpoint(s, task, handle, RIGHT_SEND)
      case Fail(status) => status
      case Pass =>
        if s.endpoint.receiverGeneration == 0 then PeerExited
        else if s.endpoint.occupied then SlotFull
        else StatusOk
  }

  function Send(s: RuntimeState, task: u64, handle: u64, message: u64, reserved: u64): Transition
    requires IsTask(task)
  {
    var status := SendStatus(s, task, handle, reserved);
    if status != StatusOk then Finish(s, task, status, 0)
    else if s.receiver.state == BlockedReceive then
      var s1 := s.(endpoint := s.endpoint.(occupied := false, payload := 0));
      var s2 := SetState(SetResult(s1, RECEIVER_TASK_ID, StatusOk, message), RECEIVER_TASK_ID, Ready);
      var queue :- Push(s2.queue, RECEIVER_TASK_ID);
      Finish(s2.(queue := queue), task, StatusOk, 0)
    else
      Finish(s.(endpoint := s.endpoint.(occupied := true, payload := message)), task, StatusOk, 0)
  }

  function Receive(s: RuntimeState, task: u64, handle: u64, reservedMessage: u64, reserved: u64): Transition
    requires IsTask(task)
  {
    var check := if reservedMessage != 0 || reserved != 0 then Fail(InvalidOperation)
                 else ResolveEndpoint(s, task, handle, RIGHT_RECEIVE);
    if check.Fail? then Refuse(s, task, check.error)
    else if s.endpoint.occupied then
      Finish(s.(endpoint := s.endpoint.(occupied := false, payload := 0)), task, StatusOk, s.endpoint.payload)
    else if s.endpoint.senderGeneration == 0 then Refuse(s, task, PeerExited)
    else
      var (next, outcome) :- SwitchAway(SetState(s, task, BlockedReceive));
      :- Validate(next);
      Ok((next, outcome))
  }

  function ExitTrap(s: RuntimeState, task: u64, i: TaskContext): Transition
    requires IsTask(task)
  {
    if i.rdi != 0 || i.rsi != 0 || i.rdx != 0 then Refuse(s, task, InvalidOperation)
    else
      var next := SetState(s, task, Exited);
      :- Validate(next);
      Ok((next, Exit(task)))
  }

  function DuplicateTrap(s: RuntimeState, task: u64, source: u64, requested: u64, reserved: u64): Transition
    requires IsTask(task)
  {
    if reserved != 0 then Refuse(s, task, InvalidOperation)
    else
      var slot := Slot(s, task);
      match Duplicate(slot.capabilities, task, slot.generation, source, requested)
      case Ok((table, raw)) => Finish(WithSlot(s, task, slot.(capabilities := table)), task, StatusOk, raw)
      case Err(status) => Finish(s, task, status, 0)
  }

  function CloseTrap(s: RuntimeState, task: u64, handle: u64, reservedRights: u64, reserved: u64): Transition
    requires IsTask(task)
  {
    if reservedRights != 0 || reserved != 0 then Refuse(s, task, InvalidOperation)
    else
      var slot := Slot(s, task);
      match Close(slot.capabilities, task, slot.generation, handle)
      case Ok(table) => Finish(WithSlot(s, task, slot.(capabilities := table)), task, StatusOk, 0)
      case Err(status) => Finish(s, task, status, 0)
  }

  /** The registered manifest's own check: target, broker generation and slot capacity. */
  predicate ManifestAccepted(workloadGeneration: u64, brokerGeneration: u64, table: Table) {
    workloadGeneration == WORKLOAD_GENERATION && brokerGeneration == 1 && FirstFree(table.slots, 0) < SLOT_COUNT
  }

  function StartStatus(s: RuntimeState, task: u64, handle: u64, manifestId: u64, reserved: u64): Outcome<TrapStatus>
    requires IsTask(task)
  {
    if reserved != 0 then Fail(InvalidOperation)
    else if s.profile != Supervised then Fail(WrongObject)
    else
      match ResolveObject(s, task, handle, OBJECT_TASK_CONTROL, RIGHT_START, 1, 1)
      case Fail(status) => Fail(status)
      case Pass =>
        if manifestId != 1 then Fail(InvalidManifest)
        else if s.receiver.state != Staged then Fail(AlreadyLaunched)
        else if !ManifestAccepted(s.receiver.generation, s.broker.objectGeneration, s.receiver.capabilities) then
          Fail(InvalidManifest)
        else Pass
  }

  function StartWorkload(s: RuntimeState, task: u64, handle: u64, manifestId: u64, reserved: u64): Transition
    requires IsTask(task)
  {
    var check := StartStatus(s, task, handle, manifestId, reserved);
    if check.Fail? then Refuse(s, task, check.error)
    else
      match InstallBuilding(s.receiver.capabilities, OBJECT_APPROVAL_BROKER, ObjectReference(1, 1),
                            RIGHT_SUBMIT_APPROVAL)
      case None => Refuse(s, task, InvalidManifest)
      case Some((table, _)) =>
        var workload := s.receiver.(state := Ready, capabilities := table.(state := TableLive));
        var queue :- Push(s.queue, RECEIVER_TASK_ID);
        Finish(s.(receiver := workload, manifest := PUBLISHED_MANIFEST, queue := queue), task, StatusOk, 0)
  }

  function SubmitStatus(s: RuntimeState, task: u64, handle: u64, kind: u64): Outcome<TrapStatus>
    requires IsTask(task)
  {
    if s.profile != Supervised then Fail(WrongObject)
    else
      match ResolveObject(s, task, handle, OBJECT_APPROVAL_BROKER, RIGHT_SUBMIT_APPROVAL, 1, s.broker.objectGeneration)
      case Fail(status) => Fail(status)
      case Pass =>
        if s.broker.state == BrokerBuilding || s.broker.state == BrokerClosing || s.broker.state == BrokerDead
           || s.broker.sequenceExhausted || s.broker.decisionEpoch == U64_MAX then Fail(BrokerUnavailable)
        else if s.broker.state == BrokerPending || s.broker.state == BrokerApproved then Fail(BrokerFull)
        else if kind != 1 || task != RECEIVER_TASK_ID || s.manifest != PUBLISHED_MANIFEST then Fail(InvalidRequest)
        else Pass
  }

  /** The broker after it accepts `argument` under its next sequence number. */
  function SubmittedBroker(b: Broker, kind: u64, argument: u64): Broker
    requires b.decisionEpoch < U64_MAX
  {
    var sequence := b.nextSequence;
    b.(requestKind := kind, request := CommitRequest(sequence, argument), requestPresent := true,
    state := BrokerPending, decisionEpoch := b.decisionEpoch + 1,
    sequenceExhausted := b.sequenceExhausted || sequence == U64_MAX,
    nextSequence := if sequence == U64_MAX then sequence else sequence + 1)
  }

  function SubmitApproval(s: RuntimeState, task: u64, handle: u64, kind: u64, argument: u64): Transition
    requires IsTask(task)
  {
    var check := SubmitStatus(s, task, handle, kind);
    if check.Fail? then Finish(s, task, check.error, 0)
    else
      var blocked := SetState(s.(broker := SubmittedBroker(s.broker, kind, argument)), task, BlockedApproval);
      var (next, outcome) :- SwitchAway(blocked);
      :- Validate(next);
      Ok((next, outcome))
  }

  function InspectStatus(s: RuntimeState, task: u64, handle: u64, kind: u64, argument: u64): Outcome<TrapStatus>
    requires IsTask(task)
  {
    if kind != 0 || argument != 0 then Fail(InvalidOperation)
    else if s.profile != Supervised then Fail(WrongObject)
    else
      match ResolveObject(s, task, handle, OBJECT_APPROVAL_BROKER, RIGHT_DECIDE_APPROVAL, 1, s.broker.objectGeneration)
      case Fail(status) => Fail(status)
      case Pass =>
        if s.broker.state == BrokerPending && s.broker.requestPresent then Pass
        else if s.broker.state == BrokerClosing || s.broker.state == BrokerDead then Fail(BrokerUnavailable)
        else Fail(InvalidRequest)
  }

  function InspectApproval(s: RuntimeState, task: u64, handle: u64, kind: u64, argument: u64): Transition
    requires IsTask(task)
  {
    var check := InspectStatus(s, task, handle, kind, argument);
    if check.Fail? then Finish(s, task, check.error, 0)
    else
      var slot := Slot(s, task);
      var context := slot.context.(rax := StatusOk.Code(), rdi := s.broker.request.sequence,
                     rsi := s.broker.requestKind, rdx := s.broker.request.argument);
      var next := WithSlot(s, task, slot.(context := context));
      :- Validate(next);
      Ok((next, Resume(task)))
  }

  const DECISION_DENY: u64 := 0
  const DECISION_APPROVE: u64 := 1
  const DECISION_EXPIRE: u64 := 2

  function DecideStatus(s: RuntimeState, task: u64, handle: u64, sequence: u64, decision: u64): Outcome<TrapStatus>
    requires IsTask(task)
  {
    if s.profile != Supervised then Fail(WrongObject)
    else
      match ResolveObject(s, task, handle, OBJECT_APPROVAL_BROKER, RIGHT_DECIDE_APPROVAL, 1, s.broker.objectGeneration)
      case Fail(status) => Fail(status)
      case Pass =>
        if s.broker.state == BrokerClosing || s.broker.state == BrokerDead then Fail(BrokerUnavailable)
        else if !s.broker.requestPresent || s.broker.request.sequence != sequence then Fail(ApprovalMismatch)
        else if decision > DECISION_EXPIRE
                || (decision != DECISION_EXPIRE && s.broker.state != BrokerPending)
                || (decision == DECISION_EXPIRE && s.broker.state != BrokerPending && s.broker.state != BrokerApproved)
        then Fail(InvalidRequest)
        else Pass
  }

  /** Hand a terminal status to the workload waiting on the broker and queue it. */
  function WakeWorkload(s: RuntimeState, status: TrapStatus, value: u64): Result<RuntimeState, RuntimeError> {
    if s.receiver.state != BlockedApproval then Err(BrokerInvariant)
    else
      var s1 := SetState(SetResult(s, RECEIVER_TASK_ID, status, value), RECEIVER_TASK_ID, Ready);
      var queue :- Push(s1.queue, RECEIVER_TASK_ID);
      Ok(s1.(queue := queue))
  }

  function FailBrokerEpochExhaustion(s: RuntimeState): Result<RuntimeState, RuntimeError> {
    var s1 :- if s.receiver.state == BlockedApproval then WakeWorkload(s, BrokerUnavailable, 0) else Ok(s);
    Ok(s1.(broker := s1.broker.ClearRequest().(state := BrokerClosing)))
  }

  function DecideApproval(s: RuntimeState, task: u64, handle: u64, sequence: u64, decision: u64): Transition
    requires IsTask(task)
  {
    var check := DecideStatus(s, task, handle, sequence, decision);
    if check.Fail? then Finish(s, task, check.error, 0)
    else if s.broker.decisionEpoch == U64_MAX
            || (decision == DECISION_APPROVE && s.broker.decisionEpoch + 1 == U64_MAX) then
      var s1 :- FailBrokerEpochExhaustion(s);
      Finish(s1, task, BrokerUnavailable, 0)
    else
      var epoch := s.broker.decisionEpoch + 1;
      if decision == DECISION_APPROVE then
        var broker := s.broker.(state := BrokerApproved, decisionEpoch := epoch, approvalEpoch := epoch,
                      expiryEpoch := epoch + 1);
        Finish(s.(broker := broker), task, StatusOk, 0)
      else
        var broker := s.broker.ClearRequest().(state := BrokerEmpty, decisionEpoch := epoch);
        var s1 :- WakeWorkload(s.(broker := broker),
                               if decision == DECISION_DENY then ApprovalDenied else ApprovalExpired, 0);
        Finish(s1, task, StatusOk, 0)
  }

  function CommitStatus(s: RuntimeState, task: u64, handle: u64, sequence: u64, argument: u64): Outcome<TrapStatus>
    requires IsTask(task)
  {
    if s.profile != Supervised then Fail(WrongObject)
    else
      match ResolveObject(s, task, handle, OBJECT_TEST_EFFECT, RIGHT_COMMIT_EFFECT, 1, s.effect.objectGeneration)
      case Fail(status) => Fail(status)
      case Pass =>
        if s.broker.state != BrokerApproved || !s.broker.requestPresent
           || s.broker.request != CommitRequest(sequence, argument) then Fail(ApprovalMismatch)
        else if s.effect.occupied then Fail(EffectUnavailable)
        else if s.broker.decisionEpoch >= s.broker.expiryEpoch then Fail(ApprovalExpired)
        else Pass
  }

  function CommitEffect(s: RuntimeState, task: u64, handle: u64, sequence: u64, argument: u64): Transition
    requires IsTask(task)
  {
    var check := CommitStatus(s, task, handle, sequence, argument);
    if check.Fail? then Finish(s, task, check.error, 0)
    else if s.broker.decisionEpoch + 1 != s.broker.expiryEpoch then Refuse(s, task, ApprovalExpired)
    else
      var broker := s.broker.ClearRequest().(state := BrokerEmpty, decisionEpoch := s.broker.decisionEpoch + 1);
      var s1 :- WakeWorkload(s.(effect := s.effect.(occupied := true, value := argument), broker := broker),
                             StatusOk, argument);
      Finish(s1, task, StatusOk, 0)
  }

  /** One trap of the running task, whose captured registers are already in its context. */
  function HandleTrap(s: RuntimeState, task: u64): Transition {
    var running :- RunningTask(s);
    if running != task then Err(WrongState)
    else
      var i := Slot(s, task).context;
      match ParseOperation(i.rax)
      case None => Refuse(s, task, InvalidOperation)
      case Some(OpYield) => Yield(s, task, i)
      case Some(OpSend) => Send(s, task, i.rdi, i.rsi, i.rdx)
      case Some(OpReceive) => Receive(s, task, i.rdi, i.rsi, i.rdx)
      case Some(OpExit) => ExitTrap(s, task, i)
      case Some(OpDuplicate) => DuplicateTrap(s, task, i.rdi, i.rsi, i.rdx)
      case Some(OpClose) => CloseTrap(s, task, i.rdi, i.rsi, i.rdx)
      case Some(OpStartWorkload) => StartWorkload(s, task, i.rdi, i.rsi, i.rdx)
      case Some(OpSubmitApproval) => SubmitApproval(s, task, i.rdi, i.rsi, i.rdx)
      case Some(OpInspectApproval) => InspectApproval(s, task, i.rdi, i.rsi, i.rdx)
      case Some(OpDecideApproval) => DecideApproval(s, task, i.rdi, i.rsi, i.rdx)
      case Some(OpCommitEffect) => CommitEffect(s, task, i.rdi, i.rsi, i.rdx)
      case Some(_) => Finish(s, task, InvalidOperation, 0)
  }

  function CaptureTrap(s: RuntimeState, task: u64, frame: TrapFrame, root: u64, generation: u64):
    Result<RuntimeState, RuntimeError>
  {
    if !IsTask(task) then Err(InvalidTask)
    else
      var slot := Slot(s, task);
      if slot.state != Running || slot.generation != generation then Err(WrongState)
      else Ok(WithSlot(s, task, slot.(context := FromTrap(frame, task, generation, root))))
  }

  // Teardown -----------------------------------------------------------------

  function CloseTable(t: Table): Table {
    t.(state := TableClosing, slots := CloseAllSlots(t.slots))
  }

  function BeginTeardown(s: RuntimeState, task: u64): Result<RuntimeState, RuntimeError> {
    if !IsTask(task) then Err(InvalidTask)
    else
      var slot := Slot(s, task);
      if slot.state != Exited || slot.capabilities.state != TableLive then Err(WrongState)
      else
        var closed := WithSlot(s, task, slot.(capabilities := CloseTable(slot.capabilities)));
        var next :- if s.profile == Supervised then DetachSupervised(closed, task) else DetachCooperative(closed, task);
        :- Validate(next);
        Ok(next)
  }

  function DetachSupervised(s: RuntimeState, task: u64): Result<RuntimeState, RuntimeError>
    requires IsTask(task)
  {
    if task == SENDER_TASK_ID then
      var terminal := match s.broker.state
        case BrokerPending => ApprovalDenied
        case BrokerApproved => ApprovalExpired
        case _ => BrokerUnavailable;
      var s1 :- if s.receiver.state == BlockedApproval then WakeWorkload(s, terminal, 0) else Ok(s);
      Ok(s1.(broker := s1.broker.ClearRequest().(state := BrokerClosing, supervisorTaskId := 0,
        supervisorGeneration := 0),
         effect := EMPTY_EFFECT))
    else
      var b := s.broker.ClearRequest().(workloadTaskId := 0, workloadGeneration := 0);
      var state := if b.state == BrokerClosing || b.state == BrokerDead then b.state
                   else if s.sender.state == TaskDead then BrokerClosing
                   else BrokerEmpty;
      Ok(s.(manifest := EMPTY_MANIFEST, broker := b.(state := state)))
  }

  function DetachCooperative(s: RuntimeState, task: u64): Result<RuntimeState, RuntimeError>
    requires IsTask(task)
  {
    if task == SENDER_TASK_ID then
      var s1 := s.(endpoint := s.endpoint.(senderTask := 0, senderGeneration := 0));
      if !s.endpoint.occupied && s.receiver.state == BlockedReceive then
        var s2 := SetState(SetResult(s1, RECEIVER_TASK_ID, PeerExited, 0), RECEIVER_TASK_ID, Ready);
        var queue :- Push(s2.queue, RECEIVER_TASK_ID);
        Ok(s2.(queue := queue))
      else Ok(s1)
    else
      Ok(s.(endpoint := s.endpoint.(receiverTask := 0, receiverGeneration := 0, occupied := false, payload := 0)))
  }

  function DeadSlot(): TaskSlot {
    TaskSlot(0, TaskDead, DEAD_CONTEXT, DeadTable())
  }

  /** Bury an exited task whose handles are gone. */
  function Bury(s: RuntimeState, task: u64): RuntimeState
    requires IsTask(task)
  {
    var s1 := WithSlot(s, task, DeadSlot());
    var s2 := if s.profile == Supervised && task == SENDER_TASK_ID
              then s1.(broker := DEAD_BROKER, effect := EMPTY_EFFECT) else s1;
    if BothDead(s2)
    then s2.(endpoint := EMPTY_ENDPOINT, manifest := EMPTY_MANIFEST, broker := DEAD_BROKER, effect := EMPTY_EFFECT)
    else s2
  }

  function CompleteTeardown(s: RuntimeState, task: u64): Result<(RuntimeState, Option<u64>), RuntimeError> {
    if !IsTask(task) then Err(InvalidTask)
    else
      var slot := Slot(s, task);
      if slot.state != Exited || slot.capabilities.state != TableClosing || !NoEntries(slot.capabilities.slots) then
        Err(WrongState)
      else
        var buried := Bury(s, task);
        :- Validate(buried);
        DispatchNext(buried)
  }

  // Construction -------------------------------------------------------------

  function EndpointEntry(task: u64, generation: u64, rights: u64): CapabilityEntry {
    CapabilityEntry(task, generation, OBJECT_ENDPOINT, rights, ObjectReference(1, 1))
  }

  /** A live table whose first slots hold `entries`. */
  function PublishedTable(task: u64, generation: u64, entries: seq<CapabilityEntry>): Table
    requires |entries| <= SLOT_COUNT
  {
    Table(task, generation, TableLive,
          seq(16, i => if 0 <= i < |entries| then CapabilitySlot(1, false, Some(entries[i])) else EMPTY_SLOT))
  }

  function CooperativeState(sender: TaskContext, receiver: TaskContext): RuntimeState {
    var a := PublishedTable(1, sender.generation, [EndpointEntry(1, sender.generation, RIGHT_SEND + RIGHT_DUPLICATE)]);
    var b := PublishedTable(2, receiver.generation, [EndpointEntry(2, receiver.generation, RIGHT_RECEIVE)]);
    RuntimeState(
      Cooperative,
      TaskSlot(sender.generation, Ready, sender, a),
      TaskSlot(receiver.generation, Ready, receiver, b),
      [RECEIVER_TASK_ID, SENDER_TASK_ID],
      Endpoint(1, 1, sender.generation, 2, receiver.generation, false, 0),
      EMPTY_MANIFEST, DEAD_BROKER, EMPTY_EFFECT)
  }

  function NewCooperative(sender: TaskContext, receiver: TaskContext): Result<RuntimeState, RuntimeError> {
    if sender.taskId != SENDER_TASK_ID || receiver.taskId != RECEIVER_TASK_ID then Err(InvalidTask)
    else if sender.generation == 0 || receiver.generation == 0 then Err(InvalidGeneration)
    else if sender.generation == receiver.generation then Err(DuplicateGeneration)
    else
      var s := CooperativeState(sender, receiver);
      :- Validate(s);
      Ok(s)
  }

  function SupervisorEntry(objectType: u64, rights: u64): CapabilityEntry {
    CapabilityEntry(SENDER_TASK_ID, SUPERVISOR_GENERATION, objectType, rights, ObjectReference(1, 1))
  }

  /** Task control, broker decision and test effect, in slot order. */
  function SupervisorEntries(): seq<CapabilityEntry> {
    [SupervisorEntry(OBJECT_TASK_CONTROL, RIGHT_START),
     SupervisorEntry(OBJECT_APPROVAL_BROKER, RIGHT_DECIDE_APPROVAL),
     SupervisorEntry(OBJECT_TEST_EFFECT, RIGHT_COMMIT_EFFECT)]
  }

  function SupervisedState(supervisor: TaskContext, workload: TaskContext, entries: seq<CapabilityEntry>): RuntimeState
    requires |entries| <= SLOT_COUNT
  {
    RuntimeState(
      Supervised,
      TaskSlot(SUPERVISOR_GENERATION, Ready, supervisor, PublishedTable(1, SUPERVISOR_GENERATION, entries)),
      TaskSlot(WORKLOAD_GENERATION, Staged, workload, BuildingTable(2, WORKLOAD_GENERATION)),
      [SENDER_TASK_ID],
      EMPTY_ENDPOINT, EMPTY_MANIFEST,
      Broker(BrokerEmpty, 1, 1, SUPERVISOR_GENERATION, 2, WORKLOAD_GENERATION, 0, NO_REQUEST, false, 1, false, 1, 0, 0),
      Effect(1, 1, SUPERVISOR_GENERATION, false, 0))
  }

  function NewSupervised(supervisor: TaskContext, workload: TaskContext): Result<RuntimeState, RuntimeError> {
    if supervisor.taskId != SENDER_TASK_ID || workload.taskId != RECEIVER_TASK_ID then Err(InvalidTask)
    else if supervisor.generation != SUPERVISOR_GENERATION || workload.generation != WORKLOAD_GENERATION then
      Err(InvalidGeneration)
    else
      var s := SupervisedState(supervisor, workload, SupervisorEntries());
      :- Validate(s);
      Ok(s)
  }
}
