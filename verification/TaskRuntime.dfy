/**
 The runtime as an object: two tasks with their capability tables, the run queue and the shared
 objects, changed one after another while a trap or teardown runs, and all put back when it fails.
 Every method is proved equal to the function of module Runtime that the theorems are about.
 */
module TaskRuntimes {
  import opened Words
  import opened TrapAbi
  import opened Capability
  import opened CapabilityTables
  import R = Runtime
  import opened Runtime

  type Trapped = Result<TrapOutcome, RuntimeError>

  /** A method's end state and reply are the function's; a failing step may leave anything behind. */
  ghost predicate Lands(expected: Transition, after: RuntimeState, reply: Trapped) {
    match expected
    case Ok((state, outcome)) => after == state && reply == Ok(outcome)
    case Err(e) => reply == Err(e)
  }

  ghost predicate Steps(
    expected: Result<RuntimeState, RuntimeError>, after: RuntimeState, reply: Outcome<RuntimeError>)
  {
    match expected
    case Ok(state) => after == state && reply == Pass
    case Err(e) => reply == Fail(e)
  }

  class TaskCell {
    var generation: u64
    var state: TaskState
    var context: TaskContext
    const capabilities: CapabilityTable

    ghost predicate Valid() { capabilities.Valid() }

    function Value(): TaskSlot
      requires Valid()
      reads this, capabilities, capabilities.slots
    {
      TaskSlot(generation, state, context, capabilities.Value())
    }

    constructor (slot: TaskSlot)
      ensures Valid() && Value() == slot && fresh(capabilities) && fresh(capabilities.slots)
    {
      generation, state, context := slot.generation, slot.state, slot.context;
      capabilities := new CapabilityTable.Building(0, 0);
      new;
      capabilities.Restore(slot.capabilities);
    }

    method Restore(before: TaskSlot)
      requires Valid()
      modifies this, capabilities, capabilities.slots
      ensures Value() == before
    {
      generation, state, context := before.generation, before.state, before.context;
      capabilities.Restore(before.capabilities);
    }

    /** The slot's share of the runtime's check; `queued` says whether the queue holds the task. */
    method Check(id: u64, queued: bool, ghost queue: seq<u64>) returns (sound: Outcome<RuntimeError>)
      requires Valid() && (queued <==> id in queue)
      ensures sound == ValidateSlot(id, Value(), queue)
    {
      hide TableValid;
      var table := capabilities.Check();
      if !table {
        return Fail(CapabilityInvariant);
      }
      if (state == Ready) != queued {
        return Fail(if queued then InvalidQueueMember else MissingQueueMember);
      }
      if state == TaskDead {
        if generation != 0 || context.taskId != 0 || context.generation != 0 || context.root != 0
           || capabilities.state != TableDead
        {
          return Fail(InvalidGeneration);
        }
      } else if generation == 0 || context.taskId != id || context.generation != generation || context.root == 0
                || capabilities.taskId != id || capabilities.taskGeneration != generation
      {
        return Fail(InvalidGeneration);
      }
      var expected := match state
        case Staged => TableBuilding
        case Exited => if capabilities.state == TableClosing then TableClosing else TableLive
        case TaskDead => TableDead
        case _ => TableLive;
      return if capabilities.state == expected then Pass else Fail(CapabilityInvariant);
    }

    /** Frees an exited task's slot, if its table is closing and empty. */
    method Bury() returns (buried: Outcome<RuntimeError>)
      requires Valid()
      modifies this, capabilities, capabilities.slots
      ensures if old(state) != Exited || old(capabilities.state) != TableClosing
              || !NoEntries(old(capabilities.Value().slots))
              then buried == Fail(WrongState) else buried == Pass && Value() == DeadSlot()
    {
      if state != Exited || capabilities.state != TableClosing {
        return Fail(WrongState);
      }
      buried := capabilities.FinishDead();
      if buried.Fail? {
        return;
      }
      state := TaskDead;
      generation := 0;
      context := DEAD_CONTEXT;
    }
  }

  class TaskRuntime {
    const profile: RuntimeProfile
    const sender: TaskCell
    const receiver: TaskCell
    const queue: RunQueue
    var endpoint: Endpoint
    var manifest: R.Manifest
    var broker: Broker
    var effect: Effect

    /** Everything this object is made of, besides itself. */
    ghost function Parts(): set<object> {
      {sender, sender.capabilities, sender.capabilities.slots,
       receiver, receiver.capabilities, receiver.capabilities.slots, queue, queue.entries}
    }

    ghost predicate Valid()
      reads queue, queue.entries
    {
      && sender.Valid() && receiver.Valid() && queue.Valid()
      && sender != receiver && sender.capabilities != receiver.capabilities
      && sender.capabilities.slots != receiver.capabilities.slots
    }

    function Value(): RuntimeState
      requires Valid()
      reads this, queue, queue.entries, Parts()
    {
      RuntimeState(profile, sender.Value(), receiver.Value(), queue.Value(), endpoint, manifest, broker, effect)
    }

    constructor (state: RuntimeState)
      requires |state.queue| <= 2
      ensures Valid() && Value() == state && fresh(Parts())
    {
      profile := state.profile;
      sender := new TaskCell(state.sender);
      receiver := new TaskCell(state.receiver);
      queue := new RunQueue();
      endpoint, manifest, broker, effect := state.endpoint, state.manifest, state.broker, state.effect;
      new;
      queue.Restore(state.queue);
    }

    /** Puts a snapshot of this object back. */
    method Restore(before: RuntimeState)
      requires Valid() && before.profile == profile && |before.queue| <= 2
      modifies this, Parts()
      ensures Valid() && Value() == before
    {
      sender.Restore(before.sender);
      receiver.Restore(before.receiver);
      queue.Restore(before.queue);
      endpoint, manifest, broker, effect := before.endpoint, before.manifest, before.broker, before.effect;
    }

    function Cell(task: u64): TaskCell
      requires IsTask(task)
    {
      if task == SENDER_TASK_ID then sender else receiver
    }

    method SetContext(task: u64, context: TaskContext)
      requires Valid() && IsTask(task)
      modifies sender`context, receiver`context
      ensures Valid() && Value() == WithSlot(old(Value()), task, Slot(old(Value()), task).(context := context))
    {
      Cell(task).context := context;
    }

    method SetResult(task: u64, status: TrapStatus, value: u64)
      requires Valid() && IsTask(task)
      modifies sender`context, receiver`context
      ensures Valid() && Value() == R.SetResult(old(Value()), task, status, value)
    {
      SetContext(task, Cell(task).context.SetResult(status, value));
    }

    method SetState(task: u64, state: TaskState)
      requires Valid() && IsTask(task)
      modifies sender`state, receiver`state
      ensures Valid() && Value() == R.SetState(old(Value()), task, state)
    {
      Cell(task).state := state;
    }

    method PushQueue(task: u64) returns (pushed: Outcome<RuntimeError>)
      requires Valid()
      modifies queue, queue.entries
      ensures Valid()
      ensures match Push(old(Value()).queue, task)
              case Ok(q) => pushed == Pass && Value() == old(Value()).(queue := q)
              case Err(e) => pushed == Fail(e) && Value() == old(Value())
    {
      pushed := queue.Push(task);
    }

    function Running(): Result<u64, RuntimeError>
      reads sender, receiver
    {
      if sender.state == TaskState.Running && receiver.state == TaskState.Running then Err(MultipleRunningTasks)
      else if sender.state == TaskState.Running then Ok(SENDER_TASK_ID)
      else if receiver.state == TaskState.Running then Ok(RECEIVER_TASK_ID)
      else Err(NoRunningTask)
    }

    // Validation ---------------------------------------------------------------------------------------

    method CheckCooperative() returns (sound: Outcome<RuntimeError>)
      requires Valid()
      ensures sound == ValidateCooperative(Value())
    {
      if sender.state == Staged || sender.state == BlockedApproval || receiver.state == Staged
         || receiver.state == BlockedApproval || manifest != EMPTY_MANIFEST || broker != DEAD_BROKER
         || effect != EMPTY_EFFECT
      {
        return Fail(CapabilityInvariant);
      }
      sound := CheckAttachment();
      if sound.Fail? {
        return;
      }
      var dead, e := sender.state == TaskDead && receiver.state == TaskDead, endpoint;
      if (!e.occupied && e.payload != 0) || (e.objectGeneration != 0 && e.objectGeneration != 1)
         || (!dead && e.objectGeneration != 1) || ((e.senderTask == 0) != (e.senderGeneration == 0))
         || ((e.receiverTask == 0) != (e.receiverGeneration == 0))
         || (e.senderTask != 0 && e.senderTask != SENDER_TASK_ID)
         || (e.receiverTask != 0 && e.receiverTask != RECEIVER_TASK_ID)
      {
        return Fail(EndpointInvariant);
      }
      return if dead && e != EMPTY_ENDPOINT then Fail(EndpointInvariant) else Pass;
    }

    /** The endpoint names each task exactly while its table is live, and holds nothing for nobody. */
    method CheckAttachment() returns (sound: Outcome<RuntimeError>)
      requires Valid()
      ensures sound == if EndpointAttached(Value()) then Pass else Fail(EndpointInvariant)
    {
      var a, b, e := sender.capabilities.state, receiver.capabilities.state, endpoint;
      if a == TableLive && (e.senderTask != SENDER_TASK_ID || e.senderGeneration != sender.generation) {
        return Fail(EndpointInvariant);
      }
      if (a == TableClosing || a == TableDead) && (e.senderTask != 0 || e.senderGeneration != 0) {
        return Fail(EndpointInvariant);
      }
      if b == TableLive && (e.receiverTask != RECEIVER_TASK_ID || e.receiverGeneration != receiver.generation) {
        return Fail(EndpointInvariant);
      }
      if (b == TableClosing || b == TableDead) && (e.receiverTask != 0 || e.receiverGeneration != 0) {
        return Fail(EndpointInvariant);
      }
      if receiver.state == BlockedReceive && (e.occupied || e.senderGeneration == 0) {
        return Fail(EndpointInvariant);
      }
      if e.receiverGeneration == 0 && e.occupied {
        return Fail(EndpointInvariant);
      }
      return Pass;
    }

    method CheckManifest() returns (sound: bool)
      requires Valid()
      ensures sound <==> ManifestMatches(Value())
    {
      if receiver.state == Staged {
        var empty := receiver.capabilities.IsEmpty();
        return manifest == EMPTY_MANIFEST && receiver.capabilities.state == TableBuilding && empty;
      }
      if receiver.state == TaskDead {
        return manifest == EMPTY_MANIFEST;
      }
      return receiver.capabilities.state == TableClosing || manifest == PUBLISHED_MANIFEST;
    }

    method CheckBroker() returns (sound: bool)
      requires Valid()
      ensures sound <==> BrokerMatches(Value())
    {
      match broker.state {
        case BrokerBuilding => return false;
        case BrokerPending =>
          if !broker.requestPresent || broker.requestKind != 1 || broker.approvalEpoch != 0 || broker.expiryEpoch != 0
             || receiver.state != BlockedApproval
          {
            return false;
          }
        case BrokerApproved =>
          var next := if broker.approvalEpoch == U64_MAX then U64_MAX else broker.approvalEpoch + 1;
          if !broker.requestPresent || broker.requestKind != 1 || broker.approvalEpoch == 0
            || broker.expiryEpoch != next
             || receiver.state != BlockedApproval
          {
            return false;
          }
        case _ =>
          if !broker.Cleared() {
            return false;
          }
      }
      if broker.state != BrokerDead {
        if broker.objectGeneration != 1 || broker.nextSequence == 0 || broker.decisionEpoch == 0 {
          return false;
        }
      } else if broker != DEAD_BROKER {
        return false;
      }
      return !broker.requestPresent
             || (broker.request.sequence != 0
                 && broker.request == CommitRequest(broker.request.sequence, broker.request.argument));
    }

    method CheckSupervised() returns (sound: Outcome<RuntimeError>)
      requires Valid()
      ensures sound == ValidateSupervised(Value())
    {
      hide ManifestMatches, BrokerMatches;
      if endpoint != EMPTY_ENDPOINT || sender.state == BlockedReceive || receiver.state == BlockedReceive {
        return Fail(EndpointInvariant);
      }
      if sender.state != TaskDead && sender.generation != SUPERVISOR_GENERATION {
        return Fail(InvalidGeneration);
      }
      if receiver.state != TaskDead && receiver.generation != WORKLOAD_GENERATION {
        return Fail(InvalidGeneration);
      }
      var matched := CheckManifest();
      if !matched {
        return Fail(ManifestInvariant);
      }
      matched := CheckBroker();
      if !matched {
        return Fail(BrokerInvariant);
      }
      if !EffectMatches(effect) {
        return Fail(EffectInvariant);
      }
      if sender.state == TaskDead && receiver.state == TaskDead
         && (manifest != EMPTY_MANIFEST || broker != DEAD_BROKER || effect != EMPTY_EFFECT)
      {
        return Fail(BrokerInvariant);
      }
      return Pass;
    }

    /** The runtime's own consistency check. */
    method Check() returns (sound: Outcome<RuntimeError>)
      requires Valid()
      ensures sound == Validate(Value())
    {
      hide ValidateQueue, ValidateSlot, ValidateCooperative, ValidateSupervised;
      sound := queue.Check();
      if sound.Fail? {
        return;
      }
      if sender.state == TaskState.Running && receiver.state == TaskState.Running {
        return Fail(MultipleRunningTasks);
      }
      var queued := queue.Contains(SENDER_TASK_ID);
      sound := sender.Check(SENDER_TASK_ID, queued, queue.Value());
      if sound.Fail? {
        return;
      }
      queued := queue.Contains(RECEIVER_TASK_ID);
      sound := receiver.Check(RECEIVER_TASK_ID, queued, queue.Value());
      if sound.Fail? {
        return;
      }
      if profile == Cooperative {
        sound := CheckCooperative();
      } else {
        sound := CheckSupervised();
      }
    }

    // Scheduling ---------------------------------------------------------------------------------------

    method DispatchNext() returns (next: Result<Option<u64>, RuntimeError>)
      requires Valid()
      modifies queue, queue.entries, sender`state, receiver`state
      ensures Valid()
      ensures match R.DispatchNext(old(Value()))
              case Ok((s, chosen)) => Value() == s && next == Ok(chosen)
              case Err(e) => next == Err(e)
    {
      hide Validate;
      if sender.state == TaskState.Running || receiver.state == TaskState.Running {
        return Err(WrongState);
      }
      var popped := queue.Pop();
      if popped.None? {
        return if sender.state == TaskDead && receiver.state == TaskDead then Ok(None) else Err(NoRunnableTask);
      }
      var task := popped.value;
      if !IsTask(task) {
        return Err(InvalidTask);
      }
      if Cell(task).state != Ready {
        return Err(InvalidQueueMember);
      }
      SetState(task, TaskState.Running);
      var valid := Check();
      match valid
      case Fail(e) => return Err(e);
      case Pass => return Ok(Some(task));
    }

    method SwitchAway() returns (reply: Trapped)
      requires Valid()
      modifies queue, queue.entries, sender`state, receiver`state
      ensures Valid() && Lands(R.SwitchAway(old(Value())), Value(), reply)
    {
      hide R.DispatchNext;
      var next := DispatchNext();
      match next
      case Err(e) => return Err(e);
      case Ok(None) => return Err(NoRunnableTask);
      case Ok(Some(task)) => return Ok(Switch(task));
    }

    /** Switches away and checks once more. */
    method SwitchChecked() returns (reply: Trapped)
      requires Valid()
      modifies queue, queue.entries, sender`state, receiver`state
      ensures Valid() && Lands(Rechecked(R.SwitchAway(old(Value()))), Value(), reply)
    {
      hide Validate, R.SwitchAway;
      reply := SwitchAway();
      if reply.Ok? {
        var valid := Check();
        match valid {
          case Fail(e) => return Err(e);
          case Pass =>
        }
      }
    }

    /** Writes the caller's result, checks, and resumes it. */
    method Finish(task: u64, status: TrapStatus, value: u64) returns (reply: Trapped)
      requires Valid() && IsTask(task)
      modifies sender`context, receiver`context
      ensures Valid() && Lands(R.Finish(old(Value()), task, status, value), Value(), reply)
    {
      hide Validate;
      SetResult(task, status, value);
      var valid := Check();
      match valid
      case Fail(e) => return Err(e);
      case Pass => return Ok(Resume(task));
    }

    method Refuse(task: u64, status: TrapStatus) returns (reply: Trapped)
      requires Valid() && IsTask(task)
      modifies sender`context, receiver`context
      ensures Valid() && Lands(R.Refuse(old(Value()), task, status), Value(), reply)
    {
      SetResult(task, status, 0);
      return Ok(Resume(task));
    }

    // Resolving handles --------------------------------------------------------------------------------

    method Resolve(task: u64, handle: u64, objectType: u64, right: u64, id: u64, generation: u64)
      returns (found: Outcome<TrapStatus>)
      requires Valid() && IsTask(task) && right > 0
      ensures found == ResolveObject(Value(), task, handle, objectType, right, id, generation)
    {
      hide ResolveTyped;
      var entry := Cell(task).capabilities.ResolveTyped(task, Cell(task).generation, handle, objectType, right);
      match entry
      case Err(status) => return Fail(status);
      case Ok(e) =>
        return if e.target.id != id || e.target.generation != generation || generation == 0 then Fail(InvalidHandle)
          else Pass;
    }

    method ResolveEnd(task: u64, handle: u64, right: u64) returns (found: Outcome<TrapStatus>)
      requires Valid() && IsTask(task) && right > 0
      ensures found == ResolveEndpoint(Value(), task, handle, right)
    {
      hide ResolveTyped;
      var entry := Cell(task).capabilities.ResolveTyped(task, Cell(task).generation, handle, OBJECT_ENDPOINT, right);
      match entry
      case Err(status) => return Fail(status);
      case Ok(e) =>
        return if e.target != ObjectReference(1, 1) || endpoint.objectGeneration != 1 then Fail(InvalidHandle)
          else Pass;
    }

    // Traps --------------------------------------------------------------------------------------------

    method Yield(task: u64, input: TaskContext) returns (reply: Trapped)
      requires Valid() && IsTask(task)
      modifies this, Parts()
      ensures Valid() && Lands(R.Yield(old(Value()), task, input), Value(), reply)
    {
      hide Validate, R.SwitchAway;
      if input.rdi != 0 || input.rsi != 0 || input.rdx != 0 {
        reply := Refuse(task, InvalidOperation);
        return;
      }
      SetResult(task, StatusOk, 0);
      SetState(task, Ready);
      var pushed := PushQueue(task);
      match pushed {
        case Fail(e) => return Err(e);
        case Pass => reply := SwitchAway();
      }
    }

    /** Ends the receiver's wait with a value and makes it ready. */
    method HandOver(value: u64) returns (handed: Outcome<RuntimeError>)
      requires Valid()
      modifies this, Parts()
      ensures Valid() && Steps(HandedOver(old(Value()), value), Value(), handed)
    {
      SetResult(RECEIVER_TASK_ID, StatusOk, value);
      SetState(RECEIVER_TASK_ID, Ready);
      handed := PushQueue(RECEIVER_TASK_ID);
    }

    method Send(task: u64, handle: u64, message: u64, reserved: u64) returns (reply: Trapped)
      requires Valid() && IsTask(task)
      modifies this, Parts()
      ensures Valid() && Lands(R.Send(old(Value()), task, handle, message, reserved), Value(), reply)
    {
      hide Validate, R.Finish, ResolveEndpoint, HandedOver, R.Send;
      SendsByStatus(Value(), task, handle, message, reserved);
      var resolved := ResolveEnd(task, handle, RIGHT_SEND);
      RefusalIsNotOk(Value(), task, handle, RIGHT_SEND);
      var status;
      if reserved != 0 {
        status := InvalidOperation;
      } else if resolved.Fail? {
        status := resolved.error;
      } else if endpoint.receiverGeneration == 0 {
        status := PeerExited;
      } else if endpoint.occupied {
        status := SlotFull;
      } else {
        endpoint := endpoint.(occupied := true, payload := message);
        if receiver.state == BlockedReceive {
          var value := endpoint.payload;
          endpoint := endpoint.(occupied := false, payload := 0);
          var handed := HandOver(value);
          match handed {
            case Fail(e) => return Err(e);
            case Pass =>
          }
        }
        status := StatusOk;
      }
      reply := Finish(task, status, 0);
    }

    method Receive(task: u64, handle: u64, reservedMessage: u64, reserved: u64) returns (reply: Trapped)
      requires Valid() && IsTask(task)
      modifies this, Parts()
      ensures Valid() && Lands(R.Receive(old(Value()), task, handle, reservedMessage, reserved), Value(), reply)
    {
      hide Validate, R.Finish, R.Refuse, R.SwitchAway, ResolveEndpoint;
      var check := ResolveEnd(task, handle, RIGHT_RECEIVE);
      if reservedMessage != 0 || reserved != 0 {
        reply := Refuse(task, InvalidOperation);
        return;
      }
      if check.Fail? {
        reply := Refuse(task, check.error);
        return;
      }
      if endpoint.occupied {
        var value := endpoint.payload;
        endpoint := endpoint.(occupied := false, payload := 0);
        reply := Finish(task, StatusOk, value);
        return;
      }
      if endpoint.senderGeneration == 0 {
        reply := Refuse(task, PeerExited);
        return;
      }
      SetState(task, BlockedReceive);
      reply := SwitchChecked();
    }

    method ExitTask(task: u64, input: TaskContext) returns (reply: Trapped)
      requires Valid() && IsTask(task)
      modifies sender`context, receiver`context, sender`state, receiver`state
      ensures Valid() && Lands(ExitTrap(old(Value()), task, input), Value(), reply)
    {
      hide Validate;
      if input.rdi != 0 || input.rsi != 0 || input.rdx != 0 {
        reply := Refuse(task, InvalidOperation);
        return;
      }
      SetState(task, Exited);
      var valid := Check();
      match valid
      case Fail(e) => return Err(e);
      case Pass => return Ok(Exit(task));
    }

    method DuplicateHandle(task: u64, source: u64, requested: u64, reserved: u64) returns (reply: Trapped)
      requires Valid() && IsTask(task)
      modifies this, Parts()
      ensures Valid() && Lands(DuplicateTrap(old(Value()), task, source, requested, reserved), Value(), reply)
    {
      hide Validate, R.Finish, Duplicate;
      if reserved != 0 {
        reply := Refuse(task, InvalidOperation);
        return;
      }
      var result := Cell(task).capabilities.Duplicate(task, Cell(task).generation, source, requested);
      match result {
        case Ok(raw) => reply := Finish(task, StatusOk, raw);
        case Err(status) => reply := Finish(task, status, 0);
      }
    }

    method CloseHandle(task: u64, handle: u64, reservedRights: u64, reserved: u64) returns (reply: Trapped)
      requires Valid() && IsTask(task)
      modifies this, Parts()
      ensures Valid() && Lands(CloseTrap(old(Value()), task, handle, reservedRights, reserved), Value(), reply)
    {
      hide Validate, R.Finish, Close;
      if reservedRights != 0 || reserved != 0 {
        reply := Refuse(task, InvalidOperation);
        return;
      }
      var result := Cell(task).capabilities.Close(task, Cell(task).generation, handle);
      match result {
        case Pass => reply := Finish(task, StatusOk, 0);
        case Fail(status) => reply := Finish(task, status, 0);
      }
    }

    method CheckStart(task: u64, handle: u64, manifestId: u64, reserved: u64) returns (check: Outcome<TrapStatus>)
      requires Valid() && IsTask(task)
      ensures check == StartStatus(Value(), task, handle, manifestId, reserved)
    {
      hide ResolveObject;
      if reserved != 0 {
        return Fail(InvalidOperation);
      }
      if profile != Supervised {
        return Fail(WrongObject);
      }
      check := Resolve(task, handle, OBJECT_TASK_CONTROL, RIGHT_START, 1, 1);
      if check.Fail? {
        return;
      }
      if manifestId != 1 {
        return Fail(InvalidManifest);
      }
      if receiver.state != Staged {
        return Fail(AlreadyLaunched);
      }
      var free := receiver.capabilities.FindFree();
      if receiver.generation != WORKLOAD_GENERATION || broker.objectGeneration != 1 || free >= SLOT_COUNT {
        return Fail(InvalidManifest);
      }
    }

    method StartWorkload(task: u64, handle: u64, manifestId: u64, reserved: u64) returns (reply: Trapped)
      requires Valid() && IsTask(task)
      modifies this, Parts()
      ensures Valid() && Lands(R.StartWorkload(old(Value()), task, handle, manifestId, reserved), Value(), reply)
    {
      hide Validate, R.Finish, StartStatus, InstallBuilding;
      var check := CheckStart(task, handle, manifestId, reserved);
      if check.Fail? {
        reply := Refuse(task, check.error);
        return;
      }
      var route := receiver.capabilities.InstallBuilding(OBJECT_APPROVAL_BROKER, ObjectReference(1, 1),
                                                         RIGHT_SUBMIT_APPROVAL);
      if route.None? {
        reply := Refuse(task, InvalidManifest);
        return;
      }
      InstallNeedsBuilding(old(receiver.capabilities.Value()), OBJECT_APPROVAL_BROKER, ObjectReference(1, 1),
                           RIGHT_SUBMIT_APPROVAL);
      var published := receiver.capabilities.Publish();
      manifest := PUBLISHED_MANIFEST;
      receiver.state := Ready;
      var pushed := PushQueue(RECEIVER_TASK_ID);
      match pushed {
        case Fail(e) => return Err(e);
        case Pass => reply := Finish(task, StatusOk, 0);
      }
    }

    method CheckSubmit(task: u64, handle: u64, kind: u64) returns (check: Outcome<TrapStatus>)
      requires Valid() && IsTask(task)
      ensures check == SubmitStatus(Value(), task, handle, kind)
    {
      hide ResolveObject;
      if profile != Supervised {
        return Fail(WrongObject);
      }
      check := Resolve(task, handle, OBJECT_APPROVAL_BROKER, RIGHT_SUBMIT_APPROVAL, 1, broker.objectGeneration);
      if check.Fail? {
        return;
      }
      if broker.state == BrokerBuilding || broker.state == BrokerClosing || broker.state == BrokerDead
         || broker.sequenceExhausted || broker.decisionEpoch == U64_MAX
      {
        return Fail(BrokerUnavailable);
      }
      if broker.state == BrokerPending || broker.state == BrokerApproved {
        return Fail(BrokerFull);
      }
      if kind != 1 || task != RECEIVER_TASK_ID || manifest != PUBLISHED_MANIFEST {
        return Fail(InvalidRequest);
      }
    }

    method SubmitApproval(task: u64, handle: u64, kind: u64, argument: u64) returns (reply: Trapped)
      requires Valid() && IsTask(task)
      modifies this, Parts()
      ensures Valid() && Lands(R.SubmitApproval(old(Value()), task, handle, kind, argument), Value(), reply)
    {
      hide Validate, R.Finish, R.SwitchAway, ResolveObject, SubmittedBroker;
      var check := CheckSubmit(task, handle, kind);
      if check.Fail? {
        reply := Finish(task, check.error, 0);
        return;
      }
      Accept(kind, argument);
      SetState(task, BlockedApproval);
      reply := SwitchChecked();
    }

    /** Takes the request under the next sequence number. */
    method Accept(kind: u64, argument: u64)
      requires Valid() && broker.decisionEpoch < U64_MAX
      modifies this`broker
      ensures Value() == old(Value()).(broker := SubmittedBroker(old(broker), kind, argument))
    {
      var sequence := broker.nextSequence;
      var epoch := broker.decisionEpoch + 1;
      broker := broker.(requestKind := kind);
      broker := broker.(request := CommitRequest(sequence, argument));
      broker := broker.(requestPresent := true);
      broker := broker.(state := BrokerPending);
      broker := broker.(decisionEpoch := epoch);
      if sequence == U64_MAX {
        broker := broker.(sequenceExhausted := true);
      } else {
        broker := broker.(nextSequence := sequence + 1);
      }
    }

    method CheckInspect(task: u64, handle: u64, kind: u64, argument: u64) returns (check: Outcome<TrapStatus>)
      requires Valid() && IsTask(task)
      ensures check == InspectStatus(Value(), task, handle, kind, argument)
    {
      hide ResolveObject;
      if kind != 0 || argument != 0 {
        return Fail(InvalidOperation);
      }
      if profile != Supervised {
        return Fail(WrongObject);
      }
      check := Resolve(task, handle, OBJECT_APPROVAL_BROKER, RIGHT_DECIDE_APPROVAL, 1, broker.objectGeneration);
      if check.Fail? || (broker.state == BrokerPending && broker.requestPresent) {
        return;
      }
      var gone := broker.state == BrokerClosing || broker.state == BrokerDead;
      return Fail(if gone then BrokerUnavailable else InvalidRequest);
    }

    method InspectApproval(task: u64, handle: u64, kind: u64, argument: u64) returns (reply: Trapped)
      requires Valid() && IsTask(task)
      modifies sender`context, receiver`context
      ensures Valid() && Lands(R.InspectApproval(old(Value()), task, handle, kind, argument), Value(), reply)
    {
      hide Validate, R.Finish, InspectStatus;
      var check := CheckInspect(task, handle, kind, argument);
      if check.Fail? {
        reply := Finish(task, check.error, 0);
        return;
      }
      SetContext(task, Cell(task).context.(rax := StatusOk.Code(), rdi := broker.request.sequence,
                                           rsi := broker.requestKind, rdx := broker.request.argument));
      var valid := Check();
      match valid
      case Fail(e) => return Err(e);
      case Pass => return Ok(Resume(task));
    }

    method WakeWorkload(status: TrapStatus, value: u64) returns (woken: Outcome<RuntimeError>)
      requires Valid()
      modifies Parts()
      ensures Valid() && Steps(R.WakeWorkload(old(Value()), status, value), Value(), woken)
    {
      if receiver.state != BlockedApproval {
        return Fail(BrokerInvariant);
      }
      SetResult(RECEIVER_TASK_ID, status, value);
      SetState(RECEIVER_TASK_ID, Ready);
      woken := PushQueue(RECEIVER_TASK_ID);
    }

    method FailBrokerEpochExhaustion() returns (failed: Outcome<RuntimeError>)
      requires Valid()
      modifies this, Parts()
      ensures Valid() && Steps(R.FailBrokerEpochExhaustion(old(Value())), Value(), failed)
    {
      hide R.WakeWorkload;
      if receiver.state == BlockedApproval {
        failed := WakeWorkload(BrokerUnavailable, 0);
        if failed.Fail? {
          return;
        }
      }
      broker := broker.ClearRequest();
      broker := broker.(state := BrokerClosing);
      return Pass;
    }

    method CheckDecision(task: u64, handle: u64, sequence: u64, decision: u64) returns (check: Outcome<TrapStatus>)
      requires Valid() && IsTask(task)
      ensures check == DecideStatus(Value(), task, handle, sequence, decision)
    {
      hide ResolveObject;
      if profile != Supervised {
        return Fail(WrongObject);
      }
      check := Resolve(task, handle, OBJECT_APPROVAL_BROKER, RIGHT_DECIDE_APPROVAL, 1, broker.objectGeneration);
      if check.Fail? {
        return;
      }
      if broker.state == BrokerClosing || broker.state == BrokerDead {
        return Fail(BrokerUnavailable);
      }
      if !broker.requestPresent || broker.request.sequence != sequence {
        return Fail(ApprovalMismatch);
      }
      if decision > DECISION_EXPIRE || (decision != DECISION_EXPIRE && broker.state != BrokerPending)
         || (decision == DECISION_EXPIRE && broker.state != BrokerPending && broker.state != BrokerApproved)
      {
        return Fail(InvalidRequest);
      }
    }

    method DecideApproval(task: u64, handle: u64, sequence: u64, decision: u64) returns (reply: Trapped)
      requires Valid() && IsTask(task)
      modifies this, Parts()
      ensures Valid() && Lands(R.DecideApproval(old(Value()), task, handle, sequence, decision), Value(), reply)
    {
      hide Validate, R.Finish, R.WakeWorkload, R.FailBrokerEpochExhaustion, DecideStatus;
      var check := CheckDecision(task, handle, sequence, decision);
      if check.Fail? {
        reply := Finish(task, check.error, 0);
        return;
      }
      if broker.decisionEpoch == U64_MAX || (decision == DECISION_APPROVE && broker.decisionEpoch + 1 == U64_MAX) {
        var failed := FailBrokerEpochExhaustion();
        match failed {
          case Fail(e) => return Err(e);
          case Pass => reply := Finish(task, BrokerUnavailable, 0);
        }
        return;
      }
      if decision == DECISION_APPROVE {
        Approve();
        reply := Finish(task, StatusOk, 0);
        return;
      }
      var ended := EndRequest(if decision == DECISION_DENY then ApprovalDenied else ApprovalExpired, 0);
      match ended {
        case Fail(e) => return Err(e);
        case Pass => reply := Finish(task, StatusOk, 0);
      }
    }

    /** Settles the request and wakes its workload with the outcome. */
    method EndRequest(status: TrapStatus, value: u64) returns (ended: Outcome<RuntimeError>)
      requires Valid() && broker.decisionEpoch < U64_MAX
      modifies this, Parts()
      ensures Valid() && Steps(R.WakeWorkload(Settled(old(Value())), status, value), Value(), ended)
    {
      hide R.WakeWorkload;
      Settle();
      ended := WakeWorkload(status, value);
    }

    method Approve()
      requires Valid() && broker.decisionEpoch + 1 < U64_MAX
      modifies this`broker
      ensures var epoch := old(broker.decisionEpoch) + 1;
              Value() == old(Value()).(broker := old(broker).(state := BrokerApproved, decisionEpoch := epoch,
                                                              approvalEpoch := epoch, expiryEpoch := epoch + 1))
    {
      var epoch := broker.decisionEpoch + 1;
      broker := broker.(decisionEpoch := epoch);
      broker := broker.(state := BrokerApproved);
      broker := broker.(approvalEpoch := epoch);
      broker := broker.(expiryEpoch := epoch + 1);
    }

    method AdvanceEpoch()
      requires Valid() && broker.decisionEpoch < U64_MAX
      modifies this`broker
      ensures Value() == old(Value()).(broker := old(broker).(decisionEpoch := old(broker.decisionEpoch) + 1))
    {
      broker := broker.(decisionEpoch := broker.decisionEpoch + 1);
    }

    method Settle()
      requires Valid() && broker.decisionEpoch < U64_MAX
      modifies this`broker
      ensures Value() == Settled(old(Value()))
    {
      broker := broker.(decisionEpoch := broker.decisionEpoch + 1);
      broker := broker.ClearRequest();
      broker := broker.(state := BrokerEmpty);
    }

    /** Ends the request of a refused effect and wakes its workload with the refusal. */
    method EndRefused(task: u64) returns (ended: Outcome<RuntimeError>)
      requires Valid() && IsTask(task) && broker.decisionEpoch < U64_MAX
      modifies this, Parts()
      ensures Valid()
      ensures match R.WakeWorkload(Settled(old(Value())), EffectUnavailable, 0)
              case Err(e) => ended == Fail(e)
              case Ok(woken) => ended == Pass && Value() == R.SetResult(woken, task, EffectUnavailable, 0)
    {
      hide R.WakeWorkload;
      ended := EndRequest(EffectUnavailable, 0);
      if ended.Pass? {
        SetResult(task, EffectUnavailable, 0);
      }
    }

    method CheckCommit(task: u64, handle: u64, sequence: u64, argument: u64) returns (check: Outcome<TrapStatus>)
      requires Valid() && IsTask(task)
      ensures check == CommitStatus(Value(), task, handle, sequence, argument)
    {
      hide ResolveObject;
      if profile != Supervised {
        return Fail(WrongObject);
      }
      check := Resolve(task, handle, OBJECT_TEST_EFFECT, RIGHT_COMMIT_EFFECT, 1, effect.objectGeneration);
      if check.Fail? {
        return;
      }
      if broker.state != BrokerApproved || !broker.requestPresent
         || broker.request != CommitRequest(sequence, argument)
      {
        return Fail(ApprovalMismatch);
      }
      if effect.occupied {
        return Fail(EffectUnavailable);
      }
      if broker.decisionEpoch >= broker.expiryEpoch {
        return Fail(ApprovalExpired);
      }
    }

    method CommitEffect(task: u64, handle: u64, sequence: u64, argument: u64) returns (reply: Trapped)
      requires Valid() && IsTask(task)
      modifies this, Parts()
      ensures Valid() && Lands(R.CommitEffect(old(Value()), task, handle, sequence, argument), Value(), reply)
    {
      hide Validate, R.Finish, R.Refuse, R.WakeWorkload, ResolveObject;
      var check := CheckCommit(task, handle, sequence, argument);
      if check.Fail? {
        reply := Finish(task, check.error, 0);
        return;
      }
      var epoch := broker.decisionEpoch + 1;
      if epoch != broker.expiryEpoch {
        reply := Refuse(task, ApprovalExpired);
        return;
      }
      effect := effect.(occupied := true);
      effect := effect.(value := argument);
      var ended := EndRequest(StatusOk, argument);
      match ended {
        case Fail(e) => return Err(e);
        case Pass => reply := Finish(task, StatusOk, 0);
      }
    }

    method HandleTrapInner(task: u64) returns (reply: Trapped)
      requires Valid()
      modifies this, Parts()
      ensures Valid() && Lands(R.HandleTrap(old(Value()), task), Value(), reply)
    {
      hide Validate, R.Finish, R.Yield, R.Send, R.Receive, ExitTrap, DuplicateTrap, CloseTrap, R.StartWorkload,
        R.SubmitApproval, R.InspectApproval, R.DecideApproval, R.CommitEffect;
      var running := Running();
      match running {
        case Err(e) => return Err(e);
        case Ok(current) =>
          if current != task {
            return Err(WrongState);
          }
      }
      var i := Cell(task).context;
      var operation := ParseOperation(i.rax);
      match operation {
        case None => reply := Refuse(task, InvalidOperation);
        case Some(OpYield) => reply := Yield(task, i);
        case Some(OpSend) => reply := Send(task, i.rdi, i.rsi, i.rdx);
        case Some(OpReceive) => reply := Receive(task, i.rdi, i.rsi, i.rdx);
        case Some(OpExit) => reply := ExitTask(task, i);
        case Some(OpDuplicate) => reply := DuplicateHandle(task, i.rdi, i.rsi, i.rdx);
        case Some(OpClose) => reply := CloseHandle(task, i.rdi, i.rsi, i.rdx);
        case Some(OpStartWorkload) => reply := StartWorkload(task, i.rdi, i.rsi, i.rdx);
        case Some(OpSubmitApproval) => reply := SubmitApproval(task, i.rdi, i.rsi, i.rdx);
        case Some(OpInspectApproval) => reply := InspectApproval(task, i.rdi, i.rsi, i.rdx);
        case Some(OpDecideApproval) => reply := DecideApproval(task, i.rdi, i.rsi, i.rdx);
        case Some(OpCommitEffect) => reply := CommitEffect(task, i.rdi, i.rsi, i.rdx);
        case Some(_) => reply := Finish(task, InvalidOperation, 0);
      }
    }

    /** One trap: the function's transition, or its error with the object as it was. */
    method HandleTrap(task: u64) returns (reply: Trapped)
      requires Valid()
      modifies this, Parts()
      ensures Valid() && Lands(R.HandleTrap(old(Value()), task), Value(), reply)
      ensures reply.Err? ==> Value() == old(Value())
    {
      hide R.HandleTrap;
      var before := Value();
      reply := HandleTrapInner(task);
      if reply.Err? {
        Restore(before);
      }
    }

    method CaptureTrap(task: u64, frame: TrapFrame, root: u64, generation: u64)
        returns (captured: Outcome<RuntimeError>)
      requires Valid()
      modifies sender`context, receiver`context
      ensures Valid() && Steps(R.CaptureTrap(old(Value()), task, frame, root, generation), Value(), captured)
      ensures captured.Fail? ==> Value() == old(Value())
    {
      if !IsTask(task) {
        return Fail(InvalidTask);
      }
      if Cell(task).state != TaskState.Running || Cell(task).generation != generation {
        return Fail(WrongState);
      }
      SetContext(task, FromTrap(frame, task, generation, root));
      return Pass;
    }

    // Teardown ---------------------------------------------------------------------------------------

    /** The supervisor's broker and effect, or the workload's manifest and half of the broker, let go. */
    method DetachSupervised(task: u64) returns (detached: Outcome<RuntimeError>)
      requires Valid() && IsTask(task)
      modifies this, Parts()
      ensures Valid() && Steps(R.DetachSupervised(old(Value()), task), Value(), detached)
    {
      hide R.WakeWorkload;
      if task == SENDER_TASK_ID {
        if receiver.state == BlockedApproval {
          var terminal := match broker.state
            case BrokerPending => ApprovalDenied
            case BrokerApproved => ApprovalExpired
            case _ => BrokerUnavailable;
          detached := WakeWorkload(terminal, 0);
          if detached.Fail? {
            return;
          }
        }
        broker := broker.ClearRequest();
        broker := broker.(state := BrokerClosing);
        broker := broker.(supervisorTaskId := 0);
        broker := broker.(supervisorGeneration := 0);
        effect := EMPTY_EFFECT;
      } else {
        manifest := EMPTY_MANIFEST;
        broker := broker.ClearRequest();
        if broker.state != BrokerClosing && broker.state != BrokerDead {
          broker := broker.(state := if sender.state == TaskDead then BrokerClosing else BrokerEmpty);
        }
        broker := broker.(workloadTaskId := 0);
        broker := broker.(workloadGeneration := 0);
      }
      return Pass;
    }

    method DetachCooperative(task: u64) returns (detached: Outcome<RuntimeError>)
      requires Valid() && IsTask(task)
      modifies this, Parts()
      ensures Valid() && Steps(R.DetachCooperative(old(Value()), task), Value(), detached)
    {
      if task == SENDER_TASK_ID {
        endpoint := endpoint.(senderTask := 0);
        endpoint := endpoint.(senderGeneration := 0);
        if !endpoint.occupied && receiver.state == BlockedReceive {
          SetResult(RECEIVER_TASK_ID, PeerExited, 0);
          SetState(RECEIVER_TASK_ID, Ready);
          detached := PushQueue(RECEIVER_TASK_ID);
          return;
        }
      } else {
        endpoint := endpoint.(receiverTask := 0, receiverGeneration := 0);
        endpoint := endpoint.(occupied := false, payload := 0);
      }
      return Pass;
    }

    /** The supervised order: mark the table closing, let the shared objects go, then empty the table. */
    method LeaveSupervised(task: u64) returns (left: Outcome<RuntimeError>)
      requires Valid() && IsTask(task)
      modifies this, Parts()
      ensures Valid()
      ensures if old(Slot(Value(), task).capabilities.state) != TableLive then left == Fail(WrongState)
              else Steps(R.DetachSupervised(TableClosed(old(Value()), task), task), Value(), left)
    {
      hide R.DetachSupervised, CloseAllSlots;
      ghost var before := Value();
      left := Cell(task).capabilities.MarkClosing();
      if left.Fail? {
        return;
      }
      ghost var marked := Value();
      left := DetachSupervised(task);
      DetachCommutes(before, marked, task);
      if left.Fail? {
        return;
      }
      left := Cell(task).capabilities.CloseAll();
    }

    method LeaveCooperative(task: u64) returns (left: Outcome<RuntimeError>)
      requires Valid() && IsTask(task)
      modifies this, Parts()
      ensures Valid()
      ensures if old(Slot(Value(), task).capabilities.state) != TableLive then left == Fail(WrongState)
              else Steps(R.DetachCooperative(TableClosed(old(Value()), task), task), Value(), left)
    {
      hide R.DetachCooperative, CloseAllSlots, NoEntries;
      left := Cell(task).capabilities.BeginClosing();
      if left.Fail? {
        return;
      }
      left := DetachCooperative(task);
    }

    method BeginTeardownInner(task: u64) returns (begun: Outcome<RuntimeError>)
      requires Valid()
      modifies this, Parts()
      ensures Valid() && Steps(R.BeginTeardown(old(Value()), task), Value(), begun)
    {
      hide Validate, CloseTable, R.DetachSupervised, R.DetachCooperative;
      if !IsTask(task) {
        return Fail(InvalidTask);
      }
      if Cell(task).state != Exited {
        return Fail(WrongState);
      }
      if profile == Supervised {
        begun := LeaveSupervised(task);
      } else {
        begun := LeaveCooperative(task);
      }
      if begun.Pass? {
        begun := Check();
      }
    }

    method BeginTeardown(task: u64) returns (begun: Outcome<RuntimeError>)
      requires Valid()
      modifies this, Parts()
      ensures Valid() && Steps(R.BeginTeardown(old(Value()), task), Value(), begun)
      ensures begun.Fail? ==> Value() == old(Value())
    {
      hide R.BeginTeardown;
      var before := Value();
      begun := BeginTeardownInner(task);
      if begun.Fail? {
        Restore(before);
      }
    }

    /** Blanks what the buried task leaves behind, and everything once both are gone. */
    method Sweep(task: u64)
      requires Valid() && IsTask(task) && Cell(task).Value() == DeadSlot()
      modifies this
      ensures Valid() && Value() == R.Bury(old(Value()), task)
    {
      if profile == Supervised && task == SENDER_TASK_ID {
        broker := DEAD_BROKER;
        effect := EMPTY_EFFECT;
      }
      if sender.state == TaskDead && receiver.state == TaskDead {
        endpoint := EMPTY_ENDPOINT;
        manifest := EMPTY_MANIFEST;
        broker := DEAD_BROKER;
        effect := EMPTY_EFFECT;
      }
    }

    method CompleteTeardownInner(task: u64) returns (next: Result<Option<u64>, RuntimeError>)
      requires Valid()
      modifies this, Parts()
      ensures Valid()
      ensures match R.CompleteTeardown(old(Value()), task)
              case Ok((s, chosen)) => Value() == s && next == Ok(chosen)
              case Err(e) => next == Err(e)
    {
      hide Validate, R.DispatchNext, NoEntries, DeadSlot;
      if !IsTask(task) {
        return Err(InvalidTask);
      }
      var buried := Cell(task).Bury();
      if buried.Fail? {
        return Err(buried.error);
      }
      Sweep(task);
      var valid := Check();
      match valid {
        case Fail(e) => return Err(e);
        case Pass => next := DispatchNext();
      }
    }

    method CompleteTeardown(task: u64) returns (next: Result<Option<u64>, RuntimeError>)
      requires Valid()
      modifies this, Parts()
      ensures Valid()
      ensures match R.CompleteTeardown(old(Value()), task)
              case Ok((s, chosen)) => Value() == s && next == Ok(chosen)
              case Err(e) => next == Err(e) && Value() == old(Value())
    {
      hide R.CompleteTeardown;
      var before := Value();
      next := CompleteTeardownInner(task);
      if next.Err? {
        Restore(before);
      }
    }
  }

  /** The request over: one epoch on, nothing pending. */
  function Settled(s: RuntimeState): RuntimeState
    requires s.broker.decisionEpoch < U64_MAX
  {
    s.(broker := s.broker.ClearRequest().(state := BrokerEmpty, decisionEpoch := s.broker.decisionEpoch + 1))
  }

  predicate EndpointAttached(s: RuntimeState) {
    var e := s.endpoint;
    && (s.sender.capabilities.state == TableLive ==>
          e.senderTask == SENDER_TASK_ID && e.senderGeneration == s.sender.generation)
    && (Detached(s.sender.capabilities) ==> e.senderTask == 0 && e.senderGeneration == 0)
    && (s.receiver.capabilities.state == TableLive ==>
          e.receiverTask == RECEIVER_TASK_ID && e.receiverGeneration == s.receiver.generation)
    && (Detached(s.receiver.capabilities) ==> e.receiverTask == 0 && e.receiverGeneration == 0)
    && (s.receiver.state == BlockedReceive ==> !e.occupied && e.senderGeneration != 0)
    && (e.receiverGeneration == 0 ==> !e.occupied)
  }

  /** The receiver's wait ended with a value. */
  function HandedOver(s: RuntimeState, value: u64): Result<RuntimeState, RuntimeError> {
    var ready := R.SetState(R.SetResult(s, RECEIVER_TASK_ID, StatusOk, value), RECEIVER_TASK_ID, Ready);
    var queue :- R.Push(ready.queue, RECEIVER_TASK_ID);
    Ok(ready.(queue := queue))
  }

  lemma SendsByStatus(s: RuntimeState, task: u64, handle: u64, message: u64, reserved: u64)
    requires IsTask(task)
    ensures var status := SendStatus(s, task, handle, reserved);
            var emptied := s.(endpoint := s.endpoint.(occupied := false, payload := 0));
            var filled := s.(endpoint := s.endpoint.(occupied := true, payload := message));
            R.Send(s, task, handle, message, reserved)
            == if status != StatusOk then R.Finish(s, task, status, 0)
               else if s.receiver.state != BlockedReceive then R.Finish(filled, task, StatusOk, 0)
               else
                 match HandedOver(emptied, message)
                 case Ok(handed) => R.Finish(handed, task, StatusOk, 0)
                 case Err(e) => Err(e)
  {
    hide R.Finish, SendStatus;
  }

  lemma InstallNeedsBuilding(t: Table, objectType: u64, target: ObjectReference, rights: u64)
    ensures InstallBuilding(t, objectType, target, rights).Some? ==>
              InstallBuilding(t, objectType, target, rights).value.0.state == TableBuilding
  {
  }

  /** The task's table closed and emptied, with nothing else changed. */
  function TableClosed(s: RuntimeState, task: u64): RuntimeState
    requires IsTask(task)
  {
    TableSet(s, task, CloseTable(Slot(s, task).capabilities))
  }

  function TableSet(s: RuntimeState, task: u64, table: Table): RuntimeState
    requires IsTask(task)
  {
    WithSlot(s, task, Slot(s, task).(capabilities := table))
  }

  /** Letting go of the shared objects neither reads nor changes what the closing table holds. */
  lemma DetachCommutes(s: RuntimeState, marked: RuntimeState, task: u64)
    requires IsTask(task)
    requires marked == TableSet(s, task, Slot(s, task).capabilities.(state := TableClosing))
    ensures var a, b := R.DetachSupervised(TableClosed(s, task), task), R.DetachSupervised(marked, task);
            && (a.Err? <==> b.Err?) && (a.Err? ==> a.error == b.error)
            && (b.Ok? ==> Slot(b.value, task).capabilities == Slot(marked, task).capabilities)
            && (b.Ok? ==> a.value == TableSet(b.value, task, CloseTable(Slot(s, task).capabilities)))
  {
    hide CloseTable;
  }

  /** A transition whose end state is validated a second time. */
  function Rechecked(t: Transition): Transition {
    match t
    case Err(e) => Err(e)
    case Ok((next, outcome)) =>
      match Validate(next)
      case Fail(e) => Err(e)
      case Pass => Ok((next, outcome))
  }
}
