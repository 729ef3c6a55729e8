/**
 One trap of the runtime, seen by the programs, is one act of the reference machine.
 */
module TrapRefinement {
  import opened Words
  import opened TrapAbi
  import opened Capability
  import opened Runtime
  import opened RuntimeInvariant
  import opened RuntimeProgress
  import opened KernelDrive
  import opened ReferenceView
  import Ref = Reference

  /** What the programs see while `task` has the processor. */
  ghost function Seen(s: RuntimeState, task: u64, log: Option<Ref.Log>): Ref.World {
    View(s, Ref.Of(task), log)
  }

  predicate Here(slot: TaskSlot) {
    slot.state != Exited && slot.state != TaskDead
  }

  // Small moves ------------------------------------------------------------------------------------

  lemma TellIs(s: RuntimeState, who: u64, status: TrapStatus, value: u64, turn: Ref.Turn, log: Option<Ref.Log>)
    requires IsTask(who) && Here(Slot(s, who))
    ensures View(SetResult(s, who, status, value), turn, log) == Ref.Tell(View(s, turn, log), who, status.Code(), value)
  {
  }

  lemma FeelIs(s: RuntimeState, who: u64, state: TaskState, turn: Ref.Turn, log: Option<Ref.Log>)
    requires IsTask(who) && Here(Slot(s, who)) && state != Exited && state != TaskDead
    ensures View(SetState(s, who, state), turn, log) == Ref.Feel(View(s, turn, log), who, MoodOf(state))
  {
  }

  lemma WakeIs(s: RuntimeState, status: TrapStatus, value: u64, turn: Ref.Turn, log: Option<Ref.Log>)
    requires Here(s.receiver)
    ensures View(SetState(SetResult(s, RECEIVER_TASK_ID, status, value), RECEIVER_TASK_ID, Ready)
                 .(queue := s.queue + [RECEIVER_TASK_ID]), turn, log)
         == Ref.Wake(View(s, turn, log), status.Code(), value)
  {
    TellIs(s, RECEIVER_TASK_ID, status, value, turn, log);
  }

  /** The head of the queue is the head of the line. */
  lemma NextIs(s: RuntimeState, turn: Ref.Turn, log: Option<Ref.Log>)
    requires Inv(s) && s.queue != [] && !Active(s.sender) && !Active(s.receiver)
    ensures var r := SwitchAway(s);
            r.Ok? && r.value.1.Switch? && IsTask(r.value.1.task)
            && Seen(r.value.0, r.value.1.task, log) == Ref.Next(View(s, turn, log))
  {
    DispatchLands(s);
    HeadRuns(s);
    hide Inv, Validate, Active, Runs;
  }

  lemma CaptureIs(s: RuntimeState, task: u64, frame: TrapFrame, log: Option<Ref.Log>)
    requires Runs(s, task)
    ensures var r := Captured(s, task, frame);
            r.Ok? && Runs(r.value, task) && Seen(r.value, task, log) == Ref.Show(Seen(s, task, log), task, frame)
  {
    CaptureKeeps(s, task, frame);
    hide Inv;
  }

  // Handles ----------------------------------------------------------------------------------------

  lemma Serving(s: RuntimeState, task: u64)
    requires Runs(s, task)
    ensures var slot := Slot(s, task);
            && ServesTable(slot.capabilities, task, slot.generation)
            && forall i :: 0 <= i < SLOT_COUNT && slot.capabilities.slots[i].entry.Some? ==>
                 EntryAllowed(s.profile, task, slot.generation, i, slot.capabilities.slots[i].entry.value)
  {
    hide QueueInv, CooperativeInv, SupervisedInv;
  }

  function AnswerOf(check: Outcome<TrapStatus>): u64 {
    match check
    case Pass => 0
    case Fail(status) => status.Code()
  }

  lemma NotOk()
    ensures InvalidHandle.Code() == 6 && forall status: TrapStatus :: status.Code() == 0 <==> status == StatusOk
  {
  }

  /** Every entry a running task resolves is one publication or the manifest put there. */
  lemma TypedAnswers(s: RuntimeState, task: u64, handle: u64, objectType: u64, right: Ref.Right)
    requires Runs(s, task) && 1 <= objectType <= 5
    ensures var slot := Slot(s, task);
            var lacking := Ref.Lacking(HeldIn(slot.capabilities), handle, ThingOf(objectType), right);
            match ResolveTyped(slot.capabilities, task, slot.generation, handle, objectType, right.Weight())
            case Err(status) => status.Code() == lacking && status != StatusOk
            case Ok(entry) =>
              && lacking == 0 && entry.target == ObjectReference(1, 1)
              && (objectType == OBJECT_TEST_EFFECT ==> task == SENDER_TASK_ID)
              && (objectType == OBJECT_ENDPOINT ==> s.profile == Cooperative)
  {
    Serving(s, task);
    var slot := Slot(s, task);
    ResolveAnswers(slot.capabilities, task, slot.generation, handle, objectType, right);
    hide Inv, ResolveTyped, ServesTable, HeldIn, Ref.Lacking;
  }

  lemma RefusalIs(s: RuntimeState, task: u64, handle: u64, thing: Ref.Thing, right: Ref.Right, log: Option<Ref.Log>)
    requires IsTask(task) && Here(Slot(s, task))
    ensures var lacking := Ref.Lacking(HeldIn(Slot(s, task).capabilities), handle, thing, right);
            Ref.Refusal(Seen(s, task, log), task, handle, thing, right)
            == if lacking == 0 && thing == Ref.Desk && !Here(s.sender) then 6 else lacking
  {
    hide HeldIn, NamesIn, Ref.Lacking, DeskOf;
  }

  /** Why a handle is no good for an object, in the reference machine's numbers. */
  lemma ObjectAnswers(s: RuntimeState, task: u64, handle: u64, objectType: u64, right: Ref.Right, generation: u64,
                      log: Option<Ref.Log>)
    requires Runs(s, task) && 2 <= objectType <= 5 && s.profile == Supervised
    requires generation == (if objectType == OBJECT_APPROVAL_BROKER then s.broker.objectGeneration
                            else if objectType == OBJECT_TEST_EFFECT then s.effect.objectGeneration else 1)
    ensures var check := ResolveObject(s, task, handle, objectType, right.Weight(), 1, generation);
            && AnswerOf(check) == Ref.Refusal(Seen(s, task, log), task, handle, ThingOf(objectType), right)
            && (check.Pass? <==> AnswerOf(check) == 0)
  {
    TypedAnswers(s, task, handle, objectType, right);
    RefusalIs(s, task, handle, ThingOf(objectType), right, log);
    Offices(s, task);
    NotOk();
    hide Runs, ResolveTyped, HeldIn, Ref.Lacking, Ref.Refusal, Seen, TrapStatus.Code, Ref.Right.Weight;
  }

  /** The broker object exists while the supervisor does, the effect for as long as its holder runs. */
  lemma Offices(s: RuntimeState, task: u64)
    requires Runs(s, task) && s.profile == Supervised
    ensures s.broker.objectGeneration == (if s.sender.state == TaskDead then 0 else 1)
    ensures task == SENDER_TASK_ID ==> s.effect.objectGeneration == 1
    ensures s.sender.state != Exited && s.receiver.state != Exited
  {
    hide TableInv, QueueInv;
  }

  lemma EndpointAnswers(s: RuntimeState, task: u64, handle: u64, right: Ref.Right, log: Option<Ref.Log>)
    requires Runs(s, task)
    ensures var check := ResolveEndpoint(s, task, handle, right.Weight());
            && AnswerOf(check) == Ref.Refusal(Seen(s, task, log), task, handle, Ref.Mail, right)
            && (check.Pass? <==> AnswerOf(check) == 0)
  {
    TypedAnswers(s, task, handle, OBJECT_ENDPOINT, right);
    RefusalIs(s, task, handle, Ref.Mail, right, log);
    MailStands(s, task);
    NotOk();
    hide Runs, ResolveTyped, HeldIn, Ref.Lacking, Ref.Refusal, Seen, TrapStatus.Code, Ref.Right.Weight;
  }

  lemma MailStands(s: RuntimeState, task: u64)
    requires Runs(s, task)
    ensures s.profile == Cooperative ==> s.endpoint.objectGeneration == 1
    ensures s.profile == Cooperative ==> (s.endpoint.senderGeneration == 0 <==> !Here(s.sender))
    ensures s.profile == Cooperative ==> (s.endpoint.receiverGeneration == 0 <==> !Here(s.receiver))
    ensures s.sender.state != Exited && s.receiver.state != Exited
  {
    hide TableInv, QueueInv, SupervisedInv;
  }

  // Operations -------------------------------------------------------------------------------------

  /** The transition succeeds, and the programs then see `expected`. */
  ghost predicate Acts(r: Transition, expected: Ref.World, log: Option<Ref.Log>) {
    r.Ok? && !r.value.1.Exit? && Seen(r.value.0, r.value.1.task, log) == expected
  }

  /** Answering the caller and resuming it. */
  lemma AnswerActs(s: RuntimeState, task: u64, status: TrapStatus, value: u64, log: Option<Ref.Log>)
    requires IsTask(task) && Here(Slot(s, task))
    ensures Finish(s, task, status, value).Ok? ==>
              Acts(Finish(s, task, status, value), Ref.Tell(Seen(s, task, log), task, status.Code(), value), log)
    ensures Acts(Refuse(s, task, status), Ref.Tell(Seen(s, task, log), task, status.Code(), 0), log)
  {
    TellIs(s, task, status, value, Ref.Of(task), log);
    TellIs(s, task, status, 0, Ref.Of(task), log);
    hide Validate, View, SetResult, Ref.Tell;
  }

  lemma YieldActs(s: RuntimeState, task: u64, log: Option<Ref.Log>)
    requires Runs(s, task)
    ensures var i := Slot(s, task).context;
            Acts(Yield(s, task, i), Ref.Yield(Seen(s, task, log), task, RegistersOf(i)), log)
  {
    hide Inv, Validate, View, SwitchAway, Ref.Next, Ref.Feel, Ref.Tell;
    var i := Slot(s, task).context;
    AnswerActs(s, task, InvalidOperation, 0, log);
    if i.rdi == 0 && i.rsi == 0 && i.rdx == 0 {
      ContextFacts(s, task);
      ContextKeeps(s, task, i.SetResult(StatusOk, 0));
      var told := SetResult(s, task, StatusOk, 0);
      RequeuedInv(told, task);
      TellIs(s, task, StatusOk, 0, Ref.Of(task), log);
      FeelIs(told, task, Ready, Ref.Of(task), log);
      var queued := SetState(told, task, Ready).(queue := s.queue + [task]);
      QueueIs(SetState(told, task, Ready), s.queue + [task], Ref.Of(task), log);
      QueueIs(s, s.queue, Ref.Of(task), log);
      NextIs(queued, Ref.Of(task), log);
    }
  }

  lemma QueueIs(s: RuntimeState, queue: seq<u64>, turn: Ref.Turn, log: Option<Ref.Log>)
    ensures View(s.(queue := queue), turn, log) == View(s, turn, log).(line := queue)
    ensures View(s, turn, log).line == s.queue
  {
  }

  lemma MailIs(s: RuntimeState, endpoint: Endpoint, turn: Ref.Turn, log: Option<Ref.Log>)
    ensures View(s.(endpoint := endpoint), turn, log)
         == View(s, turn, log).(mailbox := if endpoint.occupied then Some(endpoint.payload) else None)
    ensures View(s, turn, log).mailbox == if s.endpoint.occupied then Some(s.endpoint.payload) else None
  {
  }

  /** Presence and mood of the second program, as the view shows them. */
  lemma SecondIs(s: RuntimeState, turn: Ref.Turn, log: Option<Ref.Log>)
    ensures View(s, turn, log).second.Gone? <==> !Here(s.receiver)
    ensures View(s, turn, log).first.Gone? <==> !Here(s.sender)
    ensures Here(s.receiver) ==> View(s, turn, log).second.mood == MoodOf(s.receiver.state)
    ensures View(s, turn, log).supervised <==> s.profile == Supervised
  {
  }

  lemma WakeActs(s: RuntimeState, task: u64, message: u64, log: Option<Ref.Log>)
    requires IsTask(task) && Here(Slot(s, task)) && s.receiver.state == BlockedReceive && task == SENDER_TASK_ID
    requires var s1 := s.(endpoint := s.endpoint.(occupied := false, payload := 0));
             var s2 := SetState(SetResult(s1, RECEIVER_TASK_ID, StatusOk, message), RECEIVER_TASK_ID, Ready);
             Finish(s2.(queue := s2.queue + [RECEIVER_TASK_ID]), task, StatusOk, 0).Ok?
    requires !s.endpoint.occupied
    ensures var s1 := s.(endpoint := s.endpoint.(occupied := false, payload := 0));
            var s2 := SetState(SetResult(s1, RECEIVER_TASK_ID, StatusOk, message), RECEIVER_TASK_ID, Ready);
            Acts(Finish(s2.(queue := s2.queue + [RECEIVER_TASK_ID]), task, StatusOk, 0),
                 Ref.Tell(Ref.Wake(Seen(s, task, log), 0, message), task, 0, 0), log)
  {
    var s1 := s.(endpoint := s.endpoint.(occupied := false, payload := 0));
    var s2 := SetState(SetResult(s1, RECEIVER_TASK_ID, StatusOk, message), RECEIVER_TASK_ID, Ready);
    MailIs(s, s1.endpoint, Ref.Of(task), log);
    WakeIs(s1, StatusOk, message, Ref.Of(task), log);
    AnswerActs(s2.(queue := s2.queue + [RECEIVER_TASK_ID]), task, StatusOk, 0, log);
    hide Validate, View, Ref.Wake, Ref.Tell, Acts, Finish;
  }

  lemma MailHolder(s: RuntimeState, task: u64, handle: u64, right: u64)
    requires Runs(s, task) && (right == RIGHT_SEND || right == RIGHT_RECEIVE)
    requires ResolveEndpoint(s, task, handle, right).Pass?
    ensures task == (if right == RIGHT_SEND then SENDER_TASK_ID else RECEIVER_TASK_ID) && s.profile == Cooperative
  {
    RightHolder(s, task, handle, OBJECT_ENDPOINT, right);
    hide Inv;
  }

  lemma Codes()
    ensures InvalidOperation.Code() == 1 && PeerExited.Code() == 5 && SlotFull.Code() == 4 && StatusOk.Code() == 0
  {
  }

  lemma SendActs(s: RuntimeState, task: u64, handle: u64, message: u64, reserved: u64, log: Option<Ref.Log>)
    requires Runs(s, task)
    ensures Acts(Send(s, task, handle, message, reserved),
                 Ref.Send(Seen(s, task, log), task, handle, message, reserved), log)
  {
    hide Inv, Finish, View, ResolveEndpoint, Ref.Tell, Ref.Wake, Ref.Refusal, Acts, TrapStatus.Code, SetResult;
    SendLands(s, task, handle, message, reserved);
    EndpointAnswers(s, task, handle, Ref.MaySend, log);
    MailStands(s, task);
    SecondIs(s, Ref.Of(task), log);
    var filled := s.(endpoint := s.endpoint.(occupied := true, payload := message));
    MailIs(s, filled.endpoint, Ref.Of(task), log);
    NotOk();
    Codes();
    var status := SendStatus(s, task, handle, reserved);
    if status != StatusOk {
      AnswerActs(s, task, status, 0, log);
      SendRefusals(s, task, handle, reserved, log);
    } else {
      MailHolder(s, task, handle, RIGHT_SEND);
      if s.receiver.state == BlockedReceive {
        WakeActs(s, task, message, log);
      } else {
        AnswerActs(filled, task, StatusOk, 0, log);
      }
    }
  }

  /** The first check a send fails, by number. */
  lemma SendRefusals(s: RuntimeState, task: u64, handle: u64, reserved: u64, log: Option<Ref.Log>)
    requires Runs(s, task)
    ensures var refusal := Ref.Refusal(Seen(s, task, log), task, handle, Ref.Mail, Ref.MaySend);
            SendStatus(s, task, handle, reserved).Code()
            == if reserved != 0 then 1 else if refusal != 0 then refusal
               else if !Here(s.receiver) then 5 else if s.endpoint.occupied then 4 else 0
  {
    hide Inv, ResolveEndpoint, Ref.Refusal, Seen, TrapStatus.Code;
    EndpointAnswers(s, task, handle, Ref.MaySend, log);
    MailStands(s, task);
    if ResolveEndpoint(s, task, handle, RIGHT_SEND).Pass? { MailHolder(s, task, handle, RIGHT_SEND); }
    Codes();
    NotOk();
  }

  lemma ReceiveActs(s: RuntimeState, task: u64, handle: u64, zero: u64, zero': u64, log: Option<Ref.Log>)
    requires Runs(s, task)
    ensures Acts(Receive(s, task, handle, zero, zero'),
                 Ref.Receive(Seen(s, task, log), task, handle, zero, zero'), log)
  {
    hide Inv, Finish, Refuse, View, ResolveEndpoint, Ref.Tell, Ref.Next, Ref.Feel, Ref.Refusal, TrapStatus.Code,
      SwitchAway;
    ReceiveLands(s, task, handle, zero, zero');
    EndpointAnswers(s, task, handle, Ref.MayReceive, log);
    MailStands(s, task);
    SecondIs(s, Ref.Of(task), log);
    var emptied := s.(endpoint := s.endpoint.(occupied := false, payload := 0));
    MailIs(s, emptied.endpoint, Ref.Of(task), log);
    Codes();
    NotOk();
    var check := if zero != 0 || zero' != 0 then Fail(InvalidOperation)
                 else ResolveEndpoint(s, task, handle, RIGHT_RECEIVE);
    if check.Fail? {
      AnswerActs(s, task, check.error, 0, log);
    } else {
      MailHolder(s, task, handle, RIGHT_RECEIVE);
      if s.endpoint.occupied {
        AnswerActs(emptied, task, StatusOk, s.endpoint.payload, log);
      } else if s.endpoint.senderGeneration == 0 {
        AnswerActs(s, task, PeerExited, 0, log);
      } else {
        BlockedInv(s);
        FeelIs(s, task, BlockedReceive, Ref.Of(task), log);
        NextIs(SetState(s, task, BlockedReceive), Ref.Of(task), log);
      }
    }
  }

  lemma BlockedInv(s: RuntimeState)
    requires Runs(s, RECEIVER_TASK_ID) && s.profile == Cooperative
    requires !s.endpoint.occupied && s.endpoint.senderGeneration != 0
    ensures var blocked := SetState(s, RECEIVER_TASK_ID, BlockedReceive);
            Inv(blocked) && blocked.queue != [] && !Active(blocked.sender) && !Active(blocked.receiver)
  {
    hide TableInv, NoEntries;
  }

  lemma TableIs(s: RuntimeState, task: u64, t: Table, turn: Ref.Turn, log: Option<Ref.Log>)
    requires IsTask(task) && Here(Slot(s, task))
    ensures var w := View(s, turn, log);
            && Ref.At(w, task).Present?
            && Ref.At(w, task).held == HeldIn(Slot(s, task).capabilities)
            && Ref.At(w, task).names == NamesIn(Slot(s, task).capabilities)
            && Ref.At(w, task).registers == RegistersOf(Slot(s, task).context)
            && View(WithSlot(s, task, Slot(s, task).(capabilities := t)), turn, log)
               == Ref.Put(w, task, Ref.At(w, task).(held := HeldIn(t), names := NamesIn(t)))
  {
    hide HeldIn, NamesIn, DeskOf;
  }

  lemma DuplicateActs(s: RuntimeState, task: u64, source: u64, wanted: u64, reserved: u64, log: Option<Ref.Log>)
    requires Runs(s, task)
    ensures Ref.At(Seen(s, task, log), task).Present?
    ensures Acts(DuplicateTrap(s, task, source, wanted, reserved),
                 Ref.Duplicate(Seen(s, task, log), task, source, wanted, reserved), log)
  {
    hide Inv, Finish, Refuse, View, HeldIn, NamesIn, Duplicate, Ref.Tell, Ref.Refusal, Ref.Put, Ref.Vacant, Ref.Rights,
      Ref.Lacking, TrapStatus.Code, ServesTable, Acts;
    DuplicateLands(s, task, source, wanted, reserved);
    Codes();
    Serving(s, task);
    var slot := Slot(s, task);
    TableIs(s, task, slot.capabilities, Ref.Of(task), log);
    DuplicateServes(slot.capabilities, task, slot.generation, source, wanted);
    RefusalIs(s, task, source, Ref.Mail, Ref.MayDuplicate, log);
    LackingIsHeld(HeldIn(slot.capabilities), source, Ref.Mail, Ref.MayDuplicate);
    if reserved != 0 {
      AnswerActs(s, task, InvalidOperation, 0, log);
    } else {
      match Duplicate(slot.capabilities, task, slot.generation, source, wanted)
      case Err(status) => AnswerActs(s, task, status, 0, log);
      case Ok((t, raw)) =>
        TableIs(s, task, t, Ref.Of(task), log);
        AnswerActs(WithSlot(s, task, slot.(capabilities := t)), task, StatusOk, raw, log);
    }
  }

  lemma CloseActs(s: RuntimeState, task: u64, handle: u64, zero: u64, zero': u64, log: Option<Ref.Log>)
    requires Runs(s, task)
    ensures Ref.At(Seen(s, task, log), task).Present? && |Ref.At(Seen(s, task, log), task).names| == 16
    ensures Acts(CloseTrap(s, task, handle, zero, zero'),
                 Ref.Close(Seen(s, task, log), task, handle, zero, zero'), log)
  {
    hide Inv, Finish, Refuse, View, HeldIn, NamesIn, Close, Ref.Tell, Ref.Put, ServesTable, Acts;
    CloseLands(s, task, handle, zero, zero');
    Serving(s, task);
    var slot := Slot(s, task);
    TableIs(s, task, slot.capabilities, Ref.Of(task), log);
    CloseServes(slot.capabilities, task, slot.generation, handle);
    if zero != 0 || zero' != 0 {
      AnswerActs(s, task, InvalidOperation, 0, log);
    } else {
      match Close(slot.capabilities, task, slot.generation, handle)
      case Err(status) => AnswerActs(s, task, status, 0, log);
      case Ok(t) =>
        TableIs(s, task, t, Ref.Of(task), log);
        AnswerActs(WithSlot(s, task, slot.(capabilities := t)), task, StatusOk, 0, log);
    }
  }
}
