/**
 The launch of the workload and the approval broker, seen by the programs, are the
 reference machine's launch and desk.
 */
module BrokerRefinement {
  import opened Words
  import opened TrapAbi
  import opened Capability
  import opened Runtime
  import opened RuntimeInvariant
  import opened RuntimeProgress
  import opened ReferenceView
  import opened TrapRefinement
  import Ref = Reference

  /** What the desk shows of the broker while a supervised task runs. */
  lemma DeskFacts(s: RuntimeState, task: u64)
    requires Runs(s, task) && s.profile == Supervised
    ensures var b, desk := s.broker, DeskOf(s.broker);
            && b.state != BrokerBuilding && (desk.None? <==> b.state == BrokerClosing || b.state == BrokerDead)
            && (b.requestPresent <==> Undecided(b)) && (Undecided(b) <==> s.receiver.state == BlockedApproval)
            && (desk.Some? ==>
                  && desk.value == Ref.ApprovalDesk(b.nextSequence - 1, b.decisionEpoch, AskOf(b))
                  && !b.sequenceExhausted && 1 <= b.nextSequence <= b.decisionEpoch)
            && (Undecided(b) ==>
                  && AskOf(b) == Some(Ref.Ask(b.request.sequence, b.request.argument, b.state == BrokerApproved))
                  && b.requestKind == 1 && b.request == CommitRequest(b.request.sequence, b.request.argument))
            && (task == RECEIVER_TASK_ID ==> s.manifest == PUBLISHED_MANIFEST && !Undecided(b))
            && (task == RECEIVER_TASK_ID && s.sender.state != TaskDead ==> s.sender.state == Ready)
            && (s.sender.state == TaskDead ==> b.state == BrokerDead)
  {
    hide TableInv;
  }

  lemma DeskIs(s: RuntimeState, broker: Broker, turn: Ref.Turn, log: Option<Ref.Log>)
    ensures View(s.(broker := broker), turn, log) == View(s, turn, log).(desk := DeskOf(broker))
    ensures View(s, turn, log).desk == DeskOf(s.broker)
  {
  }

  lemma DeedIs(s: RuntimeState, effect: Effect, turn: Ref.Turn, log: Option<Ref.Log>)
    ensures View(s.(effect := effect), turn, log)
         == View(s, turn, log).(deed := if effect.occupied then Some(effect.value) else None)
    ensures View(s, turn, log).deed == if s.effect.occupied then Some(s.effect.value) else None
  {
  }

  lemma BrokerCodes()
    ensures WrongObject.Code() == 7 && InvalidManifest.Code() == 12 && InvalidRequest.Code() == 13
    ensures ApprovalMismatch.Code() == 15 && ApprovalDenied.Code() == 16 && ApprovalExpired.Code() == 17
    ensures EffectUnavailable.Code() == 18 && BrokerUnavailable.Code() == 19 && AlreadyLaunched.Code() == 20
  {
  }

  // Launch -----------------------------------------------------------------------------------------

  lemma StartAnswers(s: RuntimeState, task: u64, handle: u64, manifestId: u64, reserved: u64, log: Option<Ref.Log>)
    requires Runs(s, task)
    ensures AnswerOf(StartStatus(s, task, handle, manifestId, reserved))
         == Ref.StartRefusal(Seen(s, task, log), task, handle, manifestId, reserved)
    ensures StartStatus(s, task, handle, manifestId, reserved) != Fail(StatusOk)
  {
    hide Inv, View, ResolveObject, Ref.Refusal, TrapStatus.Code;
    Codes();
    BrokerCodes();
    NotOk();
    SecondIs(s, Ref.Of(task), log);
    MailStands(s, task);
    if s.profile == Supervised {
      ObjectAnswers(s, task, handle, OBJECT_TASK_CONTROL, Ref.MayStart, 1, log);
      if ResolveObject(s, task, handle, OBJECT_TASK_CONTROL, RIGHT_START, 1, 1).Pass? {
        LauncherIsSupervisor(s, task, handle);
      }
    }
  }

  lemma LauncherIsSupervisor(s: RuntimeState, task: u64, handle: u64)
    requires Runs(s, task) && ResolveObject(s, task, handle, OBJECT_TASK_CONTROL, RIGHT_START, 1, 1).Pass?
    ensures task == SENDER_TASK_ID
    ensures s.receiver.state == Staged ==>
              && s.receiver.capabilities == BuildingTable(RECEIVER_TASK_ID, WORKLOAD_GENERATION)
              && ManifestAccepted(s.receiver.generation, s.broker.objectGeneration, s.receiver.capabilities)
  {
    RightHolder(s, task, handle, OBJECT_TASK_CONTROL, RIGHT_START);
    hide QueueInv, TableInv;
  }

  lemma LaunchedTable(t: Table)
    requires t == BuildingTable(RECEIVER_TASK_ID, WORKLOAD_GENERATION)
    ensures var r := InstallBuilding(t, OBJECT_APPROVAL_BROKER, ObjectReference(1, 1), RIGHT_SUBMIT_APPROVAL);
            && r.Some?
            && HeldIn(r.value.0.(state := TableLive)) == map[16 := Ref.Power(Ref.Desk, {Ref.MaySubmit})]
            && NamesIn(r.value.0.(state := TableLive)) == NamesIn(t)
  {
    var entry := CapabilityEntry(RECEIVER_TASK_ID, WORKLOAD_GENERATION, OBJECT_APPROVAL_BROKER, RIGHT_SUBMIT_APPROVAL,
                                 ObjectReference(1, 1));
    EntryAddsHandle(t, 0, entry);
    assert HeldIn(t) == map[];
    assert Ref.Rights(RIGHT_SUBMIT_APPROVAL) == {Ref.MaySubmit};
    var r := InstallBuilding(t, OBJECT_APPROVAL_BROKER, ObjectReference(1, 1), RIGHT_SUBMIT_APPROVAL);
    StateIsNoHandle(r.value.0, TableLive);
  }

  lemma StateIsNoHandle(t: Table, state: TableState)
    ensures HeldIn(t.(state := state)) == HeldIn(t) && NamesIn(t.(state := state)) == NamesIn(t)
  {
    var t' := t.(state := state);
    assert forall h: u64 :: Names(t', h) <==> Names(t, h);
    assert forall k :: 0 <= k < 16 ==> NameAt(t', k) == NameAt(t, k);
  }

  lemma LaunchIs(s: RuntimeState, table: Table, queue: seq<u64>, turn: Ref.Turn, log: Option<Ref.Log>)
    requires s.receiver.state == Staged && NamesIn(table) == NamesIn(s.receiver.capabilities)
    ensures var launched := s.receiver.(state := Ready, capabilities := table);
            var w := View(s, turn, log);
            && w.second.Present?
            && View(s.(receiver := launched, manifest := PUBLISHED_MANIFEST, queue := queue), turn, log)
               == w.(second := w.second.(mood := Ref.Waiting, held := HeldIn(table)), line := queue)
  {
    hide HeldIn, NamesIn, DeskOf;
  }

  lemma StartActs(s: RuntimeState, task: u64, handle: u64, manifestId: u64, reserved: u64, log: Option<Ref.Log>)
    requires Runs(s, task)
    ensures Acts(StartWorkload(s, task, handle, manifestId, reserved),
                 Ref.Start(Seen(s, task, log), task, handle, manifestId, reserved), log)
  {
    hide Inv, Finish, Refuse, View, StartStatus, Ref.StartRefusal, Ref.Tell, HeldIn, NamesIn, InstallBuilding,
      TrapStatus.Code, Acts;
    StartLands(s, task, handle, manifestId, reserved);
    StartAnswers(s, task, handle, manifestId, reserved, log);
    Codes();
    NotOk();
    var check := StartStatus(s, task, handle, manifestId, reserved);
    if check.Fail? {
      AnswerActs(s, task, check.error, 0, log);
    } else {
      StartPasses(s, task, handle, manifestId, reserved);
      LaunchedTable(s.receiver.capabilities);
      var t := InstallBuilding(s.receiver.capabilities, OBJECT_APPROVAL_BROKER, ObjectReference(1, 1),
                               RIGHT_SUBMIT_APPROVAL).value.0.(state := TableLive);
      LaunchIs(s, t, s.queue + [RECEIVER_TASK_ID], Ref.Of(task), log);
      QueueIs(s, s.queue, Ref.Of(task), log);
      AnswerActs(s.(receiver := s.receiver.(state := Ready, capabilities := t), manifest := PUBLISHED_MANIFEST,
                    queue := s.queue + [RECEIVER_TASK_ID]), task, StatusOk, 0, log);
    }
  }

  lemma StartPasses(s: RuntimeState, task: u64, handle: u64, manifestId: u64, reserved: u64)
    requires Runs(s, task) && StartStatus(s, task, handle, manifestId, reserved).Pass?
    ensures task == SENDER_TASK_ID && s.receiver.state == Staged
    ensures s.receiver.capabilities == BuildingTable(RECEIVER_TASK_ID, WORKLOAD_GENERATION)
  {
    hide Inv, ResolveObject;
    LauncherIsSupervisor(s, task, handle);
  }

  // Requests ---------------------------------------------------------------------------------------

  lemma SubmitAnswers(s: RuntimeState, task: u64, handle: u64, kind: u64, log: Option<Ref.Log>)
    requires Runs(s, task)
    ensures AnswerOf(SubmitStatus(s, task, handle, kind)) == Ref.SubmitRefusal(Seen(s, task, log), task, handle, kind)
    ensures SubmitStatus(s, task, handle, kind) != Fail(StatusOk)
    ensures SubmitStatus(s, task, handle, kind).Pass? ==>
              task == RECEIVER_TASK_ID && s.profile == Supervised && s.sender.state == Ready && kind == 1
              && DeskOf(s.broker).Some? && !Undecided(s.broker) && s.broker.decisionEpoch < U64_MAX
  {
    hide Inv, View, ResolveObject, Ref.Refusal, TrapStatus.Code, DeskOf, AskOf;
    BrokerCodes();
    NotOk();
    DeskIs(s, s.broker, Ref.Of(task), log);
    SecondIs(s, Ref.Of(task), log);
    if s.profile == Supervised {
      DeskFacts(s, task);
      ObjectAnswers(s, task, handle, OBJECT_APPROVAL_BROKER, Ref.MaySubmit, s.broker.objectGeneration, log);
      if ResolveObject(s, task, handle, OBJECT_APPROVAL_BROKER, RIGHT_SUBMIT_APPROVAL, 1,
                       s.broker.objectGeneration).Pass? {
        DeskHolder(s, task, handle, RIGHT_SUBMIT_APPROVAL);
      }
    }
  }

  lemma DeskHolder(s: RuntimeState, task: u64, handle: u64, right: u64)
    requires Runs(s, task) && (right == RIGHT_SUBMIT_APPROVAL || right == RIGHT_DECIDE_APPROVAL)
    requires ResolveObject(s, task, handle, OBJECT_APPROVAL_BROKER, right, 1, s.broker.objectGeneration).Pass?
    ensures task == (if right == RIGHT_SUBMIT_APPROVAL then RECEIVER_TASK_ID else SENDER_TASK_ID)
    ensures s.profile == Supervised && s.broker.objectGeneration != 0
  {
    RightHolder(s, task, handle, OBJECT_APPROVAL_BROKER, right);
    hide Inv;
  }

  /** An accepted submit puts the request on the desk and passes the processor on. */
  lemma FilingActs(s: RuntimeState, argument: u64, log: Option<Ref.Log>)
    requires Runs(s, RECEIVER_TASK_ID) && s.profile == Supervised && s.sender.state == Ready
    requires DeskOf(s.broker).Some? && !Undecided(s.broker) && s.broker.decisionEpoch < U64_MAX
    ensures var blocked := SetState(s.(broker := SubmittedBroker(s.broker, 1, argument)), RECEIVER_TASK_ID,
                                    BlockedApproval);
            Acts(SwitchAway(blocked), Ref.Next(Ref.File(Seen(s, RECEIVER_TASK_ID, log), RECEIVER_TASK_ID, argument)),
                 log)
  {
    hide Inv, View, SwitchAway, Ref.Next, Ref.Feel, DeskOf, AskOf, SetState, SubmittedBroker;
    var broker := SubmittedBroker(s.broker, 1, argument);
    DeskFacts(s, RECEIVER_TASK_ID);
    FiledDesk(s.broker, argument);
    DeskIs(s, broker, Ref.Of(RECEIVER_TASK_ID), log);
    FeelIs(s.(broker := broker), RECEIVER_TASK_ID, BlockedApproval, Ref.Of(RECEIVER_TASK_ID), log);
    FiledInv(s, argument);
    NextIs(SetState(s.(broker := broker), RECEIVER_TASK_ID, BlockedApproval), Ref.Of(RECEIVER_TASK_ID), log);
  }

  lemma FiledDesk(b: Broker, argument: u64)
    requires DeskOf(b).Some? && b.decisionEpoch < U64_MAX && 1 <= b.nextSequence <= b.decisionEpoch
    ensures var n := b.nextSequence;
            && DeskOf(SubmittedBroker(b, 1, argument))
               == Some(Ref.ApprovalDesk(n, b.decisionEpoch + 1, Some(Ref.Ask(n, argument, false))))
            && Ref.Word(DeskOf(b).value.asked + 1) == n && Ref.Word(DeskOf(b).value.clock + 1) == b.decisionEpoch + 1
  {
  }

  lemma FiledInv(s: RuntimeState, argument: u64)
    requires Runs(s, RECEIVER_TASK_ID) && s.profile == Supervised && s.sender.state == Ready
    requires DeskOf(s.broker).Some? && !Undecided(s.broker) && s.broker.decisionEpoch < U64_MAX
    ensures var blocked := SetState(s.(broker := SubmittedBroker(s.broker, 1, argument)), RECEIVER_TASK_ID,
                                    BlockedApproval);
            Inv(blocked) && blocked.queue != [] && !Active(blocked.sender) && !Active(blocked.receiver)
  {
    hide TableInv, NoEntries;
  }

  lemma SubmitActs(s: RuntimeState, task: u64, handle: u64, kind: u64, argument: u64)
    requires Runs(s, task)
    ensures Acts(SubmitApproval(s, task, handle, kind, argument),
                 Ref.Submit(Seen(s, task, None), task, handle, kind, argument), None)
  {
    hide Inv, Finish, View, SubmitStatus, Ref.SubmitRefusal, Ref.Tell, Ref.File, Ref.Next, TrapStatus.Code, SwitchAway;
    SubmitLands(s, task, handle, kind, argument);
    SubmitAnswers(s, task, handle, kind, None);
    NotOk();
    LogIs(s, Ref.Of(task), None);
    DeskIs(s, s.broker, Ref.Of(task), None);
    var check := SubmitStatus(s, task, handle, kind);
    if check.Fail? {
      AnswerActs(s, task, check.error, 0, None);
    } else {
      FilingActs(s, argument, None);
    }
  }

  lemma LogIs(s: RuntimeState, turn: Ref.Turn, log: Option<Ref.Log>)
    ensures View(s, turn, log).log == log && View(s, turn, log).turn == turn
  {
  }

  // Decisions --------------------------------------------------------------------------------------

  lemma InspectAnswers(s: RuntimeState, task: u64, handle: u64, zero: u64, zero': u64, log: Option<Ref.Log>)
    requires Runs(s, task)
    ensures AnswerOf(InspectStatus(s, task, handle, zero, zero'))
         == Ref.InspectRefusal(Seen(s, task, log), task, handle, zero, zero')
    ensures InspectStatus(s, task, handle, zero, zero') != Fail(StatusOk)
    ensures InspectStatus(s, task, handle, zero, zero').Pass? ==>
              s.profile == Supervised && s.broker.state == BrokerPending
  {
    hide Inv, View, ResolveObject, Ref.Refusal, TrapStatus.Code, DeskOf;
    Codes();
    BrokerCodes();
    NotOk();
    DeskIs(s, s.broker, Ref.Of(task), log);
    SecondIs(s, Ref.Of(task), log);
    if s.profile == Supervised {
      DeskFacts(s, task);
      ObjectAnswers(s, task, handle, OBJECT_APPROVAL_BROKER, Ref.MayDecide, s.broker.objectGeneration, log);
    }
  }

  lemma ShowIs(s: RuntimeState, task: u64, context: TaskContext, turn: Ref.Turn, log: Option<Ref.Log>)
    requires IsTask(task) && Here(Slot(s, task))
    ensures View(WithSlot(s, task, Slot(s, task).(context := context)), turn, log)
         == Ref.Show(View(s, turn, log), task, RegistersOf(context))
  {
    hide HeldIn, NamesIn, DeskOf;
  }

  lemma InspectActs(s: RuntimeState, task: u64, handle: u64, zero: u64, zero': u64, log: Option<Ref.Log>)
    requires Runs(s, task)
    ensures Acts(InspectApproval(s, task, handle, zero, zero'),
                 Ref.Inspect(Seen(s, task, log), task, handle, zero, zero'), log)
  {
    hide Inv, Finish, View, InspectStatus, Ref.InspectRefusal, Ref.Tell, Ref.Show, DeskOf, HeldIn, NamesIn;
    InspectLands(s, task, handle, zero, zero');
    InspectAnswers(s, task, handle, zero, zero', log);
    var check := InspectStatus(s, task, handle, zero, zero');
    if check.Fail? {
      AnswerActs(s, task, check.error, 0, log);
    } else {
      DeskFacts(s, task);
      DeskIs(s, s.broker, Ref.Of(task), log);
      TableIs(s, task, Slot(s, task).capabilities, Ref.Of(task), log);
      var slot := Slot(s, task);
      ShowIs(s, task, slot.context.(rax := StatusOk.Code(), rdi := s.broker.request.sequence,
                      rsi := s.broker.requestKind, rdx := s.broker.request.argument), Ref.Of(task), log);
    }
  }

  lemma DecideAnswers(s: RuntimeState, task: u64, handle: u64, sequence: u64, decision: u64, log: Option<Ref.Log>)
    requires Runs(s, task)
    ensures AnswerOf(DecideStatus(s, task, handle, sequence, decision))
         == Ref.DecideRefusal(Seen(s, task, log), task, handle, sequence, decision)
    ensures DecideStatus(s, task, handle, sequence, decision) != Fail(StatusOk)
    ensures DecideStatus(s, task, handle, sequence, decision).Pass? ==>
              && task == SENDER_TASK_ID && s.profile == Supervised && Undecided(s.broker) && decision <= 2
              && DeskOf(s.broker).Some? && s.broker.request.sequence == sequence
              && (decision != 2 ==> s.broker.state == BrokerPending)
  {
    hide Inv, View, ResolveObject, Ref.Refusal, TrapStatus.Code, DeskOf;
    BrokerCodes();
    NotOk();
    DeskIs(s, s.broker, Ref.Of(task), log);
    SecondIs(s, Ref.Of(task), log);
    if s.profile == Supervised {
      DeskFacts(s, task);
      ObjectAnswers(s, task, handle, OBJECT_APPROVAL_BROKER, Ref.MayDecide, s.broker.objectGeneration, log);
      if ResolveObject(s, task, handle, OBJECT_APPROVAL_BROKER, RIGHT_DECIDE_APPROVAL, 1,
                       s.broker.objectGeneration).Pass? {
        DeskHolder(s, task, handle, RIGHT_DECIDE_APPROVAL);
      }
    }
  }

  lemma ClearedDesk(b: Broker)
    requires DeskOf(b).Some? && b.decisionEpoch < U64_MAX && 1 <= b.nextSequence
    ensures DeskOf(b.ClearRequest().(state := BrokerEmpty, decisionEpoch := b.decisionEpoch + 1))
         == Some(Ref.ApprovalDesk(DeskOf(b).value.asked, Ref.Word(b.decisionEpoch + 1), None))
    ensures DeskOf(b.ClearRequest().(state := BrokerClosing)) == None
    ensures DeskOf(b).value.clock == b.decisionEpoch
  {
  }

  /** The workload is told how its request ended. */
  lemma WokenIs(s: RuntimeState, status: TrapStatus, value: u64, turn: Ref.Turn, log: Option<Ref.Log>)
    requires WakeWorkload(s, status, value).Ok?
    ensures View(WakeWorkload(s, status, value).value, turn, log)
         == Ref.Wake(View(s, turn, log), status.Code(), value)
  {
    WakeIs(s, status, value, turn, log);
    hide View, Ref.Wake;
  }

  lemma SettleIs(s: RuntimeState, status: TrapStatus, value: u64, turn: Ref.Turn, log: Option<Ref.Log>)
    requires DeskOf(s.broker).Some? && s.broker.decisionEpoch < U64_MAX && 1 <= s.broker.nextSequence
    requires var b := s.broker.ClearRequest().(state := BrokerEmpty, decisionEpoch := s.broker.decisionEpoch + 1);
             WakeWorkload(s.(broker := b), status, value).Ok?
    ensures var b := s.broker.ClearRequest().(state := BrokerEmpty, decisionEpoch := s.broker.decisionEpoch + 1);
            View(WakeWorkload(s.(broker := b), status, value).value, turn, log)
            == Ref.Settle(View(s, turn, log), status.Code(), value)
  {
    hide View, Ref.Wake, DeskOf, WakeWorkload, Ref.Word;
    var b := s.broker.ClearRequest().(state := BrokerEmpty, decisionEpoch := s.broker.decisionEpoch + 1);
    ClearedDesk(s.broker);
    DeskIs(s, b, turn, log);
    WokenIs(s.(broker := b), status, value, turn, log);
  }

  /** Waking the workload leaves the supervisor where it was. */
  lemma WakingKeepsCaller(s: RuntimeState, status: TrapStatus, value: u64)
    requires WakeWorkload(s, status, value).Ok?
    ensures WakeWorkload(s, status, value).value.sender == s.sender
  {
  }

  /** A denial or an expiry settles the request. */
  lemma SettlingActs(s: RuntimeState, status: TrapStatus, value: u64, log: Option<Ref.Log>)
    requires Here(s.sender)
    requires DeskOf(s.broker).Some? && s.broker.decisionEpoch < U64_MAX && 1 <= s.broker.nextSequence
    requires var b := s.broker.ClearRequest().(state := BrokerEmpty, decisionEpoch := s.broker.decisionEpoch + 1);
             && WakeWorkload(s.(broker := b), status, value).Ok?
             && Finish(WakeWorkload(s.(broker := b), status, value).value, SENDER_TASK_ID, StatusOk, 0).Ok?
    ensures var b := s.broker.ClearRequest().(state := BrokerEmpty, decisionEpoch := s.broker.decisionEpoch + 1);
            Acts(Finish(WakeWorkload(s.(broker := b), status, value).value, SENDER_TASK_ID, StatusOk, 0),
                 Ref.Tell(Ref.Settle(Seen(s, SENDER_TASK_ID, log), status.Code(), value), SENDER_TASK_ID, 0, 0), log)
  {
    hide View, DeskOf, WakeWorkload, Finish, Acts, Ref.Settle, Ref.Tell, TrapStatus.Code;
    var b := s.broker.ClearRequest().(state := BrokerEmpty, decisionEpoch := s.broker.decisionEpoch + 1);
    Codes();
    SettleIs(s, status, value, Ref.Of(SENDER_TASK_ID), log);
    WakingKeepsCaller(s.(broker := b), status, value);
    AnswerActs(WakeWorkload(s.(broker := b), status, value).value, SENDER_TASK_ID, StatusOk, 0, log);
  }

  lemma ApprovingActs(s: RuntimeState, log: Option<Ref.Log>)
    requires Here(s.sender) && s.broker.state == BrokerPending && s.broker.requestPresent
    requires 1 <= s.broker.nextSequence && s.broker.decisionEpoch + 1 < U64_MAX
    requires var epoch := s.broker.decisionEpoch + 1;
             var b := s.broker.(state := BrokerApproved, decisionEpoch := epoch, approvalEpoch := epoch,
                      expiryEpoch := epoch + 1);
             Finish(s.(broker := b), SENDER_TASK_ID, StatusOk, 0).Ok?
    ensures var epoch := s.broker.decisionEpoch + 1;
            var b := s.broker.(state := BrokerApproved, decisionEpoch := epoch, approvalEpoch := epoch,
                     expiryEpoch := epoch + 1);
            Acts(Finish(s.(broker := b), SENDER_TASK_ID, StatusOk, 0),
                 Ref.Tell(Ref.Approve(Seen(s, SENDER_TASK_ID, log)), SENDER_TASK_ID, 0, 0), log)
  {
    hide View, Finish, Acts, Ref.Tell, TrapStatus.Code;
    Codes();
    var epoch := s.broker.decisionEpoch + 1;
    var b := s.broker.(state := BrokerApproved, decisionEpoch := epoch, approvalEpoch := epoch,
             expiryEpoch := epoch + 1);
    DeskIs(s, b, Ref.Of(SENDER_TASK_ID), log);
    AnswerActs(s.(broker := b), SENDER_TASK_ID, StatusOk, 0, log);
  }

  lemma ExhaustedActs(s: RuntimeState, log: Option<Ref.Log>)
    requires Here(s.sender) && s.receiver.state == BlockedApproval
    requires FailBrokerEpochExhaustion(s).Ok?
    requires Finish(FailBrokerEpochExhaustion(s).value, SENDER_TASK_ID, BrokerUnavailable, 0).Ok?
    ensures Acts(Finish(FailBrokerEpochExhaustion(s).value, SENDER_TASK_ID, BrokerUnavailable, 0),
                 Ref.Tell(Ref.Wake(Seen(s, SENDER_TASK_ID, log).(desk := None), 19, 0), SENDER_TASK_ID, 19, 0), log)
  {
    hide View, WakeWorkload, Finish, Acts, Ref.Wake, Ref.Tell, TrapStatus.Code;
    BrokerCodes();
    var woken := WakeWorkload(s, BrokerUnavailable, 0).value;
    WokenIs(s, BrokerUnavailable, 0, Ref.Of(SENDER_TASK_ID), log);
    WakingKeepsCaller(s, BrokerUnavailable, 0);
    DeskIs(woken, woken.broker.ClearRequest().(state := BrokerClosing), Ref.Of(SENDER_TASK_ID), log);
    WakeLeavesDesk(Seen(s, SENDER_TASK_ID, log), 19, 0);
    AnswerActs(FailBrokerEpochExhaustion(s).value, SENDER_TASK_ID, BrokerUnavailable, 0, log);
  }

  lemma WakeLeavesDesk(w: Ref.World, answer: u64, value: u64)
    ensures Ref.Wake(w.(desk := None), answer, value) == Ref.Wake(w, answer, value).(desk := None)
  {
  }

  /** An accepted decision, clock to spare. */
  function Decided(s: RuntimeState, decision: u64): Transition
    requires s.broker.decisionEpoch < U64_MAX && (decision == 1 ==> s.broker.decisionEpoch + 1 < U64_MAX)
  {
    var epoch := s.broker.decisionEpoch + 1;
    if decision == 1 then
      Finish(s.(broker := s.broker.(state := BrokerApproved, decisionEpoch := epoch, approvalEpoch := epoch,
                expiryEpoch := epoch + 1)), SENDER_TASK_ID, StatusOk, 0)
    else
      var b := s.broker.ClearRequest().(state := BrokerEmpty, decisionEpoch := epoch);
      var woken :- WakeWorkload(s.(broker := b), if decision == 0 then ApprovalDenied else ApprovalExpired, 0);
      Finish(woken, SENDER_TASK_ID, StatusOk, 0)
  }

  /** What an accepted decision does apart from its row in the journal. */
  function DecidedView(w: Ref.World, decision: u64): Ref.World {
    if decision == 1 then Ref.Tell(Ref.Approve(w), 1, 0, 0)
    else if decision == 0 then Ref.Tell(Ref.Settle(w, 16, 0), 1, 0, 0)
    else Ref.Tell(Ref.Settle(w, 17, 0), 1, 0, 0)
  }

  lemma DecidingActs(s: RuntimeState, decision: u64, log: Option<Ref.Log>)
    requires Runs(s, SENDER_TASK_ID) && s.profile == Supervised && Undecided(s.broker) && DeskOf(s.broker).Some?
    requires s.broker.decisionEpoch < U64_MAX && (decision == 1 ==> s.broker.decisionEpoch + 1 < U64_MAX)
    requires decision == 1 ==> s.broker.state == BrokerPending
    requires Decided(s, decision).Ok?
    ensures Acts(Decided(s, decision), DecidedView(Seen(s, SENDER_TASK_ID, log), decision), log)
  {
    hide Inv, View, DeskOf, AskOf, WakeWorkload, Finish, Acts, Ref.Settle, Ref.Approve, Ref.Tell, TrapStatus.Code;
    BrokerCodes();
    DeskFacts(s, SENDER_TASK_ID);
    if decision == 1 {
      ApprovingActs(s, log);
    } else {
      SettlingActs(s, if decision == 0 then ApprovalDenied else ApprovalExpired, 0, log);
    }
  }

  lemma DecideActs(s: RuntimeState, task: u64, handle: u64, sequence: u64, decision: u64)
    requires Runs(s, task)
    ensures Acts(DecideApproval(s, task, handle, sequence, decision),
                 Ref.Decide(Seen(s, task, None), task, handle, sequence, decision), None)
  {
    hide Inv, View, DecideStatus, Ref.DecideRefusal, DeskOf, AskOf, WakeWorkload, Finish, Acts, Ref.Settle, Ref.Approve,
      Ref.Wake, Ref.Tell, TrapStatus.Code, FailBrokerEpochExhaustion;
    DecideLands(s, task, handle, sequence, decision);
    DecideAnswers(s, task, handle, sequence, decision, None);
    NotOk();
    LogIs(s, Ref.Of(task), None);
    DeskIs(s, s.broker, Ref.Of(task), None);
    var check := DecideStatus(s, task, handle, sequence, decision);
    if check.Fail? {
      AnswerActs(s, task, check.error, 0, None);
    } else {
      DeskFacts(s, task);
      if s.broker.decisionEpoch == U64_MAX || (decision == 1 && s.broker.decisionEpoch + 1 == U64_MAX) {
        ExhaustedActs(s, None);
      } else {
        DecidingActs(s, decision, None);
      }
    }
  }

  // Commits ----------------------------------------------------------------------------------------

  lemma CommitAnswers(s: RuntimeState, task: u64, handle: u64, sequence: u64, argument: u64, log: Option<Ref.Log>)
    requires Runs(s, task)
    ensures AnswerOf(CommitStatus(s, task, handle, sequence, argument))
         == Ref.CommitRefusal(Seen(s, task, log), task, handle, sequence, argument)
    ensures CommitStatus(s, task, handle, sequence, argument) != Fail(StatusOk)
    ensures CommitStatus(s, task, handle, sequence, argument) in {Pass, Fail(EffectUnavailable)} ==>
              && task == SENDER_TASK_ID && s.profile == Supervised && s.broker.state == BrokerApproved
              && DeskOf(s.broker).Some? && s.broker.request == CommitRequest(sequence, argument)
              && s.broker.decisionEpoch < U64_MAX
              && (s.effect.occupied <==> CommitStatus(s, task, handle, sequence, argument).Fail?)
  {
    hide Inv, View, ResolveObject, Ref.Refusal, TrapStatus.Code, DeskOf;
    BrokerCodes();
    NotOk();
    DeskIs(s, s.broker, Ref.Of(task), log);
    DeedIs(s, s.effect, Ref.Of(task), log);
    SecondIs(s, Ref.Of(task), log);
    CommitNeverExpired(s, task, handle, sequence, argument);
    if s.profile == Supervised {
      DeskFacts(s, task);
      ObjectAnswers(s, task, handle, OBJECT_TEST_EFFECT, Ref.MayCommit, s.effect.objectGeneration, log);
      ResolveIsNot(s, task, handle);
      if ResolveObject(s, task, handle, OBJECT_TEST_EFFECT, RIGHT_COMMIT_EFFECT, 1, s.effect.objectGeneration).Pass? {
        EffectHolder(s, task, handle);
      }
    }
  }

  lemma ResolveIsNot(s: RuntimeState, task: u64, handle: u64)
    requires IsTask(task)
    ensures ResolveObject(s, task, handle, OBJECT_TEST_EFFECT, RIGHT_COMMIT_EFFECT, 1, s.effect.objectGeneration)
            != Fail(EffectUnavailable)
  {
  }

  lemma EffectHolder(s: RuntimeState, task: u64, handle: u64)
    requires Runs(s, task)
    requires ResolveObject(s, task, handle, OBJECT_TEST_EFFECT, RIGHT_COMMIT_EFFECT, 1, s.effect.objectGeneration).Pass?
    ensures task == SENDER_TASK_ID
    ensures s.broker.state == BrokerApproved ==> s.broker.decisionEpoch < U64_MAX
  {
    RightHolder(s, task, handle, OBJECT_TEST_EFFECT, RIGHT_COMMIT_EFFECT);
    hide SlotInv, QueueInv;
  }

  lemma CommittingActs(s: RuntimeState, argument: u64, log: Option<Ref.Log>)
    requires Runs(s, SENDER_TASK_ID) && s.profile == Supervised && Undecided(s.broker) && DeskOf(s.broker).Some?
    requires s.broker.decisionEpoch < U64_MAX
    requires var b := s.broker.ClearRequest().(state := BrokerEmpty, decisionEpoch := s.broker.decisionEpoch + 1);
             var woken := WakeWorkload(s.(effect := s.effect.(occupied := true, value := argument), broker := b),
                                       StatusOk, argument);
             woken.Ok? && Finish(woken.value, SENDER_TASK_ID, StatusOk, 0).Ok?
    ensures var b := s.broker.ClearRequest().(state := BrokerEmpty, decisionEpoch := s.broker.decisionEpoch + 1);
            var woken := WakeWorkload(s.(effect := s.effect.(occupied := true, value := argument), broker := b),
                                      StatusOk, argument);
            Acts(Finish(woken.value, SENDER_TASK_ID, StatusOk, 0),
                 Ref.Tell(Ref.Settle(Seen(s, SENDER_TASK_ID, log).(deed := Some(argument)), 0, argument),
                          SENDER_TASK_ID, 0, 0), log)
  {
    hide Inv, View, DeskOf, AskOf, WakeWorkload, Finish, Acts, Ref.Settle, Ref.Tell, TrapStatus.Code;
    Codes();
    DeskFacts(s, SENDER_TASK_ID);
    var done := s.(effect := s.effect.(occupied := true, value := argument));
    DeedIs(s, done.effect, Ref.Of(SENDER_TASK_ID), log);
    SettlingActs(done, StatusOk, argument, log);
  }

  lemma CommitActs(s: RuntimeState, task: u64, handle: u64, sequence: u64, argument: u64)
    requires Runs(s, task)
    ensures Acts(CommitEffect(s, task, handle, sequence, argument),
                 Ref.Commit(Seen(s, task, None), task, handle, sequence, argument), None)
  {
    hide Inv, View, CommitStatus, Ref.CommitRefusal, DeskOf, AskOf, WakeWorkload, Finish, Refuse, Acts, Ref.Settle,
      Ref.Tell, TrapStatus.Code;
    CommitLands(s, task, handle, sequence, argument);
    CommitAnswers(s, task, handle, sequence, argument, None);
    CommitNeverExpired(s, task, handle, sequence, argument);
    NotOk();
    BrokerCodes();
    LogIs(s, Ref.Of(task), None);
    var check := CommitStatus(s, task, handle, sequence, argument);
    if check.Fail? {
      AnswerActs(s, task, check.error, 0, None);
    } else {
      CommittingActs(s, argument, None);
    }
  }
}
