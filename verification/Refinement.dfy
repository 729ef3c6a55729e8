/**
 Every run of the kernel's two plain profiles, seen by the programs, is the run of the
 reference machine on the same registers.
 */
module Refinement {
  import opened Words
  import opened TrapAbi
  import opened Capability
  import opened Runtime
  import opened RuntimeInvariant
  import opened RuntimeProgress
  import opened KernelDrive
  import opened ReferenceView
  import opened TrapRefinement
  import opened BrokerRefinement
  import Ref = Reference

  function TurnOf(phase: Phase): Ref.Turn {
    match phase
    case OnCpu(task) => Ref.Of(task)
    case Finished => Ref.Done
    case KernelFailure(_) => Ref.Stuck
  }

  ghost function Shown(m: Machine): Ref.World {
    View(m.state, TurnOf(m.phase), None)
  }

  // One trap ---------------------------------------------------------------------------------------

  /** The running program is there, with sixteen places for handles. */
  lemma CallerIs(s: RuntimeState, task: u64, log: Option<Ref.Log>)
    requires Runs(s, task)
    ensures var t := Ref.At(Seen(s, task, log), task);
            t.Present? && |t.names| == 16 && t.registers == RegistersOf(Slot(s, task).context)
  {
    hide Inv, HeldIn;
  }

  predicate Exits(i: TaskContext) {
    i.rax == 3 && i.rdi == 0 && i.rsi == 0 && i.rdx == 0
  }

  lemma TrapActs(s: RuntimeState, task: u64)
    requires Runs(s, task) && !Exits(Slot(s, task).context)
    ensures var w := Seen(s, task, None);
            Ref.At(w, task).Present? && |Ref.At(w, task).names| == 16
              && Acts(HandleTrap(s, task), Ref.Act(w, task), None)
  {
    hide Inv, View, Acts, Yield, Send, Receive, DuplicateTrap, CloseTrap, StartWorkload, SubmitApproval,
      InspectApproval,
      DecideApproval, CommitEffect, Finish, Refuse, Ref.Tell, Ref.Yield, Ref.Send, Ref.Receive, Ref.Duplicate,
        Ref.Close,
      Ref.Start, Ref.Submit, Ref.Inspect, Ref.Decide, Ref.Commit, TrapStatus.Code;
    CallerIs(s, task, None);
    RunsIsRunning(s, task);
    TrapLands(s, task);
    LogIs(s, Ref.Of(task), None);
    Codes();
    AnswerActs(s, task, InvalidOperation, 0, None);
    var i := Slot(s, task).context;
    match i.rax {
      case 0 => YieldActs(s, task, None);
      case 1 => SendActs(s, task, i.rdi, i.rsi, i.rdx, None);
      case 2 => ReceiveActs(s, task, i.rdi, i.rsi, i.rdx, None);
      case 4 => DuplicateActs(s, task, i.rdi, i.rsi, i.rdx, None);
      case 5 => CloseActs(s, task, i.rdi, i.rsi, i.rdx, None);
      case 6 => StartActs(s, task, i.rdi, i.rsi, i.rdx, None);
      case 7 => SubmitActs(s, task, i.rdi, i.rsi, i.rdx);
      case 8 => InspectActs(s, task, i.rdi, i.rsi, i.rdx, None);
      case 9 => DecideActs(s, task, i.rdi, i.rsi, i.rdx);
      case 10 => CommitActs(s, task, i.rdi, i.rsi, i.rdx);
      case _ =>
    }
  }

  // Leaving ----------------------------------------------------------------------------------------

  lemma GoneIs(s: RuntimeState, task: u64, slot: TaskSlot, turn: Ref.Turn, log: Option<Ref.Log>)
    requires IsTask(task) && !Here(slot)
    ensures View(WithSlot(s, task, slot), turn, log) == Ref.Put(View(s, turn, log), task, Ref.Gone)
  {
    hide HeldIn, NamesIn, DeskOf;
  }

  /** The shared objects a leaving task lets go of, as the other program sees it. */
  lemma CooperativeDepartIs(s: RuntimeState, task: u64, turn: Ref.Turn, slot: TaskSlot)
    requires Runs(s, task) && s.profile == Cooperative && !Here(slot)
    requires DetachCooperative(WithSlot(s, task, slot), task).Ok?
    ensures View(DetachCooperative(WithSlot(s, task, slot), task).value, turn, None)
         == Ref.Depart(View(s, turn, None), task)
  {
    hide Inv, View, HeldIn, NamesIn, DeskOf, Ref.Wake;
    var left := WithSlot(s, task, slot);
    GoneIs(s, task, slot, turn, None);
    SecondIs(s, turn, None);
    LogIs(s, turn, None);
    BlockedFacts(s, task);
    Codes();
    if task == SENDER_TASK_ID {
      var detached := left.(endpoint := left.endpoint.(senderTask := 0, senderGeneration := 0));
      MailIs(left, detached.endpoint, turn, None);
      if s.receiver.state == BlockedReceive {
        WakeIs(detached, PeerExited, 0, turn, None);
      }
    } else {
      MailIs(left, left.endpoint.(receiverTask := 0, receiverGeneration := 0, occupied := false, payload := 0), turn,
             None);
    }
  }

  lemma BlockedFacts(s: RuntimeState, task: u64)
    requires Runs(s, task)
    ensures s.profile == Cooperative && s.receiver.state == BlockedReceive ==> !s.endpoint.occupied
    ensures s.receiver.state != Exited && s.sender.state != Exited
  {
    hide TableInv, QueueInv, SupervisedInv;
  }

  lemma {:induction false} SupervisedDepartIs(s: RuntimeState, task: u64, turn: Ref.Turn, slot: TaskSlot)
    requires Runs(s, task) && s.profile == Supervised && !Here(slot)
    requires DetachSupervised(WithSlot(s, task, slot), task).Ok?
    ensures View(DetachSupervised(WithSlot(s, task, slot), task).value, turn, None)
         == Ref.Depart(View(s, turn, None), task)
  {
    hide Inv, View, DeskOf, Ref.Wake, WakeWorkload, TrapStatus.Code;
    var left := WithSlot(s, task, slot);
    GoneIs(s, task, slot, turn, None);
    SecondIs(s, turn, None);
    LogIs(s, turn, None);
    DeskFacts(s, task);
    DeskIs(s, s.broker, turn, None);
    BrokerCodes();
    if task == SENDER_TASK_ID {
      SupervisorDepartIs(s, slot, turn);
    } else {
      WorkloadDepartIs(s, slot, turn);
    }
  }

  lemma SupervisorDepartIs(s: RuntimeState, slot: TaskSlot, turn: Ref.Turn)
    requires Runs(s, SENDER_TASK_ID) && s.profile == Supervised && !Here(slot)
    requires DetachSupervised(s.(sender := slot), SENDER_TASK_ID).Ok?
    ensures View(DetachSupervised(s.(sender := slot), SENDER_TASK_ID).value, turn, None)
         == Ref.Depart(View(s, turn, None), SENDER_TASK_ID)
  {
    hide Inv, View, DeskOf, Ref.Wake, WakeWorkload, TrapStatus.Code;
    var left := s.(sender := slot);
    GoneIs(s, SENDER_TASK_ID, slot, turn, None);
    SecondIs(s, turn, None);
    LogIs(s, turn, None);
    DeskFacts(s, SENDER_TASK_ID);
    DeskIs(s, s.broker, turn, None);
    BrokerCodes();
    var status := if s.broker.state == BrokerPending then ApprovalDenied else ApprovalExpired;
    var told := if s.receiver.state == BlockedApproval then WakeWorkload(left, status, 0).value else left;
    ClosedIs(told, turn);
    if s.receiver.state == BlockedApproval {
      WokenIs(left, status, 0, turn, None);
      WakeThenClose(Ref.Put(View(s, turn, None), 1, Ref.Gone), status.Code(), 0);
    }
  }

  /** Waking the second program and shutting the desk do not get in each other's way. */
  lemma WakeThenClose(w: Ref.World, answer: u64, value: u64)
    ensures Ref.Wake(w.(desk := None, deed := None), answer, value)
         == Ref.Wake(w, answer, value).(desk := None, deed := None)
  {
  }

  lemma ClosedIs(s: RuntimeState, turn: Ref.Turn)
    ensures View(s.(broker := s.broker.ClearRequest().(state := BrokerClosing, supervisorTaskId := 0,
                              supervisorGeneration := 0), effect := EMPTY_EFFECT), turn, None)
         == View(s, turn, None).(desk := None, deed := None)
  {
    hide HeldIn, NamesIn;
  }

  lemma WorkloadDepartIs(s: RuntimeState, slot: TaskSlot, turn: Ref.Turn)
    requires Runs(s, RECEIVER_TASK_ID) && s.profile == Supervised && !Here(slot)
    ensures View(DetachSupervised(s.(receiver := slot), RECEIVER_TASK_ID).value, turn, None)
         == Ref.Depart(View(s, turn, None), RECEIVER_TASK_ID)
  {
    hide Inv, View;
    var left := s.(receiver := slot);
    GoneIs(s, RECEIVER_TASK_ID, slot, turn, None);
    SecondIs(s, turn, None);
    LogIs(s, turn, None);
    DeskFacts(s, RECEIVER_TASK_ID);
    var gone := DetachSupervised(left, RECEIVER_TASK_ID).value;
    DeskIs(left, gone.broker, turn, None);
    DeskIs(left, left.broker, turn, None);
    ManifestUnseen(left.(broker := gone.broker), turn, None);
  }

  lemma ManifestUnseen(s: RuntimeState, turn: Ref.Turn, log: Option<Ref.Log>)
    ensures View(s.(manifest := EMPTY_MANIFEST), turn, log) == View(s, turn, log)
  {
  }

  // Burial -----------------------------------------------------------------------------------------

  /** Burying an emptied task shows nobody anything. */
  lemma BuryIs(s: RuntimeState, task: u64, turn: Ref.Turn, log: Option<Ref.Log>)
    requires Inv(s) && IsTask(task) && Slot(s, task).state == Exited && Slot(s, task).capabilities.state == TableClosing
    ensures View(Bury(s, task), turn, log) == View(s, turn, log)
  {
    hide QueueInv, TableInv, NoEntries, HeldIn, NamesIn;
  }

  /** With nobody running, the processor goes to the head of the line, if there is one. */
  lemma DispatchIs(s: RuntimeState, turn: Ref.Turn, log: Option<Ref.Log>)
    requires Inv(s) && !Active(s.sender) && !Active(s.receiver)
    ensures var next := Ref.Next(View(s, turn, log));
            match DispatchNext(s)
            case Ok((s', Some(t))) => RunningTask(s') == Ok(t) && View(s', Ref.Of(t), log) == next
            case Ok((s', None)) => View(s', Ref.Done, log) == next
            case Err(_) => View(s, Ref.Stuck, log) == next
  {
    if s.queue != [] {
      NextIs(s, turn, log);
      DispatchLands(s);
      RunsIsRunning(DispatchNext(s).value.0, s.queue[0]);
      hide View, Ref.Next, Inv, Validate;
    } else {
      SecondIs(s, turn, log);
      hide Inv, HeldIn, NamesIn, DeskOf;
    }
  }

  /** Completing a teardown passes the processor on, or finds nobody to pass it to. */
  lemma CompletionShows(begun: RuntimeState, task: u64, turn: Ref.Turn, log: Option<Ref.Log>)
    requires Inv(begun) && IsTask(task)
    requires Slot(begun, task).state == Exited && Slot(begun, task).capabilities.state == TableClosing
    ensures NoEntries(Slot(begun, task).capabilities.slots)
    ensures var next := Ref.Next(View(begun, turn, log));
            match CompleteTeardown(begun, task)
            case Ok((s', Some(t))) => RunningTask(s') == Ok(t) && View(s', Ref.Of(t), log) == next
            case Ok((s', None)) => View(s', Ref.Done, log) == next
            case Err(_) => View(begun, Ref.Stuck, log) == next
  {
    hide Inv, View, Validate, Bury, DispatchNext, Ref.Next, RunningTask;
    BuryIs(begun, task, turn, log);
    BuriedInv(begun, task);
    DispatchIs(Bury(begun, task), turn, log);
    StuckIs(begun, Bury(begun, task), turn, log);
  }

  /** Where an exited task's teardown leaves the machine. */
  lemma TeardownShows(s: RuntimeState, task: u64, turn: Ref.Turn, log: Option<Ref.Log>)
    requires Leaving(s, task)
    ensures var begun := BeginTeardown(s, task);
            begun.Ok? &&
            var m := TeardownExited(s, task);
            View(m.state, TurnOf(m.phase), log) == Ref.Next(View(begun.value, turn, log))
  {
    hide Inv, View, BeginTeardown, CompleteTeardown, Ref.Next, RunningTask;
    BeginTeardownLands(s, task);
    CompletionShows(BeginTeardown(s, task).value, task, turn, log);
  }

  lemma StuckIs(s: RuntimeState, t: RuntimeState, turn: Ref.Turn, log: Option<Ref.Log>)
    requires View(s, turn, log) == View(t, turn, log)
    ensures View(s, Ref.Stuck, log) == View(t, Ref.Stuck, log)
  {
    assert View(s, Ref.Stuck, log) == View(s, turn, log).(turn := Ref.Stuck);
    assert View(t, Ref.Stuck, log) == View(t, turn, log).(turn := Ref.Stuck);
    hide HeldIn, NamesIn, DeskOf;
  }

  lemma BuriedInv(s: RuntimeState, task: u64)
    requires Inv(s) && IsTask(task) && Slot(s, task).state == Exited && Slot(s, task).capabilities.state == TableClosing
    ensures var buried := Bury(s, task);
            && Inv(buried) && Validate(buried).Pass? && !Active(buried.sender) && !Active(buried.receiver)
            && NoEntries(Slot(s, task).capabilities.slots)
  {
    hide Validate, TableInv;
    InvValidates(Bury(s, task));
  }

  /** Beginning a teardown shows the departure. */
  lemma BeginIs(s: RuntimeState, task: u64, turn: Ref.Turn)
    requires Runs(s, task) && Leaving(SetState(s, task, Exited), task)
    ensures var begun := BeginTeardown(SetState(s, task, Exited), task);
            begun.Ok? && View(begun.value, turn, None) == Ref.Depart(View(s, turn, None), task)
  {
    hide Inv, Validate, View, DetachSupervised, DetachCooperative, Ref.Depart, CloseTable;
    var left := SetState(s, task, Exited);
    BeginTeardownLands(left, task);
    var slot := Slot(s, task).(state := Exited, capabilities := CloseTable(Slot(s, task).capabilities));
    assert WithSlot(left, task, Slot(left, task).(capabilities := CloseTable(Slot(left, task).capabilities)))
        == WithSlot(s, task, slot);
    if s.profile == Supervised {
      SupervisedDepartIs(s, task, turn, slot);
    } else {
      CooperativeDepartIs(s, task, turn, slot);
    }
  }

  lemma ExitLeaves(s: RuntimeState, task: u64)
    requires Runs(s, task)
    ensures Leaving(SetState(s, task, Exited), task)
  {
    ExitKeeps(s, task);
    hide TableInv, QueueInv, CooperativeInv, SupervisedInv;
  }

  lemma LeavingActs(s: RuntimeState, task: u64)
    requires Runs(s, task) && Exits(Slot(s, task).context)
    ensures Ref.At(Seen(s, task, None), task).Present? && |Ref.At(Seen(s, task, None), task).names| == 16
    ensures Shown(TeardownExited(SetState(s, task, Exited), task)) == Ref.Act(Seen(s, task, None), task)
  {
    hide Inv, View, TeardownExited, BeginTeardown, Ref.Depart, Ref.Next, SetState;
    CallerIs(s, task, None);
    ExitLeaves(s, task);
    BeginIs(s, task, Ref.Of(task));
    TeardownShows(SetState(s, task, Exited), task, Ref.Of(task), None);
  }

  // Steps and runs ---------------------------------------------------------------------------------

  /** One driven trap is one step of the reference machine. */
  lemma StepRefines(m: Machine, frame: TrapFrame)
    requires MachineInv(m)
    ensures Shown(Drive(m, frame)) == Ref.Step(Shown(m), frame)
  {
    hide Inv, View, HandleTrap, TeardownExited, CaptureTrap, RunningTask, Ref.Act, Ref.Show, SetState;
    LogIs(m.state, TurnOf(m.phase), None);
    if m.phase.OnCpu? {
      var task := m.phase.task;
      RunsIsRunning(m.state, task);
      CaptureIs(m.state, task, frame, None);
      var s := Captured(m.state, task, frame).value;
      CapturedContext(m.state, task, frame);
      CallerIs(s, task, None);
      RunsIsRunning(s, task);
      TrapLands(s, task);
      ExitExactly(s, task);
      if Exits(Slot(s, task).context) {
        LeavingActs(s, task);
      } else {
        TrapActs(s, task);
        LandedRuns(s, task);
      }
    }
  }

  lemma CapturedContext(s: RuntimeState, task: u64, frame: TrapFrame)
    requires Runs(s, task) && Captured(s, task, frame).Ok?
    ensures RegistersOf(Slot(Captured(s, task, frame).value, task).context) == frame
  {
    CaptureKeeps(s, task, frame);
    hide Inv;
  }

  lemma LandedRuns(s: RuntimeState, task: u64)
    requires Runs(s, task) && HandleTrap(s, task).Ok? && Lands(s, task, HandleTrap(s, task))
    ensures var (next, outcome) := HandleTrap(s, task).value;
            !outcome.Exit? ==> RunningTask(next) == Ok(outcome.task)
  {
    hide HandleTrap, Inv;
    var (next, outcome) := HandleTrap(s, task).value;
    if !outcome.Exit? { RunsIsRunning(next, outcome.task); }
  }

  /** Every run, whatever the registers. */
  lemma {:induction false} RunRefines(m: Machine, frames: seq<TrapFrame>)
    requires MachineInv(m)
    ensures Shown(Run(m, frames)) == Ref.Run(Shown(m), frames)
    decreases |frames|
  {
    hide MachineInv, Shown, Drive, Ref.Step;
    if frames != [] {
      var k := |frames| - 1;
      RunRefines(m, frames[..k]);
      RunProgress(m, frames[..k]);
      StepRefines(Run(m, frames[..k]), frames[k]);
    }
  }

  // Beginnings -------------------------------------------------------------------------------------

  lemma FreshNames(t: Table)
    requires forall i :: 0 <= i < 16 ==> t.slots[i].generation == 1 && !t.slots[i].retired
    ensures NamesIn(t) == Ref.FRESH_NAMES
  {
    assert forall i :: 0 <= i < 16 ==> NameAt(t, i) == 16 + i;
    assert forall i :: 0 <= i < 16 ==> Ref.FRESH_NAMES[i] == 16 + i;
  }

  /** A freshly published table holds its entries under 16, 17 and so on. */
  lemma PublishedHandles(task: u64, generation: u64, entries: seq<CapabilityEntry>)
    requires |entries| <= SLOT_COUNT
    ensures var t := PublishedTable(task, generation, entries);
            && NamesIn(t) == Ref.FRESH_NAMES
            && (forall h: u64 :: h in HeldIn(t) <==> 16 <= h < 16 + |entries|)
            && (forall h: u64 :: 16 <= h < 16 + |entries| ==> HeldIn(t)[h] == PowerOf(entries[h - 16]))
  {
    var t := PublishedTable(task, generation, entries);
    FreshNames(t);
    forall h: u64 ensures Names(t, h) <==> 16 <= h < 16 + |entries| {
    }
  }

  lemma BitsOf()
    ensures Ref.Rights(1 + 4) == {Ref.MaySend, Ref.MayDuplicate} && Ref.Rights(2) == {Ref.MayReceive}
    ensures Ref.Rights(8) == {Ref.MayStart} && Ref.Rights(32) == {Ref.MayDecide}
    ensures Ref.Rights(64) == {Ref.MayCommit} && Ref.Rights(128) == {Ref.MayRead}
  {
  }

  /** Two cooperating programs begin as the reference machine says. */
  lemma CooperativeBegins(sender: TaskContext, receiver: TaskContext)
    requires NewCooperative(sender, receiver).Ok?
    ensures Shown(Boot(NewCooperative(sender, receiver))) == Ref.Cooperating(RegistersOf(sender), RegistersOf(receiver))
  {
    hide Validate, Inv;
    BootProgress(sender, receiver, Cooperative);
    var a := [EndpointEntry(1, sender.generation, RIGHT_SEND + RIGHT_DUPLICATE)];
    var b := [EndpointEntry(2, receiver.generation, RIGHT_RECEIVE)];
    PublishedHandles(1, sender.generation, a);
    PublishedHandles(2, receiver.generation, b);
    BitsOf();
    assert HeldIn(PublishedTable(1, sender.generation, a))
        == map[16 := Ref.Power(Ref.Mail, {Ref.MaySend, Ref.MayDuplicate})];
    assert HeldIn(PublishedTable(2, receiver.generation, b)) == map[16 := Ref.Power(Ref.Mail, {Ref.MayReceive})];
    hide PublishedTable, HeldIn, NamesIn, Ref.Rights;
  }

  lemma SupervisorHandles()
    ensures var t := PublishedTable(1, SUPERVISOR_GENERATION, SupervisorEntries());
            && NamesIn(t) == Ref.FRESH_NAMES
            && HeldIn(t)
                 == map[16 := Ref.Power(Ref.Control, {Ref.MayStart}), 17 := Ref.Power(Ref.Desk, {Ref.MayDecide}),
                                18 := Ref.Power(Ref.Effect, {Ref.MayCommit})]
  {
    PublishedHandles(1, SUPERVISOR_GENERATION, SupervisorEntries());
    BitsOf();
    hide Ref.Rights, PublishedTable, HeldIn, NamesIn;
  }

  lemma StagedHandles()
    ensures NamesIn(BuildingTable(2, WORKLOAD_GENERATION)) == Ref.FRESH_NAMES
    ensures HeldIn(BuildingTable(2, WORKLOAD_GENERATION)) == map[]
  {
    FreshNames(BuildingTable(2, WORKLOAD_GENERATION));
  }

  lemma SupervisedBegins(supervisor: TaskContext, workload: TaskContext)
    requires NewSupervised(supervisor, workload).Ok?
    ensures Shown(Boot(NewSupervised(supervisor, workload)))
         == Ref.Supervising(RegistersOf(supervisor), RegistersOf(workload), false)
  {
    hide Validate, Inv, PublishedTable, BuildingTable, HeldIn, NamesIn;
    BootProgress(supervisor, workload, Supervised);
    SupervisorHandles();
    StagedHandles();
  }

  /** Every run of a freshly built runtime is a run of the reference machine. */
  lemma EveryRunRefines(sender: TaskContext, receiver: TaskContext, profile: RuntimeProfile, frames: seq<TrapFrame>)
    requires (if profile == Cooperative then NewCooperative(sender, receiver) else NewSupervised(sender, receiver)).Ok?
    ensures var created := if profile == Cooperative then NewCooperative(sender, receiver)
                           else NewSupervised(sender, receiver);
            Shown(Run(Boot(created), frames))
            == Ref.Run(if profile == Cooperative then Ref.Cooperating(RegistersOf(sender), RegistersOf(receiver))
                       else Ref.Supervising(RegistersOf(sender), RegistersOf(receiver), false), frames)
  {
    hide Shown, Boot, MachineInv, Run, Ref.Run, NewCooperative, NewSupervised;
    BootProgress(sender, receiver, profile);
    if profile == Cooperative {
      CooperativeBegins(sender, receiver);
      RunRefines(Boot(NewCooperative(sender, receiver)), frames);
    } else {
      SupervisedBegins(sender, receiver);
      RunRefines(Boot(NewSupervised(sender, receiver)), frames);
    }
  }
}
