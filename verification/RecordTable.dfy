/**
 What every record of a reachable journal says, as a table of plain numbers: who
 acted, on whom, with which right and to which end.
 */
module RecordTable {
  import opened Words
  import opened TrapAbi
  import opened Capability
  import opened Runtime
  import opened RuntimeInvariant
  import opened RuntimeProgress
  import opened KernelDrive
  import opened Journal
  import opened JournalInvariant
  import opened JournalDrive
  import opened JournalTheorems
  import opened ReferenceView
  import opened TrapRefinement
  import opened BrokerRefinement
  import opened Refinement
  import opened JournalRefinement
  import opened Fairness
  import Ref = Reference

  /**
   Kinds 1 to 6: requested by the workload; approved, denied and expired by the supervisor, or denied and expired
   by the system; completed and failed by the supervisor.
   */
  predicate Allowed(kind: u64, status: u64, who: u64, thing: u64, rights: u64) {
    match kind
    case 1 => status == 0 && who == 2 && thing == 3 && rights == 16
    case 2 => status == 0 && who == 1 && thing == 3 && rights == 32
    case 3 => status == 16 && thing == 3 && ((who == 1 && rights == 32) || (who == 0 && rights == 0))
    case 4 => status == 17 && thing == 3 && ((who == 1 && rights == 32) || (who == 0 && rights == 0))
    case 5 => status == 0 && who == 1 && thing == 4 && rights == 64
    case 6 => status == 18 && who == 1 && thing == 4 && rights == 64
    case _ => false
  }

  /** The record at `position`, counted from one, is a line of the table. */
  predicate InTable(r: EffectRecord, position: nat) {
    && r.schemaVersion == 1 && r.byteSize == 128 && r.reservedZero == 0 && r.trailingReservedZero == 0
    && r.recordSequence == position && r.decisionEpoch == position + 1
    && r.principalId == 1 && r.actionId == 1 && r.objectId == 1 && r.objectGeneration == 1
    && r.subjectTaskId == 2 && r.subjectTaskGeneration == 5
    && r.actorTaskId <= 2
    && r.actorTaskGeneration == (if r.actorTaskId == 1 then 4 else if r.actorTaskId == 2 then 5 else 0)
    && Allowed(r.eventKind, r.status, r.actorTaskId, r.objectType, r.rights)
  }

  // Rows of the reference machine ------------------------------------------------------------------

  datatype Line = Line(kind: u64, status: u64, clock: u64, who: u64, number: u64, thing: u64, rights: u64) {
    function RowAt(position: nat): seq<u64> {
      Ref.Row(position, kind, status, clock, who, number, thing, rights)
    }

    predicate Fits() {
      Allowed(kind, status, who, thing, rights)
    }
  }

  ghost predicate Listed(row: seq<u64>, position: nat) {
    exists line: Line :: row == line.RowAt(position) && line.Fits()
  }

  ghost predicate AllListed(rows: seq<seq<u64>>) {
    forall k :: 0 <= k < |rows| ==> Listed(rows[k], k + 1)
  }

  ghost predicate LogListed(w: Ref.World) {
    w.log.Some? ==> AllListed(w.log.value.rows)
  }

  /** A noted line of the table is one more listed row. */
  lemma NoteListed(w: Ref.World, kind: u64, status: u64, clock: u64, who: u64, number: u64, thing: u64, rights: u64)
    requires LogListed(w) && Allowed(kind, status, who, thing, rights)
    ensures LogListed(Ref.Note(w, kind, status, clock, who, number, thing, rights))
  {
    hide Ref.Row, Allowed;
    if w.log.Some? {
      var rows := w.log.value.rows;
      var line := Line(kind, status, clock, who, number, thing, rights);
      assert Listed(line.RowAt(|rows| + 1), |rows| + 1);
    }
  }

  /** Everything but a note leaves the log alone. */
  lemma LogKept(w: Ref.World, who: u64, answer: u64, value: u64, mood: Ref.Mood)
    ensures Ref.Tell(w, who, answer, value).log == w.log
    ensures Ref.Wake(w, answer, value).log == w.log
    ensures Ref.Next(w).log == w.log
    ensures Ref.Feel(w, who, mood).log == w.log
    ensures Ref.Settle(w, answer, value).log == w.log
    ensures Ref.Approve(w).log == w.log
    ensures Ref.File(w, who, value).log == w.log
  {
  }

  lemma CloseBookListed(w: Ref.World)
    requires LogListed(w)
    ensures LogListed(Ref.CloseBook(w))
  {
    hide Ref.Row, AllListed;
    if w.log.Some? && !w.log.value.closed && w.desk.Some? && w.desk.value.ask.Some? {
      var ask := w.desk.value.ask.value;
      NoteListed(w, 4, 17, Ref.Tick(w), 0, ask.number, 3, 0);
      NoteListed(w, 3, 16, Ref.Tick(w), 0, ask.number, 3, 0);
    }
  }

  lemma DepartListed(w: Ref.World, me: u64)
    requires LogListed(w)
    ensures LogListed(Ref.Next(Ref.Depart(w, me)))
  {
    hide Ref.CloseBook, AllListed, Ref.Wake, Ref.Next;
    CloseBookListed(w);
    var without := Ref.Put(Ref.CloseBook(w), me, Ref.Gone);
    LogKept(without, me, 5, 0, Ref.Busy);
    LogKept(without.(desk := None, deed := None), me, 17, 0, Ref.Busy);
    LogKept(without.(desk := None, deed := None), me, 16, 0, Ref.Busy);
    LogKept(Ref.Depart(w, me), me, 0, 0, Ref.Busy);
  }

  lemma SubmitListed(w: Ref.World, me: u64, handle: u64, kind: u64, argument: u64)
    requires LogListed(w)
    ensures LogListed(Ref.Submit(w, me, handle, kind, argument))
  {
    hide Ref.Note, Ref.SubmitRefusal, Ref.Tell, Ref.File, Ref.Next, AllListed;
    var refusal := Ref.SubmitRefusal(w, me, handle, kind);
    LogKept(w, me, refusal, 0, Ref.Busy);
    LogKept(w, me, Ref.JOURNAL_CLOSED, 0, Ref.Busy);
    LogKept(w, me, Ref.JOURNAL_FULL, 0, Ref.Busy);
    if refusal == 0 {
      FiledDeskThere(w, me, handle, kind);
      var n := Ref.Word(w.desk.value.asked + 1);
      NoteListed(w, 1, 0, Ref.Tick(w), 2, n, 3, 16);
      var noted := Ref.Note(w, 1, 0, Ref.Tick(w), 2, n, 3, 16);
      LogKept(noted, me, 0, argument, Ref.Busy);
      LogKept(Ref.File(noted, me, argument), me, 0, 0, Ref.Busy);
    }
  }

  lemma FiledDeskThere(w: Ref.World, me: u64, handle: u64, kind: u64)
    requires Ref.SubmitRefusal(w, me, handle, kind) == 0
    ensures w.desk.Some?
  {
    RefusalKinds(w, me, handle, Ref.Desk, Ref.MaySubmit);
  }

  lemma RefusalKinds(w: Ref.World, me: u64, handle: u64, thing: Ref.Thing, right: Ref.Right)
    ensures Ref.Refusal(w, me, handle, thing, right) in {0, 6, 7, 8}
  {
  }

  lemma SettledListed(w: Ref.World, me: u64, kind: u64, status: u64, number: u64, thing: u64, rights: u64, told: u64,
                      value: u64, answer: u64)
    requires LogListed(w) && Allowed(kind, status, 1, thing, rights)
    ensures LogListed(Ref.Tell(Ref.Settle(Ref.Note(w, kind, status, Ref.Tick(w), 1, number, thing, rights), told,
            value),
                               me, answer, 0))
    ensures LogListed(Ref.Tell(Ref.Approve(Ref.Note(w, kind, status, Ref.Tick(w), 1, number, thing, rights)),
                               me, answer, 0))
  {
    hide Ref.Note, Ref.Tell, Ref.Settle, Ref.Approve, AllListed, Allowed;
    NoteListed(w, kind, status, Ref.Tick(w), 1, number, thing, rights);
    var noted := Ref.Note(w, kind, status, Ref.Tick(w), 1, number, thing, rights);
    LogKept(noted, me, told, value, Ref.Busy);
    LogKept(Ref.Settle(noted, told, value), me, answer, 0, Ref.Busy);
    LogKept(Ref.Approve(noted), me, answer, 0, Ref.Busy);
  }

  lemma DecideListed(w: Ref.World, me: u64, handle: u64, number: u64, decision: u64)
    requires LogListed(w)
    ensures LogListed(Ref.Decide(w, me, handle, number, decision))
  {
    hide Ref.Note, Ref.Tell, Ref.Settle, Ref.Approve, Ref.Wake, AllListed, Ref.DecideRefusal, Ref.Tick;
    LogKept(w, me, Ref.DecideRefusal(w, me, handle, number, decision), 0, Ref.Busy);
    LogKept(w.(desk := None), me, 19, 0, Ref.Busy);
    LogKept(Ref.Wake(w.(desk := None), 19, 0), me, 19, 0, Ref.Busy);
    SettledListed(w, me, 2, 0, number, 3, 32, 0, 0, 0);
    SettledListed(w, me, 3, 16, number, 3, 32, 16, 0, 0);
    SettledListed(w, me, 4, 17, number, 3, 32, 17, 0, 0);
    if Ref.DecideRefusal(w, me, handle, number, decision) == 0 { DecidedDeskThere(w, me, handle, number, decision); }
  }

  lemma DecidedDeskThere(w: Ref.World, me: u64, handle: u64, number: u64, decision: u64)
    requires Ref.DecideRefusal(w, me, handle, number, decision) == 0
    ensures w.desk.Some?
  {
    RefusalKinds(w, me, handle, Ref.Desk, Ref.MayDecide);
  }

  lemma CommitListed(w: Ref.World, me: u64, handle: u64, number: u64, argument: u64)
    requires LogListed(w)
    ensures LogListed(Ref.Commit(w, me, handle, number, argument))
  {
    hide Ref.Note, Ref.Tell, Ref.Settle, AllListed, Ref.CommitRefusal, Ref.Tick;
    LogKept(w, me, Ref.CommitRefusal(w, me, handle, number, argument), 0, Ref.Busy);
    SettledListed(w, me, 6, 18, number, 4, 64, 18, 0, 18);
    NoteListed(w, 5, 0, Ref.Tick(w), 1, number, 4, 64);
    var done := Ref.Note(w, 5, 0, Ref.Tick(w), 1, number, 4, 64).(deed := Some(argument));
    LogKept(done, me, 0, argument, Ref.Busy);
    LogKept(Ref.Settle(done, 0, argument), me, 0, 0, Ref.Busy);
  }

  /** The operations that write no row. */
  lemma QuietListed(w: Ref.World, me: u64)
    requires LogListed(w) && Ref.At(w, me).Present? && |Ref.At(w, me).names| == 16
    ensures var i := Ref.At(w, me).registers;
            && LogListed(Ref.Yield(w, me, i)) && LogListed(Ref.Tell(w, me, 1, 0))
            && LogListed(Ref.Send(w, me, i.rdi, i.rsi, i.rdx)) && LogListed(Ref.Receive(w, me, i.rdi, i.rsi, i.rdx))
  {
    hide AllListed, Ref.Refusal;
  }

  lemma TableListed(w: Ref.World, me: u64)
    requires LogListed(w) && Ref.At(w, me).Present? && |Ref.At(w, me).names| == 16
    ensures var i := Ref.At(w, me).registers;
            && LogListed(Ref.Duplicate(w, me, i.rdi, i.rsi, i.rdx)) && LogListed(Ref.Close(w, me, i.rdi, i.rsi, i.rdx))
            && LogListed(Ref.Start(w, me, i.rdi, i.rsi, i.rdx)) && LogListed(Ref.Inspect(w, me, i.rdi, i.rsi, i.rdx))
            && LogListed(Ref.Survey(w, me, i.rdi, i.rsi, i.rdx)) && LogListed(Ref.Read(w, me, i.rdi, i.rsi, i.rdx))
  {
    hide AllListed, Ref.Refusal, Ref.StartRefusal, Ref.InspectRefusal, Ref.Vacant, Ref.WordAt;
  }

  lemma StepListed(w: Ref.World, frame: Ref.Registers)
    requires LogListed(w)
    ensures LogListed(Ref.Step(w, frame))
  {
    hide AllListed, Ref.Yield, Ref.Send, Ref.Receive, Ref.Duplicate, Ref.Close, Ref.Start, Ref.Submit, Ref.Inspect,
      Ref.Decide, Ref.Commit, Ref.Survey, Ref.Read, Ref.Tell, Ref.Next, Ref.Depart;
    if w.turn.Of? {
      var me := w.turn.task;
      var shown := Ref.Show(w, me, frame);
      if Ref.At(shown, me).Present? && |Ref.At(shown, me).names| == 16 {
        var i := Ref.At(shown, me).registers;
        QuietListed(shown, me);
        TableListed(shown, me);
        SubmitListed(shown, me, i.rdi, i.rsi, i.rdx);
        DecideListed(shown, me, i.rdi, i.rsi, i.rdx);
        CommitListed(shown, me, i.rdi, i.rsi, i.rdx);
        DepartListed(shown, me);
      }
    }
  }

  lemma {:induction false} RunListed(w: Ref.World, frames: seq<Ref.Registers>)
    requires LogListed(w)
    ensures LogListed(Ref.Run(w, frames))
    decreases |frames|
  {
    hide LogListed, Ref.Step;
    if frames != [] {
      RunListed(w, frames[..|frames| - 1]);
      StepListed(Ref.Run(w, frames[..|frames| - 1]), frames[|frames| - 1]);
    }
  }

  // Records ----------------------------------------------------------------------------------------

  /** Halves of a word: two 32-bit numbers are told apart by their sum. */
  lemma Halves(low: u32, high: u32, low': u32, high': u32)
    requires low + high * 0x1_0000_0000 == low' + high' * 0x1_0000_0000
    ensures low == low' && high == high'
  {
  }

  lemma Joined(status: u64, kind: u64)
    requires status <= 18 && kind <= 6
    ensures Ref.Word(status * 0x1_0000_0000 + kind) == kind + status * 0x1_0000_0000
  {
  }

  lemma AllowedBounds(kind: u64, status: u64, who: u64, thing: u64, rights: u64)
    requires Allowed(kind, status, who, thing, rights)
    ensures kind <= 6 && status <= 18 && who <= 2 && thing <= 4
  {
  }

  /** The words of a listed row are the fields of its record. */
  lemma RowFields(r: EffectRecord, position: nat, kind: u64, status: u64, clock: u64, who: u64, number: u64, thing: u64,
                  rights: u64)
    requires RowOf(r) == Ref.Row(position, kind, status, clock, who, number, thing, rights)
    requires kind <= 6 && status <= 18 && who <= 2 && thing <= 4 && r.WellFormed()
    ensures r.eventKind == kind && r.status == status && r.objectType == thing && r.rights == rights
    ensures r.actorTaskId == who && r.actorTaskGeneration == Ref.Generation(who)
    ensures r.principalId == 1 && r.actionId == 1 && r.objectId == 1 && r.objectGeneration == 1
    ensures r.subjectTaskId == 2 && r.subjectTaskGeneration == 5 && r.requestSequence == number
  {
    hide RowOf, Ref.Word, Ref.Generation;
    RowIs(r);
    Joined(status, kind);
    var row := Ref.Row(position, kind, status, clock, who, number, thing, rights);
    assert RowOf(r)[1] == row[1] && RowOf(r)[4] == row[4] && RowOf(r)[5] == row[5] && RowOf(r)[6] == row[6];
    assert RowOf(r)[7] == row[7] && RowOf(r)[8] == row[8] && RowOf(r)[9] == row[9] && RowOf(r)[10] == row[10];
    assert RowOf(r)[11] == row[11] && RowOf(r)[12] == row[12] && RowOf(r)[13] == row[13] && RowOf(r)[14] == row[14];
    Halves(r.eventKind, r.status, kind, status);
    Halves(r.objectType, r.reservedZero, thing, 0);
  }

  lemma ListedIsInTable(r: EffectRecord, position: nat)
    requires Listed(RowOf(r), position) && r.recordSequence == position && r.decisionEpoch == position + 1
    requires r.WellFormed()
    ensures InTable(r, position)
  {
    hide RowOf, Ref.Row, Allowed;
    var line: Line :| RowOf(r) == line.RowAt(position) && line.Fits();
    AllowedBounds(line.kind, line.status, line.who, line.thing, line.rights);
    RowFields(r, position, line.kind, line.status, line.clock, line.who, line.number, line.thing, line.rights);
  }

  /** Every record of every reachable journal is a line of the table. */
  lemma EveryRecordInTable(supervisor: TaskContext, workload: TaskContext, frames: seq<TrapFrame>, k: nat)
    requires NewJournaled(supervisor, workload).Ok?
    requires k < |Reached(supervisor, workload, frames).state.journal.committed|
    ensures InTable(Reached(supervisor, workload, frames).state.journal.committed[k], k + 1)
  {
    hide InTable, View, Ref.Run, Ref.Supervising, RunJournaled, BootJournaled, NewJournaled, RowOf, JournalInv, Listed;
    EveryJournaledRunRefines(supervisor, workload, frames);
    RunListed(Ref.Supervising(RegistersOf(supervisor), RegistersOf(workload), true), frames) by {
      BeginsListed(RegistersOf(supervisor), RegistersOf(workload));
    }
    var m := Reached(supervisor, workload, frames);
    ReachedInv(supervisor, workload, frames);
    LogIs(m.state.runtime, TurnOf(m.phase), Some(LogOf(m.state.journal)));
    assert Listed(RowsOf(m.state.journal.committed)[k], k + 1);
    RecordsInOrder(m, k);
    ListedIsInTable(m.state.journal.committed[k], k + 1);
  }

  lemma BeginsListed(first: Ref.Registers, second: Ref.Registers)
    ensures LogListed(Ref.Supervising(first, second, true))
  {
  }

  lemma RecordsInOrder(m: JournaledMachine, k: nat)
    requires JournaledMachineInv(m) && k < |m.state.journal.committed|
    ensures var r := m.state.journal.committed[k];
            r.WellFormed() && r.recordSequence == k + 1 && r.decisionEpoch == k + 2
  {
    hide Inv, LiveInv;
  }

  // What a leaving supervisor tells ----------------------------------------------------------------

  /** The registers of a well-formed exit. */
  predicate Leaves(frame: TrapFrame) {
    frame.rax == 3 && frame.rdi == 0 && frame.rsi == 0 && frame.rdx == 0
  }

  /** What the reference machine makes of a first program that leaves an open request. */
  lemma LeaveStep(w: Ref.World, frame: Ref.Registers)
    requires w.supervised && w.turn == Ref.Of(1) && Leaves(frame) && w.line == []
    requires w.first.Present? && |w.first.names| == 16 && w.second.Present?
    requires w.desk.Some? && w.desk.value.ask.Some?
    ensures var w' := Ref.Step(w, frame);
            var approved := w.desk.value.ask.value.approved;
            && w'.turn == Ref.Of(2) && w'.first.Gone? && w'.second.Present?
            && w'.second.registers == w.second.registers.(rax := if approved then 17 else 16, rdx := 0)
            && (w.log.Some? && !w.log.value.closed ==>
                  && w'.log.Some? && w'.log.value.closed
                  && w'.log.value.rows == w.log.value.rows
                     + [Ref.Row(|w.log.value.rows| + 1, if approved then 4 else 3, if approved then 17 else 16,
                                Ref.Tick(w), 0, w.desk.value.ask.value.number, 3, 0)])
  {
    hide Ref.Row, Ref.Yield, Ref.Send, Ref.Receive, Ref.Duplicate, Ref.Close, Ref.Start, Ref.Submit, Ref.Inspect,
      Ref.Decide, Ref.Commit, Ref.Survey, Ref.Read;
  }

  /** A workload left waiting by its supervisor is told denied if nothing was decided, and otherwise expired. */
  lemma ToldOnDeparture(m: Machine, frame: TrapFrame)
    requires MachineInv(m) && m.phase == OnCpu(SENDER_TASK_ID) && m.state.receiver.state == BlockedApproval
    requires Leaves(frame)
    ensures var m' := Drive(m, frame);
            var told := if m.state.broker.state == BrokerPending then 16 else 17;
            && m'.phase == OnCpu(RECEIVER_TASK_ID)
            && RegistersOf(m'.state.receiver.context)
               == RegistersOf(m.state.receiver.context).(rax := told, rdx := 0)
  {
    hide Inv, View, Drive, Ref.Step, DeskOf;
    var s := m.state;
    StepRefines(m, frame);
    DriveProgress(m, frame);
    OpenDesk(s);
    ReadOff(s, Ref.Of(1), None, 1);
    ReadOff(s, Ref.Of(1), None, 2);
    SecondIs(s, Ref.Of(1), None);
    DeskIs(s, s.broker, Ref.Of(1), None);
    LineIs(s, 1);
    LeaveStep(Shown(m), frame);
    ReadOff(Drive(m, frame).state, TurnOf(Drive(m, frame).phase), None, 2);
  }

  lemma OpenDesk(s: RuntimeState)
    requires Runs(s, SENDER_TASK_ID) && s.receiver.state == BlockedApproval
    ensures s.profile == Supervised && DeskOf(s.broker).Some?
    ensures DeskOf(s.broker).value.ask
         == Some(Ref.Ask(s.broker.request.sequence, s.broker.request.argument, s.broker.state == BrokerApproved))
    ensures s.broker.state == BrokerPending || s.broker.state == BrokerApproved
  {
    BlockedIsSupervised(s);
    DeskFacts(s, SENDER_TASK_ID);
    hide Inv;
  }

  lemma BlockedIsSupervised(s: RuntimeState)
    requires Inv(s) && s.receiver.state == BlockedApproval
    ensures s.profile == Supervised
  {
    hide SlotInv, QueueInv;
  }

  /** With a journal, that status is the one in the closing record, which names the request and no actor. */
  lemma ToldAsRecorded(m: JournaledMachine, frame: TrapFrame)
    requires JournaledMachineInv(m) && m.phase == OnCpu(SENDER_TASK_ID)
    requires m.state.runtime.receiver.state == BlockedApproval && Leaves(frame)
    ensures var m' := DriveJournaled(m, frame);
            var before, after := m.state.journal.committed, m'.state.journal.committed;
            && m'.phase == OnCpu(RECEIVER_TASK_ID)
            && |after| == |before| + 1 && before <= after
            && after[|before|].status == m'.state.runtime.receiver.context.rax
            && after[|before|].status == (if m.state.runtime.broker.state == BrokerPending then 16 else 17)
            && after[|before|].eventKind == (if m.state.runtime.broker.state == BrokerPending then 3 else 4)
            && after[|before|].requestSequence == m.state.runtime.broker.request.sequence
            && after[|before|].actorTaskId == 0 && after[|before|].rights == 0
            && m'.state.runtime.receiver.context.rdx == 0
  {
    hide Inv, JournalInv, View, DriveJournaled, Ref.Step, DeskOf, RowOf, Ref.Row;
    var s, log := m.state.runtime, Some(LogOf(m.state.journal));
    JournaledStepRefines(m, frame);
    DriveJournaledProgress(m, frame);
    var m' := DriveJournaled(m, frame);
    OpenDesk(s);
    OpenIsLive(m);
    ReadOff(s, Ref.Of(1), log, 1);
    ReadOff(s, Ref.Of(1), log, 2);
    SecondIs(s, Ref.Of(1), log);
    DeskIs(s, s.broker, Ref.Of(1), log);
    LogIs(s, Ref.Of(1), log);
    LineIs(s, 1);
    LeaveStep(ShownWith(m), frame);
    ReadOff(m'.state.runtime, TurnOf(m'.phase), Some(LogOf(m'.state.journal)), 2);
    LogIs(m'.state.runtime, TurnOf(m'.phase), Some(LogOf(m'.state.journal)));
    var n := |m.state.journal.committed|;
    assert |LogOf(m'.state.journal).rows| == n + 1;
    var r := m'.state.journal.committed[n];
    assert RowOf(r) == LogOf(m'.state.journal).rows[n];
    RecordsInOrder(m', n);
    var approved := s.broker.state == BrokerApproved;
    RowFields(r, n + 1, if approved then 4 else 3, if approved then 17 else 16, Ref.Tick(ShownWith(m)), 0,
              s.broker.request.sequence, 3, 0);
  }

  lemma OpenIsLive(m: JournaledMachine)
    requires JournaledMachineInv(m) && m.phase == OnCpu(SENDER_TASK_ID)
    requires m.state.runtime.receiver.state == BlockedApproval
    ensures m.state.journal.state == JournalLive
  {
    hide Inv, JournalInv;
    OpenDesk(m.state.runtime);
    JournalFacts(m.state, SENDER_TASK_ID);
  }
}
