/**
 Every run of the journaled runtime, seen by the programs and by whoever reads the
 journal, is the run of the reference machine with its log.
 */
module JournalRefinement {
  import opened Words
  import opened TrapAbi
  import opened Capability
  import opened Runtime
  import opened RuntimeInvariant
  import opened RuntimeProgress
  import opened KernelDrive
  import opened Journal
  import opened Lifecycle
  import opened JournalInvariant
  import opened JournalProgress
  import opened JournalDrive
  import opened ReferenceView
  import opened TrapRefinement
  import opened BrokerRefinement
  import opened Refinement
  import Ref = Reference

  // Rows -------------------------------------------------------------------------------------------

  function RowOf(r: EffectRecord): (row: seq<u64>)
    ensures |row| == 16
  {
    seq(16, i requires 0 <= i < 16 => WordOrZero(r, i))
  }

  function RowsOf(records: seq<EffectRecord>): (rows: seq<seq<u64>>)
    ensures |rows| == |records|
  {
    seq(|records|, i requires 0 <= i < |records| => RowOf(records[i]))
  }

  function LogOf(j: Journal): Ref.Log {
    Ref.Log(RowsOf(j.committed), j.state != JournalLive)
  }

  ghost function SeenWith(j: Journaled, turn: Ref.Turn): Ref.World {
    View(j.runtime, turn, Some(LogOf(j.journal)))
  }

  ghost function ShownWith(m: JournaledMachine): Ref.World {
    SeenWith(m.state, TurnOf(m.phase))
  }

  ghost predicate JournalActs(r: JournaledTransition, expected: Ref.World) {
    r.Ok? && !r.value.1.Exit? && SeenWith(r.value.0, Ref.Of(r.value.1.task)) == expected
  }

  lemma RowIs(r: EffectRecord)
    ensures RowOf(r)
         == [r.schemaVersion + r.byteSize * 0x1_0000_0000, r.eventKind + r.status * 0x1_0000_0000, r.recordSequence,
             r.decisionEpoch, r.principalId, r.actorTaskId, r.actorTaskGeneration, r.subjectTaskId,
             r.subjectTaskGeneration, r.requestSequence, r.actionId, r.objectType + r.reservedZero * 0x1_0000_0000,
             r.objectId, r.objectGeneration, r.rights, r.trailingReservedZero]
  {
  }

  lemma SmallWord(status: TrapStatus, kind: EventKind)
    ensures Ref.Word(status.Code() * 0x1_0000_0000 + kind.Code()) == kind.Code() + status.Code() * 0x1_0000_0000
  {
    assert status.Code() <= 23 && kind.Code() <= 6;
  }

  /** What `Event` writes about a request of the workload, word by word. */
  lemma EventRow(kind: EventKind, status: TrapStatus, epoch: u64, who: u64, sequence: u64, argument: u64,
                 objectType: u64, rights: u64, position: u64)
    requires who <= 2 && 3 <= objectType <= 4
    ensures var record := Event(kind, status, epoch, who, Ref.Generation(who), CommitRequest(sequence, argument),
                                objectType, rights);
            RowOf(record.(recordSequence := position))
            == Ref.Row(position, kind.Code(), status.Code(), epoch, who, sequence, objectType, rights)
  {
    hide RowOf, TrapStatus.Code, EventKind.Code, Ref.Generation;
    var record := Event(kind, status, epoch, who, Ref.Generation(who), CommitRequest(sequence, argument),
                        objectType, rights).(recordSequence := position);
    RowIs(record);
    SmallWord(status, kind);
    assert Ref.Word(position) == position;
  }

  /** An appended record is one row more. */
  lemma NoteIs(s: RuntimeState, turn: Ref.Turn, j: Journal, j': Journal, record: EffectRecord, row: seq<u64>)
    requires j'.committed == j.committed + [record] && j'.state == j.state && RowOf(record) == row
    ensures LogOf(j') == LogOf(j).(rows := LogOf(j).rows + [row])
    ensures View(s, turn, Some(LogOf(j')))
         == View(s, turn, Some(LogOf(j))).(log := Some(LogOf(j).(rows := LogOf(j).rows + [row])))
  {
    hide HeldIn, NamesIn, DeskOf, RowOf;
  }

  /** Only the log differs. */
  lemma LogOnly(s: RuntimeState, turn: Ref.Turn, a: Option<Ref.Log>, b: Option<Ref.Log>)
    ensures View(s, turn, a) == View(s, turn, b).(log := a)
  {
    hide HeldIn, NamesIn, DeskOf;
  }

  // Reading ----------------------------------------------------------------------------------------

  lemma OutputIs(s: RuntimeState, task: u64, status: TrapStatus, values: (u64, u64, u64), log: Option<Ref.Log>)
    requires IsTask(task) && Here(Slot(s, task))
    ensures Seen(SetJournalOutput(s, task, status, values), task, log)
         == Ref.Tell4(Seen(s, task, log), task, status.Code(), values.0, values.1, values.2)
  {
    hide HeldIn, NamesIn, DeskOf, TrapStatus.Code;
  }

  lemma JournalFacts(j: Journaled, task: u64)
    requires JournaledRuns(j, task)
    ensures j.journal.state == JournalLive || j.journal.state == JournalSealed
    ensures j.runtime.profile == Supervised && j.journal.objectGeneration == 1
    ensures j.journal.nextSequence == |j.journal.committed| + 1 && |j.journal.committed| <= 16
    ensures forall k :: 0 <= k < |j.journal.committed| ==> j.journal.committed[k].recordSequence == k + 1
    ensures Undecided(j.runtime.broker) ==> j.journal.state == JournalLive
    ensures j.journal.state == JournalLive ==>
              && j.runtime.broker.decisionEpoch == |j.journal.committed| + 1
              && j.journal.reserved == ExpectedReservations(j.runtime.broker.state)
  {
    RunsNotDead(j, task);
    hide Inv, Scan;
  }

  lemma ReadAnswers(j: Journaled, task: u64)
    requires JournaledRuns(j, task)
    ensures var i := Slot(j.runtime, task).context;
            var refusal := Ref.Refusal(SeenWith(j, Ref.Of(task)), task, i.rdi, Ref.Book, Ref.MayRead);
            && AnswerOf(JournalReadStatus(j, task, i))
               == (if i.rax == 11 && (i.rsi != 0 || i.rdx != 0) then 1 else refusal)
            && JournalReadStatus(j, task, i) != Fail(StatusOk)
  {
    hide Inv, JournalInv, ResolveObject, Ref.Refusal, View, TrapStatus.Code;
    JournalFacts(j, task);
    var i := Slot(j.runtime, task).context;
    ObjectAnswers(j.runtime, task, i.rdi, OBJECT_EFFECT_JOURNAL, Ref.MayRead, 1, Some(LogOf(j.journal)));
    NotOk();
    Codes();
  }

  lemma WordsAreRow(record: EffectRecord, i: nat)
    ensures Ref.WordAt(RowOf(record), i) == WordOrZero(record, i)
  {
  }

  lemma ReadingCodes()
    ensures InvalidRecord.Code() == 23 && JournalFull.Code() == 21 && JournalUnavailable.Code() == 22
  {
  }

  /** The inventory and the thirds of a row, on a journal in good order. */
  lemma HandledRead(j: Journaled, task: u64, i: TaskContext, check: Outcome<TrapStatus>)
    requires IsTask(task) && JournalReadStatus(j, task, i) == check && HandleJournalRead(j, task, i).Ok?
    requires j.journal.state == JournalLive || j.journal.state == JournalSealed
    requires j.journal.nextSequence == |j.journal.committed| + 1 && |j.journal.committed| <= 16
    requires forall k :: 0 <= k < |j.journal.committed| ==> j.journal.committed[k].recordSequence == k + 1
    ensures var (status, values) :=
              match check
              case Fail(status) => (status, (0, 0, 0))
              case Pass =>
                var n := |j.journal.committed|;
                if i.rax == 11 then (StatusOk, (if n == 0 then 0 else 1, n + 1, n))
                else if i.rdx > 5 || i.rsi == 0 || i.rsi > n then (InvalidRecord, (0, 0, 0))
                else
                  var r := j.journal.committed[i.rsi - 1];
                  (StatusOk, (WordOrZero(r, i.rdx * 3), WordOrZero(r, i.rdx * 3 + 1), WordOrZero(r, i.rdx * 3 + 2)));
            HandleJournalRead(j, task, i)
            == Ok((j.(runtime := SetJournalOutput(j.runtime, task, status, values)), Resume(task)))
  {
    hide ValidateJournaled, JournalReadStatus, SetJournalOutput, WordOrZero;
  }

  lemma SurveyActs(j: Journaled, task: u64)
    requires JournaledRuns(j, task) && Slot(j.runtime, task).context.rax == 11
    ensures var i := Slot(j.runtime, task).context;
            JournalActs(HandleJournaledTrap(j, task), Ref.Survey(SeenWith(j, Ref.Of(task)), task, i.rdi, i.rsi, i.rdx))
  {
    hide Inv, JournalInv, View, HandleJournalRead, HandleTrap, JournalReadStatus, Ref.Refusal, Ref.Tell4,
      TrapStatus.Code, RowOf, SetJournalOutput, RowsOf, JournaledLands, Recorded;
    LandsWith(j, task);
    RunsIsRunning(j.runtime, task);
    ReadAnswers(j, task);
    JournalFacts(j, task);
    Codes();
    NotOk();
    var i, log := Slot(j.runtime, task).context, Some(LogOf(j.journal));
    LogIs(j.runtime, Ref.Of(task), log);
    var check := JournalReadStatus(j, task, i);
    HandledRead(j, task, i, check);
    if check.Fail? {
      OutputIs(j.runtime, task, check.error, (0, 0, 0), log);
    } else {
      var n := |j.journal.committed|;
      OutputIs(j.runtime, task, StatusOk, (if n == 0 then 0 else 1, n + 1, n), log);
    }
  }

  lemma LandsWith(j: Journaled, task: u64)
    requires JournaledRuns(j, task)
    ensures HandleJournaledTrap(j, task).Ok?
  {
    hide Inv, JournalInv, HandleJournaledTrap;
    JournaledTrapLands(j, task);
  }

  lemma ReadActs(j: Journaled, task: u64)
    requires JournaledRuns(j, task) && Slot(j.runtime, task).context.rax == 12
    ensures var i := Slot(j.runtime, task).context;
            JournalActs(HandleJournaledTrap(j, task), Ref.Read(SeenWith(j, Ref.Of(task)), task, i.rdi, i.rsi, i.rdx))
  {
    hide Inv, JournalInv, View, HandleJournalRead, HandleTrap, JournalReadStatus, Ref.Refusal, Ref.Tell4, WordOrZero,
      TrapStatus.Code, RowOf, SetJournalOutput, JournaledLands, Recorded, Ref.WordAt;
    LandsWith(j, task);
    RunsIsRunning(j.runtime, task);
    ReadAnswers(j, task);
    JournalFacts(j, task);
    ReadingCodes();
    Codes();
    NotOk();
    var i, log := Slot(j.runtime, task).context, Some(LogOf(j.journal));
    LogIs(j.runtime, Ref.Of(task), log);
    var check := JournalReadStatus(j, task, i);
    HandledRead(j, task, i, check);
    if check.Fail? {
      OutputIs(j.runtime, task, check.error, (0, 0, 0), log);
    } else if i.rdx > 5 || i.rsi == 0 || i.rsi > |j.journal.committed| {
      OutputIs(j.runtime, task, InvalidRecord, (0, 0, 0), log);
    } else {
      var r := j.journal.committed[i.rsi - 1];
      WordsAreRow(r, i.rdx * 3);
      WordsAreRow(r, i.rdx * 3 + 1);
      WordsAreRow(r, i.rdx * 3 + 2);
      OutputIs(j.runtime, task, StatusOk,
               (WordOrZero(r, i.rdx * 3), WordOrZero(r, i.rdx * 3 + 1), WordOrZero(r, i.rdx * 3 + 2)), log);
    }
  }

  // Writing ----------------------------------------------------------------------------------------

  /** The row goes into the log of whatever the programs see. */
  lemma NotedIs(s: RuntimeState, turn: Ref.Turn, j: Journal, j': Journal, kind: EventKind, status: TrapStatus,
                epoch: u64, who: u64, sequence: u64, argument: u64, objectType: u64, rights: u64)
    requires who <= 2 && 3 <= objectType <= 4 && j.nextSequence == |j.committed| + 1
    requires var record := Event(kind, status, epoch, who, Ref.Generation(who), CommitRequest(sequence, argument),
                                 objectType, rights);
             j'.committed == j.committed + [record.(recordSequence := j.nextSequence)] && j'.state == j.state
    ensures View(s, turn, Some(LogOf(j')))
         == Ref.Note(View(s, turn, Some(LogOf(j))), kind.Code(), status.Code(), epoch, who, sequence, objectType,
           rights)
  {
    hide View, Event, RowOf, Ref.Row, TrapStatus.Code, EventKind.Code, Ref.Generation;
    EventRow(kind, status, epoch, who, sequence, argument, objectType, rights, j.nextSequence);
    var record := Event(kind, status, epoch, who, Ref.Generation(who), CommitRequest(sequence, argument), objectType,
                        rights).(recordSequence := j.nextSequence);
    NoteIs(s, turn, j, j', record, RowOf(record));
    LogIs(s, turn, Some(LogOf(j)));
  }

  /** What a successful append does to the journal. */
  lemma Appended(j: Journal, record: EffectRecord, release: bool)
    ensures AppendReserved(j, record, release).Ok? ==>
              && AppendReserved(j, record, release).value.state == j.state
              && AppendReserved(j, record, release).value.committed
                 == j.committed + [record.(recordSequence := j.nextSequence)]
    ensures BeginLifecycle(j, record).Ok? ==>
              && BeginLifecycle(j, record).value.state == j.state
              && BeginLifecycle(j, record).value.committed == j.committed + [record.(recordSequence := j.nextSequence)]
  {
  }

  /** The trap the base runtime hands over to the journal. */
  lemma HandedOver(j: Journaled, task: u64)
    requires JournaledRuns(j, task)
    requires var rax := Slot(j.runtime, task).context.rax; rax != 11 && rax != 12
    ensures HandleTrap(j.runtime, task).Ok? && HandleJournaledTrap(j, task).Ok?
    ensures var (after, outcome) := HandleTrap(j.runtime, task).value;
            HandleJournaledTrap(j, task) == Recorded(j, after, task, Slot(j.runtime, task).context, outcome)
  {
    hide Inv, JournalInv, HandleTrap, Recorded;
    LandsWith(j, task);
    RunsIsRunning(j.runtime, task);
    TrapLands(j.runtime, task);
  }

  lemma SubmitHandled(s: RuntimeState, task: u64)
    requires RunningTask(s) == Ok(task)
    ensures var i := Slot(s, task).context;
            && (i.rax == 7 ==> HandleTrap(s, task) == SubmitApproval(s, task, i.rdi, i.rsi, i.rdx))
            && (i.rax == 9 ==> HandleTrap(s, task) == DecideApproval(s, task, i.rdi, i.rsi, i.rdx))
            && (i.rax == 10 ==> HandleTrap(s, task) == CommitEffect(s, task, i.rdi, i.rsi, i.rdx))
  {
    hide SubmitApproval, DecideApproval, CommitEffect, RunningTask;
  }

  /** The trap left nothing to record. */
  lemma UnrecordedActs(j: Journaled, after: RuntimeState, task: u64, outcome: TrapOutcome, expected: Ref.World)
    requires JournaledRuns(j, task) && !outcome.Exit?
    requires HandleJournaledTrap(j, task) == Sealed(j.(runtime := after), outcome) && HandleJournaledTrap(j, task).Ok?
    requires Seen(after, outcome.task, Some(LogOf(j.journal))) == expected
    ensures JournalActs(HandleJournaledTrap(j, task), expected)
  {
    hide JournaledRuns, HandleJournaledTrap, ValidateJournaled, LogOf;
  }

  lemma FinishIs(s: RuntimeState, task: u64, status: TrapStatus, value: u64)
    requires IsTask(task)
    ensures Finish(s, task, status, value).Ok? ==>
              Finish(s, task, status, value) == Ok((SetResult(s, task, status, value), Resume(task)))
    ensures SetResult(s, task, status, value).broker == s.broker
    ensures Slot(SetResult(s, task, status, value), task).context.rax == status.Code()
  {
    hide Validate;
  }

  /** A refused broker operation goes unrecorded, unless the effect was taken. */
  lemma RefusedActs(j: Journaled, task: u64, status: TrapStatus)
    requires JournaledRuns(j, task) && status != StatusOk
    requires var rax := Slot(j.runtime, task).context.rax;
            rax == 7 || rax == 9 || (rax == 10 && status != EffectUnavailable)
    requires HandleTrap(j.runtime, task) == Finish(j.runtime, task, status, 0)
    ensures JournalActs(HandleJournaledTrap(j, task), Ref.Tell(SeenWith(j, Ref.Of(task)), task, status.Code(), 0))
  {
    hide Inv, JournalInv, HandleTrap, Finish, View, Ref.Tell, SetResult, Sealed, TrapStatus.Code, JournalSubmit,
      JournalDecision, JournalCompleted, JournalFailed, HandleJournaledTrap;
    HandedOver(j, task);
    FinishIs(j.runtime, task, status, 0);
    CodesDiffer(status);
    AnswerActs(j.runtime, task, status, 0, Some(LogOf(j.journal)));
    var after := SetResult(j.runtime, task, status, 0);
    UnrecordedActs(j, after, task, Resume(task), Ref.Tell(SeenWith(j, Ref.Of(task)), task, status.Code(), 0));
  }

  lemma CodesDiffer(status: TrapStatus)
    ensures status.Code() == StatusOk.Code() <==> status == StatusOk
    ensures status.Code() == EffectUnavailable.Code() <==> status == EffectUnavailable
  {
  }

  /** A submit the journal cannot take is put back and answered. */
  lemma PutBackActs(j: Journaled, task: u64, status: TrapStatus)
    requires JournaledRuns(j, task) && RefuseSubmit(j, task, status).Ok?
    ensures JournalActs(RefuseSubmit(j, task, status), Ref.Tell(SeenWith(j, Ref.Of(task)), task, status.Code(), 0))
  {
    hide Inv, JournalInv, ValidateJournaled, View, Ref.Tell, SetResult, TrapStatus.Code;
    TellIs(j.runtime, task, status, 0, Ref.Of(task), Some(LogOf(j.journal)));
  }

  lemma SubmittedIs(b: Broker, argument: u64)
    requires b.decisionEpoch < U64_MAX
    ensures var b' := SubmittedBroker(b, 1, argument);
            && b'.state == BrokerPending && b'.requestPresent && b'.decisionEpoch == b.decisionEpoch + 1
            && b'.request == CommitRequest(b.nextSequence, argument)
  {
  }

  lemma SwitchingKeepsBroker(s: RuntimeState)
    ensures SwitchAway(s).Ok? ==> SwitchAway(s).value.0.broker == s.broker
  {
    hide Validate;
  }

  lemma SubmitPasses(s: RuntimeState, task: u64, handle: u64, kind: u64, argument: u64)
    requires Runs(s, task) && SubmitStatus(s, task, handle, kind).Pass? && s.broker.decisionEpoch < U64_MAX && kind == 1
    ensures var blocked := SetState(s.(broker := SubmittedBroker(s.broker, 1, argument)), task, BlockedApproval);
            SubmitApproval(s, task, handle, kind, argument).Ok? ==>
              SubmitApproval(s, task, handle, kind, argument) == SwitchAway(blocked)
              && SubmitApproval(s, task, handle, kind, argument).value.0.broker
                   == SubmittedBroker(s.broker, 1, argument)
  {
    hide Inv, Validate, SubmitStatus, SubmittedBroker, SwitchAway;
    SwitchingKeepsBroker(SetState(s.(broker := SubmittedBroker(s.broker, 1, argument)), task, BlockedApproval));
  }

  lemma SubmitRecords(j: Journaled, task: u64)
    requires JournaledRuns(j, task) && Slot(j.runtime, task).context.rax == 7
    ensures var i := Slot(j.runtime, task).context;
            JournalActs(HandleJournaledTrap(j, task), Ref.Submit(SeenWith(j, Ref.Of(task)), task, i.rdi, i.rsi, i.rdx))
  {
    hide Inv, JournalInv, View, HandleJournaledTrap, HandleTrap, SubmitApproval, SubmitStatus, Ref.SubmitRefusal,
      Ref.Tell, Ref.File, Ref.Next, Ref.Note, TrapStatus.Code, JournalActs, Recorded, RunningTask, DeskOf, RowsOf;
    var i, log := Slot(j.runtime, task).context, Some(LogOf(j.journal));
    HandedOver(j, task);
    RunsIsRunning(j.runtime, task);
    SubmitHandled(j.runtime, task);
    SubmitAnswers(j.runtime, task, i.rdi, i.rsi, log);
    JournalFacts(j, task);
    LogIs(j.runtime, Ref.Of(task), log);
    DeskIs(j.runtime, j.runtime.broker, Ref.Of(task), log);
    NotOk();
    var check := SubmitStatus(j.runtime, task, i.rdi, i.rsi);
    if check.Fail? {
      SubmitFails(j.runtime, task, i.rdi, i.rsi, i.rdx);
      RefusedActs(j, task, check.error);
    } else {
      SubmitPasses(j.runtime, task, i.rdi, i.rsi, i.rdx);
      SubmissionActs(j, i.rdx);
    }
  }

  lemma SubmitFails(s: RuntimeState, task: u64, handle: u64, kind: u64, argument: u64)
    requires IsTask(task) && SubmitStatus(s, task, handle, kind).Fail?
    ensures SubmitApproval(s, task, handle, kind, argument)
         == Finish(s, task, SubmitStatus(s, task, handle, kind).error, 0)
  {
    hide SubmitStatus, Finish;
  }

  /** The broker would take the request: the journal decides. */
  lemma SubmissionActs(j: Journaled, argument: u64)
    requires JournaledRuns(j, RECEIVER_TASK_ID) && j.runtime.sender.state == Ready
    requires Slot(j.runtime, RECEIVER_TASK_ID).context.rax == 7
    requires DeskOf(j.runtime.broker).Some? && !Undecided(j.runtime.broker) && j.runtime.broker.decisionEpoch < U64_MAX
    requires var b := SubmittedBroker(j.runtime.broker, 1, argument);
             HandleTrap(j.runtime, RECEIVER_TASK_ID)
             == SwitchAway(SetState(j.runtime.(broker := b), RECEIVER_TASK_ID, BlockedApproval))
    ensures var w := SeenWith(j, Ref.Of(2));
            && w.desk.Some?
            && JournalActs(HandleJournaledTrap(j, RECEIVER_TASK_ID),
                 if w.log.value.closed then Ref.Tell(w, 2, 22, 0)
                 else if |w.log.value.rows| + 3 > 16 then Ref.Tell(w, 2, 21, 0)
                 else
                   Ref.Next(Ref.File(Ref.Note(w, 1, 0, Ref.Tick(w), 2, Ref.Word(w.desk.value.asked + 1), 3, 16), 2,
                                     argument)))
  {
    hide Inv, JournalInv, View, HandleJournaledTrap, HandleTrap, Ref.Tell, Ref.File, Ref.Next, Ref.Note,
      TrapStatus.Code,
      SwitchAway, DeskOf, RowsOf, SubmittedBroker, RefuseSubmit, Event, BeginLifecycle, Sealed, AppendUnreserved,
        Ref.Word;
    var log := Some(LogOf(j.journal));
    var b := SubmittedBroker(j.runtime.broker, 1, argument);
    var blocked := SetState(j.runtime.(broker := b), RECEIVER_TASK_ID, BlockedApproval);
    HandedOver(j, RECEIVER_TASK_ID);
    JournalFacts(j, RECEIVER_TASK_ID);
    DeskFacts(j.runtime, RECEIVER_TASK_ID);
    SubmittedIs(j.runtime.broker, argument);
    SwitchingKeepsBroker(blocked);
    FiledDesk(j.runtime.broker, argument);
    LogIs(j.runtime, Ref.Of(2), log);
    DeskIs(j.runtime, j.runtime.broker, Ref.Of(2), log);
    ReadingCodes();
    BrokerBounded(j);
    var record := Event(Requested, StatusOk, b.decisionEpoch, RECEIVER_TASK_ID, WORKLOAD_GENERATION, b.request,
                        OBJECT_APPROVAL_BROKER, RIGHT_SUBMIT_APPROVAL);
    BeginsWhen(j.journal, Requested, StatusOk, b.decisionEpoch, b.request);
    if j.journal.state != JournalLive {
      PutBackActs(j, RECEIVER_TASK_ID, JournalUnavailable);
    } else if |j.journal.committed| + 3 > 16 {
      PutBackActs(j, RECEIVER_TASK_ID, JournalFull);
    } else {
      var journal := BeginLifecycle(j.journal, record).value;
      Appended(j.journal, record, false);
      Codes();
      NotedIs(j.runtime, Ref.Of(2), j.journal, journal, Requested, StatusOk, b.decisionEpoch, 2,
              j.runtime.broker.nextSequence, argument, 3, 16);
      FilingActs(j.runtime, argument, Some(LogOf(journal)));
      SealedActs(Journaled(SwitchAway(blocked).value.0, journal), SwitchAway(blocked).value.1);
    }
  }

  lemma BrokerBounded(j: Journaled)
    requires JournaledRuns(j, RECEIVER_TASK_ID) && !Undecided(j.runtime.broker) && DeskOf(j.runtime.broker).Some?
    ensures j.runtime.broker.decisionEpoch <= 17 && j.runtime.broker.state == BrokerEmpty
    ensures j.journal.state == JournalLive ==> j.journal.reserved == 0
  {
    hide Inv, Scan;
    DeskFacts(j.runtime, RECEIVER_TASK_ID);
    JournalFacts(j, RECEIVER_TASK_ID);
  }

  /** When the journal takes a new request. */
  lemma BeginsWhen(j: Journal, kind: EventKind, status: TrapStatus, epoch: u64, request: Request)
    requires j.nextSequence == |j.committed| + 1 && |j.committed| <= 16
    requires j.state == JournalLive ==> j.reserved == 0
    ensures var record := Event(kind, status, epoch, RECEIVER_TASK_ID, WORKLOAD_GENERATION, request,
                                OBJECT_APPROVAL_BROKER, RIGHT_SUBMIT_APPROVAL);
            var begun := BeginLifecycle(j, record);
            && (j.state != JournalLive ==> begun == Err(Unavailable))
            && (j.state == JournalLive && |j.committed| + 3 > 16 ==> begun == Err(Full))
            && (j.state == JournalLive && |j.committed| + 3 <= 16 ==> begun.Ok?)
  {
    hide TrapStatus.Code, EventKind.Code;
  }

  lemma SealedActs(j: Journaled, outcome: TrapOutcome)
    requires !outcome.Exit? && Sealed(j, outcome).Ok?
    ensures JournalActs(Sealed(j, outcome), Seen(j.runtime, outcome.task, Some(LogOf(j.journal))))
  {
    hide ValidateJournaled, LogOf, View;
  }

  // Decisions --------------------------------------------------------------------------------------

  lemma DecideFails(s: RuntimeState, task: u64, handle: u64, sequence: u64, decision: u64)
    requires IsTask(task) && DecideStatus(s, task, handle, sequence, decision).Fail?
    ensures DecideApproval(s, task, handle, sequence, decision)
         == Finish(s, task, DecideStatus(s, task, handle, sequence, decision).error, 0)
  {
    hide DecideStatus, Finish;
  }

  lemma DecidePasses(s: RuntimeState, handle: u64, sequence: u64, decision: u64)
    requires DecideStatus(s, SENDER_TASK_ID, handle, sequence, decision).Pass? && decision <= 2
    requires s.broker.decisionEpoch + 1 < U64_MAX
    ensures DecideApproval(s, SENDER_TASK_ID, handle, sequence, decision) == Decided(s, decision)
  {
    hide DecideStatus, Finish, WakeWorkload;
  }

  /** What a decision leaves of the broker, and what the supervisor reads. */
  lemma DecidedIs(s: RuntimeState, decision: u64)
    requires s.broker.decisionEpoch + 1 < U64_MAX && Decided(s, decision).Ok?
    ensures var after := Decided(s, decision).value.0;
            && after.broker.decisionEpoch == s.broker.decisionEpoch + 1
            && after.broker.state == (if decision == 1 then BrokerApproved else BrokerEmpty)
            && after.sender.context.rax == StatusOk.Code()
            && Decided(s, decision).value.1 == Resume(SENDER_TASK_ID)
  {
    hide Validate;
  }

  lemma DecideRecords(j: Journaled, task: u64)
    requires JournaledRuns(j, task) && Slot(j.runtime, task).context.rax == 9
    ensures var i := Slot(j.runtime, task).context;
            JournalActs(HandleJournaledTrap(j, task), Ref.Decide(SeenWith(j, Ref.Of(task)), task, i.rdi, i.rsi, i.rdx))
  {
    hide Inv, JournalInv, View, HandleJournaledTrap, HandleTrap, DecideApproval, DecideStatus, Ref.DecideRefusal,
      Ref.Tell, Ref.Settle, Ref.Approve, Ref.Wake, Ref.Note, TrapStatus.Code, JournalActs, Recorded, RunningTask,
        DeskOf,
      RowsOf, Finish, Decided, AskOf, DecidedView, Verdict, Ref.Decide, Ref.Tick, EventKind.Code;
    var i, log := Slot(j.runtime, task).context, Some(LogOf(j.journal));
    HandedOver(j, task);
    RunsIsRunning(j.runtime, task);
    SubmitHandled(j.runtime, task);
    DecideAnswers(j.runtime, task, i.rdi, i.rsi, i.rdx, log);
    JournalFacts(j, task);
    LogIs(j.runtime, Ref.Of(task), log);
    DeskIs(j.runtime, j.runtime.broker, Ref.Of(task), log);
    NotOk();
    var check := DecideStatus(j.runtime, task, i.rdi, i.rsi, i.rdx);
    DecideRefuses(SeenWith(j, Ref.Of(task)), task, i.rdi, i.rsi, i.rdx);
    if check.Fail? {
      DecideFails(j.runtime, task, i.rdi, i.rsi, i.rdx);
      RefusedActs(j, task, check.error);
    } else {
      DeskFacts(j.runtime, task);
      DecidePasses(j.runtime, i.rdi, i.rsi, i.rdx);
      DecisionActs(j, i.rsi, i.rdx);
      DecideNotes(SeenWith(j, Ref.Of(1)), i.rdi, i.rsi, i.rdx);
    }
  }

  lemma DecideRefuses(w: Ref.World, me: u64, handle: u64, number: u64, decision: u64)
    ensures var refusal := Ref.DecideRefusal(w, me, handle, number, decision);
            refusal != 0 ==> Ref.Decide(w, me, handle, number, decision) == Ref.Tell(w, me, refusal, 0)
  {
    hide Ref.DecideRefusal, Ref.Tell;
  }

  lemma DecideNotes(w: Ref.World, handle: u64, number: u64, decision: u64)
    requires Ref.DecideRefusal(w, 1, handle, number, decision) == 0 && decision <= 2
    requires w.desk.Some? && w.desk.value.clock + 1 < U64_MAX
    ensures var (kind, status) := Verdict(decision);
            Ref.Decide(w, 1, handle, number, decision)
            == DecidedView(Ref.Note(w, kind.Code(), status.Code(), Ref.Tick(w), 1, number, 3, 32), decision)
  {
    hide Ref.DecideRefusal, Ref.Tell, Ref.Settle, Ref.Approve, Ref.Note, Ref.Tick;
  }

  /** The row a decision calls for. */
  function Verdict(decision: u64): (EventKind, TrapStatus) {
    if decision == 1 then (Approved, StatusOk) else if decision == 0 then (Denied, ApprovalDenied)
    else (Expired, ApprovalExpired)
  }

  lemma DecisionActs(j: Journaled, sequence: u64, decision: u64)
    requires JournaledRuns(j, SENDER_TASK_ID) && decision <= 2 && DeskOf(j.runtime.broker).Some?
    requires Slot(j.runtime, SENDER_TASK_ID).context.rax == 9 && Slot(j.runtime, SENDER_TASK_ID).context.rdx == decision
    requires Undecided(j.runtime.broker) && j.runtime.broker.request.sequence == sequence
    requires decision == 1 ==> j.runtime.broker.state == BrokerPending
    requires j.runtime.broker.decisionEpoch + 1 < U64_MAX
    requires HandleTrap(j.runtime, SENDER_TASK_ID) == Decided(j.runtime, decision)
    ensures var w := SeenWith(j, Ref.Of(1));
            var (kind, status) := Verdict(decision);
            JournalActs(HandleJournaledTrap(j, SENDER_TASK_ID),
                        DecidedView(Ref.Note(w, kind.Code(), status.Code(), Ref.Tick(w), 1, sequence, 3, 32), decision))
  {
    hide Inv, JournalInv, View, HandleJournaledTrap, HandleTrap, DecidedView, Ref.Note, TrapStatus.Code, EventKind.Code,
      DeskOf, RowsOf, Event, AppendReserved, Sealed, Decided, AskOf, Ref.Word;
    var s, log := j.runtime, Some(LogOf(j.journal));
    var (kind, status) := Verdict(decision);
    var epoch := s.broker.decisionEpoch + 1;
    HandedOver(j, SENDER_TASK_ID);
    JournalFacts(j, SENDER_TASK_ID);
    DeskFacts(s, SENDER_TASK_ID);
    DeskIs(s, s.broker, Ref.Of(1), log);
    DecidedIs(s, decision);
    ClockTicks(s.broker);
    var after := Decided(s, decision).value.0;
    var record := Event(kind, status, epoch, SENDER_TASK_ID, SUPERVISOR_GENERATION, s.broker.request,
                        OBJECT_APPROVAL_BROKER, RIGHT_DECIDE_APPROVAL);
    var release := decision == 0 || (decision == 2 && s.broker.state == BrokerPending);
    DecisionRecorded(j, after, decision);
    Appended(j.journal, record, release);
    var journal := AppendReserved(j.journal, record, release).value;
    NotedIs(s, Ref.Of(1), j.journal, journal, kind, status, epoch, 1, sequence, s.broker.request.argument, 3, 32);
    DecidingActs(s, decision, Some(LogOf(journal)));
    SealedActs(Journaled(after, journal), Resume(SENDER_TASK_ID));
  }

  lemma ClockTicks(b: Broker)
    requires DeskOf(b).Some? && b.decisionEpoch < U64_MAX
    ensures DeskOf(b).value.clock == b.decisionEpoch && Ref.Word(DeskOf(b).value.clock + 1) == b.decisionEpoch + 1
  {
  }

  lemma DecisionRecorded(j: Journaled, after: RuntimeState, decision: u64)
    requires decision <= 2 && j.runtime.broker.requestPresent && after.sender.context.rax == StatusOk.Code()
    requires after.broker.state == (if decision == 1 then BrokerApproved else BrokerEmpty)
    requires Slot(j.runtime, SENDER_TASK_ID).context.rax == 9 && Slot(j.runtime, SENDER_TASK_ID).context.rdx == decision
    requires Recorded(j, after, SENDER_TASK_ID, j.runtime.sender.context, Resume(SENDER_TASK_ID)).Ok?
    ensures var (kind, status) := Verdict(decision);
            var record := Event(kind, status, after.broker.decisionEpoch, SENDER_TASK_ID, SUPERVISOR_GENERATION,
                                j.runtime.broker.request, OBJECT_APPROVAL_BROKER, RIGHT_DECIDE_APPROVAL);
            var release := decision == 0 || (decision == 2 && j.runtime.broker.state == BrokerPending);
            && AppendReserved(j.journal, record, release).Ok?
            && Recorded(j, after, SENDER_TASK_ID, j.runtime.sender.context, Resume(SENDER_TASK_ID))
               == Sealed(Journaled(after, AppendReserved(j.journal, record, release).value), Resume(SENDER_TASK_ID))
  {
    hide Event, AppendReserved, Sealed, TrapStatus.Code;
  }

  // Commits ----------------------------------------------------------------------------------------

  lemma CommitFails(s: RuntimeState, task: u64, handle: u64, sequence: u64, argument: u64)
    requires IsTask(task) && CommitStatus(s, task, handle, sequence, argument).Fail?
    ensures CommitEffect(s, task, handle, sequence, argument)
         == Finish(s, task, CommitStatus(s, task, handle, sequence, argument).error, 0)
  {
    hide CommitStatus, Finish;
  }

  lemma CommitRecords(j: Journaled, task: u64)
    requires JournaledRuns(j, task) && Slot(j.runtime, task).context.rax == 10
    ensures var i := Slot(j.runtime, task).context;
            JournalActs(HandleJournaledTrap(j, task), Ref.Commit(SeenWith(j, Ref.Of(task)), task, i.rdi, i.rsi, i.rdx))
  {
    hide Inv, JournalInv, View, HandleJournaledTrap, HandleTrap, CommitStatus, Ref.CommitRefusal, Ref.Tell, Ref.Settle,
      Ref.Note, TrapStatus.Code, JournalActs, Recorded, RunningTask, DeskOf, RowsOf, Finish, CommitEffect;
    var i, log := Slot(j.runtime, task).context, Some(LogOf(j.journal));
    HandedOver(j, task);
    RunsIsRunning(j.runtime, task);
    SubmitHandled(j.runtime, task);
    CommitAnswers(j.runtime, task, i.rdi, i.rsi, i.rdx, log);
    LogIs(j.runtime, Ref.Of(task), log);
    NotOk();
    BrokerCodes();
    CommitCodes(AnswerOf(CommitStatus(j.runtime, task, i.rdi, i.rsi, i.rdx)),
                CommitStatus(j.runtime, task, i.rdi, i.rsi, i.rdx));
    var check := CommitStatus(j.runtime, task, i.rdi, i.rsi, i.rdx);
    if check == Pass {
      CompletionActs(j, i.rdi, i.rsi, i.rdx);
    } else {
      CommitFails(j.runtime, task, i.rdi, i.rsi, i.rdx);
      if check == Fail(EffectUnavailable) {
        FailureActs(j, i.rsi, i.rdx);
      } else {
        RefusedActs(j, task, check.error);
      }
    }
  }

  lemma CommitCodes(code: u64, check: Outcome<TrapStatus>)
    requires code == AnswerOf(check) && check != Fail(StatusOk)
    ensures code == 18 <==> check == Fail(EffectUnavailable)
    ensures code == 0 <==> check == Pass
  {
  }

  lemma CommitPasses(s: RuntimeState, handle: u64, sequence: u64, argument: u64)
    requires Runs(s, SENDER_TASK_ID) && CommitStatus(s, SENDER_TASK_ID, handle, sequence, argument).Pass?
    requires s.broker.decisionEpoch < U64_MAX && CommitEffect(s, SENDER_TASK_ID, handle, sequence, argument).Ok?
    ensures var b := s.broker.ClearRequest().(state := BrokerEmpty, decisionEpoch := s.broker.decisionEpoch + 1);
            var woken := WakeWorkload(s.(effect := s.effect.(occupied := true, value := argument), broker := b),
                                      StatusOk, argument);
            && woken.Ok?
            && CommitEffect(s, SENDER_TASK_ID, handle, sequence, argument)
               == Finish(woken.value, SENDER_TASK_ID, StatusOk, 0)
            && CommitEffect(s, SENDER_TASK_ID, handle, sequence, argument).value.0.broker == b
            && CommitEffect(s, SENDER_TASK_ID, handle, sequence, argument).value.0.sender.context.rax == StatusOk.Code()
            && CommitEffect(s, SENDER_TASK_ID, handle, sequence, argument).value.1 == Resume(SENDER_TASK_ID)
  {
    CommitNeverExpired(s, SENDER_TASK_ID, handle, sequence, argument);
    hide Inv, CommitStatus, Validate;
  }

  lemma CompletionRecorded(j: Journaled, after: RuntimeState)
    requires j.runtime.broker.state == BrokerApproved && after.broker.state == BrokerEmpty
    requires after.sender.context.rax == StatusOk.Code() && j.runtime.sender.context.rax == 10
    requires Recorded(j, after, SENDER_TASK_ID, j.runtime.sender.context, Resume(SENDER_TASK_ID)).Ok?
    ensures var record := Event(Completed, StatusOk, after.broker.decisionEpoch, SENDER_TASK_ID, SUPERVISOR_GENERATION,
                                j.runtime.broker.request, OBJECT_TEST_EFFECT, RIGHT_COMMIT_EFFECT);
            && AppendReserved(j.journal, record, false).Ok?
            && Recorded(j, after, SENDER_TASK_ID, j.runtime.sender.context, Resume(SENDER_TASK_ID))
               == Sealed(Journaled(after, AppendReserved(j.journal, record, false).value), Resume(SENDER_TASK_ID))
  {
    hide Event, AppendReserved, Sealed, TrapStatus.Code;
  }

  /** A commit that writes the effect closes its lifecycle as completed. */
  lemma CompletionActs(j: Journaled, handle: u64, sequence: u64, argument: u64)
    requires JournaledRuns(j, SENDER_TASK_ID) && Slot(j.runtime, SENDER_TASK_ID).context.rax == 10
    requires CommitStatus(j.runtime, SENDER_TASK_ID, handle, sequence, argument).Pass?
    requires j.runtime.broker.state == BrokerApproved && j.runtime.broker.decisionEpoch < U64_MAX
    requires DeskOf(j.runtime.broker).Some? && j.runtime.broker.request == CommitRequest(sequence, argument)
    requires HandleTrap(j.runtime, SENDER_TASK_ID)
          == CommitEffect(j.runtime, SENDER_TASK_ID, handle, sequence, argument)
    ensures var w := SeenWith(j, Ref.Of(1));
            JournalActs(HandleJournaledTrap(j, SENDER_TASK_ID),
                        Ref.Tell(Ref.Settle(Ref.Note(w, 5, 0, Ref.Tick(w), 1, sequence, 4, 64).(deed := Some(argument)),
                                            0, argument), 1, 0, 0))
  {
    hide Inv, JournalInv, View, HandleJournaledTrap, HandleTrap, Ref.Note, Ref.Settle, Ref.Tell, TrapStatus.Code,
      DeskOf,
      RowsOf, Event, AppendReserved, Sealed, AskOf, Ref.Word, Finish, WakeWorkload, CommitStatus, CommitEffect,
        Recorded;
    var s, log := j.runtime, Some(LogOf(j.journal));
    var epoch := s.broker.decisionEpoch + 1;
    HandedOver(j, SENDER_TASK_ID);
    JournalFacts(j, SENDER_TASK_ID);
    DeskIs(s, s.broker, Ref.Of(1), log);
    ClockTicks(s.broker);
    Codes();
    CommitPasses(s, handle, sequence, argument);
    var after := CommitEffect(s, SENDER_TASK_ID, handle, sequence, argument).value.0;
    var record := Event(Completed, StatusOk, epoch, SENDER_TASK_ID, SUPERVISOR_GENERATION, s.broker.request,
                        OBJECT_TEST_EFFECT, RIGHT_COMMIT_EFFECT);
    CompletionRecorded(j, after);
    Appended(j.journal, record, false);
    var journal := AppendReserved(j.journal, record, false).value;
    NotedIs(s, Ref.Of(1), j.journal, journal, Completed, StatusOk, epoch, 1, sequence, argument, 4, 64);
    CommittingActs(s, argument, Some(LogOf(journal)));
    SealedActs(Journaled(after, journal), Resume(SENDER_TASK_ID));
  }

  /** The settled request, woken author and answered caller of a refused effect. */
  function FailedEffect(s: RuntimeState): Result<RuntimeState, RuntimeError>
    requires s.broker.decisionEpoch < U64_MAX
  {
    var told := SetResult(s, SENDER_TASK_ID, EffectUnavailable, 0);
    var b := s.broker.ClearRequest().(state := BrokerEmpty, decisionEpoch := s.broker.decisionEpoch + 1);
    var woken :- WakeWorkload(told.(broker := b), EffectUnavailable, 0);
    Ok(SetResult(woken, SENDER_TASK_ID, EffectUnavailable, 0))
  }

  lemma FailureRecorded(j: Journaled)
    requires j.runtime.broker.state == BrokerApproved && j.runtime.broker.decisionEpoch < U64_MAX
    requires j.runtime.sender.context.rax == 10
    requires Recorded(j, SetResult(j.runtime, SENDER_TASK_ID, EffectUnavailable, 0), SENDER_TASK_ID,
                      j.runtime.sender.context, Resume(SENDER_TASK_ID)).Ok?
    ensures var record := Event(Failed, EffectUnavailable, j.runtime.broker.decisionEpoch + 1, SENDER_TASK_ID,
                                SUPERVISOR_GENERATION, j.runtime.broker.request, OBJECT_TEST_EFFECT,
                                RIGHT_COMMIT_EFFECT);
            && AppendReserved(j.journal, record, false).Ok? && FailedEffect(j.runtime).Ok?
            && Recorded(j, SetResult(j.runtime, SENDER_TASK_ID, EffectUnavailable, 0), SENDER_TASK_ID,
                        j.runtime.sender.context, Resume(SENDER_TASK_ID))
               == Sealed(Journaled(FailedEffect(j.runtime).value, AppendReserved(j.journal, record, false).value),
                         Resume(SENDER_TASK_ID))
  {
    hide Event, AppendReserved, Sealed, WakeWorkload;
  }

  lemma FailedEffectIs(s: RuntimeState, log: Option<Ref.Log>)
    requires Here(s.sender) && DeskOf(s.broker).Some? && s.broker.decisionEpoch < U64_MAX && 1 <= s.broker.nextSequence
    requires FailedEffect(s).Ok?
    ensures Seen(FailedEffect(s).value, 1, log) == Ref.Tell(Ref.Settle(Seen(s, 1, log), 18, 0), 1, 18, 0)
  {
    hide View, DeskOf, WakeWorkload, Ref.Settle, Ref.Tell, TrapStatus.Code;
    BrokerCodes();
    var told := SetResult(s, SENDER_TASK_ID, EffectUnavailable, 0);
    var b := s.broker.ClearRequest().(state := BrokerEmpty, decisionEpoch := s.broker.decisionEpoch + 1);
    var woken := WakeWorkload(told.(broker := b), EffectUnavailable, 0).value;
    TellIs(s, SENDER_TASK_ID, EffectUnavailable, 0, Ref.Of(1), log);
    SettleIs(told, EffectUnavailable, 0, Ref.Of(1), log);
    WakingKeepsCaller(told.(broker := b), EffectUnavailable, 0);
    TellIs(woken, SENDER_TASK_ID, EffectUnavailable, 0, Ref.Of(1), log);
    LastTellCounts(Seen(s, 1, log), 18, 0);
  }

  lemma LastTellCounts(w: Ref.World, answer: u64, value: u64)
    ensures Ref.Tell(Ref.Settle(Ref.Tell(w, 1, answer, value), answer, value), 1, answer, value)
         == Ref.Tell(Ref.Settle(w, answer, value), 1, answer, value)
  {
  }

  lemma FailureActs(j: Journaled, sequence: u64, argument: u64)
    requires JournaledRuns(j, SENDER_TASK_ID) && Slot(j.runtime, SENDER_TASK_ID).context.rax == 10
    requires j.runtime.broker.state == BrokerApproved && j.runtime.broker.decisionEpoch < U64_MAX
    requires DeskOf(j.runtime.broker).Some? && j.runtime.broker.request == CommitRequest(sequence, argument)
    requires HandleTrap(j.runtime, SENDER_TASK_ID) == Finish(j.runtime, SENDER_TASK_ID, EffectUnavailable, 0)
    ensures var w := SeenWith(j, Ref.Of(1));
            JournalActs(HandleJournaledTrap(j, SENDER_TASK_ID),
                        Ref.Tell(Ref.Settle(Ref.Note(w, 6, 18, Ref.Tick(w), 1, sequence, 4, 64), 18, 0), 1, 18, 0))
  {
    hide Inv, JournalInv, View, HandleJournaledTrap, HandleTrap, Ref.Note, Ref.Settle, Ref.Tell, TrapStatus.Code,
      DeskOf,
      RowsOf, Event, AppendReserved, Sealed, AskOf, Ref.Word, Finish, Recorded, SetResult, FailedEffect;
    var s, log := j.runtime, Some(LogOf(j.journal));
    var epoch := s.broker.decisionEpoch + 1;
    HandedOver(j, SENDER_TASK_ID);
    JournalFacts(j, SENDER_TASK_ID);
    DeskFacts(s, SENDER_TASK_ID);
    DeskIs(s, s.broker, Ref.Of(1), log);
    ClockTicks(s.broker);
    BrokerCodes();
    FinishIs(s, SENDER_TASK_ID, EffectUnavailable, 0);
    FailureRecorded(j);
    var record := Event(Failed, EffectUnavailable, epoch, SENDER_TASK_ID, SUPERVISOR_GENERATION, s.broker.request,
                        OBJECT_TEST_EFFECT, RIGHT_COMMIT_EFFECT);
    Appended(j.journal, record, false);
    var journal := AppendReserved(j.journal, record, false).value;
    NotedIs(s, Ref.Of(1), j.journal, journal, Failed, EffectUnavailable, epoch, 1, sequence, argument, 4, 64);
    FailedEffectIs(s, Some(LogOf(journal)));
    SealedActs(Journaled(FailedEffect(s).value, journal), Resume(SENDER_TASK_ID));
  }

  // Any trap ---------------------------------------------------------------------------------------

  /** Operations the journal takes no part in act the same whatever the log holds. */
  lemma PlainActs(s: RuntimeState, task: u64, log: Option<Ref.Log>)
    requires Runs(s, task) && !Exits(Slot(s, task).context)
    requires var rax := Slot(s, task).context.rax; rax !in {7, 9, 10, 11, 12}
    ensures var w := Seen(s, task, log);
            Ref.At(w, task).Present? && |Ref.At(w, task).names| == 16
              && Acts(HandleTrap(s, task), Ref.Act(w, task), log)
  {
    hide Inv, View, Acts, Yield, Send, Receive, DuplicateTrap, CloseTrap, StartWorkload, InspectApproval, Finish,
      Refuse,
      Ref.Tell, Ref.Yield, Ref.Send, Ref.Receive, Ref.Duplicate, Ref.Close, Ref.Start, Ref.Inspect, TrapStatus.Code;
    CallerIs(s, task, log);
    RunsIsRunning(s, task);
    TrapLands(s, task);
    Codes();
    AnswerActs(s, task, InvalidOperation, 0, log);
    var i := Slot(s, task).context;
    match i.rax {
      case 0 => YieldActs(s, task, log);
      case 1 => SendActs(s, task, i.rdi, i.rsi, i.rdx, log);
      case 2 => ReceiveActs(s, task, i.rdi, i.rsi, i.rdx, log);
      case 4 => DuplicateActs(s, task, i.rdi, i.rsi, i.rdx, log);
      case 5 => CloseActs(s, task, i.rdi, i.rsi, i.rdx, log);
      case 6 => StartActs(s, task, i.rdi, i.rsi, i.rdx, log);
      case 8 => InspectActs(s, task, i.rdi, i.rsi, i.rdx, log);
      case _ =>
    }
  }

  lemma OtherRecords(j: Journaled, task: u64)
    requires JournaledRuns(j, task) && !Exits(Slot(j.runtime, task).context)
    requires var rax := Slot(j.runtime, task).context.rax; rax !in {7, 9, 10, 11, 12}
    ensures var w := SeenWith(j, Ref.Of(task));
            Ref.At(w, task).Present? && |Ref.At(w, task).names| == 16
            && JournalActs(HandleJournaledTrap(j, task), Ref.Act(w, task))
  {
    hide Inv, JournalInv, View, HandleTrap, HandleJournaledTrap, Ref.Act, Sealed;
    HandedOver(j, task);
    PlainActs(j.runtime, task, Some(LogOf(j.journal)));
    var (after, outcome) := HandleTrap(j.runtime, task).value;
    UnrecordedActs(j, after, task, outcome, Ref.Act(SeenWith(j, Ref.Of(task)), task));
  }

  lemma JournaledTrapActs(j: Journaled, task: u64)
    requires JournaledRuns(j, task) && !Exits(Slot(j.runtime, task).context)
    ensures var w := SeenWith(j, Ref.Of(task));
            Ref.At(w, task).Present? && |Ref.At(w, task).names| == 16
            && JournalActs(HandleJournaledTrap(j, task), Ref.Act(w, task))
  {
    hide Inv, JournalInv, View, HandleJournaledTrap, JournalActs, Ref.Submit, Ref.Decide, Ref.Commit, Ref.Survey,
      Ref.Read, Ref.Yield, Ref.Send, Ref.Receive, Ref.Duplicate, Ref.Close, Ref.Start, Ref.Inspect, Ref.Tell;
    CallerIs(j.runtime, task, Some(LogOf(j.journal)));
    var i := Slot(j.runtime, task).context;
    match i.rax {
      case 7 => SubmitRecords(j, task);
      case 9 => DecideRecords(j, task);
      case 10 => CommitRecords(j, task);
      case 11 => SurveyActs(j, task);
      case 12 => ReadActs(j, task);
      case _ => OtherRecords(j, task);
    }
  }

  // Leaving ----------------------------------------------------------------------------------------

  /** Sealing closes the open request with the system as its actor, and then the journal. */
  lemma SealIs(j: Journaled, s: RuntimeState, turn: Ref.Turn, task: u64)
    requires JournalInv(j) && j.journal.state != JournalDead && Runs(s, task) && s.broker == j.runtime.broker
    requires s.profile == Supervised
    ensures SealForTeardown(j).Ok?
    ensures var w := View(s, turn, Some(LogOf(j.journal)));
            Ref.CloseBook(w) == w.(log := Some(LogOf(SealForTeardown(j).value.journal)))
  {
    hide Inv, JournalInv, View, DeskOf, Event, AppendReserved, RowsOf, Ref.Note, TrapStatus.Code, EventKind.Code,
      Ref.Word, SealForTeardown;
    SealLands(j);
    SealedFacts(j);
    var log := Some(LogOf(j.journal));
    LogIs(s, turn, log);
    DeskIs(s, s.broker, turn, log);
    DeskFacts(s, task);
    var b := j.runtime.broker;
    if j.journal.state == JournalLive {
      if b.requestPresent {
        ClosingRow(j, s, turn, task);
      } else {
        QuietSeal(j);
      }
    } else {
      SealedAlready(j);
    }
  }

  lemma SealedFacts(j: Journaled)
    requires JournalInv(j) && j.journal.state != JournalDead
    ensures j.runtime.profile == Supervised && (j.journal.state == JournalLive || j.journal.state == JournalSealed)
    ensures j.journal.nextSequence == |j.journal.committed| + 1 && |j.journal.committed| <= 16
    ensures j.runtime.broker.decisionEpoch <= 17
    ensures j.journal.state == JournalLive ==> DeskOf(j.runtime.broker).Some?
  {
    hide Inv, Scan;
    if j.journal.state == JournalLive { LiveDesk(j); }
  }

  lemma LiveDesk(j: Journaled)
    requires JournalInv(j) && j.journal.state == JournalLive
    ensures DeskOf(j.runtime.broker).Some?
  {
    hide Scan, EpochsSound, SlotInv;
  }

  lemma SealedAlready(j: Journaled)
    requires j.journal.state == JournalSealed
    ensures SealForTeardown(j) == Ok(j)
  {
  }

  lemma QuietSeal(j: Journaled)
    requires j.journal.state == JournalLive && !j.runtime.broker.requestPresent && SealForTeardown(j).Ok?
    ensures SealForTeardown(j).value.journal == j.journal.(state := JournalSealed)
  {
  }

  lemma ClosingRow(j: Journaled, s: RuntimeState, turn: Ref.Turn, task: u64)
    requires JournalInv(j) && j.journal.state == JournalLive && Runs(s, task) && s.broker == j.runtime.broker
    requires s.profile == Supervised && s.broker.requestPresent && SealForTeardown(j).Ok?
    ensures var w := View(s, turn, Some(LogOf(j.journal)));
            && w.desk.Some? && w.desk.value.ask.Some?
            && Ref.CloseBook(w) == w.(log := Some(LogOf(SealForTeardown(j).value.journal)))
  {
    hide Inv, JournalInv, View, DeskOf, Event, AppendReserved, Ref.Note, TrapStatus.Code, EventKind.Code, Ref.Word;
    SealedFacts(j);
    var b, log := j.runtime.broker, Some(LogOf(j.journal));
    LogIs(s, turn, log);
    DeskIs(s, s.broker, turn, log);
    DeskFacts(s, task);
    ClockTicks(b);
    BrokerCodes();
    KindCodes();
    var pending := b.state == BrokerPending;
    var kind, status := if pending then Denied else Expired, if pending then ApprovalDenied else ApprovalExpired;
    var record := Event(kind, status, b.decisionEpoch + 1, 0, 0, b.request, OBJECT_APPROVAL_BROKER, 0);
    Appended(j.journal, record, pending);
    var journal := AppendReserved(j.journal, record, pending).value;
    assert SealForTeardown(j).value.journal == journal.(state := JournalSealed);
    NotedIs(s, turn, j.journal, journal, kind, status, b.decisionEpoch + 1, 0, b.request.sequence,
      b.request.argument, 3,
            0);
    LogOnly(s, turn, Some(LogOf(journal)), log);
    LogIs(s, turn, Some(LogOf(journal)));
  }

  lemma KindCodes()
    ensures Denied.Code() == 3 && Expired.Code() == 4
  {
  }

  /** What the log holds makes no difference to waking or leaving. */
  lemma LogPasses(w: Ref.World, log: Option<Ref.Log>, who: u64, answer: u64, value: u64)
    ensures Ref.Wake(w.(log := log), answer, value) == Ref.Wake(w, answer, value).(log := log)
    ensures Ref.Put(w.(log := log), who, Ref.Gone) == Ref.Put(w, who, Ref.Gone).(log := log)
  {
  }

  /** A departure, log aside. */
  lemma DepartLog(w: Ref.World, me: u64)
    requires w.log.Some? && Ref.CloseBook(w) == w.(log := Ref.CloseBook(w).log)
    ensures Ref.Depart(w, me) == Ref.Depart(w.(log := None), me).(log := Ref.CloseBook(w).log)
  {
    hide Ref.CloseBook, Ref.Wake, Ref.Put;
    var log, quiet := Ref.CloseBook(w).log, w.(log := None);
    NothingToClose(quiet);
    assert w.(log := log) == quiet.(log := log);
    LogPasses(quiet, log, me, 0, 0);
    var without := Ref.Put(quiet, me, Ref.Gone);
    LogPasses(without, log, me, Ref.PEER_GONE, 0);
    LogPasses(without.(desk := None, deed := None), log, me, Ref.EXPIRED, 0);
    LogPasses(without.(desk := None, deed := None), log, me, Ref.DENIED, 0);
  }

  lemma NothingToClose(w: Ref.World)
    requires w.log.None?
    ensures Ref.CloseBook(w) == w
  {
  }

  /** The clock of a desk that is shut shows to nobody. */
  lemma ShutDesk(s: RuntimeState, epoch: u64, turn: Ref.Turn, log: Option<Ref.Log>)
    requires s.broker.state == BrokerClosing
    ensures View(WithEpoch(s, epoch), turn, log) == View(s, turn, log)
  {
    hide HeldIn, NamesIn;
  }

  /** Where the runtime stands after the sealed half of the teardown. */
  lemma BegunIs(s: RuntimeState, task: u64, epoch: u64, turn: Ref.Turn)
    requires Runs(s, task) && s.profile == Supervised && Leaving(SetState(s, task, Exited), task)
    requires s.broker.decisionEpoch <= epoch && (task == RECEIVER_TASK_ID ==> epoch == s.broker.decisionEpoch)
    ensures var begun := BeginTeardown(WithEpoch(SetState(s, task, Exited), epoch), task);
            begun.Ok? && View(begun.value, turn, None) == Ref.Depart(View(s, turn, None), task)
  {
    hide Inv, View, BeginTeardown, Ref.Depart;
    var left := SetState(s, task, Exited);
    BeginIs(s, task, turn);
    if task == SENDER_TASK_ID {
      SupervisorShifts(left, epoch);
      ShutDesk(BeginTeardown(left, task).value, epoch, turn, None);
    } else {
      SameEpoch(s, task);
    }
  }

  lemma SameEpoch(s: RuntimeState, task: u64)
    requires IsTask(task)
    ensures WithEpoch(SetState(s, task, Exited), s.broker.decisionEpoch) == SetState(s, task, Exited)
  {
  }

  lemma SupervisorShifts(s: RuntimeState, epoch: u64)
    requires Leaving(s, SENDER_TASK_ID) && s.profile == Supervised && s.broker.decisionEpoch <= epoch
    ensures BeginTeardown(s, SENDER_TASK_ID).Ok? && BeginTeardown(s, SENDER_TASK_ID).value.broker.state == BrokerClosing
    ensures BeginTeardown(WithEpoch(s, epoch), SENDER_TASK_ID)
         == Ok(WithEpoch(BeginTeardown(s, SENDER_TASK_ID).value, epoch))
  {
    hide Inv, Validate, CloseTable;
    BeginTeardownLands(s, SENDER_TASK_ID);
    SupervisorLeavesAt(s, epoch);
  }

  lemma JournaledBeginIs(j: Journaled, s: RuntimeState, task: u64, turn: Ref.Turn)
    requires JournalInv(j) && j.journal.state != JournalDead && Runs(s, task) && j.runtime == SetState(s, task, Exited)
    requires Leaving(j.runtime, task)
    ensures var begun := BeginJournaledTeardown(j, task);
            begun.Ok? && SeenWith(begun.value, turn) == Ref.Depart(View(s, turn, Some(LogOf(j.journal))), task)
  {
    hide Inv, JournalInv, View, ValidateJournaled, SealForTeardown, BeginTeardown, Ref.Depart, Ref.CloseBook, LogOf;
    BeginJournaledLands(j, task);
    SealLands(j);
    SealedFacts(j);
    SealIs(j, s, turn, task);
    var closed := SealForTeardown(j).value;
    RequestPresence(j.runtime);
    if task == RECEIVER_TASK_ID { ExitedReceiverIdle(j.runtime); }
    BegunIs(s, task, closed.runtime.broker.decisionEpoch, turn);
    var log := Some(LogOf(j.journal));
    LogIs(s, turn, log);
    LogOnly(s, turn, None, log);
    DepartLog(View(s, turn, log), task);
    LogOnly(BeginJournaledTeardown(j, task).value.runtime, turn, Some(LogOf(closed.journal)), None);
  }

  lemma JournaledTeardownShows(j: Journaled, task: u64, turn: Ref.Turn)
    requires JournalInv(j) && j.journal.state != JournalDead && Leaving(j.runtime, task)
    ensures var begun := BeginJournaledTeardown(j, task);
            begun.Ok? && ShownWith(TeardownJournaled(j, task)) == Ref.Next(SeenWith(begun.value, turn))
  {
    hide Inv, View, BeginJournaledTeardown, CompleteTeardown, ValidateJournaled, Ref.Next, RunningTask, Scan,
      EpochsSound,
      LogOf;
    BeginJournaledLands(j, task);
    var begun := BeginJournaledTeardown(j, task).value;
    CompletionShows(begun.runtime, task, turn, Some(LogOf(begun.journal)));
    CompleteJournaledLands(begun, task);
    CompleteTeardownLands(begun.runtime, task);
  }

  lemma JournaledLeavingActs(j: Journaled, task: u64)
    requires JournaledRuns(j, task) && Exits(Slot(j.runtime, task).context)
    ensures Ref.At(SeenWith(j, Ref.Of(task)), task).Present?
    ensures |Ref.At(SeenWith(j, Ref.Of(task)), task).names| == 16
    ensures HandleJournaledTrap(j, task).Ok? && HandleJournaledTrap(j, task).value.1 == Exit(task)
    ensures ShownWith(TeardownJournaled(HandleJournaledTrap(j, task).value.0, task))
         == Ref.Act(SeenWith(j, Ref.Of(task)), task)
  {
    hide Inv, JournalInv, View, TeardownJournaled, HandleJournaledTrap, Ref.Depart, Ref.Next, SetState, LogOf,
      BeginJournaledTeardown;
    CallerIs(j.runtime, task, Some(LogOf(j.journal)));
    JournaledExit(j, task);
    ExitLeaves(j.runtime, task);
    var left := HandleJournaledTrap(j, task).value.0;
    JournaledBeginIs(left, j.runtime, task, Ref.Of(task));
    JournaledTeardownShows(left, task, Ref.Of(task));
  }

  lemma JournaledExit(j: Journaled, task: u64)
    requires JournaledRuns(j, task) && Exits(Slot(j.runtime, task).context)
    ensures var r := HandleJournaledTrap(j, task);
            && r.Ok? && r.value.1 == Exit(task) && r.value.0 == j.(runtime := SetState(j.runtime, task, Exited))
            && JournalInv(r.value.0) && r.value.0.journal.state != JournalDead
  {
    hide Inv, JournalInv, HandleTrap, HandleJournaledTrap, ValidateJournaled;
    JournaledTrapLands(j, task);
    HandedOver(j, task);
    TrapLands(j.runtime, task);
    ExitExactly(j.runtime, task);
    RunsNotDead(j, task);
  }

  // Steps and runs ---------------------------------------------------------------------------------

  /** One driven journaled trap is one step of the reference machine with its log. */
  lemma JournaledStepRefines(m: JournaledMachine, frame: TrapFrame)
    requires JournaledMachineInv(m)
    ensures ShownWith(DriveJournaled(m, frame)) == Ref.Step(ShownWith(m), frame)
  {
    hide Inv, JournalInv, View, HandleJournaledTrap, TeardownJournaled, CaptureTrap, RunningTask, Ref.Act, Ref.Show,
      LogOf;
    var log := Some(LogOf(m.state.journal));
    LogIs(m.state.runtime, TurnOf(m.phase), log);
    if m.phase.OnCpu? {
      var task := m.phase.task;
      RunsIsRunning(m.state.runtime, task);
      CaptureIs(m.state.runtime, task, frame, log);
      CaptureJournaled(m.state, task, frame);
      var j := m.state.(runtime := Captured(m.state.runtime, task, frame).value);
      CallerIs(j.runtime, task, log);
      if Exits(Slot(j.runtime, task).context) {
        JournaledLeavingActs(j, task);
      } else {
        JournaledTrapActs(j, task);
        JournaledLanding(j, task);
      }
    }
  }

  lemma JournaledLanding(j: Journaled, task: u64)
    requires JournaledRuns(j, task) && HandleJournaledTrap(j, task).Ok? && !HandleJournaledTrap(j, task).value.1.Exit?
    ensures var (next, outcome) := HandleJournaledTrap(j, task).value;
            RunningTask(next.runtime) == Ok(outcome.task)
  {
    hide HandleJournaledTrap, Inv, JournalInv;
    JournaledTrapLands(j, task);
    var (next, outcome) := HandleJournaledTrap(j, task).value;
    RunsIsRunning(next.runtime, outcome.task);
  }

  lemma {:induction false} JournaledRunRefines(m: JournaledMachine, frames: seq<TrapFrame>)
    requires JournaledMachineInv(m)
    ensures ShownWith(RunJournaled(m, frames)) == Ref.Run(ShownWith(m), frames)
    decreases |frames|
  {
    hide JournaledMachineInv, ShownWith, DriveJournaled, Ref.Step;
    if frames != [] {
      var k := |frames| - 1;
      JournaledRunRefines(m, frames[..k]);
      RunJournaledProgress(m, frames[..k]);
      JournaledStepRefines(RunJournaled(m, frames[..k]), frames[k]);
    }
  }

  lemma JournalHandles()
    ensures var t := PublishedTable(1, SUPERVISOR_GENERATION, JournaledEntries());
            && NamesIn(t) == Ref.FRESH_NAMES
            && HeldIn(t)
                 == map[16 := Ref.Power(Ref.Control, {Ref.MayStart}), 17 := Ref.Power(Ref.Desk, {Ref.MayDecide}),
                                18 := Ref.Power(Ref.Effect, {Ref.MayCommit}), 19 := Ref.Power(Ref.Book, {Ref.MayRead})]
  {
    PublishedHandles(1, SUPERVISOR_GENERATION, JournaledEntries());
    BitsOf();
    hide Ref.Rights, PublishedTable, HeldIn, NamesIn;
  }

  lemma JournaledBegins(supervisor: TaskContext, workload: TaskContext)
    requires NewJournaled(supervisor, workload).Ok?
    ensures ShownWith(BootJournaled(NewJournaled(supervisor, workload)))
         == Ref.Supervising(RegistersOf(supervisor), RegistersOf(workload), true)
  {
    hide ValidateJournaled, Validate, Inv, JournalInv, PublishedTable, BuildingTable, HeldIn, NamesIn;
    BootJournaledInv(supervisor, workload);
    NewJournaledInv(supervisor, workload);
    JournalHandles();
    StagedHandles();
    assert RowsOf([]) == [];
  }

  /** Every run of a freshly built journaled runtime is a run of the reference machine with its log. */
  lemma {:induction false} EveryJournaledRunRefines(supervisor: TaskContext, workload: TaskContext,
      frames: seq<TrapFrame>)
    requires NewJournaled(supervisor, workload).Ok?
    ensures ShownWith(RunJournaled(BootJournaled(NewJournaled(supervisor, workload)), frames))
         == Ref.Run(Ref.Supervising(RegistersOf(supervisor), RegistersOf(workload), true), frames)
  {
    hide ShownWith, BootJournaled, JournaledMachineInv, RunJournaled, Ref.Run, NewJournaled;
    BootJournaledInv(supervisor, workload);
    JournaledBegins(supervisor, workload);
    JournaledRunRefines(BootJournaled(NewJournaled(supervisor, workload)), frames);
  }
}
