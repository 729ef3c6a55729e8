/**
 The journaling runtime as an object: it lets the runtime handle a trap, writes the record the
 transition calls for, and puts both back when the pair does not validate.
 */
module JournaledRuntimes {
  import opened Words
  import opened TrapAbi
  import opened Capability
  import opened CapabilityTables
  import opened R = Runtime
  import opened J = Journal
  import opened TaskRuntimes
  import opened EffectJournals

  /** As Lands, for the pair. */
  ghost predicate JournalLands(expected: JournaledTransition, after: Journaled, reply: Trapped) {
    match expected
    case Ok((state, outcome)) => after == state && reply == Ok(outcome)
    case Err(e) => reply == Err(e)
  }

  // What follows a handled trap ------------------------------------------------------------------------

  lemma HandledIsRecorded(j: Journaled, task: u64)
    requires RunningTask(j.runtime) == Ok(task)
    requires var i := Slot(j.runtime, task).context; i.rax != 11 && i.rax != 12
    ensures var i := Slot(j.runtime, task).context;
            HandleJournaledTrap(j, task) == match R.HandleTrap(j.runtime, task)
                                            case Err(e) => Err(e)
                                            case Ok((after, outcome)) => Recorded(j, after, task, i, outcome)
  {
    hide R.HandleTrap, Recorded;
  }

  lemma NotRunning(j: Journaled, task: u64)
    ensures RunningTask(j.runtime).Err? ==> HandleJournaledTrap(j, task) == Err(RunningTask(j.runtime).error)
    ensures RunningTask(j.runtime).Ok? && RunningTask(j.runtime).value != task ==>
              HandleJournaledTrap(j, task) == Err(WrongState)
  {
    hide RunningTask;
  }

  lemma ReadIsHandled(j: Journaled, task: u64)
    requires RunningTask(j.runtime) == Ok(task)
    requires var i := Slot(j.runtime, task).context; i.rax == 11 || i.rax == 12
    ensures HandleJournaledTrap(j, task) == HandleJournalRead(j, task, Slot(j.runtime, task).context)
  {
    hide R.HandleTrap, HandleJournalRead;
  }

  /** A submit the journal cannot take is refused on the snapshot. */
  predicate SubmitRefused(before: Journaled, after: RuntimeState) {
    || before.runtime.broker.decisionEpoch > U64_MAX - 3
    || var begun := J.BeginLifecycle(before.journal, SubmitRecord(after));
         begun == Err(Full) || begun == Err(Unavailable)
  }

  function SubmitRecord(after: RuntimeState): EffectRecord {
    Event(Requested, StatusOk, after.broker.decisionEpoch, RECEIVER_TASK_ID, WORKLOAD_GENERATION, after.broker.request,
          OBJECT_APPROVAL_BROKER, RIGHT_SUBMIT_APPROVAL)
  }

  /** The decision that was taken calls for no record. */
  predicate Unrecorded(after: Broker, decision: u64) {
    && !(decision == DECISION_APPROVE && after.state == BrokerApproved)
    && !((decision == DECISION_DENY || decision == DECISION_EXPIRE) && after.state == BrokerEmpty)
  }

  /** The request of a refused effect cannot be ended. */
  predicate Unsettled(after: RuntimeState) {
    || after.broker.decisionEpoch == U64_MAX
    || R.WakeWorkload(Settled(after), EffectUnavailable, 0).Err?
  }

  /** The returns in the middle of recording that do not put the snapshot back. */
  predicate StopsShort(before: Journaled, after: RuntimeState, task: u64, i: TaskContext)
    requires IsTask(task)
  {
    var was, now, rax := before.runtime.broker, after.broker, Slot(after, task).context.rax;
    if Submitted(was, now, i) then SubmitRefused(before, after)
    else if DecisionTaken(was, i, rax) then Unrecorded(now, i.rdx)
    else !EffectWritten(was, now, i, rax) && EffectRefused(was, now, i, rax) && Unsettled(after)
  }

  /** Where an error may come back without the snapshot being put back. */
  predicate LeavesTraces(j: Journaled, task: u64) {
    && RunningTask(j.runtime) == Ok(task)
    && var i := Slot(j.runtime, task).context;
       if i.rax == 11 || i.rax == 12 then true
       else
         match R.HandleTrap(j.runtime, task)
         case Err(_) => false
         case Ok((after, _)) => StopsShort(j, after, task, i)
  }

  /** A teardown that stops before sealing. */
  predicate SealRefused(j: Journaled, task: u64) {
    IsTask(task) && Slot(j.runtime, task).state == Exited && J.SealForTeardown(j).Err?
  }

  function TerminalRecord(b: Broker): EffectRecord {
    var pending := b.state == BrokerPending;
    Event(if pending then Denied else Expired, if pending then ApprovalDenied else ApprovalExpired,
          b.decisionEpoch, 0, 0, b.request, OBJECT_APPROVAL_BROKER, 0)
  }

  /** What a refused sealing leaves: the epoch has moved if the broker is in no state to be closed. */
  function Unsealed(j: Journaled): Journaled {
    var b := j.runtime.broker;
    if j.journal.state == JournalLive && b.requestPresent && b.decisionEpoch < U64_MAX
       && b.state != BrokerPending && b.state != BrokerApproved
    then j.(runtime := j.runtime.(broker := b.(decisionEpoch := b.decisionEpoch + 1)))
    else j
  }

  /** How many journal capabilities the table holds, and whether each is the one publication grants. */
  method ScanJournalEntries(table: CapabilityTable) returns (count: nat, sound: bool)
    requires table.Valid()
    ensures count == 0 <==> NoJournalEntries(table.Value())
    ensures count <= 1 && sound <==> JournalEntriesValid(table.Value())
  {
    count, sound := 0, true;
    var t := table.Value();
    var i := 0;
    while i < SLOT_COUNT
      invariant 0 <= i <= SLOT_COUNT
      invariant count == 0 <==> forall k :: 0 <= k < i ==> !HoldsJournal(t, k)
      invariant count <= 1 ==> forall k, l :: 0 <= k < l < i ==> !(HoldsJournal(t, k) && HoldsJournal(t, l))
      invariant count > 1 ==> exists k, l :: 0 <= k < l < i && HoldsJournal(t, k) && HoldsJournal(t, l)
      invariant sound <==> forall k :: 0 <= k < i && HoldsJournal(t, k) ==> JournalGrant(t, k)
    {
      if HoldsJournal(t, i) {
        count := count + 1;
        sound := sound && JournalGrant(t, i);
      }
      i := i + 1;
    }
  }

  predicate JournalGrant(t: Table, i: int)
    requires 0 <= i < SLOT_COUNT && HoldsJournal(t, i)
  {
    t.slots[i].entry.value.rights == RIGHT_READ_EFFECT_JOURNAL && t.slots[i].entry.value.target == ObjectReference(1, 1)
  }

  class JournaledRuntime {
    const runtime: TaskRuntime
    const journal: EffectJournal

    /** Everything this object is made of, besides itself. */
    ghost function Parts(): set<object> {
      {runtime, journal, journal.records} + runtime.Parts()
    }

    ghost predicate Valid()
      reads journal, journal.records, runtime.queue, runtime.queue.entries
    {
      && journal.Valid() && runtime.Valid()
      && {journal, journal.records} !! {runtime} + runtime.Parts()
    }

    function Value(): Journaled
      requires Valid()
      reads journal, journal.records, runtime.queue, runtime.queue.entries, Parts()
    {
      Journaled(runtime.Value(), journal.Value())
    }

    constructor (state: RuntimeState)
      requires |state.queue| <= 2
      ensures Valid() && Value() == Journaled(state, LIVE_JOURNAL) && fresh(Parts())
    {
      runtime := new TaskRuntime(state);
      journal := new EffectJournal();
    }

    /** A snapshot of this object, taken earlier. */
    predicate Restorable(before: Journaled) {
      |before.journal.committed| <= RECORD_COUNT && before.runtime.profile == runtime.profile
        && |before.runtime.queue| <= 2
    }

    /** The pair's own consistency check. */
    method Check() returns (sound: Outcome<RuntimeError>)
      requires Valid()
      ensures sound == ValidateJournaled(Value())
    {
      hide R.Validate, JournalValid, JournalEntriesValid, NoJournalEntries;
      sound := runtime.Check();
      if sound.Fail? {
        return;
      }
      var journalSound := journal.Validate();
      var own, granted := ScanJournalEntries(runtime.sender.capabilities);
      var stray, _ := ScanJournalEntries(runtime.receiver.capabilities);
      if !journalSound || own > 1 || !granted || stray != 0 {
        return Fail(JournalInvariant);
      }
      var dead := runtime.sender.state == TaskDead && runtime.receiver.state == TaskDead;
      match journal.state {
        case JournalBuilding => return Fail(JournalInvariant);
        case JournalLive =>
          if dead || journal.reserved != ExpectedReservations(runtime.broker.state) {
            return Fail(JournalInvariant);
          }
        case JournalSealed =>
          if journal.reserved != 0 || runtime.broker.requestPresent || runtime.broker.state == BrokerPending
             || runtime.broker.state == BrokerApproved
          {
            return Fail(JournalInvariant);
          }
        case JournalDead =>
          if !dead || own != 0 {
            return Fail(JournalInvariant);
          }
      }
      if runtime.receiver.state == TaskDead && journal.state != JournalSealed && journal.state != JournalDead {
        return Fail(JournalInvariant);
      }
    }

    method Restore(before: Journaled)
      requires Valid() && Restorable(before)
      modifies Parts()
      ensures Valid() && Value() == before
    {
      runtime.Restore(before.runtime);
      journal.Restore(before.journal);
    }

    /** Keeps the new state if it validates; otherwise puts the old one back. */
    method SealTrap(before: Journaled, outcome: TrapOutcome) returns (reply: Trapped)
      requires Valid() && Restorable(before)
      modifies Parts()
      ensures Valid() && JournalLands(Sealed(old(Value()), outcome), Value(), reply)
      ensures reply.Err? ==> Value() == before
    {
      hide ValidateJournaled;
      var valid := Check();
      if valid.Fail? {
        Restore(before);
        return Err(JournalInvariant);
      }
      return Ok(outcome);
    }

    /** Puts the submit back and gives the caller a status instead. */
    method RefuseSubmit(before: Journaled, task: u64, status: TrapStatus) returns (reply: Trapped)
      requires Valid() && IsTask(task)
      requires Restorable(before)
      modifies Parts()
      ensures Valid() && JournalLands(J.RefuseSubmit(before, task, status), Value(), reply)
    {
      hide ValidateJournaled;
      Restore(before);
      runtime.SetResult(task, status, 0);
      var valid := Check();
      match valid
      case Fail(e) => return Err(e);
      case Pass => return Ok(Resume(task));
    }

    method RecordSubmit(before: Journaled, task: u64, outcome: TrapOutcome) returns (reply: Trapped)
      requires Valid() && IsTask(task) && journal.Value() == before.journal && Restorable(before)
      modifies Parts()
      ensures Valid() && JournalLands(JournalSubmit(before, old(runtime.Value()), task, outcome), Value(), reply)
      ensures reply.Err? && !SubmitRefused(before, old(runtime.Value())) ==> Value() == before
    {
      hide ValidateJournaled, J.RefuseSubmit, J.BeginLifecycle, Event, Sealed;
      if before.runtime.broker.decisionEpoch > U64_MAX - 3 {
        reply := RefuseSubmit(before, task, BrokerUnavailable);
        return;
      }
      var record := Event(Requested, StatusOk, runtime.broker.decisionEpoch, RECEIVER_TASK_ID, WORKLOAD_GENERATION,
                          runtime.broker.request, OBJECT_APPROVAL_BROKER, RIGHT_SUBMIT_APPROVAL);
      var begun := journal.BeginLifecycle(record);
      match begun {
        case Pass => reply := SealTrap(before, outcome);
        case Fail(Full) => reply := RefuseSubmit(before, task, JournalFull);
        case Fail(Unavailable) => reply := RefuseSubmit(before, task, JournalUnavailable);
        case Fail(_) =>
          Restore(before);
          return Err(JournalInvariant);
      }
    }

    /** Appends a reserved record, then seals; a refused append puts everything back. */
    method AppendAndSeal(before: Journaled, record: EffectRecord, release: bool, outcome: TrapOutcome)
      returns (reply: Trapped)
      requires Valid() && journal.Value() == before.journal && Restorable(before)
      modifies Parts()
      ensures Valid()
      ensures match J.AppendReserved(before.journal, record, release)
              case Ok(j) => JournalLands(Sealed(Journaled(old(runtime.Value()), j), outcome), Value(), reply)
              case Err(_) => reply == Err(JournalInvariant)
      ensures reply.Err? ==> Value() == before
    {
      hide ValidateJournaled, J.AppendReserved, Sealed;
      var appended := journal.AppendReserved(record, release);
      match appended {
        case Pass => reply := SealTrap(before, outcome);
        case Fail(_) =>
          Restore(before);
          return Err(JournalInvariant);
      }
    }

    method RecordDecision(before: Journaled, decision: u64, outcome: TrapOutcome) returns (reply: Trapped)
      requires Valid() && journal.Value() == before.journal && Restorable(before)
      modifies Parts()
      ensures Valid() && JournalLands(JournalDecision(before, old(runtime.Value()), decision, outcome), Value(), reply)
      ensures reply.Err? && !Unrecorded(old(runtime.broker), decision) ==> Value() == before
    {
      hide ValidateJournaled, J.AppendReserved, Sealed, Event;
      var kind, status, release;
      if decision == DECISION_APPROVE && runtime.broker.state == BrokerApproved {
        kind, status, release := Approved, StatusOk, false;
      } else if decision == DECISION_DENY && runtime.broker.state == BrokerEmpty {
        kind, status, release := Denied, ApprovalDenied, true;
      } else if decision == DECISION_EXPIRE && runtime.broker.state == BrokerEmpty {
        kind, status, release := Expired, ApprovalExpired, before.runtime.broker.state == BrokerPending;
      } else {
        return Err(JournalInvariant);
      }
      var record := Event(kind, status, runtime.broker.decisionEpoch, SENDER_TASK_ID, SUPERVISOR_GENERATION,
                          before.runtime.broker.request, OBJECT_APPROVAL_BROKER, RIGHT_DECIDE_APPROVAL);
      reply := AppendAndSeal(before, record, release, outcome);
    }

    method RecordFailed(before: Journaled, task: u64, outcome: TrapOutcome) returns (reply: Trapped)
      requires Valid() && IsTask(task) && journal.Value() == before.journal && Restorable(before)
      modifies Parts()
      ensures Valid() && JournalLands(JournalFailed(before, old(runtime.Value()), task, outcome), Value(), reply)
      ensures reply.Err? && !Unsettled(old(runtime.Value())) ==> Value() == before
    {
      hide ValidateJournaled, J.AppendReserved, Sealed, Event, R.WakeWorkload;
      if runtime.broker.decisionEpoch == U64_MAX {
        return Err(BrokerInvariant);
      }
      var epoch := runtime.broker.decisionEpoch + 1;
      var ended := runtime.EndRefused(task);
      if ended.Fail? {
        return Err(ended.error);
      }
      var record := Event(Failed, EffectUnavailable, epoch, SENDER_TASK_ID, SUPERVISOR_GENERATION,
                          before.runtime.broker.request, OBJECT_TEST_EFFECT, RIGHT_COMMIT_EFFECT);
      reply := AppendAndSeal(before, record, false, outcome);
    }

    method CheckRead(task: u64, i: TaskContext) returns (check: Outcome<TrapStatus>)
      requires Valid() && IsTask(task)
      ensures check == JournalReadStatus(Value(), task, i)
    {
      hide ResolveObject;
      if i.rax == 11 && (i.rsi != 0 || i.rdx != 0) {
        return Fail(InvalidOperation);
      }
      check := runtime.Resolve(task, i.rdi, OBJECT_EFFECT_JOURNAL, RIGHT_READ_EFFECT_JOURNAL, 1,
        journal.objectGeneration);
      if check.Pass? && journal.state != JournalLive && journal.state != JournalSealed {
        return Fail(JournalUnavailable);
      }
    }

    method ReadJournal(task: u64, i: TaskContext) returns (reply: Trapped)
      requires Valid() && IsTask(task)
      modifies runtime.sender`context, runtime.receiver`context
      ensures Valid() && JournalLands(HandleJournalRead(old(Value()), task, i), Value(), reply)
    {
      hide ValidateJournaled, JournalReadStatus, J.ReadTriplet;
      var check := CheckRead(task, i);
      match check {
        case Fail(status) =>
          SetOutput(task, status, (0, 0, 0));
          return Ok(Resume(task));
        case Pass =>
      }
      if i.rax == 11 {
        SetOutput(task, StatusOk, (if journal.committed == 0 then 0 else 1, journal.nextSequence, journal.committed));
      } else {
        var words := journal.ReadTriplet(i.rsi, i.rdx);
        match words {
          case Ok(values) => SetOutput(task, StatusOk, values);
          case Err(error) => SetOutput(task, JournalErrorStatus(error), (0, 0, 0));
        }
      }
      var valid := Check();
      match valid
      case Fail(e) => return Err(e);
      case Pass => return Ok(Resume(task));
    }

    method SetOutput(task: u64, status: TrapStatus, values: (u64, u64, u64))
      requires Valid() && IsTask(task)
      modifies runtime.sender`context, runtime.receiver`context
      ensures Valid() && runtime.Value() == SetJournalOutput(old(runtime.Value()), task, status, values)
      ensures journal.Value() == old(journal.Value())
    {
      runtime.SetContext(task, runtime.Cell(task).context.(rax := status.Code(), rdi := values.0, rsi := values.1,
                                                           rdx := values.2));
    }

    /** Writes the record a handled trap calls for, then checks the pair. */
    method Record(before: Journaled, task: u64, i: TaskContext, outcome: TrapOutcome) returns (reply: Trapped)
      requires Valid() && IsTask(task) && journal.Value() == before.journal && Restorable(before)
      modifies Parts()
      ensures Valid()
      ensures JournalLands(Recorded(before, old(runtime.Value()), task, i, outcome), Value(), reply)
      ensures reply.Err? && !StopsShort(before, old(runtime.Value()), task, i) ==> Value() == before
    {
      hide ValidateJournaled, JournalSubmit, JournalDecision, JournalFailed, Sealed, J.AppendReserved, Event,
        SubmitRefused, Unsettled;
      var was, now := before.runtime.broker, runtime.broker;
      var rax := runtime.Cell(task).context.rax;
      if Submitted(was, now, i) {
        reply := RecordSubmit(before, task, outcome);
      } else if DecisionTaken(was, i, rax) {
        reply := RecordDecision(before, i.rdx, outcome);
      } else if EffectWritten(was, now, i, rax) {
        var record := Event(Completed, StatusOk, now.decisionEpoch, SENDER_TASK_ID, SUPERVISOR_GENERATION,
                            was.request, OBJECT_TEST_EFFECT, RIGHT_COMMIT_EFFECT);
        reply := AppendAndSeal(before, record, false, outcome);
      } else if EffectRefused(was, now, i, rax) {
        reply := RecordFailed(before, task, outcome);
      } else {
        reply := SealTrap(before, outcome);
      }
    }

    /** One journaled trap is the function HandleJournaledTrap. */
    method HandleTrap(task: u64) returns (reply: Trapped)
      requires Valid()
      modifies Parts()
      ensures Valid() && JournalLands(HandleJournaledTrap(old(Value()), task), Value(), reply)
      ensures reply.Err? && !LeavesTraces(old(Value()), task) ==> Value() == old(Value())
    {
      hide R.HandleTrap, HandleJournaledTrap, Recorded, StopsShort, HandleJournalRead;
      var running := runtime.Running();
      NotRunning(Value(), task);
      match running {
        case Err(e) => return Err(e);
        case Ok(current) =>
          if current != task {
            return Err(WrongState);
          }
      }
      var i := runtime.Cell(task).context;
      if i.rax == 11 || i.rax == 12 {
        ReadIsHandled(Value(), task);
        reply := ReadJournal(task, i);
        return;
      }
      HandledIsRecorded(Value(), task);
      var before := Value();
      var handled := runtime.HandleTrap(task);
      match handled {
        case Err(e) =>
          Restore(before);
          return Err(e);
        case Ok(outcome) => reply := Record(before, task, i, outcome);
      }
    }

    // Teardown ---------------------------------------------------------------------------------------

    /** Closes an open lifecycle with the system as actor, then seals. */
    method SealForTeardown() returns (closed: Outcome<RuntimeError>)
      requires Valid()
      modifies Parts()
      ensures Valid()
      ensures match J.SealForTeardown(old(Value()))
              case Ok(j) => closed == Pass && Value() == j
              case Err(e) => closed == Fail(e) && Value() == Unsealed(old(Value()))
    {
      hide J.AppendReserved, Event, J.Seal;
      if journal.state != JournalLive {
        return Pass;
      }
      var before := Value();
      if runtime.broker.requestPresent {
        if runtime.broker.decisionEpoch == U64_MAX {
          return Fail(JournalInvariant);
        }
        runtime.AdvanceEpoch();
        if runtime.broker.state != BrokerPending && runtime.broker.state != BrokerApproved {
          return Fail(JournalInvariant);
        }
        closed := AppendTerminal();
        if closed.Fail? {
          Restore(before);
          return;
        }
      }
      var done := journal.Seal();
      if done.Fail? {
        Restore(before);
        return Fail(JournalInvariant);
      }
      return Pass;
    }

    /** The open request denied or expired, in the epoch just begun. */
    method AppendTerminal() returns (appended: Outcome<RuntimeError>)
      requires Valid()
      modifies journal, journal.records
      ensures Valid() && runtime.Value() == old(runtime.Value())
      ensures var pending := runtime.broker.state == BrokerPending;
              match J.AppendReserved(old(journal.Value()), TerminalRecord(runtime.broker), pending)
              case Ok(j) => appended == Pass && journal.Value() == j
              case Err(_) => appended == Fail(JournalInvariant)
    {
      hide J.AppendReserved, TerminalRecord;
      var done := journal.AppendReserved(TerminalRecord(runtime.broker), runtime.broker.state == BrokerPending);
      return if done.Fail? then Fail(JournalInvariant) else Pass;
    }

    method BeginTeardown(task: u64) returns (begun: Outcome<RuntimeError>)
      requires Valid()
      modifies Parts()
      ensures Valid()
      ensures match BeginJournaledTeardown(old(Value()), task)
              case Ok(j) => begun == Pass && Value() == j
              case Err(e) =>
                && begun == Fail(e)
                && Value() == if SealRefused(old(Value()), task) then Unsealed(old(Value())) else old(Value())
    {
      hide ValidateJournaled, J.SealForTeardown, R.BeginTeardown;
      var before := Value();
      if !IsTask(task) {
        return Fail(InvalidTask);
      }
      if runtime.Cell(task).state != Exited {
        return Fail(WrongState);
      }
      begun := SealForTeardown();
      if begun.Fail? {
        return;
      }
      begun := runtime.BeginTeardown(task);
      if begun.Fail? {
        Restore(before);
        return;
      }
      var valid := Check();
      if valid.Fail? {
        Restore(before);
        return Fail(JournalInvariant);
      }
    }

    method CompleteTeardown(task: u64) returns (next: Result<Option<u64>, RuntimeError>)
      requires Valid()
      modifies Parts()
      ensures Valid()
      ensures match CompleteJournaledTeardown(old(Value()), task)
              case Ok((j, chosen)) => next == Ok(chosen) && Value() == j
              case Err(e) => next == Err(e) && Value() == old(Value())
    {
      hide ValidateJournaled, R.CompleteTeardown;
      var before := Value();
      next := runtime.CompleteTeardown(task);
      if next.Ok? {
        var valid := Check();
        if valid.Fail? {
          Restore(before);
          return Err(JournalInvariant);
        }
      }
    }

    method FinishReclamation() returns (finished: Outcome<RuntimeError>)
      requires Valid()
      modifies Parts()
      ensures Valid()
      ensures match J.FinishReclamation(old(Value()))
              case Ok(j) => finished == Pass && Value() == j
              case Err(e) => finished == Fail(e) && Value() == old(Value())
    {
      hide ValidateJournaled, JournalValid;
      var before := Value();
      var sound := journal.Validate();
      if runtime.sender.state != TaskDead || runtime.receiver.state != TaskDead || journal.state != JournalSealed
         || journal.reserved != 0 || !sound
      {
        return Fail(JournalInvariant);
      }
      journal.Restore(DEAD_JOURNAL);
      var valid := Check();
      if valid.Fail? {
        Restore(before);
        return Fail(JournalInvariant);
      }
      return Pass;
    }
  }
}
