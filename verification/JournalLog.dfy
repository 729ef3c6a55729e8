/**
 The journal tells what happened. Less what the system writes itself when a task leaves, and less the
 refusals of an effect already written, its records are the accepted submits, decisions and commits that
 the two tasks saw, one by one and in order.
 */
module JournalLog {
  import opened Words
  import opened TrapAbi
  import opened Capability
  import opened Runtime
  import opened RuntimeInvariant
  import opened RuntimeProgress
  import opened KernelDrive
  import opened BrokerMoves
  import opened Journal
  import opened Lifecycle
  import opened JournalInvariant
  import opened JournalProgress
  import opened JournalDrive
  import opened JournalTheorems
  import opened ApprovalLog

  type Pair = (int, int)

  /** The record kind and request number that an accepted event calls for. */
  function Heard(e: ApprovalEvent): Pair {
    match e
    case SubmitEvent(n, _) => (Requested.Code(), n)
    case DecideEvent(n, d) =>
      ((if d == DECISION_APPROVE then Approved else if d == DECISION_DENY then Denied else Expired).Code(), n)
    case CommitEvent(n, _) => (Completed.Code(), n)
  }

  function EventTrace(log: seq<ApprovalEvent>): seq<Pair> {
    seq(|log|, i requires 0 <= i < |log| => Heard(log[i]))
  }

  /** A record of something a task did: not a failure, and not a request the system closed. */
  predicate OfATask(r: EffectRecord) {
    && r.eventKind != Failed.Code()
    && !(r.actorTaskId == 0 && (r.eventKind == Denied.Code() || r.eventKind == Expired.Code()))
  }

  function RecordTrace(records: seq<EffectRecord>): seq<Pair>
    decreases |records|
  {
    if records == [] then []
    else
      var last := records[|records| - 1];
      RecordTrace(records[..|records| - 1])
      + (if OfATask(last) then [(last.eventKind, last.requestSequence)] else [])
  }

  lemma {:induction false} TraceAppend(records: seq<EffectRecord>, r: EffectRecord)
    ensures RecordTrace(records + [r])
         == RecordTrace(records) + (if OfATask(r) then [(r.eventKind, r.requestSequence)] else [])
  {
    assert (records + [r])[..|records|] == records;
  }

  lemma EventAppend(log: seq<ApprovalEvent>, more: seq<ApprovalEvent>)
    ensures EventTrace(log + more) == EventTrace(log) + EventTrace(more)
  {
  }

  // One trap ----------------------------------------------------------------------------------------------

  lemma BeginAppends(j: Journal, record: EffectRecord)
    ensures BeginLifecycle(j, record).Ok? ==>
              BeginLifecycle(j, record).value.committed == j.committed + [record.(recordSequence := j.nextSequence)]
  {
  }

  lemma ReservedAppends(j: Journal, record: EffectRecord, release: bool)
    ensures AppendReserved(j, record, release).Ok? ==>
              AppendReserved(j, record, release).value.committed
                == j.committed + [record.(recordSequence := j.nextSequence)]
  {
  }

  /** The trap added to the records exactly what the caller could see. */
  predicate Traced(j: Journaled, task: u64, r: JournaledTransition)
    requires IsTask(task)
  {
    r.Ok? ==>
      RecordTrace(r.value.0.journal.committed)
      == RecordTrace(j.journal.committed) + EventTrace(EventOf(j.runtime, task, r.value.0.runtime, r.value.1))
  }

  lemma Unheard(j: Journaled, task: u64, r: JournaledTransition)
    requires IsTask(task) && r.Ok? && r.value.0.journal.committed == j.journal.committed
    requires EventOf(j.runtime, task, r.value.0.runtime, r.value.1) == []
    ensures Traced(j, task, r)
  {
    hide EventOf, RecordTrace;
    assert RecordTrace(j.journal.committed) + EventTrace([]) == RecordTrace(j.journal.committed);
  }

  lemma SubmitTraced(j: Journaled, task: u64)
    requires Runs(j.runtime, task) && Slot(j.runtime, task).context.rax == 7 && HandleTrap(j.runtime, task).Ok?
    ensures var (after, outcome) := HandleTrap(j.runtime, task).value;
            Traced(j, task, Recorded(j, after, task, Slot(j.runtime, task).context, outcome))
  {
    hide Inv, Validate, ValidateJournaled, SubmitApproval, SubmitStatus, BeginLifecycle, RecordTrace;
    var s := j.runtime;
    var i := Slot(s, task).context;
    RunsIsRunning(s, task);
    TrapIsOperation(s, task);
    SubmitMove(s, task, i.rdi, i.rsi, i.rdx);
    SubmitOutcome(s, task, i.rdi, i.rsi, i.rdx);
    var (after, outcome) := HandleTrap(s, task).value;
    var record := Event(Requested, StatusOk, after.broker.decisionEpoch, RECEIVER_TASK_ID, WORKLOAD_GENERATION,
                        after.broker.request, OBJECT_APPROVAL_BROKER, RIGHT_SUBMIT_APPROVAL);
    BeginAppends(j.journal, record);
    TraceAppend(j.journal.committed, record.(recordSequence := j.journal.nextSequence));
    var r := Recorded(j, after, task, i, outcome);
    if r.Ok? && !r.value.1.Switch? { Unheard(j, task, r); }
  }

  lemma DecideTraced(j: Journaled, task: u64)
    requires Runs(j.runtime, task) && Slot(j.runtime, task).context.rax == 9 && HandleTrap(j.runtime, task).Ok?
    ensures var (after, outcome) := HandleTrap(j.runtime, task).value;
            Traced(j, task, Recorded(j, after, task, Slot(j.runtime, task).context, outcome))
  {
    hide Inv, Validate, ValidateJournaled, DecideApproval, DecideStatus, AppendReserved, RecordTrace;
    var s := j.runtime;
    var i := Slot(s, task).context;
    RunsIsRunning(s, task);
    TrapIsOperation(s, task);
    DecideMove(s, task, i.rdi, i.rsi, i.rdx);
    UndecidedPresent(s);
    var (after, outcome) := HandleTrap(s, task).value;
    DecideResumes(s, task);
    var r := Recorded(j, after, task, i, outcome);
    if r.Ok? {
      if Slot(after, task).context.rax == StatusOk.Code() {
        DecisionAppends(j, after, i.rdx, outcome);
      } else {
        Unheard(j, task, r);
      }
    }
  }

  lemma DecideResumes(s: RuntimeState, task: u64)
    requires Runs(s, task) && HandleTrap(s, task).Ok? && Slot(s, task).context.rax == 9
    ensures HandleTrap(s, task).value.1 == Resume(task)
  {
    hide Inv, Validate, DecideStatus, WakeWorkload, FailBrokerEpochExhaustion;
    RunsIsRunning(s, task);
    TrapIsOperation(s, task);
  }

  lemma UndecidedPresent(s: RuntimeState)
    requires Inv(s)
    ensures Undecided(s.broker) ==> s.broker.requestPresent
  {
    hide SlotInv, QueueInv;
  }

  lemma DecisionAppends(j: Journaled, after: RuntimeState, decision: u64, outcome: TrapOutcome)
    requires JournalDecision(j, after, decision, outcome).Ok?
    ensures var r := JournalDecision(j, after, decision, outcome).value;
            && r.1 == outcome && r.0.runtime == after
            && RecordTrace(r.0.journal.committed)
               == RecordTrace(j.journal.committed) + [Heard(DecideEvent(j.runtime.broker.request.sequence, decision))]
  {
    hide ValidateJournaled, AppendReserved, RecordTrace;
    forall record: EffectRecord, release: bool | AppendReserved(j.journal, record, release).Ok?
      ensures RecordTrace(AppendReserved(j.journal, record, release).value.committed)
           == RecordTrace(j.journal.committed)
             + (if OfATask(record) then [(record.eventKind, record.requestSequence)] else [])
    {
      ReservedAppends(j.journal, record, release);
      TraceAppend(j.journal.committed, record.(recordSequence := j.journal.nextSequence));
    }
  }

  lemma CommitTraced(j: Journaled, task: u64)
    requires Runs(j.runtime, task) && Slot(j.runtime, task).context.rax == 10 && HandleTrap(j.runtime, task).Ok?
    ensures var (after, outcome) := HandleTrap(j.runtime, task).value;
            Traced(j, task, Recorded(j, after, task, Slot(j.runtime, task).context, outcome))
  {
    hide Inv, Validate, ValidateJournaled, CommitEffect, CommitStatus, AppendReserved, RecordTrace, WakeWorkload;
    var s := j.runtime;
    var i := Slot(s, task).context;
    RunsIsRunning(s, task);
    TrapIsOperation(s, task);
    CommitMove(s, task, i.rdi, i.rsi, i.rdx);
    CommitResumes(s, task);
    var (after, outcome) := HandleTrap(s, task).value;
    var r := Recorded(j, after, task, i, outcome);
    if r.Ok? {
      if EffectWritten(s.broker, after.broker, i, Slot(after, task).context.rax) {
        CompletedAppends(j, after, outcome);
      } else if EffectRefused(s.broker, after.broker, i, Slot(after, task).context.rax) {
        FailedAppends(j, after, task, outcome);
      } else {
        Unheard(j, task, r);
      }
    }
  }

  lemma CommitResumes(s: RuntimeState, task: u64)
    requires Runs(s, task) && HandleTrap(s, task).Ok? && Slot(s, task).context.rax == 10
    ensures HandleTrap(s, task).value.1 == Resume(task)
  {
    hide Inv, Validate, CommitStatus, WakeWorkload;
    RunsIsRunning(s, task);
    TrapIsOperation(s, task);
  }

  lemma CompletedAppends(j: Journaled, after: RuntimeState, outcome: TrapOutcome)
    requires JournalCompleted(j, after, outcome).Ok?
    ensures var r := JournalCompleted(j, after, outcome).value;
            && r.1 == outcome && r.0.runtime == after
            && RecordTrace(r.0.journal.committed)
               == RecordTrace(j.journal.committed) + [(Completed.Code(), j.runtime.broker.request.sequence)]
  {
    hide ValidateJournaled, AppendReserved, RecordTrace;
    var record := Event(Completed, StatusOk, after.broker.decisionEpoch, SENDER_TASK_ID, SUPERVISOR_GENERATION,
                        j.runtime.broker.request, OBJECT_TEST_EFFECT, RIGHT_COMMIT_EFFECT);
    ReservedAppends(j.journal, record, false);
    TraceAppend(j.journal.committed, record.(recordSequence := j.journal.nextSequence));
  }

  /** A refused effect leaves a record that is nobody's event. */
  lemma FailedAppends(j: Journaled, after: RuntimeState, task: u64, outcome: TrapOutcome)
    requires IsTask(task) && JournalFailed(j, after, task, outcome).Ok?
    ensures var r := JournalFailed(j, after, task, outcome).value;
            && r.1 == outcome && Slot(r.0.runtime, task).context.rax == EffectUnavailable.Code()
            && RecordTrace(r.0.journal.committed) == RecordTrace(j.journal.committed)
  {
    hide ValidateJournaled, AppendReserved, RecordTrace, WakeWorkload;
    var record := Event(Failed, EffectUnavailable, after.broker.decisionEpoch + 1, SENDER_TASK_ID,
      SUPERVISOR_GENERATION,
                        j.runtime.broker.request, OBJECT_TEST_EFFECT, RIGHT_COMMIT_EFFECT);
    ReservedAppends(j.journal, record, false);
    TraceAppend(j.journal.committed, record.(recordSequence := j.journal.nextSequence));
  }

  /** One journaled trap: the new records are the new events. */
  lemma TrapTraced(j: Journaled, task: u64)
    requires JournaledRuns(j, task)
    ensures Traced(j, task, HandleJournaledTrap(j, task))
  {
    hide Inv, JournalInv, HandleTrap, Recorded, Traced, HandleJournalRead;
    var rax := Slot(j.runtime, task).context.rax;
    RunsIsRunning(j.runtime, task);
    TrapLands(j.runtime, task);
    LandsOk(j.runtime, task);
    if rax == 7 {
      SubmitTraced(j, task);
    } else if rax == 9 {
      DecideTraced(j, task);
    } else if rax == 10 {
      CommitTraced(j, task);
    } else {
      OtherTraced(j, task);
    }
  }

  lemma OtherTraced(j: Journaled, task: u64)
    requires Runs(j.runtime, task) && RunningTask(j.runtime) == Ok(task) && HandleTrap(j.runtime, task).Ok?
    requires var rax := Slot(j.runtime, task).context.rax; rax != 7 && rax != 9 && rax != 10
    ensures Traced(j, task, HandleJournaledTrap(j, task))
  {
    hide Inv, HandleTrap, ValidateJournaled, JournalReadStatus, ReadTriplet, RecordTrace;
    var r := HandleJournaledTrap(j, task);
    if r.Ok? { Unheard(j, task, r); }
  }

  // Whole runs --------------------------------------------------------------------------------------------

  /** What sealing writes is nobody's event. */
  lemma SealUntold(j: Journaled)
    requires SealForTeardown(j).Ok?
    ensures RecordTrace(SealForTeardown(j).value.journal.committed) == RecordTrace(j.journal.committed)
  {
    hide AppendReserved, RecordTrace;
    if j.journal.state == JournalLive && j.runtime.broker.requestPresent {
      var pending := j.runtime.broker.state == BrokerPending;
      var record := Event(if pending then Denied else Expired, if pending then ApprovalDenied else ApprovalExpired,
                          j.runtime.broker.decisionEpoch + 1, 0, 0, j.runtime.broker.request, OBJECT_APPROVAL_BROKER,
                            0);
      ReservedAppends(j.journal, record, pending);
      TraceAppend(j.journal.committed, record.(recordSequence := j.journal.nextSequence));
    }
  }

  lemma TeardownUntold(j: Journaled, task: u64)
    ensures RecordTrace(TeardownJournaled(j, task).state.journal.committed) == RecordTrace(j.journal.committed)
  {
    hide SealForTeardown, BeginTeardown, CompleteTeardown, ValidateJournaled, RecordTrace, NoEntries;
    if SealForTeardown(j).Ok? { SealUntold(j); }
  }

  lemma DriveTraced(m: JournaledMachine, frame: TrapFrame)
    requires JournaledMachineInv(m)
    ensures RecordTrace(DriveJournaled(m, frame).state.journal.committed)
         == RecordTrace(m.state.journal.committed) + EventTrace(ObservedJournaled(m, frame))
  {
    hide Inv, JournalInv, HandleJournaledTrap, TeardownJournaled, CaptureTrap, RecordTrace, EventTrace, EventOf;
    if m.phase.OnCpu? {
      var task := m.phase.task;
      RunsIsRunning(m.state.runtime, task);
      CaptureJournaled(m.state, task, frame);
      var j := m.state.(runtime := Captured(m.state.runtime, task, frame).value);
      JournaledTrapLands(j, task);
      TrapTraced(j, task);
      var (next, outcome) := HandleJournaledTrap(j, task).value;
      if outcome.Exit? { TeardownUntold(next, task); }
    } else {
      NoEvents(RecordTrace(m.state.journal.committed));
    }
  }

  lemma NoEvents(trace: seq<Pair>)
    ensures trace + EventTrace([]) == trace
  {
  }

  lemma {:induction false} RunTraced(m: JournaledMachine, frames: seq<TrapFrame>)
    requires JournaledMachineInv(m)
    ensures RecordTrace(RunJournaled(m, frames).state.journal.committed)
         == RecordTrace(m.state.journal.committed) + EventTrace(LogJournaled(m, frames))
    decreases |frames|
  {
    hide JournaledMachineInv, DriveJournaled, ObservedJournaled, RecordTrace, EventTrace;
    if frames == [] {
      NoEvents(RecordTrace(m.state.journal.committed));
    } else {
      var k := |frames| - 1;
      RunTraced(m, frames[..k]);
      RunJournaledProgress(m, frames[..k]);
      DriveTraced(RunJournaled(m, frames[..k]), frames[k]);
      EventAppend(LogJournaled(m, frames[..k]), ObservedJournaled(RunJournaled(m, frames[..k]), frames[k]));
    }
  }

  /** Everything a fresh journaled runtime's tasks had accepted on `frames`. */
  function Accepted(supervisor: TaskContext, workload: TaskContext, frames: seq<TrapFrame>): seq<ApprovalEvent>
    requires NewJournaled(supervisor, workload).Ok?
  {
    LogJournaled(BootJournaled(NewJournaled(supervisor, workload)), frames)
  }

  /** Over every run the journal, read this way, is the log of what the tasks saw accepted. */
  lemma {:induction false} JournalTellsTheLog(supervisor: TaskContext, workload: TaskContext, frames: seq<TrapFrame>)
    requires NewJournaled(supervisor, workload).Ok?
    ensures RecordTrace(Reached(supervisor, workload, frames).state.journal.committed)
         == EventTrace(Accepted(supervisor, workload, frames))
  {
    hide JournaledMachineInv, EventTrace, RunJournaled, LogJournaled;
    BootJournaledInv(supervisor, workload);
    RunTraced(BootJournaled(NewJournaled(supervisor, workload)), frames);
    StartsEmpty();
    var log := Accepted(supervisor, workload, frames);
    assert [] + EventTrace(log) == EventTrace(log);
  }

  lemma StartsEmpty()
    ensures RecordTrace(LIVE_JOURNAL.committed) == []
  {
  }

  // Requests and lifecycles -------------------------------------------------------------------------------

  /** The request numbers under one kind, in order. */
  function Under(pairs: seq<Pair>, kind: int): seq<int>
    decreases |pairs|
  {
    if pairs == [] then []
    else
      var last := pairs[|pairs| - 1];
      Under(pairs[..|pairs| - 1], kind) + (if last.0 == kind then [last.1] else [])
  }

  lemma {:induction false} UnderAppend(a: seq<Pair>, p: Pair, kind: int)
    ensures Under(a + [p], kind) == Under(a, kind) + (if p.0 == kind then [p.1] else [])
  {
    assert (a + [p])[..|a|] == a;
  }

  lemma {:induction false} UnderConcat(a: seq<Pair>, b: seq<Pair>, kind: int)
    ensures Under(a + b, kind) == Under(a, kind) + Under(b, kind)
    decreases |b|
  {
    if b == [] {
      assert a + b == a;
    } else {
      var k := |b| - 1;
      assert (a + b)[..|a + b| - 1] == a + b[..k];
      UnderConcat(a, b[..k], kind);
    }
  }

  /** Leaving out what is nobody's event loses no request and no completion. */
  lemma {:induction false} TraceKeeps(records: seq<EffectRecord>, kind: int)
    requires kind == Requested.Code() || kind == Completed.Code()
    ensures Under(RecordTrace(records), kind) == Under(Pairs(records), kind)
    decreases |records|
  {
    hide Under;
    if records == [] {
      assert Pairs(records) == [];
    } else {
      var k := |records| - 1;
      var last := (records[k].eventKind, records[k].requestSequence);
      var front := RecordTrace(records[..k]);
      TraceKeeps(records[..k], kind);
      assert Pairs(records) == Pairs(records[..k]) + [last];
      UnderAppend(Pairs(records[..k]), last, kind);
      UnderAppend(front, last, kind);
      assert front + [] == front;
    }
  }

  lemma {:induction false} OneUnder(p: Pair, kind: int)
    ensures Under([p], kind) == if p.0 == kind then [p.1] else []
  {
    assert [p][..0] == [];
  }

  /** The numbers from one to `n`. */
  function Counting(n: nat): seq<int> {
    if n == 0 then [] else Counting(n - 1) + [n]
  }

  /** The numbers of the lifecycles that completed. */
  function CompletedOnes(cycles: seq<Lifecycle>): seq<int>
    decreases |cycles|
  {
    if cycles == [] then []
    else
      var k := |cycles| - 1;
      CompletedOnes(cycles[..k]) + (if cycles[k].CompletedRequest? then [|cycles|] else [])
  }

  lemma {:induction false} EventsUnder(c: Lifecycle, n: nat, kind: int)
    requires kind == Requested.Code() || kind == Completed.Code()
    ensures Under(c.Events(n), kind)
         == if kind == Requested.Code() then [n] else if c.CompletedRequest? then [n] else []
  {
    hide Under;
    var e := c.Events(n);
    OneUnder(e[0], kind);
    if |e| == 1 {
      assert e == [e[0]];
    } else if |e| == 2 {
      UnderAppend([e[0]], e[1], kind);
      assert e == [e[0]] + [e[1]];
    } else {
      UnderAppend([e[0]], e[1], kind);
      UnderAppend([e[0]] + [e[1]], e[2], kind);
      assert e == [e[0]] + [e[1]] + [e[2]];
    }
  }

  lemma {:induction false} WrittenUnder(cycles: seq<Lifecycle>)
    ensures Under(Written(cycles), Requested.Code()) == Counting(|cycles|)
    ensures Under(Written(cycles), Completed.Code()) == CompletedOnes(cycles)
    decreases |cycles|
  {
    if cycles != [] {
      var k := |cycles| - 1;
      WrittenUnder(cycles[..k]);
      EventsUnder(cycles[k], |cycles|, Requested.Code());
      EventsUnder(cycles[k], |cycles|, Completed.Code());
      UnderConcat(Written(cycles[..k]), cycles[k].Events(|cycles|), Requested.Code());
      UnderConcat(Written(cycles[..k]), cycles[k].Events(|cycles|), Completed.Code());
    }
  }

  /**
   The lifecycles of the journal are the accepted submits, the n-th numbered n; there are at most seven,
   and lifecycle n completed exactly if its commit was accepted.
   */
  lemma {:induction false} LifecyclesAreRequests(supervisor: TaskContext, workload: TaskContext, frames: seq<TrapFrame>)
    returns (cycles: seq<Lifecycle>)
    requires NewJournaled(supervisor, workload).Ok?
    ensures var heard := EventTrace(Accepted(supervisor, workload, frames));
            && Written(cycles) == Pairs(Reached(supervisor, workload, frames).state.journal.committed)
            && |cycles| <= 7
            && Under(heard, Requested.Code()) == Counting(|cycles|)
            && Under(heard, Completed.Code()) == CompletedOnes(cycles)
            && (Reached(supervisor, workload, frames).state.journal.state == JournalSealed ==>
                  forall k :: 0 <= k < |cycles| ==> !cycles[k].IsOpen())
  {
    hide Reached, Accepted, RecordTrace, EventTrace, Pairs, Written, Under;
    cycles := RecordsFormLifecycles(supervisor, workload, frames);
    JournalTellsTheLog(supervisor, workload, frames);
    var records := Reached(supervisor, workload, frames).state.journal.committed;
    TraceKeeps(records, Requested.Code());
    TraceKeeps(records, Completed.Code());
    WrittenUnder(cycles);
  }

  // The same, read off the log ----------------------------------------------------------------------------

  function Submits(log: seq<ApprovalEvent>): seq<int>
    decreases |log|
  {
    if log == [] then []
    else
      var last := log[|log| - 1];
      Submits(log[..|log| - 1]) + (if last.SubmitEvent? then [last.sequence] else [])
  }

  function Commits(log: seq<ApprovalEvent>): seq<int>
    decreases |log|
  {
    if log == [] then []
    else
      var last := log[|log| - 1];
      Commits(log[..|log| - 1]) + (if last.CommitEvent? then [last.sequence] else [])
  }

  lemma {:induction false} HeardUnder(log: seq<ApprovalEvent>)
    ensures Under(EventTrace(log), Requested.Code()) == Submits(log)
    ensures Under(EventTrace(log), Completed.Code()) == Commits(log)
    decreases |log|
  {
    if log == [] {
      assert EventTrace(log) == [];
    } else {
      var k := |log| - 1;
      HeardUnder(log[..k]);
      var front := EventTrace(log[..k]);
      assert EventTrace(log) == front + [Heard(log[k])];
      hide Under, EventTrace;
      UnderAppend(front, Heard(log[k]), Requested.Code());
      UnderAppend(front, Heard(log[k]), Completed.Code());
    }
  }

  /**
   Once the journal is sealed, every submit the run accepted has exactly one closing record, and at most seven
   were.
   */
  lemma {:induction false} AcceptedRequestsAllClosed(
    supervisor: TaskContext, workload: TaskContext, frames: seq<TrapFrame>, n: nat)
    requires NewJournaled(supervisor, workload).Ok?
    requires Reached(supervisor, workload, frames).state.journal.state == JournalSealed && 1 <= n
    ensures var submits := Submits(Accepted(supervisor, workload, frames));
            var pairs := Pairs(Reached(supervisor, workload, frames).state.journal.committed);
            && |submits| <= 7 && submits == Counting(|submits|)
            && Terminals(pairs, n) == if n <= |submits| then 1 else 0
  {
    hide Reached, Accepted, Pairs, Written, Terminals;
    var cycles := LifecyclesAreRequests(supervisor, workload, frames);
    HeardUnder(Accepted(supervisor, workload, frames));
    CountingLength(|cycles|);
    CountTerminals(cycles, n);
  }

  lemma {:induction false} CountingLength(n: nat)
    ensures |Counting(n)| == n
  {
    if n > 0 { CountingLength(n - 1); }
  }

  /** A commit of request `n` was accepted exactly if the journal's lifecycle `n` completed. */
  lemma {:induction false} CommitsAreCompletions(supervisor: TaskContext, workload: TaskContext,
      frames: seq<TrapFrame>, n: int)
    returns (cycles: seq<Lifecycle>)
    requires NewJournaled(supervisor, workload).Ok?
    ensures Written(cycles) == Pairs(Reached(supervisor, workload, frames).state.journal.committed)
    ensures n in Commits(Accepted(supervisor, workload, frames))
            <==> 1 <= n <= |cycles| && cycles[n - 1].CompletedRequest?
  {
    hide Reached, Accepted, Pairs, Written;
    cycles := LifecyclesAreRequests(supervisor, workload, frames);
    HeardUnder(Accepted(supervisor, workload, frames));
    CompletedMember(cycles, n);
  }

  lemma {:induction false} CompletedMember(cycles: seq<Lifecycle>, n: int)
    ensures n in CompletedOnes(cycles) <==> 1 <= n <= |cycles| && cycles[n - 1].CompletedRequest?
    decreases |cycles|
  {
    if cycles != [] { CompletedMember(cycles[..|cycles| - 1], n); }
  }
}
