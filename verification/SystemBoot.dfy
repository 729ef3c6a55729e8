/**
 Publishing the two tasks of each profile: build both address spaces, create the runtime over their
 roots, dispatch the first task; on refusal give everything back. Then the theorem about every run.
 */
module SystemBoot {
  import opened Words
  import opened TrapAbi
  import opened Runtime
  import opened RI = RuntimeInvariant
  import opened RuntimeProgress
  import opened KD = KernelDrive
  import opened Waiting
  import opened Journal
  import opened JournalInvariant
  import opened JournalDrive
  import opened KernelRuntimes
  import opened AS = AddressSpace
  import opened KernelBackend
  import opened KernelTables
  import KC = KernelConstruction
  import opened TaskFrames
  import opened UserMappings
  import opened Extents
  import opened SystemRun
  import opened SystemTheorems
  import Bt = Boot
  import EF = ExtentFill
  import H = Handoff
  import KI = KernelImage
  import N = Normalize
  import NM = NormalizeMeaning
  import Rg = Regions

  const SENDER_GENERATION: u64 := 2
  const RECEIVER_GENERATION: u64 := 3

  datatype Kind = CooperativeKind | SupervisedKind | JournaledKind {
    function First(): u64 { if CooperativeKind? then SENDER_GENERATION else SUPERVISOR_GENERATION }

    function Second(): u64 { if CooperativeKind? then RECEIVER_GENERATION else WORKLOAD_GENERATION }
  }

  datatype BootFault =
    | FirstSpace | SecondSpace | ConstructionRollback | NoRoot | InitialContext | PublicationRollback | InitialDispatch

  datatype Publication = Abandoned(why: BootFault, kernel: Kernel) | Started(system: System)

  function Initial(task: u64, generation: u64, root: u64, start: OtherRegisters): TaskContext {
    TaskContext(0, 0, 0, 0, start, root, task, generation)
  }

  function NewRuntime(kind: Kind, a: TaskContext, b: TaskContext): KernelResult<KernelRuntime> {
    match kind
    case CooperativeKind => var s :- NewCooperative(a, b); Ok(Base(s))
    case SupervisedKind => var s :- NewSupervised(a, b); Ok(Base(s))
    case JournaledKind => var j :- NewJournaled(a, b); Ok(WithJournal(j))
  }

  function DispatchIn(r: KernelRuntime): KernelResult<(KernelRuntime, Option<u64>)> {
    var (s, chosen) :- DispatchNext(r.Core());
    Ok((if r.Base? then Base(s) else WithJournal(r.journaled.(runtime := s)), chosen))
  }

  /** `start` is the entry register set both tasks are given. */
  function Publish(kind: Kind, k0: Kernel, start: OtherRegisters): (p: Publication)
    ensures p.Started? ==> WellOwned(p.system.owners)
  {
    var m0 := AS.Machine(k0, []);
    var (m, pair) := ConstructPair(Step, m0, kind.First(), kind.Second());
    match pair
    case FirstFailed(failure) =>
      Abandoned(if failure.BuildFailed? && failure.rollbackError.None? && failure.retained == [] then FirstSpace
             else ConstructionRollback, m.state)
    case SecondFailed(failure, torn) =>
      Abandoned(if failure.BuildFailed? && failure.rollbackError.None? && failure.retained == [] && torn.TornDown?
             then SecondSpace else ConstructionRollback, m.state)
    case BuiltPair(first, second) =>
      KC.PairPublished(m0, kind.First(), kind.Second());
      PublishPair(kind, m, first, second, start)
  }

  function PublishPair(kind: Kind, m: KernelMachine, first: Owner, second: Owner,
      start: OtherRegisters): (p: Publication)
    requires Published(first) && first.live && first.state == Inactive
    requires Published(second) && second.live && second.state == Inactive
    ensures p.Started? ==> WellOwned(p.system.owners)
  {
    if first.root.None? || second.root.None? then Abandoned(NoRoot, m.state)
    else
      var a := Initial(SENDER_TASK_ID, kind.First(), first.root.value, start);
      var b := Initial(RECEIVER_TASK_ID, kind.Second(), second.root.value, start);
      var created := NewRuntime(kind, a, b);
      if !ContextFits(a, SENDER_TASK_ID, kind.First(), first.root.value)
         || !ContextFits(b, RECEIVER_TASK_ID, kind.Second(), second.root.value) || created.Err?
      then
        var (m1, t1) := Teardown(Step, m, second);
        var (m2, t2) := Teardown(Step, m1, first);
        Abandoned(if t1.TornDown? && t2.TornDown? then InitialContext else PublicationRollback, m2.state)
      else
        match DispatchIn(created.value)
        case Ok((r, Some(t))) =>
          if kind != CooperativeKind && t != SENDER_TASK_ID then Abandoned(InitialDispatch, m.state)
          else Started(ResumeTask(System(r, Owners(Some(first), Some(second)), m.state, None, InKernel(Finished)), t))
        case _ => Abandoned(InitialDispatch, m.state)
  }

  // Publication ---------------------------------------------------------------------------------------

  lemma NewJournaledLands(a: TaskContext, b: TaskContext)
    requires a.taskId == 1 && b.taskId == 2 && a.root != 0 && b.root != 0
    requires a.generation == SUPERVISOR_GENERATION && b.generation == WORKLOAD_GENERATION
    ensures NewJournaled(a, b).Ok? && NewJournaled(a, b).value.runtime == SupervisedState(a, b, JournaledEntries())
    ensures NewJournaled(a, b).value.journal == LIVE_JOURNAL
  {
    var entries := JournaledEntries();
    forall i | 0 <= i < |entries| ensures EntryAllowed(Supervised, 1, SUPERVISOR_GENERATION, i, entries[i]) {}
    SupervisedStateInv(a, b, entries);
    var j := Journaled(SupervisedState(a, b, entries), LIVE_JOURNAL);
    assert JournalInv(j) by { hide Inv; }
    hide JournalInv, ValidateJournaled;
    JournalInvValidates(j);
  }

  /** Well-formed contexts are always accepted, and both slots hold the roots they were given. */
  lemma NewRuntimeLands(kind: Kind, a: TaskContext, b: TaskContext)
    requires ContextFits(a, 1, kind.First(), a.root) && ContextFits(b, 2, kind.Second(), b.root)
    ensures var created := NewRuntime(kind, a, b);
            && created.Ok?
            && (created.value.WithJournal? ==>
                  NewJournaled(a, b).Ok? && created.value.journaled == NewJournaled(a, b).value)
            && (kind.CooperativeKind? ==> created.value.Base? && created.value.Core().profile == Cooperative)
            && var core := created.value.Core();
               && Inv(core) && core.queue != [] && (!kind.CooperativeKind? ==> core.queue[0] == SENDER_TASK_ID)
               && core.sender.state == Ready && core.receiver.state != TaskDead && !RI.Active(core.receiver)
               && core.sender.generation == a.generation && core.sender.context.root == a.root
               && core.receiver.generation == b.generation && core.receiver.context.root == b.root
  {
    hide Inv, Validate;
    match kind {
      case CooperativeKind =>
        CooperativeStateInv(a, b);
        InvValidates(CooperativeState(a, b));
      case SupervisedKind =>
        SupervisorAllowed();
        SupervisedStateInv(a, b, SupervisorEntries());
        InvValidates(SupervisedState(a, b, SupervisorEntries()));
      case JournaledKind =>
        NewJournaledLands(a, b);
        NewJournaledInv(a, b);
        JournalInvInv(NewJournaled(a, b).value);
    }
  }

  lemma SupervisorAllowed()
    ensures |SupervisorEntries()| <= 4
    ensures forall i :: 0 <= i < |SupervisorEntries()| ==>
              EntryAllowed(Supervised, 1, SUPERVISOR_GENERATION, i, SupervisorEntries()[i])
  {
  }

  lemma DispatchSpaces(s: RuntimeState)
    requires DispatchNext(s).Ok? && s.sender.state != TaskDead && s.receiver.state != TaskDead
    ensures SameSpaces(s, DispatchNext(s).value.0)
  {
    hide Validate;
  }

  /** The first dispatch of a fresh runtime runs some task, with no binding changed. */
  lemma DispatchInLands(kind: Kind, a: TaskContext, b: TaskContext)
    requires ContextFits(a, 1, kind.First(), a.root) && ContextFits(b, 2, kind.Second(), b.root)
    requires NewRuntime(kind, a, b).Ok?
    ensures var created := NewRuntime(kind, a, b).value;
            var r := DispatchIn(created);
            && r.Ok? && r.value.1.Some? && Sane(r.value.0, OnCpu(r.value.1.value))
            && (!kind.CooperativeKind? ==> r.value.1.value == SENDER_TASK_ID)
            && SameSpaces(created.Core(), r.value.0.Core())
            && (kind.CooperativeKind? ==> r.value.0.Base? && r.value.0.Core().profile == Cooperative)
  {
    hide Inv, Validate, JournalInv, NewRuntime, DispatchNext, SameSpaces, JournaledMachineInv, NewJournaled;
    NewRuntimeLands(kind, a, b);
    var created := NewRuntime(kind, a, b).value;
    DispatchLands(created.Core());
    DispatchSpaces(created.Core());
    if created.WithJournal? {
      BootJournaledInv(a, b);
      RunsIsRunning(DispatchNext(created.Core()).value.0, created.Core().queue[0]);
    }
  }

  /** The pair's roots are usable unless the very first frame of memory was free. */
  lemma {:induction false} RootsUsable(k0: Kernel, k: Kernel, first: Owner, second: Owner)
    requires Ample(k0) && Published(first) && Published(second) && Held(k0, k, Some(first.ledger), Some(second.ledger))
    ensures first.root.value % PAGE_SIZE == 0 && second.root.value % PAGE_SIZE == 0 && second.root.value != 0
    ensures first.root.value != 0 <==> 0 !in Pages(k0.free)
  {
    hide Pages, Canonical, FreeAfter, Linked, Outside;
    var free := k0.free;
    SoundTables(k0);
    FreeCount(free, 0);
    FreeCount(free, SIZE);
    StartsFree(free);
    TakesFrame(free, 0);
    PageAtIs(free, 0);
    PageAtIs(free, SIZE);
    FreeAfterAdds(free, 0, 0);
    FreeAfterAdds(free, SIZE, 0);
    PagesAscendTo(free, 0, SIZE);
    if 0 in Pages(free) { LeastAfter(free, 0, 0); }
    PageNumbers(free, PageAt(free, 0));
  }

  lemma PageNumbers(free: seq<Extent>, page: int)
    requires page in Pages(free)
    ensures 0 <= page
  {
  }

  /** Publishing a built pair: it starts unless a root is unusable, and then both spaces go back. */
  lemma PublishPairLands(kind: Kind, k0: Kernel, m: KernelMachine, first: Owner, second: Owner, start: OtherRegisters)
    requires Ample(k0) && Held(k0, m.state, Some(first.ledger), Some(second.ledger))
    requires Published(first) && first.live && first.state == Inactive && first.generation == kind.First()
    requires Published(second) && second.live && second.state == Inactive && second.generation == kind.Second()
    ensures var p := PublishPair(kind, m, first, second, start);
            && (p.Started? <==> 0 !in Pages(k0.free))
            && (p.Started? ==> SystemInv(k0, p.system) && p.system.phase.phase.OnCpu?)
            && (p.Started? && kind.CooperativeKind? ==>
                  p.system.runtime.Base? && p.system.runtime.Core().profile == Cooperative)
            && (p.Abandoned? ==> p.why == InitialContext && p.kernel.free == k0.free)
  {
    hide Pages, Held, Ample, Inv, JournalInv, NewRuntime, DispatchIn, Sane, Teardown, Step, ResumeTask, RunningTask,
      SameSpace, InPlanOrder;
    RootsUsable(k0, m.state, first, second);
    var a := Initial(SENDER_TASK_ID, kind.First(), first.root.value, start);
    var b := Initial(RECEIVER_TASK_ID, kind.Second(), second.root.value, start);
    if first.root.value == 0 {
      SecondThenFirst(k0, m, first, second);
    } else {
      NewRuntimeLands(kind, a, b);
      DispatchInLands(kind, a, b);
      var created := NewRuntime(kind, a, b).value;
      var (r, chosen) := DispatchIn(created).value;
      BoundAgain(created.Core().sender, r.Core().sender, Some(first), false);
      BoundAgain(created.Core().receiver, r.Core().receiver, Some(second), false);
      ResumeLands(k0, System(r, Owners(Some(first), Some(second)), m.state, None, InKernel(Finished)), chosen.value);
    }
  }

  /**
   Publication starts exactly when there are programs for both tasks, frames for both spaces, and
   frame zero is not among them; whatever else happens, the free table is the one before, and no
   rollback fails.
   */
  lemma PublishExactly(kind: Kind, k0: Kernel, start: OtherRegisters)
    requires Sound(k0)
    ensures var p := Publish(kind, k0, start);
            && (p.Started? <==> && kind.First() in k0.probes && kind.Second() in k0.probes
                                && 2 * SIZE <= |Pages(k0.free)| && 0 !in Pages(k0.free))
            && (p.Started? ==> SystemInv(k0, p.system) && p.system.phase.phase.OnCpu?)
            && (p.Started? && kind.CooperativeKind? ==>
                  p.system.runtime.Base? && p.system.runtime.Core().profile == Cooperative)
            && (p.Abandoned? ==>
                  && (p.why == FirstSpace || p.why == SecondSpace || p.why == InitialContext)
                  && p.kernel.free == k0.free)
  {
    hide Pages, Canonical, Step, ConstructPair, Held, SystemInv, PublishPair, Got, Later, KC.Midway, KC.Loaded, Zeroed,
      SameElsewhere, InPlanOrder, FreeAfter;
    var m0 := AS.Machine(k0, []);
    KC.PairOutcome(k0, m0, kind.First(), kind.Second());
    var (m, pair) := ConstructPair(Step, m0, kind.First(), kind.Second());
    if pair.BuiltPair? {
      KC.PairPublished(m0, kind.First(), kind.Second());
      PairHolds(k0, m0, kind.First(), kind.Second());
      PublishPairLands(kind, k0, m, pair.first, pair.second, start);
    }
  }

  // Every run -----------------------------------------------------------------------------------------

  /** No page either task can reach is the other's. */
  ghost predicate Apart(k: Kernel, a: Owner, b: Owner) {
    a.root.Some? && b.root.Some? &&
    forall x: u64, y: u64 ::
      var ta := UserWalk(k.memory, a.root.value, x);
      var tb := UserWalk(k.memory, b.root.value, y);
      ta.Some? && tb.Some? ==> ta.value.frame != tb.value.frame
  }

  /** What holds of the address spaces while the system runs. */
  ghost predicate Confined(sys: System) {
    && (sys.owners.sender.Some? ==> Isolated(sys.kernel, sys.owners.sender.value))
    && (sys.owners.receiver.Some? ==> Isolated(sys.kernel, sys.owners.receiver.value))
    && (sys.owners.sender.Some? && sys.owners.receiver.Some? ==>
          Apart(sys.kernel, sys.owners.sender.value, sys.owners.receiver.value))
  }

  lemma HeldApart(k0: Kernel, k: Kernel, a: Owner, b: Owner)
    requires Ample(k0) && Held(k0, k, Some(a.ledger), Some(b.ledger)) && Isolated(k, a) && Isolated(k, b)
    ensures Apart(k, a, b)
  {
    hide Pages, Canonical, FreeAfter, Takes, Tabled, Outside, UserWalk, InPlanOrder, InLedger, Canonical48, Page4K;
    forall j | 5 <= j < 7 ensures !InLedger(a.ledger, b.ledger[j].start) {
      SoundTables(k0);
      Elsewhere(k0.free, 0, a.ledger, SIZE, b.ledger, j);
    }
    assert forall i, j :: 5 <= i < 7 && 5 <= j < 7 ==> a.ledger[i].start != b.ledger[j].start by {
      forall i, j | 5 <= i < 7 && 5 <= j < 7 ensures a.ledger[i].start != b.ledger[j].start {
        OutOfLedger(a.ledger, i, b.ledger[j].start);
      }
    }
  }

  lemma OutOfLedger(ledger: Ledger, i: nat, start: u64)
    requires i < |ledger| && !InLedger(ledger, start)
    ensures ledger[i].start != start
  {
  }

  lemma InvConfines(k0: Kernel, sys: System)
    requires SystemInv(k0, sys) && SharedSupervisor(k0.recovery)
    ensures Confined(sys)
  {
    hide Pages, Canonical, Sane, Isolated, Apart, SharedSupervisor, Outside, Takes, Tabled, InPlanOrder, FreeAfter;
    HeldSound(k0, sys.kernel, LedgerOf(sys.owners.sender), LedgerOf(sys.owners.receiver));
    if sys.owners.sender.Some? { TabledIsIsolated(sys.kernel, sys.owners.sender.value); }
    if sys.owners.receiver.Some? { TabledIsIsolated(sys.kernel, sys.owners.receiver.value); }
    if sys.owners.sender.Some? && sys.owners.receiver.Some? {
      HeldApart(k0, sys.kernel, sys.owners.sender.value, sys.owners.receiver.value);
    }
  }

  /** Nothing of either task is left in the runtime. */
  predicate Swept(s: RuntimeState) {
    && s.sender == DeadSlot() && s.receiver == DeadSlot() && s.queue == []
    && s.endpoint == EMPTY_ENDPOINT && s.manifest == EMPTY_MANIFEST && s.broker == DEAD_BROKER
         && s.effect == EMPTY_EFFECT
  }

  lemma DeadIsSwept(s: RuntimeState)
    requires Inv(s) && BothDead(s)
    ensures Swept(s)
  {
  }

  lemma RunEnds(k0: Kernel, sys: System)
    requires SystemInv(k0, sys)
    ensures match sys.phase.phase {
              case OnCpu(task) =>
                && sys.owners.Get(task).Some?
                && var owner := sys.owners.Get(task).value;
                   owner.state == Active && owner.root.Some? && sys.active == Some((task, owner.root.value))
              case Finished => sys.owners == Owners(None, None) && sys.kernel.free == k0.free
                  && Swept(sys.runtime.Core())
              case KernelFailure(point) =>
                && point == TeardownTransition && sys.runtime.Core().profile == Supervised
                && sys.owners.sender.None? && sys.owners.receiver.Some?
            }
  {
    hide Pages, Canonical, Held, Inv, EpochsSound, LiveInv, Swept, InPlanOrder, Sound;
    if sys.phase.phase.Finished? {
      DeadIsSwept(sys.runtime.Core());
      NobodyLeft(k0, sys.kernel);
    }
  }

  lemma {:induction false} StaysCooperative(r: KernelRuntime, phase: Phase, frames: seq<TrapFrame>)
    requires Sane(r, phase) && r.Base? && r.Core().profile == Cooperative
    ensures RunIn(r, phase, frames).0.Core().profile == Cooperative
  {
    hide MachineInv, Run;
    RunsAgree(r, phase, frames);
    RunProgress(KD.Machine(r.state, phase), frames);
  }

  /**
   Every run of every profile, whatever the registers: no owner check fails, the runtime moves as it
   does alone, each task is confined to its own text and stack and the running one owns the processor,
   and a run that ends has left nothing behind, neither in the runtime nor in the free table.
   */
  lemma {:induction false} EverySystemRun(kind: Kind, k0: Kernel, start: OtherRegisters, frames: seq<TrapFrame>)
    requires Sound(k0) && SharedSupervisor(k0.recovery) && !Tight(k0.free) && Publish(kind, k0, start).Started?
    ensures var begun := Publish(kind, k0, start).system;
            var sys := RunSystem(begun, frames);
            && begun.phase.InKernel? && sys.phase.InKernel?
            && (sys.runtime, sys.phase.phase) == RunIn(begun.runtime, begun.phase.phase, frames)
            && Confined(sys)
            && match sys.phase.phase {
                 case OnCpu(task) =>
                   && sys.owners.Get(task).Some?
                   && var owner := sys.owners.Get(task).value;
                      owner.state == Active && owner.root.Some? && sys.active == Some((task, owner.root.value))
                 case Finished => sys.owners == Owners(None, None) && sys.kernel.free == k0.free
                     && Swept(sys.runtime.Core())
                 case KernelFailure(point) =>
                   && point == TeardownTransition && !kind.CooperativeKind?
                   && sys.owners.sender.None? && sys.owners.receiver.Some?
               }
  {
    hide Pages, Canonical, Publish, RunSystem, RunIn, Confined, SharedSupervisor, Tight, Sound, Swept;
    PublishExactly(kind, k0, start);
    var begun := Publish(kind, k0, start).system;
    RunLands(k0, begun, frames);
    InvConfines(k0, RunSystem(begun, frames));
    RunEnds(k0, RunSystem(begun, frames));
    if kind.CooperativeKind? { StaysCooperative(begun.runtime, begun.phase.phase, frames); }
  }

  /**
   From power-on: over the frame table that any accepted image and firmware map leave, publication
   and every run after it behave as above, since that table always has a spare entry.
   */
  lemma {:induction false} BootedMachine(
    image: KI.Image, sources: seq<Rg.Region>, overrides: seq<N.Override>, capacity: nat, h: H.BootHandoff, address: u64,
    slice: u64, kind: Kind, k0: Kernel, start: OtherRegisters, frames: seq<TrapFrame>)
    requires KI.Accepted(image) && Bt.LoaderOverrides(image, h.framebuffer, overrides)
    requires NM.Plain(sources) && NM.Plain(N.OverrideRegions(overrides))
            && N.Normalized(sources, overrides, capacity).Ok?
    requires H.Sound(h, address, slice, N.Normalized(sources, overrides, capacity).value)
    requires var out := N.Normalized(sources, overrides, capacity).value;
             Rg.Sorted(out) && k0.managed == EF.Fill(out) && k0.free == EF.Fill(out)
    requires Sound(k0) && SharedSupervisor(k0.recovery)
    ensures var p := Publish(kind, k0, start);
            match p {
              case Abandoned(why, kernel) => kernel.free == k0.free
              case Started(begun) =>
                var sys := RunSystem(begun, frames);
                && sys.phase.InKernel? && Confined(sys)
                && (sys.phase.phase.Finished? ==> sys.kernel.free == k0.free && sys.owners == Owners(None, None))
            }
  {
    hide Pages, Publish, RunSystem, Confined, SharedSupervisor, Sound, EF.Fill, Rg.Sorted, N.Normalized, NM.Plain,
      KI.Accepted, Bt.LoaderOverrides, H.Sound, PageAt;
    Bt.SpareEntry(image, sources, overrides, capacity, h, address, slice);
    PublishExactly(kind, k0, start);
    if Publish(kind, k0, start).Started? { EverySystemRun(kind, k0, start, frames); }
  }
}
