/**
 The whole kernel and the reference machine: from publication on, what the two programs
 can see of any run of any profile is what the reference machine shows them.
 */
module SystemRefinement {
  import opened Words
  import opened TrapAbi
  import opened Runtime
  import opened KD = KernelDrive
  import opened Journal
  import opened JournalDrive
  import opened KernelRuntimes
  import AS = AddressSpace
  import opened KernelBackend
  import KC = KernelConstruction
  import opened TaskFrames
  import opened UserMappings
  import opened SystemRun
  import opened SystemBoot
  import Ref = Reference
  import opened ReferenceView
  import opened Refinement
  import opened JournalRefinement

  /** What a system shows of its runtime. */
  ghost function Visible(r: KernelRuntime, phase: Phase): Ref.World {
    match r
    case Base(s) => Shown(KD.Machine(s, phase))
    case WithJournal(j) => ShownWith(JournaledMachine(j, phase))
  }

  /** Both programs start with zeros and the entry register set. */
  function Fresh(start: OtherRegisters): Ref.Registers {
    TrapFrame(0, 0, 0, 0, start)
  }

  function Beginning(kind: Kind, start: OtherRegisters): Ref.World {
    match kind
    case CooperativeKind => Ref.Cooperating(Fresh(start), Fresh(start))
    case SupervisedKind => Ref.Supervising(Fresh(start), Fresh(start), false)
    case JournaledKind => Ref.Supervising(Fresh(start), Fresh(start), true)
  }

  /** A runtime over two fresh contexts, dispatched and resumed, then driven as it is alone. */
  lemma {:induction false} RuntimeRefines(
    kind: Kind, a: TaskContext, b: TaskContext, start: OtherRegisters, r: KernelRuntime, task: u64,
    frames: seq<TrapFrame>)
    requires RegistersOf(a) == Fresh(start) && RegistersOf(b) == Fresh(start)
    requires NewRuntime(kind, a, b).Ok? && DispatchIn(NewRuntime(kind, a, b).value) == Ok((r, Some(task)))
    requires RunningTask(r.Core()) == Ok(task)
    ensures var (r', phase') := RunIn(r, OnCpu(task), frames);
            Visible(r', phase') == Ref.Run(Beginning(kind, start), frames)
  {
    hide RunIn, Ref.Run, Run, RunJournaled, DispatchNext, NewCooperative, NewSupervised, NewJournaled, Shown, ShownWith,
      RunningTask, RegistersOf;
    RunsAgree(r, OnCpu(task), frames);
    match kind {
      case CooperativeKind => EveryRunRefines(a, b, Cooperative, frames);
      case SupervisedKind => EveryRunRefines(a, b, Supervised, frames);
      case JournaledKind => EveryJournaledRunRefines(a, b, frames);
    }
  }

  /** What publication starts: the dispatched runtime, over fresh contexts, on the processor. */
  lemma PublishedRuntime(kind: Kind, k0: Kernel, start: OtherRegisters) returns (a: TaskContext, b: TaskContext)
    requires Publish(kind, k0, start).Started? && Publish(kind, k0, start).system.phase.InKernel?
    requires Publish(kind, k0, start).system.phase.phase.OnCpu?
    ensures var sys := Publish(kind, k0, start).system;
            && RegistersOf(a) == Fresh(start) && RegistersOf(b) == Fresh(start)
            && NewRuntime(kind, a, b).Ok?
            && DispatchIn(NewRuntime(kind, a, b).value) == Ok((sys.runtime, Some(sys.phase.phase.task)))
            && RunningTask(sys.runtime.Core()) == Ok(sys.phase.phase.task)
  {
    hide Step, AS.ConstructPair, AS.Teardown, NewRuntime, DispatchIn, RunningTask, AS.InPlanOrder;
    var m0 := AS.Machine(k0, []);
    var (m, pair) := AS.ConstructPair(Step, m0, kind.First(), kind.Second());
    KC.PairPublished(m0, kind.First(), kind.Second());
    a := Initial(1, kind.First(), pair.first.root.value, start);
    b := Initial(2, kind.Second(), pair.second.root.value, start);
  }

  /**
   Every run of the whole kernel, whatever the programs put in their registers: who runs, who waits, what each program
   holds and is told, the endpoint, the approval desk, the effect and the journal are those of the reference machine.
   */
  lemma {:induction false} EverySystemRunRefines(kind: Kind, k0: Kernel, start: OtherRegisters, frames: seq<TrapFrame>)
    requires Sound(k0) && SharedSupervisor(k0.recovery) && !Tight(k0.free) && Publish(kind, k0, start).Started?
    ensures var sys := RunSystem(Publish(kind, k0, start).system, frames);
            sys.phase.InKernel? && Visible(sys.runtime, sys.phase.phase) == Ref.Run(Beginning(kind, start), frames)
  {
    hide *;
    EverySystemRun(kind, k0, start, frames);
    PublishExactly(kind, k0, start);
    var begun := Publish(kind, k0, start).system;
    var a, b := PublishedRuntime(kind, k0, start);
    RuntimeRefines(kind, a, b, start, begun.runtime, begun.phase.phase.task, frames);
  }
}
