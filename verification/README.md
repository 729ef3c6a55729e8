# MakopaOS: verified model

MakopaOS is a small kernel whose logic lives in crates without hardware access. This project
models that logic in Dafny and proves what it promises, over all inputs and all runs.

- **Task runtime, approval broker and effect journal** (`Words`, `TrapAbi`, `Capability`, `Runtime`,
  `Journal` and the modules over them). Two cooperating tasks share a one-slot endpoint or, in the
  supervised profile, a supervisor launches a staged workload and approves its effects, each of
  which is journaled in slots reserved beforehand. The transitions are functions with every
  defensive check and error path of the source. `RuntimeInvariant` strengthens `validate` until it
  is inductive (who may hold which right in which slot, what an open approval looks like, what the
  queue holds), `KernelDrive` and `JournalDrive` drive the transitions in the kernel's order
  (capture, handle, and on exit begin and complete teardown), and the theorems quantify over every
  finite run and every register value: progress, exact delivery, single-use approvals, well-formed
  lifecycles, sound reservations, and redaction as a property of two runs. `JournalLog` shows that
  the journal tells exactly what the two tasks saw accepted. `CapabilityTable`, `TaskRuntime`,
  `EffectJournal` and `JournaledRuntime` are the same code as objects: slot, queue and record arrays
  and fields changed in place and put back on failure, each method proved equal to its function.
- **The same runtime, written independently** (`Reference`, `ReferenceView`, `TrapRefinement`,
  `BrokerRefinement`, `Refinement`, `JournalRefinement`). A reference machine in plain numbers, sets
  and maps says what each call does without slot tables, snapshots or checks that cannot fail. Every
  run of the modelled runtime shows exactly its state (`Refinement.EveryRunRefines`,
  `JournalRefinement.EveryJournaledRunRefines`, and `SystemRefinement.EverySystemRunRefines` for the
  whole kernel), so no transition can do anything else than what the reference says. Over it,
  `Fairness` proves that a yield hands the processor to a ready peer, `RecordTable` that every
  record is a line of one table of numbers, and `HandleLaws`, `Constructors` and `ValidateMeaning`
  give exact conditions for handles, constructors and the validator.
- **Frame allocator** (`Extents`, `ExtentFill`, `FrameAllocator`). Two arrays of extents, split,
  merged and shifted in place, agree with a plain set of pages over any sequence of calls; canonical
  tables are unique, so restoring the set restores the array.
- **Address spaces and page tables** (`AddressSpace`, `AddressSpaceOwner`, `PageTables`,
  `KernelBackend`, `KernelMemory`, `KernelOwners`, `KernelTables`, `KernelConstruction`,
  `TaskFrames`, `UserMappings`, `Bootstrap`, `BootstrapBuilder`, and the laws in `AddressSpaceLaws`,
  `OwnerLaws` and `BackendLaws`). Construction, rollback and teardown are generic in the backend: an
  arbitrary state machine that may refuse any call, with every call and reply kept in a trace, which
  is proved to follow a fixed script up to the first refusal. They are then run over the kernel's
  own backend and the real allocator tables. Table words follow the 4-level paging section (4.5) of
  the Intel SDM, volume 3A, and a finished address space is walked as that section prescribes for
  user accesses, over every 64-bit address. The bootstrap builder's 32-table pool is a finite map
  from page numbers to entries.
- **The whole kernel** (`KernelRuntimes`, `SystemRun`, `SystemTheorems`, `SystemBoot`,
  `KernelCells`, `SystemLaws`). The runtime, plain or journaled, the two owners and the kernel
  memory they are built in, driven together: publication, resumption, trap dispatch and teardown
  with every check the kernel makes. Over every run no owner check fails, the runtime inside moves
  exactly as it does alone (so every runtime theorem carries over), each task stays confined to its
  two pages, and a finished run has restored the free table. `SystemBoot.BootedMachine` joins this
  to the boot pipeline. `KernelCells` holds the runtime, owner and memory objects themselves;
  `KernelCells.Cells.DispatchAll` keeps them equal to the system of the theorems through every trap.
- **Boot memory pipeline** (`Regions`, `Normalize`, `NormalizeMeaning`, `NormalizeFaults`,
  `Handoff`, `HandoffMeaning`, `KernelImage`, `ElfLayout`, `Boot`, `BootLaws`). The two-cursor
  overlay of memory maps, the handoff check and the ELF64 segment check, each with its exact
  acceptance condition and the error told otherwise, compose into one guarantee about every frame
  ever handed out. Firmware maps follow GetMemoryMap (section 7.2.3 of UEFI 2.11), segments the
  Program Header section of the System V gABI, whose header layout `ElfLayout` writes as an encoder.
- **Source manifests** (`Text`, `Manifest`, `ManifestMeaning`, `ManifestPaths`, `ManifestNesting`,
  `ManifestParser`). The strict parser of the component-admission tool and the canonical printer are
  exact inverses, the accepted texts are written out, and every accepted path stays below its
  directory.

Machine words are a subset type of the integers; wrap-around and checked arithmetic are written out
where the source performs them, and page-table words are taken apart by division and remainder.
`dafny verify dfyconfig.toml` covers every file. Lemmas that Dafny would try by its own induction
carry `{:induction false}`, so each proof is the one that is written.

Five facts about the code are worth stating beside the proofs:

- A supervisor that exits while its workload is still staged leaves nothing to run. The kernel then
  stops in `complete_teardown`; `KernelDrive.DriveProgress` gives the exact condition, and no other
  trap of any profile can fail.
- In the journaled `handle_trap` and `begin_teardown` a few error returns leave changes behind: some
  come before the snapshot is put back (crates/task-runtime/src/lib.rs:3447, 3498, 3503, 3659), some
  from a check made after a status was written (lines 3411, 3546, 3609). They are unreachable from
  any published state. `JournaledRuntimes.LeavesTraces` covers the traps that could take one,
  `JournaledRuntimes.Unsealed` says what the teardown leaves, and everywhere else the object methods
  promise the restored state.
- The manifest parser compares each path with its predecessor only, so `a`, `a-b`, `a/b` is accepted
  although `a/b` lies inside `a` (`ManifestNesting.ParserAcceptsNesting`).
  `ManifestNesting.NestedExactly` says which manifests nest: one look past the paths that go on with
  a dash or a dot decides it for each entry.
- Frames of two owners are not interchangeable in order. Giving the first owner back before the
  second can be refused for capacity when the free table is completely full;
  `TaskFrames.FirstThenSecond` gives the exact shape and `TaskFrames.CrowdedKernelRefuses` a kernel
  that meets it; the other order is never refused. The kernel cannot meet it: `Boot.SpareEntry`
  shows that its table always starts with a spare entry.
- If frame zero is free, the first owner's root is zero, which contexts reject. Publication then
  gives both spaces back and stops; `SystemBoot.PublishExactly` states the condition.

## Model

| member | source | states |
|---|---|---|
| `KernelDrive.EveryRunProgresses` | kernel/src/arch_x86_64.rs:1984-2097 | From a freshly built cooperative or supervised runtime, after any finite sequence of traps with any register values, the kernel is running a task, has buried both, or has stranded a staged workload; a cooperative run never fails. |
| `KernelDrive.DriveProgress` | kernel/src/arch_x86_64.rs:2041-2096 | One driven trap keeps the machine invariant and reaches a kernel failure if and only if the supervisor makes a well-formed exit while its workload is still staged; the condition reads the frame and the state before the trap. |
| `KernelDrive.RunProgress` | kernel/src/arch_x86_64.rs:1984-2097 | The invariant holds after every run from any state that has it. |
| `KernelDrive.TeardownProgress` | kernel/src/arch_x86_64.rs:2056-2096 | Tearing an exited task down ends with a running task, both tasks dead, or exactly the stranded workload. |
| `KernelDrive.BootProgress` | crates/task-runtime/src/lib.rs:1655-1681 | Whatever the two constructors accept boots into the invariant with a task on the processor. |
| `KernelDrive.ExitExactly` | crates/task-runtime/src/lib.rs:2509-2523 | A trap ends its task exactly when it is a well-formed exit, and then changes only the task's state. |
| `RuntimeInvariant.InvValidates` | crates/task-runtime/src/lib.rs:2102-2390 | The inductive invariant implies every check of `validate`, in both profiles, so no validation inside a transition can fail. |
| `RuntimeProgress.TrapLands` | crates/task-runtime/src/lib.rs:2392-2439 | For every operation number and operand, a trap of the running task succeeds and leaves the invariant, with the caller resumed, another ready task dispatched, or the caller exited. |
| `RuntimeProgress.BeginTeardownLands` | crates/task-runtime/src/lib.rs:2990-3058 | The first half of teardown never fails on an exited task and leaves its table empty and closing. |
| `RuntimeProgress.CompleteTeardownLands` | crates/task-runtime/src/lib.rs:3060-3091 | The second half dispatches a ready task or finds both dead; its one error is no runnable task, and only for a stranded workload. |
| `RuntimeProgress.DispatchLands` | crates/task-runtime/src/lib.rs:2037-2058 | Dispatching a nonempty queue under the invariant runs its head. |
| `RuntimeProgress.SendLands` | crates/task-runtime/src/lib.rs:2441-2472 | Send succeeds on every operand and keeps the invariant, including the wake of a blocked receiver. |
| `RuntimeProgress.ReceiveLands` | crates/task-runtime/src/lib.rs:2474-2507 | Receive succeeds on every operand and keeps the invariant; blocking always finds another task to run. |
| `RuntimeProgress.DuplicateLands` | crates/task-runtime/src/lib.rs:2525-2547 | Duplicate succeeds as a transition on every operand, whatever status it reports. |
| `RuntimeProgress.CloseLands` | crates/task-runtime/src/lib.rs:2549-2572 | Close succeeds as a transition on every operand, whatever status it reports. |
| `RuntimeProgress.StartLands` | crates/task-runtime/src/lib.rs:2584-2687 | Launching the workload succeeds or refuses on every operand and keeps the invariant. |
| `RuntimeProgress.SubmitLands` | crates/task-runtime/src/lib.rs:2689-2774 | Submitting parks the workload and switches to the supervisor, or refuses, on every operand. |
| `RuntimeProgress.DecideLands` | crates/task-runtime/src/lib.rs:2827-2906 | Deciding succeeds on every operand, epoch exhaustion included. |
| `RuntimeProgress.CommitLands` | crates/task-runtime/src/lib.rs:2908-2970 | Committing succeeds on every operand. |
| `RuntimeProgress.CommitNeverExpired` | crates/task-runtime/src/lib.rs:2943-2960 | A commit that matches an approved request is never refused as expired. |
| `RuntimeProgress.RightHolder` | crates/task-runtime/src/lib.rs:3112-3136 | In an invariant state a send, start, decide or commit right resolves only for the first task and a receive or submit right only for the second, each only in its profile. |
| `Waiting.StepUndisturbed` | crates/task-runtime/src/lib.rs:2972-2979 | Across one driven step the peer's saved registers are unchanged, except for rax and rdx in the very step that ends a blocked peer's wait. |
| `JournalWaiting.JournaledStepUndisturbed` | crates/task-runtime/src/lib.rs:3488-3520 | The same for every journaled step, including the refused effect that wakes the workload. |
| `JournalWaiting.JournaledTrapUndisturbed` | crates/task-runtime/src/lib.rs:3377-3528 | No journaled trap touches the other task's slot beyond ending its wait. |
| `Waiting.TrapUndisturbed` | crates/task-runtime/src/lib.rs:2392-2439 | A trap leaves the other task's slot alone apart from the result that ends its wait. |
| `Ipc.SentIsDeliveredThenInFlight` | crates/task-runtime/src/lib.rs:2441-2507 | Until the receiver is torn down, the values accepted from the sender are the values delivered followed by the slot's content, in order, over every run. |
| `Ipc.PeerExitedIsLast` | crates/task-runtime/src/lib.rs:3035-3058 | The receiver is told that its peer exited only when everything ever sent has been delivered. |
| `Ipc.CooperativeRunsDeliver` | crates/task-runtime/src/lib.rs:1655-1666 | Both guarantees for every run of a freshly built cooperative runtime. |
| `Capability.EncodeHandle` | crates/task-runtime/src/lib.rs:976-985 | A raw handle exists exactly for a slot below sixteen and a generation in range, and decodes to that pair. |
| `Capability.DecodeHandle` | crates/task-runtime/src/lib.rs:991-998 | Decoding succeeds exactly on values with a nonzero generation and is the inverse of encoding. |
| `Capability.HandlesNeverReissued` | crates/task-runtime/src/lib.rs:1199-1258 | Over unbounded duplicate and close sequences, generation exhaustion and retirement included, no table issues a raw handle twice or one already spent. |
| `Capability.ClosedHandleNeverResolves` | crates/task-runtime/src/lib.rs:1166-1197 | After a close, that raw handle resolves to nothing after any later duplicates and closes. |
| `Capability.RightsNeverGrow` | crates/task-runtime/src/lib.rs:1199-1241 | Every entry a sequence of duplicates and closes produces targets an object some original entry targeted, with rights inside that entry's. |
| `Handles.GrantedHandlesDistinct` | crates/task-runtime/src/lib.rs:2525-2572 | Over every cooperative run the handles a task is handed are pairwise distinct. |
| `Handles.RightsBounded` | crates/task-runtime/src/lib.rs:1779-1907 | In every reachable state each live entry is one that publication or the manifest installed, or a narrower copy of it. |
| `Lifecycle.ScanReads` | crates/task-runtime/src/lib.rs:3377-3528 | A record sequence that the lifecycle automaton accepts is exactly the writing-out of numbered lifecycles, the last open or not as the automaton says. |
| `Lifecycle.TwoRecordsEach` | crates/task-runtime/src/lib.rs:474-526 | Counted lifecycles take at least two records each, save one still awaiting its decision, which bounds how many sixteen records can hold. |
| `JournalTheorems.RecordsFormLifecycles` | crates/task-runtime/src/lib.rs:3377-3528 | In every reachable journaled state the committed records are lifecycles Requested (Denied, Expired, or Approved then Expired, Completed or Failed) numbered from one; only the last may be open, exactly as the broker is pending or approved; at most one completes and every failed one follows it; there are at most seven. |
| `JournalTheorems.SealedRequestsAllClosed` | crates/task-runtime/src/lib.rs:3637-3694 | Once the journal is sealed each lifecycle it holds has exactly one closing record. |
| `JournalLog.TrapTraced` | crates/task-runtime/src/lib.rs:3377-3528 | Failure records aside, one journaled trap adds to the records exactly the submit, decision or commit its caller saw accepted, and nothing when it saw none. |
| `JournalLog.JournalTellsTheLog` | crates/task-runtime/src/lib.rs:3377-3528 | Over every run the records, less failures and less what the system closes itself, are event for event and in order the log of what the two tasks had accepted. |
| `JournalLog.LifecyclesAreRequests` | crates/task-runtime/src/lib.rs:474-526 | The lifecycles are the accepted submits, the n-th numbered n, at most seven; the completed ones are the accepted commits. |
| `JournalLog.AcceptedRequestsAllClosed` | crates/task-runtime/src/lib.rs:3637-3694 | Once the journal is sealed every submit the run accepted has exactly one closing record, and no other number has one. |
| `JournalLog.CommitsAreCompletions` | crates/task-runtime/src/lib.rs:3468-3487 | A commit of request n was accepted if and only if lifecycle n completed. |
| `JournalTheorems.ReservationsSound` | crates/task-runtime/src/lib.rs:474-506 | While live, two, one or no slots are reserved as the broker is pending, approved or neither, and committed plus reserved never exceeds sixteen. |
| `JournalTheorems.EpochsCountRecords` | crates/task-runtime/src/lib.rs:508-526 | Counting records from one, record k carries sequence k and epoch k + 1, and the live broker's epoch is the record count plus one, so no exhaustion path is reachable. |
| `JournalTheorems.RecordsOnlyGrow` | crates/task-runtime/src/lib.rs:3377-3710 | However a run continues, the records committed so far stay in place unaltered. |
| `JournalTheorems.FinishedReclaims` | crates/task-runtime/src/lib.rs:3712-3731 | A finished run can always be reclaimed, leaving a dead journal. |
| `JournalTheorems.ReadsBackTheRecord` | crates/task-runtime/src/lib.rs:291-314 | The six triplets a task may read of a committed record decode to that record exactly, and no other triplet is answered. |
| `JournalProgress.JournaledTrapLands` | crates/task-runtime/src/lib.rs:3377-3548 | Every journaled trap succeeds, keeps the journaling invariant and only appends; no reserved append ever fails. |
| `JournalDrive.DriveJournaledProgress` | crates/task-runtime/src/lib.rs:3637-3710 | One driven journaled step keeps the invariant, only appends, and fails exactly for a stranded workload. |
| `JournalDrive.RunJournaledProgress` | kernel/src/arch_x86_64.rs:1984-2097 | The journaling invariant holds after every run. |
| `JournalDrive.BootJournaledInv` | crates/task-runtime/src/lib.rs:3177-3297 | Whatever the journaled constructor accepts boots into the invariant with an empty live journal. |
| `JournalInvariant.JournalInvValidates` | crates/task-runtime/src/lib.rs:3733-3815 | The journaling invariant implies every check of the journaled `validate`. |
| `BrokerMoves.SubmitMove` | crates/task-runtime/src/lib.rs:2736-2774 | An accepted submit comes from the workload on an empty broker and records exactly the next sequence with its argument; a refusal changes nothing but the caller's result. |
| `BrokerMoves.DecideMove` | crates/task-runtime/src/lib.rs:2871-2906 | A decision is the supervisor's, on the named pending or approved request; approval opens a one-epoch window, denial and expiry clear the request and tell the workload which it was. |
| `BrokerMoves.CommitMove` | crates/task-runtime/src/lib.rs:2949-2970 | A commit writes its argument into an unoccupied effect under an approved request for that pair and tells the workload that value; a refusal changes nothing but the caller's result. |
| `BrokerMoves.InspectMove` | crates/task-runtime/src/lib.rs:2776-2825 | An inspection shows the pending request's sequence, kind and argument and changes only the caller's registers. |
| `BrokerMoves.OtherMove` | crates/task-runtime/src/lib.rs:2392-2439 | No other operation touches the broker or the effect. |
| `ApprovalLog.ApprovalsAreSingleUse` | crates/task-runtime/src/lib.rs:2689-2970 | Over whole runs each successful commit of a pair directly follows one approval that directly follows the submit of that pair, at most one commit succeeds, and the effect holds what it wrote. |
| `ApprovalLog.SupervisedRunsAreSingleUse` | crates/task-runtime/src/lib.rs:1668-1681 | The same for every run of a freshly built supervised runtime. |
| `ApprovalLog.JournaledApprovalsAreSingleUse` | crates/task-runtime/src/lib.rs:3377-3528 | The same over every run of the journaled runtime, whose wrapper may undo a submit or end a failed commit. |
| `ApprovalLog.JournaledRunsAreSingleUse` | crates/task-runtime/src/lib.rs:3177-3195 | The same for every run of a freshly built journaled runtime. |
| `ApprovalLog.InspectShowsSubmission` | crates/task-runtime/src/lib.rs:2776-2825 | A successful inspection shows the sequence and argument of the last accepted submit of the run. |
| `Redaction.ArgumentsAreRedacted` | crates/task-runtime/src/lib.rs:249-289 | Two-run property: renaming every submitted and committed argument injectively across a whole run leaves each phase, each saved status and the entire journal unchanged. |
| `Redaction.JournaledRunsAreRedacted` | crates/task-runtime/src/lib.rs:3177-3195 | The same for every run of a freshly built journaled runtime. |
| `CapabilityTables.CapabilityTable.Building` | crates/task-runtime/src/lib.rs:1058-1065 | A new building table has sixteen empty first-generation slots. |
| `CapabilityTables.CapabilityTable.Allocate` | crates/task-runtime/src/lib.rs:1224-1241 | In place, the first free slot takes the entry, or the exact status says why not. |
| `CapabilityTables.CapabilityTable.InstallBuilding` | crates/task-runtime/src/lib.rs:1108-1131 | Installation works only on a building table with valid rights and nonzero identities. |
| `CapabilityTables.CapabilityTable.ResolveTyped` | crates/task-runtime/src/lib.rs:1166-1197 | Resolution's result and each refusal in the source's order. |
| `CapabilityTables.CapabilityTable.Duplicate` | crates/task-runtime/src/lib.rs:1199-1241 | In place, the table and handle of the copying function, or an unchanged table and the exact status; `HandleLaws.DuplicateExactly` says which one slot that fills, with which rights, and when. |
| `CapabilityTables.CapabilityTable.Close` | crates/task-runtime/src/lib.rs:1243-1258 | In place, the slot empties into its next generation or retires. |
| `CapabilityTables.CapabilityTable.BeginClosing` | crates/task-runtime/src/lib.rs:1260-1286 | Marking and emptying in one go: a live table ends closing with no entry, each slot moved on exactly once. |
| `CapabilityTables.CapabilityTable.CloseAll` | crates/task-runtime/src/lib.rs:1273-1286 | The loop over all slots empties every occupied one into its next generation and touches no other. |
| `CapabilityTables.CapabilityTable.FinishDead` | crates/task-runtime/src/lib.rs:1288-1296 | Only an emptied closing table is blanked; otherwise nothing changes. |
| `CapabilityTables.CapabilityTable.Check` | crates/task-runtime/src/lib.rs:1307-1344 | The scan decides the table's own invariant. |
| `CapabilityTables.RunQueue.Check` | crates/task-runtime/src/lib.rs:2103-2117 | The scan accepts exactly the queues of distinct known tasks. |
| `CapabilityTables.RunQueue.Push` | crates/task-runtime/src/lib.rs:1574-1584 | The queue array gains the task at its end, or reports a duplicate before a full queue. |
| `CapabilityTables.RunQueue.Pop` | crates/task-runtime/src/lib.rs:1586-1597 | Shifting the array removes exactly the head. |
| `EffectJournals.EffectJournal.constructor` | crates/task-runtime/src/lib.rs:432-460 | A published journal is live and blank. |
| `EffectJournals.EffectJournal.Seal` | crates/task-runtime/src/lib.rs:462-468 | Sealing needs a live journal without reservations. |
| `EffectJournals.EffectJournal.BeginLifecycle` | crates/task-runtime/src/lib.rs:474-490 | A request appends its record and reserves two more, or nothing changes. |
| `EffectJournals.EffectJournal.AppendReserved` | crates/task-runtime/src/lib.rs:492-506 | A reserved append uses one reservation and may release the rest; a record refused for its shape has cost exactly one reservation. |
| `EffectJournals.EffectJournal.AppendUnreserved` | crates/task-runtime/src/lib.rs:508-526 | The array gains one record with the next sequence; the rest stays blank. |
| `EffectJournals.EffectJournal.ReadRecord` | crates/task-runtime/src/lib.rs:528-545 | Reading answers exactly the committed sequences. |
| `EffectJournals.EffectJournal.ReadTriplet` | crates/task-runtime/src/lib.rs:547-559 | A triplet is three words of a committed record, or the exact error. |
| `EffectJournals.EffectJournal.Validate` | crates/task-runtime/src/lib.rs:561-606 | The scan decides the journal's own invariant. |
| `TaskRuntimes.TaskRuntime.DispatchNext` | crates/task-runtime/src/lib.rs:2037-2058 | Popping the queue array, running its head and checking everything equals the function the theorems are about. |
| `TaskRuntimes.TaskRuntime.Check` | crates/task-runtime/src/lib.rs:2102-2178 | The check over both tasks, their tables and the queue gives exactly the function's verdict and error. |
| `TaskRuntimes.TaskRuntime.CheckCooperative` | crates/task-runtime/src/lib.rs:2180-2253 | The cooperative part of the check likewise. |
| `TaskRuntimes.TaskRuntime.CheckSupervised` | crates/task-runtime/src/lib.rs:2255-2390 | The supervised part of the check likewise. |
| `TaskRuntimes.TaskCell.Check` | crates/task-runtime/src/lib.rs:2127-2173 | One task's share of the check: table, queue membership, identities and table state, with the exact error. |
| `TaskRuntimes.TaskRuntime.Resolve` | crates/task-runtime/src/lib.rs:3112-3136 | Resolution through the task's table array gives the function's status. |
| `TaskRuntimes.TaskRuntime.CaptureTrap` | crates/task-runtime/src/lib.rs:2060-2073 | Capture replaces only the running task's saved registers. |
| `TaskRuntimes.TaskRuntime.HandleTrap` | crates/task-runtime/src/lib.rs:2075-2082 | A trap over the task, table and queue objects equals the function's transition, and on error every object is as before. |
| `TaskRuntimes.TaskRuntime.HandleTrapInner` | crates/task-runtime/src/lib.rs:2392-2439 | The dispatch on operation numbers, each arm proved equal to its function. |
| `TaskRuntimes.TaskRuntime.Yield` | crates/task-runtime/src/lib.rs:2404-2414 | Yield field by field equals its function, which by `Fairness.YieldPasses` gives the processor to a ready peer and puts the caller behind it. |
| `TaskRuntimes.TaskRuntime.Send` | crates/task-runtime/src/lib.rs:2441-2472 | Send field by field equals its function, through the slot it fills and empties again for a waiting receiver. |
| `TaskRuntimes.TaskRuntime.Receive` | crates/task-runtime/src/lib.rs:2474-2507 | Receive field by field equals its function. |
| `TaskRuntimes.TaskRuntime.ExitTask` | crates/task-runtime/src/lib.rs:2509-2523 | Exit field by field equals its function. |
| `TaskRuntimes.TaskRuntime.DuplicateHandle` | crates/task-runtime/src/lib.rs:2525-2547 | The duplicate trap edits the caller's slot array in place and equals its function. |
| `TaskRuntimes.TaskRuntime.CloseHandle` | crates/task-runtime/src/lib.rs:2549-2572 | The close trap edits the caller's slot array in place and equals its function. |
| `TaskRuntimes.TaskRuntime.StartWorkload` | crates/task-runtime/src/lib.rs:2584-2687 | Launch installs into the workload's slot array, publishes it and queues the task, and equals its function. |
| `TaskRuntimes.TaskRuntime.SubmitApproval` | crates/task-runtime/src/lib.rs:2689-2774 | Submit, broker field by broker field, equals its function. |
| `TaskRuntimes.TaskRuntime.InspectApproval` | crates/task-runtime/src/lib.rs:2776-2825 | Inspect equals its function. |
| `TaskRuntimes.TaskRuntime.DecideApproval` | crates/task-runtime/src/lib.rs:2827-2906 | Decide equals its function in all three decisions and on exhaustion. |
| `TaskRuntimes.TaskRuntime.CommitEffect` | crates/task-runtime/src/lib.rs:2908-2970 | Commit equals its function. |
| `TaskRuntimes.TaskRuntime.WakeWorkload` | crates/task-runtime/src/lib.rs:2972-2979 | Waking equals its function. |
| `TaskRuntimes.TaskRuntime.BeginTeardown` | crates/task-runtime/src/lib.rs:2093-2100 | The first half of teardown equals its function; on error the object is as before. |
| `TaskRuntimes.TaskRuntime.LeaveSupervised` | crates/task-runtime/src/lib.rs:2994-3033 | Marking the table closing, letting the shared objects go and then emptying the table ends where closing first and detaching after does. |
| `TaskRuntimes.TaskRuntime.CompleteTeardown` | crates/task-runtime/src/lib.rs:2084-2091 | The second half equals its function; on error the object is as before. |
| `JournaledRuntimes.JournaledRuntime.HandleTrap` | crates/task-runtime/src/lib.rs:3377-3528 | The journaling trap over the runtime and journal objects equals its function, record and reservation included; an error leaves both as before, except on the traps whose error returns do not restore (`LeavesTraces`). |
| `JournaledRuntimes.JournaledRuntime.Record` | crates/task-runtime/src/lib.rs:3401-3527 | What follows a handled trap: the record it calls for, the closing check, and the snapshot put back on every error but the early returns. Which record that is, field by field, is `RecordTable.EveryRecordInTable`. |
| `JournaledRuntimes.JournaledRuntime.Check` | crates/task-runtime/src/lib.rs:3733-3821 | The check of the pair, journal entries in both tables counted, gives exactly the function's verdict. |
| `JournaledRuntimes.ScanJournalEntries` | crates/task-runtime/src/lib.rs:3738-3768 | The count is zero exactly when the table holds no journal entry, and at most one and sound exactly when the entries are valid. |
| `JournaledRuntimes.JournaledRuntime.RefuseSubmit` | crates/task-runtime/src/lib.rs:3530-3548 | An unjournaled submit is undone and its caller told the status. |
| `JournaledRuntimes.JournaledRuntime.ReadJournal` | crates/task-runtime/src/lib.rs:3550-3625 | The two read operations equal their function. |
| `JournaledRuntimes.JournaledRuntime.BeginTeardown` | crates/task-runtime/src/lib.rs:3637-3694 | Teardown closes any open lifecycle, seals, and equals its function; after an error both objects are as before, except that the one return in the middle has moved the epoch on. |
| `JournaledRuntimes.JournaledRuntime.CompleteTeardown` | crates/task-runtime/src/lib.rs:3696-3710 | Completion equals its function; on error both objects are as before. |
| `JournaledRuntimes.JournaledRuntime.FinishReclamation` | crates/task-runtime/src/lib.rs:3712-3731 | Reclamation equals its function; on error both objects are as before. |
| `Extents.CanonicalUnique` | crates/frame-allocator/src/lib.rs:88-224 | Equal page sets have equal canonical extent tables, entry for entry. |
| `Extents.RunsAreExtents` | crates/frame-allocator/src/lib.rs:250-301 | A canonical table has exactly one extent per maximal run of pages. |
| `Extents.AllocateTakesLeast` | crates/frame-allocator/src/lib.rs:124-141 | Allocation returns the least free page, aligned and in range, and leaves the canonical table of the rest; it fails exactly on the empty set. |
| `Extents.FreeRefinesSet` | crates/frame-allocator/src/lib.rs:143-224 | Freeing inserts the page into the set or fails with the exact error for that set, and keeps the table canonical. |
| `Extents.AllocateThenFree` | crates/frame-allocator/src/lib.rs:124-224 | Free right after allocate always succeeds and restores the table entry for entry. |
| `ExtentFill.ValidateAndCountExtents` | crates/frame-allocator/src/lib.rs:250-301 | The check succeeds exactly on sorted well-formed regions whose usable runs fit and returns their number; otherwise some first region has the reported fault, or is the one with which the runs no longer fit. |
| `ExtentFill.FailsOnce` | crates/frame-allocator/src/lib.rs:256-298 | There is one such region only, so the error is determined, capacity against later faults included. |
| `ExtentFill.FillIsUsable` | crates/frame-allocator/src/lib.rs:88-121 | The filled table is canonical and holds exactly the usable pages. |
| `FrameAllocation.StepRefines` | crates/frame-allocator/src/lib.rs:124-224 | Each table operation is that operation on the page set and keeps both tables canonical. |
| `FrameAllocation.RunRefinesSets` | crates/frame-allocator/src/lib.rs:124-224 | Over any sequence of operations the tables answer exactly as a set of pages that always hands out its least. |
| `FrameAllocation.FreePlusOutstandingIsManaged` | crates/frame-allocator/src/lib.rs:124-224 | After any sequence of operations free pages and outstanding pages partition the managed ones. |
| `FrameAllocation.FrameAllocator.constructor` | crates/frame-allocator/src/lib.rs:75-86 | A new allocator manages nothing. |
| `FrameAllocation.FrameAllocator.Initialize` | crates/frame-allocator/src/lib.rs:88-121 | Initialization succeeds exactly when the regions are sound and their runs fit; then both arrays hold exactly the usable pages; a refusal changes nothing. |
| `FrameAllocation.FrameAllocator.AllocateFrame` | crates/frame-allocator/src/lib.rs:124-141 | The in-place allocation equals the table operation. |
| `FrameAllocation.FrameAllocator.ReturnFrame` | crates/frame-allocator/src/lib.rs:143-224 | The in-place free, with its insertion scan, shifts and merges, equals the table operation and on error changes nothing. |
| `FrameAllocation.FrameAllocator.RemoveFreeExtent` | crates/frame-allocator/src/lib.rs:236-241 | Shifting removes exactly one entry. |
| `Normalize.NormalizeMemoryRegions` | crates/boot-contract/src/normalize.rs:42-115 | The two-cursor loops write exactly the list the overlay function gives, or return its error. |
| `Normalize.RegionWriter.EmitRun` | crates/boot-contract/src/normalize.rs:204-231 | The writer appends a run or extends its last one in place, or reports a full output. |
| `Normalize.ValidateOverrides` | crates/boot-contract/src/normalize.rs:147-170 | The scan returns the first override error in source order. |
| `Normalize.ValidateRequired` | crates/boot-contract/src/normalize.rs:117-145 | The check of required overrides equals its function on the output. |
| `NormalizeMeaning.NormalizeExact` | crates/boot-contract/src/normalize.rs:42-145 | Normalisation succeeds if and only if sources and overrides are ordered, required overrides lie inside the sources and the number of maximal runs fits; then every source address has the covering override's kind, otherwise its own, and no other address appears. |
| `NormalizeMeaning.MergedUnique` | crates/boot-contract/src/normalize.rs:204-231 | Sorted, disjoint, maximally merged lists that say the same are equal, so the output is determined by its meaning. |
| `NormalizeMeaning.RequiredExact` | crates/boot-contract/src/normalize.rs:117-145 | Checking a required override against the output is the same as its lying inside the sources. |
| `Handoff.ValidateHandoff` | crates/boot-contract/src/validate.rs:72-141 | The handoff check passes if and only if header, identity, regions and framebuffer are sound and no protected range touches usable memory. |
| `Handoff.CheckRegions` | crates/boot-contract/src/validate.rs:90-118 | The region loop accepts exactly sorted well-formed regions. |
| `Handoff.OverlapsUsable` | crates/boot-contract/src/validate.rs:220-240 | The scan finds a usable overlap exactly when some byte of the range is usable. |
| `KernelImage.Parse` | crates/kernel-image/src/lib.rs:73-127 | An image is accepted exactly when its header parses and its segments are acceptable, otherwise with the error of the first failing check; `ElfLayout` says both in terms of the headers the bytes encode. |
| `KernelImage.ValidateSegments` | crates/kernel-image/src/lib.rs:146-189 | The nested loops give the first error in program-header order. |
| `KernelImage.AcceptedExactly` | crates/kernel-image/src/lib.rs:146-189 | Acceptance means: between one and the maximum number of load segments, each sound, byte ranges pairwise disjoint, and the entry inside an executable one. |
| `KernelImage.PagesApart` | crates/kernel-image/src/lib.rs:146-249 | The page-rounded ranges of accepted load segments are pairwise disjoint too. |
| `KernelImage.Segments.Next` | crates/kernel-image/src/lib.rs:260-271 | The iterator yields the load segments in order and nothing else. |
| `Boot.CollectKernelOverrides` | loader/src/main.rs:120-139 | The loader's list holds one required reserved override per load segment. |
| `Boot.OverriddenNotUsable` | crates/boot-contract/src/normalize.rs:42-115 | A page under an override of another kind is not usable in the normalised map. |
| `Boot.NormalizedPassesChecks` | crates/boot-contract/src/validate.rs:72-141 | Normalised output always passes the region checks of the handoff and the allocator. |
| `Boot.InitializeCannotFail` | crates/frame-allocator/src/lib.rs:88-121 | After the handoff check succeeds, allocator initialization cannot fail. |
| `Boot.AllocatedIsUsable` | crates/frame-allocator/src/lib.rs:124-141 | Every frame handed out in any run is a whole usable page. |
| `Boot.FramesNeverOverlap` | loader/src/main.rs:120-165 | For every accepted image, firmware map, framebuffer and sequence of allocator calls, no frame handed out overlaps a page-rounded kernel segment, the handoff, the region array or the framebuffer. |
| `AddressSpace.ConstructConserves` | crates/address-space/src/lib.rs:613-681 | For any backend: a finished owner holds exactly what was obtained and nothing went back; a failure retains a prefix of it, the rest went back newest first, and only behind a granted reachability check naming all of it. |
| `AddressSpace.TeardownConserves` | crates/address-space/src/lib.rs:776-837 | For any backend: what the owner held is what it keeps followed by what went back, reversed; a finished teardown keeps nothing and leaves a dead owner. |
| `AddressSpace.PairConserves` | crates/address-space/src/lib.rs:708-725 | For any backend: a pair that fails keeps or returns every frame of both owners, the second's first, and the first owner is always torn down, never refused. |
| `AddressSpace.UnwindConserves` | crates/address-space/src/lib.rs:741-767 | Rollback from any ledger and any number of links keeps a prefix, returns the suffix reversed, and returns nothing unverified. |
| `AddressSpace.BuiltIsPublished` | crates/address-space/src/lib.rs:498-510 | A built owner is live and inactive with the whole plan in its ledger and its root published. |
| `AddressSpace.TornDownIsFinal` | crates/address-space/src/lib.rs:776-802 | After an admitted teardown, finished or failed, no sequence of uses activates the owner, tears it down, mints or accepts a token, or calls the backend. |
| `AddressSpace.DeadStaysRefused` | crates/address-space/src/lib.rs:512-560 | An owner whose generation is dead refuses every use and stays as it is. |
| `AddressSpace.TokenLifetime` | crates/address-space/src/lib.rs:528-560 | Through any sequence of uses a token minted earlier validates exactly while the owner lives. |
| `AddressSpace.ValidateToken` | crates/address-space/src/lib.rs:545-560 | A token validates exactly when the owner would mint that very token. |
| `AddressSpaceOwners.FrameLedger.PushOwned` | crates/address-space/src/lib.rs:387-394 | The array ledger gains the frame at its end or is full and unchanged. |
| `AddressSpaceOwners.FrameLedger.ValidateLatest` | crates/address-space/src/lib.rs:396-410 | The newest entry is aligned and unlike all earlier ones, or the exact error. |
| `AddressSpaceOwners.FrameLedger.Pop` | crates/address-space/src/lib.rs:412-420 | Exactly the newest entry leaves. |
| `AddressSpaceOwners.FrameLedger.FrameFor` | crates/address-space/src/lib.rs:422-427 | The first frame of the role. |
| `AddressSpaceOwners.AddressSpaceOwner.Begin` | crates/address-space/src/lib.rs:459-470 | A new owner is building, live and empty. |
| `AddressSpaceOwners.AddressSpaceOwner.RecordFrame` | crates/address-space/src/lib.rs:488-496 | The frame is in the ledger before it is judged. |
| `AddressSpaceOwners.AddressSpaceOwner.Publish` | crates/address-space/src/lib.rs:498-510 | Publication happens exactly for a live building owner with a full ledger and its own root. |
| `AddressSpaceOwners.AddressSpaceOwner.Activate` | crates/address-space/src/lib.rs:512-518 | Activation in place equals its function. |
| `AddressSpaceOwners.AddressSpaceOwner.Recover` | crates/address-space/src/lib.rs:520-526 | Recovery in place equals its function. |
| `AddressSpaceOwners.MappingToken` | crates/address-space/src/lib.rs:528-543 | Minting equals its function. |
| `AddressSpaceOwners.CheckToken` | crates/address-space/src/lib.rs:545-560 | Validation equals its function. |
| `AddressSpaceOwners.UnwindFrames` | crates/address-space/src/lib.rs:741-767 | The rollback loops over a mutable backend equal the function whose conservation is proved. |
| `AddressSpaceOwners.RollbackBuild` | crates/address-space/src/lib.rs:727-739 | A failed build reports cause, rollback error and retained frames; only a completed rollback kills the owner. |
| `AddressSpaceOwners.ConstructAddressSpace` | crates/address-space/src/lib.rs:613-681 | The construction loops equal the function, call by call, and hand out the owner it describes. |
| `AddressSpaceOwners.TeardownChecked` | crates/address-space/src/lib.rs:776-837 | The teardown loops equal the function; the generation dies first. |
| `AddressSpaceOwners.ConstructAddressSpacePair` | crates/address-space/src/lib.rs:708-725 | The pair equals the function. |
| `PageTables.EntryFields` | kernel/src/arch_x86_64.rs:2652-2652 | For an aligned address inside the mask, the word that is its bitwise union with the flags reads back as exactly that address and those flags. |
| `KernelBackend.SlotEmpty` | crates/address-space/src/lib.rs:173-210 | No link of the plan is made over an earlier one or over a shared slot. |
| `KernelBackend.FramesDistinct` | crates/frame-allocator/src/lib.rs:124-141 | Frames taken in turn from the allocator are distinct. |
| `KernelTables.InstallCompletes` | kernel/src/arch_x86_64.rs:2645-2655 | Installing the plan over a sound kernel never meets an occupied slot and always completes. |
| `KernelConstruction.UnwindCompletes` | kernel/src/arch_x86_64.rs:2657-2731 | Over a sound kernel rollback never fails: tables are emptied, the reachability check passes, every return is accepted, and the free table is the one before, entry for entry. |
| `KernelConstruction.BuildOutcome` | crates/address-space/src/lib.rs:613-681 | Over the kernel backend and the real allocator tables, construction succeeds if and only if the generation is nonzero and known and seven pages are free; any failure rolls back completely, retains nothing and restores the free table entry for entry. |
| `KernelConstruction.TeardownOutcome` | crates/address-space/src/lib.rs:776-837 | Tearing down a finished owner over a sound kernel always completes and restores the free table. |
| `KernelConstruction.PairOutcome` | crates/address-space/src/lib.rs:708-725 | A pair succeeds if and only if both generations are nonzero and known and fourteen pages are free; otherwise both are undone and the free table is restored entry for entry. |
| `UserMappings.FinalTables` | crates/address-space/src/lib.rs:173-210 | The five tables of a finished address space, slot by slot. |
| `UserMappings.UserSeesTextAndStack` | crates/address-space/src/lib.rs:173-210 | Over every 64-bit address, the 4-level user walk of a finished address space translates exactly the text page, read and execute only, and the stack page, read and write without execute, and nothing else. |
| `UserMappings.BuiltIsIsolated` | crates/address-space/src/lib.rs:613-681 | Every successful construction gives such an address space, with the generation's program in the text frame, a blank stack, and every other root slot the kernel's or empty. |
| `UserMappings.PairIsIsolated` | crates/address-space/src/lib.rs:708-725 | Every successful pair gives two of them at once, and no user address of either reaches a frame of the other. |
| `UserMappings.GuardsUnmapped` | crates/address-space/src/lib.rs:16-21 | Stack guards and the deliberate fault target are unmapped for the task. |
| `UserMappings.BuilderRootIsShared` | kernel/src/arch_x86_64.rs:1436-1442 | A recovery root made by the bootstrap builder never opens its shared slots to user accesses, whatever was mapped. |
| `KernelTables.UnlinkCompletes` | kernel/src/arch_x86_64.rs:2657-2731 | Removing the plan from finished tables and clearing them completes over any sound kernel, whoever else holds frames; the tables end zeroed and no other frame is written. |
| `UserMappings.TabledIsIsolated` | crates/address-space/src/lib.rs:173-210 | Any kernel state that still holds an owner's finished tables shows the owner's task its text and stack and nothing else, over every 64-bit address. |
| `TaskFrames.ReturnsExactly` | crates/address-space/src/lib.rs:755-767 | Returning a ledger newest first over the real free table succeeds exactly when, at every stage, the free pages form no more runs than the table has entries. |
| `TaskFrames.TeardownExactly` | crates/address-space/src/lib.rs:776-837 | Tearing one owner down while another holds frames succeeds exactly under that condition; then its pages are free again, its tables zeroed, and nothing else is written. |
| `TaskFrames.OutsideFits` | crates/frame-allocator/src/lib.rs:143-224 | With frames of one or both of two owners out, the free set has no more runs than the full table can hold, unless the table was tight when the pair was built. |
| `TaskFrames.ReleaseFirst` | crates/address-space/src/lib.rs:776-837 | Tearing down the first owner of a pair is accepted if and only if the second is gone or the table is not full with all of the second's frames inside one run; the second's tables stay as they were. |
| `TaskFrames.ReleaseSecond` | crates/address-space/src/lib.rs:776-837 | Tearing down the second owner is accepted if and only if the first is still there or the table is not tight. |
| `TaskFrames.SecondThenFirst` | kernel/src/arch_x86_64.rs:1698-1703 | Giving a pair back newest owner first, as the publication rollback does, always succeeds and restores the free table entry for entry. |
| `TaskFrames.FirstThenSecond` | kernel/src/arch_x86_64.rs:2074-2087 | Giving a pair back oldest owner first succeeds if and only if the table it was built from is not tight: full, with the eighth lowest free page next to the seventh and followed by another. |
| `TaskFrames.WideFirstIsTight` | crates/frame-allocator/src/lib.rs:209-213 | Every full free table whose lowest extent has nine pages or more is tight, so the refusal is a whole family of inputs. |
| `TaskFrames.CrowdedIsTight` | crates/frame-allocator/src/lib.rs:209-213 | A concrete tight table: 1024 extents of sixteen pages. |
| `TaskFrames.CrowdedKernelRefuses` | crates/address-space/src/lib.rs:708-837 | A concrete kernel over that table on which a pair is built and giving the first owner back and then the second is refused. |
| `TaskFrames.SplitAdds` | crates/frame-allocator/src/lib.rs:143-224 | Frames held in the middle of a run leave exactly one run more than the table had. |
| `TaskFrames.NobodyLeft` | crates/frame-allocator/src/lib.rs:143-224 | When both owners' frames are back, in whatever order, the free table is the one before, entry for entry. |
| `TaskFrames.PairHolds` | crates/address-space/src/lib.rs:708-725 | A finished pair holds the first and the next seven frames of the table, each with its finished tables. |
| `KernelRuntimes.TrapKeepsSpaces` | crates/task-runtime/src/lib.rs:2392-2439 | No trap changes which generation and root either task is bound to, or buries a task. |
| `KernelRuntimes.JournaledTrapKeepsSpaces` | crates/task-runtime/src/lib.rs:3377-3528 | The journaled trap likewise, including where journaling refuses or rewrites a result. |
| `KernelRuntimes.TrapFacts` | kernel/src/arch_x86_64.rs:2026-2054 | For either runtime, one trap of the running task passes capture and handling, keeps both bindings, and either names a task that is now running or begins that same task's exit. |
| `KernelRuntimes.TeardownFacts` | kernel/src/arch_x86_64.rs:2056-2096 | For either runtime, an exit closes and empties the handles first; burial is refused only to a supervisor with a staged workload, and otherwise frees exactly that slot and runs the peer or ends. |
| `KernelRuntimes.RunsAgree` | kernel/src/arch_x86_64.rs:925-928 | Runs of the kernel's two-way runtime are the runs of the plain and of the journaled machine. |
| `SystemTheorems.ResumeLands` | kernel/src/arch_x86_64.rs:1935-1981 | With both owners parked, resuming the task the runtime chose passes every owner, root, generation and context check and activates exactly that owner. |
| `SystemTheorems.TeardownTaskLands` | kernel/src/arch_x86_64.rs:2056-2096 | An exited task's owner is found inactive, its teardown is accepted, its ledger ends empty, and the runtime then proceeds as it would alone. |
| `SystemTheorems.StepLands` | kernel/src/arch_x86_64.rs:1984-2054 | One trap of the whole kernel passes every owner check and moves the runtime exactly as the runtime's own drive says. |
| `SystemTheorems.RunLands` | kernel/src/arch_x86_64.rs:1984-2097 | Over every run, with owners, page tables and frames included, the runtime's run is its run alone and no owner check fails. |
| `SystemTheorems.PhasesAgree` | crates/task-runtime/src/lib.rs:88-99 | Between traps each owner is active, inactive or absent exactly as its task's state calls for. |
| `SystemBoot.PublishExactly` | kernel/src/arch_x86_64.rs:1618-1719 | For each profile publication starts the system if and only if both programs are known, fourteen frames are free and frame zero is not one of them; every other outcome leaves the free table as it was, and no rollback fails. |
| `SystemBoot.PublishPairLands` | kernel/src/arch_x86_64.rs:1655-1719 | A built pair is published and its first task runs, unless a root is unusable, and then both spaces are given back. |
| `SystemBoot.InvConfines` | crates/address-space/src/lib.rs:173-210 | In every reachable system each live task sees its own text and stack and nothing else, and no page of one is reachable from the other. |
| `SystemBoot.EverySystemRun` | kernel/src/arch_x86_64.rs:1935-2097 | After any traps with any registers, in each of the three profiles: no owner fault, the runtime's own run, each task confined, the running task's owner the active one, and at the end no owner left, the runtime swept clean and the free table restored entry for entry; a stranded workload is the only failure and never happens to cooperating tasks. |
| `SystemBoot.DeadIsSwept` | kernel/src/arch_x86_64.rs:2098-2152 | When both tasks are dead nothing is left in slots, queue, endpoint, manifest, broker or effect, which is what the final residue check demands. |
| `SystemBoot.BootedMachine` | loader/src/main.rs:120-165 | Over the frame table any accepted image and firmware map leave, publication and every run behave as above: that table is never tight. |
| `Boot.SpareEntry` | crates/frame-allocator/src/lib.rs:88-121 | The kernel's own segments always cost the allocator an entry, so the table it starts from is never full. |
| `KernelCells.Cells.Dispatch` | kernel/src/arch_x86_64.rs:1984-2025 | The trap dispatcher over the runtime, owner and memory objects is one step of the system the run theorems quantify over. |
| `KernelCells.Cells.Handle` | kernel/src/arch_x86_64.rs:2026-2054 | Recover the owner object, capture and handle on the runtime object, then resume or tear down: the objects end as the system function says. |
| `KernelCells.Cells.TeardownExited` | kernel/src/arch_x86_64.rs:2056-2096 | The exit path over the objects: handles, then owner and its frames in kernel memory, then slot, with each refusal leaving them as they are at that point. |
| `KernelCells.Cells.Resume` | kernel/src/arch_x86_64.rs:1935-1981 | The resumption activates exactly the chosen task's owner object, or stops at the first check that fails. |
| `KernelCells.Cells.DispatchAll` | kernel/src/arch_x86_64.rs:1984-2097 | From a table that is not tight, trap after trap the objects stay equal to the run of the system and keep its invariant, so the run theorems are about them. |
| `KernelCells.Cells.ReleaseTask` | kernel/src/arch_x86_64.rs:2069-2087 | The owner leaves its cell, its tables are unlinked and its frames go back into the allocator arrays before the task is buried. |
| `KernelOwners.TeardownInKernel` | crates/address-space/src/lib.rs:776-837 | The teardown loops over the memory object and the allocator arrays equal the function over the kernel backend. |
| `KernelOwners.UnwindFrames` | crates/address-space/src/lib.rs:741-767 | Unlink, clear, check and only then return, on the memory object itself. |
| `KernelMemory.PhysicalMemory.Serve` | kernel/src/arch_x86_64.rs:2613-2732 | Each backend call on the memory object is the backend function's step. |
| `KernelMemory.PhysicalMemory.Open` | kernel/src/arch_x86_64.rs:2743-2768 | The window opens only on an aligned frame, when ready and empty. |
| `KernelMemory.PhysicalMemory.PrepareFrame` | kernel/src/arch_x86_64.rs:2622-2643 | Preparation behind the window equals the backend function, also when the program is unknown. |
| `KernelMemory.PhysicalMemory.InstallLink` | kernel/src/arch_x86_64.rs:2645-2655 | Linking behind the window equals the backend function and leaves the window empty. |
| `KernelMemory.PhysicalMemory.RemoveLink` | kernel/src/arch_x86_64.rs:2657-2667 | Unlinking behind the window equals the backend function. |
| `KernelMemory.PhysicalMemory.ClearSharedEntries` | kernel/src/arch_x86_64.rs:2669-2677 | The loop over shared slots equals the backend function. |
| `KernelMemory.PhysicalMemory.ClearTemporaryWindow` | kernel/src/arch_x86_64.rs:2679-2688 | A leaked window is cleared and reported. |
| `KernelMemory.PhysicalMemory.VerifyUnreachable` | kernel/src/arch_x86_64.rs:2690-2725 | The scans over owned tables and over the bootstrap pool equal the backend function. |
| `KernelMemory.PhysicalMemory.AllocateFrame` | kernel/src/arch_x86_64.rs:2616-2620 | Allocation through the allocator object equals the backend function. |
| `KernelMemory.PhysicalMemory.ReturnFrame` | kernel/src/arch_x86_64.rs:2727-2731 | Return through the allocator object equals the backend function. |
| `Bootstrap.MapOutcome` | kernel/src/arch_x86_64.rs:1216-1234 | Mapping a page: success maps exactly that page to exactly that entry and leaves every other page's translation; any failure, pool exhaustion after partial table allocation included, changes no mapping; each outcome has its exact cause, exhaustion being when the missing tables exceed the pool's remainder. |
| `Bootstrap.LeafOutcome` | kernel/src/arch_x86_64.rs:1205-1214 | Reaching the last table succeeds exactly when the pool has the tables still missing, and changes no mapping either way. |
| `Bootstrap.EnsureOutcome` | kernel/src/arch_x86_64.rs:1195-1203 | One level down: the existing child, a fresh blank one, or exhaustion with nothing changed. |
| `Bootstrap.SameLeaf` | kernel/src/arch_x86_64.rs:1263-1272 | Addresses that share a last-level table share all upper indices: the tables form a tree. |
| `Bootstrap.MapRefines` | kernel/src/arch_x86_64.rs:1216-1234 | On the finite map from page numbers to entries, mapping is insertion of an absent page, with the same errors. |
| `Bootstrap.RunRefinesMap` | kernel/src/arch_x86_64.rs:1216-1234 | Over any sequence of calls from a blank root the pool maps exactly what the passed calls mapped. |
| `Bootstrap.RangeMaps` | kernel/src/arch_x86_64.rs:1236-1261 | A range maps its whole length or a proper prefix of it and nothing else. |
| `Bootstrap.BlankRepresents` | kernel/src/arch_x86_64.rs:1147-1157 | A fresh pool with its root taken maps nothing. |
| `Bootstrap.RootIsSupervisor` | kernel/src/arch_x86_64.rs:1436-1442 | No present root entry is ever a user entry. |
| `BootstrapPool.BootstrapBuilder.constructor` | kernel/src/arch_x86_64.rs:1147-1157 | A new pool is blank and unused. |
| `BootstrapPool.BootstrapBuilder.AllocateTable` | kernel/src/arch_x86_64.rs:1163-1170 | The budget hands out tables in order until all 32 are used. |
| `BootstrapPool.BootstrapBuilder.EnsureChild` | kernel/src/arch_x86_64.rs:1195-1203 | In place, equals its function. |
| `BootstrapPool.BootstrapBuilder.LeafSlot` | kernel/src/arch_x86_64.rs:1205-1214 | In place, equals its function. |
| `BootstrapPool.BootstrapBuilder.MapPage` | kernel/src/arch_x86_64.rs:1216-1234 | In place, equals its function. |
| `BootstrapPool.BootstrapBuilder.MapRange` | kernel/src/arch_x86_64.rs:1236-1261 | The page loop equals its function. |
| `BootstrapPool.BootstrapBuilder.EntryFor` | kernel/src/arch_x86_64.rs:1263-1276 | The walk equals its function. |
| `Text.DecimalExact` | tools/component-admission/admission/src/lib.rs:1086-1094 | The accepted decimals are exactly the printed 64-bit numbers. |
| `Text.HexExact` | tools/component-admission/admission/src/lib.rs:1096-1119 | The accepted spellings of n bytes are exactly their lower-case encodings. |
| `Manifest.EntryExact` | tools/component-admission/admission/src/lib.rs:408-449 | A line is accepted for an entry exactly when it is that entry's canonical line. |
| `Manifest.RunningChecks` | tools/component-admission/admission/src/lib.rs:426-442 | The checks made line by line amount to: every entry fits, the sizes sum within bounds, neighbouring paths ascend and none lies inside its predecessor. |
| `Manifest.ParseExact` | tools/component-admission/admission/src/lib.rs:380-460 | Bytes are accepted as a manifest if and only if the manifest is well formed, fits the size bound, and prints to exactly those bytes; `ManifestMeaning.ManifestExactly` spells well-formedness and print out. |
| `Manifest.PathsAscend` | tools/component-admission/admission/src/lib.rs:435-442 | In a well-formed manifest paths ascend strictly throughout, so no two are equal. |
| `ManifestNesting.ParserAcceptsNesting` | tools/component-admission/admission/src/lib.rs:435-442 | The parser accepts a manifest listing a, a-b and a/b, in which a/b lies inside a. |
| `ManifestNesting.NestedExactly` | tools/component-admission/admission/src/lib.rs:435-442 | A well-formed manifest has a path inside another if and only if, for some entry, the first later path that does not go on after it with a dash or a dot lies inside it. |
| `ManifestNesting.NestingExactly` | tools/component-admission/admission/src/lib.rs:435-442 | Entry by entry: that one path decides whether anything is nested in the entry. |
| `ManifestNesting.NestedIsFar` | tools/component-admission/admission/src/lib.rs:435-442 | A nested path is never next to its outer one, and the path next to the outer one extends it by a dash or a dot. |
| `ManifestNesting.NoSidestepNoNesting` | tools/component-admission/admission/src/lib.rs:435-442 | A manifest in which no path is directly followed by such an extension has no nesting at all. |
| `ManifestParser.ParseManifest` | tools/component-admission/admission/src/lib.rs:380-460 | The parser loop equals the function, and so accepts exactly the texts of sound manifests, whose paths all stay below the directory they are taken from. |
| `ManifestParser.ParseEntryLines` | tools/component-admission/admission/src/lib.rs:404-453 | The loop that grows the entries, with its running sum and previous path, equals the recursive reading. |
| `ManifestParser.DecodeHexArray` | tools/component-admission/admission/src/lib.rs:1096-1111 | The decoding loop fills exactly the bytes spelled. |
| `ManifestParser.EncodeHexText` | tools/component-admission/admission/src/lib.rs:1121-1129 | The encoding loop writes exactly the canonical spelling. |
| `Refinement.EveryRunRefines` | kernel/src/arch_x86_64.rs:1984-2097 | Every run of a freshly built cooperative or supervised runtime, over any registers, shows exactly the state of an independent reference machine written in plain numbers and sets: who runs, who waits in which order, each task's registers, named powers and their rights, endpoint, approval desk and effect. |
| `Refinement.RunRefines` | kernel/src/arch_x86_64.rs:1984-2097 | The same from any state of the invariant. |
| `Refinement.StepRefines` | kernel/src/arch_x86_64.rs:1984-2097 | One driven trap, teardown included, is one step of the reference machine. |
| `Refinement.TrapActs` | crates/task-runtime/src/lib.rs:2392-2439 | Handling a trap is the reference action for its operation number; an unknown number is refused. |
| `Refinement.LeavingActs` | crates/task-runtime/src/lib.rs:2990-3091 | Both halves of a teardown together are the reference departure: request dropped and its maker told, peer woken, handles gone, next task chosen. |
| `TrapRefinement.YieldActs` | crates/task-runtime/src/lib.rs:2404-2414 | Yield is the reference hand-over to the head of the line. |
| `TrapRefinement.SendActs` | crates/task-runtime/src/lib.rs:2441-2472 | Send is the reference send: first failing check told, value stored in an empty slot, or handed to a blocked receiver that joins the line. |
| `TrapRefinement.ReceiveActs` | crates/task-runtime/src/lib.rs:2474-2507 | Receive is the reference receive: value taken, peer's exit told, or the caller blocked. |
| `TrapRefinement.DuplicateActs` | crates/task-runtime/src/lib.rs:2525-2547 | Duplicate adds, in the reference, one name with exactly the asked rights at the first vacant place, or tells why not. |
| `TrapRefinement.CloseActs` | crates/task-runtime/src/lib.rs:2549-2572 | Close removes, in the reference, exactly the named power and nothing else. |
| `BrokerRefinement.StartActs` | crates/task-runtime/src/lib.rs:2584-2687 | Launching is the reference launch, with its refusals in order. |
| `BrokerRefinement.SubmitActs` | crates/task-runtime/src/lib.rs:2689-2774 | Submitting files the reference request under the next number and parks the workload, or tells why not. |
| `BrokerRefinement.InspectActs` | crates/task-runtime/src/lib.rs:2776-2825 | Inspecting shows the pending request and nothing once it is decided. |
| `BrokerRefinement.DecideActs` | crates/task-runtime/src/lib.rs:2827-2906 | Approving, denying and letting expire do what the reference does, epoch exhaustion included. |
| `BrokerRefinement.CommitActs` | crates/task-runtime/src/lib.rs:2908-2970 | Committing spends the approval, writes the effect and wakes the workload with its value, or tells why not, as the reference does. |
| `ReferenceView.ResolveAnswers` | crates/task-runtime/src/lib.rs:1166-1197 | Looking a handle up answers what the reference's table of named powers answers: not held, wrong thing, lacking right, or the power. |
| `ReferenceView.DuplicateServes` | crates/task-runtime/src/lib.rs:1199-1241 | Copying a handle in a table is adding the copied power under the first vacant name in its reference table. |
| `ReferenceView.CloseServes` | crates/task-runtime/src/lib.rs:1243-1305 | Closing a handle in a table is dropping its name in the reference table, a used-up name never to return. |
| `JournalRefinement.EveryJournaledRunRefines` | kernel/src/arch_x86_64.rs:1984-2097 | Every run of a freshly built journaled runtime shows the reference machine with a log: same tasks, desk and effect, and row by row the same journal. |
| `JournalRefinement.JournaledRunRefines` | kernel/src/arch_x86_64.rs:1984-2097 | The same from any state of the journaled invariant. |
| `JournalRefinement.JournaledStepRefines` | kernel/src/arch_x86_64.rs:1984-2097 | One driven journaled trap is one step of the reference machine with a log. |
| `JournalRefinement.JournaledTrapActs` | crates/task-runtime/src/lib.rs:3377-3528 | A journaled trap acts as the plain one and adds the reference's row, or is undone with the journal's refusal. |
| `JournalRefinement.SubmitRecords` | crates/task-runtime/src/lib.rs:3402-3428 | A filed request is logged with room kept for its closing rows, and taken back when there is none. |
| `JournalRefinement.DecideRecords` | crates/task-runtime/src/lib.rs:3429-3467 | A decision logs its kind and status and frees the room a finished request no longer needs. |
| `JournalRefinement.CommitRecords` | crates/task-runtime/src/lib.rs:3468-3520 | A commit, done or refused, logs its outcome against the effect. |
| `JournalRefinement.SurveyActs` | crates/task-runtime/src/lib.rs:3550-3611 | The survey call reports the first position, the next one and the number of rows, as the reference counts them, or its first refusal. |
| `JournalRefinement.ReadActs` | crates/task-runtime/src/lib.rs:3550-3611 | Reading returns three words of the reference row asked for, the sixth third padded with zeros, or the first refusal. |
| `JournalRefinement.JournaledLeavingActs` | crates/task-runtime/src/lib.rs:3637-3710 | Journaled teardown closes an open request with one last row, closes the log with the supervisor, and otherwise departs as the plain one. |
| `SystemRefinement.EverySystemRunRefines` | kernel/src/arch_x86_64.rs:1618-2097 | From publication on, over every run of the whole kernel in any of the three profiles, everything the programs can see is what the reference machine shows: both start from zeros and the entry registers, and each trap is one reference step. |
| `SystemRefinement.PublishedRuntime` | kernel/src/arch_x86_64.rs:1618-1933 | What publication puts on the processor is the dispatched runtime over two contexts with zeroed call registers and the entry register set. |
| `Fairness.YieldPasses` | kernel/src/arch_x86_64.rs:1984-2097 | After a driven well-formed yield the processor belongs to the peer if it was ready, with the caller ready, holding status zero, and alone in the queue; otherwise to the caller, with nothing else changed. |
| `Fairness.JournaledYieldPasses` | kernel/src/arch_x86_64.rs:1984-2097 | The same with a journal. |
| `Fairness.ReadyStaysReady` | kernel/src/arch_x86_64.rs:1984-2097 | While one task keeps the processor, a ready peer stays ready. |
| `Fairness.ReadyRunsAfterYield` | kernel/src/arch_x86_64.rs:1984-2097 | However long a task keeps the processor and whatever it calls, its next well-formed yield puts a peer that was ready on the processor. |
| `Fairness.ReadyRunsAfterJournaledYield` | kernel/src/arch_x86_64.rs:1984-2097 | The same with a journal. |
| `RecordTable.EveryRecordInTable` | crates/task-runtime/src/lib.rs:250-289 | Every record of every reachable journal is a line of a fixed table of numbers: version, size, position, epoch, principal, action, subject (2, 5), actor (1, 4), (2, 5) or (0, 0), and by kind its status, object and rights. |
| `RecordTable.ToldOnDeparture` | crates/task-runtime/src/lib.rs:2994-3033 | A workload waiting for an approval when the supervisor leaves is told denied if the request was pending and expired if it was approved. |
| `RecordTable.ToldAsRecorded` | crates/task-runtime/src/lib.rs:3637-3694 | That status is the one in the closing record of the same request, which names no actor and carries no rights. |
| `HandleLaws.DuplicateExactly` | crates/task-runtime/src/lib.rs:1199-1241 | Copying succeeds if and only if the handle names an endpoint entry with the duplicate right, the asked rights are nonempty and bit by bit within it, and a slot is free; then exactly the first free slot is filled, with the asked rights and otherwise the source entry, and the handle decodes to that slot. |
| `HandleLaws.CopyResolves` | crates/task-runtime/src/lib.rs:1166-1241 | The new handle resolves for a right exactly when that right was asked for. |
| `HandleLaws.CopyKeepsOthers` | crates/task-runtime/src/lib.rs:1199-1241 | Every other handle resolves after a copy as it did before. |
| `HandleLaws.CloseExactly` | crates/task-runtime/src/lib.rs:1243-1305 | Closing succeeds exactly on handles that name an entry, empties that slot, and moves its generation on or retires it. |
| `HandleLaws.CloseKeepsOthers` | crates/task-runtime/src/lib.rs:1243-1305 | Every other handle resolves after a close as it did before. |
| `HandleLaws.NarrowedCopy` | crates/task-runtime/src/lib.rs:1199-1241 | A copy asked for the send right alone sends and cannot be copied again. |
| `Constructors.CooperativeExactly` | crates/task-runtime/src/lib.rs:1655-1666 | The cooperative constructor's outcome, as a condition on identifiers, generations and roots for each error and for success. |
| `Constructors.SupervisedExactly` | crates/task-runtime/src/lib.rs:1668-1681 | The same for the supervised constructor. |
| `Constructors.JournaledExactly` | crates/task-runtime/src/lib.rs:3177-3297 | The same for the journaled constructor. |
| `ValidateMeaning.TableExactly` | crates/task-runtime/src/lib.rs:1307-1344 | The table check passes exactly on tables that are wholly empty when dead, and otherwise of one task with sound generations and entries. |
| `ValidateMeaning.TaskExactly` | crates/task-runtime/src/lib.rs:2102-2178 | The check of one task's slot, as a condition on its state, context and table. |
| `ValidateMeaning.CooperativeExactly` | crates/task-runtime/src/lib.rs:2180-2253 | The cooperative part of `validate`, as one condition and the error of what is violated first. |
| `ValidateMeaning.SupervisedExactly` | crates/task-runtime/src/lib.rs:2255-2390 | The supervised part of `validate`, likewise. |
| `ValidateMeaning.ValidateExactly` | crates/task-runtime/src/lib.rs:2102-2390 | `validate` passes exactly when the two tasks, the queue and the profile's objects agree, and otherwise reports the first disagreement. |
| `ValidateMeaning.ValidateJournaledExactly` | crates/task-runtime/src/lib.rs:3733-3821 | The journaled `validate` likewise. |
| `AddressSpaceLaws.ConstructFollows` | crates/address-space/src/lib.rs:613-706 | Construction says to any backend a script fixed by the generation and the frames obtained (seven pairs of allocate and prepare, then six links), up to the first refusal, and then the unwinding script of what was done. |
| `AddressSpaceLaws.AllocateFollows` | crates/address-space/src/lib.rs:613-706 | Its first half, frame by frame, with the reason it stops: refused by the backend, or a frame that is unaligned or already owned. |
| `AddressSpaceLaws.InstallFollows` | crates/address-space/src/lib.rs:613-706 | Its second half: the six links in order, parents and children by role. |
| `AddressSpaceLaws.RemoveFollows` | crates/address-space/src/lib.rs:741-774 | Links are taken out in the reverse order. |
| `AddressSpaceLaws.ReturnFollows` | crates/address-space/src/lib.rs:741-774 | Frames go back last obtained first, each only after the one before was taken. |
| `AddressSpaceLaws.UnwindFollows` | crates/address-space/src/lib.rs:741-774 | Unwinding is the removals, the clearing of shared entries, the window, one check that all frames are unreachable, and the returns, up to the first refusal; what was not taken back is kept. |
| `AddressSpaceLaws.TeardownFollows` | crates/address-space/src/lib.rs:776-837 | Teardown of an idle owner is the whole unwinding script, up to the first refusal. |
| `OwnerLaws.UsesExactly` | crates/address-space/src/lib.rs:512-566 | Over any uses short of a teardown an owner is active exactly when its last switch was an activation, refuses exactly a switch to where it is and tokens of another generation or address, and asks the backend nothing. |
| `OwnerLaws.TeardownAdmitted` | crates/address-space/src/lib.rs:776-811 | A teardown is refused exactly to an active or dead owner, without a word to the backend; admitted, it ends the owner's life whether or not it finishes. |
| `OwnerLaws.TokensExactly` | crates/address-space/src/lib.rs:528-566 | Tokens are minted for the two user mappings only, carry the owner's generation, and fail with the first check they fail. |
| `BackendLaws.PrepareExactly` | kernel/src/arch_x86_64.rs:2622-2643 | A prepared frame: the three shared words in a root, the program in a text page, zeros elsewhere; no other frame changes, and the refusals in order. |
| `BackendLaws.InstallExactly` | kernel/src/arch_x86_64.rs:2645-2655 | A link goes into an empty word only and is the child's address with its flags; no other word changes. |
| `BackendLaws.RemoveExactly` | kernel/src/arch_x86_64.rs:2657-2667 | A link is taken out only where it is present and to that child; no other word changes. |
| `BackendLaws.ClearSharedExactly` | kernel/src/arch_x86_64.rs:2669-2677 | The three shared words of the root become zero and nothing else changes. |
| `BackendLaws.WindowExactly` | kernel/src/arch_x86_64.rs:2679-2688 | A window still open is closed and reported. |
| `BackendLaws.VerifyExactly` | kernel/src/arch_x86_64.rs:2690-2725 | Frames pass exactly when the recovery root is active, the window shut, every owned table readable and empty, and no present bootstrap word points at one of them. |
| `BackendLaws.AllocateExactly` | kernel/src/arch_x86_64.rs:2616-2620 | The lowest free page is handed over, or exhaustion is reported. |
| `BackendLaws.BuiltIsFurnished` | crates/address-space/src/lib.rs:100-215 | Every word of all seven frames of a freshly built address space, as numbers: shared words, links with their flags, the program, zeros. |
| `HandoffMeaning.HeaderExactly` | crates/boot-contract/src/validate.rs:143-166 | The header check, as the condition for each error. |
| `HandoffMeaning.FramebufferExactly` | crates/boot-contract/src/validate.rs:168-207 | The framebuffer check, likewise. |
| `HandoffMeaning.ShapeExactly` | crates/boot-contract/src/validate.rs:41-70 | The whole shape check, likewise. |
| `HandoffMeaning.RegionErrorExactly` | crates/boot-contract/src/validate.rs:90-118 | The first failing check of a region, likewise. |
| `NormalizeFaults.OverridesRefused` | crates/boot-contract/src/normalize.rs:147-170 | A flawed override list is refused for its first flaw, whatever the sources are. |
| `NormalizeFaults.SourcesRefused` | crates/boot-contract/src/normalize.rs:42-115 | With source n the first flawed one, the map is refused for capacity if the sources before it already need more runs than fit, and otherwise for that flaw. |
| `NormalizeFaults.OrderedRefused` | crates/boot-contract/src/normalize.rs:42-145 | With both lists in order the remaining refusals are exactly capacity, no source, or a required override outside the sources. |
| `BootLaws.OverrideDecides` | crates/boot-contract/src/normalize.rs:42-115 | In an accepted map an override decides the kind of every described address it covers. |
| `BootLaws.KernelIsKept` | loader/src/main.rs:120-138 | Every byte of the kernel's pages is described by the firmware and kept reserved in every accepted map. |
| `BootLaws.ScreenIsKept` | loader/src/main.rs:140-165 | Every described byte of the screen is kept as device memory. |
| `BootLaws.ScreenTaken` | loader/src/main.rs:140-165 | The loader gives up on a screen exactly when rounding its end up leaves the address space. |
| `ElfLayout.PutReads` | crates/kernel-image/src/lib.rs:278-296 | Reading the little-endian bytes of a number that fits gives the number. |
| `ElfLayout.ReadPuts` | crates/kernel-image/src/lib.rs:278-296 | Writing the number read gives the bytes. |
| `ElfLayout.SegmentExactly` | crates/kernel-image/src/lib.rs:191-249 | The 56 bytes that encode a program header give exactly its offset, sizes, address and flags as a segment, nothing if it loads nothing, or its first fault. |
| `ElfLayout.FileExactly` | crates/kernel-image/src/lib.rs:73-127 | The 64 bytes that encode a file header give exactly its entry point, table offset and count, or its first fault. |
| `ElfLayout.AcceptsExactly` | crates/kernel-image/src/lib.rs:73-189 | A file is accepted if and only if its headers satisfy the stated conditions, and then its segments are those of its load headers, in order. |
| `ElfLayout.RefusedExactly` | crates/kernel-image/src/lib.rs:146-189 | A file with a sound header is refused for the first trouble in its program headers: the header's own fault, one load too many, or an overlap with an earlier one. |
| `ElfLayout.RefusedAtEnd` | crates/kernel-image/src/lib.rs:146-189 | Without such trouble it is refused exactly for loading nothing or for an entry point outside executable memory. |
| `ElfLayout.EveryFileLays` | crates/kernel-image/src/lib.rs:73-127 | Every file of at least 64 bytes is the encoding of a header, and of program headers when its table lies inside it, so the statements above cover every file. |
| `ElfLayout.PowerOfTwoMeans` | crates/kernel-image/src/lib.rs:191-249 | The alignment test holds exactly for the powers of two. |
| `BootLaws.WayIsOpen` | kernel/src/arch_x86_64.rs:1195-1214 | On the way to a mapped page every link is present, writable, executable and not for users, so the page's own word decides. |
| `BootLaws.RangeExactly` | kernel/src/arch_x86_64.rs:1236-1261 | A range is refused outright exactly when it is empty or not made of whole pages, and otherwise mapped page by page. |
| `BootLaws.RangeHolds` | kernel/src/arch_x86_64.rs:1236-1261 | Each page of a mapped range points at its own distance into the physical range with the flags asked for. |
| `SystemLaws.ResumesExactly` | kernel/src/arch_x86_64.rs:1935-1982 | A task is put on the processor exactly when the runtime chose it and the address space in its cell is live, idle, of its generation and at its context's root; then that space is the active one and nothing else changes. |
| `SystemLaws.TrapGuarded` | kernel/src/arch_x86_64.rs:1984-2040 | A trap is handled only for the task on the processor in the space active for it; otherwise the kernel stops with runtime, owners and memory as they were. |
| `SystemLaws.StoppedStays` | kernel/src/arch_x86_64.rs:1984-2097 | While no task is on the processor nothing changes. |
| `ManifestMeaning.ManifestExactly` | tools/component-admission/admission/src/lib.rs:380-460 | Bytes are read as a manifest if and only if it is sound (said in numbers, characters and byte order) and they are its text, written out, within 65536 bytes. |
| `ManifestMeaning.LessMeans` | tools/component-admission/admission/src/lib.rs:435-442 | The path order is byte order: the paths agree up to a point where the first ends or has the smaller byte. |
| `ManifestPaths.PathExactly` | tools/component-admission/admission/src/lib.rs:1069-1084 | A path is accepted if and only if it has 1 to 128 allowed characters and following it, character by character, goes down one level for every name and never up. |
| `ManifestPaths.StaysInside` | tools/component-admission/admission/src/lib.rs:1069-1084 | From any directory an accepted path ends at that directory extended by its own names, without ever leaving it. |
| `ManifestPaths.AcceptedPathsStayInside` | tools/component-admission/admission/src/lib.rs:380-460 | So do the tree path and every entry path of every manifest the parser accepts. |
| `ManifestPaths.ClimbingRefused` | tools/component-admission/admission/src/lib.rs:1069-1084 | A path with an empty, single-dot or double-dot name anywhere is refused. |

## Left out

- Assembly, descriptor tables, model-specific and control registers, TLB flushes, serial output: hardware effects. "The recovery root is active" and "physical addresses fit the 52-bit entry mask" are preconditions (`KernelBackend.Sound`, `Bootstrap.MapOutcome`).
- That no bootstrap mapping names a managed frame is a precondition of the construction theorems; the bootstrap mappings themselves depend on linker symbols that are not part of this model.
- UEFI calls, file reading and framebuffer capture in the loader: firmware input, taken as parameters.
- `TaskContextV1::validate` beyond the task, generation and root (kept in `SystemRun.ContextFits`), the fault classifier, `validate_fixed_layout` and size and offset assertions: each is settled by reading one function. Driven traps take the captured pointers, selectors and flags as valid, and runtime steps keep "the root is nonzero" from construction.
- SystemBoot.EverySystemRun: user code writing to its stack page between traps is not modelled, so nothing is said about the contents of text and stack frames after publication; the switch of the processor to a task's root and back is recorded in a cell, not as a change of the active root.
- The final check of the journaled profile compares the journal with one fixed run of eleven records (kernel/src/arch_x86_64.rs:2153-2174): it is about one program, not about the kernel.
- Signatures, digests, WebAssembly and WIT checks, staged-root walking and the command line of component admission: library calls or file-system input.
- Fault-injection parameters (`fail_before_step`) of the constructors and of `start_workload_with_failure`: no caller outside the crate's own checks passes one.
- Generation-tagged publication rollback of the constructors (crates/task-runtime/src/lib.rs:1909-1950, 3299-3313): it runs only under fault injection, since publication into fresh tables cannot fail otherwise.
- KernelMemory.PhysicalMemory.Open: the window's momentary mapping is a word that is set and cleared; that the processor reaches the frame through it is not modelled, and frames are separate pages of memory from the bootstrap pool.
- AddressSpaceOwners.ConstructAddressSpace: the source's rollback after a refused publication is not written out, because publication of a complete ledger is proved never to be refused.
- NormalizeMeaning.NormalizeExact: takes source and override records without attributes, since the source's records have no such field; the model shares one region type with the output.
- NormalizeFaults.SourcesRefused: takes such records too, for the same reason.
- JournaledRuntimes.JournaledRuntime.HandleTrap: after the error returns named by `LeavesTraces` it promises the error only, not what is left in the objects; `JournalProgress.JournaledTrapLands` shows that no run reaches them.
- KernelCells.Cells.Dispatch: when the kernel stops inside a journaled runtime, what that runtime object is left with is not stated; `KernelCells.NeverStopsInside` shows that no run stops there.
- TaskRuntimes.TaskRuntime.constructor: the object is built from a published state; the installs one by one during publication (crates/task-runtime/src/lib.rs:1779-1880) are in the value `PublishedTable`.
