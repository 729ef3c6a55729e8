/**
 The version-one trap boundary: operation numbers, status codes, the captured
 register frame and the saved task context.
 */
module TrapAbi {
  import opened Words

  const SENDER_TASK_ID: u64 := 1
  const RECEIVER_TASK_ID: u64 := 2
  const SUPERVISOR_GENERATION: u64 := 4
  const WORKLOAD_GENERATION: u64 := 5

  datatype TrapOperation =
    | OpYield | OpSend | OpReceive | OpExit | OpDuplicate | OpClose | OpStartWorkload
    | OpSubmitApproval | OpInspectApproval | OpDecideApproval | OpCommitEffect
    | OpInspectEffectJournal | OpReadEffectRecord

  function ParseOperation(value: u64): Option<TrapOperation> {
    match value
    case 0 => Some(OpYield)
    case 1 => Some(OpSend)
    case 2 => Some(OpReceive)
    case 3 => Some(OpExit)
    case 4 => Some(OpDuplicate)
    case 5 => Some(OpClose)
    case 6 => Some(OpStartWorkload)
    case 7 => Some(OpSubmitApproval)
    case 8 => Some(OpInspectApproval)
    case 9 => Some(OpDecideApproval)
    case 10 => Some(OpCommitEffect)
    case 11 => Some(OpInspectEffectJournal)
    case 12 => Some(OpReadEffectRecord)
    case _ => None
  }

  datatype TrapStatus =
    | StatusOk | InvalidOperation | InvalidEndpoint | WrongRole | SlotFull | PeerExited
    | InvalidHandle | WrongObject | RightsDenied | InvalidRights | HandleTableFull
    | GenerationExhausted | InvalidManifest | InvalidRequest | BrokerFull | ApprovalMismatch
    | ApprovalDenied | ApprovalExpired | EffectUnavailable | BrokerUnavailable
    | AlreadyLaunched | JournalFull | JournalUnavailable | InvalidRecord
  {
    /** The number user code reads back in `rax`. */
    function Code(): u64 {
      match this
      case StatusOk => 0
      case InvalidOperation => 1
      case InvalidEndpoint => 2
      case WrongRole => 3
      case SlotFull => 4
      case PeerExited => 5
      case InvalidHandle => 6
      case WrongObject => 7
      case RightsDenied => 8
      case InvalidRights => 9
      case HandleTableFull => 10
      case GenerationExhausted => 11
      case InvalidManifest => 12
      case InvalidRequest => 13
      case BrokerFull => 14
      case ApprovalMismatch => 15
      case ApprovalDenied => 16
      case ApprovalExpired => 17
      case EffectUnavailable => 18
      case BrokerUnavailable => 19
      case AlreadyLaunched => 20
      case JournalFull => 21
      case JournalUnavailable => 22
      case InvalidRecord => 23
    }
  }

  /** Registers the trap handlers never read or write; they only travel through. */
  datatype OtherRegisters = OtherRegisters(
    rbx: u64, rcx: u64, rbp: u64, r8: u64, r9: u64, r10: u64, r11: u64, r12: u64,
    r13: u64, r14: u64, r15: u64, rip: u64, cs: u64, rflags: u64, rsp: u64, ss: u64)

  datatype TrapFrame = TrapFrame(rax: u64, rdi: u64, rsi: u64, rdx: u64, other: OtherRegisters)

  datatype TaskContext = TaskContext(
    rax: u64, rdi: u64, rsi: u64, rdx: u64, other: OtherRegisters,
    root: u64, taskId: u64, generation: u64)
  {
    function SetResult(status: TrapStatus, value: u64): TaskContext {
      this.(rax := status.Code(), rdx := value)
    }
  }

  function FromTrap(frame: TrapFrame, task: u64, generation: u64, root: u64): TaskContext {
    TaskContext(frame.rax, frame.rdi, frame.rsi, frame.rdx, frame.other, root, task, generation)
  }

  const DEAD_CONTEXT: TaskContext :=
    TaskContext(0, 0, 0, 0,
                OtherRegisters(0, 0, 0, 0, 0, 0, 0, 0, 0, 0, 0, 0, 0, 2, 0, 0), 0, 0, 0)
}
