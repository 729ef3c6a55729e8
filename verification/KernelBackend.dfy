/**
 The kernel's backend for address-space construction: frames from the extent allocator,
 tables edited through the temporary window, and the reachability check before any return.
 */
module KernelBackend {
  import opened Words
  import opened PageTables
  import opened AddressSpace
  import opened Extents
  import FA = FrameAllocation

  datatype Kernel = Kernel(
    managed: seq<Extent>,
    free: seq<Extent>,
    memory: map<u64, Page>,
    ready: bool,
    window: u64,
    activeRoot: u64,
    recoveryRoot: u64,
    recovery: Page,
    pool: seq<Page>,
    probes: map<u64, Page>)

  type Done = Reply<IsolationError>

  type KernelMachine = Machine<Kernel, IsolationError>

  function Read(memory: map<u64, Page>, frame: u64): Page {
    if frame in memory then memory[frame] else ZeroPage()
  }

  function Write(k: Kernel, frame: u64, page: Page): Kernel {
    k.(memory := k.memory[frame := page])
  }

  /** Whether the temporary window can be pointed at a frame; it is empty again afterwards. */
  function OpenWindow(k: Kernel, frame: u64): Outcome<IsolationError> {
    if frame % PAGE_SIZE != 0 then Fail(InvalidMapping)
    else if !k.ready || k.window != 0 then Fail(TemporaryWindowBusy)
    else Pass
  }

  function CopyShared(from: Page): Page {
    ZeroPage()[0 := from[0]][510 := from[510]][511 := from[511]]
  }

  function ClearShared(page: Page): Page {
    page[0 := 0][510 := 0][511 := 0]
  }

  function Prepare(k: Kernel, generation: u64, role: FrameRole, frame: u64): (Kernel, Done) {
    match OpenWindow(k, frame)
    case Fail(e) => (k, Refused(e))
    case Pass =>
      if role == Root then (Write(k, frame, CopyShared(k.recovery)), Granted(0))
      else if role != Text then (Write(k, frame, ZeroPage()), Granted(0))
      else if generation in k.probes then (Write(k, frame, k.probes[generation]), Granted(0))
      else (Write(k, frame, ZeroPage()), Refused(InvalidMapping))
  }

  function Install(k: Kernel, link: LinkSpec, parent: u64, child: u64): (Kernel, Done) {
    match OpenWindow(k, parent)
    case Fail(e) => (k, Refused(e))
    case Pass =>
      var table := Read(k.memory, parent);
      if table[link.index] != 0 then (k, Refused(DuplicateMapping))
      else (Write(k, parent, table[link.index := Entry(child, link.flags)]), Granted(0))
  }

  function Remove(k: Kernel, link: LinkSpec, parent: u64, child: u64): (Kernel, Done) {
    match OpenWindow(k, parent)
    case Fail(e) => (k, Refused(e))
    case Pass =>
      var table := Read(k.memory, parent);
      var entry := table[link.index];
      if Address(entry) != child || !Present(entry) then (k, Refused(MissingMapping))
      else (Write(k, parent, table[link.index := 0]), Granted(0))
  }

  predicate IsTable(role: FrameRole) { role != Text && role != Stack }

  /** Every owned table must be readable and empty. */
  function CheckTables(k: Kernel, frames: Ledger): Outcome<IsolationError> {
    if frames == [] then Pass
    else if !IsTable(frames[0].role) then CheckTables(k, frames[1..])
    else
      match OpenWindow(k, frames[0].start)
      case Fail(e) => Fail(e)
      case Pass =>
        if Read(k.memory, frames[0].start) != ZeroPage() then Fail(ReachableFrame) else CheckTables(k, frames[1..])
  }

  predicate Names(entry: u64, frames: Ledger) {
    Present(entry) && exists j :: 0 <= j < |frames| && frames[j].start == Address(entry)
  }

  predicate PoolNames(pool: seq<Page>, frames: Ledger) {
    exists t, i :: 0 <= t < |pool| && 0 <= i < 512 && Names(pool[t][i], frames)
  }

  function Verify(k: Kernel, frames: Ledger): Outcome<IsolationError> {
    if k.activeRoot != k.recoveryRoot || k.window != 0 then Fail(ReachableFrame)
    else
      match CheckTables(k, frames)
      case Fail(e) => Fail(e)
      case Pass => if PoolNames(k.pool, frames) then Fail(ReachableFrame) else Pass
  }

  /** One backend call. A table whose first extent is empty never arises and is refused. */
  function Step(k: Kernel, call: Call): (Kernel, Done) {
    match call
    case AllocateFrame(_) =>
      if k.free != [] && k.free[0].pages < 1 then (k, Refused(FrameAllocation))
      else (match AllocateFirst(k.free)
            case Ok((frame, rest)) => (k.(free := rest), Granted(frame))
            case Err(_) => (k, Refused(FrameAllocation)))
    case PrepareFrame(generation, role, frame) => Prepare(k, generation, role, frame)
    case InstallLink(link, parent, child) => Install(k, link, parent, child)
    case RemoveLink(link, parent, child) => Remove(k, link, parent, child)
    case ClearSharedEntries(root) =>
      (match OpenWindow(k, root)
       case Fail(e) => (k, Refused(e))
       case Pass => (Write(k, root, ClearShared(Read(k.memory, root))), Granted(0)))
    case ClearTemporaryWindow =>
      if k.window == 0 then (k, Granted(0)) else (k.(window := 0), Refused(TemporaryWindowLeaked))
    case VerifyUnreachable(frames) =>
      (match Verify(k, frames)
       case Fail(e) => (k, Refused(e))
       case Pass => (k, Granted(0)))
    case ReturnFrame(owned) =>
      (match FreeFrame(k.managed, k.free, owned.start)
       case Ok(rest) => (k.(free := rest), Granted(0))
       case Err(_) => (k, Refused(FrameReturn)))
  }

  /**
   The kernel as it enters construction: recovery root active, window empty, allocator tables
   canonical, managed frames inside the entry mask, and no boot mapping naming one of them.
   */
  ghost predicate Sound(k: Kernel) {
    && FA.Tables(k.managed, k.free)
    && k.ready && k.window == 0 && k.activeRoot == k.recoveryRoot
    && (forall page :: page in Pages(k.managed) ==> page * PAGE_SIZE < ADDRESS_LIMIT)
    && (forall t, i :: 0 <= t < |k.pool| && 0 <= i < 512 && Present(k.pool[t][i]) ==>
          Address(k.pool[t][i]) / PAGE_SIZE !in Pages(k.managed))
  }

  // Allocating several frames ---------------------------------------------------------------------

  /** The free table after `n` allocations. */
  ghost function FreeAfter(free: seq<Extent>, n: nat): (r: seq<Extent>)
    requires Canonical(free)
    ensures Canonical(r)
  {
    if n == 0 then free
    else
      var prior := FreeAfter(free, n - 1);
      AllocateTakesLeast(prior);
      if prior == [] then [] else AllocateFirst(prior).value.1
  }

  /** The frame the next allocation takes. */
  ghost function FrameAt(free: seq<Extent>, n: nat): u64
    requires Canonical(free) && FreeAfter(free, n) != []
  {
    FreeAfter(free, n)[0].start
  }

  lemma TakesFrame(free: seq<Extent>, n: nat)
    requires Canonical(free) && FreeAfter(free, n) != []
    ensures FreeAfter(free, n)[0].pages >= 1
    ensures AllocateFirst(FreeAfter(free, n)) == Ok((FrameAt(free, n), FreeAfter(free, n + 1)))
    ensures FrameAt(free, n) % PAGE_SIZE == 0 && FrameAt(free, n) / PAGE_SIZE in Pages(FreeAfter(free, n))
    ensures Pages(FreeAfter(free, n + 1)) == Pages(FreeAfter(free, n)) - {FrameAt(free, n) / PAGE_SIZE}
  {
    hide Pages, Canonical;
    AllocateTakesLeast(FreeAfter(free, n));
    HeadNotEmpty(FreeAfter(free, n));
  }

  lemma {:induction false} FreeShrinks(free: seq<Extent>, n: nat, m: nat)
    requires Canonical(free) && n <= m
    ensures Pages(FreeAfter(free, m)) <= Pages(FreeAfter(free, n))
    ensures FreeAfter(free, m) != [] ==> FreeAfter(free, n) != []
    decreases m
  {
    hide Pages, Canonical;
    if n < m {
      FreeShrinks(free, n, m - 1);
      if FreeAfter(free, m - 1) != [] { TakesFrame(free, m - 1); }
    }
  }

  /** Frames taken in turn are distinct, and none is free afterwards. */
  lemma {:induction false} FramesDistinct(free: seq<Extent>, i: nat, j: nat)
    requires Canonical(free) && i < j && FreeAfter(free, j) != []
    ensures FreeAfter(free, i) != [] && FrameAt(free, i) != FrameAt(free, j)
  {
    hide Pages, Canonical, FreeAfter;
    FreeShrinks(free, i, j);
    FreeShrinks(free, i + 1, j);
    TakesFrame(free, i);
    TakesFrame(free, j);
  }

  /** Seven allocations succeed exactly when seven pages are free. */
  lemma {:induction false} FreeCount(free: seq<Extent>, n: nat)
    requires Canonical(free)
    ensures FreeAfter(free, n) != [] <==> |Pages(free)| > n
    ensures |Pages(FreeAfter(free, n))| == if |Pages(free)| > n then |Pages(free)| - n else 0
  {
    hide Pages, Canonical;
    AllocateTakesLeast(FreeAfter(free, n));
    if n > 0 {
      FreeCount(free, n - 1);
      AllocateTakesLeast(FreeAfter(free, n - 1));
      if FreeAfter(free, n - 1) != [] {
        TakesFrame(free, n - 1);
        var before, after := Pages(FreeAfter(free, n - 1)), Pages(FreeAfter(free, n));
        assert |after| == |before| - 1;
      }
      assert FreeAfter(free, n) == [] <==> |Pages(FreeAfter(free, n))| == 0;
    }
  }

  // The state while building -----------------------------------------------------------------------

  function Blank(recovery: Page, role: FrameRole): Page {
    if role == Root then CopyShared(recovery) else ZeroPage()
  }

  /** The table of `role` once the first `n` links are in place. */
  function Linked(recovery: Page, ledger: Ledger, role: FrameRole, n: nat): Page
    requires n <= |BUILD_LINKS| && (n > 0 ==> |ledger| == |ALL_ROLES|)
  {
    if n == 0 then Blank(recovery, role)
    else
      var page := Linked(recovery, ledger, role, n - 1);
      var link := BUILD_LINKS[n - 1];
      if link.parent == role then page[link.index := Entry(ledger[link.child.Index()].start, link.flags)] else page
  }

  /** The ledger holds the first frames of `free` in plan order. */
  ghost predicate Takes(free: seq<Extent>, ledger: Ledger)
    requires Canonical(free)
  {
    && InPlanOrder(ledger)
    && forall j :: 0 <= j < |ledger| ==> FreeAfter(free, j) != [] && ledger[j].start == FrameAt(free, j)
  }

  ghost predicate InLedger(ledger: Ledger, frame: u64) {
    exists j :: 0 <= j < |ledger| && ledger[j].start == frame
  }

  lemma TakenFrames(free: seq<Extent>, ledger: Ledger)
    requires Canonical(free) && Takes(free, ledger)
    ensures forall j :: 0 <= j < |ledger| ==>
              ledger[j].start % PAGE_SIZE == 0 && ledger[j].start / PAGE_SIZE in Pages(free)
    ensures forall i, j :: 0 <= i < j < |ledger| ==> ledger[i].start != ledger[j].start
  {
    hide Pages, Canonical, FreeAfter, InPlanOrder;
    forall j | 0 <= j < |ledger|
      ensures ledger[j].start % PAGE_SIZE == 0 && ledger[j].start / PAGE_SIZE in Pages(free)
    {
      TakesFrame(free, j);
      FreeShrinks(free, 0, j);
      StartsFree(free);
    }
    forall i, j | 0 <= i < j < |ledger| ensures ledger[i].start != ledger[j].start {
      FramesDistinct(free, i, j);
    }
  }

  lemma {:induction false} StartsFree(free: seq<Extent>)
    requires Canonical(free)
    ensures FreeAfter(free, 0) == free
  {
  }

  /** The link plan, index by index. */
  lemma Plan()
    ensures BUILD_LINKS[0] == LinkSpec(Root, UserPml3, 1, TABLE_FLAGS)
    ensures BUILD_LINKS[1] == LinkSpec(UserPml3, UserPml2, 0, TABLE_FLAGS)
    ensures BUILD_LINKS[2] == LinkSpec(UserPml2, TextPml1, 2, TABLE_FLAGS)
    ensures BUILD_LINKS[3] == LinkSpec(UserPml2, StackPml1, 4, TABLE_FLAGS)
    ensures BUILD_LINKS[4] == LinkSpec(TextPml1, Text, 0, USER_TEXT_FLAGS)
    ensures BUILD_LINKS[5] == LinkSpec(StackPml1, Stack, 0, USER_STACK_FLAGS)
  {
  }

  lemma {:induction false} Untouched(recovery: Page, ledger: Ledger, role: FrameRole, index: TableIndex, n: nat)
    requires n <= |BUILD_LINKS| && (n > 0 ==> |ledger| == |ALL_ROLES|)
    requires forall i :: 0 <= i < n ==> BUILD_LINKS[i].parent != role || BUILD_LINKS[i].index != index
    ensures Linked(recovery, ledger, role, n)[index] == Blank(recovery, role)[index]
  {
    if n > 0 { Untouched(recovery, ledger, role, index, n - 1); }
  }

  /** No link is ever made over an earlier one or over a shared slot. */
  lemma {:induction false} SlotEmpty(recovery: Page, ledger: Ledger, n: nat)
    requires n < |BUILD_LINKS| && |ledger| == |ALL_ROLES|
    ensures Linked(recovery, ledger, BUILD_LINKS[n].parent, n)[BUILD_LINKS[n].index] == 0
    ensures IsTable(BUILD_LINKS[n].parent)
  {
    hide Linked;
    Plan();
    Untouched(recovery, ledger, BUILD_LINKS[n].parent, BUILD_LINKS[n].index, n);
  }

  /** A link call names the ledger's own frames. */
  lemma LinkFrames(ledger: Ledger, n: nat)
    requires n < |BUILD_LINKS| && |ledger| == |ALL_ROLES| && InPlanOrder(ledger)
    ensures Complete(ledger)
    ensures var link := BUILD_LINKS[n];
            var parent, child := ledger[link.parent.Index()].start, ledger[link.child.Index()].start;
            && LinkCall(false, ledger, n) == InstallLink(link, parent, child)
            && LinkCall(true, ledger, n) == RemoveLink(link, parent, child)
            && ledger[link.parent.Index()].role == link.parent
  {
    FullIsComplete(ledger);
    var link := BUILD_LINKS[n];
    RolePlace(link.parent);
    RolePlace(link.child);
    FindsRole(ledger, link.parent.Index());
    FindsRole(ledger, link.child.Index());
  }

  lemma RolePlace(role: FrameRole)
    ensures role.Index() < |ALL_ROLES| && ALL_ROLES[role.Index()] == role
  {
  }
}
