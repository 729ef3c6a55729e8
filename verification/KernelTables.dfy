/**
 Linking and unlinking an owner's tables over the kernel backend. Nothing here depends on how
 the frames were obtained: they only have to be managed, aligned and distinct.
 */
module KernelTables {
  import opened Words
  import opened PageTables
  import opened AddressSpace
  import opened Extents
  import opened KernelBackend
  import FA = FrameAllocation

  /** The ledger's frames are managed, aligned and distinct. */
  ghost predicate Owned(k: Kernel, ledger: Ledger) {
    && InPlanOrder(ledger)
    && (forall j :: 0 <= j < |ledger| ==>
          ledger[j].start % PAGE_SIZE == 0 && ledger[j].start / PAGE_SIZE in Pages(k.managed))
    && forall i, j :: 0 <= i < j < |ledger| ==> ledger[i].start != ledger[j].start
  }

  /** The ledger's tables hold exactly the first `links` links of the plan. */
  ghost predicate Tabled(k: Kernel, ledger: Ledger, links: nat) {
    && links <= |BUILD_LINKS| && (links > 0 ==> |ledger| == |ALL_ROLES|) && Owned(k, ledger)
    && forall j :: 0 <= j < |ledger| && IsTable(ledger[j].role) ==>
         Read(k.memory, ledger[j].start) == Linked(k.recovery, ledger, ledger[j].role, links)
  }

  /** Memory outside the ledger's frames is the same in both. */
  ghost predicate SameElsewhere(k: Kernel, k': Kernel, ledger: Ledger) {
    forall frame: u64 :: !InLedger(ledger, frame) ==> Read(k.memory, frame) == Read(k'.memory, frame)
  }

  /** The frames that are not tables hold the same in both. */
  ghost predicate SameData(k: Kernel, k': Kernel, ledger: Ledger) {
    forall j :: 0 <= j < |ledger| && !IsTable(ledger[j].role) ==>
      Read(k.memory, ledger[j].start) == Read(k'.memory, ledger[j].start)
  }

  /** Every table of the ledger is empty. */
  ghost predicate Zeroed(k: Kernel, ledger: Ledger) {
    forall j :: 0 <= j < |ledger| && IsTable(ledger[j].role) ==> Read(k.memory, ledger[j].start) == ZeroPage()
  }

  lemma SameChain(a: Kernel, b: Kernel, c: Kernel, ledger: Ledger)
    requires SameElsewhere(a, b, ledger) && SameElsewhere(b, c, ledger)
    ensures SameElsewhere(a, c, ledger)
  {
  }

  lemma SameMemory(a: Kernel, b: Kernel, ledger: Ledger)
    requires a.memory == b.memory
    ensures SameElsewhere(a, b, ledger) && (Zeroed(a, ledger) <==> Zeroed(b, ledger))
  {
  }

  // One edit -----------------------------------------------------------------------------------------

  /** Writing one table of the ledger leaves the others alone. */
  lemma WriteTable(k: Kernel, ledger: Ledger, at: nat, page: Page)
    requires Owned(k, ledger) && at < |ledger|
    ensures forall j :: 0 <= j < |ledger| ==>
              Read(Write(k, ledger[at].start, page).memory, ledger[j].start)
              == if j == at then page else Read(k.memory, ledger[j].start)
    ensures SameElsewhere(k, Write(k, ledger[at].start, page), ledger)
  {
    hide Pages;
  }

  lemma WindowOpens(k: Kernel, ledger: Ledger)
    requires Sound(k) && Owned(k, ledger)
    ensures forall j :: 0 <= j < |ledger| ==> OpenWindow(k, ledger[j].start) == Pass
  {
    hide Pages, FA.Tables;
  }

  lemma ChildFits(k: Kernel, ledger: Ledger, role: FrameRole)
    requires Sound(k) && Owned(k, ledger) && |ledger| == |ALL_ROLES|
    ensures ledger[role.Index()].start % PAGE_SIZE == 0 && ledger[role.Index()].start < ADDRESS_LIMIT
  {
    hide Pages, FA.Tables;
    var start := ledger[role.Index()].start;
    assert start / PAGE_SIZE in Pages(k.managed);
    assert start == start / PAGE_SIZE * PAGE_SIZE;
  }

  /** One table may change its links; the rest of the kernel stays. */
  lemma {:induction false} TabledAgain(k: Kernel, k': Kernel, ledger: Ledger, n: nat, m: nat)
    requires Tabled(k, ledger, n) && k' == k.(memory := k'.memory)
    requires m <= |BUILD_LINKS| && |ledger| == |ALL_ROLES|
    requires forall j :: 0 <= j < |ledger| && IsTable(ledger[j].role) ==>
               Read(k'.memory, ledger[j].start) == Linked(k.recovery, ledger, ledger[j].role, m)
    ensures Tabled(k', ledger, m)
  {
    hide Linked, Read, Pages;
  }

  lemma SoundAgain(k: Kernel, k': Kernel)
    requires Sound(k) && k' == k.(memory := k'.memory)
    ensures Sound(k')
  {
    hide Pages, FA.Tables;
  }

  lemma NextLinked(recovery: Page, ledger: Ledger, j: nat, n: nat)
    requires n < |BUILD_LINKS| && |ledger| == |ALL_ROLES| && InPlanOrder(ledger) && j < |ledger|
    ensures var link := BUILD_LINKS[n];
            Linked(recovery, ledger, ledger[j].role, n + 1)
            == if j == link.parent.Index() then
                 var entry := Entry(ledger[link.child.Index()].start, link.flags);
                 Linked(recovery, ledger, link.parent, n)[link.index := entry]
               else Linked(recovery, ledger, ledger[j].role, n)
  {
    RolePlace(BUILD_LINKS[n].parent);
    assert ledger[j].role.Index() == j;
  }

  // Installing ---------------------------------------------------------------------------------------

  lemma {:induction false} InstallReply(k: Kernel, ledger: Ledger, n: nat)
    requires Sound(k) && Tabled(k, ledger, n) && n < |BUILD_LINKS| && |ledger| == |ALL_ROLES|
    ensures var link := BUILD_LINKS[n];
            var parent := ledger[link.parent.Index()].start;
            Step(k, InstallLink(link, parent, ledger[link.child.Index()].start))
            == (Write(k, parent, Linked(k.recovery, ledger, link.parent, n + 1)), Granted(0))
  {
    hide Linked, Complete, FA.Tables, Pages, Entry;
    WindowOpens(k, ledger);
    LinkFrames(ledger, n);
    SlotEmpty(k.recovery, ledger, n);
    NextLinked(k.recovery, ledger, BUILD_LINKS[n].parent.Index(), n);
  }

  lemma InstallStep(k: Kernel, ledger: Ledger, n: nat)
    requires Sound(k) && Tabled(k, ledger, n) && n < |BUILD_LINKS| && |ledger| == |ALL_ROLES|
    ensures Complete(ledger)
    ensures var (k', reply) := Step(k, LinkCall(false, ledger, n));
            && reply.Granted? && k' == k.(memory := k'.memory) && Tabled(k', ledger, n + 1)
            && SameElsewhere(k, k', ledger) && SameData(k, k', ledger)
  {
    hide Linked, Complete, FA.Tables, Pages, Sound, Step, LinkCall, SameElsewhere, Read;
    LinkFrames(ledger, n);
    InstallReply(k, ledger, n);
    SlotEmpty(k.recovery, ledger, n);
    var at := BUILD_LINKS[n].parent.Index();
    var page := Linked(k.recovery, ledger, BUILD_LINKS[n].parent, n + 1);
    WriteTable(k, ledger, at, page);
    var k' := Write(k, ledger[at].start, page);
    forall j | 0 <= j < |ledger| && IsTable(ledger[j].role)
      ensures Read(k'.memory, ledger[j].start) == Linked(k.recovery, ledger, ledger[j].role, n + 1)
    {
      NextLinked(k.recovery, ledger, j, n);
    }
    TabledAgain(k, k', ledger, n, n + 1);
  }

  /** Installation over a sound kernel always completes. */
  lemma {:induction false} InstallCompletes(m: KernelMachine, ledger: Ledger, n: nat)
    requires Sound(m.state) && Tabled(m.state, ledger, n) && |ledger| == |ALL_ROLES|
    ensures Complete(ledger)
    ensures var (m', links, refused) := InstallAll(Step, m, ledger, n);
            && refused.None? && m'.state == m.state.(memory := m'.state.memory)
            && Tabled(m'.state, ledger, |BUILD_LINKS|)
            && SameElsewhere(m.state, m'.state, ledger) && SameData(m.state, m'.state, ledger)
    decreases |BUILD_LINKS| - n
  {
    hide Linked, Complete, FA.Tables, Pages, Step, Sound, Owned;
    TabledLedger(m.state, ledger, n);
    FullIsComplete(ledger);
    if n < |BUILD_LINKS| {
      InstallStep(m.state, ledger, n);
      var m1 := Invoke(Step, m, LinkCall(false, ledger, n)).0;
      SoundAgain(m.state, m1.state);
      InstallCompletes(m1, ledger, n + 1);
      SameChain(m.state, m1.state, InstallAll(Step, m1, ledger, n + 1).0.state, ledger);
    }
  }

  lemma TabledLedger(k: Kernel, ledger: Ledger, n: nat)
    requires Tabled(k, ledger, n)
    ensures InPlanOrder(ledger) && Owned(k, ledger)
  {
  }

  // Removing -----------------------------------------------------------------------------------------

  /** The last link's slot holds the child, and clearing it leaves the table one link short. */
  lemma LastLink(k: Kernel, ledger: Ledger, n: nat)
    requires Sound(k) && Owned(k, ledger) && |ledger| == |ALL_ROLES| && 0 < n <= |BUILD_LINKS|
    ensures var link := BUILD_LINKS[n - 1];
            var table := Linked(k.recovery, ledger, link.parent, n);
            && Address(table[link.index]) == ledger[link.child.Index()].start && Present(table[link.index])
            && table[link.index := 0] == Linked(k.recovery, ledger, link.parent, n - 1)
  {
    hide Owned, Sound, Entry, Present, Address;
    var link := BUILD_LINKS[n - 1];
    SlotEmpty(k.recovery, ledger, n - 1);
    ChildFits(k, ledger, link.child);
    EntryFields(ledger[link.child.Index()].start, link.flags);
  }

  lemma {:induction false} RemoveReply(k: Kernel, ledger: Ledger, n: nat)
    requires Sound(k) && Tabled(k, ledger, n) && 0 < n
    ensures var link := BUILD_LINKS[n - 1];
            var parent := ledger[link.parent.Index()].start;
            Step(k, RemoveLink(link, parent, ledger[link.child.Index()].start))
            == (Write(k, parent, Linked(k.recovery, ledger, link.parent, n - 1)), Granted(0))
  {
    hide Linked, Complete, FA.Tables, Pages, Present, Address;
    WindowOpens(k, ledger);
    LinkFrames(ledger, n - 1);
    SlotEmpty(k.recovery, ledger, n - 1);
    LastLink(k, ledger, n);
  }

  lemma RemoveStep(k: Kernel, ledger: Ledger, n: nat)
    requires Sound(k) && Tabled(k, ledger, n) && 0 < n
    ensures Complete(ledger)
    ensures var (k', reply) := Step(k, LinkCall(true, ledger, n - 1));
            && reply.Granted? && k' == k.(memory := k'.memory) && Tabled(k', ledger, n - 1)
            && SameElsewhere(k, k', ledger)
  {
    hide Linked, Complete, FA.Tables, Pages, Sound, Step, LinkCall, SameElsewhere, Read;
    LinkFrames(ledger, n - 1);
    RemoveReply(k, ledger, n);
    UnlinkedTables(k, ledger, n);
  }

  /** Writing the parent's page without the last link leaves every table as after one link fewer. */
  lemma {:induction false} UnlinkedTables(k: Kernel, ledger: Ledger, n: nat)
    requires Tabled(k, ledger, n) && 0 < n
    ensures var link := BUILD_LINKS[n - 1];
            var k' := Write(k, ledger[link.parent.Index()].start, Linked(k.recovery, ledger, link.parent, n - 1));
            k' == k.(memory := k'.memory) && Tabled(k', ledger, n - 1) && SameElsewhere(k, k', ledger)
  {
    hide Linked, Pages, SameElsewhere, Read;
    var at := BUILD_LINKS[n - 1].parent.Index();
    var page := Linked(k.recovery, ledger, BUILD_LINKS[n - 1].parent, n - 1);
    RolePlace(BUILD_LINKS[n - 1].parent);
    WriteTable(k, ledger, at, page);
    var k' := Write(k, ledger[at].start, page);
    forall j | 0 <= j < |ledger| && IsTable(ledger[j].role)
      ensures Read(k'.memory, ledger[j].start) == Linked(k.recovery, ledger, ledger[j].role, n - 1)
    {
      NextLinked(k.recovery, ledger, j, n - 1);
    }
    TabledAgain(k, k', ledger, n, n - 1);
  }

  lemma {:induction false} RemoveCompletes(m: KernelMachine, ledger: Ledger, n: nat)
    requires Sound(m.state) && Tabled(m.state, ledger, n)
    ensures n > 0 ==> Complete(ledger)
    ensures var (m', error) := RemoveAll(Step, m, ledger, n);
            && error.None? && m'.state == m.state.(memory := m'.state.memory)
            && Tabled(m'.state, ledger, 0) && SameElsewhere(m.state, m'.state, ledger)
    decreases n
  {
    hide Linked, Complete, FA.Tables, Pages, Step, Sound, Owned;
    if n > 0 {
      RemoveStep(m.state, ledger, n);
      var m1 := Invoke(Step, m, LinkCall(true, ledger, n - 1)).0;
      SoundAgain(m.state, m1.state);
      RemoveCompletes(m1, ledger, n - 1);
      SameChain(m.state, m1.state, RemoveAll(Step, m1, ledger, n - 1).0.state, ledger);
    }
  }

  // Up to the returns ----------------------------------------------------------------------------------

  lemma {:induction false} TablesPass(k: Kernel, frames: Ledger)
    requires k.ready && k.window == 0 && Zeroed(k, frames)
    requires forall j :: 0 <= j < |frames| ==> frames[j].start % PAGE_SIZE == 0
    ensures CheckTables(k, frames) == Pass
  {
    if frames != [] {
      forall j | 0 <= j < |frames[1..]| && IsTable(frames[1..][j].role)
        ensures Read(k.memory, frames[1..][j].start) == ZeroPage()
      {
        assert frames[1..][j] == frames[j + 1];
      }
      TablesPass(k, frames[1..]);
      assert IsTable(frames[0].role) ==> Read(k.memory, frames[0].start) == ZeroPage();
    }
  }

  lemma PoolSilent(k: Kernel, ledger: Ledger)
    requires Sound(k) && Owned(k, ledger)
    ensures !PoolNames(k.pool, ledger)
  {
    hide Pages, Present, Address, FA.Tables;
  }

  /** With its links gone, clearing the shared slots empties the root. */
  lemma {:induction false} ClearStep(k: Kernel, ledger: Ledger)
    requires Sound(k) && Tabled(k, ledger, 0) && ledger != []
    ensures FrameFor(ledger, Root) == Some(ledger[0].start)
    ensures var (k', reply) := Step(k, ClearSharedEntries(ledger[0].start));
            && reply.Granted? && k' == k.(memory := k'.memory)
            && Zeroed(k', ledger) && SameElsewhere(k, k', ledger)
  {
    hide Pages, FA.Tables, SameElsewhere, Sound, CopyShared, ClearShared, Read, InPlanOrder, FrameFor;
    TabledLedger(k, ledger, 0);
    WindowOpens(k, ledger);
    FindsRole(ledger, 0);
    RolesInPlace(ledger);
    SharedCleared(k.recovery);
    WriteTable(k, ledger, 0, ZeroPage());
  }

  lemma SharedCleared(recovery: Page)
    ensures ClearShared(CopyShared(recovery)) == ZeroPage()
  {
  }

  lemma RolesInPlace(ledger: Ledger)
    requires InPlanOrder(ledger)
    ensures forall j :: 0 <= j < |ledger| ==> (ledger[j].role == Root <==> j == 0)
  {
  }

  lemma VerifyStep(k: Kernel, ledger: Ledger)
    requires Sound(k) && Owned(k, ledger) && Zeroed(k, ledger)
    ensures Step(k, VerifyUnreachable(ledger)) == (k, Granted(0))
  {
    hide Pages, PoolNames, CheckTables, Zeroed, FA.Tables;
    PoolSilent(k, ledger);
    TablesPass(k, ledger);
  }

  lemma EmptyLedger(k: Kernel)
    ensures FrameFor([], Root) == None && Zeroed(k, [])
  {
  }

  /** The state in which the frames of a rollback go back. */
  ghost function Emptied(m: KernelMachine, ledger: Ledger, links: nat): KernelMachine
    requires (links > 0 ==> Complete(ledger)) && links <= |BUILD_LINKS|
  {
    var m1 := RemoveAll(Step, m, ledger, links).0;
    var root := FrameFor(ledger, Root);
    var m2 := if root.Some? then Invoke(Step, m1, ClearSharedEntries(root.value)).0 else m1;
    var m3 := Invoke(Step, m2, ClearTemporaryWindow).0;
    Invoke(Step, m3, VerifyUnreachable(ledger)).0
  }

  /**
   Over a sound kernel every call of a rollback before the returns is granted: the links come out,
   the tables are emptied, the window is clear, and the reachability check passes.
   */
  lemma {:induction false} UnlinkCompletes(m: KernelMachine, ledger: Ledger, links: nat)
    requires Sound(m.state) && Tabled(m.state, ledger, links)
    ensures links > 0 ==> Complete(ledger)
    ensures var m' := Emptied(m, ledger, links);
            && m'.state == m.state.(memory := m'.state.memory)
            && Zeroed(m'.state, ledger) && SameElsewhere(m.state, m'.state, ledger)
            && Unwind(Step, m, ledger, links) == ReturnAll(Step, m', ledger)
  {
    hide Linked, Complete, FA.Tables, Pages, RemoveAll, ReturnAll, FrameFor, Zeroed, SameElsewhere, Owned;
    RemoveCompletes(m, ledger, links);
    var m1 := RemoveAll(Step, m, ledger, links).0;
    TabledLedger(m1.state, ledger, 0);
    SoundAgain(m.state, m1.state);
    if ledger == [] {
      EmptyLedger(m1.state);
    } else {
      ClearStep(m1.state, ledger);
    }
    var m2 := if ledger == [] then m1 else Invoke(Step, m1, ClearSharedEntries(ledger[0].start)).0;
    var m3 := Invoke(Step, m2, ClearTemporaryWindow).0;
    SoundAgain(m1.state, m3.state);
    OwnedAgain(m1.state, m3.state, ledger);
    VerifyStep(m3.state, ledger);
    if ledger == [] { SameMemory(m1.state, m2.state, ledger); }
    SameChain(m.state, m1.state, m2.state, ledger);
  }

  lemma OwnedAgain(k: Kernel, k': Kernel, ledger: Ledger)
    requires Owned(k, ledger) && k'.managed == k.managed
    ensures Owned(k', ledger)
  {
    hide Pages;
  }
}
