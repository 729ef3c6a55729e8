/**
 What a task can reach: the translation x86-64 4-level paging gives a user access, walked
 over every canonical address of a finished address space.
 */
module UserMappings {
  import opened Words
  import opened PageTables
  import opened AddressSpace
  import opened Extents
  import opened KernelBackend
  import opened KernelTables
  import opened KernelConstruction
  import B = Bootstrap

  const INVALID_WRITE_TARGET: int := 0x0000_0080_0060_0000
  const USER_STACK_GUARD_LOWER: int := 0x0000_0080_007f_f000
  const USER_STACK_GUARD_UPPER: int := 0x0000_0080_0080_1000

  datatype Translation = Translation(frame: u64, writable: bool, noExecute: bool)

  predicate Canonical48(address: u64) {
    address < 0x8000_0000_0000 || address >= 0xFFFF_8000_0000_0000
  }

  /** A user access may go through this entry. */
  predicate Passes(entry: u64) { Present(entry) && User(entry) }

  function Page4K(address: u64): u64 { address / PAGE_SIZE * PAGE_SIZE }

  /** The page of a large mapping that an address falls in. */
  function Within(base: u64, address: u64, size: nat): u64
    requires size > 0 && size <= 0x4000_0000
  {
    Address(base) + address % size / PAGE_SIZE * PAGE_SIZE
  }

  /** The user-mode walk: every level must be present and user; rights are the meet of the levels. */
  function UserWalk(memory: map<u64, Page>, root: u64, address: u64): Option<Translation> {
    var e4 := Read(memory, root)[Pml4Index(address)];
    if !Canonical48(address) || !Passes(e4) then None
    else
      var e3 := Read(memory, Address(e4))[Pml3Index(address)];
      if !Passes(e3) then None
      else if Large(e3) then
        Some(Translation(Within(e3, address, 0x4000_0000), Writable(e4) && Writable(e3),
                         NoExecute(e4) || NoExecute(e3)))
      else
        var e2 := Read(memory, Address(e3))[Pml2Index(address)];
        var writable := Writable(e4) && Writable(e3) && Writable(e2);
        var noExecute := NoExecute(e4) || NoExecute(e3) || NoExecute(e2);
        if !Passes(e2) then None
        else if Large(e2) then Some(Translation(Within(e2, address, 0x20_0000), writable, noExecute))
        else
          var e1 := Read(memory, Address(e2))[Pml1Index(address)];
          if !Passes(e1) then None
          else Some(Translation(Address(e1), writable && Writable(e1), noExecute || NoExecute(e1)))
  }

  /** A low-half address is its four indices. */
  lemma IndicesAreThePage(address: u64)
    requires address < 0x8000_0000_0000
    ensures address / PAGE_SIZE
            == ((Pml4Index(address) * 512 + Pml3Index(address)) * 512 + Pml2Index(address)) * 512 + Pml1Index(address)
  {
    var page := address / 0x1000;
    assert address / 0x20_0000 == page / 512;
    assert address / 0x4000_0000 == page / 512 / 512;
    assert address / 0x80_0000_0000 == page / 512 / 512 / 512;
  }

  /** The four tables of a finished address space, slot by slot. */
  lemma {:induction false} FinalTables(recovery: Page, ledger: Ledger)
    requires |ledger| == |ALL_ROLES|
    ensures Linked(recovery, ledger, Root, 6) == CopyShared(recovery)[1 := Entry(ledger[1].start, TABLE_FLAGS)]
    ensures Linked(recovery, ledger, UserPml3, 6) == ZeroPage()[0 := Entry(ledger[2].start, TABLE_FLAGS)]
    ensures Linked(recovery, ledger, UserPml2, 6)
            == ZeroPage()[2 := Entry(ledger[3].start, TABLE_FLAGS)][4 := Entry(ledger[4].start, TABLE_FLAGS)]
    ensures Linked(recovery, ledger, TextPml1, 6) == ZeroPage()[0 := Entry(ledger[5].start, USER_TEXT_FLAGS)]
    ensures Linked(recovery, ledger, StackPml1, 6) == ZeroPage()[0 := Entry(ledger[6].start, USER_STACK_FLAGS)]
  {
    hide Entry, CopyShared;
    Plan();
    forall role: FrameRole
      ensures Linked(recovery, ledger, role, 2)
              == if role == Root then Blank(recovery, role)[1 := Entry(ledger[1].start, TABLE_FLAGS)]
                 else if role == UserPml3 then Blank(recovery, role)[0 := Entry(ledger[2].start, TABLE_FLAGS)]
                 else Blank(recovery, role)
    {
      assert Linked(recovery, ledger, role, 1)
          == if role == Root then Blank(recovery, role)[1 := Entry(ledger[1].start, TABLE_FLAGS)]
            else Blank(recovery, role);
    }
    forall role: FrameRole
      ensures Linked(recovery, ledger, role, 4)
              == if role == UserPml2 then
                   var text := Blank(recovery, role)[2 := Entry(ledger[3].start, TABLE_FLAGS)];
                   text[4 := Entry(ledger[4].start, TABLE_FLAGS)]
                 else Linked(recovery, ledger, role, 2)
    {
      assert Linked(recovery, ledger, role, 3)
          == if role == UserPml2 then Blank(recovery, role)[2 := Entry(ledger[3].start, TABLE_FLAGS)]
             else Linked(recovery, ledger, role, 2);
    }
    forall role: FrameRole
      ensures Linked(recovery, ledger, role, 6)
              == if role == TextPml1 then Blank(recovery, role)[0 := Entry(ledger[5].start, USER_TEXT_FLAGS)]
                 else if role == StackPml1 then Blank(recovery, role)[0 := Entry(ledger[6].start, USER_STACK_FLAGS)]
                 else Linked(recovery, ledger, role, 4)
    {
      assert Linked(recovery, ledger, role, 5)
          == if role == TextPml1 then Blank(recovery, role)[0 := Entry(ledger[5].start, USER_TEXT_FLAGS)]
             else Linked(recovery, ledger, role, 4);
    }
  }

  /** The recovery root's shared slots are closed to user accesses. */
  predicate SharedSupervisor(recovery: Page) {
    !Passes(recovery[0]) && !Passes(recovery[510]) && !Passes(recovery[511])
  }

  /** A recovery root made by the bootstrap builder is closed in that way, whatever was mapped. */
  lemma BuilderRootIsShared(b: B.Builder)
    requires B.Shaped(b)
    ensures B.Placed(b) && SharedSupervisor(b.tables[0])
  {
    B.RootIsSupervisor(b, 0);
    B.RootIsSupervisor(b, 510);
    B.RootIsSupervisor(b, 511);
  }

  /** What the task may reach, stated without tables. */
  function Expected(ledger: Ledger, address: u64): Option<Translation>
    requires |ledger| == |ALL_ROLES|
  {
    if Page4K(address) == USER_TEXT then Some(Translation(ledger[5].start, false, false))
    else if Page4K(address) == USER_STACK then Some(Translation(ledger[6].start, true, true))
    else None
  }

  /** The fields of one link's entry. */
  lemma LinkEntry(k: Kernel, ledger: Ledger, at: nat, flags: Flags)
    requires Sound(k) && Owned(k, ledger) && |ledger| == |ALL_ROLES| && at < |ALL_ROLES| && flags.user
    ensures var e := Entry(ledger[at].start, flags);
            && Passes(e) && Address(e) == ledger[at].start && !Large(e)
            && Writable(e) == flags.writable && NoExecute(e) == flags.noExecute
  {
    hide Entry, Present, Address, Large, Writable, User, NoExecute, Sound, Owned;
    assert ALL_ROLES[at].Index() == at;
    ChildFits(k, ledger, ALL_ROLES[at]);
    EntryFields(ledger[at].start, flags);
  }

  lemma ZeroCloses()
    ensures !Passes(0)
  {
  }

  /** The first two levels lead every user access to the one table of the second. */
  lemma UpperLevels(k: Kernel, ledger: Ledger, address: u64)
    requires Sound(k) && SharedSupervisor(k.recovery) && Tabled(k, ledger, |BUILD_LINKS|)
    ensures var e4 := Read(k.memory, ledger[0].start)[Pml4Index(address)];
            && (Passes(e4) <==> Pml4Index(address) == 1)
            && (Passes(e4) ==> e4 == Entry(ledger[1].start, TABLE_FLAGS))
    ensures var e3 := Read(k.memory, ledger[1].start)[Pml3Index(address)];
            && (Passes(e3) <==> Pml3Index(address) == 0)
            && (Passes(e3) ==> e3 == Entry(ledger[2].start, TABLE_FLAGS))
  {
    hide Linked, Sound, Entry, Passes, Pml4Index, Pml3Index, Pages;
    FinalTables(k.recovery, ledger);
    LinkEntry(k, ledger, 1, TABLE_FLAGS);
    LinkEntry(k, ledger, 2, TABLE_FLAGS);
    ZeroCloses();
    assert ledger[0].role == Root && ledger[1].role == UserPml3;
    SharedClosed(k.recovery);
  }

  lemma SharedClosed(recovery: Page)
    requires SharedSupervisor(recovery)
    ensures forall i :: 0 <= i < 512 ==> !Passes(CopyShared(recovery)[i])
  {
    hide Passes;
    ZeroCloses();
  }

  lemma LowerLevels(k: Kernel, ledger: Ledger, address: u64)
    requires Sound(k) && Tabled(k, ledger, |BUILD_LINKS|)
    ensures var e2 := Read(k.memory, ledger[2].start)[Pml2Index(address)];
            && (Passes(e2) <==> Pml2Index(address) == 2 || Pml2Index(address) == 4)
            && (Pml2Index(address) == 2 ==> e2 == Entry(ledger[3].start, TABLE_FLAGS))
            && (Pml2Index(address) == 4 ==> e2 == Entry(ledger[4].start, TABLE_FLAGS))
    ensures var e1 := Read(k.memory, ledger[3].start)[Pml1Index(address)];
            && (Passes(e1) <==> Pml1Index(address) == 0)
            && (Passes(e1) ==> e1 == Entry(ledger[5].start, USER_TEXT_FLAGS))
    ensures var e1 := Read(k.memory, ledger[4].start)[Pml1Index(address)];
            && (Passes(e1) <==> Pml1Index(address) == 0)
            && (Passes(e1) ==> e1 == Entry(ledger[6].start, USER_STACK_FLAGS))
  {
    hide Linked, Sound, Entry, Passes, Pml2Index, Pml1Index, Pages;
    FinalTables(k.recovery, ledger);
    LinkEntry(k, ledger, 3, TABLE_FLAGS);
    LinkEntry(k, ledger, 4, TABLE_FLAGS);
    LinkEntry(k, ledger, 5, USER_TEXT_FLAGS);
    LinkEntry(k, ledger, 6, USER_STACK_FLAGS);
    ZeroCloses();
    assert ledger[2].role == UserPml2 && ledger[3].role == TextPml1 && ledger[4].role == StackPml1;
  }

  /** Which canonical addresses have the indices of the two user pages. */
  lemma UserIndices(address: u64)
    requires Canonical48(address)
    ensures Pml4Index(address) == 1 && Pml3Index(address) == 0 && Pml2Index(address) == 2 && Pml1Index(address) == 0
            <==> Page4K(address) == USER_TEXT
    ensures Pml4Index(address) == 1 && Pml3Index(address) == 0 && Pml2Index(address) == 4 && Pml1Index(address) == 0
            <==> Page4K(address) == USER_STACK
  {
    if address < 0x8000_0000_0000 {
      IndicesAreThePage(address);
    } else {
      assert address / 0x80_0000_0000 >= 0x1FF_FF00;
    }
  }

  /**
   Over every address, a user access to a finished address space translates exactly at the text
   page, read and execute only, and the stack page, read and write only.
   */
  lemma UserSeesTextAndStack(k: Kernel, ledger: Ledger, address: u64)
    requires Sound(k) && SharedSupervisor(k.recovery) && Tabled(k, ledger, |BUILD_LINKS|)
    ensures UserWalk(k.memory, ledger[0].start, address)
            == if Canonical48(address) then Expected(ledger, address) else None
  {
    hide Linked, Sound, Entry, Passes, Address, Large, Writable, NoExecute,
      Pml4Index, Pml3Index, Pml2Index, Pml1Index, SharedSupervisor, Read, Page4K, Tabled;
    UpperLevels(k, ledger, address);
    LowerLevels(k, ledger, address);
    Entries(k, ledger);
    if Canonical48(address) { UserIndices(address); }
  }

  lemma Entries(k: Kernel, ledger: Ledger)
    requires Sound(k) && Tabled(k, ledger, |BUILD_LINKS|)
    ensures forall at | 1 <= at <= 6 ::
              var flags := if at == 5 then USER_TEXT_FLAGS else if at == 6 then USER_STACK_FLAGS else TABLE_FLAGS;
              var e := Entry(ledger[at].start, flags);
              && Address(e) == ledger[at].start && !Large(e)
              && Writable(e) == flags.writable && NoExecute(e) == flags.noExecute
  {
    hide Linked, Sound, Entry, Passes, Address, Large, Writable, NoExecute, Read, Pages;
    forall at | 1 <= at <= 6
      ensures var flags := if at == 5 then USER_TEXT_FLAGS else if at == 6 then USER_STACK_FLAGS else TABLE_FLAGS;
              var e := Entry(ledger[at].start, flags);
              && Address(e) == ledger[at].start && !Large(e)
              && Writable(e) == flags.writable && NoExecute(e) == flags.noExecute
    {
      LinkEntry(k, ledger, at, if at == 5 then USER_TEXT_FLAGS else if at == 6 then USER_STACK_FLAGS else TABLE_FLAGS);
    }
  }

  /** The address space as a task and the kernel see it. */
  ghost predicate Isolated(k: Kernel, owner: Owner) {
    && Published(owner)
    && (forall address: u64 :: UserWalk(k.memory, owner.root.value, address)
          == if Canonical48(address) then Expected(owner.ledger, address) else None)
    && (forall i :: 0 <= i < 512 && i != 1 ==> Read(k.memory, owner.root.value)[i] == CopyShared(k.recovery)[i])
  }

  /** The text frame holds the owner's program and the stack is blank. */
  ghost predicate Programmed(k: Kernel, owner: Owner) {
    && Published(owner) && owner.generation in k.probes
    && Read(k.memory, owner.ledger[5].start) == k.probes[owner.generation]
    && Read(k.memory, owner.ledger[6].start) == ZeroPage()
  }

  lemma TabledIsIsolated(k: Kernel, owner: Owner)
    requires Sound(k) && SharedSupervisor(k.recovery) && Published(owner) && Tabled(k, owner.ledger, |BUILD_LINKS|)
    ensures Isolated(k, owner)
  {
    hide Linked, Sound, UserWalk, Expected, SharedSupervisor, CopyShared, Pages;
    var ledger := owner.ledger;
    forall address: u64 ensures UserWalk(k.memory, ledger[0].start, address)
                                == if Canonical48(address) then Expected(ledger, address) else None {
      UserSeesTextAndStack(k, ledger, address);
    }
    FinalTables(k.recovery, ledger);
    assert ledger[0].role == Root;
  }

  /** Every construction that succeeds gives an isolated, programmed address space. */
  lemma BuiltIsIsolated(k0: Kernel, m: KernelMachine, generation: u64)
    requires Sound(k0) && SharedSupervisor(k0.recovery) && m.state == k0
    ensures var (m', r) := Construct(Step, m, generation);
            r.Built? ==>
              Isolated(m'.state, r.owner) && Programmed(m'.state, r.owner) && r.owner.generation == generation
  {
    hide Linked, Sound, SharedSupervisor, Construct, Step, Isolated, SameElsewhere, Restored, Got, Later, Tabled;
    BuildOutcome(k0, m, generation);
    var (m', r) := Construct(Step, m, generation);
    if r.Built? {
      StaysSound(k0, m'.state, |ALL_ROLES|);
      TabledIsIsolated(m'.state, r.owner);
    }
  }

  /**
   Every pair that succeeds gives two isolated address spaces at once, and no user address of
   either one reaches a frame of the other.
   */
  lemma PairIsIsolated(k0: Kernel, m: KernelMachine, g1: u64, g2: u64, a: u64, b: u64)
    requires Sound(k0) && SharedSupervisor(k0.recovery) && m.state == k0
    ensures var (m', r) := ConstructPair(Step, m, g1, g2);
            r.BuiltPair? ==>
              && Isolated(m'.state, r.first) && Programmed(m'.state, r.first)
              && Isolated(m'.state, r.second) && Programmed(m'.state, r.second)
              && var ta := UserWalk(m'.state.memory, r.first.root.value, a);
                 var tb := UserWalk(m'.state.memory, r.second.root.value, b);
                 ta.Some? && tb.Some? ==> ta.value.frame != tb.value.frame
  {
    hide Linked, Takes, Sound, SharedSupervisor, ConstructPair, Step, SameElsewhere, Restored, Got, Later, UserWalk,
      CopyShared, FreeAfter, Canonical48, Tabled, Read;
    PairOutcome(k0, m, g1, g2);
    var (m', r) := ConstructPair(Step, m, g1, g2);
    if r.BuiltPair? {
      PairPublished(m, g1, g2);
      var k1 := m'.state.(free := FreeAfter(k0.free, |ALL_ROLES|));
      StaysSound(k0, k1, |ALL_ROLES|);
      StaysSound(k1, m'.state, |ALL_ROLES|);
      TabledIsIsolated(k1, r.first);
      TabledIsIsolated(m'.state, r.second);
      TakenNotFree(k0.free, r.first.ledger);
      UsedFree(k1, r.second.ledger);
    }
  }

  /** The guard pages and the deliberate fault target are unmapped for the task. */
  lemma GuardsUnmapped(k: Kernel, owner: Owner, address: u64)
    requires Isolated(k, owner)
    requires Page4K(address) in {INVALID_WRITE_TARGET, USER_STACK_GUARD_LOWER, USER_STACK_GUARD_UPPER}
    ensures UserWalk(k.memory, owner.root.value, address) == None
  {
    hide UserWalk, CopyShared;
    assert UserWalk(k.memory, owner.root.value, address)
        == if Canonical48(address) then Expected(owner.ledger, address) else None;
  }
}
