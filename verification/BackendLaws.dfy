/**
 Each call of the kernel's backend, word by word: what it writes, what it refuses, and
 that it writes nothing else. Then what memory holds once an address space is built.
 */
module BackendLaws {
  import opened Words
  import opened PageTables
  import opened AddressSpace
  import opened Extents
  import opened KernelBackend
  import opened KernelConstruction
  import opened UserMappings
  import opened AddressSpaceLaws

  /** Nothing but the words of `frame` changed. */
  ghost predicate OnlyFrame(k: Kernel, k': Kernel, frame: u64) {
    && k' == k.(memory := k'.memory)
    && forall other: u64 :: other != frame ==> Read(k'.memory, other) == Read(k.memory, other)
  }

  /** Nothing but word `i` of `frame` changed. */
  ghost predicate OnlyWord(k: Kernel, k': Kernel, frame: u64, i: nat) {
    && OnlyFrame(k, k', frame)
    && forall n :: 0 <= n < 512 && n != i ==> Read(k'.memory, frame)[n] == Read(k.memory, frame)[n]
  }

  /** Why a frame cannot be opened: misaligned first, then a window that is missing or in use. */
  function Closed(k: Kernel, frame: u64): Option<IsolationError> {
    if frame % 4096 != 0 then Some(InvalidMapping)
    else if k.ready && k.window == 0 then None
    else Some(TemporaryWindowBusy)
  }

  predicate Shared(i: int) {
    i == 0 || i == 510 || i == 511
  }

  /** A root starts with the three shared words, a text page with its program, everything else with zeros. */
  lemma PrepareExactly(k: Kernel, generation: u64, role: FrameRole, frame: u64)
    ensures var (k', reply) := Step(k, PrepareFrame(generation, role, frame));
            match Closed(k, frame)
            case Some(e) => k' == k && reply == Refused(e)
            case None =>
              && OnlyFrame(k, k', frame)
              && (reply == Refused(InvalidMapping) <==> role == Text && generation !in k.probes)
              && (reply.Refused? ==> reply == Refused(InvalidMapping))
              && forall i :: 0 <= i < 512 ==>
                   Read(k'.memory, frame)[i] ==
                   if role == Root && Shared(i) then k.recovery[i]
                   else if role == Text && generation in k.probes then k.probes[generation][i]
                   else 0
  {
  }

  /** A link goes only into an empty word, and is that word: the child with its flags. */
  lemma InstallExactly(k: Kernel, link: LinkSpec, parent: u64, child: u64)
    ensures var (k', reply) := Step(k, InstallLink(link, parent, child));
            match Closed(k, parent)
            case Some(e) => k' == k && reply == Refused(e)
            case None =>
              if Read(k.memory, parent)[link.index] != 0 then k' == k && reply == Refused(DuplicateMapping)
              else
                && reply.Granted? && OnlyWord(k, k', parent, link.index)
                && Read(k'.memory, parent)[link.index] == Entry(child, link.flags)
  {
    hide Entry;
  }

  /** A link is taken out only where it is, present and to that child. */
  lemma RemoveExactly(k: Kernel, link: LinkSpec, parent: u64, child: u64)
    ensures var (k', reply) := Step(k, RemoveLink(link, parent, child));
            var word := Read(k.memory, parent)[link.index];
            match Closed(k, parent)
            case Some(e) => k' == k && reply == Refused(e)
            case None =>
              if word % 2 == 0 || word / 4096 % 0x100_0000_0000 * 4096 != child then
                k' == k && reply == Refused(MissingMapping)
              else reply.Granted? && OnlyWord(k, k', parent, link.index) && Read(k'.memory, parent)[link.index] == 0
  {
  }

  lemma ClearSharedExactly(k: Kernel, root: u64)
    ensures var (k', reply) := Step(k, ClearSharedEntries(root));
            match Closed(k, root)
            case Some(e) => k' == k && reply == Refused(e)
            case None =>
              && reply.Granted? && OnlyFrame(k, k', root)
              && forall i :: 0 <= i < 512
                   ==> Read(k'.memory, root)[i] == if Shared(i) then 0 else Read(k.memory, root)[i]
  {
  }

  /** A window still open is closed and reported. */
  lemma WindowExactly(k: Kernel)
    ensures Step(k, ClearTemporaryWindow)
         == (k.(window := 0), if k.window == 0 then Granted(0) else Refused(TemporaryWindowLeaked))
  {
  }

  // The reachability check -------------------------------------------------------------------------

  /** The owned frames that are tables. */
  predicate HoldsTable(frame: OwnedFrame) {
    frame.role in {Root, UserPml3, UserPml2, TextPml1, StackPml1}
  }

  ghost predicate EmptyTable(k: Kernel, frame: OwnedFrame) {
    forall i :: 0 <= i < 512 ==> Read(k.memory, frame.start)[i] == 0
  }

  /** A present word of the bootstrap pool points at one of the frames. */
  ghost predicate PoolReaches(k: Kernel, frames: Ledger) {
    exists t, i, j :: 0 <= t < |k.pool| && 0 <= i < 512 && 0 <= j < |frames| && k.pool[t][i] % 2 == 1
                      && k.pool[t][i] / 4096 % 0x100_0000_0000 * 4096 == frames[j].start
  }

  lemma ZeroIsEmpty(page: Page)
    ensures page == ZeroPage() <==> forall i :: 0 <= i < 512 ==> page[i] == 0
  {
  }

  lemma {:induction false} TablesChecked(k: Kernel, frames: Ledger)
    ensures CheckTables(k, frames).Pass? <==>
            forall j :: 0 <= j < |frames| && HoldsTable(frames[j]) ==>
              Closed(k, frames[j].start).None? && EmptyTable(k, frames[j])
    decreases |frames|
  {
    if frames != [] {
      TablesChecked(k, frames[1..]);
      ZeroIsEmpty(Read(k.memory, frames[0].start));
      assert IsTable(frames[0].role) <==> HoldsTable(frames[0]);
      assert forall j :: 0 <= j < |frames| - 1 ==> frames[1..][j] == frames[j + 1];
      if forall j :: 0 <= j < |frames[1..]| && HoldsTable(frames[1..][j]) ==>
           Closed(k, frames[1..][j].start).None? && EmptyTable(k, frames[1..][j]) {
        forall j | 0 < j < |frames| && HoldsTable(frames[j])
          ensures Closed(k, frames[j].start).None? && EmptyTable(k, frames[j])
        {
          assert frames[1..][j - 1] == frames[j];
        }
      } else {
        var j :| 0 <= j < |frames[1..]| && HoldsTable(frames[1..][j])
                 && !(Closed(k, frames[1..][j].start).None? && EmptyTable(k, frames[1..][j]));
        assert frames[j + 1] == frames[1..][j];
      }
    }
  }

  lemma PoolExactly(k: Kernel, frames: Ledger)
    ensures PoolNames(k.pool, frames) <==> PoolReaches(k, frames)
  {
    hide Present, Address;
    WordParts();
    if PoolNames(k.pool, frames) {
      var t, i :| 0 <= t < |k.pool| && 0 <= i < 512 && Names(k.pool[t][i], frames);
      var j :| 0 <= j < |frames| && frames[j].start == Address(k.pool[t][i]);
      assert k.pool[t][i] % 2 == 1 && k.pool[t][i] / 4096 % 0x100_0000_0000 * 4096 == frames[j].start;
    }
    if PoolReaches(k, frames) {
      var t, i, j :| 0 <= t < |k.pool| && 0 <= i < 512 && 0 <= j < |frames| && k.pool[t][i] % 2 == 1
                     && k.pool[t][i] / 4096 % 0x100_0000_0000 * 4096 == frames[j].start;
      assert Names(k.pool[t][i], frames);
    }
  }

  lemma WordParts()
    ensures forall word: u64 :: Present(word) <==> word % 2 == 1
    ensures forall word: u64 :: Address(word) == word / 4096 % 0x100_0000_0000 * 4096
  {
  }

  /**
   Frames pass exactly when the recovery root is active, the window is shut, every owned table is readable and empty,
   and no present word of the bootstrap pool points at any of them.
   */
  lemma VerifyExactly(k: Kernel, frames: Ledger)
    ensures var (k', reply) := Step(k, VerifyUnreachable(frames));
            && k' == k
            && (reply.Granted? <==>
                  && k.activeRoot == k.recoveryRoot && k.window == 0 && !PoolReaches(k, frames)
                  && forall j :: 0 <= j < |frames| && HoldsTable(frames[j]) ==>
                       Closed(k, frames[j].start).None? && EmptyTable(k, frames[j]))
  {
    hide CheckTables, PoolNames, PoolReaches, EmptyTable, Closed;
    TablesChecked(k, frames);
    PoolExactly(k, frames);
  }

  // Frames -----------------------------------------------------------------------------------------

  lemma AllocateExactly(k: Kernel, role: FrameRole)
    requires Canonical(k.free)
    ensures var (k', reply) := Step(k, AllocateFrame(role));
            && k' == k.(free := k'.free)
            && (reply.Refused? <==> Pages(k.free) == {})
            && (reply.Refused? ==> k' == k && reply == Refused(FrameAllocation))
            && (reply.Granted? ==>
                  && reply.value % 4096 == 0 && reply.value / 4096 in Pages(k.free)
                  && (forall page :: page in Pages(k.free) ==> reply.value / 4096 <= page)
                  && Canonical(k'.free) && Pages(k'.free) == Pages(k.free) - {reply.value / 4096})
  {
    AllocateTakesLeast(k.free);
    hide Pages;
  }

  // A built address space --------------------------------------------------------------------------

  /** A table word: where it points, and its flags as bits 1, 2, 4 and 2^63. */
  function Points(start: u64, flags: int): int {
    start + flags
  }

  /** Every word of the seven frames of an address space of `generation`. */
  ghost predicate Furnished(k: Kernel, f: seq<u64>, recovery: Page, program: Page)
    requires |f| == 7
  {
    forall i :: 0 <= i < 512 ==>
      && Read(k.memory, f[0])[i] == (if Shared(i) then recovery[i] else if i == 1 then Points(f[1], 7) else 0)
      && Read(k.memory, f[1])[i] == (if i == 0 then Points(f[2], 7) else 0)
      && Read(k.memory, f[2])[i] == (if i == 2 then Points(f[3], 7) else if i == 4 then Points(f[4], 7) else 0)
      && Read(k.memory, f[3])[i] == (if i == 0 then Points(f[5], 5) else 0)
      && Read(k.memory, f[4])[i] == (if i == 0 then Points(f[6], 0x8000_0000_0000_0007) else 0)
      && Read(k.memory, f[5])[i] == program[i]
      && Read(k.memory, f[6])[i] == 0
  }

  /** The four kinds of entry as sums. */
  lemma WordsOf(start: u64)
    requires start % 4096 == 0 && start < ADDRESS_LIMIT
    ensures Entry(start, Flags(true, true, false)) == Points(start, 7)
    ensures Entry(start, Flags(false, true, false)) == Points(start, 5)
    ensures Entry(start, Flags(true, true, true)) == Points(start, 0x8000_0000_0000_0007)
  {
    EntryIsSum(start, Flags(true, true, false));
    EntryIsSum(start, Flags(false, true, false));
    EntryIsSum(start, Flags(true, true, true));
    hide Entry;
  }

  lemma {:induction false} TablesFurnish(k: Kernel, ledger: Ledger, recovery: Page)
    requires InPlanOrder(ledger) && |ledger| == 7 && k.recovery == recovery
    requires forall j :: 0 <= j < 7 ==> ledger[j].start % 4096 == 0 && ledger[j].start < ADDRESS_LIMIT
    requires forall j :: 0 <= j < 5 ==> Read(k.memory, ledger[j].start) == Linked(recovery, ledger, ledger[j].role, 6)
    requires Read(k.memory, ledger[6].start) == ZeroPage()
    ensures Furnished(k, Starts(ledger), recovery, Read(k.memory, ledger[5].start))
  {
    hide Linked, Entry;
    FinalTables(recovery, ledger);
    forall j | 0 <= j < 7
      ensures Entry(ledger[j].start, Flags(true, true, false)) == Points(ledger[j].start, 7)
      ensures Entry(ledger[j].start, Flags(false, true, false)) == Points(ledger[j].start, 5)
      ensures Entry(ledger[j].start, Flags(true, true, true)) == Points(ledger[j].start, 0x8000_0000_0000_0007)
    {
      WordsOf(ledger[j].start);
    }
    assert ledger[0].role == Root && ledger[1].role == UserPml3 && ledger[2].role == UserPml2;
    assert ledger[3].role == TextPml1 && ledger[4].role == StackPml1;
  }

  lemma FinishedIsFurnished(k0: Kernel, k: Kernel, owner: Owner, generation: u64)
    requires KernelBackend.Sound(k0) && Finished(k0, k, owner, generation)
    ensures |owner.ledger| == 7 && generation in k0.probes
    ensures Furnished(k, Starts(owner.ledger), k0.recovery, k0.probes[generation])
    ensures forall frame: u64 :: frame !in Starts(owner.ledger) ==> Read(k.memory, frame) == Read(k0.memory, frame)
  {
    hide Linked, Pages, Canonical, KernelBackend.Sound, Furnished, FreeAfter, Starts;
    var ledger := owner.ledger;
    MidwayFacts(k0, k, ledger, 6);
    OwnedInReach(k0, k, ledger);
    forall j | 0 <= j < 5 ensures Read(k.memory, ledger[j].start) == Linked(k0.recovery, ledger, ledger[j].role, 6) {
      assert IsTable(ledger[j].role);
    }
    TablesFurnish(k, ledger, k0.recovery);
    forall frame: u64 | frame !in Starts(ledger) ensures Read(k.memory, frame) == Read(k0.memory, frame) {
      StartOfLedger(ledger, frame);
    }
  }

  lemma StartOfLedger(ledger: Ledger, frame: u64)
    ensures InLedger(ledger, frame) ==> frame in Starts(ledger)
  {
    if InLedger(ledger, frame) {
      var j :| 0 <= j < |ledger| && ledger[j].start == frame;
      assert Starts(ledger)[j] == frame;
    }
  }

  /** Every word of a freshly built address space: shared slots, five links, the program, and zeros. */
  lemma BuiltIsFurnished(k0: Kernel, m: KernelMachine, generation: u64)
    requires KernelBackend.Sound(k0) && m.state == k0
    ensures var (m', r) := Construct(Step, m, generation);
            r.Built? ==>
              && |r.owner.ledger| == 7 && generation in k0.probes
              && Furnished(m'.state, Starts(r.owner.ledger), k0.recovery, k0.probes[generation])
              && (forall frame: u64 :: frame !in Starts(r.owner.ledger) ==>
                    Read(m'.state.memory, frame) == Read(k0.memory, frame))
  {
    hide Construct, Step, Finished, Furnished, KernelBackend.Sound, Pages, Starts;
    BuildOutcome(k0, m, generation);
    var (m', r) := Construct(Step, m, generation);
    if r.Built? { FinishedIsFurnished(k0, m'.state, r.owner, generation); }
  }

  lemma OwnedInReach(k0: Kernel, k: Kernel, ledger: Ledger)
    requires KernelBackend.Sound(k0) && Midway(k0, k, ledger, 6) && |ledger| == 7
    ensures forall j :: 0 <= j < 7 ==> ledger[j].start % 4096 == 0 && ledger[j].start < ADDRESS_LIMIT
  {
    hide Linked, FreeAfter, Pages, Canonical;
    StaysSound(k0, k, 7);
    TakenOwned(k0, k, ledger);
  }
}
