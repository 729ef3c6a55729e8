/**
 Construction and teardown over the kernel backend and the real allocator tables: rollback
 always completes, and the free table returns element for element.
 */
module KernelConstruction {
  import opened Words
  import opened PageTables
  import opened AddressSpace
  import opened Extents
  import opened KernelBackend
  import opened KernelTables
  import FA = FrameAllocation

  /** `k` is `k0` after its first frames went to `ledger` and `links` links were made. */
  ghost predicate Midway(k0: Kernel, k: Kernel, ledger: Ledger, links: nat) {
    && Canonical(k0.free) && Takes(k0.free, ledger)
    && k == k0.(free := FreeAfter(k0.free, |ledger|), memory := k.memory)
    && Tabled(k, ledger, links)
  }

  lemma {:induction false} MidwayFacts(k0: Kernel, k: Kernel, ledger: Ledger, links: nat)
    requires Midway(k0, k, ledger, links)
    ensures links <= |BUILD_LINKS| && (links > 0 ==> |ledger| == |ALL_ROLES|)
    ensures Canonical(k0.free) && Takes(k0.free, ledger) && InPlanOrder(ledger) && Tabled(k, ledger, links)
    ensures k == k0.(free := FreeAfter(k0.free, |ledger|), memory := k.memory)
  {
  }

  /** The same frames and free table over other memory. */
  lemma MidwayAgain(k0: Kernel, k: Kernel, k': Kernel, ledger: Ledger, n: nat, m: nat)
    requires Midway(k0, k, ledger, n) && k' == k.(memory := k'.memory) && Tabled(k', ledger, m)
    ensures Midway(k0, k', ledger, m)
  {
    hide Tabled, Takes, Canonical;
  }

  lemma {:induction false} StaysSound(k0: Kernel, k: Kernel, n: nat)
    requires Sound(k0) && k == k0.(free := FreeAfter(k0.free, n), memory := k.memory)
    ensures Sound(k)
  {
    hide Pages, Canonical, FreeAfter;
    FreeShrinks(k0.free, 0, n);
    StartsFree(k0.free);
    FreeBounded(k0.free, n);
  }

  /** Frames taken from a sound kernel's free table are owned in the sense of the table edits. */
  lemma TakenOwned(k0: Kernel, k: Kernel, ledger: Ledger)
    requires Sound(k0) && Takes(k0.free, ledger) && k.managed == k0.managed
    ensures Owned(k, ledger)
  {
    TakenFrames(k0.free, ledger);
    hide Pages, Canonical, FreeAfter;
  }

  // Rollback ---------------------------------------------------------------------------------------

  /** Giving the newest frame back undoes the last allocation, element for element. */
  lemma {:induction false} ReturnStep(k0: Kernel, k: Kernel, ledger: Ledger)
    requires Sound(k0) && Takes(k0.free, ledger) && ledger != []
    requires k == k0.(free := FreeAfter(k0.free, |ledger|), memory := k.memory)
    ensures Step(k, ReturnFrame(ledger[|ledger| - 1])) == (k.(free := FreeAfter(k0.free, |ledger| - 1)), Granted(0))
  {
    hide Canonical, Pages, FreeFrame, AllocateFirst;
    var n := |ledger| - 1;
    TakesFrame(k0.free, n);
    FreeShrinks(k0.free, 0, n);
    StartsFree(k0.free);
    FreeBounded(k0.free, n);
    AllocateThenFree(k0.managed, FreeAfter(k0.free, n));
  }

  lemma {:induction false} FreeBounded(free: seq<Extent>, n: nat)
    requires Canonical(free)
    ensures |FreeAfter(free, n)| <= |free|
  {
    if n > 0 {
      FreeBounded(free, n - 1);
      if FreeAfter(free, n - 1) != [] { TakesFrame(free, n - 1); }
    }
  }

  lemma {:induction false} ReturnCompletes(k0: Kernel, m: KernelMachine, ledger: Ledger)
    requires Sound(k0) && Takes(k0.free, ledger)
    requires m.state == k0.(free := FreeAfter(k0.free, |ledger|), memory := m.state.memory)
    ensures var (m', kept, error) := ReturnAll(Step, m, ledger);
            error.None? && kept == [] && m'.state == k0.(memory := m.state.memory)
    decreases |ledger|
  {
    hide Canonical, Pages, Step;
    StartsFree(k0.free);
    if ledger != [] {
      ReturnStep(k0, m.state, ledger);
      var m1 := Invoke(Step, m, ReturnFrame(ledger[|ledger| - 1])).0;
      ReturnCompletes(k0, m1, ledger[..|ledger| - 1]);
    }
  }

  /**
   Unwinding never fails over a sound kernel: tables are emptied, the check passes, every
   return is accepted, and the free table is again the one before, extent by extent.
   */
  lemma UnwindCompletes(k0: Kernel, m: KernelMachine, ledger: Ledger, links: nat)
    requires Sound(k0) && Midway(k0, m.state, ledger, links)
    ensures links <= |BUILD_LINKS| && (links > 0 ==> Complete(ledger))
    ensures var (m', kept, error) := Unwind(Step, m, ledger, links);
            && error.None? && kept == [] && m'.state == k0.(memory := m'.state.memory)
            && Zeroed(m'.state, ledger) && SameElsewhere(m.state, m'.state, ledger)
  {
    hide Complete, Canonical, Pages, Unwind, ReturnAll, Zeroed, SameElsewhere, Emptied, Tabled, Takes, Sound, Step,
      Midway;
    MidwayFacts(k0, m.state, ledger, links);
    StaysSound(k0, m.state, |ledger|);
    UnlinkCompletes(m, ledger, links);
    var m4 := Emptied(m, ledger, links);
    ReturnCompletes(k0, m4, ledger);
    var m5 := ReturnAll(Step, m4, ledger).0;
    SameMemory(m4.state, m5.state, ledger);
    SameChain(m.state, m4.state, m5.state, ledger);
  }

  // Building ---------------------------------------------------------------------------------------

  /** The text frame holds the generation's program, the stack frame is blank. */
  ghost predicate Loaded(k0: Kernel, k: Kernel, ledger: Ledger, generation: u64) {
    && (|ledger| > 5 ==> generation in k0.probes && Read(k.memory, ledger[5].start) == k0.probes[generation])
    && (|ledger| > 6 ==> Read(k.memory, ledger[6].start) == ZeroPage())
  }

  ghost function NextFrame(k0: Kernel, ledger: Ledger): OwnedFrame
    requires Canonical(k0.free) && |ledger| < |ALL_ROLES| && FreeAfter(k0.free, |ledger|) != []
  {
    OwnedFrame(ALL_ROLES[|ledger|], FrameAt(k0.free, |ledger|))
  }

  lemma {:induction false} AllocateStep(k0: Kernel, k: Kernel, ledger: Ledger)
    requires Sound(k0) && Midway(k0, k, ledger, 0) && |ledger| < |ALL_ROLES|
    ensures var (k', reply) := Step(k, AllocateFrame(ALL_ROLES[|ledger|]));
            if FreeAfter(k0.free, |ledger|) == [] then k' == k && reply == Refused(FrameAllocation)
            else
              && k' == k.(free := FreeAfter(k0.free, |ledger| + 1))
              && reply == Granted(FrameAt(k0.free, |ledger|))
              && RecordFrame(ledger, NextFrame(k0, ledger)) == (ledger + [NextFrame(k0, ledger)], Pass)
              && Takes(k0.free, ledger + [NextFrame(k0, ledger)])
  {
    hide Canonical, Pages, FreeAfter, FA.Tables, Linked, AllocateFirst, RecordFrame, Takes;
    EmptyRefuses();
    if FreeAfter(k0.free, |ledger|) != [] {
      TakesFrame(k0.free, |ledger|);
      RecordsNext(k0, ledger);
    }
  }

  lemma {:induction false} RecordsNext(k0: Kernel, ledger: Ledger)
    requires Canonical(k0.free) && Takes(k0.free, ledger)
    requires |ledger| < |ALL_ROLES| && FreeAfter(k0.free, |ledger|) != []
    ensures RecordFrame(ledger, NextFrame(k0, ledger)) == (ledger + [NextFrame(k0, ledger)], Pass)
    ensures Takes(k0.free, ledger + [NextFrame(k0, ledger)])
  {
    hide Canonical, Pages, FreeAfter;
    TakenFrames(k0.free, ledger + [NextFrame(k0, ledger)]);
  }

  lemma EmptyRefuses()
    ensures AllocateFirst([]) == Err(Exhausted)
  {
  }

  /** Preparing the newest frame fills it as its role asks; only an unknown program is refused. */
  lemma {:induction false} PrepareStep(k0: Kernel, k: Kernel, ledger: Ledger, generation: u64)
    requires Sound(k0) && ledger != [] && Takes(k0.free, ledger)
    requires var n := |ledger| - 1;
             && k == k0.(free := FreeAfter(k0.free, |ledger|), memory := k.memory)
             && Midway(k0, k.(free := FreeAfter(k0.free, n)), ledger[..n], 0)
             && Loaded(k0, k, ledger[..n], generation)
    ensures var n := |ledger| - 1;
            var (k', reply) := Step(k, PrepareFrame(generation, ledger[n].role, ledger[n].start));
            && Midway(k0, k', ledger, 0) && SameElsewhere(k, k', ledger)
            && (reply.Granted? <==> n != 5 || generation in k0.probes)
            && (reply.Granted? ==> Loaded(k0, k', ledger, generation))
  {
    hide Canonical, Pages, FreeAfter, FA.Tables, SameElsewhere;
    var n := |ledger| - 1;
    TakenFrames(k0.free, ledger);
    StaysSound(k0, k, |ledger|);
    TakenOwned(k0, k, ledger);
    WindowOpens(k, ledger);
    RolePlace(ledger[n].role);
    var (k', reply) := Step(k, PrepareFrame(generation, ledger[n].role, ledger[n].start));
    var page := Read(k'.memory, ledger[n].start);
    assert k' == Write(k, ledger[n].start, page);
    TakenOwned(k0, k, ledger);
    WriteTable(k, ledger, n, page);
    forall j | 0 <= j < |ledger| && IsTable(ledger[j].role)
      ensures Read(k'.memory, ledger[j].start) == Linked(k0.recovery, ledger, ledger[j].role, 0)
    {
      assert j < n ==> ledger[..n][j] == ledger[j];
    }
  }

  lemma {:induction false} AllocateRuns(k0: Kernel, m: KernelMachine, generation: u64, ledger: Ledger)
    requires Sound(k0) && Midway(k0, m.state, ledger, 0)
    requires SameElsewhere(k0, m.state, ledger) && Loaded(k0, m.state, ledger, generation)
    ensures var (m', ledger', failure) := AllocateAll(Step, m, generation, |ledger|, ledger);
            && Midway(k0, m'.state, ledger', 0) && SameElsewhere(k0, m'.state, ledger')
            && (failure.None? ==> |ledger'| == |ALL_ROLES| && Loaded(k0, m'.state, ledger', generation))
            && (failure.None? <==> FreeAfter(k0.free, 6) != [] && generation in k0.probes)
    decreases |ALL_ROLES| - |ledger|
  {
    hide Canonical, Pages, FreeAfter, FA.Tables, SameElsewhere, Step, Linked, Sound, RecordFrame;
    if |ledger| < |ALL_ROLES| {
      AllocateStep(k0, m.state, ledger);
      var role := ALL_ROLES[|ledger|];
      var m1 := Invoke(Step, m, AllocateFrame(role)).0;
      if FreeAfter(k0.free, |ledger|) == [] {
        FreeShrinks(k0.free, |ledger|, 6);
      } else {
        var frame := NextFrame(k0, ledger);
        var more := ledger + [frame];
        assert more[..|ledger|] == ledger;
        SameMemory(m.state, m1.state, ledger);
        SameChain(k0, m.state, m1.state, ledger);
        WiderLedger(k0, m1.state, ledger, frame);
        PrepareStep(k0, m1.state, more, generation);
        var (m2, prepared) := Invoke(Step, m1, PrepareFrame(generation, role, frame.start));
        SameChain(k0, m1.state, m2.state, more);
        if prepared.Granted? { AllocateRuns(k0, m2, generation, more); }
      }
    }
  }

  lemma WiderLedger(a: Kernel, b: Kernel, ledger: Ledger, frame: OwnedFrame)
    requires SameElsewhere(a, b, ledger)
    ensures SameElsewhere(a, b, ledger + [frame])
  {
    var more := ledger + [frame];
    forall f: u64 | !InLedger(more, f) ensures !InLedger(ledger, f) {
      assert forall j :: 0 <= j < |ledger| ==> more[j] == ledger[j];
    }
  }

  // Whole constructions ------------------------------------------------------------------------------

  /** What a failed attempt leaves: the allocator as it was, and nothing linked in any table it used. */
  ghost predicate Restored(k0: Kernel, k: Kernel, used: Ledger) {
    && k == k0.(memory := k.memory)
    && Zeroed(k, used) && SameElsewhere(k0, k, used)
    && forall j :: 0 <= j < |used| ==> used[j].start / PAGE_SIZE in Pages(k0.free)
  }

  /** What a finished attempt leaves: the first seven free frames, linked and loaded. */
  ghost predicate Finished(k0: Kernel, k: Kernel, owner: Owner, generation: u64) {
    && Published(owner) && owner.live && owner.state == Inactive && owner.generation == generation
    && Midway(k0, k, owner.ledger, |BUILD_LINKS|)
    && Loaded(k0, k, owner.ledger, generation) && SameElsewhere(k0, k, owner.ledger)
  }

  lemma NothingYet(k0: Kernel, generation: u64)
    requires Sound(k0)
    ensures Midway(k0, k0, [], 0) && SameElsewhere(k0, k0, []) && Loaded(k0, k0, [], generation)
  {
    hide Pages, Canonical;
    StartsFree(k0.free);
  }

  lemma UsedNothing(k0: Kernel)
    ensures Restored(k0, k0, [])
  {
  }

  lemma UsedFree(k0: Kernel, ledger: Ledger)
    requires Canonical(k0.free) && Takes(k0.free, ledger)
    ensures forall j :: 0 <= j < |ledger| ==> ledger[j].start / PAGE_SIZE in Pages(k0.free)
  {
    hide Pages, Canonical, Takes;
    TakenFrames(k0.free, ledger);
  }

  lemma Enough(k0: Kernel)
    requires Canonical(k0.free)
    ensures FreeAfter(k0.free, 6) != [] <==> |Pages(k0.free)| >= |ALL_ROLES|
  {
    hide Pages, Canonical, FreeAfter;
    FreeCount(k0.free, 6);
  }

  lemma StillLoaded(k0: Kernel, k: Kernel, k': Kernel, ledger: Ledger, generation: u64)
    requires InPlanOrder(ledger) && Loaded(k0, k, ledger, generation) && SameData(k, k', ledger)
    ensures Loaded(k0, k', ledger, generation)
  {
  }

  /**
   One construction over a sound kernel: it succeeds exactly when the generation is nonzero and
   known and seven pages are free; otherwise rollback completes, retains nothing, and leaves the
   free table as it was, entry for entry.
   */
  lemma BuildOutcome(k0: Kernel, m: KernelMachine, generation: u64)
    requires Sound(k0) && m.state == k0
    ensures var (m', r) := Construct(Step, m, generation);
            && (r.Built? <==> generation != 0 && generation in k0.probes && |Pages(k0.free)| >= |ALL_ROLES|)
            && Later(m, m')
            && match r {
                 case Built(owner) => Finished(k0, m'.state, owner, generation)
                 case BuildFailed(_, rollbackError, retained) =>
                   rollbackError.None? && retained == [] && Restored(k0, m'.state, Got(m, m'))
               }
  {
    hide Pages, Canonical, Step, FA.Tables, FreeAfter, Obtained, TakenBack, Linked, AllocateAll, InstallAll, Unwind,
      FrameFor, SameElsewhere, Zeroed, Sound;
    NothingYet(k0, generation);
    ConstructConserves(Step, m, generation);
    BuiltIsPublished(Step, m, generation);
    if generation == 0 {
      UsedNothing(k0);
    } else {
      AllocateRuns(k0, m, generation, []);
      AllocateConserves(Step, m, generation, 0, []);
      var (m1, ledger, failure) := AllocateAll(Step, m, generation, 0, []);
      assert ledger[0..] == ledger;
      Enough(k0);
      if failure.Some? {
        UnwindCompletes(k0, m1, ledger, 0);
        UnwindConserves(Step, m1, ledger, 0);
        var m' := Unwind(Step, m1, ledger, 0).0;
        UsedFree(k0, ledger);
        SameChain(k0, m1.state, m'.state, ledger);
      } else {
        MidwayFacts(k0, m1.state, ledger, 0);
        StaysSound(k0, m1.state, |ledger|);
        InstallCompletes(m1, ledger, 0);
        var m2 := InstallAll(Step, m1, ledger, 0).0;
        MidwayAgain(k0, m1.state, m2.state, ledger, 0, |BUILD_LINKS|);
        SameChain(k0, m1.state, m2.state, ledger);
        StillLoaded(k0, m1.state, m2.state, ledger, generation);
      }
    }
  }

  // Pairs ------------------------------------------------------------------------------------------

  lemma {:induction false} TakenNotFree(free: seq<Extent>, ledger: Ledger)
    requires Canonical(free) && Takes(free, ledger)
    ensures forall j :: 0 <= j < |ledger| ==> ledger[j].start / PAGE_SIZE !in Pages(FreeAfter(free, |ledger|))
  {
    hide Pages, Canonical, FreeAfter;
    forall j | 0 <= j < |ledger| ensures ledger[j].start / PAGE_SIZE !in Pages(FreeAfter(free, |ledger|)) {
      TakesFrame(free, j);
      FreeShrinks(free, j + 1, |ledger|);
    }
  }

  /** Tearing a finished owner down over a sound kernel always completes. */
  lemma TeardownOutcome(k0: Kernel, m: KernelMachine, owner: Owner)
    requires Sound(k0) && Published(owner) && owner.live && owner.state == Inactive
    requires Midway(k0, m.state, owner.ledger, |BUILD_LINKS|)
    ensures var (m', torn) := Teardown(Step, m, owner);
            && torn == TornDown(Owner(owner.generation, false, Dead, None, []))
            && m'.state == k0.(memory := m'.state.memory)
            && Zeroed(m'.state, owner.ledger) && SameElsewhere(m.state, m'.state, owner.ledger)
  {
    hide Pages, Canonical, FreeAfter, Unwind, Midway, Sound, FrameFor, Step, Zeroed, SameElsewhere;
    UnwindCompletes(k0, m, owner.ledger, |BUILD_LINKS|);
    FullIsComplete(owner.ledger);
  }

  /** Work confined to frames free in `k1` leaves an owner finished in `k1` as it was. */
  lemma OwnerUntouched(k0: Kernel, k1: Kernel, k2: Kernel, ledger: Ledger, used: Ledger, generation: u64)
    requires Midway(k0, k1, ledger, |BUILD_LINKS|) && Loaded(k0, k1, ledger, generation)
    requires k2 == k1.(free := k2.free, memory := k2.memory) && SameElsewhere(k1, k2, used)
    requires forall j :: 0 <= j < |used| ==> used[j].start / PAGE_SIZE in Pages(k1.free)
    ensures Midway(k0, k2.(free := k1.free), ledger, |BUILD_LINKS|)
    ensures Loaded(k0, k2.(free := k1.free), ledger, generation)
    ensures forall j :: 0 <= j < |used| ==> !InLedger(ledger, used[j].start)
  {
    hide Pages, Canonical, FreeAfter, Takes, Linked;
    TakenNotFree(k0.free, ledger);
    forall j | 0 <= j < |ledger| ensures Read(k2.memory, ledger[j].start) == Read(k1.memory, ledger[j].start) {
      assert !InLedger(used, ledger[j].start);
    }
  }

  lemma JoinRestored(k0: Kernel, k2: Kernel, k3: Kernel, l1: Ledger, l2: Ledger)
    requires Zeroed(k2, l2) && SameElsewhere(k0, k2, l1 + l2)
    requires Zeroed(k3, l1) && SameElsewhere(k2, k3, l1)
    requires forall j :: 0 <= j < |l2| ==> !InLedger(l1, l2[j].start)
    ensures Zeroed(k3, l1 + l2) && SameElsewhere(k0, k3, l1 + l2)
  {
    var all := l1 + l2;
    forall f: u64 | !InLedger(all, f) ensures !InLedger(l1, f) {
      assert forall j :: 0 <= j < |l1| ==> all[j] == l1[j];
    }
  }

  lemma JoinSame(k0: Kernel, k1: Kernel, k2: Kernel, l1: Ledger, l2: Ledger)
    requires SameElsewhere(k0, k1, l1) && SameElsewhere(k1, k2, l2)
    ensures SameElsewhere(k0, k2, l1 + l2)
  {
    var all := l1 + l2;
    forall f: u64 | !InLedger(all, f) ensures !InLedger(l1, f) && !InLedger(l2, f) {
      assert forall j :: 0 <= j < |l1| ==> all[j] == l1[j];
      assert forall j :: 0 <= j < |l2| ==> all[|l1| + j] == l2[j];
    }
  }

  /** The second attempt failed and the first owner is torn down after it. */
  lemma PairUndone(
    k0: Kernel, m: KernelMachine, m1: KernelMachine, m2: KernelMachine, first: Owner, generation: u64)
    requires Sound(k0) && Finished(k0, m1.state, first, generation)
    requires Later(m, m1) && Got(m, m1) == first.ledger && Later(m1, m2)
    requires Restored(m1.state, m2.state, Got(m1, m2))
    ensures var (m', torn) := Teardown(Step, m2, first);
            torn.TornDown? && Later(m, m') && Restored(k0, m'.state, Got(m, m'))
  {
    hide Pages, Canonical, Step, FA.Tables, FreeAfter, Obtained, TakenBack, Linked, Teardown,
      FrameFor, SameElsewhere, Zeroed, Sound, Loaded, Takes;
    var used := Got(m1, m2);
    OwnerUntouched(k0, m1.state, m2.state, first.ledger, used, generation);
    TeardownOutcome(k0, m2, first);
    TeardownConserves(Step, m2, first);
    var m3 := Teardown(Step, m2, first).0;
    PairSplit(m, m1, m2, m3);
    assert Got(m, m3) == first.ledger + used;
    JoinSame(k0, m1.state, m2.state, first.ledger, used);
    JoinRestored(k0, m2.state, m3.state, first.ledger, used);
    UsedFree(k0, first.ledger);
    FreeShrinks(k0.free, 0, |ALL_ROLES|);
    StartsFree(k0.free);
  }

  lemma SameLoad(k: Kernel, k': Kernel, now: Kernel, ledger: Ledger, generation: u64)
    requires k'.probes == k.probes
    ensures Loaded(k', now, ledger, generation) <==> Loaded(k, now, ledger, generation)
  {
  }

  /**
   A pair over a sound kernel: both or neither. It succeeds exactly when both generations are
   nonzero and known and fourteen pages are free; any failure leaves the free table as it was.
   */
  lemma PairOutcome(k0: Kernel, m: KernelMachine, g1: u64, g2: u64)
    requires Sound(k0) && m.state == k0
    ensures var (m', r) := ConstructPair(Step, m, g1, g2);
            && Later(m, m')
            && (r.BuiltPair? <==> && g1 != 0 && g2 != 0 && g1 in k0.probes && g2 in k0.probes
                                  && |Pages(k0.free)| >= 2 * |ALL_ROLES|)
            && match r {
                 case BuiltPair(first, second) =>
                   var k1 := m'.state.(free := FreeAfter(k0.free, |ALL_ROLES|));
                   && Midway(k0, k1, first.ledger, |BUILD_LINKS|) && Loaded(k0, k1, first.ledger, g1)
                   && Midway(k1, m'.state, second.ledger, |BUILD_LINKS|) && Loaded(k1, m'.state, second.ledger, g2)
                 case FirstFailed(failure) =>
                   && failure.BuildFailed? && failure.rollbackError.None? && failure.retained == []
                   && Restored(k0, m'.state, Got(m, m'))
                 case SecondFailed(failure, torn) =>
                   && failure.BuildFailed? && failure.rollbackError.None? && failure.retained == [] && torn.TornDown?
                   && Restored(k0, m'.state, Got(m, m'))
               }
  {
    hide Pages, Canonical, Step, FA.Tables, FreeAfter, Obtained, TakenBack, Linked, Construct, Teardown,
      FrameFor, SameElsewhere, Zeroed, Sound, Loaded;
    BuildOutcome(k0, m, g1);
    var (m1, first) := Construct(Step, m, g1);
    if first.Built? {
      var k1 := m1.state;
      StaysSound(k0, k1, |ALL_ROLES|);
      BuildOutcome(k1, m1, g2);
      FreeCount(k0.free, |ALL_ROLES|);
      ConstructConserves(Step, m, g1);
      ConstructConserves(Step, m1, g2);
      var (m2, second) := Construct(Step, m1, g2);
      if second.Built? {
        UsedFree(k1, second.owner.ledger);
        OwnerUntouched(k0, k1, m2.state, first.owner.ledger, second.owner.ledger, g1);
        PairSplit(m, m1, m2, m2);
        SameLoad(k1, m2.state.(free := k1.free), m2.state, second.owner.ledger, g2);
      } else {
        PairUndone(k0, m, m1, m2, first.owner, g1);
      }
    }
  }

  /** A finished pair is two live, inactive owners with the whole plan each. */
  lemma PairPublished(m: KernelMachine, g1: u64, g2: u64)
    ensures var r := ConstructPair(Step, m, g1, g2).1;
            r.BuiltPair? ==> && Published(r.first) && Published(r.second)
                             && r.first.generation == g1 && r.second.generation == g2
                             && r.first.live && r.first.state == Inactive && r.second.live && r.second.state == Inactive
  {
    hide Construct, Step, Teardown;
    BuiltIsPublished(Step, m, g1);
    BuiltIsPublished(Step, Construct(Step, m, g1).0, g2);
  }
}
