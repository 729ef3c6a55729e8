/**
 Two owners' frames taken from one free table and given back. Newest owner first always works;
 oldest owner first works exactly when the table is not in one tight shape, in which a return is
 refused because the table is full. When both are back it is the table before, entry for entry.
 */
module TaskFrames {
  import opened Words
  import opened Sets
  import opened PageTables
  import opened AddressSpace
  import opened Extents
  import opened KernelBackend
  import opened KernelTables
  import opened KernelConstruction
  import FA = FrameAllocation

  ghost function PagesOf(ledger: Ledger): set<int> {
    set j | 0 <= j < |ledger| :: ledger[j].start / PAGE_SIZE
  }

  // Runs of a set -------------------------------------------------------------------------------------

  lemma IsolatedAdds(pages: set<int>, page: int)
    requires page !in pages && page - 1 !in pages && page + 1 !in pages
    ensures |RunStarts(pages + {page})| == |RunStarts(pages)| + 1
  {
    assert RunStarts(pages + {page}) == RunStarts(pages) + {page};
  }

  /** One return is accepted exactly when the set it leads to has no more runs than the table has entries. */
  lemma ReturnOne(k: Kernel, owned: OwnedFrame)
    requires FA.Tables(k.managed, k.free) && owned.start % PAGE_SIZE == 0
    requires owned.start / PAGE_SIZE in Pages(k.managed) && owned.start / PAGE_SIZE !in Pages(k.free)
    ensures var (k', reply) := Step(k, ReturnFrame(owned));
            && (reply.Granted? <==> |RunStarts(Pages(k.free) + {owned.start / PAGE_SIZE})| <= MAX_EXTENTS)
            && (reply.Granted? ==>
                  && k' == k.(free := k'.free) && FA.Tables(k.managed, k'.free)
                  && Pages(k'.free) == Pages(k.free) + {owned.start / PAGE_SIZE})
  {
    hide Canonical, FreeFrame, RunStarts;
    var page := owned.start / PAGE_SIZE;
    CoveredInRange(k.managed, page);
    FreeRefinesSet(k.managed, k.free, owned.start);
    if page - 1 !in Pages(k.free) && page + 1 !in Pages(k.free) { IsolatedAdds(Pages(k.free), page); }
    var r := FreeFrame(k.managed, k.free, owned.start);
    if r.Ok? { RunsAreExtents(r.value); }
  }

  /** Each stage of giving a ledger back fits the table. */
  ghost predicate Fits(pages: set<int>, ledger: Ledger) {
    forall n :: 0 <= n < |ledger| ==> |RunStarts(pages + PagesOf(ledger[n..]))| <= MAX_EXTENTS
  }

  /** Returning a whole ledger, newest first, succeeds exactly when every stage fits. */
  lemma {:induction false} ReturnsExactly(m: KernelMachine, ledger: Ledger)
    requires FA.Tables(m.state.managed, m.state.free) && Owned(m.state, ledger)
    requires PagesOf(ledger) !! Pages(m.state.free)
    ensures var (m', kept, error) := ReturnAll(Step, m, ledger);
            && (error.None? <==> Fits(Pages(m.state.free), ledger))
            && (error.None? ==>
                  && kept == [] && m'.state == m.state.(free := m'.state.free)
                  && FA.Tables(m'.state.managed, m'.state.free)
                  && Pages(m'.state.free) == Pages(m.state.free) + PagesOf(ledger))
    decreases |ledger|
  {
    hide Canonical, Step, RunStarts, FA.Tables, Pages, Fits;
    var k := m.state;
    if ledger == [] {
      assert PagesOf(ledger) == {};
      FitsEmpty(Pages(k.free));
    } else {
      var n := |ledger| - 1;
      LastPage(ledger, n);
      ReturnOne(k, ledger[n]);
      var (m1, reply) := Invoke(Step, m, ReturnFrame(ledger[n]));
      FitsLast(Pages(k.free), ledger);
      if reply.Granted? {
        FrontOwned(k, m1.state, ledger);
        ReturnsExactly(m1, ledger[..n]);
      }
    }
  }

  lemma FitsEmpty(pages: set<int>)
    ensures Fits(pages, [])
  {
  }

  lemma FitsLast(pages: set<int>, ledger: Ledger)
    requires ledger != []
    ensures var n := |ledger| - 1;
            var page := ledger[n].start / PAGE_SIZE;
            Fits(pages, ledger) <==> |RunStarts(pages + {page})| <= MAX_EXTENTS && Fits(pages + {page}, ledger[..n])
  {
    hide RunStarts, PagesOf;
    var n := |ledger| - 1;
    var page := ledger[n].start / PAGE_SIZE;
    var front := ledger[..n];
    SingleSuffix(ledger);
    forall i | 0 <= i < n ensures pages + {page} + PagesOf(front[i..]) == pages + PagesOf(ledger[i..]) {
      SuffixPages(ledger, i);
    }
    if Fits(pages, ledger) {
      assert |RunStarts(pages + PagesOf(ledger[n..]))| <= MAX_EXTENTS;
      forall i | 0 <= i < n ensures |RunStarts(pages + {page} + PagesOf(front[i..]))| <= MAX_EXTENTS {
        assert |RunStarts(pages + PagesOf(ledger[i..]))| <= MAX_EXTENTS;
      }
    }
  }

  lemma SingleSuffix(ledger: Ledger)
    requires ledger != []
    ensures PagesOf(ledger[|ledger| - 1..]) == {ledger[|ledger| - 1].start / PAGE_SIZE}
  {
    assert ledger[|ledger| - 1..] == [ledger[|ledger| - 1]];
  }

  /** The newest page is no other page of the ledger. */
  lemma LastPage(ledger: Ledger, n: nat)
    requires |ledger| == n + 1
    requires forall j :: 0 <= j < |ledger| ==> ledger[j].start % PAGE_SIZE == 0
    requires forall i, j :: 0 <= i < j < |ledger| ==> ledger[i].start != ledger[j].start
    ensures PagesOf(ledger[n..]) == {ledger[n].start / PAGE_SIZE}
    ensures PagesOf(ledger) == PagesOf(ledger[..n]) + {ledger[n].start / PAGE_SIZE}
    ensures ledger[n].start / PAGE_SIZE in PagesOf(ledger) && ledger[n].start / PAGE_SIZE !in PagesOf(ledger[..n])
  {
    assert ledger[n..] == [ledger[n]];
    SuffixPages(ledger, 0);
    assert ledger[..n][0..] == ledger[..n] && ledger[0..] == ledger;
  }

  lemma SuffixPages(ledger: Ledger, i: nat)
    requires i < |ledger|
    ensures PagesOf(ledger[i..]) == PagesOf(ledger[..|ledger| - 1][i..]) + {ledger[|ledger| - 1].start / PAGE_SIZE}
  {
    var n := |ledger| - 1;
    var all, front := ledger[i..], ledger[..n][i..];
    assert all == front + [ledger[n]];
    forall p ensures p in PagesOf(all) <==> p in PagesOf(front) + {ledger[n].start / PAGE_SIZE} {
      if p in PagesOf(front) {
        var j :| 0 <= j < |front| && front[j].start / PAGE_SIZE == p;
        assert all[j] == front[j];
      }
      assert all[|front|] == ledger[n];
      if p in PagesOf(all) && p != ledger[n].start / PAGE_SIZE {
        var j :| 0 <= j < |all| && all[j].start / PAGE_SIZE == p;
        assert all[j] == front[j];
      }
    }
  }

  lemma FrontOwned(k: Kernel, k1: Kernel, ledger: Ledger)
    requires Owned(k, ledger) && ledger != [] && k1.managed == k.managed
    ensures Owned(k1, ledger[..|ledger| - 1])
  {
    hide Pages;
  }

  /** Tearing an owner down succeeds exactly when its returns fit, whoever else holds frames. */
  lemma TeardownExactly(m: KernelMachine, owner: Owner)
    requires Sound(m.state) && Published(owner) && owner.live && owner.state == Inactive
    requires Tabled(m.state, owner.ledger, |BUILD_LINKS|) && PagesOf(owner.ledger) !! Pages(m.state.free)
    ensures var (m', torn) := Teardown(Step, m, owner);
            && (torn.TornDown? <==> Fits(Pages(m.state.free), owner.ledger))
            && (torn.TornDown? ==>
                  && torn == TornDown(Owner(owner.generation, false, Dead, None, []))
                  && m'.state == m.state.(free := m'.state.free, memory := m'.state.memory)
                  && FA.Tables(m'.state.managed, m'.state.free)
                  && Pages(m'.state.free) == Pages(m.state.free) + PagesOf(owner.ledger)
                  && Zeroed(m'.state, owner.ledger) && SameElsewhere(m.state, m'.state, owner.ledger))
  {
    hide Pages, RunStarts, Unwind, ReturnAll, Emptied, Zeroed, SameElsewhere, Step, FA.Tables, Linked, PagesOf,
      FrameFor, Fits;
    UnlinkCompletes(m, owner.ledger, |BUILD_LINKS|);
    FullIsComplete(owner.ledger);
    var m4 := Emptied(m, owner.ledger, |BUILD_LINKS|);
    OwnedAgain(m.state, m4.state, owner.ledger);
    ReturnsExactly(m4, owner.ledger);
    var m5 := ReturnAll(Step, m4, owner.ledger).0;
    if ReturnAll(Step, m4, owner.ledger).2.None? {
      SameMemory(m4.state, m5.state, owner.ledger);
      SameChain(m.state, m4.state, m5.state, owner.ledger);
    }
  }

  // Two owners ----------------------------------------------------------------------------------------

  const SIZE: nat := |ALL_ROLES|

  /** The page the allocation numbered `n` takes. */
  ghost function PageAt(free: seq<Extent>, n: nat): int
    requires Canonical(free)
  {
    if FreeAfter(free, n) == [] then -1 else FrameAt(free, n) / PAGE_SIZE
  }

  /** The pages that allocations `a` to `b` take. */
  ghost function Taken(free: seq<Extent>, a: nat, b: nat): set<int>
    requires Canonical(free)
  {
    set n | a <= n < b :: PageAt(free, n)
  }

  /** Later allocations take higher pages. */
  lemma {:induction false} PagesAscend(free: seq<Extent>, i: nat, j: nat)
    requires Canonical(free) && i < j && FreeAfter(free, j) != []
    ensures FreeAfter(free, i) != [] && PageAt(free, i) < PageAt(free, j)
    ensures forall p :: p in Pages(FreeAfter(free, i)) ==> PageAt(free, i) <= p
  {
    hide Pages, Canonical, FreeAfter, AllocateFirst;
    FreeShrinks(free, i, j);
    FramesDistinct(free, i, j);
    TakesFrame(free, i);
    TakesFrame(free, j);
    AllocateTakesLeast(FreeAfter(free, i));
  }

  lemma {:induction false} FreeAfterPages(free: seq<Extent>, n: nat)
    requires Canonical(free) && n <= |Pages(free)|
    ensures Pages(FreeAfter(free, n)) == Pages(free) - Taken(free, 0, n)
  {
    hide Pages, Canonical, PageAt;
    if n == 0 {
      StartsFree(free);
      assert Taken(free, 0, 0) == {};
    } else {
      FreeAfterPages(free, n - 1);
      FreeCount(free, n - 1);
      TakesFrame(free, n - 1);
      PageAtIs(free, n - 1);
      assert Taken(free, 0, n) == Taken(free, 0, n - 1) + {PageAt(free, n - 1)};
    }
  }

  lemma {:induction false} PageAtIs(free: seq<Extent>, n: nat)
    requires Canonical(free) && FreeAfter(free, n) != []
    ensures PageAt(free, n) == FrameAt(free, n) / PAGE_SIZE && FrameAt(free, n) % PAGE_SIZE == 0
  {
    hide Pages, Canonical, FreeAfter;
    TakesFrame(free, n);
  }

  /** What is free when the first owner still holds `i` frames and the second `j`. */
  ghost function Outside(free: seq<Extent>, i: nat, j: nat): set<int>
    requires Canonical(free)
  {
    Pages(free) - Taken(free, 0, i) - Taken(free, SIZE, SIZE + j)
  }

  /** Where a run of what is free can begin: where one did before, or right after the second owner's frames. */
  lemma {:induction false} OutsideRuns(free: seq<Extent>, i: nat, j: nat, x: int)
    requires Canonical(free) && i <= SIZE && 0 < j <= SIZE && 2 * SIZE <= |Pages(free)|
    requires x in RunStarts(Outside(free, i, j))
    ensures x in RunStarts(Pages(FreeAfter(free, i))) || x == PageAt(free, SIZE + j - 1) + 1
  {
    hide Pages, Canonical, PageAt, FreeAfter;
    FreeAfterPages(free, i);
    if x - 1 in Pages(FreeAfter(free, i)) {
      var n :| SIZE <= n < SIZE + j && PageAt(free, n) == x - 1;
      if n < SIZE + j - 1 {
        AfterIsNext(free, n, x);
      }
    }
  }

  /** The page right above the one allocation `n` takes, if free at the start, is the next one taken. */
  lemma AfterIsNext(free: seq<Extent>, n: nat, x: int)
    requires Canonical(free) && n + 1 < |Pages(free)| && x in Pages(free) && PageAt(free, n) == x - 1
    ensures PageAt(free, n + 1) == x
  {
    hide Pages, Canonical, PageAt, FreeAfter;
    FreeCount(free, n + 1);
    FreeAfterPages(free, n + 1);
    PagesAscend(free, n, n + 1);
    forall k | 0 <= k < n + 1 ensures PageAt(free, k) != x {
      if k < n { PagesAscend(free, k, n + 1); PagesAscendTo(free, k, n); }
    }
    TakesFrame(free, n + 1);
    PageAtIs(free, n + 1);
    LeastAfter(free, n + 1, x);
  }

  lemma PagesAscendTo(free: seq<Extent>, i: nat, j: nat)
    requires Canonical(free) && i < j && j < |Pages(free)|
    ensures PageAt(free, i) < PageAt(free, j)
  {
    hide Pages, Canonical, PageAt, FreeAfter;
    FreeCount(free, j);
    PagesAscend(free, i, j);
  }

  lemma {:induction false} LeastAfter(free: seq<Extent>, n: nat, x: int)
    requires Canonical(free) && FreeAfter(free, n) != [] && x in Pages(FreeAfter(free, n))
    ensures PageAt(free, n) <= x
  {
    hide Canonical, FreeAfter, Pages;
    TakesFrame(free, n);
    AllocateTakesLeast(FreeAfter(free, n));
  }

  /**
   The second owner's first `j` frames lie inside one run: right after the first owner's last, and before
   another page.
   */
  ghost predicate Splits(free: seq<Extent>, j: nat)
    requires Canonical(free) && 0 < j
  {
    && (forall k :: SIZE <= k < SIZE + j ==> PageAt(free, k) == PageAt(free, k - 1) + 1)
    && PageAt(free, SIZE + j - 1) + 1 in Pages(free)
  }

  /** A full table whose eighth page splits a run: the first owner and then the second cannot both go back. */
  ghost predicate Tight(free: seq<Extent>)
    requires Canonical(free)
  {
    |free| == MAX_EXTENTS && Splits(free, 1)
  }

  /** A full table in which all of the second owner's frames split a run: the first owner cannot go back before it. */
  ghost predicate Wide(free: seq<Extent>)
    requires Canonical(free)
  {
    |free| == MAX_EXTENTS && Splits(free, SIZE)
  }

  /** The stages at which the table is no trouble. */
  ghost predicate Easy(free: seq<Extent>, i: nat, j: nat)
    requires Canonical(free)
  {
    j == 0 || i == SIZE || |free| < MAX_EXTENTS || !Splits(free, j)
  }

  lemma SplitsEarlier(free: seq<Extent>, j: nat)
    requires Canonical(free) && 0 < j <= SIZE && 2 * SIZE <= |Pages(free)| && Splits(free, j)
    ensures Splits(free, 1)
  {
    hide Pages, Canonical, PageAt;
    assert PageAt(free, SIZE) == PageAt(free, SIZE - 1) + 1;
    if j > 1 {
      assert PageAt(free, SIZE + 1) == PageAt(free, SIZE) + 1;
      InTaken(free, 0, SIZE + 1);
    }
  }

  /** Every easy stage fits. */
  lemma OutsideFits(free: seq<Extent>, i: nat, j: nat)
    requires Canonical(free) && i <= SIZE && j <= SIZE && 2 * SIZE <= |Pages(free)|
    requires |free| <= MAX_EXTENTS && Easy(free, i, j)
    ensures |RunStarts(Outside(free, i, j))| <= MAX_EXTENTS
  {
    hide Pages, Canonical, PageAt, FreeAfter, RunStarts;
    FreeAfterPages(free, i);
    FreeBounded(free, i);
    RunsAreExtents(FreeAfter(free, i));
    if j == 0 {
      assert Taken(free, SIZE, SIZE) == {};
      assert Outside(free, i, 0) == Pages(FreeAfter(free, i));
    } else {
      OutsideCounted(free, i, j);
    }
  }

  lemma {:induction false} OutsideCounted(free: seq<Extent>, i: nat, j: nat)
    requires Canonical(free) && i <= SIZE && 0 < j <= SIZE && 2 * SIZE <= |Pages(free)| && Easy(free, i, j)
    requires |free| <= MAX_EXTENTS && |RunStarts(Pages(FreeAfter(free, i)))| <= |free|
    ensures |RunStarts(Outside(free, i, j))| <= MAX_EXTENTS
  {
    hide Pages, Canonical, PageAt, FreeAfter, RunStarts, Outside;
    var before, after := RunStarts(Pages(FreeAfter(free, i))), RunStarts(Outside(free, i, j));
    var high := PageAt(free, SIZE + j - 1) + 1;
    forall x | x in after ensures x in before + {high} { OutsideRuns(free, i, j, x); }
    if |free| < MAX_EXTENTS {
      SubsetCount(after, before + {high});
    } else if high !in Pages(free) {
      NotAStart(free, i, j, high);
      SubsetCount(after, before);
    } else {
      var gone := LostStart(free, i, j);
      SubsetCount(after, before + {high} - {gone});
    }
  }

  lemma NotAStart(free: seq<Extent>, i: nat, j: nat, x: int)
    requires Canonical(free) && x !in Pages(free)
    ensures x !in RunStarts(Outside(free, i, j))
  {
  }

  /** Taking the second owner's frames out also takes a run's beginning out, unless they split a run. */
  lemma LostStart(free: seq<Extent>, i: nat, j: nat) returns (gone: int)
    requires Canonical(free) && i <= SIZE && 0 < j <= SIZE && 2 * SIZE <= |Pages(free)|
    requires |free| == MAX_EXTENTS && Easy(free, i, j) && PageAt(free, SIZE + j - 1) + 1 in Pages(free)
    ensures gone in RunStarts(Pages(FreeAfter(free, i))) && gone !in RunStarts(Outside(free, i, j))
    ensures gone != PageAt(free, SIZE + j - 1) + 1
  {
    hide Pages, Canonical, PageAt, FreeAfter;
    FreeAfterPages(free, i);
    var k: nat := SIZE;
    if i < SIZE { k :| SIZE <= k < SIZE + j && PageAt(free, k) != PageAt(free, k - 1) + 1; }
    gone := PageAt(free, k);
    InTaken(free, i, k);
    FreeCount(free, SIZE);
    if gone - 1 in Pages(FreeAfter(free, i)) {
      if i == SIZE { LeastAfter(free, SIZE, gone - 1); }
      BeforeIsPrior(free, k, gone - 1);
    }
    StartsAt(free, i, k, j);
    if k < SIZE + j - 1 { PagesAscendTo(free, k, SIZE + j - 1); }
  }

  lemma {:induction false} InTaken(free: seq<Extent>, i: nat, n: nat)
    requires Canonical(free) && i <= n < |Pages(free)|
    ensures PageAt(free, n) in Pages(FreeAfter(free, i)) && PageAt(free, n) in Pages(free)
  {
    hide Pages, Canonical, PageAt, FreeAfter;
    FreeCount(free, n);
    TakesFrame(free, n);
    PageAtIs(free, n);
    FreeShrinks(free, i, n);
    FreeShrinks(free, 0, n);
    StartsFree(free);
  }

  /** A taken page with nothing free before it was a run's beginning, and no longer is one. */
  lemma {:induction false} StartsAt(free: seq<Extent>, i: nat, n: nat, j: nat)
    requires Canonical(free) && SIZE <= n < SIZE + j && PageAt(free, n) in Pages(FreeAfter(free, i))
    requires PageAt(free, n) - 1 !in Pages(FreeAfter(free, i))
    ensures PageAt(free, n) in RunStarts(Pages(FreeAfter(free, i)))
            && PageAt(free, n) !in RunStarts(Outside(free, i, j))
  {
    hide Pages, Canonical, PageAt, FreeAfter;
    assert PageAt(free, n) in Taken(free, SIZE, SIZE + j);
  }

  /** A free page right below the one allocation `n` takes is the one taken before it. */
  lemma BeforeIsPrior(free: seq<Extent>, n: nat, x: int)
    requires Canonical(free) && 0 < n < |Pages(free)| && x in Pages(free) && PageAt(free, n) == x + 1
    ensures PageAt(free, n - 1) == x
  {
    hide Pages, Canonical, PageAt, FreeAfter;
    FreeAfterPages(free, n);
    FreeCount(free, n);
    if x in Pages(FreeAfter(free, n)) { LeastAfter(free, n, x); }
    var k :| 0 <= k < n && PageAt(free, k) == x;
    if k < n - 1 {
      PagesAscendTo(free, k, n - 1);
      PagesAscendTo(free, n - 1, n);
    }
  }

  /** With the first owner's frames back, frames that split a run leave one run more than before. */
  lemma SplitAdds(free: seq<Extent>, j: nat)
    requires Canonical(free) && 0 < j <= SIZE && 2 * SIZE <= |Pages(free)| && Splits(free, j)
    ensures |RunStarts(Outside(free, 0, j))| == |free| + 1
  {
    hide Pages, Canonical, PageAt, FreeAfter;
    var high := PageAt(free, SIZE + j - 1) + 1;
    StartsFree(free);
    forall x | x in RunStarts(Pages(free)) ensures x in RunStarts(Outside(free, 0, j)) {
      StartStays(free, j, x);
    }
    forall x | x in RunStarts(Outside(free, 0, j)) ensures x in RunStarts(Pages(free)) + {high} {
      OutsideRuns(free, 0, j, x);
    }
    HighStarts(free, j);
    assert RunStarts(Outside(free, 0, j)) == RunStarts(Pages(free)) + {high};
    RunsAreExtents(free);
  }

  lemma StartStays(free: seq<Extent>, j: nat, x: int)
    requires Canonical(free) && 0 < j <= SIZE && 2 * SIZE <= |Pages(free)| && Splits(free, j)
    requires x in RunStarts(Pages(free))
    ensures x in RunStarts(Outside(free, 0, j))
  {
    hide Pages, Canonical, PageAt, FreeAfter;
    assert Taken(free, 0, 0) == {};
    forall k | SIZE <= k < SIZE + j ensures PageAt(free, k) != x {
      InTaken(free, 0, k - 1);
    }
  }

  lemma HighStarts(free: seq<Extent>, j: nat)
    requires Canonical(free) && 0 < j <= SIZE && 2 * SIZE <= |Pages(free)| && Splits(free, j)
    ensures var high := PageAt(free, SIZE + j - 1) + 1;
            high in RunStarts(Outside(free, 0, j)) && high !in RunStarts(Pages(free))
  {
    hide Pages, Canonical, PageAt, FreeAfter;
    var last := SIZE + j - 1;
    assert Taken(free, 0, 0) == {} && PageAt(free, last) in Taken(free, SIZE, SIZE + j);
    InTaken(free, 0, last);
    forall k | SIZE <= k < SIZE + j ensures PageAt(free, k) != PageAt(free, last) + 1 {
      if k < last { PagesAscendTo(free, k, last); }
    }
  }

  /** A full table whose first run holds at least nine pages is tight. */
  lemma WideFirstIsTight(free: seq<Extent>)
    requires Canonical(free) && |free| == MAX_EXTENTS && free[0].pages >= SIZE + 2
    ensures Tight(free)
  {
    hide Pages, Canonical, FreeAfter;
    FirstRun(free, SIZE - 1);
    FirstRun(free, SIZE);
    FirstRun(free, SIZE + 1);
    PageAtIs(free, SIZE + 1);
    TakesFrame(free, SIZE + 1);
    FreeShrinks(free, 0, SIZE + 1);
    StartsFree(free);
  }

  /** While the first run lasts, allocation `n` takes its page `n`. */
  lemma {:induction false} FirstRun(free: seq<Extent>, n: nat)
    requires Canonical(free) && free != [] && n < free[0].pages
    ensures var r := FreeAfter(free, n);
            && r != [] && r[0].start == free[0].start + n * PAGE_SIZE && r[0].pages == free[0].pages - n
            && PageAt(free, n) == free[0].First() + n
  {
    if n > 0 {
      FirstRun(free, n - 1);
      TakesFrame(free, n - 1);
    }
  }

  /** Sixteen pages out of every thirty-two. */
  function CrowdedEntry(i: nat): Extent
    requires i < MAX_EXTENTS
  {
    Extent(PAGE_SIZE + 131072 * i, 16)
  }

  lemma CrowdedAt(i: nat)
    requires i < MAX_EXTENTS
    ensures CrowdedEntry(i).WellFormed() && CrowdedEntry(i).First() == 1 + 32 * i
  {
  }

  /** A full table. */
  function Crowded(): seq<Extent> {
    seq(MAX_EXTENTS, (i: nat) requires i < MAX_EXTENTS => CrowdedEntry(i))
  }

  lemma CrowdedIsTight()
    ensures Canonical(Crowded()) && |Crowded()| <= MAX_EXTENTS && Tight(Crowded())
  {
    hide CrowdedEntry, Tight;
    var free := Crowded();
    forall i | 0 <= i < |free| ensures free[i].WellFormed() && free[i].First() == 1 + 32 * i && free[i].pages == 16 {
      CrowdedAt(i);
      CrowdedPages(i);
    }
    CrowdedPages(0);
    WideFirstIsTight(free);
  }

  lemma CrowdedPages(i: nat)
    requires i < MAX_EXTENTS
    ensures CrowdedEntry(i).pages == 16
  {
  }

  // What the two owners hold --------------------------------------------------------------------------

  lemma {:induction false} FreeAfterAdds(free: seq<Extent>, a: nat, b: nat)
    requires Canonical(free)
    ensures FreeAfter(FreeAfter(free, a), b) == FreeAfter(free, a + b)
    decreases b
  {
    hide Canonical;
    if b > 0 { FreeAfterAdds(free, a, b - 1); }
  }

  /** A ledger that holds allocations `first` onward holds exactly those pages. */
  lemma {:induction false} LedgerPages(free: seq<Extent>, first: nat, ledger: Ledger, n: nat)
    requires Canonical(free) && Takes(FreeAfter(free, first), ledger) && n <= |ledger|
    ensures PagesOf(ledger[n..]) == Taken(free, first + n, first + |ledger|)
  {
    hide Pages, Canonical, FreeAfter, PageAt, InPlanOrder;
    var tail := ledger[n..];
    forall j | 0 <= j < |ledger| ensures ledger[j].start / PAGE_SIZE == PageAt(free, first + j) {
      FreeAfterAdds(free, first, j);
      PageAtIs(free, first + j);
    }
    forall p ensures p in PagesOf(tail) <==> p in Taken(free, first + n, first + |ledger|) {
      if p in PagesOf(tail) {
        var j :| 0 <= j < |tail| && tail[j].start / PAGE_SIZE == p;
        assert tail[j] == ledger[n + j] && PageAt(free, first + n + j) == p;
      }
      if p in Taken(free, first + n, first + |ledger|) {
        var q :| first + n <= q < first + |ledger| && PageAt(free, q) == p;
        assert tail[q - first - n] == ledger[q - first];
      }
    }
  }

  lemma TakenDistinct(free: seq<Extent>, a: nat, b: nat, c: nat, d: nat)
    requires Canonical(free) && b <= c && d <= |Pages(free)|
    ensures Taken(free, a, b) !! Taken(free, c, d) && Taken(free, c, d) <= Pages(free)
  {
    hide Pages, Canonical, FreeAfter, PageAt;
    forall i, j | a <= i < b && c <= j < d ensures PageAt(free, i) != PageAt(free, j) {
      PagesAscendTo(free, i, j);
    }
    forall j | c <= j < d ensures PageAt(free, j) in Pages(free) {
      FreeCount(free, j);
      TakesFrame(free, j);
      PageAtIs(free, j);
      FreeShrinks(free, 0, j);
      StartsFree(free);
    }
  }

  lemma TakenSplits(free: seq<Extent>, a: nat, b: nat, c: nat)
    requires Canonical(free) && a <= b <= c
    ensures Taken(free, a, c) == Taken(free, a, b) + Taken(free, b, c)
  {
    hide Canonical, PageAt;
  }

  /** Giving the first owner's newest frames back. */
  lemma OutsideFirst(free: seq<Extent>, n: nat, j: nat)
    requires Canonical(free) && n <= SIZE && j <= SIZE && 2 * SIZE <= |Pages(free)|
    ensures Outside(free, SIZE, j) + Taken(free, n, SIZE) == Outside(free, n, j)
    ensures Taken(free, n, SIZE) !! Outside(free, SIZE, j)
  {
    hide Canonical, PageAt, Taken, Pages;
    TakenSplits(free, 0, n, SIZE);
    TakenDistinct(free, 0, n, n, SIZE);
    TakenDistinct(free, n, SIZE, SIZE, SIZE + j);
    TakenDistinct(free, 0, 0, n, SIZE);
  }

  /** Giving the second owner's newest frames back. */
  lemma OutsideSecond(free: seq<Extent>, i: nat, n: nat)
    requires Canonical(free) && i <= SIZE && n <= SIZE && 2 * SIZE <= |Pages(free)|
    ensures Outside(free, i, SIZE) + Taken(free, SIZE + n, 2 * SIZE) == Outside(free, i, n)
    ensures Taken(free, SIZE + n, 2 * SIZE) !! Outside(free, i, SIZE)
  {
    hide Canonical, PageAt, Taken, Pages;
    TakenSplits(free, SIZE, SIZE + n, 2 * SIZE);
    TakenDistinct(free, SIZE, SIZE + n, SIZE + n, 2 * SIZE);
    TakenDistinct(free, 0, i, SIZE + n, 2 * SIZE);
  }

  /** A kernel with frames for two owners. */
  ghost predicate Ample(k0: Kernel) {
    Sound(k0) && 2 * SIZE <= |Pages(k0.free)|
  }

  /** The owner whose frames start at allocation `first` of `k0` holds its finished tables in `k`. */
  ghost predicate Holds(k0: Kernel, k: Kernel, first: nat, ledger: Ledger)
    requires Canonical(k0.free)
  {
    |ledger| == SIZE && Takes(FreeAfter(k0.free, first), ledger) && Tabled(k, ledger, |BUILD_LINKS|)
  }

  /** `k` is `k0` less the frames of the owners that are still there. */
  ghost predicate Held(k0: Kernel, k: Kernel, a: Option<Ledger>, b: Option<Ledger>) {
    && Canonical(k0.free)
    && k == k0.(free := k.free, memory := k.memory) && FA.Tables(k0.managed, k.free)
    && Pages(k.free) == Outside(k0.free, if a.Some? then SIZE else 0, if b.Some? then SIZE else 0)
    && (a.Some? ==> Holds(k0, k, 0, a.value)) && (b.Some? ==> Holds(k0, k, SIZE, b.value))
  }

  lemma HeldSound(k0: Kernel, k: Kernel, a: Option<Ledger>, b: Option<Ledger>)
    requires Sound(k0) && Held(k0, k, a, b)
    ensures Sound(k)
  {
    hide Pages, Canonical, Outside, Holds;
  }

  /** The free table follows from who is left; with nobody left it is the first one again. */
  lemma NobodyLeft(k0: Kernel, k: Kernel)
    requires Sound(k0) && Held(k0, k, None, None)
    ensures k.free == k0.free
  {
    assert Taken(k0.free, 0, 0) == {} && Taken(k0.free, SIZE, SIZE) == {};
    CanonicalUnique(k.free, k0.free);
  }

  /**
   Tearing the first owner down: accepted exactly when the second is gone or its frames do not split a run of a
   full table.
   */
  lemma ReleaseFirst(k0: Kernel, m: KernelMachine, owner: Owner, b: Option<Ledger>)
    requires Ample(k0) && Held(k0, m.state, Some(owner.ledger), b)
    requires Published(owner) && owner.live && owner.state == Inactive
    ensures var (m', torn) := Teardown(Step, m, owner);
            && (torn.TornDown? <==> b.None? || !Wide(k0.free))
            && (torn.TornDown? ==>
                  && torn == TornDown(Owner(owner.generation, false, Dead, None, []))
                  && Held(k0, m'.state, None, b) && Zeroed(m'.state, owner.ledger)
                  && SameElsewhere(m.state, m'.state, owner.ledger))
  {
    hide Pages, Canonical, Outside, Taken, PagesOf, Teardown, Zeroed, SameElsewhere, Tabled, FreeAfter, RunStarts,
      Takes, FA.Tables, Splits;
    var free, j := k0.free, if b.Some? then SIZE else 0;
    var ledger := owner.ledger;
    HeldSound(k0, m.state, Some(ledger), b);
    SoundTables(k0);
    forall n | 0 <= n <= SIZE
      ensures Pages(m.state.free) + PagesOf(ledger[n..]) == Outside(free, n, j)
      ensures Easy(free, n, j) ==> |RunStarts(Outside(free, n, j))| <= MAX_EXTENTS
    {
      StartsFree(free);
      LedgerPages(free, 0, ledger, n);
      OutsideFirst(free, n, j);
      if Easy(free, n, j) { OutsideFits(free, n, j); }
    }
    if b.Some? && Wide(free) {
      SplitAdds(free, SIZE);
      assert |RunStarts(Pages(m.state.free) + PagesOf(ledger[0..]))| > MAX_EXTENTS;
    }
    OutsideFirst(free, 0, j);
    StartsFree(free);
    LedgerPages(free, 0, ledger, 0);
    assert ledger[0..] == ledger;
    TeardownExactly(m, owner);
    var (m', torn) := Teardown(Step, m, owner);
    if torn.TornDown? && b.Some? { KeepsOther(k0, m.state, m'.state, 0, ledger, SIZE, b.value); }
  }

  /** Tearing the second owner down: accepted exactly when the first is still there or the table is not tight. */
  lemma ReleaseSecond(k0: Kernel, m: KernelMachine, owner: Owner, a: Option<Ledger>)
    requires Ample(k0) && Held(k0, m.state, a, Some(owner.ledger))
    requires Published(owner) && owner.live && owner.state == Inactive
    ensures var (m', torn) := Teardown(Step, m, owner);
            && (torn.TornDown? <==> a.Some? || !Tight(k0.free))
            && (torn.TornDown? ==>
                  && torn == TornDown(Owner(owner.generation, false, Dead, None, []))
                  && Held(k0, m'.state, a, None) && Zeroed(m'.state, owner.ledger)
                  && SameElsewhere(m.state, m'.state, owner.ledger))
  {
    hide Pages, Canonical, Outside, Taken, PagesOf, Teardown, Zeroed, SameElsewhere, Tabled, FreeAfter, RunStarts,
      Takes, FA.Tables, Splits;
    var free, i := k0.free, if a.Some? then SIZE else 0;
    var ledger := owner.ledger;
    HeldSound(k0, m.state, a, Some(ledger));
    SoundTables(k0);
    forall n | 0 <= n <= SIZE
      ensures Pages(m.state.free) + PagesOf(ledger[n..]) == Outside(free, i, n)
      ensures a.Some? || !Tight(free) ==> |RunStarts(Outside(free, i, n))| <= MAX_EXTENTS
    {
      LedgerPages(free, SIZE, ledger, n);
      OutsideSecond(free, i, n);
      if 0 < n && Splits(free, n) { SplitsEarlier(free, n); }
      if a.Some? || !Tight(free) { OutsideFits(free, i, n); }
    }
    if a.None? && Tight(free) {
      SplitAdds(free, 1);
      assert |RunStarts(Pages(m.state.free) + PagesOf(ledger[1..]))| > MAX_EXTENTS;
    }
    OutsideSecond(free, i, 0);
    LedgerPages(free, SIZE, ledger, 0);
    assert ledger[0..] == ledger;
    TeardownExactly(m, owner);
    var (m', torn) := Teardown(Step, m, owner);
    if torn.TornDown? && a.Some? { KeepsOther(k0, m.state, m'.state, SIZE, ledger, 0, a.value); }
  }

  lemma WideIsTight(k0: Kernel)
    requires Ample(k0)
    ensures Wide(k0.free) ==> Tight(k0.free)
  {
    hide Pages, Canonical, Splits;
    if Wide(k0.free) { SplitsEarlier(k0.free, SIZE); }
  }

  lemma SoundTables(k: Kernel)
    requires Sound(k)
    ensures Canonical(k.free) && |k.free| <= MAX_EXTENTS
  {
  }

  /** Giving the second owner back and then the first always works, and the free table is the first one again. */
  lemma SecondThenFirst(k0: Kernel, m: KernelMachine, first: Owner, second: Owner)
    requires Ample(k0) && Held(k0, m.state, Some(first.ledger), Some(second.ledger))
    requires Published(first) && first.live && first.state == Inactive
    requires Published(second) && second.live && second.state == Inactive
    ensures var (m1, t1) := Teardown(Step, m, second);
            var (m2, t2) := Teardown(Step, m1, first);
            t1.TornDown? && t2.TornDown? && m2.state.free == k0.free
  {
    hide Teardown, Held, Tight, Wide, Step;
    ReleaseSecond(k0, m, second, Some(first.ledger));
    var m1 := Teardown(Step, m, second).0;
    ReleaseFirst(k0, m1, first, None);
    NobodyLeft(k0, Teardown(Step, m1, first).0.state);
  }

  /**
   Giving the first owner back and then the second works exactly when the table the pair was built from is not
   tight.
   */
  lemma FirstThenSecond(k0: Kernel, m: KernelMachine, first: Owner, second: Owner)
    requires Ample(k0) && Held(k0, m.state, Some(first.ledger), Some(second.ledger))
    requires Published(first) && first.live && first.state == Inactive
    requires Published(second) && second.live && second.state == Inactive
    ensures var (m1, t1) := Teardown(Step, m, first);
            var (m2, t2) := Teardown(Step, m1, second);
            && (t1.TornDown? && t2.TornDown? <==> !Tight(k0.free))
            && (t1.TornDown? && t2.TornDown? ==> m2.state.free == k0.free)
  {
    hide Teardown, Held, Tight, Wide, Step;
    ReleaseFirst(k0, m, first, Some(second.ledger));
    var (m1, t1) := Teardown(Step, m, first);
    WideIsTight(k0);
    if t1.TornDown? {
      ReleaseSecond(k0, m1, second, None);
      var (m2, t2) := Teardown(Step, m1, second);
      if t2.TornDown? { NobodyLeft(k0, m2.state); }
    }
  }

  /** One owner's teardown leaves the other's finished tables alone. */
  lemma KeepsOther(k0: Kernel, k: Kernel, k': Kernel, first: nat, gone: Ledger, other: nat, kept: Ledger)
    requires Ample(k0) && Holds(k0, k, first, gone) && Holds(k0, k, other, kept)
    requires (first == 0 && other == SIZE) || (first == SIZE && other == 0)
    requires k' == k.(free := k'.free, memory := k'.memory) && SameElsewhere(k, k', gone)
    ensures Holds(k0, k', other, kept)
  {
    hide Pages, Canonical, FreeAfter, Takes, Linked, Tabled, InLedger;
    forall j | 0 <= j < |kept| ensures !InLedger(gone, kept[j].start) {
      Elsewhere(k0.free, first, gone, other, kept, j);
    }
    TabledElsewhere(k, k', gone, kept);
  }

  lemma TabledElsewhere(k: Kernel, k': Kernel, gone: Ledger, kept: Ledger)
    requires Tabled(k, kept, |BUILD_LINKS|)
    requires k' == k.(free := k'.free, memory := k'.memory) && SameElsewhere(k, k', gone)
    requires forall j :: 0 <= j < |kept| ==> !InLedger(gone, kept[j].start)
    ensures Tabled(k', kept, |BUILD_LINKS|)
  {
    hide Pages, Linked, InLedger;
  }

  lemma {:induction false} Elsewhere(free: seq<Extent>, first: nat, gone: Ledger, other: nat, kept: Ledger, j: nat)
    requires Canonical(free) && 2 * SIZE <= |Pages(free)|
    requires (first == 0 && other == SIZE) || (first == SIZE && other == 0)
    requires Takes(FreeAfter(free, first), gone) && Takes(FreeAfter(free, other), kept)
    requires |gone| == SIZE && |kept| == SIZE && j < |kept|
    ensures !InLedger(gone, kept[j].start)
  {
    hide Pages, Canonical, Taken, FreeAfter, PageAt, Takes;
    LedgerPages(free, first, gone, 0);
    LedgerPages(free, other, kept, 0);
    assert gone[0..] == gone && kept[0..] == kept;
    assert kept[j].start / PAGE_SIZE in PagesOf(kept);
    TakenDistinct(free, 0, SIZE, SIZE, 2 * SIZE);
    forall i | 0 <= i < |gone| ensures gone[i].start != kept[j].start {
      assert gone[i].start / PAGE_SIZE in PagesOf(gone);
    }
  }

  /** A finished pair holds its frames in this sense. */
  lemma PairHolds(k0: Kernel, m: KernelMachine, g1: u64, g2: u64)
    requires Ample(k0) && m.state == k0 && ConstructPair(Step, m, g1, g2).1.BuiltPair?
    ensures var (m', r) := ConstructPair(Step, m, g1, g2);
            Held(k0, m'.state, Some(r.first.ledger), Some(r.second.ledger))
  {
    hide Pages, Canonical, Taken, FreeAfter, PageAt, Takes, ConstructPair, Step, Linked, Restored, Got, Later;
    PairOutcome(k0, m, g1, g2);
    var (m', r) := ConstructPair(Step, m, g1, g2);
    var k1 := m'.state.(free := FreeAfter(k0.free, SIZE));
    StaysSound(k0, k1, SIZE);
    StaysSound(k1, m'.state, SIZE);
    StartsFree(k0.free);
    FreeAfterAdds(k0.free, SIZE, SIZE);
    FreeAfterPages(k0.free, 2 * SIZE);
    TakenSplits(k0.free, 0, SIZE, 2 * SIZE);
  }

  // A kernel that meets the refusal ---------------------------------------------------------------------

  /** All of a crowded table managed and free, nothing in memory, and a program for generations two and three. */
  function CrowdedKernel(): Kernel {
    Kernel(Crowded(), Crowded(), map[], true, 0, 0, 0, ZeroPage(), [], map[2 := ZeroPage(), 3 := ZeroPage()])
  }

  lemma CrowdedPage(page: int)
    requires page in Pages(Crowded())
    ensures page * PAGE_SIZE < ADDRESS_LIMIT
  {
    hide CrowdedEntry;
    var i :| 0 <= i < |Crowded()| && Crowded()[i].First() <= page < Crowded()[i].Limit();
    CrowdedAt(i);
    CrowdedPages(i);
    assert CrowdedEntry(i).Limit() == 1 + 32 * i + 16;
    assert page <= 1 + 32 * 1024;
  }

  lemma CrowdedKernelIsAmple()
    ensures Ample(CrowdedKernel())
  {
    hide Pages, Canonical, CrowdedEntry, Tight, FreeAfter;
    var free := Crowded();
    CrowdedIsTight();
    CrowdedPages(0);
    FirstRun(free, 2 * SIZE);
    FreeCount(free, 2 * SIZE);
    forall page | page in Pages(free) ensures page * PAGE_SIZE < ADDRESS_LIMIT { CrowdedPage(page); }
  }

  /** There a pair is built, and giving the first owner back and then the second is refused. */
  lemma CrowdedKernelRefuses()
    ensures var m := Machine(CrowdedKernel(), []);
            var (m0, pair) := ConstructPair(Step, m, 2, 3);
            && pair.BuiltPair? && Published(pair.first) && Published(pair.second)
            && var (m1, t1) := Teardown(Step, m0, pair.first);
               !(t1.TornDown? && Teardown(Step, m1, pair.second).1.TornDown?)
  {
    hide Pages, Canonical, Step, ConstructPair, Teardown, Crowded, Tight, Held, FreeAfter, Restored, Got, Later,
      InPlanOrder;
    var k0 := CrowdedKernel();
    var m := Machine(k0, []);
    CrowdedKernelIsAmple();
    CrowdedIsTight();
    PairOutcome(k0, m, 2, 3);
    PairHolds(k0, m, 2, 3);
    PairPublished(m, 2, 3);
    var (m0, pair) := ConstructPair(Step, m, 2, 3);
    FirstThenSecond(k0, m0, pair.first, pair.second);
  }
}
