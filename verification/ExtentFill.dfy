/**
 From a region list to the allocator's first extent table: checking, counting and
 filling with merges.
 */
module ExtentFill {
  import opened Words
  import opened Extents
  import opened Regions

  datatype InitError =
    ZeroPages | Misaligned | RangeOverflow | OutOfOrder | Overlap | UnknownKind | Attributes | TooManyExtents

  /** The first check region `i` fails, given its predecessor. */
  function RegionError(regions: seq<Region>, i: nat): Option<InitError>
    requires i < |regions|
  {
    var r := regions[i];
    if r.pages == 0 then Some(ZeroPages)
    else if r.start % PAGE_SIZE != 0 then Some(Misaligned)
    else if !KnownKind(r.kind) then Some(UnknownKind)
    else if r.attributes != 0 then Some(Attributes)
    else if r.Span().End().None? then Some(RangeOverflow)
    else if i > 0 && r.start < regions[i - 1].start then Some(OutOfOrder)
    else if i > 0 && r.start < regions[i - 1].start + regions[i - 1].pages * PAGE_SIZE then Some(Overlap)
    else None
  }

  predicate Clean(regions: seq<Region>) {
    forall i :: 0 <= i < |regions| ==> RegionError(regions, i).None?
  }

  lemma {:induction false} CleanOrder(regions: seq<Region>, i: nat, k: nat)
    requires Clean(regions) && i < k < |regions|
    ensures regions[i].Limit() <= regions[k].First()
    decreases k
  {
    assert RegionError(regions, k).None? && RegionError(regions, i).None? && RegionError(regions, k - 1).None?;
    if i < k - 1 {
      CleanOrder(regions, i, k - 1);
    }
  }

  /** The neighbour-by-neighbour checks amount to a sorted, disjoint, well-formed list. */
  lemma CleanIsSorted(regions: seq<Region>)
    ensures Clean(regions) <==> Sorted(regions)
  {
    if Clean(regions) {
      forall i | 0 <= i < |regions| ensures regions[i].WellFormed() {
        assert RegionError(regions, i).None?;
      }
      forall i, k | 0 <= i < k < |regions| ensures regions[i].Limit() <= regions[k].First() {
        CleanOrder(regions, i, k);
      }
    }
    if Sorted(regions) {
      forall i | 0 <= i < |regions| ensures RegionError(regions, i).None? {
        assert regions[i].WellFormed();
        if i > 0 { assert regions[i - 1].WellFormed() && regions[i - 1].Limit() <= regions[i].First(); }
      }
    }
  }

  /** Whether a usable region continues the last extent. */
  predicate Continues(table: seq<Extent>, r: Region) {
    table != [] && table[|table| - 1].End() == Some(r.start)
  }

  /** The table after one more usable region: grown at the end, or one extent longer. */
  function Extended(table: seq<Extent>, r: Region): seq<Extent>
    requires Continues(table, r) ==> table[|table| - 1].pages + r.pages <= U64_MAX
  {
    if Continues(table, r) then
      var last := table[|table| - 1];
      table[..|table| - 1] + [Extent(last.start, last.pages + r.pages)]
    else table + [r.Span()]
  }

  /** Nothing in the table reaches past the given page. */
  predicate Below(table: seq<Extent>, page: int) {
    table != [] ==> table[|table| - 1].Limit() <= page
  }

  lemma ExtendedCanonical(table: seq<Extent>, r: Region)
    requires Canonical(table) && r.WellFormed() && Below(table, r.First())
    ensures Continues(table, r) ==> table[|table| - 1].pages + r.pages <= U64_MAX
    ensures Canonical(Extended(table, r)) && Below(Extended(table, r), r.Limit())
  {
    var k := |table| - 1;
    if Continues(table, r) {
      assert table[k].Limit() == r.First();
      var merged := Extent(table[k].start, table[k].pages + r.pages);
      if k > 0 { assert table[k - 1].Limit() < table[k].First(); }
      SpliceCanonical(table, k, |table|, merged);
      assert Extended(table, r) == Splice(table, k, |table|, merged);
    } else {
      SpliceCanonical(table, |table|, |table|, r.Span());
      assert Extended(table, r) == Splice(table, |table|, |table|, r.Span());
    }
  }

  lemma ExtendedCovers(table: seq<Extent>, r: Region, page: int)
    requires Canonical(table) && r.WellFormed() && Below(table, r.First())
    requires Continues(table, r) ==> table[|table| - 1].pages + r.pages <= U64_MAX
    ensures Covered(Extended(table, r), page) <==> Covered(table, page) || r.Covers(page)
  {
    if Continues(table, r) {
      var k := |table| - 1;
      var merged := Extent(table[k].start, table[k].pages + r.pages);
      assert table[k].WellFormed();
      assert table[..k] + [table[k]] == table;
      CoveredConcat(table[..k], [table[k]], page);
      CoveredConcat(table[..k], [merged], page);
      CoveredOne(table[k], page);
      CoveredOne(merged, page);
    } else {
      CoveredConcat(table, [r.Span()], page);
      CoveredOne(r.Span(), page);
    }
  }

  lemma CoveredOne(e: Extent, page: int)
    ensures Covered([e], page) <==> Holds(e, page)
  {
    if Holds(e, page) { assert Holds([e][0], page); }
  }

  /** The extents of all usable regions, merged where they touch. */
  function Fill(regions: seq<Region>): (table: seq<Extent>)
    requires Sorted(regions)
    ensures Canonical(table)
    ensures regions != [] ==> Below(table, regions[|regions| - 1].Limit())
    ensures regions == [] ==> table == []
    decreases |regions|
  {
    if regions == [] then []
    else
      var k := |regions| - 1;
      var prior := Fill(regions[..k]);
      if regions[k].kind != MEMORY_USABLE then
        assert k > 0 ==> regions[k - 1].Limit() <= regions[k].First();
        assert regions[k].WellFormed();
        prior
      else
        assert k > 0 ==> regions[k - 1].Limit() <= regions[k].First();
        ExtendedCanonical(prior, regions[k]);
        Extended(prior, regions[k])
  }

  /** One region more adds its pages if it is usable. */
  lemma FillCoversMore(regions: seq<Region>, k: nat, page: int)
    requires Sorted(regions) && k < |regions|
    ensures Sorted(regions[..k]) && Sorted(regions[..k + 1])
    ensures Covered(Fill(regions[..k + 1]), page)
            <==> Covered(Fill(regions[..k]), page) || (regions[k].kind == MEMORY_USABLE && regions[k].Covers(page))
  {
    hide *;
    FillGrows(regions, k);
    if regions[k].kind == MEMORY_USABLE {
      ExtendedCovers(Fill(regions[..k]), regions[k], page);
    }
  }

  lemma NothingCovered(page: int)
    ensures !Covered([], page) && !HasKind([], page, MEMORY_USABLE)
  {
  }

  lemma {:induction false} FillCovers(regions: seq<Region>, page: int)
    requires Sorted(regions)
    ensures Covered(Fill(regions), page) <==> HasKind(regions, page, MEMORY_USABLE)
    decreases |regions|
  {
    hide *;
    if regions == [] {
      NothingCovered(page);
    } else {
      var k := |regions| - 1;
      FillCoversMore(regions, k, page);
      FillCovers(regions[..k], page);
      assert regions[..k + 1] == regions == regions[..k] + [regions[k]];
      HasKindAppend(regions[..k], regions[k], page, MEMORY_USABLE);
    }
  }

  /** Filling represents exactly the usable pages. */
  lemma {:induction false} FillIsUsable(regions: seq<Region>)
    requires Sorted(regions)
    ensures Pages(Fill(regions)) == UsablePages(regions)
    ensures |Fill(regions)| == |RunStarts(UsablePages(regions))|
  {
    forall page ensures Covered(Fill(regions), page) <==> HasKind(regions, page, MEMORY_USABLE) {
      FillCovers(regions, page);
    }
    RunsAreExtents(Fill(regions));
    hide RunStarts;
  }

  /** Each further region can only lengthen the table. */
  lemma FillGrows(regions: seq<Region>, k: nat)
    requires Sorted(regions) && k < |regions|
    ensures Sorted(regions[..k]) && Sorted(regions[..k + 1])
    ensures regions[k].kind != MEMORY_USABLE ==> Fill(regions[..k + 1]) == Fill(regions[..k])
    ensures regions[k].kind == MEMORY_USABLE ==>
              && regions[k].WellFormed() && Below(Fill(regions[..k]), regions[k].First())
              && (Continues(Fill(regions[..k]), regions[k]) ==>
                    Fill(regions[..k])[|Fill(regions[..k])| - 1].pages + regions[k].pages <= U64_MAX)
              && Fill(regions[..k + 1]) == Extended(Fill(regions[..k]), regions[k])
  {
    assert regions[..k + 1][..k] == regions[..k];
    assert regions[k].WellFormed();
    assert k > 0 ==> regions[k - 1].Limit() <= regions[k].First();
    ExtendedCanonical(Fill(regions[..k]), regions[k]);
  }

  lemma {:induction false} FillMonotone(regions: seq<Region>, k: nat)
    requires Sorted(regions) && k <= |regions|
    ensures Sorted(regions[..k]) && |Fill(regions[..k])| <= |Fill(regions)|
    decreases |regions| - k
  {
    if k < |regions| {
      FillGrows(regions, k);
      FillMonotone(regions, k + 1);
    } else {
      assert regions[..k] == regions;
    }
  }

  /** After an unusable region the table ends strictly before the next one; after a usable one, where it ended. */
  lemma {:induction false} FillEnd(regions: seq<Region>)
    requires Sorted(regions) && regions != []
    ensures var r := regions[|regions| - 1];
            var table := Fill(regions);
            && (r.kind == MEMORY_USABLE ==> table != [] && table[|table| - 1].Limit() == r.Limit())
            && (r.kind != MEMORY_USABLE && table != [] ==> table[|table| - 1].Limit() < r.Limit())
  {
    var k := |regions| - 1;
    FillGrows(regions, k);
    assert regions[..k + 1] == regions;
    assert regions[k].WellFormed();
    assert k > 0 ==> regions[k - 1].Limit() <= regions[k].First();
    var prior := Fill(regions[..k]);
    if regions[k].kind == MEMORY_USABLE {
      ExtendedEnd(prior, regions[k]);
    }
    hide Sorted, Canonical, Extended;
  }

  lemma ExtendedEnd(table: seq<Extent>, r: Region)
    requires Canonical(table) && r.WellFormed()
    requires Continues(table, r) ==> table[|table| - 1].pages + r.pages <= U64_MAX
    ensures var grown := Extended(table, r);
            grown != [] && grown[|grown| - 1].Limit() == r.Limit()
  {
    if Continues(table, r) {
      var last := table[|table| - 1];
      assert last.WellFormed();
      EndIsLimit(last, r.start);
    }
  }

  /** The count grows exactly when a usable region does not continue the previous usable one. */
  lemma CountStep(regions: seq<Region>, i: nat)
    requires i < |regions| && forall k :: 0 <= k <= i ==> RegionError(regions, k).None?
    ensures Sorted(regions[..i]) && Sorted(regions[..i + 1])
    ensures var joins := i > 0 && regions[i - 1].kind == MEMORY_USABLE
                         && regions[i - 1].Span().End() == Some(regions[i].start);
            |Fill(regions[..i + 1])|
            == |Fill(regions[..i])| + (if regions[i].kind == MEMORY_USABLE && !joins then 1 else 0)
  {
    var prefix := regions[..i + 1];
    PrefixSorted(regions, i);
    FillGrows(prefix, i);
    assert prefix[..i] == regions[..i];
    if i > 0 {
      FillEnd(regions[..i]);
      var table := Fill(regions[..i]);
      assert prefix[i - 1].WellFormed() && prefix[i].WellFormed() && prefix[i - 1].Limit() <= prefix[i].First();
      if table != [] { assert table[|table| - 1].WellFormed(); }
      hide Fill, Canonical, Sorted;
      EndIsLimit(prefix[i - 1].Span(), prefix[i].start);
      if table != [] { EndIsLimit(table[|table| - 1], prefix[i].start); }
    }
  }

  lemma EndIsLimit(e: Extent, start: u64)
    requires e.WellFormed() && start % PAGE_SIZE == 0
    ensures e.End() == Some(start) <==> e.Limit() == start / PAGE_SIZE
  {
  }

  /** Everything up to region `i` is in order and fits; region `i` has this fault, or is one extent too many. */
  predicate FailsAt(regions: seq<Region>, i: nat, error: InitError)
    requires i < |regions|
  {
    && (forall k :: 0 <= k < i ==> RegionError(regions, k).None?)
    && Sorted(regions[..i]) && |Fill(regions[..i])| <= MAX_EXTENTS
    && match RegionError(regions, i)
       case Some(e) => error == e
       case None => error == TooManyExtents && Sorted(regions[..i + 1]) && |Fill(regions[..i + 1])| > MAX_EXTENTS
  }

  /** There is one such region at most, so the error is determined. */
  lemma FailsOnce(regions: seq<Region>, i: nat, e: InitError, j: nat, f: InitError)
    requires i < |regions| && j < |regions| && FailsAt(regions, i, e) && FailsAt(regions, j, f)
    ensures i == j && e == f
  {
    hide Fill, Sorted, RegionError;
    if i < j {
      assert RegionError(regions, i).None?;
      assert regions[..j][..i + 1] == regions[..i + 1];
      FillMonotone(regions[..j], i + 1);
    }
    if j < i {
      assert RegionError(regions, j).None?;
      assert regions[..i][..j + 1] == regions[..j + 1];
      FillMonotone(regions[..i], j + 1);
    }
  }

  /** Check every region and count the extents they will fill, merging usable neighbours. */
  method ValidateAndCountExtents(regions: seq<Region>) returns (r: Result<nat, InitError>)
    ensures r.Ok? <==> Sorted(regions) && |Fill(regions)| <= MAX_EXTENTS
    ensures r.Ok? ==> r.value == |Fill(regions)|
    ensures r.Err? ==> exists i :: 0 <= i < |regions| && FailsAt(regions, i, r.error)
  {
    hide Fill, Sorted;
    var previousStart: Option<u64> := None;
    var previousEnd: Option<u64> := None;
    var previousUsableEnd: Option<u64> := None;
    var count := 0;
    var i := 0;
    EmptyFill(regions[..0]);
    while i < |regions|
      invariant 0 <= i <= |regions|
      invariant forall k :: 0 <= k < i ==> RegionError(regions, k).None?
      invariant previousStart == if i == 0 then None else Some(regions[i - 1].start)
      invariant previousEnd == if i == 0 then None else regions[i - 1].Span().End()
      invariant previousUsableEnd
             == if i > 0 && regions[i - 1].kind == MEMORY_USABLE then regions[i - 1].Span().End() else None
      invariant Sorted(regions[..i]) && count == |Fill(regions[..i])| <= MAX_EXTENTS
    {
      var region := regions[i];
      if region.pages == 0 {
        NotSorted(regions, i);
        return Err(ZeroPages);
      }
      if region.start % PAGE_SIZE != 0 {
        NotSorted(regions, i);
        return Err(Misaligned);
      }
      if !KnownKind(region.kind) {
        NotSorted(regions, i);
        return Err(UnknownKind);
      }
      if region.attributes != 0 {
        NotSorted(regions, i);
        return Err(Attributes);
      }
      var end := region.Span().End();
      if end.None? {
        NotSorted(regions, i);
        return Err(RangeOverflow);
      }
      if previousStart.Some? && region.start < previousStart.value {
        NotSorted(regions, i);
        return Err(OutOfOrder);
      }
      if previousEnd.Some? && region.start < previousEnd.value {
        NotSorted(regions, i);
        return Err(Overlap);
      }
      if i > 0 { assert RegionError(regions, i - 1).None?; }
      assert RegionError(regions, i).None?;
      CountStep(regions, i);
      if region.kind == MEMORY_USABLE {
        if previousUsableEnd != Some(region.start) {
          count := count + 1;
          if count > MAX_EXTENTS {
            if Sorted(regions) { FillMonotone(regions, i + 1); }
            assert FailsAt(regions, i, TooManyExtents);
            return Err(TooManyExtents);
          }
        }
        previousUsableEnd := end;
      } else {
        previousUsableEnd := None;
      }
      previousStart := Some(region.start);
      previousEnd := end;
      i := i + 1;
    }
    assert regions[..i] == regions;
    return Ok(count);
  }

  lemma {:induction false} EmptyFill(regions: seq<Region>)
    requires regions == []
    ensures Sorted(regions) && Fill(regions) == []
  {
  }

  lemma NotSorted(regions: seq<Region>, i: nat)
    requires i < |regions| && RegionError(regions, i).Some?
    requires forall k :: 0 <= k < i ==> RegionError(regions, k).None?
    requires Sorted(regions[..i]) && |Fill(regions[..i])| <= MAX_EXTENTS
    ensures !Sorted(regions) && FailsAt(regions, i, RegionError(regions, i).value)
  {
    hide Fill;
    CleanIsSorted(regions);
  }

  lemma PrefixSorted(regions: seq<Region>, i: nat)
    requires i < |regions| && forall k :: 0 <= k <= i ==> RegionError(regions, k).None?
    ensures Sorted(regions[..i + 1])
  {
    var prefix := regions[..i + 1];
    forall k | 0 <= k < |prefix| ensures RegionError(prefix, k).None? {
      assert RegionError(regions, k) == RegionError(prefix, k);
    }
    CleanIsSorted(prefix);
  }
}
