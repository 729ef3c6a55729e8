/**
 The bounded physical-frame allocator: two fixed extent arrays edited in place, proved
 against operations on a set of pages.
 */
module FrameAllocation {
  import opened Words
  import opened Extents
  import opened Regions
  import opened ExtentFill

  // Any sequence of operations ----------------------------------------------------

  datatype Op = AllocateOp | FreeOp(frame: u64)

  datatype Response = Allocated(frame: u64) | NoFrame(why: AllocateError) | Freed | NotFreed(because: FreeError)

  /** One operation on the pair of tables. */
  function TableStep(managed: seq<Extent>, free: seq<Extent>, op: Op): (seq<Extent>, Response)
    requires free != [] ==> free[0].pages >= 1
  {
    match op
    case AllocateOp =>
      (match AllocateFirst(free)
       case Ok((frame, rest)) => (rest, Allocated(frame))
       case Err(e) => (free, NoFrame(e)))
    case FreeOp(frame) =>
      (match FreeFrame(managed, free, frame)
       case Ok(rest) => (rest, Freed)
       case Err(e) => (free, NotFreed(e)))
  }

  /** The same operation on a set of pages: allocation takes the least. */
  ghost predicate SetStep(managed: set<int>, free: set<int>, op: Op, free': set<int>, response: Response) {
    match op
    case AllocateOp =>
      if free == {} then free' == free && response == NoFrame(Exhausted)
      else
        && response.Allocated? && response.frame % PAGE_SIZE == 0
        && var page := response.frame / PAGE_SIZE;
        && page in free && (forall other :: other in free ==> page <= other) && free' == free - {page}
    case FreeOp(frame) =>
      match SetFree(managed, free, frame)
      case Ok(more) => free' == more && response == Freed
      case Err(e) => free' == free && response == NotFreed(e)
  }

  /** The tables are canonical, in bounds, and free pages are managed ones. */
  ghost predicate Tables(managed: seq<Extent>, free: seq<Extent>) {
    && Canonical(managed) && |managed| <= MAX_EXTENTS
    && Canonical(free) && |free| <= MAX_EXTENTS
    && Pages(free) <= Pages(managed)
  }

  lemma AllocateRefines(managed: seq<Extent>, free: seq<Extent>)
    requires Tables(managed, free)
    ensures var (free', response) := TableStep(managed, free, AllocateOp);
            Tables(managed, free') && SetStep(Pages(managed), Pages(free), AllocateOp, Pages(free'), response)
  {
    hide Pages, Canonical;
    AllocateTakesLeast(free);
  }

  lemma ReturnRefines(managed: seq<Extent>, free: seq<Extent>, frame: u64)
    requires Tables(managed, free)
    ensures var (free', response) := TableStep(managed, free, FreeOp(frame));
            Tables(managed, free') && SetStep(Pages(managed), Pages(free), FreeOp(frame), Pages(free'), response)
  {
    hide Pages, Canonical, FreeFrame, RunStarts, AllocateFirst;
    FreeRefinesSet(managed, free, frame);
  }

  /** Each operation on the tables is that operation on the sets, and keeps the tables canonical. */
  lemma StepRefines(managed: seq<Extent>, free: seq<Extent>, op: Op)
    requires Tables(managed, free)
    ensures var (free', response) := TableStep(managed, free, op);
            Tables(managed, free') && SetStep(Pages(managed), Pages(free), op, Pages(free'), response)
  {
    hide Tables, SetStep, TableStep, Pages, Canonical;
    match op {
      case AllocateOp => AllocateRefines(managed, free);
      case FreeOp(frame) => ReturnRefines(managed, free, frame);
    }
  }

  lemma StepKeepsCanonical(managed: seq<Extent>, free: seq<Extent>, op: Op)
    requires Canonical(free) && Canonical(managed) && |free| <= MAX_EXTENTS
    ensures Canonical(TableStep(managed, free, op).0) && |TableStep(managed, free, op).0| <= MAX_EXTENTS
  {
    hide Pages, Canonical, FreeFrame, RunStarts;
    match op {
      case AllocateOp => AllocateTakesLeast(free);
      case FreeOp(frame) => FreeRefinesSet(managed, free, frame);
    }
  }

  function RunTables(managed: seq<Extent>, free: seq<Extent>, ops: seq<Op>): (end: (seq<Extent>, seq<Response>))
    requires Canonical(free) && Canonical(managed) && |free| <= MAX_EXTENTS
    ensures Canonical(end.0) && |end.0| <= MAX_EXTENTS && |end.1| == |ops|
    decreases |ops|
  {
    if ops == [] then (free, [])
    else
      var k := |ops| - 1;
      var (prior, responses) := RunTables(managed, free, ops[..k]);
      StepKeepsCanonical(managed, prior, ops[k]);
      var (next, response) := TableStep(managed, prior, ops[k]);
      (next, responses + [response])
  }

  /** A run of the reference set machine with the given responses. */
  ghost predicate SetRun(managed: set<int>, free: set<int>, ops: seq<Op>, responses: seq<Response>, free': set<int>)
    requires |ops| == |responses|
    decreases |ops|
  {
    if ops == [] then free' == free
    else
      var k := |ops| - 1;
      exists mid :: SetRun(managed, free, ops[..k], responses[..k], mid)
                    && SetStep(managed, mid, ops[k], free', responses[k])
  }

  /** Over any sequence of operations the tables answer exactly as a set of pages would. */
  lemma {:induction false} RunRefinesSets(managed: seq<Extent>, free: seq<Extent>, ops: seq<Op>)
    requires Tables(managed, free)
    ensures var (end, responses) := RunTables(managed, free, ops);
            Tables(managed, end) && SetRun(Pages(managed), Pages(free), ops, responses, Pages(end))
    decreases |ops|
  {
    hide Pages, Canonical, FreeFrame, AllocateFirst, RunStarts, SetStep;
    if ops != [] {
      var k := |ops| - 1;
      RunRefinesSets(managed, free, ops[..k]);
      var (prior, before) := RunTables(managed, free, ops[..k]);
      var (end, responses) := RunTables(managed, free, ops);
      StepRefines(managed, prior, ops[k]);
      assert responses[..k] == before;
    }
  }

  /** The pages handed out and not yet given back, read off the responses alone. */
  function Outstanding(ops: seq<Op>, responses: seq<Response>): set<int>
    requires |ops| == |responses|
    decreases |ops|
  {
    if ops == [] then {}
    else
      var k := |ops| - 1;
      var prior := Outstanding(ops[..k], responses[..k]);
      match responses[k]
      case Allocated(frame) => prior + {frame / PAGE_SIZE}
      case Freed => if ops[k].FreeOp? then prior - {ops[k].frame / PAGE_SIZE} else prior
      case _ => prior
  }

  /**
   Conservation over any run from a fully free allocator: free and outstanding pages
   together are always exactly the managed ones, never both.
   */
  lemma {:induction false} FreePlusOutstandingIsManaged(managed: seq<Extent>, ops: seq<Op>)
    requires Canonical(managed) && |managed| <= MAX_EXTENTS
    ensures var (free, responses) := RunTables(managed, managed, ops);
            && |responses| == |ops|
            && Tables(managed, free)
            && Pages(free) + Outstanding(ops, responses) == Pages(managed)
            && Pages(free) !! Outstanding(ops, responses)
    decreases |ops|
  {
    hide Pages, Canonical, FreeFrame, AllocateFirst, RunStarts;
    if ops != [] {
      var k := |ops| - 1;
      FreePlusOutstandingIsManaged(managed, ops[..k]);
      var (prior, before) := RunTables(managed, managed, ops[..k]);
      var (free, responses) := RunTables(managed, managed, ops);
      StepRefines(managed, prior, ops[k]);
      assert responses[..k] == before;
    }
  }

  lemma LastOf(table: seq<Extent>, r: Region)
    ensures Continues(table, r) ==> table != []
  {
  }

  // The allocator itself ------------------------------------------------------------

  /** A list with an entry put in at `at` and the later ones one place up. */
  lemma Inserted(before: seq<Extent>, after: seq<Extent>, at: nat, extent: Extent)
    requires at <= |before| && |after| == |before| + 1 && after[at] == extent
    requires forall i :: 0 <= i < at ==> after[i] == before[i]
    requires forall i :: at < i < |after| ==> after[i] == before[i - 1]
    ensures after == before[..at] + [extent] + before[at..]
  {
  }

  class FrameAllocator {
    const managed: array<Extent>
    var managedLen: nat
    const free: array<Extent>
    var freeLen: nat

    ghost predicate Shape()
      reads this, free
    {
      && managed.Length == MAX_EXTENTS && free.Length == MAX_EXTENTS && managed != free
      && managedLen <= MAX_EXTENTS && freeLen <= MAX_EXTENTS
      && forall i :: 0 <= i < freeLen ==> free[i].pages >= 1
    }

    ghost function Managed(): seq<Extent>
      reads this, managed, free
      requires Shape()
    {
      managed[..managedLen]
    }

    ghost function Free(): seq<Extent>
      reads this, free
      requires Shape()
    {
      free[..freeLen]
    }

    ghost predicate Valid()
      reads this, managed, free
    {
      Shape() && Tables(Managed(), Free())
    }

    constructor ()
      ensures Valid() && Managed() == [] && Free() == [] && fresh(managed) && fresh(free)
    {
      managed := new Extent[MAX_EXTENTS](i => Extent(0, 0));
      free := new Extent[MAX_EXTENTS](i => Extent(0, 0));
      managedLen, freeLen := 0, 0;
    }

    /** Grow the last extent of both tables by `region`, or start a new one. */
    method AddExtent(region: Region)
      requires managed.Length == MAX_EXTENTS && free.Length == MAX_EXTENTS && managed != free
      requires managedLen == freeLen <= MAX_EXTENTS && managed[..managedLen] == free[..freeLen]
      requires Continues(managed[..managedLen], region) ==> managed[managedLen - 1].pages + region.pages <= U64_MAX
      requires |Extended(managed[..managedLen], region)| <= MAX_EXTENTS
      modifies this, managed, free
      ensures managedLen == freeLen <= MAX_EXTENTS && managed[..managedLen] == free[..freeLen]
      ensures managed[..managedLen] == old(Extended(managed[..managedLen], region))
    {
      var canMerge := managedLen != 0 && managed[managedLen - 1].End() == Some(region.start);
      if canMerge {
        var index := managedLen - 1;
        assert managed[index] == managed[..managedLen][index] == free[..freeLen][index] == free[index];
        managed[index] := Extent(managed[index].start, managed[index].pages + region.pages);
        free[index] := Extent(free[index].start, free[index].pages + region.pages);
        assert managed[..index] == old(managed[..managedLen])[..index];
        assert free[..index] == old(free[..freeLen])[..index];
      } else {
        managed[managedLen] := region.Span();
        free[freeLen] := region.Span();
        managedLen := managedLen + 1;
        freeLen := freeLen + 1;
      }
    }

    /** Fill both tables from checked regions. */
    method FillTables(regions: seq<Region>)
      requires managed.Length == MAX_EXTENTS && free.Length == MAX_EXTENTS && managed != free
      requires Sorted(regions) && |Fill(regions)| <= MAX_EXTENTS
      modifies this, managed, free
      ensures managedLen == freeLen <= MAX_EXTENTS
      ensures managed[..managedLen] == Fill(regions) && free[..freeLen] == Fill(regions)
    {
      hide Fill, Sorted, Extended, Continues, Below;
      managedLen := 0;
      freeLen := 0;
      var i := 0;
      EmptyFill(regions[..0]);
      while i < |regions|
        invariant 0 <= i <= |regions| && Sorted(regions[..i])
        invariant managedLen == freeLen <= MAX_EXTENTS
        invariant managed[..managedLen] == Fill(regions[..i]) && free[..freeLen] == Fill(regions[..i])
      {
        FillGrows(regions, i);
        FillMonotone(regions, i + 1);
        if regions[i].kind == MEMORY_USABLE {
          LastOf(managed[..managedLen], regions[i]);
          AddExtent(regions[i]);
        }
        i := i + 1;
      }
      assert regions[..i] == regions;
    }

    /** Replace the tables by the usable input ranges; a refusal changes nothing. */
    method Initialize(regions: seq<Region>) returns (r: Outcome<InitError>)
      requires managed.Length == MAX_EXTENTS && free.Length == MAX_EXTENTS && managed != free
      modifies this, managed, free
      ensures r.Pass? <==> Sorted(regions) && |RunStarts(UsablePages(regions))| <= MAX_EXTENTS
      ensures r.Pass? ==>
                && Valid() && Managed() == Fill(regions) && Free() == Fill(regions)
                && Pages(Managed()) == UsablePages(regions)
      ensures r.Fail? ==> unchanged(this) && unchanged(managed) && unchanged(free)
      ensures r.Fail? ==> exists i :: 0 <= i < |regions| && FailsAt(regions, i, r.error)
    {
      hide FailsAt, Fill, Sorted, Pages, RunStarts, UsablePages, Below;
      var count := ValidateAndCountExtents(regions);
      if Sorted(regions) { FillIsUsable(regions); }
      if count.Err? {
        return Fail(count.error);
      }
      FillTables(regions);
      return Pass;
    }

    /** Close the gap at `index` by shifting the later entries down. */
    method RemoveFreeExtent(index: nat)
      requires Shape() && index < freeLen
      modifies this`freeLen, free
      ensures Shape() && Free() == old(Free()[..index] + Free()[index + 1..])
    {
      var next := index + 1;
      while next < freeLen
        invariant index + 1 <= next <= freeLen == old(freeLen)
        invariant forall i :: 0 <= i < index ==> free[i] == old(free[i])
        invariant forall i :: index <= i < next - 1 ==> free[i] == old(free[i + 1])
        invariant forall i :: next <= i < freeLen ==> free[i] == old(free[i])
      {
        free[next - 1] := free[next];
        next := next + 1;
      }
      freeLen := freeLen - 1;
    }

    /** Take the lowest free frame. */
    method AllocateFrame() returns (r: Result<u64, AllocateError>)
      requires Shape()
      modifies this`freeLen, free
      ensures Shape()
      ensures match AllocateFirst(old(Free()))
              case Ok((frame, rest)) => r == Ok(frame) && Free() == rest
              case Err(e) => r == Err(e) && Free() == old(Free())
      ensures old(Valid()) ==> Valid()
    {
      ghost var before := Free();
      ghost var owned := Managed();
      if freeLen == 0 {
        return Err(Exhausted);
      }
      var frame := free[0].start;
      if free[0].pages == 1 {
        RemoveFreeExtent(0);
      } else {
        if frame + PAGE_SIZE > U64_MAX {
          return Err(InvariantOverflow);
        }
        free[0] := Extent(frame + PAGE_SIZE, free[0].pages - 1);
      }
      if Tables(owned, before) { StepRefines(owned, before, AllocateOp); }
      return Ok(frame);
    }

    /** Whether a table entry holds the frame: the source's `any` over the managed extents. */
    method ManagesFrame(frame: u64, frameEnd: u64) returns (found: bool)
      requires Shape()
      ensures found == Contained(Managed(), frame, frameEnd)
    {
      var i := 0;
      while i < managedLen
        invariant 0 <= i <= managedLen
        invariant forall k :: 0 <= k < i ==> !managed[k].ContainsFrame(frame, frameEnd)
      {
        if managed[i].ContainsFrame(frame, frameEnd) {
          assert Managed()[i].ContainsFrame(frame, frameEnd);
          return true;
        }
        i := i + 1;
      }
      return false;
    }

    /** Walk to the insertion point, watching for an extent that already holds the frame. */
    method FindInsertion(frame: u64, frameEnd: u64) returns (at: nat, duplicate: bool)
      requires Shape()
      ensures at == InsertionPoint(Free(), frame, 0) || duplicate
      ensures var stop := InsertionPoint(Free(), frame, 0);
              duplicate == Contained(Free()[..if stop < |Free()| then stop + 1 else stop], frame, frameEnd)
      ensures at <= freeLen
    {
      ghost var stop := InsertionPoint(Free(), frame, 0);
      ghost var scanned := Free()[..if stop < |Free()| then stop + 1 else stop];
      at, duplicate := 0, false;
      while at < freeLen && free[at].start < frame
        invariant 0 <= at <= stop <= freeLen
        invariant InsertionPoint(Free(), frame, at) == stop
        invariant forall k :: 0 <= k < at ==> !free[k].ContainsFrame(frame, frameEnd)
      {
        if free[at].ContainsFrame(frame, frameEnd) {
          assert scanned[at].ContainsFrame(frame, frameEnd);
          return at, true;
        }
        at := at + 1;
      }
      assert at == stop;
      if at < freeLen && free[at].ContainsFrame(frame, frameEnd) {
        assert scanned[at].ContainsFrame(frame, frameEnd);
        return at, true;
      }
    }

    /** Open a gap at `at` by shifting the later entries up, and put `extent` there. */
    method InsertFreeExtent(at: nat, extent: Extent)
      requires Shape() && at <= freeLen < MAX_EXTENTS && extent.pages >= 1
      modifies this`freeLen, free
      ensures Shape() && Free() == old(Free()[..at]) + [extent] + old(Free()[at..])
    {
      ghost var before := Free();
      var index := freeLen;
      while index > at
        invariant at <= index <= freeLen == old(freeLen)
        invariant forall i :: 0 <= i < index ==> free[i] == old(free[i])
        invariant forall i :: index < i <= freeLen ==> free[i] == old(free[i - 1])
      {
        free[index] := free[index - 1];
        index := index - 1;
      }
      free[at] := extent;
      freeLen := freeLen + 1;
      Inserted(before, Free(), at, extent);
    }

    /** Merge or insert one frame at its place. */
    method Join(frame: u64, at: nat) returns (r: Outcome<FreeError>)
      requires Shape() && at <= freeLen && frame + PAGE_SIZE <= U64_MAX
      modifies this`freeLen, free
      ensures Shape()
      ensures match InsertFrame(old(Free()), frame, at)
              case Ok(table) => r == Pass && Free() == table
              case Err(e) => r == Fail(e) && Free() == old(Free())
    {
      if at > 0 && free[at - 1].End().None? {
        return Fail(AddressOverflow);
      }
      var joinsLeft := at > 0 && free[at - 1].End().value == frame;
      var joinsRight := at < freeLen && free[at].start == frame + PAGE_SIZE;
      if joinsLeft && joinsRight {
        var merged := free[at - 1].pages + 1 + free[at].pages;
        if merged > U64_MAX {
          return Fail(AddressOverflow);
        }
        free[at - 1] := Extent(free[at - 1].start, merged);
        RemoveFreeExtent(at);
      } else if joinsLeft {
        var merged := free[at - 1].pages + 1;
        if merged > U64_MAX {
          return Fail(AddressOverflow);
        }
        free[at - 1] := Extent(free[at - 1].start, merged);
      } else if joinsRight {
        var merged := free[at].pages + 1;
        if merged > U64_MAX {
          return Fail(AddressOverflow);
        }
        free[at] := Extent(frame, merged);
      } else {
        if freeLen == MAX_EXTENTS {
          return Fail(CapacityExceeded);
        }
        InsertFreeExtent(at, Extent(frame, 1));
      }
      return Pass;
    }

    /** Give one frame back; every refusal leaves the tables as they were. */
    method ReturnFrame(frame: u64) returns (r: Outcome<FreeError>)
      requires Shape()
      modifies this`freeLen, free
      ensures Shape()
      ensures match FreeFrame(old(Managed()), old(Free()), frame)
              case Ok(table) => r == Pass && Free() == table
              case Err(e) => r == Fail(e) && Free() == old(Free())
      ensures old(Valid()) ==> Valid()
    {
      ghost var before := Free();
      ghost var owned := Managed();
      if frame % PAGE_SIZE != 0 {
        return Fail(Unaligned);
      }
      if frame + PAGE_SIZE > U64_MAX {
        return Fail(AddressOverflow);
      }
      var managedHere := ManagesFrame(frame, frame + PAGE_SIZE);
      if !managedHere {
        return Fail(Unmanaged);
      }
      var at, duplicate := FindInsertion(frame, frame + PAGE_SIZE);
      if duplicate {
        return Fail(Duplicate);
      }
      r := Join(frame, at);
      if Tables(owned, before) { StepRefines(owned, before, FreeOp(frame)); }
    }
  }
}
