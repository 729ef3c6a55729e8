/**
 The boot memory pipeline end to end: image and firmware map in, frame allocator out.
 No frame it ever hands out overlaps anything the kernel still needs.
 */
module Boot {
  import opened Words
  import opened Extents
  import opened Regions
  import opened ExtentFill
  import opened FrameAllocation
  import N = Normalize
  import opened NormalizeMeaning
  import opened KernelImage
  import H = Handoff

  // The loader's overrides ------------------------------------------------------------------

  function SegmentOverride(s: Segment): N.Override {
    N.Override(Region(s.start, s.PageCount(), MEMORY_RESERVED, 0), true)
  }

  function SegmentOverrides(segments: seq<Segment>): seq<N.Override> {
    seq(|segments|, i requires 0 <= i < |segments| => SegmentOverride(segments[i]))
  }

  lemma ExtendOverrides(segments: seq<Segment>, n: nat)
    requires n < |segments|
    ensures SegmentOverrides(segments[..n + 1]) == SegmentOverrides(segments[..n]) + [SegmentOverride(segments[n])]
  {
  }

  lemma NoOverrides(segments: seq<Segment>)
    ensures SegmentOverrides(segments[..0]) == []
  {
  }

  /** One required override per load segment; refused past the segment limit. */
  method CollectKernelOverrides(image: Image) returns (r: Option<seq<N.Override>>)
    requires HeadersParse(image, 0, image.tableCount)
    ensures var loads := Loads(image, image.tableCount);
            if |loads| <= MAXIMUM_LOAD_SEGMENTS then r == Some(SegmentOverrides(loads)) else r.None?
  {
    hide HeadersParse, SegmentOverrides, Loads;
    var segments := new Segments(image);
    ghost var loads := Loads(image, image.tableCount);
    var overrides: seq<N.Override> := [];
    NoOverrides(loads);
    var s := segments.Next();
    while s.Some?
      invariant segments.Valid() && segments.image == image && fresh(segments)
      invariant |overrides| <= |loads| && |overrides| <= MAXIMUM_LOAD_SEGMENTS
      invariant overrides == SegmentOverrides(loads[..|overrides|])
      invariant s.Some? ==> |overrides| < |loads| && s.value == loads[|overrides|]
                            && segments.Remaining() == loads[|overrides| + 1..]
      invariant s.None? ==> |overrides| == |loads|
      decreases |loads| - |overrides|
    {
      if |overrides| == MAXIMUM_LOAD_SEGMENTS {
        return None;
      }
      ExtendOverrides(loads, |overrides|);
      overrides := overrides + [SegmentOverride(s.value)];
      s := segments.Next();
    }
    assert loads[..|overrides|] == loads;
    return Some(overrides);
  }

  function RoundDown(x: nat): nat {
    x - x % PAGE_SIZE
  }

  /** The page-rounded framebuffer as a device override, absent when there is none. */
  function FramebufferOverrides(f: H.Framebuffer): Option<seq<N.Override>> {
    if f == H.NO_FRAMEBUFFER then Some([])
    else if f.start + f.bytes + (PAGE_SIZE - 1) > U64_MAX then None
    else
      var start := RoundDown(f.start);
      var end := RoundDown(f.start + f.bytes + (PAGE_SIZE - 1));
      Some([N.Override(Region(start, (end - start) / PAGE_SIZE, MEMORY_MMIO, 0), false)])
  }

  /** Any order of the kernel's and the framebuffer's overrides; the loader sorts them by start. */
  predicate LoaderOverrides(image: Image, f: H.Framebuffer, overrides: seq<N.Override>) {
    FramebufferOverrides(f).Some?
    && multiset(overrides)
       == multiset(SegmentOverrides(Loads(image, image.tableCount)) + FramebufferOverrides(f).value)
  }

  lemma {:induction false} OverridePresent(image: Image, f: H.Framebuffer, overrides: seq<N.Override>, o: N.Override)
    requires LoaderOverrides(image, f, overrides)
    requires o in SegmentOverrides(Loads(image, image.tableCount)) + FramebufferOverrides(f).value
    ensures exists j :: 0 <= j < |overrides| && overrides[j] == o
  {
    assert o in multiset(overrides);
  }

  // Pages the overrides protect -----------------------------------------------------------------

  /** An override of another kind keeps its pages out of the usable set. */
  lemma OverriddenNotUsable(sources: seq<Region>, overrides: seq<N.Override>, capacity: nat, j: nat, page: int)
    requires Plain(sources) && Plain(N.OverrideRegions(overrides)) && j < |overrides|
    requires N.Normalized(sources, overrides, capacity).Ok?
    requires overrides[j].region.kind != MEMORY_USABLE && Spans(overrides[j].region, page * PAGE_SIZE)
    ensures page !in UsablePages(N.Normalized(sources, overrides, capacity).value)
  {
    hide N.Normalized, WantedRuns, Inside;
    NormalizeExact(sources, overrides, capacity);
    var out := N.Normalized(sources, overrides, capacity).value;
    var rs := N.OverrideRegions(overrides);
    PageKind(out, page, MEMORY_USABLE);
    assert Spans(rs[j], page * PAGE_SIZE);
    if At(rs, page * PAGE_SIZE, MEMORY_USABLE) {
      AtUnique(rs, page * PAGE_SIZE, MEMORY_USABLE, rs[j].kind);
    }
  }

  /** Normalised output always passes the region checks of the handoff and the allocator. */
  lemma NormalizedPassesChecks(sources: seq<Region>, overrides: seq<N.Override>, capacity: nat)
    requires Plain(sources) && Plain(N.OverrideRegions(overrides)) && N.Normalized(sources, overrides, capacity).Ok?
    ensures var out := N.Normalized(sources, overrides, capacity).value;
            Sorted(out) && 1 <= |out| <= MAX_MEMORY_REGIONS
  {
    hide WantedRuns, Inside, Wanted;
    NormalizeExact(sources, overrides, capacity);
    var out := N.Normalized(sources, overrides, capacity).value;
    OrderedIsSorted(out);
  }

  lemma {:induction false} FillNoLonger(regions: seq<Region>)
    requires Sorted(regions)
    ensures |Fill(regions)| <= |regions|
    decreases |regions|
  {
    if regions != [] {
      var k := |regions| - 1;
      FillGrows(regions, k);
      assert regions[..k + 1] == regions;
      FillNoLonger(regions[..k]);
    }
  }

  /** A region of another kind takes no table entry. */
  lemma {:induction false} FillSkips(regions: seq<Region>, i: nat)
    requires Sorted(regions) && i < |regions| && regions[i].kind != MEMORY_USABLE
    ensures |Fill(regions)| < |regions|
    decreases |regions|
  {
    var k := |regions| - 1;
    FillGrows(regions, k);
    assert regions[..k + 1] == regions;
    if i < k { FillSkips(regions[..k], i); } else { FillNoLonger(regions[..k]); }
  }

  /** After the handoff check the allocator's own check cannot fail. */
  lemma InitializeCannotFail(h: H.BootHandoff, address: u64, slice: u64, regions: seq<Region>)
    requires H.Sound(h, address, slice, regions)
    ensures Sorted(regions) && |RunStarts(UsablePages(regions))| <= MAX_EXTENTS
  {
    hide Sorted, RunStarts, H.TouchesUsable;
    FillNoLonger(regions);
    FillIsUsable(regions);
  }

  // Frames ---------------------------------------------------------------------------------------

  lemma {:induction false} ResponseIsStep(managed: seq<Extent>, free: seq<Extent>, ops: seq<Op>, k: nat)
    requires Canonical(free) && Canonical(managed) && |free| <= MAX_EXTENTS && k < |ops|
    ensures var prior := RunTables(managed, free, ops[..k]).0;
            && (prior != [] ==> prior[0].pages >= 1)
            && RunTables(managed, free, ops).1[k] == TableStep(managed, prior, ops[k]).1
    decreases |ops|
  {
    hide Canonical, AllocateFirst, FreeFrame;
    var prior := RunTables(managed, free, ops[..k]).0;
    if prior != [] { HeadNotEmpty(prior); }
    var n := |ops| - 1;
    if k < n {
      ResponseIsStep(managed, free, ops[..n], k);
      assert ops[..n][..k] == ops[..k];
    }
  }

  /** Every frame handed out in any run is a whole usable page. */
  lemma {:induction false} AllocatedIsUsable(regions: seq<Region>, ops: seq<Op>, k: nat)
    requires Sorted(regions) && |Fill(regions)| <= MAX_EXTENTS && k < |ops|
    requires RunTables(Fill(regions), Fill(regions), ops).1[k].Allocated?
    ensures var frame := RunTables(Fill(regions), Fill(regions), ops).1[k].frame;
            frame % PAGE_SIZE == 0 && frame / PAGE_SIZE in UsablePages(regions)
  {
    hide Pages, Fill, AllocateFirst, FreeFrame, UsablePages, Sorted, RunStarts;
    var managed := Fill(regions);
    FillIsUsable(regions);
    ResponseIsStep(managed, managed, ops, k);
    FreePlusOutstandingIsManaged(managed, ops[..k]);
    StepRefines(managed, RunTables(managed, managed, ops[..k]).0, ops[k]);
  }

  /** A usable page shares no byte with a range the handoff check cleared. */
  lemma UsableIsClear(regions: seq<Region>, page: int, start: int, end: int)
    requires Sorted(regions) && page in UsablePages(regions) && !H.TouchesUsable(regions, start, end)
    ensures end <= page * PAGE_SIZE || (page + 1) * PAGE_SIZE <= start || end <= start
  {
    var i :| 0 <= i < |regions| && regions[i].kind == MEMORY_USABLE && regions[i].Covers(page);
    assert regions[i].WellFormed();
    assert !(start < ByteEnd(regions[i]) && regions[i].start < end);
  }

  /** [frame, frame + one page) and [start, end) share no byte. */
  predicate Apart(frame: int, start: int, end: int) {
    end <= frame || frame + PAGE_SIZE <= start || end <= start
  }

  lemma {:induction false} SegmentPageReserved(
    image: Image, f: H.Framebuffer, sources: seq<Region>, overrides: seq<N.Override>, capacity: nat, s: Segment,
      page: int)
    requires LoaderOverrides(image, f, overrides) && s in Loads(image, image.tableCount)
    requires Plain(sources) && Plain(N.OverrideRegions(overrides)) && N.Normalized(sources, overrides, capacity).Ok?
    requires s.start <= page * PAGE_SIZE < s.start + s.PageCount() * PAGE_SIZE
    ensures page !in UsablePages(N.Normalized(sources, overrides, capacity).value)
  {
    hide N.Normalized, UsablePages, Plain;
    var loads := Loads(image, image.tableCount);
    var i :| 0 <= i < |loads| && loads[i] == s;
    assert SegmentOverrides(loads)[i] == SegmentOverride(s);
    OverridePresent(image, f, overrides, SegmentOverride(s));
    var j :| 0 <= j < |overrides| && overrides[j] == SegmentOverride(s);
    OverriddenNotUsable(sources, overrides, capacity, j, page);
  }

  /** A usable page clears the page-rounded range of an aligned reserved stretch. */
  lemma PageClearsSegment(s: Segment, page: int)
    requires s.memorySize > 0 && s.start % PAGE_SIZE == 0
    requires !(s.start <= page * PAGE_SIZE < s.start + s.PageCount() * PAGE_SIZE)
    ensures Apart(page * PAGE_SIZE, s.start, s.start + s.PageCount() * PAGE_SIZE)
    ensures s.End() <= s.start + s.PageCount() * PAGE_SIZE
  {
  }

  lemma {:induction false} UsableClearsSegment(
    image: Image, f: H.Framebuffer, sources: seq<Region>, overrides: seq<N.Override>, capacity: nat, s: Segment,
      page: int)
    requires LoaderOverrides(image, f, overrides) && s in Loads(image, image.tableCount)
    requires Plain(sources) && Plain(N.OverrideRegions(overrides)) && N.Normalized(sources, overrides, capacity).Ok?
    requires page in UsablePages(N.Normalized(sources, overrides, capacity).value)
    ensures Apart(page * PAGE_SIZE, s.start, s.start + s.PageCount() * PAGE_SIZE)
  {
    hide N.Normalized, UsablePages, Plain, LoaderOverrides, Loads, Apart;
    LoadIsSound(image, image.tableCount, s);
    if s.start <= page * PAGE_SIZE < s.start + s.PageCount() * PAGE_SIZE {
      SegmentPageReserved(image, f, sources, overrides, capacity, s, page);
    } else {
      PageClearsSegment(s, page);
    }
  }

  /** A usable page overlaps nothing a sound handoff still refers to. */
  lemma UsableClearsHandoff(h: H.BootHandoff, address: u64, slice: u64, out: seq<Region>, page: int)
    requires H.Sound(h, address, slice, out) && page in UsablePages(out)
    ensures Apart(page * PAGE_SIZE, address, address + H.HANDOFF_BYTES)
    ensures Apart(page * PAGE_SIZE, slice, slice + |out| * H.REGION_BYTES)
    ensures H.HasFramebuffer(h) ==>
              Apart(page * PAGE_SIZE, h.framebuffer.start, h.framebuffer.start + h.framebuffer.bytes)
  {
    hide UsablePages, Sorted, H.TouchesUsable, H.ShapeCheck;
    UsableIsClear(out, page, address, address + H.HANDOFF_BYTES);
    UsableIsClear(out, page, slice, slice + |out| * H.REGION_BYTES);
    if H.HasFramebuffer(h) {
      UsableIsClear(out, page, h.framebuffer.start, h.framebuffer.start + h.framebuffer.bytes);
    }
  }

  /** A page of a load segment appears in the normalised map, reserved. */
  lemma {:induction false} SegmentIsReserved(
    image: Image, f: H.Framebuffer, sources: seq<Region>, overrides: seq<N.Override>, capacity: nat, s: Segment)
      returns (i: nat)
    requires LoaderOverrides(image, f, overrides) && s in Loads(image, image.tableCount)
    requires Plain(sources) && Plain(N.OverrideRegions(overrides)) && N.Normalized(sources, overrides, capacity).Ok?
    ensures var out := N.Normalized(sources, overrides, capacity).value;
            i < |out| && out[i].kind == MEMORY_RESERVED
  {
    hide N.Normalized, WantedRuns, Plain, Loads, Merged;
    LoadIsSound(image, image.tableCount, s);
    var loads := Loads(image, image.tableCount);
    var n :| 0 <= n < |loads| && loads[n] == s;
    assert SegmentOverrides(loads)[n] == SegmentOverride(s);
    OverridePresent(image, f, overrides, SegmentOverride(s));
    var j :| 0 <= j < |overrides| && overrides[j] == SegmentOverride(s);
    NormalizeExact(sources, overrides, capacity);
    var out, rs := N.Normalized(sources, overrides, capacity).value, N.OverrideRegions(overrides);
    assert rs[j] == overrides[j].region;
    PageClearsSegment(s, s.start / PAGE_SIZE + s.PageCount());
    assert Inside(sources, overrides[j]);
    assert CoveredAt(sources, s.start);
    assert Spans(rs[j], s.start) && At(rs, s.start, MEMORY_RESERVED);
    assert At(out, s.start, MEMORY_RESERVED);
    i :| 0 <= i < |out| && out[i].kind == MEMORY_RESERVED;
  }

  /** The kernel's own pages cost the allocator an entry, so its table never starts full. */
  lemma {:induction false} SpareEntry(
    image: Image, sources: seq<Region>, overrides: seq<N.Override>, capacity: nat,
    h: H.BootHandoff, address: u64, slice: u64)
    requires Accepted(image) && LoaderOverrides(image, h.framebuffer, overrides)
    requires Plain(sources) && Plain(N.OverrideRegions(overrides)) && N.Normalized(sources, overrides, capacity).Ok?
    requires H.Sound(h, address, slice, N.Normalized(sources, overrides, capacity).value)
    ensures var out := N.Normalized(sources, overrides, capacity).value;
            Sorted(out) && |Fill(out)| < MAX_EXTENTS
  {
    hide N.Normalized, Plain, LoaderOverrides, Fill, Loads, RunStarts, Sorted, H.ShapeCheck, H.TouchesUsable;
    var out := N.Normalized(sources, overrides, capacity).value;
    NormalizedPassesChecks(sources, overrides, capacity);
    var loads := Loads(image, image.tableCount);
    var e :| 0 <= e < |loads| && HoldsEntry(image, loads[e]);
    var i := SegmentIsReserved(image, h.framebuffer, sources, overrides, capacity, loads[e]);
    FillSkips(out, i);
  }

  /**
   For every accepted image, firmware map, framebuffer and sequence of allocator calls:
   a frame that is handed out overlaps no page-rounded kernel segment, nor the handoff,
   nor the region array, nor the framebuffer.
   */
  lemma {:induction false} FramesNeverOverlap(
    image: Image, sources: seq<Region>, overrides: seq<N.Override>, capacity: nat,
    h: H.BootHandoff, address: u64, slice: u64, ops: seq<Op>, k: nat)
    requires LoaderOverrides(image, h.framebuffer, overrides)
    requires Plain(sources) && Plain(N.OverrideRegions(overrides)) && N.Normalized(sources, overrides, capacity).Ok?
    requires H.Sound(h, address, slice, N.Normalized(sources, overrides, capacity).value)
    requires k < |ops|
    ensures var out := N.Normalized(sources, overrides, capacity).value;
            && Sorted(out) && |Fill(out)| <= MAX_EXTENTS
            && var response := RunTables(Fill(out), Fill(out), ops).1[k];
            response.Allocated? ==>
              && (forall s :: s in Loads(image, image.tableCount) ==>
                    Apart(response.frame, s.start, s.start + s.PageCount() * PAGE_SIZE))
              && Apart(response.frame, address, address + H.HANDOFF_BYTES)
              && Apart(response.frame, slice, slice + |out| * H.REGION_BYTES)
              && (H.HasFramebuffer(h) ==>
                    Apart(response.frame, h.framebuffer.start, h.framebuffer.start + h.framebuffer.bytes))
  {
    hide N.Normalized, UsablePages, Plain, LoaderOverrides, Fill, Sorted, H.Sound, Loads, Apart, RunTables,
      RunStarts, Pages, Canonical;
    var out := N.Normalized(sources, overrides, capacity).value;
    InitializeCannotFail(h, address, slice, out);
    FillIsUsable(out);
    var response := RunTables(Fill(out), Fill(out), ops).1[k];
    if response.Allocated? {
      AllocatedIsUsable(out, ops, k);
      var page := response.frame / PAGE_SIZE;
      assert response.frame == page * PAGE_SIZE;
      UsableClearsHandoff(h, address, slice, out, page);
      forall s | s in Loads(image, image.tableCount)
        ensures Apart(response.frame, s.start, s.start + s.PageCount() * PAGE_SIZE)
      {
        UsableClearsSegment(image, h.framebuffer, sources, overrides, capacity, s, page);
      }
    }
  }
}
