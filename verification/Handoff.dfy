/**
 The kernel's check of the boot handoff: record shape, region list, and that nothing it
 still needs lies in memory it is about to hand out.
 */
module Handoff {
  import opened Words
  import opened Regions
  import opened ExtentFill

  const HANDOFF_BYTES: int := 88
  const HEADER_BYTES: int := 32
  const REGION_BYTES: int := 24

  datatype Header = Header(
    magic: string, abiMajor: u32, abiMinor: u32, headerSize: u32, handoffSize: u32, flags: u32, reserved: u64)

  const HANDOFF_MAGIC: string := "MAKOPA\0\0"

  datatype Framebuffer = Framebuffer(
    start: u64, bytes: u64, width: u32, height: u32, stride: u32, pixelFormat: u32, reserved: u64)

  const NO_FRAMEBUFFER: Framebuffer := Framebuffer(0, 0, 0, 0, 0, 0, 0)

  datatype BootHandoff = BootHandoff(
    header: Header, regionsAddress: u64, regionCount: u32, regionEntrySize: u32, framebuffer: Framebuffer)

  datatype ValidationError =
    | Magic | AbiMajor | AbiMinor | HeaderSize | HandoffSize | Flags | Reserved | HandoffAddress | RegionAddress
    | RegionCount | RegionEntrySize | RegionSlice | RegionZeroPages | RegionAlignment | RegionOverflow | RegionOrder
    | RegionOverlap | RegionKind | RegionAttributes | HandoffInUsableMemory | RegionArrayInUsableMemory
    | FramebufferFlag | FramebufferFields | FramebufferPixelFormat | FramebufferStride | FramebufferLength
    | FramebufferOverflow | FramebufferInUsableMemory

  predicate HasFramebuffer(h: BootHandoff) {
    h.header.flags % 2 == 1
  }

  function HeaderCheck(h: Header): Outcome<ValidationError> {
    if h.magic != HANDOFF_MAGIC then Fail(Magic)
    else if h.abiMajor != 1 then Fail(AbiMajor)
    else if h.abiMinor != 0 then Fail(AbiMinor)
    else if h.headerSize != HEADER_BYTES then Fail(HeaderSize)
    else if h.handoffSize != HANDOFF_BYTES then Fail(HandoffSize)
    else if h.flags > 1 then Fail(Flags)
    else if h.reserved != 0 then Fail(Reserved)
    else Pass
  }

  function FramebufferCheck(h: BootHandoff): Outcome<ValidationError> {
    var f := h.framebuffer;
    if !HasFramebuffer(h) then if f == NO_FRAMEBUFFER then Pass else Fail(FramebufferFlag)
    else if f.start == 0 || f.bytes == 0 || f.width == 0 || f.height == 0 || f.stride == 0 || f.reserved != 0 then
      Fail(FramebufferFields)
    else if f.pixelFormat != 1 && f.pixelFormat != 2 then Fail(FramebufferPixelFormat)
    else if f.stride < f.width then Fail(FramebufferStride)
    else if f.stride * f.height * 4 > U64_MAX then Fail(FramebufferOverflow)
    else if f.stride * f.height * 4 > f.bytes then Fail(FramebufferLength)
    else if f.start + f.bytes > U64_MAX then Fail(FramebufferOverflow)
    else Pass
  }

  function ShapeCheck(h: BootHandoff): Outcome<ValidationError> {
    var header := HeaderCheck(h.header);
    if header.Fail? then header
    else if h.regionCount == 0 || h.regionCount > MAX_MEMORY_REGIONS then Fail(RegionCount)
    else if h.regionsAddress == 0 || h.regionsAddress % 8 != 0 then Fail(RegionAddress)
    else if h.regionEntrySize != REGION_BYTES then Fail(RegionEntrySize)
    else if h.regionsAddress + h.regionCount * REGION_BYTES > U64_MAX then Fail(RegionOverflow)
    else FramebufferCheck(h)
  }

  /** The handoff names the same faults as the allocator's own check, under its own error type. */
  function AsValidation(e: InitError): ValidationError {
    match e
    case ZeroPages => RegionZeroPages
    case Misaligned => RegionAlignment
    case RangeOverflow => RegionOverflow
    case OutOfOrder => RegionOrder
    case Overlap => RegionOverlap
    case UnknownKind => RegionKind
    case Attributes => RegionAttributes
    case TooManyExtents => RegionCount
  }

  /** Some usable region shares a byte with [start, end). */
  predicate TouchesUsable(regions: seq<Region>, start: int, end: int) {
    exists i :: 0 <= i < |regions| && regions[i].kind == MEMORY_USABLE
                && start < ByteEnd(regions[i]) && regions[i].start < end
  }

  /** The region loop: the first fault in list order, or none. */
  method CheckRegions(regions: seq<Region>) returns (r: Outcome<ValidationError>)
    ensures r.Pass? <==> Sorted(regions)
    ensures r.Fail? ==>
              exists i :: 0 <= i < |regions| && RegionError(regions, i).Some?
                          && AsValidation(RegionError(regions, i).value) == r.error
                          && forall k :: 0 <= k < i ==> RegionError(regions, k).None?
  {
    var previousStart: Option<u64> := None;
    var previousEnd: Option<u64> := None;
    var i := 0;
    CleanIsSorted(regions);
    hide Sorted;
    while i < |regions|
      invariant 0 <= i <= |regions|
      invariant forall k :: 0 <= k < i ==> RegionError(regions, k).None?
      invariant previousStart == if i == 0 then None else Some(regions[i - 1].start)
      invariant previousEnd == if i == 0 then None else regions[i - 1].Span().End()
    {
      var region := regions[i];
      var end := region.Span().End();
      if i > 0 { assert RegionError(regions, i - 1).None?; }
      ghost var fault := RegionError(regions, i);
      if region.pages == 0 {
        return Fail(RegionZeroPages);
      }
      if region.start % PAGE_SIZE != 0 {
        return Fail(RegionAlignment);
      }
      if !KnownKind(region.kind) {
        return Fail(RegionKind);
      }
      if region.attributes != 0 {
        return Fail(RegionAttributes);
      }
      if end.None? {
        return Fail(RegionOverflow);
      }
      if previousStart.Some? && region.start < previousStart.value {
        return Fail(RegionOrder);
      }
      if previousEnd.Some? && region.start < previousEnd.value {
        return Fail(RegionOverlap);
      }
      previousStart, previousEnd := Some(region.start), end;
      i := i + 1;
    }
    return Pass;
  }

  method OverlapsUsable(start: u64, end: u64, regions: seq<Region>) returns (r: Result<bool, ValidationError>)
    ensures Sorted(regions) ==> r == Ok(TouchesUsable(regions, start, end))
    ensures r.Err? ==> r.error == RegionOverflow
  {
    var i := 0;
    while i < |regions|
      invariant 0 <= i <= |regions|
      invariant forall k :: 0 <= k < i && regions[k].kind == MEMORY_USABLE ==>
                  !(start < ByteEnd(regions[k]) && regions[k].start < end)
    {
      if regions[i].kind == MEMORY_USABLE {
        if regions[i].Span().End().None? {
          assert !regions[i].WellFormed();
          return Err(RegionOverflow);
        }
        if start < regions[i].Span().End().value && regions[i].start < end {
          assert start < ByteEnd(regions[i]) && regions[i].start < end;
          return Ok(true);
        }
      }
      i := i + 1;
    }
    return Ok(false);
  }

  predicate AddressFits(address: u64) {
    address != 0 && address % 8 == 0 && address + HANDOFF_BYTES <= U64_MAX
  }

  predicate SliceFits(h: BootHandoff, sliceAddress: u64, regions: seq<Region>) {
    |regions| == h.regionCount && h.regionsAddress == sliceAddress
  }

  /** Everything the kernel relies on after a successful check. */
  predicate Sound(h: BootHandoff, address: u64, sliceAddress: u64, regions: seq<Region>) {
    && ShapeCheck(h).Pass?
    && address != 0 && address % 8 == 0 && address + HANDOFF_BYTES <= U64_MAX
    && |regions| == h.regionCount && h.regionsAddress == sliceAddress
    && Sorted(regions)
    && !TouchesUsable(regions, address, address + HANDOFF_BYTES)
    && !TouchesUsable(regions, h.regionsAddress, h.regionsAddress + |regions| * REGION_BYTES)
    && (HasFramebuffer(h) ==>
          !TouchesUsable(regions, h.framebuffer.start, h.framebuffer.start + h.framebuffer.bytes))
  }

  method ValidateHandoff(h: BootHandoff, address: u64, sliceAddress: u64, regions: seq<Region>)
    returns (r: Outcome<ValidationError>)
    ensures r.Pass? <==> Sound(h, address, sliceAddress, regions)
    ensures ShapeCheck(h).Fail? ==> r == ShapeCheck(h)
    ensures ShapeCheck(h).Pass? && !AddressFits(address) ==> r == Fail(HandoffAddress)
    ensures ShapeCheck(h).Pass? && AddressFits(address) && !SliceFits(h, sliceAddress, regions)
            ==> r == Fail(RegionSlice)
    ensures ShapeCheck(h).Pass? && AddressFits(address) && SliceFits(h, sliceAddress, regions) && !Sorted(regions) ==>
              && r.Fail?
              && exists i :: 0 <= i < |regions| && RegionError(regions, i).Some?
                             && AsValidation(RegionError(regions, i).value) == r.error
                             && forall k :: 0 <= k < i ==> RegionError(regions, k).None?
    ensures r == Fail(HandoffInUsableMemory) ==> TouchesUsable(regions, address, address + HANDOFF_BYTES)
    ensures r == Fail(RegionArrayInUsableMemory) ==>
              TouchesUsable(regions, sliceAddress, sliceAddress + |regions| * REGION_BYTES)
    ensures r == Fail(FramebufferInUsableMemory) ==>
              TouchesUsable(regions, h.framebuffer.start, h.framebuffer.start + h.framebuffer.bytes)
  {
    hide Sorted, TouchesUsable;
    var shape := ShapeCheck(h);
    if shape.Fail? {
      return shape;
    }
    if address == 0 || address % 8 != 0 || address + HANDOFF_BYTES > U64_MAX {
      return Fail(HandoffAddress);
    }
    if |regions| != h.regionCount || h.regionsAddress != sliceAddress {
      return Fail(RegionSlice);
    }
    var listed := CheckRegions(regions);
    if listed.Fail? {
      return listed;
    }
    var self := OverlapsUsable(address, address + HANDOFF_BYTES, regions);
    if self != Ok(false) {
      return Fail(match self case Err(e) => e case Ok(_) => HandoffInUsableMemory);
    }
    var table := OverlapsUsable(h.regionsAddress, h.regionsAddress + |regions| * REGION_BYTES, regions);
    if table != Ok(false) {
      return Fail(match table case Err(e) => e case Ok(_) => RegionArrayInUsableMemory);
    }
    if HasFramebuffer(h) {
      var screen := OverlapsUsable(h.framebuffer.start, h.framebuffer.start + h.framebuffer.bytes, regions);
      if screen != Ok(false) {
        return Fail(match screen case Err(e) => e case Ok(_) => FramebufferInUsableMemory);
      }
    }
    return Pass;
  }
}
