/**
 The boot handoff record in plain numbers: which records the kernel takes, and which
 complaint it makes of any other.
 */
module HandoffMeaning {
  import opened Words
  import opened Regions
  import opened ExtentFill
  import opened Handoff

  /** The one header the kernel takes, up to its framebuffer flag. */
  lemma HeaderExactly(h: Header)
    ensures HeaderCheck(h).Pass?
            <==> (h.flags == 0 || h.flags == 1) && h == Header("MAKOPA\0\0", 1, 0, 32, 88, h.flags, 0)
    ensures HeaderCheck(h) == Fail(Magic) <==> h.magic != "MAKOPA\0\0"
    ensures HeaderCheck(h) == Fail(AbiMajor) <==> h.magic == "MAKOPA\0\0" && h.abiMajor != 1
    ensures HeaderCheck(h) == Fail(AbiMinor) <==> h.magic == "MAKOPA\0\0" && h.abiMajor == 1 && h.abiMinor != 0
    ensures HeaderCheck(h) == Fail(HeaderSize) <==>
              h.magic == "MAKOPA\0\0" && h.abiMajor == 1 && h.abiMinor == 0 && h.headerSize != 32
    ensures HeaderCheck(h) == Fail(HandoffSize) <==>
              && h.magic == "MAKOPA\0\0" && h.abiMajor == 1 && h.abiMinor == 0 && h.headerSize == 32
              && h.handoffSize != 88
    ensures HeaderCheck(h) == Fail(Flags) <==>
              && h.magic == "MAKOPA\0\0" && h.abiMajor == 1 && h.abiMinor == 0 && h.headerSize == 32
              && h.handoffSize == 88 && h.flags > 1
    ensures HeaderCheck(h) == Fail(Reserved) <==>
              h.reserved != 0 && HeaderCheck(h.(reserved := 0)).Pass?
  {
  }

  /** A framebuffer that is fully described, wide enough for its rows and large enough for its picture. */
  predicate Screen(f: Framebuffer) {
    && f.start > 0 && f.bytes > 0 && f.width > 0 && f.height > 0 && f.reserved == 0
    && (f.pixelFormat == 1 || f.pixelFormat == 2)
    && f.width <= f.stride && 4 * f.stride * f.height <= f.bytes
    && f.start + f.bytes < 0x1_0000_0000_0000_0000
  }

  lemma PictureSize(f: Framebuffer)
    ensures f.stride * f.height * 4 == 4 * f.stride * f.height
  {
  }

  /** With the flag a sound screen, without it nothing at all. */
  lemma FramebufferExactly(h: BootHandoff)
    requires h.header.flags <= 1
    ensures FramebufferCheck(h).Pass? <==>
              if h.header.flags == 1 then Screen(h.framebuffer) else h.framebuffer == Framebuffer(0, 0, 0, 0, 0, 0, 0)
    ensures FramebufferCheck(h) == Fail(FramebufferFlag) <==>
              h.header.flags == 0 && h.framebuffer != Framebuffer(0, 0, 0, 0, 0, 0, 0)
    ensures var f := h.framebuffer;
            h.header.flags == 1 ==>
              var missing := f.start == 0 || f.bytes == 0 || f.width == 0 || f.height == 0 || f.stride == 0
                             || f.reserved != 0;
              var format := f.pixelFormat == 1 || f.pixelFormat == 2;
              && (FramebufferCheck(h) == Fail(FramebufferFields) <==> missing)
              && (FramebufferCheck(h) == Fail(FramebufferPixelFormat) <==> !missing && !format)
              && (FramebufferCheck(h) == Fail(FramebufferStride) <==> !missing && format && f.stride < f.width)
              && (FramebufferCheck(h) == Fail(FramebufferLength) <==>
                    && !missing && format && f.stride >= f.width && 4 * f.stride * f.height > f.bytes
                    && 4 * f.stride * f.height < 0x1_0000_0000_0000_0000)
  {
    PictureSize(h.framebuffer);
  }

  /** The rest of the record: between one and 1024 regions of 24 bytes at an aligned address inside the space. */
  lemma ShapeExactly(h: BootHandoff)
    ensures ShapeCheck(h).Pass? <==>
              && HeaderCheck(h.header).Pass? && 1 <= h.regionCount <= 1024 && h.regionsAddress > 0
              && h.regionsAddress % 8 == 0 && h.regionEntrySize == 24
              && h.regionsAddress + 24 * h.regionCount < 0x1_0000_0000_0000_0000 && FramebufferCheck(h).Pass?
    ensures HeaderCheck(h.header).Fail? ==> ShapeCheck(h) == HeaderCheck(h.header)
    ensures HeaderCheck(h.header).Pass? ==>
              var counted, placed := 1 <= h.regionCount <= 1024, h.regionsAddress > 0 && h.regionsAddress % 8 == 0;
              && (ShapeCheck(h) == Fail(RegionCount) <==> !counted)
              && (ShapeCheck(h) == Fail(RegionAddress) <==> counted && !placed)
              && (ShapeCheck(h) == Fail(RegionEntrySize) <==> counted && placed && h.regionEntrySize != 24)
              && (ShapeCheck(h) == Fail(RegionOverflow) <==>
                    && counted && placed && h.regionEntrySize == 24
                    && h.regionsAddress + 24 * h.regionCount >= 0x1_0000_0000_0000_0000)
  {
    hide HeaderCheck;
    FramebufferComplains(h);
  }

  lemma FramebufferComplains(h: BootHandoff)
    ensures FramebufferCheck(h).Fail? ==>
              FramebufferCheck(h).error in {FramebufferFlag, FramebufferFields, FramebufferPixelFormat,
                                            FramebufferStride, FramebufferOverflow, FramebufferLength}
  {
  }

  // Regions ----------------------------------------------------------------------------------------

  /** What is wrong with one region and its predecessor, looked at in this order. */
  lemma RegionErrorExactly(regions: seq<Region>, i: nat)
    requires i < |regions|
    ensures var r, e := regions[i], RegionError(regions, i);
            var end := r.start + 4096 * r.pages;
            && (e == Some(ZeroPages) <==> r.pages == 0)
            && (e == Some(Misaligned) <==> r.pages > 0 && r.start % 4096 != 0)
            && (e == Some(UnknownKind) <==> r.pages > 0 && r.start % 4096 == 0 && r.kind > 5)
            && (e == Some(Attributes) <==> r.pages > 0 && r.start % 4096 == 0 && r.kind <= 5 && r.attributes != 0)
            && (e == Some(RangeOverflow) <==>
                  && r.pages > 0 && r.start % 4096 == 0 && r.kind <= 5 && r.attributes == 0
                  && end >= 0x1_0000_0000_0000_0000)
            && (e in {Some(OutOfOrder), Some(Overlap), None} <==>
                  && r.pages > 0 && r.start % 4096 == 0 && r.kind <= 5 && r.attributes == 0
                  && end < 0x1_0000_0000_0000_0000)
            && (e == Some(OutOfOrder) ==> i > 0 && r.start < regions[i - 1].start)
            && (e == Some(Overlap) ==>
                  && i > 0
                  && regions[i - 1].start <= r.start < regions[i - 1].start + 4096 * regions[i - 1].pages)
            && (e == None ==> i == 0 || (&& regions[i - 1].start <= r.start
                                         && regions[i - 1].start + 4096 * regions[i - 1].pages <= r.start))
  {
  }
}
