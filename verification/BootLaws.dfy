/**
 Where the kernel's own pages and the screen end up in the memory map it boots with,
 and what the bootstrap tables let the processor do.
 */
module BootLaws {
  import opened Words
  import opened PageTables
  import opened Regions
  import N = Normalize
  import opened NormalizeMeaning
  import opened KernelImage
  import H = Handoff
  import opened Boot
  import B = Bootstrap

  // The memory map ---------------------------------------------------------------------------------

  /** An override that is there decides the kind of every address it covers. */
  lemma OverrideDecides(sources: seq<Region>, overrides: seq<N.Override>, capacity: nat, j: nat, a: int)
    requires Plain(sources) && Plain(N.OverrideRegions(overrides)) && N.Normalized(sources, overrides, capacity).Ok?
    requires j < |overrides| && Spans(overrides[j].region, a)
    ensures overrides[j].required ==> CoveredAt(sources, a)
    ensures CoveredAt(sources, a) ==> At(N.Normalized(sources, overrides, capacity).value, a, overrides[j].region.kind)
  {
    hide N.Normalized, WantedRuns, Merged, Plain;
    NormalizeExact(sources, overrides, capacity);
    var rs := N.OverrideRegions(overrides);
    assert Inside(sources, overrides[j]);
    assert Spans(rs[j], a) && rs[j].kind == overrides[j].region.kind;
    assert CoveredAt(rs, a) && At(rs, a, rs[j].kind);
  }

  /** Every byte of the kernel's pages lies in memory the firmware described, and is kept as kind 0. */
  lemma {:induction false} KernelIsKept(image: Image, f: H.Framebuffer, sources: seq<Region>,
      overrides: seq<N.Override>, capacity: nat,
                     s: Segment, a: int)
    requires LoaderOverrides(image, f, overrides) && s in Loads(image, image.tableCount)
    requires Plain(sources) && Plain(N.OverrideRegions(overrides)) && N.Normalized(sources, overrides, capacity).Ok?
    requires s.start <= a < s.start + (s.memorySize + 4095) / 4096 * 4096
    ensures CoveredAt(sources, a) && At(N.Normalized(sources, overrides, capacity).value, a, 0)
  {
    hide N.Normalized, Plain, Loads, LoaderOverrides;
    var loads := Loads(image, image.tableCount);
    var n :| 0 <= n < |loads| && loads[n] == s;
    assert SegmentOverrides(loads)[n] == SegmentOverride(s);
    OverridePresent(image, f, overrides, SegmentOverride(s));
    var j :| 0 <= j < |overrides| && overrides[j] == SegmentOverride(s);
    OverrideDecides(sources, overrides, capacity, j, a);
  }

  /** Every byte of the screen that the firmware described is kept as kind 5. */
  lemma ScreenIsKept(image: Image, f: H.Framebuffer, sources: seq<Region>, overrides: seq<N.Override>, capacity: nat,
                     a: int)
    requires LoaderOverrides(image, f, overrides) && f != H.NO_FRAMEBUFFER
    requires Plain(sources) && Plain(N.OverrideRegions(overrides)) && N.Normalized(sources, overrides, capacity).Ok?
    requires f.start <= a < f.start + f.bytes && CoveredAt(sources, a)
    ensures At(N.Normalized(sources, overrides, capacity).value, a, 5)
  {
    hide N.Normalized, Plain, Loads;
    var o := FramebufferOverrides(f).value[0];
    ScreenSpans(f, a);
    OverridePresent(image, f, overrides, o);
    var j :| 0 <= j < |overrides| && overrides[j] == o;
    OverrideDecides(sources, overrides, capacity, j, a);
  }

  lemma ScreenSpans(f: H.Framebuffer, a: int)
    requires f != H.NO_FRAMEBUFFER && FramebufferOverrides(f).Some? && f.start <= a < f.start + f.bytes
    ensures var o := FramebufferOverrides(f).value[0];
            Spans(o.region, a) && o.region.kind == 5 && !o.required
  {
  }

  /** The loader gives up on a screen exactly when rounding its end up leaves the address space. */
  lemma ScreenTaken(f: H.Framebuffer)
    ensures FramebufferOverrides(f).None?
            <==> f != H.NO_FRAMEBUFFER && f.start + f.bytes + 4095 >= 0x1_0000_0000_0000_0000
  {
  }

  // The bootstrap tables ---------------------------------------------------------------------------

  /** A link of the pool: the table's address with the present and writable bits, and no other. */
  predicate Link(b: B.Builder, word: u64, t: nat)
    requires B.Placed(b) && t < B.POOL_TABLES
  {
    word == b.base + 4096 * t + 3
  }

  lemma LinkWord(b: B.Builder, t: nat)
    requires B.Placed(b) && t < B.POOL_TABLES
    ensures Link(b, Entry(B.TableAddress(b, t), B.LINK_FLAGS), t)
  {
    EntryIsSum(B.TableAddress(b, t), B.LINK_FLAGS);
    hide Entry;
  }

  /** On the way to a mapped page every link is writable, executable and the kernel's; the page's own word decides. */
  lemma WayIsOpen(b: B.Builder, address: u64)
    requires B.Shaped(b) && B.Placed(b) && B.Mapped(b, address).Some?
    ensures exists t3: nat, t2: nat, t1: nat ::
              && t3 < B.POOL_TABLES && t2 < B.POOL_TABLES && t1 < B.POOL_TABLES
              && Link(b, b.tables[0][Pml4Index(address)], t3) && Link(b, b.tables[t3][Pml3Index(address)], t2)
              && Link(b, b.tables[t2][Pml2Index(address)], t1)
              && b.tables[t1][Pml1Index(address)] == B.Mapped(b, address).value
  {
    hide Entry, Present, Address, B.TableNumber, B.Child, Pml4Index, Pml3Index, Pml2Index, Pml1Index, Link;
    var levels :| B.Tree(b, levels);
    B.ChildBelow(b, levels, 0, Pml4Index(address));
    var t3 := B.Child(b, 0, Pml4Index(address)).value;
    LinkWord(b, t3);
    B.ChildBelow(b, levels, t3, Pml3Index(address));
    var t2 := B.Child(b, t3, Pml3Index(address)).value;
    LinkWord(b, t2);
    B.ChildBelow(b, levels, t2, Pml2Index(address));
    var t1 := B.Child(b, t2, Pml2Index(address)).value;
    LinkWord(b, t1);
  }

  /** A range is refused outright exactly when it is empty or not made of whole pages. */
  lemma {:induction false} RangeExactly(b: B.Builder, pages: map<nat, u64>, v: u64, p: u64, length: u64, flags: Flags)
    requires B.Represents(b, pages) && v + length <= U64_MAX && p + length <= ADDRESS_LIMIT
    ensures B.Placed(b)
    ensures var (b', r) := B.MapRange(b, b.base, v, p, length, flags);
            var whole := length > 0 && v % 4096 == 0 && p % 4096 == 0 && length % 4096 == 0;
            && (r == Fail(InvalidKernelLayout) <==> !whole) && (!whole ==> b' == b)
            && (whole && r.Pass? ==> B.Represents(b', B.WithRange(pages, v, p, flags, length / 4096)))
            && (whole && r.Fail? ==>
                  exists k :: 0 <= k < length / 4096 && B.Represents(b', B.WithRange(pages, v, p, flags, k)))
  {
    hide B.Represents, B.MapPages, Entry;
    B.RepresentsPlaced(b, pages);
    if length > 0 && v % 4096 == 0 && p % 4096 == 0 && length % 4096 == 0 {
      assert length / 4096 * 4096 == length;
      B.RangeMaps(b, pages, v, p, flags, length / 4096, 0);
      PagesComplain(b, b.base, v, p, flags, length / 4096, 0);
    }
  }

  lemma {:induction false} PagesComplain(b: B.Builder, root: u64, v: u64, p: u64, flags: Flags, n: nat, i: nat)
    requires B.Placed(b) && i <= n && v + n * PAGE_SIZE <= U64_MAX && p + n * PAGE_SIZE <= U64_MAX
    ensures B.MapPages(b, root, v, p, flags, n, i).1 != Fail(InvalidKernelLayout)
    decreases n - i
  {
    hide B.MapPage;
    if i < n {
      var page := B.RangePage(v, p, flags, i);
      PageComplains(b, root, page.address, page.physical, flags);
      PagesComplain(B.MapPage(b, root, page.address, page.physical, flags).0, root, v, p, flags, n, i + 1);
    }
  }

  lemma PageComplains(b: B.Builder, root: u64, address: u64, physical: u64, flags: Flags)
    requires B.Placed(b)
    ensures B.MapPage(b, root, address, physical, flags).1 != Fail(InvalidKernelLayout)
  {
    hide Entry, Present, Address;
  }

  /** What a mapped range holds: each page of it, at its own distance into the physical range. */
  lemma {:induction false} RangeHolds(pages: map<nat, u64>, v: u64, p: u64, flags: Flags, k: nat, i: nat)
    requires v + k * PAGE_SIZE <= U64_MAX && p + k * PAGE_SIZE <= U64_MAX && i < k <= 0x10_0000_0000
    ensures var held := B.WithRange(pages, v, p, flags, k);
            var n := B.PageNumber(v + i * PAGE_SIZE);
            n in held && held[n] == Entry(p + i * PAGE_SIZE, flags)
    decreases k
  {
    hide Entry, B.PageNumber;
    if i < k - 1 {
      RangeHolds(pages, v, p, flags, k - 1, i);
      OtherPage(v, i, k - 1);
    }
  }

  lemma OtherPage(v: u64, i: nat, k: nat)
    requires i < k < 0x10_0000_0000 && v + k * PAGE_SIZE <= U64_MAX
    ensures B.PageNumber(v + i * PAGE_SIZE) != B.PageNumber(v + k * PAGE_SIZE)
  {
    var page := v / PAGE_SIZE;
    assert (v + i * PAGE_SIZE) / PAGE_SIZE == page + i && (v + k * PAGE_SIZE) / PAGE_SIZE == page + k;
    Wraps(page, i, k);
  }

  lemma Wraps(page: nat, i: nat, k: nat)
    requires i < k < 0x10_0000_0000
    ensures (page + i) % 0x10_0000_0000 != (page + k) % 0x10_0000_0000
  {
  }
}
