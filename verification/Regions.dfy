/**
 Memory regions as the boot handoff carries them, and what a list of them means page
 by page.
 */
module Regions {
  import opened Words
  import opened Extents

  const MAX_MEMORY_REGIONS: nat := 1024

  const MEMORY_RESERVED: int := 0
  const MEMORY_USABLE: int := 1
  const MEMORY_MMIO: int := 5

  predicate KnownKind(kind: u32) {
    kind <= MEMORY_MMIO
  }

  datatype Region = Region(start: u64, pages: u64, kind: u32, attributes: u32) {
    function Span(): Extent {
      Extent(start, pages)
    }

    function First(): int {
      Span().First()
    }

    function Limit(): int {
      Span().Limit()
    }

    predicate Covers(page: int) {
      First() <= page < Limit()
    }

    /** Non-empty, aligned, of a known kind, without attributes, inside the address space. */
    predicate WellFormed() {
      Span().WellFormed() && KnownKind(kind) && attributes == 0
    }
  }

  /** Well-formed regions in order without overlap. */
  predicate Sorted(regions: seq<Region>) {
    && (forall i :: 0 <= i < |regions| ==> regions[i].WellFormed())
    && (forall i, k :: 0 <= i < k < |regions| ==> regions[i].Limit() <= regions[k].First())
  }

  /** Some region of the given kind holds the page. */
  predicate HasKind(regions: seq<Region>, page: int, kind: int) {
    exists i :: 0 <= i < |regions| && regions[i].kind == kind && regions[i].Covers(page)
  }

  /** The page numbers of all usable regions. */
  ghost function UsablePages(regions: seq<Region>): set<int> {
    set page | 0 <= page <= U64_MAX && HasKind(regions, page, MEMORY_USABLE)
  }

  lemma HasKindAppend(regions: seq<Region>, r: Region, page: int, kind: int)
    ensures HasKind(regions + [r], page, kind) <==> HasKind(regions, page, kind) || (r.kind == kind && r.Covers(page))
  {
    var all := regions + [r];
    if HasKind(regions, page, kind) {
      var i :| 0 <= i < |regions| && regions[i].kind == kind && regions[i].Covers(page);
      assert all[i].kind == kind && all[i].Covers(page);
    }
    if r.kind == kind && r.Covers(page) {
      assert all[|regions|].kind == kind && all[|regions|].Covers(page);
    }
    if HasKind(all, page, kind) {
      var i :| 0 <= i < |all| && all[i].kind == kind && all[i].Covers(page);
      if i < |regions| { assert regions[i].kind == kind && regions[i].Covers(page); }
    }
  }

  // Meaning address by address ---------------------------------------------------

  /** One past the last byte. */
  function ByteEnd(r: Region): int {
    r.start + r.pages * PAGE_SIZE
  }

  predicate Spans(r: Region, address: int) {
    r.start <= address < ByteEnd(r)
  }

  /** Some region of the given kind holds the address. */
  predicate At(regions: seq<Region>, address: int, kind: int) {
    exists i :: 0 <= i < |regions| && regions[i].kind == kind && Spans(regions[i], address)
  }

  predicate CoveredAt(regions: seq<Region>, address: int) {
    exists i :: 0 <= i < |regions| && Spans(regions[i], address)
  }

  /** Well-formed regions in order without overlap, in bytes. */
  predicate Ordered(regions: seq<Region>) {
    && (forall i :: 0 <= i < |regions| ==> regions[i].WellFormed())
    && (forall i, k :: 0 <= i < k < |regions| ==> ByteEnd(regions[i]) <= regions[k].start)
  }

  lemma OrderedIsSorted(regions: seq<Region>)
    ensures Ordered(regions) <==> Sorted(regions)
  {
    forall i, k | 0 <= i < |regions| && 0 <= k < |regions| && regions[i].WellFormed() && regions[k].WellFormed()
      ensures ByteEnd(regions[i]) <= regions[k].start <==> regions[i].Limit() <= regions[k].First()
    {
    }
  }

  /** A page of a well-formed list has the kind its first byte has. */
  lemma PageKind(regions: seq<Region>, page: int, kind: int)
    requires Ordered(regions)
    ensures HasKind(regions, page, kind) <==> At(regions, page * PAGE_SIZE, kind)
  {
    forall i | 0 <= i < |regions| ensures regions[i].Covers(page) <==> Spans(regions[i], page * PAGE_SIZE) {
      assert regions[i].WellFormed();
    }
  }
}
