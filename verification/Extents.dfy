/**
 Sorted, disjoint, maximally coalesced extent tables as a representation of a set of
 pages, and the allocator's operations on them.
 */
module Extents {
  import opened Words

  const MAX_EXTENTS: nat := 1024

  datatype Extent = Extent(start: u64, pages: u64) {
    /** The number of the first page. */
    function First(): int {
      start / PAGE_SIZE
    }

    /** One past the number of the last page. */
    function Limit(): int {
      First() + pages
    }

    predicate WellFormed() {
      pages >= 1 && start % PAGE_SIZE == 0 && start + pages * PAGE_SIZE <= U64_MAX
    }

    /** The source's `end()`: absent when the byte arithmetic overflows. */
    function End(): Option<u64> {
      if start + pages * PAGE_SIZE <= U64_MAX then Some(start + pages * PAGE_SIZE) else None
    }

    predicate ContainsFrame(frame: u64, frameEnd: u64) {
      End().Some? && start <= frame && frameEnd <= End().value
    }
  }

  predicate Holds(e: Extent, page: int) {
    e.First() <= page < e.Limit()
  }

  predicate Covered(table: seq<Extent>, page: int) {
    exists i :: 0 <= i < |table| && Holds(table[i], page)
  }

  /** Well-formed, in order, with a gap between neighbours. */
  predicate Canonical(table: seq<Extent>) {
    && (forall i :: 0 <= i < |table| ==> table[i].WellFormed())
    && (forall i, k :: 0 <= i < k < |table| ==> table[i].Limit() < table[k].First())
  }

  /** The set of page numbers a table stands for. */
  ghost function Pages(table: seq<Extent>): set<int> {
    set page | 0 <= page <= U64_MAX && Covered(table, page)
  }

  lemma CoveredInRange(table: seq<Extent>, page: int)
    requires Canonical(table) && Covered(table, page)
    ensures page in Pages(table) && 0 <= page && (page + 1) * PAGE_SIZE <= U64_MAX
  {
  }

  // Operations ---------------------------------------------------------------

  datatype AllocateError = Exhausted | InvariantOverflow

  function AllocateFirst(free: seq<Extent>): Result<(u64, seq<Extent>), AllocateError>
    requires free != [] ==> free[0].pages >= 1
  {
    if free == [] then Err(Exhausted)
    else
      var frame := free[0].start;
      if free[0].pages == 1 then Ok((frame, free[1..]))
      else if frame + PAGE_SIZE > U64_MAX then Err(InvariantOverflow)
      else Ok((frame, [Extent(frame + PAGE_SIZE, free[0].pages - 1)] + free[1..]))
  }

  datatype FreeError = Unaligned | AddressOverflow | Unmanaged | Duplicate | CapacityExceeded

  /** The first entry at or after `from` that does not start below `frame`. */
  function InsertionPoint(free: seq<Extent>, frame: u64, from: nat): (index: nat)
    requires from <= |free|
    ensures from <= index <= |free|
    ensures forall k :: from <= k < index ==> free[k].start < frame
    ensures index < |free| ==> free[index].start >= frame
    decreases |free| - from
  {
    if from < |free| && free[from].start < frame then InsertionPoint(free, frame, from + 1) else from
  }

  predicate Contained(table: seq<Extent>, frame: u64, frameEnd: u64) {
    exists i :: 0 <= i < |table| && table[i].ContainsFrame(frame, frameEnd)
  }

  /** Put one page back at its place, joining it to the neighbours it touches. */
  function InsertFrame(free: seq<Extent>, frame: u64, at: nat): Result<seq<Extent>, FreeError>
    requires at <= |free| && frame + PAGE_SIZE <= U64_MAX
  {
    if at > 0 && free[at - 1].End().None? then Err(AddressOverflow)
    else
      var joinsLeft := at > 0 && free[at - 1].End().value == frame;
      var joinsRight := at < |free| && free[at].start == frame + PAGE_SIZE;
      if joinsLeft && joinsRight then
        var merged := free[at - 1].pages + 1 + free[at].pages;
        if merged > U64_MAX then Err(AddressOverflow)
        else Ok(free[..at - 1] + [Extent(free[at - 1].start, merged)] + free[at + 1..])
      else if joinsLeft then
        var merged := free[at - 1].pages + 1;
        if merged > U64_MAX then Err(AddressOverflow)
        else Ok(free[..at - 1] + [Extent(free[at - 1].start, merged)] + free[at..])
      else if joinsRight then
        var merged := free[at].pages + 1;
        if merged > U64_MAX then Err(AddressOverflow)
        else Ok(free[..at] + [Extent(frame, merged)] + free[at + 1..])
      else if |free| >= MAX_EXTENTS then Err(CapacityExceeded)
      else Ok(free[..at] + [Extent(frame, 1)] + free[at..])
  }

  function FreeFrame(managed: seq<Extent>, free: seq<Extent>, frame: u64): Result<seq<Extent>, FreeError> {
    if frame % PAGE_SIZE != 0 then Err(Unaligned)
    else if frame + PAGE_SIZE > U64_MAX then Err(AddressOverflow)
    else if !Contained(managed, frame, frame + PAGE_SIZE) then Err(Unmanaged)
    else
      var at := InsertionPoint(free, frame, 0);
      if Contained(free[..if at < |free| then at + 1 else at], frame, frame + PAGE_SIZE) then Err(Duplicate)
      else InsertFrame(free, frame, at)
  }

  // The reference: a plain set of pages ------------------------------------------

  predicate StartsRun(pages: set<int>, page: int) {
    page in pages && page - 1 !in pages
  }

  /** The first pages of a set's maximal runs of consecutive pages. */
  function RunStarts(pages: set<int>): set<int> {
    set page | page in pages && StartsRun(pages, page)
  }

  /** Freeing on sets: the exact outcome, error by error. */
  ghost function SetFree(managed: set<int>, free: set<int>, frame: u64): Result<set<int>, FreeError> {
    var page := frame / PAGE_SIZE;
    if frame % PAGE_SIZE != 0 then Err(Unaligned)
    else if frame + PAGE_SIZE > U64_MAX then Err(AddressOverflow)
    else if page !in managed then Err(Unmanaged)
    else if page in free then Err(Duplicate)
    else if page - 1 !in free && page + 1 !in free && |RunStarts(free)| == MAX_EXTENTS then Err(CapacityExceeded)
    else Ok(free + {page})
  }

  // Canonical tables and their sets ------------------------------------------------

  lemma ContainedIsMembership(table: seq<Extent>, frame: u64)
    requires Canonical(table) && frame % PAGE_SIZE == 0 && frame + PAGE_SIZE <= U64_MAX
    ensures Contained(table, frame, frame + PAGE_SIZE) <==> frame / PAGE_SIZE in Pages(table)
  {
    if Contained(table, frame, frame + PAGE_SIZE) {
      var i :| 0 <= i < |table| && table[i].ContainsFrame(frame, frame + PAGE_SIZE);
      assert Holds(table[i], frame / PAGE_SIZE);
    }
    if frame / PAGE_SIZE in Pages(table) {
      var i :| 0 <= i < |table| && Holds(table[i], frame / PAGE_SIZE);
      assert table[i].ContainsFrame(frame, frame + PAGE_SIZE);
    }
  }

  /** The first page of a canonical table is the least of its set. */
  lemma FirstIsLeast(table: seq<Extent>)
    requires Canonical(table) && table != []
    ensures table[0].First() in Pages(table)
    ensures forall page :: page in Pages(table) ==> table[0].First() <= page
  {
    assert Holds(table[0], table[0].First());
  }

  lemma TailPages(table: seq<Extent>)
    requires Canonical(table) && table != []
    ensures Canonical(table[1..])
    ensures Pages(table[1..]) == set page | page in Pages(table) && page >= table[0].Limit()
    ensures forall page :: page in Pages(table) <==> Holds(table[0], page) || page in Pages(table[1..])
  {
    var rest := table[1..];
    forall page ensures Covered(table, page) <==> Holds(table[0], page) || Covered(rest, page) {
      if Covered(rest, page) {
        var i :| 0 <= i < |rest| && Holds(rest[i], page);
        assert Holds(table[i + 1], page);
      }
      if Covered(table, page) && !Holds(table[0], page) {
        var i :| 0 <= i < |table| && Holds(table[i], page);
        assert Holds(rest[i - 1], page);
      }
    }
  }

  /** Equal sets have equal canonical tables. */
  lemma {:induction false} CanonicalUnique(a: seq<Extent>, b: seq<Extent>)
    requires Canonical(a) && Canonical(b) && Pages(a) == Pages(b)
    ensures a == b
    decreases |a|
  {
    if a == [] || b == [] {
      if a != [] { FirstIsLeast(a); }
      if b != [] { FirstIsLeast(b); }
    } else {
      FirstIsLeast(a);
      FirstIsLeast(b);
      SameLimit(a, b);
      TailPages(a);
      TailPages(b);
      CanonicalUnique(a[1..], b[1..]);
      assert a[0] == b[0];
      assert a == [a[0]] + a[1..];
      assert b == [b[0]] + b[1..];
    }
  }

  lemma LimitIsGap(table: seq<Extent>)
    requires Canonical(table) && table != []
    ensures table[0].Limit() !in Pages(table)
    ensures forall page :: table[0].First() <= page < table[0].Limit() ==> page in Pages(table)
  {
    forall page | table[0].First() <= page < table[0].Limit() ensures page in Pages(table) {
      assert Holds(table[0], page);
      CoveredInRange(table, page);
    }
  }

  lemma SameLimit(a: seq<Extent>, b: seq<Extent>)
    requires Canonical(a) && Canonical(b) && a != [] && b != [] && Pages(a) == Pages(b)
    requires a[0].First() == b[0].First()
    ensures a[0].Limit() == b[0].Limit()
  {
    LimitIsGap(a);
    LimitIsGap(b);
  }

  lemma FirstStartsRun(table: seq<Extent>)
    requires Canonical(table) && table != []
    ensures RunStarts(Pages(table)) == {table[0].First()} + RunStarts(Pages(table[1..]))
    ensures table[0].First() !in RunStarts(Pages(table[1..]))
  {
    TailPages(table);
    FirstIsLeast(table);
    LimitIsGap(table);
    var all := Pages(table);
    var rest := Pages(table[1..]);
    var first := table[0].First();
    hide Pages, Canonical;
    forall page ensures page in RunStarts(all) <==> page == first || page in RunStarts(rest) {
      if page in rest {
        assert page > table[0].Limit();
      }
    }
  }

  /** A canonical table has one extent per run. */
  lemma {:induction false} RunsAreExtents(table: seq<Extent>)
    requires Canonical(table)
    ensures |RunStarts(Pages(table))| == |table|
    decreases |table|
  {
    if table == [] {
      assert RunStarts(Pages(table)) == {};
    } else {
      FirstStartsRun(table);
      TailPages(table);
      hide Pages, RunStarts;
      RunsAreExtents(table[1..]);
    }
  }

  /** Replacing the entries in [lo, hi) changes the set by exactly what they held. */
  lemma SplicePages(table: seq<Extent>, lo: nat, hi: nat, middle: seq<Extent>, page: int)
    requires lo <= hi <= |table|
    ensures Covered(table[..lo] + middle + table[hi..], page)
            <==> Covered(table[..lo], page) || Covered(middle, page) || Covered(table[hi..], page)
    ensures Covered(table, page)
            <==> Covered(table[..lo], page) || Covered(table[lo..hi], page) || Covered(table[hi..], page)
  {
    CoveredConcat(table[..lo], middle, page);
    CoveredConcat(table[..lo] + middle, table[hi..], page);
    CoveredConcat(table[..lo], table[lo..hi], page);
    CoveredConcat(table[..lo] + table[lo..hi], table[hi..], page);
    assert table[..lo] + table[lo..hi] + table[hi..] == table;
  }

  lemma CoveredConcat(a: seq<Extent>, b: seq<Extent>, page: int)
    ensures Covered(a + b, page) <==> Covered(a, page) || Covered(b, page)
  {
    var all := a + b;
    if Covered(a, page) {
      var i :| 0 <= i < |a| && Holds(a[i], page);
      assert Holds(all[i], page);
    }
    if Covered(b, page) {
      var i :| 0 <= i < |b| && Holds(b[i], page);
      assert Holds(all[|a| + i], page);
    }
    if Covered(all, page) {
      var i :| 0 <= i < |all| && Holds(all[i], page);
      if i < |a| { assert Holds(a[i], page); } else { assert Holds(b[i - |a|], page); }
    }
  }

  // Allocation ---------------------------------------------------------------

  /** Allocation takes the least page and leaves a canonical table of the rest. */
  lemma AllocateTakesLeast(free: seq<Extent>)
    requires Canonical(free)
    ensures free == [] <==> Pages(free) == {}
    ensures free == [] ==> AllocateFirst(free) == Err(Exhausted)
    ensures free != [] ==>
              var r := AllocateFirst(free);
              && r.Ok?
              && r.value.0 % PAGE_SIZE == 0 && r.value.0 + PAGE_SIZE <= U64_MAX
              && var page := r.value.0 / PAGE_SIZE;
              && page in Pages(free) && (forall other :: other in Pages(free) ==> page <= other)
              && Canonical(r.value.1) && Pages(r.value.1) == Pages(free) - {page}
  {
    if free == [] {
      assert Pages(free) == {};
    } else {
      FirstIsLeast(free);
      TailPages(free);
      var next := AllocateFirst(free).value.1;
      if free[0].pages > 1 {
        assert next[1..] == free[1..];
        assert next[0].First() == free[0].First() + 1 && next[0].Limit() == free[0].Limit();
        ShiftedHeadCanonical(free, next);
        TailPages(next);
      }
    }
  }

  lemma ShiftedHeadCanonical(free: seq<Extent>, next: seq<Extent>)
    requires Canonical(free) && free != [] && |next| == |free| && next[1..] == free[1..]
    requires next[0].WellFormed() && next[0].Limit() == free[0].Limit()
    ensures Canonical(next)
  {
    forall k | 1 <= k < |next| ensures next[k] == free[k] {
      assert next[1..][k - 1] == free[1..][k - 1];
    }
  }

  // Freeing --------------------------------------------------------------------

  /** Extents before the insertion point start below the page, the others not. */
  lemma {:induction false} InsertionSplits(free: seq<Extent>, frame: u64)
    requires Canonical(free) && frame % PAGE_SIZE == 0
    ensures var at := InsertionPoint(free, frame, 0);
            && (forall k :: 0 <= k < at ==> free[k].First() < frame / PAGE_SIZE)
            && (forall k :: at <= k < |free| ==> frame / PAGE_SIZE <= free[k].First())
  {
    var at := InsertionPoint(free, frame, 0);
    forall k | at <= k < |free| ensures frame / PAGE_SIZE <= free[k].First() {
      if k > at { assert free[at].Limit() < free[k].First(); }
    }
  }

  /** Extents that start past the page can be dropped from the end of a table. */
  lemma PrefixCovers(free: seq<Extent>, n: nat, page: int)
    requires n <= |free| && forall k :: n <= k < |free| ==> page < free[k].First()
    ensures Covered(free[..n], page) <==> Covered(free, page)
  {
    if i :| 0 <= i < |free| && Holds(free[i], page) {
      assert Holds(free[..n][i], page);
    }
    if i :| 0 <= i < n && Holds(free[..n][i], page) {
      assert Holds(free[i], page);
    }
  }

  /** Past the first extent that does not start below the page, extents start above it. */
  lemma {:induction false} LaterStartAbove(free: seq<Extent>, frame: u64)
    requires Canonical(free) && frame % PAGE_SIZE == 0
    ensures forall k :: InsertionPoint(free, frame, 0) < k < |free| ==> frame / PAGE_SIZE < free[k].First()
  {
    var at := InsertionPoint(free, frame, 0);
    InsertionSplits(free, frame);
    forall k | at < k < |free| ensures frame / PAGE_SIZE < free[k].First() {
      assert free[at].Limit() < free[k].First();
    }
  }

  /** Scanning up to the insertion point finds the page exactly when the table holds it. */
  lemma {:induction false} ScanFindsDuplicate(free: seq<Extent>, frame: u64)
    requires Canonical(free) && frame % PAGE_SIZE == 0 && frame + PAGE_SIZE <= U64_MAX
    ensures var at := InsertionPoint(free, frame, 0);
            Contained(free[..if at < |free| then at + 1 else at], frame, frame + PAGE_SIZE)
            <==> frame / PAGE_SIZE in Pages(free)
  {
    var at := InsertionPoint(free, frame, 0);
    var n := if at < |free| then at + 1 else at;
    LaterStartAbove(free, frame);
    assert Canonical(free[..n]);
    ContainedIsMembership(free[..n], frame);
    hide Canonical, Covered, Contained, InsertionPoint;
    PrefixCovers(free, n, frame / PAGE_SIZE);
  }

  function Splice(free: seq<Extent>, lo: nat, hi: nat, middle: Extent): seq<Extent>
    requires lo <= hi <= |free|
  {
    free[..lo] + [middle] + free[hi..]
  }

  lemma SpliceCanonical(free: seq<Extent>, lo: nat, hi: nat, middle: Extent)
    requires Canonical(free) && lo <= hi <= |free| && middle.WellFormed()
    requires lo > 0 ==> free[lo - 1].Limit() < middle.First()
    requires hi < |free| ==> middle.Limit() < free[hi].First()
    ensures Canonical(Splice(free, lo, hi, middle))
  {
    var table := Splice(free, lo, hi, middle);
    forall k | 0 <= k < lo ensures table[k] == free[k] && table[k].Limit() < middle.First() {
      if k < lo - 1 { assert free[k].Limit() < free[lo - 1].First(); }
    }
    forall k | lo < k < |table|
      ensures table[k] == free[k - lo - 1 + hi] && middle.Limit() < table[k].First()
    {
      if k > lo + 1 { assert free[hi].Limit() < free[k - lo - 1 + hi].First(); }
    }
  }

  /** The splice adds one page when the new extent is the replaced ones plus that page. */
  lemma SpliceAdds(free: seq<Extent>, lo: nat, hi: nat, middle: Extent, page: int)
    requires Canonical(free) && lo <= hi <= |free| && Canonical(Splice(free, lo, hi, middle))
    requires 0 <= page <= U64_MAX
    requires forall p :: Holds(middle, p) <==> p == page || Covered(free[lo..hi], p)
    ensures Pages(Splice(free, lo, hi, middle)) == Pages(free) + {page}
  {
    forall p ensures Covered(Splice(free, lo, hi, middle), p) <==> p == page || Covered(free, p) {
      SplicePages(free, lo, hi, [middle], p);
      assert Covered([middle], p) <==> Holds(middle, p) by {
        if Holds(middle, p) { assert Holds([middle][0], p); }
      }
    }
  }

  lemma {:induction false} LeftNeighbour(free: seq<Extent>, frame: u64)
    requires Canonical(free) && frame % PAGE_SIZE == 0 && frame + PAGE_SIZE <= U64_MAX
    requires frame / PAGE_SIZE !in Pages(free)
    ensures var at := InsertionPoint(free, frame, 0);
            var page := frame / PAGE_SIZE;
            && (at > 0 ==> free[at - 1].Limit() <= page)
            && (page - 1 in Pages(free) <==> at > 0 && free[at - 1].Limit() == page)
  {
    var at := InsertionPoint(free, frame, 0);
    var page := frame / PAGE_SIZE;
    InsertionSplits(free, frame);
    if at > 0 {
      assert !Holds(free[at - 1], page);
      if free[at - 1].Limit() == page {
        assert Holds(free[at - 1], page - 1);
        CoveredInRange(free, page - 1);
      }
    }
    if page - 1 in Pages(free) {
      var i :| 0 <= i < |free| && Holds(free[i], page - 1);
      assert i < at;
      if i < at - 1 { assert free[i].Limit() < free[at - 1].First(); }
    }
  }

  lemma {:induction false} RightNeighbour(free: seq<Extent>, frame: u64)
    requires Canonical(free) && frame % PAGE_SIZE == 0 && frame + PAGE_SIZE <= U64_MAX
    requires frame / PAGE_SIZE !in Pages(free)
    ensures var at := InsertionPoint(free, frame, 0);
            var page := frame / PAGE_SIZE;
            && (at < |free| ==> page < free[at].First())
            && (page + 1 in Pages(free) <==> at < |free| && free[at].First() == page + 1)
  {
    var at := InsertionPoint(free, frame, 0);
    var page := frame / PAGE_SIZE;
    InsertionSplits(free, frame);
    if at < |free| {
      assert !Holds(free[at], page);
      if free[at].First() == page + 1 {
        assert Holds(free[at], page + 1);
        CoveredInRange(free, page + 1);
      }
    }
    if page + 1 in Pages(free) {
      var i :| 0 <= i < |free| && Holds(free[i], page + 1);
      assert i >= at;
      if i > at { assert free[at].Limit() < free[i].First(); }
    }
  }

  /** `frame` lies strictly between its neighbours and no merge overflows. */
  predicate Fits(free: seq<Extent>, frame: u64, at: nat) {
    && Canonical(free) && at <= |free| && frame % PAGE_SIZE == 0 && frame + PAGE_SIZE <= U64_MAX
    && (at > 0 ==>
          && free[at - 1].Limit() <= frame / PAGE_SIZE
          && free[at - 1].start + (free[at - 1].pages + 1) * PAGE_SIZE <= U64_MAX)
    && (at < |free| ==> frame / PAGE_SIZE < free[at].First() && free[at].pages + 1 <= U64_MAX)
    && (at > 0 && at < |free| ==> free[at - 1].pages + 1 + free[at].pages <= U64_MAX)
  }

  /** What the code splices in for each combination of joins. */
  function Joined(free: seq<Extent>, frame: u64, at: nat): (nat, nat, Extent)
    requires Fits(free, frame, at)
  {
    var left := at > 0 && free[at - 1].Limit() == frame / PAGE_SIZE;
    var right := at < |free| && free[at].First() == frame / PAGE_SIZE + 1;
    if left && right then (at - 1, at + 1, Extent(free[at - 1].start, free[at - 1].pages + 1 + free[at].pages))
    else if left then (at - 1, at, Extent(free[at - 1].start, free[at - 1].pages + 1))
    else if right then (at, at + 1, Extent(frame, free[at].pages + 1))
    else (at, at, Extent(frame, 1))
  }

  /** The four joins of the code, with the arithmetic that cannot overflow on a canonical table. */
  lemma InsertIsSplice(free: seq<Extent>, frame: u64, at: nat)
    requires Canonical(free) && at <= |free| && frame % PAGE_SIZE == 0 && frame + PAGE_SIZE <= U64_MAX
    requires at > 0 ==> free[at - 1].Limit() <= frame / PAGE_SIZE
    requires at < |free| ==> frame / PAGE_SIZE < free[at].First()
    ensures Fits(free, frame, at)
    ensures var (lo, hi, middle) := Joined(free, frame, at);
            && middle.WellFormed()
            && InsertFrame(free, frame, at)
               == (if lo == hi && |free| >= MAX_EXTENTS then Err(CapacityExceeded)
                   else Ok(Splice(free, lo, hi, middle)))
  {
  }

  /** The spliced extent spans from the left neighbour's start to the right one's limit, as far as they join. */
  lemma JoinedSpan(free: seq<Extent>, frame: u64, at: nat)
    requires Fits(free, frame, at)
    ensures var (lo, hi, middle) := Joined(free, frame, at);
            var page := frame / PAGE_SIZE;
            && middle.First() == (if lo < at then free[at - 1].First() else page)
            && middle.Limit() == (if hi > at then free[at].Limit() else page + 1)
            && (lo < at ==> lo == at - 1 && free[at - 1].Limit() == page)
            && (hi > at ==> hi == at + 1 && free[at].First() == page + 1)
            && (lo == at ==> at > 0 ==> free[at - 1].Limit() < page)
            && (hi == at ==> at < |free| ==> page + 1 < free[at].First())
  {
  }

  lemma JoinedHolds(free: seq<Extent>, frame: u64, at: nat, p: int)
    requires Fits(free, frame, at)
    ensures var (lo, hi, middle) := Joined(free, frame, at);
            Holds(middle, p) <==> p == frame / PAGE_SIZE || Covered(free[lo..hi], p)
  {
    JoinedSpan(free, frame, at);
    var (lo, hi, middle) := Joined(free, frame, at);
    hide Joined, Canonical;
    var replaced := free[lo..hi];
    if lo < at && Holds(free[lo], p) { assert Holds(replaced[0], p); }
    if hi > at && Holds(free[at], p) { assert Holds(replaced[at - lo], p); }
    if Covered(replaced, p) {
      var i :| 0 <= i < |replaced| && Holds(replaced[i], p);
      assert replaced[i] == free[lo + i];
    }
  }

  lemma JoinedShape(free: seq<Extent>, frame: u64, at: nat)
    requires Fits(free, frame, at) && Joined(free, frame, at).2.WellFormed()
    ensures var (lo, hi, middle) := Joined(free, frame, at);
            && Canonical(Splice(free, lo, hi, middle))
            && Pages(Splice(free, lo, hi, middle)) == Pages(free) + {frame / PAGE_SIZE}
  {
    var (lo, hi, middle) := Joined(free, frame, at);
    JoinedSpan(free, frame, at);
    hide Joined;
    if lo > 0 && lo < at { assert free[lo - 1].Limit() < free[lo].First(); }
    if hi < |free| && hi > at { assert free[at].Limit() < free[hi].First(); }
    SpliceCanonical(free, lo, hi, middle);
    forall p ensures Holds(middle, p) <==> p == frame / PAGE_SIZE || Covered(free[lo..hi], p) {
      JoinedHolds(free, frame, at, p);
    }
    SpliceAdds(free, lo, hi, middle, frame / PAGE_SIZE);
  }

  /** Freeing a frame is exactly freeing a page of the set: same result, same error. */
  lemma FreeRefinesSet(managed: seq<Extent>, free: seq<Extent>, frame: u64)
    requires Canonical(managed) && Canonical(free) && |free| <= MAX_EXTENTS
    ensures var r := FreeFrame(managed, free, frame);
            var q := SetFree(Pages(managed), Pages(free), frame);
            && (r.Ok? <==> q.Ok?)
            && (r.Err? ==> r.error == q.error)
            && (r.Ok? ==> Canonical(r.value) && Pages(r.value) == q.value && |r.value| <= MAX_EXTENTS)
  {
    hide Pages, Canonical, RunStarts, InsertFrame, Splice, Joined, Contained;
    if frame % PAGE_SIZE == 0 && frame + PAGE_SIZE <= U64_MAX {
      ContainedIsMembership(managed, frame);
      ScanFindsDuplicate(free, frame);
      if frame / PAGE_SIZE !in Pages(free) {
        InsertRefines(free, frame);
      }
    }
  }

  /** Inserting an absent page fails only for want of a table entry, and only when it joins nothing. */
  lemma {:induction false} InsertRefines(free: seq<Extent>, frame: u64)
    requires Canonical(free) && |free| <= MAX_EXTENTS && frame % PAGE_SIZE == 0 && frame + PAGE_SIZE <= U64_MAX
    requires frame / PAGE_SIZE !in Pages(free)
    ensures var r := InsertFrame(free, frame, InsertionPoint(free, frame, 0));
            var page := frame / PAGE_SIZE;
            if page - 1 !in Pages(free) && page + 1 !in Pages(free) && |RunStarts(Pages(free))| == MAX_EXTENTS
            then r == Err(CapacityExceeded)
            else r.Ok? && Canonical(r.value) && Pages(r.value) == Pages(free) + {page} && |r.value| <= MAX_EXTENTS
  {
    hide Pages, Canonical, RunStarts, InsertFrame;
    var at := InsertionPoint(free, frame, 0);
    LeftNeighbour(free, frame);
    RightNeighbour(free, frame);
    InsertIsSplice(free, frame, at);
    JoinedShape(free, frame, at);
    RunsAreExtents(free);
  }

  /** Free right after allocate succeeds and restores the table, entry for entry. */
  lemma AllocateThenFree(managed: seq<Extent>, free: seq<Extent>)
    requires Canonical(managed) && Canonical(free) && |free| <= MAX_EXTENTS && free != []
    requires Pages(free) <= Pages(managed)
    ensures var (frame, rest) := AllocateFirst(free).value;
            FreeFrame(managed, rest, frame) == Ok(free)
  {
    hide Pages, Canonical, RunStarts, FreeFrame;
    HeadNotEmpty(free);
    AllocateTakesLeast(free);
    var (frame, rest) := AllocateFirst(free).value;
    var page := frame / PAGE_SIZE;
    FreeRefinesSet(managed, rest, frame);
    RunsAreExtents(rest);
    SecondPageStays(free);
    assert Pages(rest) + {page} == Pages(free);
    CanonicalUnique(FreeFrame(managed, rest, frame).value, free);
  }

  lemma HeadNotEmpty(free: seq<Extent>)
    requires Canonical(free) && free != []
    ensures free[0].pages >= 1
  {
  }

  lemma SecondPageStays(free: seq<Extent>)
    requires Canonical(free) && free != [] && AllocateFirst(free).Ok?
    ensures var (frame, rest) := AllocateFirst(free).value;
            free[0].pages == 1 || frame / PAGE_SIZE + 1 in Pages(rest)
  {
    AllocateTakesLeast(free);
    var (frame, rest) := AllocateFirst(free).value;
    if free[0].pages > 1 {
      assert Holds(rest[0], frame / PAGE_SIZE + 1);
      CoveredInRange(rest, frame / PAGE_SIZE + 1);
    }
  }
}
