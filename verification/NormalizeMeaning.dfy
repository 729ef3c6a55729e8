/**
 What normalisation means, address by address, and exactly when it succeeds.
 */
module NormalizeMeaning {
  import opened Words
  import opened Sets
  import opened Regions
  import opened Normalize

  /** The kind an address should end up with: its override's, else its source's. */
  predicate Wanted(sources: seq<Region>, overrides: seq<Region>, a: int, k: int) {
    CoveredAt(sources, a) && if CoveredAt(overrides, a) then At(overrides, a, k) else At(sources, a, k)
  }

  /** Ordered, with no two touching neighbours of one kind. */
  ghost predicate Merged(out: seq<Region>) {
    && Ordered(out)
    && forall i, k :: 0 <= i < k < |out| && k == i + 1 ==>
         !(out[i].kind == out[k].kind && ByteEnd(out[i]) == out[k].start)
  }

  predicate EndsBy(out: seq<Region>, limit: int) {
    out != [] ==> ByteEnd(out[|out| - 1]) <= limit
  }

  /** Below `limit` the output says exactly what is wanted; above it, nothing. */
  ghost predicate Says(out: seq<Region>, sources: seq<Region>, overrides: seq<Region>, limit: int) {
    forall a, k :: At(out, a, k) <==> a < limit && Wanted(sources, overrides, a, k)
  }

  // Uniqueness -------------------------------------------------------------------------

  lemma AtAppend(out: seq<Region>, r: Region, a: int, k: int)
    ensures At(out + [r], a, k) <==> At(out, a, k) || (r.kind == k && Spans(r, a))
  {
    var all := out + [r];
    if At(out, a, k) {
      var i :| 0 <= i < |out| && out[i].kind == k && Spans(out[i], a);
      assert all[i].kind == k && Spans(all[i], a);
    }
    if r.kind == k && Spans(r, a) {
      assert all[|out|].kind == k && Spans(all[|out|], a);
    }
    if At(all, a, k) {
      var i :| 0 <= i < |all| && all[i].kind == k && Spans(all[i], a);
      if i < |out| { assert out[i].kind == k && Spans(out[i], a); }
    }
  }

  /** In an ordered list an address has at most one kind. */
  lemma AtUnique(out: seq<Region>, a: int, k: int, l: int)
    requires Ordered(out) && At(out, a, k) && At(out, a, l)
    ensures k == l
  {
    var i :| 0 <= i < |out| && out[i].kind == k && Spans(out[i], a);
    var j :| 0 <= j < |out| && out[j].kind == l && Spans(out[j], a);
    assert i == j;
  }

  /** A region's first byte starts a run: the byte before it does not have its kind. */
  lemma StartIsFresh(out: seq<Region>, i: nat)
    requires Merged(out) && i < |out|
    ensures At(out, out[i].start, out[i].kind) && !At(out, out[i].start - 1, out[i].kind)
  {
    assert out[i].WellFormed();
    assert Spans(out[i], out[i].start);
    forall j | 0 <= j < |out| ensures !(out[j].kind == out[i].kind && Spans(out[j], out[i].start - 1)) {
      if j < i - 1 {
        assert ByteEnd(out[j]) <= out[i - 1].start && ByteEnd(out[i - 1]) <= out[i].start && out[i - 1].WellFormed();
      } else if j > i {
        assert ByteEnd(out[i]) <= out[j].start;
      }
    }
  }

  lemma FrontMerged(out: seq<Region>)
    requires Merged(out) && out != []
    ensures var k := |out| - 1;
            Merged(out[..k]) && EndsBy(out[..k], out[k].start)
  {
    var k := |out| - 1;
    if k > 0 { assert ByteEnd(out[k - 1]) <= out[k].start; }
  }

  /** The last region is determined by what the list says. */
  lemma LastDetermined(x: seq<Region>, y: seq<Region>)
    requires Merged(x) && Merged(y) && x != [] && y != []
    requires forall a, k :: At(x, a, k) <==> At(y, a, k)
    ensures x[|x| - 1] == y[|y| - 1]
  {
    var p, q := x[|x| - 1], y[|y| - 1];
    assert p.WellFormed() && q.WellFormed();
    LastByte(x);
    LastByte(y);
    assert ByteEnd(p) == ByteEnd(q);
    AtUnique(x, ByteEnd(p) - 1, p.kind, q.kind);
    StartsNoEarlier(x, y);
    StartsNoEarlier(y, x);
  }

  lemma StartsNoEarlier(x: seq<Region>, y: seq<Region>)
    requires Merged(y) && x != [] && y != []
    requires forall a, k :: At(x, a, k) <==> At(y, a, k)
    requires var p, q := x[|x| - 1], y[|y| - 1]; p.kind == q.kind && q.start <= ByteEnd(p)
    ensures y[|y| - 1].start <= x[|x| - 1].start
  {
    hide At, Merged;
    var p, q := x[|x| - 1], y[|y| - 1];
    StartIsFresh(y, |y| - 1);
    if p.start < q.start { SameKindInside(x, |x| - 1, q.start - 1); }
  }

  lemma SameKindInside(out: seq<Region>, i: nat, a: int)
    requires i < |out| && Spans(out[i], a)
    ensures At(out, a, out[i].kind)
  {
  }

  /** The last byte of the list is the greatest address it speaks of. */
  lemma LastByte(out: seq<Region>)
    requires Ordered(out) && out != []
    ensures var r := out[|out| - 1];
            At(out, ByteEnd(r) - 1, r.kind) && forall a, k :: At(out, a, k) ==> a < ByteEnd(r)
  {
    var n := |out| - 1;
    assert out[n].WellFormed();
    SameKindInside(out, n, ByteEnd(out[n]) - 1);
    forall a, k | At(out, a, k) ensures a < ByteEnd(out[n]) {
      var i :| 0 <= i < |out| && out[i].kind == k && Spans(out[i], a);
      if i < n { assert ByteEnd(out[i]) <= out[n].start; }
    }
  }

  /** The merged form is unique: lists that say the same are the same. */
  lemma {:induction false} MergedUnique(x: seq<Region>, y: seq<Region>)
    requires Merged(x) && Merged(y) && forall a, k :: At(x, a, k) <==> At(y, a, k)
    ensures x == y
    decreases |x|
  {
    if x == [] || y == [] {
      if x != [] { LastByte(x); }
      if y != [] { LastByte(y); }
    } else {
      LastDetermined(x, y);
      FrontMerged(x);
      FrontMerged(y);
      var m, n := |x| - 1, |y| - 1;
      forall a, k ensures At(x[..m], a, k) <==> At(y[..n], a, k) {
        FrontSays(x, a, k);
        FrontSays(y, a, k);
      }
      MergedUnique(x[..m], y[..n]);
      assert x == x[..m] + [x[m]] && y == y[..n] + [y[n]];
    }
  }

  lemma FrontSays(out: seq<Region>, a: int, k: int)
    requires Merged(out) && out != []
    ensures var n := |out| - 1;
            At(out[..n], a, k) <==> At(out, a, k) && a < out[n].start
  {
    var n := |out| - 1;
    assert out[..n] + [out[n]] == out;
    AtAppend(out[..n], out[n], a, k);
    FrontMerged(out);
    if n > 0 { LastByte(out[..n]); }
  }

  // Emitting ----------------------------------------------------------------------------

  /** A run that may be emitted after `out`. */
  predicate Runnable(out: seq<Region>, start: int, end: int, kind: int) {
    && EndsBy(out, start) && 0 <= start < end <= U64_MAX
    && start % PAGE_SIZE == 0 && end % PAGE_SIZE == 0 && 0 <= kind <= MEMORY_MMIO
  }

  /** The run would grow the last region. */
  predicate Joins(out: seq<Region>, start: int, kind: int) {
    out != [] && out[|out| - 1].kind == kind && ByteEnd(out[|out| - 1]) == start
  }

  /** Emitting keeps the list merged and adds exactly the run; it fails only for want of a fresh entry. */
  lemma EmitAdds(out: seq<Region>, capacity: nat, start: u64, end: u64, kind: u32)
    requires Merged(out) && Runnable(out, start, end, kind) && |out| <= capacity
    ensures var r := Emit(out, capacity, start, end, kind);
            && (r.Err? <==> |out| == capacity && !Joins(out, start, kind))
            && (r.Err? ==> r.error == CapacityExceeded)
            && (r.Ok? ==> Merged(r.value) && EndsBy(r.value, end) && |r.value| <= capacity && r.value != [])
  {
    var r := Emit(out, capacity, start, end, kind);
    if out != [] { assert out[|out| - 1].WellFormed(); }
    if Joins(out, start, kind) {
      var n := |out| - 1;
      FrontMerged(out);
      if n > 0 { assert ByteEnd(out[n - 1]) <= out[n].start; }
      AppendMerged(out[..n], r.value[n]);
    } else if r.Ok? {
      AppendMerged(out, Region(start, (end - start) / PAGE_SIZE, kind, 0));
    }
  }

  lemma AppendMerged(front: seq<Region>, r: Region)
    requires Merged(front) && EndsBy(front, r.start) && r.WellFormed() && !Joins(front, r.start, r.kind)
    ensures Merged(front + [r])
  {
    var all := front + [r];
    forall i | 0 <= i < |front| ensures ByteEnd(all[i]) <= r.start {
      if i < |front| - 1 { assert ByteEnd(front[i]) <= front[|front| - 1].start && front[|front| - 1].WellFormed(); }
    }
  }

  lemma EmitSays(out: seq<Region>, capacity: nat, start: u64, end: u64, kind: u32, a: int, k: int)
    requires Merged(out) && Runnable(out, start, end, kind) && Emit(out, capacity, start, end, kind).Ok?
    ensures At(Emit(out, capacity, start, end, kind).value, a, k) <==> At(out, a, k) || (start <= a < end && k == kind)
  {
    hide At, Merged;
    EmitForm(out, capacity, start, end, kind);
    WholePages(start, end);
    if Joins(out, start, kind) {
      var n := |out| - 1;
      assert out[..n] + [out[n]] == out;
      AtAppend(out[..n], out[n], a, k);
      AtAppend(out[..n], out[n].(pages := out[n].pages + (end - start) / PAGE_SIZE), a, k);
    } else {
      AtAppend(out, Region(start, (end - start) / PAGE_SIZE, kind, 0), a, k);
    }
  }

  lemma WholePages(start: int, end: int)
    requires start <= end && start % PAGE_SIZE == 0 && end % PAGE_SIZE == 0
    ensures (end - start) / PAGE_SIZE * PAGE_SIZE == end - start
  {
  }

  /** A successful emit grows the last region or appends one. */
  lemma EmitForm(out: seq<Region>, capacity: nat, start: u64, end: u64, kind: u32)
    requires Merged(out) && Runnable(out, start, end, kind) && Emit(out, capacity, start, end, kind).Ok?
    ensures var pages := (end - start) / PAGE_SIZE;
            if Joins(out, start, kind) then
              && out[|out| - 1].WellFormed() && out[|out| - 1].pages + pages <= U64_MAX
              && Emit(out, capacity, start, end, kind).value
                 == out[..|out| - 1] + [out[|out| - 1].(pages := out[|out| - 1].pages + pages)]
            else Emit(out, capacity, start, end, kind).value == out + [Region(start, pages, kind, 0)]
  {
    if out != [] { assert out[|out| - 1].WellFormed(); }
  }

  // Runs ---------------------------------------------------------------------------------

  /** A new run begins at `a`: it has a kind its predecessor does not have. */
  predicate Begins(sources: seq<Region>, overrides: seq<Region>, a: int, k: int) {
    Wanted(sources, overrides, a, k) && !Wanted(sources, overrides, a - 1, k)
  }

  ghost predicate BeginsRun(sources: seq<Region>, overrides: seq<Region>, a: int) {
    exists k :: Begins(sources, overrides, a, k)
  }

  /** Where the wanted map begins a new run. */
  ghost function WantedRuns(sources: seq<Region>, overrides: seq<Region>): set<int> {
    set a | 0 <= a <= U64_MAX && BeginsRun(sources, overrides, a)
  }

  function Starts(out: seq<Region>): set<int> {
    if out == [] then {} else Starts(out[..|out| - 1]) + {out[|out| - 1].start}
  }

  lemma {:induction false} StartsElement(out: seq<Region>, x: int) returns (i: nat)
    requires x in Starts(out)
    ensures i < |out| && out[i].start == x
    decreases |out|
  {
    i := |out| - 1;
    if out[i].start != x {
      i := StartsElement(out[..i], x);
    }
  }

  lemma {:induction false} StartsCount(out: seq<Region>)
    requires Ordered(out)
    ensures |Starts(out)| == |out|
    decreases |out|
  {
    if out != [] {
      var n := |out| - 1;
      StartsCount(out[..n]);
      if out[n].start in Starts(out[..n]) {
        var i := StartsElement(out[..n], out[n].start);
        assert false;
      }
    }
  }

  lemma {:induction false} StartsAreRuns(out: seq<Region>, sources: seq<Region>, overrides: seq<Region>, limit: int)
    requires Merged(out) && Says(out, sources, overrides, limit)
    ensures Starts(out) <= WantedRuns(sources, overrides)
  {
    forall x | x in Starts(out) ensures x in WantedRuns(sources, overrides) {
      var i := StartsElement(out, x);
      StartIsFresh(out, i);
      assert Begins(sources, overrides, x, out[i].kind);
    }
  }

  lemma AllBelow(out: seq<Region>, limit: int, i: nat)
    requires Ordered(out) && EndsBy(out, limit) && i < |out|
    ensures out[i].start < ByteEnd(out[i]) <= limit
    ensures i < |out| - 1 ==> ByteEnd(out[i]) < limit
  {
    assert out[i].WellFormed() && out[|out| - 1].WellFormed();
    if i < |out| - 1 { assert ByteEnd(out[i]) <= out[|out| - 1].start; }
  }

  /** When the list is full and the next run does not join it, the map has more runs than it can hold. */
  lemma FullMeansTooMany(out: seq<Region>, sources: seq<Region>, overrides: seq<Region>, start: int, kind: int)
    requires Merged(out) && Says(out, sources, overrides, start) && EndsBy(out, start) && 0 <= start <= U64_MAX
    requires Wanted(sources, overrides, start, kind) && !Joins(out, start, kind)
    ensures |WantedRuns(sources, overrides)| > |out|
  {
    hide Wanted, Starts;
    StartsAreRuns(out, sources, overrides, start);
    StartsCount(out);
    forall i | 0 <= i < |out| ensures !(out[i].kind == kind && Spans(out[i], start - 1)) {
      AllBelow(out, start, i);
    }
    assert !At(out, start - 1, kind);
    assert Begins(sources, overrides, start, kind);
    if start in Starts(out) {
      var i := StartsElement(out, start);
      AllBelow(out, start, i);
    }
    SubsetCount(Starts(out) + {start}, WantedRuns(sources, overrides));
  }

  // The sweep ----------------------------------------------------------------------------

  /** The output so far is merged and says exactly what is wanted below `limit`. */
  ghost predicate UpTo(out: seq<Region>, capacity: nat, sources: seq<Region>, overrides: seq<Region>, limit: int) {
    && Merged(out) && EndsBy(out, limit) && |out| <= capacity && Says(out, sources, overrides, limit)
  }

  /** The step kept going to `limit`, or ran out of room for good reason. */
  ghost predicate Reaches(
    r: Result<seq<Region>, NormalizeError>, capacity: nat, sources: seq<Region>, overrides: seq<Region>, limit: int)
  {
    match r
    case Ok(out) => UpTo(out, capacity, sources, overrides, limit)
    case Err(e) => e == CapacityExceeded && |WantedRuns(sources, overrides)| > capacity
  }

  /** Emitting a stretch that wants one kind carries the output across it. */
  lemma EmitReaches(
    out: seq<Region>, capacity: nat, sources: seq<Region>, overrides: seq<Region>, start: u64, end: u64, kind: u32)
    requires UpTo(out, capacity, sources, overrides, start) && start <= end && KnownKind(kind)
    requires start % PAGE_SIZE == 0 && end % PAGE_SIZE == 0
    requires forall a, k :: start <= a < end ==> (Wanted(sources, overrides, a, k) <==> k == kind)
    ensures Reaches(Emit(out, capacity, start, end, kind), capacity, sources, overrides, end)
  {
    hide Merged;
    if start < end {
      EmitAdds(out, capacity, start, end, kind);
      var r := Emit(out, capacity, start, end, kind);
      if r.Ok? {
        forall a, k ensures At(r.value, a, k) <==> a < end && Wanted(sources, overrides, a, k) {
          EmitSays(out, capacity, start, end, kind, a, k);
        }
      } else {
        FullMeansTooMany(out, sources, overrides, start, kind);
      }
    }
  }

  /** Overrides before `next` end at or before the cursor. */
  predicate Passed(overrides: seq<Region>, next: nat, cursor: int) {
    next <= |overrides| && forall j :: 0 <= j < next ==> ByteEnd(overrides[j]) <= cursor
  }

  /** From the cursor to the source's end no override applies. */
  predicate Clear(overrides: seq<Region>, next: nat, cursor: int, end: int) {
    next <= |overrides| && (next < |overrides| ==> overrides[next].start >= end || cursor == end)
  }

  /** Inside source `i` and outside every override the source's kind is wanted. */
  lemma SourceWanted(sources: seq<Region>, overrides: seq<Region>, i: nat, next: nat, from: int, to: int, a: int,
      k: int)
    requires Ordered(sources) && Ordered(overrides) && i < |sources| && Passed(overrides, next, from)
    requires sources[i].start <= from <= a < to <= ByteEnd(sources[i])
    requires next < |overrides| ==> to <= overrides[next].start
    ensures Wanted(sources, overrides, a, k) <==> k == sources[i].kind
  {
    assert Spans(sources[i], a);
    if At(sources, a, k) { AtUnique(sources, a, k, sources[i].kind); }
    forall j | 0 <= j < |overrides| ensures !Spans(overrides[j], a) {
      if j > next { assert overrides[next].WellFormed() && ByteEnd(overrides[next]) <= overrides[j].start; }
    }
  }

  /** Inside source `i` and override `j` the override's kind is wanted. */
  lemma OverrideWanted(sources: seq<Region>, overrides: seq<Region>, i: nat, j: nat, a: int, k: int)
    requires Ordered(sources) && Ordered(overrides) && i < |sources| && j < |overrides|
    requires Spans(sources[i], a) && Spans(overrides[j], a)
    ensures Wanted(sources, overrides, a, k) <==> k == overrides[j].kind
  {
    if At(overrides, a, k) { AtUnique(overrides, a, k, overrides[j].kind); }
  }

  lemma OverlayStep(
    overrides: seq<Override>, capacity: nat, sources: seq<Region>, i: nat, s: Sweep, from: u64, to: u64)
    requires Ordered(sources) && Ordered(OverrideRegions(overrides)) && i < |sources| && s.next < |overrides|
    requires Passed(OverrideRegions(overrides), s.next, s.cursor) && sources[i].start <= s.cursor
    requires UpTo(s.out, capacity, sources, OverrideRegions(overrides), s.cursor) && s.cursor % PAGE_SIZE == 0
    requires var o := overrides[s.next].region;
             && from == (if o.start > s.cursor then o.start else s.cursor)
             && to == (if ByteEnd(o) < ByteEnd(sources[i]) then ByteEnd(o) else ByteEnd(sources[i]))
             && from < to
    ensures var r := Emit(s.out, capacity, s.cursor, from, sources[i].kind);
            && Reaches(r, capacity, sources, OverrideRegions(overrides), from)
            && (r.Ok? ==> Reaches(Emit(r.value, capacity, from, to, overrides[s.next].region.kind), capacity, sources,
                                  OverrideRegions(overrides), to))
  {
    hide Wanted, UpTo, Ordered, Emit, Passed, Reaches;
    var rs := OverrideRegions(overrides);
    var o := rs[s.next];
    MemberWellFormed(rs, s.next);
    MemberWellFormed(sources, i);
    forall a, k | s.cursor <= a < from ensures Wanted(sources, rs, a, k) <==> k == sources[i].kind {
      SourceWanted(sources, rs, i, s.next, s.cursor, from, a, k);
    }
    forall a, k | from <= a < to ensures Wanted(sources, rs, a, k) <==> k == o.kind {
      OverrideWanted(sources, rs, i, s.next, a, k);
    }
    EmitReaches(s.out, capacity, sources, rs, s.cursor, from, sources[i].kind);
    var r := Emit(s.out, capacity, s.cursor, from, sources[i].kind);
    if r.Ok? {
      ReachedUpTo(r, capacity, sources, rs, from);
      EmitReaches(r.value, capacity, sources, rs, from, to, o.kind);
    }
  }

  lemma MemberWellFormed(regions: seq<Region>, i: nat)
    requires Ordered(regions) && i < |regions|
    ensures regions[i].WellFormed()
    ensures regions[i].start % PAGE_SIZE == 0 && ByteEnd(regions[i]) % PAGE_SIZE == 0 && KnownKind(regions[i].kind)
  {
  }

  lemma ReachedUpTo(
    r: Result<seq<Region>, NormalizeError>, capacity: nat, sources: seq<Region>, overrides: seq<Region>, end: int)
    requires Reaches(r, capacity, sources, overrides, end) && r.Ok?
    ensures UpTo(r.value, capacity, sources, overrides, end)
  {
  }

  /** The inner loop carries the output to a cursor after which the source is free of overrides. */
  lemma {:induction false} OverlayReaches(overrides: seq<Override>, capacity: nat, sources: seq<Region>, i: nat,
      s: Sweep)
    requires Ordered(sources) && Ordered(OverrideRegions(overrides)) && i < |sources| && s.next <= |overrides|
    requires Passed(OverrideRegions(overrides), s.next, s.cursor)
    requires sources[i].start <= s.cursor <= ByteEnd(sources[i]) <= U64_MAX
    requires UpTo(s.out, capacity, sources, OverrideRegions(overrides), s.cursor) && s.cursor % PAGE_SIZE == 0
    ensures var rs := OverrideRegions(overrides);
            match Overlay(overrides, capacity, sources[i], ByteEnd(sources[i]), s)
            case Ok(t) =>
              && UpTo(t.out, capacity, sources, rs, t.cursor) && t.cursor % PAGE_SIZE == 0
              && Passed(rs, t.next, t.cursor) && Clear(rs, t.next, t.cursor, ByteEnd(sources[i]))
            case Err(e) => e == CapacityExceeded && |WantedRuns(sources, rs)| > capacity
    decreases |overrides| - s.next
  {
    hide UpTo, Emit, WantedRuns, Ordered, Passed;
    if s.next < |overrides| {
      var rs := OverrideRegions(overrides);
      var o := overrides[s.next].region;
      var end := ByteEnd(sources[i]);
      Member(rs, s.next);
      Member(sources, i);
      if ByteEnd(o) <= s.cursor {
        PassedNext(rs, s.next, s.cursor, s.cursor);
        OverlayReaches(overrides, capacity, sources, i, s.(next := s.next + 1));
      } else if o.start < end && s.cursor < end {
        var from := if o.start > s.cursor then o.start else s.cursor;
        var to := if ByteEnd(o) < end then ByteEnd(o) else end;
        OverlayStep(overrides, capacity, sources, i, s, from, to);
        var before := Emit(s.out, capacity, s.cursor, from, sources[i].kind);
        if before.Ok? {
          var after := Emit(before.value, capacity, from, to, o.kind);
          if after.Ok? {
            if to == ByteEnd(o) {
              PassedNext(rs, s.next, s.cursor, to);
              OverlayReaches(overrides, capacity, sources, i, Sweep(s.next + 1, to, after.value));
            } else {
              PassedLater(rs, s.next, s.cursor, to);
            }
          }
        }
      } else {
        EmptyEmits(s.out, capacity, s.cursor, sources[i].kind);
        EmptyEmits(s.out, capacity, s.cursor, o.kind);
      }
    }
  }

  lemma Member(regions: seq<Region>, i: nat)
    requires Ordered(regions) && i < |regions|
    ensures regions[i].WellFormed() && regions[i].start < ByteEnd(regions[i]) <= U64_MAX
    ensures ByteEnd(regions[i]) % PAGE_SIZE == 0 && regions[i].start % PAGE_SIZE == 0
  {
    assert regions[i].WellFormed();
  }

  lemma PassedNext(overrides: seq<Region>, next: nat, cursor: int, later: int)
    requires Passed(overrides, next, cursor) && next < |overrides| && cursor <= later
            && ByteEnd(overrides[next]) <= later
    ensures Passed(overrides, next + 1, later)
  {
  }

  lemma PassedLater(overrides: seq<Region>, next: nat, cursor: int, later: int)
    requires Passed(overrides, next, cursor) && cursor <= later
    ensures Passed(overrides, next, later)
  {
  }

  lemma EmptyEmits(out: seq<Region>, capacity: nat, at: u64, kind: u32)
    ensures Emit(out, capacity, at, at, kind) == Ok(out)
  {
  }

  // Whole lists ---------------------------------------------------------------------------

  /** Between sources nothing is wanted, so the output already speaks for the gap. */
  lemma GapReaches(out: seq<Region>, capacity: nat, sources: seq<Region>, overrides: seq<Region>, i: nat, from: int)
    requires Ordered(sources) && i <= |sources| && UpTo(out, capacity, sources, overrides, from)
    requires from == if i == 0 then 0 else ByteEnd(sources[i - 1])
    ensures i < |sources| ==> UpTo(out, capacity, sources, overrides, sources[i].start)
    ensures i == |sources| ==> forall a, k :: At(out, a, k) <==> Wanted(sources, overrides, a, k)
  {
    forall a, j | from <= a && 0 <= j < |sources| && (i < |sources| ==> a < sources[i].start)
      ensures !Spans(sources[j], a)
    {
      if i < |sources| && j > i { assert ByteEnd(sources[i]) <= sources[j].start && sources[i].WellFormed(); }
      if i > 0 && j < i - 1 { assert ByteEnd(sources[j]) <= sources[i - 1].start && sources[i - 1].WellFormed(); }
    }
    if i < |sources| && i > 0 { assert ByteEnd(sources[i - 1]) <= sources[i].start; }
    forall a, k | from <= a && (i < |sources| ==> a < sources[i].start) ensures !Wanted(sources, overrides, a, k) {
    }
  }

  /** One source from its start to its end. */
  lemma SourceReaches(
    sources: seq<Region>, overrides: seq<Override>, capacity: nat, i: nat, next: nat, out: seq<Region>)
    requires Ordered(sources) && Ordered(OverrideRegions(overrides)) && i < |sources| && next <= |overrides|
    requires Passed(OverrideRegions(overrides), next, sources[i].start)
    requires UpTo(out, capacity, sources, OverrideRegions(overrides), sources[i].start)
    ensures var rs := OverrideRegions(overrides);
            match SweepSource(sources, overrides, capacity, i, next, out)
            case Ok((next', out')) =>
              UpTo(out', capacity, sources, rs, ByteEnd(sources[i])) && Passed(rs, next', ByteEnd(sources[i]))
            case Err(e) => e == CapacityExceeded && |WantedRuns(sources, rs)| > capacity
  {
    hide UpTo, Emit, WantedRuns, Wanted, Ordered, Passed, Overlay, ListError;
    var rs := OverrideRegions(overrides);
    var end := ByteEnd(sources[i]);
    NoListError(sources, i, SourceOutOfOrder, SourceOverlap);
    Member(sources, i);
    OverlayReaches(overrides, capacity, sources, i, Sweep(next, sources[i].start, out));
    var r := Overlay(overrides, capacity, sources[i], end, Sweep(next, sources[i].start, out));
    if r.Ok? {
      var t := r.value;
      forall a, k | t.cursor <= a < end ensures Wanted(sources, rs, a, k) <==> k == sources[i].kind {
        SourceWanted(sources, rs, i, t.next, t.cursor, end, a, k);
      }
      EmitReaches(t.out, capacity, sources, rs, t.cursor, end, sources[i].kind);
      PassedLater(rs, t.next, t.cursor, end);
    }
  }

  /** A list passes its neighbour-by-neighbour checks exactly when it is ordered. */
  lemma NoListError(regions: seq<Region>, i: nat, order: NormalizeError, overlap: NormalizeError)
    requires Ordered(regions) && i < |regions|
    ensures ListError(regions, i, order, overlap).None?
  {
    assert regions[i].WellFormed();
    if i > 0 { assert regions[i - 1].WellFormed() && ByteEnd(regions[i - 1]) <= regions[i].start; }
  }

  lemma {:induction false} SweepReaches(
    sources: seq<Region>, overrides: seq<Override>, capacity: nat, i: nat, next: nat, out: seq<Region>)
    requires Ordered(sources) && Ordered(OverrideRegions(overrides)) && i <= |sources| && next <= |overrides|
    requires var from := if i == 0 then 0 else ByteEnd(sources[i - 1]);
             && Passed(OverrideRegions(overrides), next, from)
             && UpTo(out, capacity, sources, OverrideRegions(overrides), from)
    ensures var rs := OverrideRegions(overrides);
            match SweepAll(sources, overrides, capacity, i, next, out)
            case Ok(end) =>
              Merged(end) && |end| <= capacity && forall a, k :: At(end, a, k) <==> Wanted(sources, rs, a, k)
            case Err(e) => e == CapacityExceeded && |WantedRuns(sources, rs)| > capacity
    decreases |sources| - i
  {
    var rs := OverrideRegions(overrides);
    var from := if i == 0 then 0 else ByteEnd(sources[i - 1]);
    GapReaches(out, capacity, sources, rs, i, from);
    if i < |sources| {
      if i > 0 { assert ByteEnd(sources[i - 1]) <= sources[i].start; }
      hide Ordered, Passed, Wanted, WantedRuns, SweepSource, UpTo;
      PassedLater(rs, next, from, sources[i].start);
      SourceReaches(sources, overrides, capacity, i, next, out);
      var r := SweepSource(sources, overrides, capacity, i, next, out);
      if r.Ok? {
        SweepReaches(sources, overrides, capacity, i + 1, r.value.0, r.value.1);
      }
    }
  }

  // The exact outcome ---------------------------------------------------------------------

  /** Source and override records have no attribute field; the model keeps it zero. */
  predicate Plain(regions: seq<Region>) {
    forall i :: 0 <= i < |regions| ==> regions[i].attributes == 0
  }

  lemma {:induction false} ListOrder(regions: seq<Region>, order: NormalizeError, overlap: NormalizeError, i: nat,
      k: nat)
    requires forall j :: 0 <= j < |regions| ==> ListError(regions, j, order, overlap).None?
    requires i < k < |regions|
    ensures ByteEnd(regions[i]) <= regions[k].start
    decreases k
  {
    assert ListError(regions, k, order, overlap).None? && ListError(regions, k - 1, order, overlap).None?;
    if i < k - 1 {
      ListOrder(regions, order, overlap, i, k - 1);
    }
  }

  lemma CleanListOrdered(regions: seq<Region>, order: NormalizeError, overlap: NormalizeError)
    requires Plain(regions)
    requires forall j :: 0 <= j < |regions| ==> ListError(regions, j, order, overlap).None?
    ensures Ordered(regions)
  {
    forall i | 0 <= i < |regions| ensures regions[i].WellFormed() {
      assert ListError(regions, i, order, overlap).None?;
    }
    forall i, k | 0 <= i < k < |regions| ensures ByteEnd(regions[i]) <= regions[k].start {
      ListOrder(regions, order, overlap, i, k);
    }
  }

  lemma {:induction false} OverridesListed(overrides: seq<Override>, i: nat)
    requires i <= |overrides|
    ensures CheckOverrides(overrides, i).Pass? <==>
            forall j :: i <= j < |overrides| ==>
              ListError(OverrideRegions(overrides), j, OverrideOutOfOrder, OverrideOverlap).None?
    decreases |overrides| - i
  {
    if i < |overrides| {
      OverridesListed(overrides, i + 1);
    }
  }

  /** The override check is exactly being ordered. */
  lemma {:induction false} OverridesOrdered(overrides: seq<Override>)
    requires Plain(OverrideRegions(overrides))
    ensures CheckOverrides(overrides, 0).Pass? <==> Ordered(OverrideRegions(overrides))
  {
    var rs := OverrideRegions(overrides);
    OverridesListed(overrides, 0);
    if CheckOverrides(overrides, 0).Pass? {
      CleanListOrdered(rs, OverrideOutOfOrder, OverrideOverlap);
    }
    if Ordered(rs) {
      forall j | 0 <= j < |rs| ensures ListError(rs, j, OverrideOutOfOrder, OverrideOverlap).None? {
        NoListError(rs, j, OverrideOutOfOrder, OverrideOverlap);
      }
    }
  }

  lemma {:induction false} SweepChecksSources(
    sources: seq<Region>, overrides: seq<Override>, capacity: nat, i: nat, next: nat, out: seq<Region>)
    requires i <= |sources| && next <= |overrides|
    requires SweepAll(sources, overrides, capacity, i, next, out).Ok?
    ensures forall j :: i <= j < |sources| ==> ListError(sources, j, SourceOutOfOrder, SourceOverlap).None?
    decreases |sources| - i
  {
    hide Overlay, Emit;
    if i < |sources| {
      var (next', out') := SweepSource(sources, overrides, capacity, i, next, out).value;
      SweepChecksSources(sources, overrides, capacity, i + 1, next', out');
    }
  }

  // Required overrides -----------------------------------------------------------------------

  /** The walk stops at `end` exactly when everything from the cursor on has the kind. */
  lemma {:induction false} WalkCovers(out: seq<Region>, j: nat, cursor: int, end: int, kind: int)
    requires Ordered(out) && j <= |out| && cursor < end
    requires forall i :: 0 <= i < j ==> ByteEnd(out[i]) <= cursor
    ensures var r := Walk(out, j, cursor, end, kind);
            r.Ok? && (r.value == end <==> forall a :: cursor <= a < end ==> At(out, a, kind))
    decreases |out| - j
  {
    if j == |out| {
      assert !At(out, cursor, kind);
    } else {
      Member(out, j);
      var regionEnd := ByteEnd(out[j]);
      if regionEnd <= cursor {
        WalkCovers(out, j + 1, cursor, end, kind);
      } else if out[j].start > cursor || out[j].kind != kind {
        NotThere(out, j, cursor, kind);
      } else {
        forall a | cursor <= a < regionEnd ensures At(out, a, kind) {
          SameKindInside(out, j, a);
        }
        if regionEnd < end {
          forall i | 0 <= i < j + 1 ensures ByteEnd(out[i]) <= regionEnd {}
          WalkCovers(out, j + 1, regionEnd, end, kind);
        }
      }
    }
  }

  lemma NotThere(out: seq<Region>, j: nat, cursor: int, kind: int)
    requires Ordered(out) && j < |out| && cursor < ByteEnd(out[j])
    requires forall i :: 0 <= i < j ==> ByteEnd(out[i]) <= cursor
    requires out[j].start > cursor || out[j].kind != kind
    ensures !At(out, cursor, kind)
  {
    forall i | 0 <= i < |out| ensures !(out[i].kind == kind && Spans(out[i], cursor)) {
      if i > j { assert ByteEnd(out[j]) <= out[i].start; }
    }
  }

  /** Override `i`, if required, lies inside the sources. */
  predicate Inside(sources: seq<Region>, o: Override) {
    o.required ==> forall a :: o.region.start <= a < ByteEnd(o.region) ==> CoveredAt(sources, a)
  }

  lemma {:induction false} RequiredMeansInside(sources: seq<Region>, overrides: seq<Override>, out: seq<Region>, i: nat)
    requires Ordered(OverrideRegions(overrides)) && Merged(out) && i < |overrides| && overrides[i].required
    requires forall a, k :: At(out, a, k) <==> Wanted(sources, OverrideRegions(overrides), a, k)
    ensures var o := overrides[i].region;
            && RegionEnd(o.start, o.pages) == Ok(ByteEnd(o))
            && var r := Walk(out, 0, o.start, ByteEnd(o), o.kind);
            && r.Ok? && (r.value == ByteEnd(o) <==> Inside(sources, overrides[i]))
  {
    var rs := OverrideRegions(overrides);
    var o := overrides[i].region;
    Member(rs, i);
    WalkCovers(out, 0, o.start, ByteEnd(o), o.kind);
    forall a | o.start <= a < ByteEnd(o) ensures At(out, a, o.kind) <==> CoveredAt(sources, a) {
      assert Spans(rs[i], a);
    }
  }

  lemma {:induction false} RequiredExact(sources: seq<Region>, overrides: seq<Override>, out: seq<Region>, i: nat)
    requires Ordered(OverrideRegions(overrides)) && Merged(out) && i <= |overrides|
    requires forall a, k :: At(out, a, k) <==> Wanted(sources, OverrideRegions(overrides), a, k)
    ensures CheckRequired(overrides, out, i).Pass?
            <==> forall j :: i <= j < |overrides| ==> Inside(sources, overrides[j])
    decreases |overrides| - i
  {
    hide Wanted, Merged, Walk, Ordered;
    if i < |overrides| {
      RequiredExact(sources, overrides, out, i + 1);
      if overrides[i].required {
        RequiredMeansInside(sources, overrides, out, i);
      }
    }
  }

  // The theorem --------------------------------------------------------------------------------

  /** Every condition of success, in terms of the inputs alone. */
  ghost predicate Acceptable(sources: seq<Region>, overrides: seq<Override>, capacity: nat) {
    && capacity <= MAX_MEMORY_REGIONS
    && sources != [] && Ordered(sources) && Ordered(OverrideRegions(overrides))
    && |WantedRuns(sources, OverrideRegions(overrides))| <= capacity
    && forall i :: 0 <= i < |overrides| ==> Inside(sources, overrides[i])
  }

  lemma EmptyUpTo(capacity: nat, sources: seq<Region>, overrides: seq<Region>)
    requires Ordered(sources)
    ensures UpTo([], capacity, sources, overrides, 0)
  {
    forall a | a < 0 ensures !CoveredAt(sources, a) {
      forall i | 0 <= i < |sources| ensures !Spans(sources[i], a) {
        assert sources[i].WellFormed();
      }
    }
  }

  /** The full list holds exactly as many entries as the map has runs. */
  lemma CountIsRuns(out: seq<Region>, sources: seq<Region>, overrides: seq<Region>)
    requires Merged(out) && forall a, k :: At(out, a, k) <==> Wanted(sources, overrides, a, k)
    ensures |out| == |WantedRuns(sources, overrides)|
  {
    StartsCount(out);
    forall x ensures x in Starts(out) <==> x in WantedRuns(sources, overrides) {
      if x in Starts(out) {
        var i := StartsElement(out, x);
        StartIsFresh(out, i);
        assert out[i].WellFormed();
        assert Begins(sources, overrides, x, out[i].kind);
      }
      if x in WantedRuns(sources, overrides) {
        var k :| Begins(sources, overrides, x, k);
        RunHasRegion(out, x, k);
      }
    }
    assert Starts(out) == WantedRuns(sources, overrides);
  }

  lemma {:induction false} RunHasRegion(out: seq<Region>, x: int, k: int)
    requires Ordered(out) && At(out, x, k) && !At(out, x - 1, k)
    ensures x in Starts(out)
  {
    var i :| 0 <= i < |out| && out[i].kind == k && Spans(out[i], x);
    assert !Spans(out[i], x - 1);
    StartIn(out, i);
  }

  lemma {:induction false} StartIn(out: seq<Region>, i: nat)
    requires i < |out|
    ensures out[i].start in Starts(out)
    decreases |out|
  {
    if i < |out| - 1 {
      StartIn(out[..|out| - 1], i);
    }
  }

  lemma SomethingWanted(out: seq<Region>, sources: seq<Region>, overrides: seq<Region>)
    requires Ordered(sources) && Ordered(overrides) && sources != []
    requires forall a, k :: At(out, a, k) <==> Wanted(sources, overrides, a, k)
    ensures out != []
  {
    var a := sources[0].start;
    Member(sources, 0);
    assert Spans(sources[0], a);
    if CoveredAt(overrides, a) {
      var j :| 0 <= j < |overrides| && Spans(overrides[j], a);
      assert Wanted(sources, overrides, a, overrides[j].kind);
    } else {
      assert Wanted(sources, overrides, a, sources[0].kind);
    }
  }

  /**
   Normalisation succeeds exactly on acceptable inputs, and then the output is the
   unique merged list that gives every source address its override's kind, or its own,
   and mentions no other address.
   */
  lemma NormalizeExact(sources: seq<Region>, overrides: seq<Override>, capacity: nat)
    requires Plain(sources) && Plain(OverrideRegions(overrides))
    ensures var r := Normalized(sources, overrides, capacity);
            && (r.Ok? <==> Acceptable(sources, overrides, capacity))
            && (r.Ok? ==>
                  && Merged(r.value)
                  && (forall a, k :: At(r.value, a, k) <==> Wanted(sources, OverrideRegions(overrides), a, k))
                  && |r.value| == |WantedRuns(sources, OverrideRegions(overrides))|)
  {
    hide Wanted, WantedRuns, Merged, Ordered, SweepAll, CheckRequired, CheckOverrides, Inside, Plain;
    var rs := OverrideRegions(overrides);
    OverridesOrdered(overrides);
    var r := SweepAll(sources, overrides, capacity, 0, 0, []);
    if r.Ok? {
      SweepChecksSources(sources, overrides, capacity, 0, 0, []);
      CleanListOrdered(sources, SourceOutOfOrder, SourceOverlap);
    }
    if Ordered(rs) && Ordered(sources) {
      EmptyUpTo(capacity, sources, rs);
      NothingPassed(rs);
      SweepReaches(sources, overrides, capacity, 0, 0, []);
      if r.Ok? {
        CountIsRuns(r.value, sources, rs);
        RequiredExact(sources, overrides, r.value, 0);
        if sources == [] {
          assert SweepAll(sources, overrides, capacity, 0, 0, []) == Ok([]) by { NoSources(overrides, capacity); }
        } else {
          SomethingWanted(r.value, sources, rs);
        }
      }
    }
  }

  lemma NothingPassed(overrides: seq<Region>)
    ensures Passed(overrides, 0, 0)
  {
  }

  lemma {:induction false} NoSources(overrides: seq<Override>, capacity: nat)
    ensures SweepAll([], overrides, capacity, 0, 0, []) == Ok([])
  {
  }
}
