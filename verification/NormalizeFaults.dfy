/**
 What a refused memory map is told. The checks of the override list come first; the
 source list is then checked while it is swept, so a source's fault is reported only if
 the map of the sources before it fits the output.
 */
module NormalizeFaults {
  import opened Words
  import opened Regions
  import opened Normalize
  import opened NormalizeMeaning

  /** The first thing wrong with record `i` of a list, given the record before it. */
  function Flaw(regions: seq<Region>, i: nat, order: NormalizeError, overlap: NormalizeError): Option<NormalizeError>
    requires i < |regions|
  {
    var r := regions[i];
    if r.kind !in {0, 1, 2, 3, 4, 5} then Some(UnknownKind)
    else if r.pages == 0 then Some(ZeroPages)
    else if r.start % 4096 != 0 then Some(UnalignedStart)
    else if r.start + 4096 * r.pages >= 0x1_0000_0000_0000_0000 then Some(RangeOverflow)
    else if i == 0 then None
    else if r.start < regions[i - 1].start then Some(order)
    else if r.start < regions[i - 1].start + 4096 * regions[i - 1].pages then Some(overlap)
    else None
  }

  predicate Flawless(regions: seq<Region>, n: nat, order: NormalizeError, overlap: NormalizeError)
    requires n <= |regions|
  {
    forall i :: 0 <= i < n ==> Flaw(regions, i, order, overlap).None?
  }

  lemma FlawIsListed(regions: seq<Region>, i: nat, order: NormalizeError, overlap: NormalizeError)
    requires i < |regions|
    ensures ListError(regions, i, order, overlap) == Flaw(regions, i, order, overlap)
  {
  }

  lemma FlawlessOrdered(regions: seq<Region>, n: nat, order: NormalizeError, overlap: NormalizeError)
    requires Plain(regions) && n <= |regions| && Flawless(regions, n, order, overlap)
    ensures Ordered(regions[..n])
  {
    forall i | 0 <= i < n ensures ListError(regions[..n], i, order, overlap).None? {
      FlawIsListed(regions[..n], i, order, overlap);
      assert Flaw(regions, i, order, overlap).None?;
    }
    CleanListOrdered(regions[..n], order, overlap);
  }

  // The override list ------------------------------------------------------------------------------

  lemma {:induction false} OverridesToFlaw(overrides: seq<Override>, i: nat, n: nat)
    requires i <= n < |overrides|
    requires Flawless(OverrideRegions(overrides), n, OverrideOutOfOrder, OverrideOverlap)
    requires Flaw(OverrideRegions(overrides), n, OverrideOutOfOrder, OverrideOverlap).Some?
    ensures CheckOverrides(overrides, i)
         == Fail(Flaw(OverrideRegions(overrides), n, OverrideOutOfOrder, OverrideOverlap).value)
    decreases n - i
  {
    var rs := OverrideRegions(overrides);
    FlawIsListed(rs, i, OverrideOutOfOrder, OverrideOverlap);
    hide Flaw, ListError;
    if i < n {
      OverridesToFlaw(overrides, i + 1, n);
    }
  }

  /** A flawed override list is refused for its first flaw, whatever the sources are. */
  lemma OverridesRefused(sources: seq<Region>, overrides: seq<Override>, capacity: nat, n: nat)
    requires capacity <= MAX_MEMORY_REGIONS && n < |overrides|
    requires Flawless(OverrideRegions(overrides), n, OverrideOutOfOrder, OverrideOverlap)
    requires Flaw(OverrideRegions(overrides), n, OverrideOutOfOrder, OverrideOverlap).Some?
    ensures Normalized(sources, overrides, capacity)
         == Err(Flaw(OverrideRegions(overrides), n, OverrideOutOfOrder, OverrideOverlap).value)
  {
    OverridesToFlaw(overrides, 0, n);
    hide Flaw, SweepAll, CheckOverrides, CheckRequired;
  }

  // The source list --------------------------------------------------------------------------------

  lemma SweepSourceOfPrefix(
    sources: seq<Region>, n: nat, overrides: seq<Override>, capacity: nat, i: nat, next: nat, out: seq<Region>)
    requires i < n <= |sources| && next <= |overrides|
    ensures SweepSource(sources[..n], overrides, capacity, i, next, out)
         == SweepSource(sources, overrides, capacity, i, next, out)
  {
    hide Overlay, Emit;
    assert sources[..n][i] == sources[i];
    if i > 0 { assert sources[..n][i - 1] == sources[i - 1]; }
  }

  /** A sweep that meets a flawed source ends with its flaw, or earlier as the sweep before it does. */
  lemma {:induction false} SweepOfPrefix(
    sources: seq<Region>, n: nat, overrides: seq<Override>, capacity: nat, i: nat, next: nat, out: seq<Region>)
    requires i <= n < |sources| && next <= |overrides|
    requires Flaw(sources, n, SourceOutOfOrder, SourceOverlap).Some?
    ensures var whole := SweepAll(sources, overrides, capacity, i, next, out);
            match SweepAll(sources[..n], overrides, capacity, i, next, out)
            case Ok(_) => whole == Err(Flaw(sources, n, SourceOutOfOrder, SourceOverlap).value)
            case Err(e) => whole == Err(e)
    decreases n - i
  {
    if i == n {
      FlawIsListed(sources, n, SourceOutOfOrder, SourceOverlap);
      hide Flaw, ListError;
    } else {
      hide Flaw, SweepSource;
      SweepSourceOfPrefix(sources, n, overrides, capacity, i, next, out);
      var r := SweepSource(sources, overrides, capacity, i, next, out);
      if r.Ok? {
        SweepOfPrefix(sources, n, overrides, capacity, i + 1, r.value.0, r.value.1);
      }
    }
  }

  /**
   With the overrides in order and source `n` the first flawed one: the map is refused for
   want of room when the sources before it need too many runs, and otherwise for that flaw.
   */
  lemma SourcesRefused(sources: seq<Region>, overrides: seq<Override>, capacity: nat, n: nat)
    requires Plain(sources) && Plain(OverrideRegions(overrides))
    requires capacity <= MAX_MEMORY_REGIONS && Ordered(OverrideRegions(overrides)) && n < |sources|
    requires Flawless(sources, n, SourceOutOfOrder, SourceOverlap)
    requires Flaw(sources, n, SourceOutOfOrder, SourceOverlap).Some?
    ensures Normalized(sources, overrides, capacity)
         == Err(if |WantedRuns(sources[..n], OverrideRegions(overrides))| > capacity then CapacityExceeded
                else Flaw(sources, n, SourceOutOfOrder, SourceOverlap).value)
  {
    hide Flaw, Flawless, Wanted, WantedRuns, Merged, Ordered, SweepAll, CheckRequired, CheckOverrides, Plain;
    var rs := OverrideRegions(overrides);
    OverridesOrdered(overrides);
    FlawlessOrdered(sources, n, SourceOutOfOrder, SourceOverlap);
    SweepOfPrefix(sources, n, overrides, capacity, 0, 0, []);
    PrefixSweeps(sources[..n], overrides, capacity);
  }

  /** An ordered list is swept to the end exactly when its runs fit. */
  lemma {:induction false} PrefixSweeps(sources: seq<Region>, overrides: seq<Override>, capacity: nat)
    requires Ordered(sources) && Ordered(OverrideRegions(overrides))
    ensures var rs := OverrideRegions(overrides);
            match SweepAll(sources, overrides, capacity, 0, 0, [])
            case Ok(out) =>
              && |WantedRuns(sources, rs)| <= capacity && Merged(out)
              && forall a, k :: At(out, a, k) <==> Wanted(sources, rs, a, k)
            case Err(e) => e == CapacityExceeded && |WantedRuns(sources, rs)| > capacity
  {
    hide Wanted, WantedRuns, Merged, Ordered, SweepAll;
    var rs := OverrideRegions(overrides);
    EmptyUpTo(capacity, sources, rs);
    NothingPassed(rs);
    SweepReaches(sources, overrides, capacity, 0, 0, []);
    var r := SweepAll(sources, overrides, capacity, 0, 0, []);
    if r.Ok? {
      CountIsRuns(r.value, sources, rs);
    }
  }

  // Sound lists ------------------------------------------------------------------------------------

  lemma {:induction false} RequiredFault(sources: seq<Region>, overrides: seq<Override>, out: seq<Region>, i: nat)
    requires Ordered(OverrideRegions(overrides)) && Merged(out) && i <= |overrides|
    requires forall a, k :: At(out, a, k) <==> Wanted(sources, OverrideRegions(overrides), a, k)
    ensures CheckRequired(overrides, out, i).Fail? ==>
              CheckRequired(overrides, out, i) == Fail(OverrideOutsideSource)
    decreases |overrides| - i
  {
    hide Wanted, Merged, Walk, Ordered;
    if i < |overrides| {
      RequiredFault(sources, overrides, out, i + 1);
      if overrides[i].required {
        RequiredMeansInside(sources, overrides, out, i);
      }
    }
  }

  /** With both lists in order, what is left to refuse, in the order it is refused. */
  lemma OrderedRefused(sources: seq<Region>, overrides: seq<Override>, capacity: nat)
    requires Plain(sources) && Plain(OverrideRegions(overrides))
    requires Ordered(sources) && Ordered(OverrideRegions(overrides))
    ensures var r := Normalized(sources, overrides, capacity);
            && (r == Err(CapacityExceeded) <==>
                capacity > 1024 || |WantedRuns(sources, OverrideRegions(overrides))| > capacity)
            && (r == Err(EmptySource) <==> capacity <= 1024 && sources == [])
            && (r.Err? ==> r.error in {CapacityExceeded, EmptySource, OverrideOutsideSource})
  {
    hide Wanted, WantedRuns, Merged, Ordered, SweepAll, CheckRequired, CheckOverrides, Inside, Plain;
    var rs := OverrideRegions(overrides);
    OverridesOrdered(overrides);
    PrefixSweeps(sources, overrides, capacity);
    if sources == [] {
      NoSources(overrides, capacity);
    }
    var r := SweepAll(sources, overrides, capacity, 0, 0, []);
    if r.Ok? {
      RequiredFault(sources, overrides, r.value, 0);
      if sources != [] {
        SomethingWanted(r.value, sources, rs);
      }
    }
  }
}
