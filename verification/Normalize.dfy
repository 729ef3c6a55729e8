/**
 Overlaying the firmware memory map with loader overrides: a two-cursor sweep that
 writes merged regions into a bounded output, with the source's checks and errors.
 */
module Normalize {
  import opened Words
  import opened Regions

  datatype Override = Override(region: Region, required: bool)

  datatype NormalizeError =
    | EmptySource | ZeroPages | UnalignedStart | RangeOverflow | UnknownKind | SourceOutOfOrder | SourceOverlap
    | OverrideOutOfOrder | OverrideOverlap | OverrideOutsideSource | CapacityExceeded

  function RegionEnd(start: u64, pages: u64): Result<u64, NormalizeError> {
    if pages == 0 then Err(ZeroPages)
    else if start % PAGE_SIZE != 0 then Err(UnalignedStart)
    else if start + pages * PAGE_SIZE > U64_MAX then Err(RangeOverflow)
    else Ok(start + pages * PAGE_SIZE)
  }

  function CheckedEnd(r: Region): Result<u64, NormalizeError> {
    if !KnownKind(r.kind) then Err(UnknownKind) else RegionEnd(r.start, r.pages)
  }

  /** The first check a list fails at `i`; the order and overlap errors are the caller's. */
  function ListError(regions: seq<Region>, i: nat, order: NormalizeError, overlap: NormalizeError):
    Option<NormalizeError>
    requires i < |regions|
  {
    match CheckedEnd(regions[i])
    case Err(e) => Some(e)
    case Ok(_) =>
      if i > 0 && regions[i].start < regions[i - 1].start then Some(order)
      else if i > 0 && regions[i].start < ByteEnd(regions[i - 1]) then Some(overlap)
      else None
  }

  function OverrideRegions(overrides: seq<Override>): seq<Region> {
    seq(|overrides|, i requires 0 <= i < |overrides| => overrides[i].region)
  }

  // The writer -------------------------------------------------------------------

  /** Append a run, growing the last region when it continues with the same kind. */
  function Emit(out: seq<Region>, capacity: nat, start: u64, end: u64, kind: u32): Result<seq<Region>, NormalizeError>
    requires start <= end
  {
    if start == end then Ok(out)
    else
      var pages := (end - start) / PAGE_SIZE;
      if out == [] then Append(out, capacity, Region(start, pages, kind, 0))
      else
        var last := out[|out| - 1];
        var lastEnd :- RegionEnd(last.start, last.pages);
        if last.kind == kind && lastEnd == start then
          if last.pages + pages > U64_MAX then Err(RangeOverflow)
          else Ok(out[..|out| - 1] + [last.(pages := last.pages + pages)])
        else Append(out, capacity, Region(start, pages, kind, 0))
  }

  function Append(out: seq<Region>, capacity: nat, r: Region): Result<seq<Region>, NormalizeError> {
    if |out| == capacity then Err(CapacityExceeded) else Ok(out + [r])
  }

  class RegionWriter {
    const output: array<Region>
    var len: nat

    constructor (output: array<Region>)
      ensures this.output == output && len == 0
    {
      this.output := output;
      len := 0;
    }

    ghost predicate Valid()
      reads this
    {
      len <= output.Length
    }

    ghost function Written(): seq<Region>
      reads this, output
      requires Valid()
    {
      output[..len]
    }

    method EmitRun(start: u64, end: u64, kind: u32) returns (r: Outcome<NormalizeError>)
      requires Valid() && start <= end
      modifies this, output
      ensures Valid()
      ensures match Emit(old(Written()), output.Length, start, end, kind)
              case Ok(out) => r == Pass && Written() == out
              case Err(e) => r == Fail(e) && Written() == old(Written())
    {
      if start == end {
        return Pass;
      }
      var pages := (end - start) / PAGE_SIZE;
      if len > 0 {
        var previous := output[len - 1];
        var previousEnd := RegionEnd(previous.start, previous.pages);
        if previousEnd.Err? {
          return Fail(previousEnd.error);
        }
        if previous.kind == kind && previousEnd.value == start {
          if previous.pages + pages > U64_MAX {
            return Fail(RangeOverflow);
          }
          output[len - 1] := previous.(pages := previous.pages + pages);
          return Pass;
        }
      }
      if len == output.Length {
        return Fail(CapacityExceeded);
      }
      output[len] := Region(start, pages, kind, 0);
      len := len + 1;
      return Pass;
    }
  }

  // The sweep ---------------------------------------------------------------------

  datatype Sweep = Sweep(next: nat, cursor: u64, out: seq<Region>)

  /** Overlay one source from `s.cursor` on, consuming the overrides that end inside it. */
  function Overlay(overrides: seq<Override>, capacity: nat, source: Region, sourceEnd: u64, s: Sweep):
    (r: Result<Sweep, NormalizeError>)
    requires s.next <= |overrides| && s.cursor <= sourceEnd
    ensures r.Ok? ==> s.cursor <= r.value.cursor <= sourceEnd && s.next <= r.value.next <= |overrides|
    decreases |overrides| - s.next
  {
    if s.next == |overrides| then Ok(s)
    else
      var o := overrides[s.next].region;
      var overrideEnd :- RegionEnd(o.start, o.pages);
      if overrideEnd <= s.cursor then Overlay(overrides, capacity, source, sourceEnd, s.(next := s.next + 1))
      else if o.start >= sourceEnd then Ok(s)
      else
        var from := if o.start > s.cursor then o.start else s.cursor;
        var to := if overrideEnd < sourceEnd then overrideEnd else sourceEnd;
        var before :- Emit(s.out, capacity, s.cursor, from, source.kind);
        var after :- Emit(before, capacity, from, to, o.kind);
        if to == overrideEnd then Overlay(overrides, capacity, source, sourceEnd, Sweep(s.next + 1, to, after))
        else Ok(Sweep(s.next, to, after))
  }

  /** One source from start to end. */
  function SweepSource(
    sources: seq<Region>, overrides: seq<Override>, capacity: nat, i: nat, next: nat, out: seq<Region>):
    (r: Result<(nat, seq<Region>), NormalizeError>)
    requires i < |sources| && next <= |overrides|
    ensures r.Ok? ==> next <= r.value.0 <= |overrides|
  {
    match ListError(sources, i, SourceOutOfOrder, SourceOverlap)
    case Some(e) => Err(e)
    case None =>
      var end := CheckedEnd(sources[i]).value;
      var s :- Overlay(overrides, capacity, sources[i], end, Sweep(next, sources[i].start, out));
      var done :- Emit(s.out, capacity, s.cursor, end, sources[i].kind);
      Ok((s.next, done))
  }

  function SweepAll(
    sources: seq<Region>, overrides: seq<Override>, capacity: nat, i: nat, next: nat, out: seq<Region>):
    Result<seq<Region>, NormalizeError>
    requires i <= |sources| && next <= |overrides|
    decreases |sources| - i
  {
    if i == |sources| then Ok(out)
    else
      var (next', out') :- SweepSource(sources, overrides, capacity, i, next, out);
      SweepAll(sources, overrides, capacity, i + 1, next', out')
  }

  // The check of required overrides ---------------------------------------------------

  /** Walk the output from `cursor` while it stays contiguous and of `kind`; where the walk ends. */
  function Walk(out: seq<Region>, j: nat, cursor: int, end: int, kind: int): (stop: Result<int, NormalizeError>)
    requires j <= |out|
    decreases |out| - j
  {
    if j == |out| then Ok(cursor)
    else
      var regionEnd :- RegionEnd(out[j].start, out[j].pages);
      if regionEnd <= cursor then Walk(out, j + 1, cursor, end, kind)
      else if out[j].start > cursor || out[j].kind != kind then Ok(cursor)
      else
        var next := if regionEnd < end then regionEnd else end;
        if next == end then Ok(next) else Walk(out, j + 1, next, end, kind)
  }

  /** Each required override from `i` on is covered in full by its own kind. */
  function CheckRequired(overrides: seq<Override>, out: seq<Region>, i: nat): Outcome<NormalizeError>
    requires i <= |overrides|
    decreases |overrides| - i
  {
    if i == |overrides| then Pass
    else if !overrides[i].required then CheckRequired(overrides, out, i + 1)
    else
      var o := overrides[i].region;
      match RegionEnd(o.start, o.pages)
      case Err(e) => Fail(e)
      case Ok(end) =>
        match Walk(out, 0, o.start, end, o.kind)
        case Err(e) => Fail(e)
        case Ok(stop) =>
          if stop != end then Fail(OverrideOutsideSource) else CheckRequired(overrides, out, i + 1)
  }

  function CheckOverrides(overrides: seq<Override>, i: nat): Outcome<NormalizeError>
    requires i <= |overrides|
    decreases |overrides| - i
  {
    if i == |overrides| then Pass
    else
      match ListError(OverrideRegions(overrides), i, OverrideOutOfOrder, OverrideOverlap)
      case Some(e) => Fail(e)
      case None => CheckOverrides(overrides, i + 1)
  }

  /** The whole operation as a function of its inputs and the output's capacity. */
  function Normalized(sources: seq<Region>, overrides: seq<Override>, capacity: nat):
    Result<seq<Region>, NormalizeError>
  {
    if capacity > MAX_MEMORY_REGIONS then Err(CapacityExceeded)
    else
      var listed := CheckOverrides(overrides, 0);
      if listed.Fail? then Err(listed.error)
      else
        var out :- SweepAll(sources, overrides, capacity, 0, 0, []);
        if out == [] then Err(EmptySource)
        else
          var covered := CheckRequired(overrides, out, 0);
          if covered.Fail? then Err(covered.error) else Ok(out)
  }

  // The imperative form ---------------------------------------------------------------

  method ValidateOverrides(overrides: seq<Override>) returns (r: Outcome<NormalizeError>)
    ensures r == CheckOverrides(overrides, 0)
  {
    var previousStart: Option<u64> := None;
    var previousEnd: Option<u64> := None;
    var i := 0;
    while i < |overrides|
      invariant 0 <= i <= |overrides|
      invariant CheckOverrides(overrides, i) == CheckOverrides(overrides, 0)
      invariant previousStart == if i == 0 then None else Some(overrides[i - 1].region.start)
      invariant i > 0 ==> previousEnd.Some? && previousEnd.value == ByteEnd(overrides[i - 1].region)
      invariant i == 0 ==> previousEnd.None?
    {
      var replacement := overrides[i].region;
      var end := CheckedEnd(replacement);
      if end.Err? {
        return Fail(end.error);
      }
      if previousStart.Some? && replacement.start < previousStart.value {
        return Fail(OverrideOutOfOrder);
      }
      if previousEnd.Some? && replacement.start < previousEnd.value {
        return Fail(OverrideOverlap);
      }
      previousStart, previousEnd := Some(replacement.start), Some(end.value);
      i := i + 1;
    }
    return Pass;
  }

  method ValidateRequired(overrides: seq<Override>, out: seq<Region>) returns (r: Outcome<NormalizeError>)
    ensures r == CheckRequired(overrides, out, 0)
  {
    var i := 0;
    while i < |overrides|
      invariant 0 <= i <= |overrides|
      invariant CheckRequired(overrides, out, i) == CheckRequired(overrides, out, 0)
    {
      if overrides[i].required {
        var replacement := overrides[i].region;
        var end := RegionEnd(replacement.start, replacement.pages);
        if end.Err? {
          return Fail(end.error);
        }
        var stop := WalkOutput(out, replacement.start, end.value, replacement.kind);
        if stop.Err? {
          return Fail(stop.error);
        }
        if stop.value != end.value {
          return Fail(OverrideOutsideSource);
        }
      }
      i := i + 1;
    }
    return Pass;
  }

  method WalkOutput(out: seq<Region>, start: u64, end: u64, kind: u32) returns (stop: Result<int, NormalizeError>)
    ensures stop == Walk(out, 0, start, end, kind)
  {
    var cursor := start;
    var j := 0;
    while j < |out|
      invariant 0 <= j <= |out|
      invariant Walk(out, j, cursor, end, kind) == Walk(out, 0, start, end, kind)
    {
      var regionEnd := RegionEnd(out[j].start, out[j].pages);
      if regionEnd.Err? {
        return Err(regionEnd.error);
      }
      if regionEnd.value > cursor {
        if out[j].start > cursor || out[j].kind != kind {
          return Ok(cursor);
        }
        cursor := if regionEnd.value < end then regionEnd.value else end;
        if cursor == end {
          return Ok(cursor);
        }
      }
      j := j + 1;
    }
    return Ok(cursor);
  }

  /** The inner loop: overlay one source. */
  method OverlaySource(overrides: seq<Override>, writer: RegionWriter, source: Region, sourceEnd: u64, first: nat)
    returns (r: Outcome<NormalizeError>, next: nat, cursor: u64)
    requires writer.Valid() && first <= |overrides| && source.start <= sourceEnd
    modifies writer, writer.output
    ensures writer.Valid()
    ensures match Overlay(overrides, writer.output.Length, source, sourceEnd,
                          Sweep(first, source.start, old(writer.Written())))
            case Ok(s) => r == Pass && next == s.next && cursor == s.cursor && writer.Written() == s.out
            case Err(e) => r == Fail(e)
  {
    hide Emit;
    next, cursor := first, source.start;
    ghost var goal := Overlay(overrides, writer.output.Length, source, sourceEnd,
                              Sweep(first, source.start, writer.Written()));
    while next < |overrides|
      invariant next <= |overrides| && cursor <= sourceEnd && writer.Valid()
      invariant Overlay(overrides, writer.output.Length, source, sourceEnd, Sweep(next, cursor, writer.Written()))
              == goal
    {
      var replacement := overrides[next].region;
      var replacementEnd := RegionEnd(replacement.start, replacement.pages);
      if replacementEnd.Err? {
        return Fail(replacementEnd.error), next, cursor;
      }
      if replacementEnd.value <= cursor {
        next := next + 1;
        continue;
      }
      if replacement.start >= sourceEnd {
        break;
      }
      var from := if replacement.start > cursor then replacement.start else cursor;
      var first := writer.EmitRun(cursor, from, source.kind);
      if first.Fail? {
        return Fail(first.error), next, cursor;
      }
      var to := if replacementEnd.value < sourceEnd then replacementEnd.value else sourceEnd;
      var second := writer.EmitRun(from, to, replacement.kind);
      if second.Fail? {
        return Fail(second.error), next, cursor;
      }
      cursor := to;
      if to == replacementEnd.value {
        next := next + 1;
      } else {
        return Pass, next, cursor;
      }
    }
    return Pass, next, cursor;
  }

  /** The outer loop: check and overlay every source. */
  method SweepSources(sources: seq<Region>, overrides: seq<Override>, writer: RegionWriter)
    returns (r: Outcome<NormalizeError>)
    requires writer.Valid() && writer.len == 0
    modifies writer, writer.output
    ensures writer.Valid()
    ensures match SweepAll(sources, overrides, writer.output.Length, 0, 0, [])
            case Ok(out) => r == Pass && writer.Written() == out
            case Err(e) => r == Fail(e)
  {
    hide Overlay, Emit;
    ghost var goal := SweepAll(sources, overrides, writer.output.Length, 0, 0, []);
    var previousStart: Option<u64> := None;
    var previousEnd: Option<u64> := None;
    var next: nat := 0;
    var i := 0;
    assert writer.Written() == [];
    while i < |sources|
      invariant 0 <= i <= |sources| && next <= |overrides| && writer.Valid()
      invariant SweepAll(sources, overrides, writer.output.Length, i, next, writer.Written()) == goal
      invariant previousStart == if i == 0 then None else Some(sources[i - 1].start)
      invariant i > 0 ==> previousEnd.Some? && previousEnd.value == ByteEnd(sources[i - 1])
      invariant i == 0 ==> previousEnd.None?
    {
      var source := sources[i];
      var sourceEnd := CheckedEnd(source);
      if sourceEnd.Err? {
        return Fail(sourceEnd.error);
      }
      if previousStart.Some? && source.start < previousStart.value {
        return Fail(SourceOutOfOrder);
      }
      if previousEnd.Some? && source.start < previousEnd.value {
        return Fail(SourceOverlap);
      }
      var swept, following, cursor := OverlaySource(overrides, writer, source, sourceEnd.value, next);
      if swept.Fail? {
        return Fail(swept.error);
      }
      var tail := writer.EmitRun(cursor, sourceEnd.value, source.kind);
      if tail.Fail? {
        return Fail(tail.error);
      }
      next := following;
      previousStart, previousEnd := Some(source.start), Some(sourceEnd.value);
      i := i + 1;
    }
    return Pass;
  }

  /** Normalise into `output`; on success the first `count` entries are the result. */
  method NormalizeMemoryRegions(sources: seq<Region>, overrides: seq<Override>, output: array<Region>)
    returns (r: Result<nat, NormalizeError>)
    modifies output
    ensures match Normalized(sources, overrides, output.Length)
            case Ok(out) => r == Ok(|out|) && |out| <= output.Length && output[..|out|] == out
            case Err(e) => r == Err(e)
  {
    hide SweepAll, CheckRequired, CheckOverrides;
    if output.Length > MAX_MEMORY_REGIONS {
      return Err(CapacityExceeded);
    }
    var listed := ValidateOverrides(overrides);
    if listed.Fail? {
      return Err(listed.error);
    }
    var writer := new RegionWriter(output);
    var swept := SweepSources(sources, overrides, writer);
    if swept.Fail? {
      return Err(swept.error);
    }
    if writer.len == 0 {
      return Err(EmptySource);
    }
    var covered := ValidateRequired(overrides, output[..writer.len]);
    if covered.Fail? {
      return Err(covered.error);
    }
    return Ok(writer.len);
  }
}
