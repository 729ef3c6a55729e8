/**
 The ELF64 image check (System V gABI, ELF header and program header table): which
 images are accepted and what their load segments then satisfy.
 */
module KernelImage {
  import opened Words

  type u8 = x: int | 0 <= x <= 255

  const ELF_HEADER_SIZE: nat := 64
  const PROGRAM_HEADER_SIZE: nat := 56
  const MINIMUM_LOAD_ADDRESS: int := 0x10_0000
  const MAXIMUM_LOAD_SEGMENTS: nat := 16

  datatype ImageError =
    | ImageTooSmall | InvalidMagic | UnsupportedClass | UnsupportedEndianness | UnsupportedVersion | UnsupportedType
    | UnsupportedMachine | InvalidHeaderSize | InvalidProgramHeaderSize | MissingProgramHeaders | TooManyLoadSegments
    | ProgramHeaderTableOutOfBounds | SegmentOutOfBounds | SegmentFilesLargerThanMemory | SegmentAddressMismatch
    | SegmentAddressTooLow | SegmentAlignment | SegmentOverlap | EntryNotExecutable | ArithmeticOverflow

  datatype Segment = Segment(fileOffset: nat, fileSize: nat, start: u64, memorySize: u64, flags: int) {
    predicate Executable() {
      flags % 2 == 1
    }

    function End(): int {
      start + memorySize
    }

    /** Pages needed, rounding up. */
    function PageCount(): int {
      (memorySize + PAGE_SIZE - 1) / PAGE_SIZE
    }
  }

  datatype Image = Image(bytes: seq<u8>, entry: u64, tableOffset: nat, tableCount: nat)

  /** Little-endian value of `n` bytes. */
  function Little(bytes: seq<u8>): (value: nat)
    ensures |bytes| == 2 ==> value <= 0xFFFF
    ensures |bytes| == 4 ==> value <= 0xFFFF_FFFF
    ensures |bytes| == 8 ==> value <= U64_MAX
  {
    LittleBound(bytes);
    LittleValue(bytes)
  }

  function LittleValue(bytes: seq<u8>): nat {
    if bytes == [] then 0 else bytes[0] + 256 * LittleValue(bytes[1..])
  }

  function Pow256(n: nat): nat {
    if n == 0 then 1 else 256 * Pow256(n - 1)
  }

  lemma {:induction false} LittleLess(bytes: seq<u8>)
    ensures LittleValue(bytes) < Pow256(|bytes|)
    decreases |bytes|
  {
    if bytes != [] {
      LittleLess(bytes[1..]);
    }
  }

  lemma {:induction false} LittleBound(bytes: seq<u8>)
    ensures |bytes| == 2 ==> LittleValue(bytes) <= 0xFFFF
    ensures |bytes| == 4 ==> LittleValue(bytes) <= 0xFFFF_FFFF
    ensures |bytes| == 8 ==> LittleValue(bytes) <= U64_MAX
  {
    LittleLess(bytes);
    assert Pow256(2) == 0x1_0000;
    assert Pow256(4) == 0x1_0000_0000;
    assert Pow256(6) == 0x1_0000_0000_0000;
    assert Pow256(8) == 0x1_0000_0000_0000_0000;
  }

  function Read(bytes: seq<u8>, offset: nat, width: nat): Result<nat, ImageError> {
    if offset + width > |bytes| then Err(ImageTooSmall) else Ok(Little(bytes[offset..offset + width]))
  }

  function Read64(bytes: seq<u8>, offset: nat): (r: Result<u64, ImageError>) {
    if offset + 8 > |bytes| then Err(ImageTooSmall) else Ok(Little(bytes[offset..offset + 8]))
  }

  predicate PowerOfTwo(x: nat) {
    x == 1 || (x > 0 && x % 2 == 0 && PowerOfTwo(x / 2))
  }

  /** Program header `index`: nothing unless it is a load segment, and then a checked one. */
  function SegmentAt(image: Image, index: nat): Result<Option<Segment>, ImageError> {
    var at := image.tableOffset + PROGRAM_HEADER_SIZE * index;
    if at > U64_MAX then Err(ArithmeticOverflow)
    else
      var kind :- Read(image.bytes, at, 4);
      if kind != 1 then Ok(None)
      else
        var flags :- Read(image.bytes, at + 4, 4);
        var fileOffset :- Read64(image.bytes, at + 8);
        var virtualStart :- Read64(image.bytes, at + 16);
        var start :- Read64(image.bytes, at + 24);
        var fileSize :- Read64(image.bytes, at + 32);
        var memorySize :- Read64(image.bytes, at + 40);
        var alignment :- Read64(image.bytes, at + 48);
        if fileSize > memorySize || memorySize == 0 then Err(SegmentFilesLargerThanMemory)
        else if virtualStart != start then Err(SegmentAddressMismatch)
        else if start < MINIMUM_LOAD_ADDRESS then Err(SegmentAddressTooLow)
        else if start % PAGE_SIZE != 0 || alignment < PAGE_SIZE || !PowerOfTwo(alignment)
                || fileOffset % alignment != virtualStart % alignment then Err(SegmentAlignment)
        else if fileOffset + fileSize > U64_MAX then Err(ArithmeticOverflow)
        else if fileOffset + fileSize > |image.bytes| then Err(SegmentOutOfBounds)
        else if start + memorySize > U64_MAX then Err(ArithmeticOverflow)
        else Ok(Some(Segment(fileOffset, fileSize, start, memorySize, flags)))
  }

  /** What a load segment that passed its own checks satisfies. */
  lemma SegmentSound(image: Image, index: nat)
    ensures var r := SegmentAt(image, index);
            r.Ok? && r.value.Some? ==>
              var s := r.value.value;
              && 0 < s.memorySize && s.fileSize <= s.memorySize && s.fileOffset + s.fileSize <= |image.bytes|
              && s.start >= MINIMUM_LOAD_ADDRESS && s.start % PAGE_SIZE == 0 && s.End() <= U64_MAX
  {
  }

  predicate Overlap(a: Segment, b: Segment) {
    a.start < b.End() && b.start < a.End()
  }

  /** The load segments of headers [0, count), in order. */
  function Loads(image: Image, count: nat): seq<Segment> {
    if count == 0 then []
    else
      var prior := Loads(image, count - 1);
      match SegmentAt(image, count - 1)
      case Ok(Some(s)) => prior + [s]
      case _ => prior
  }

  // The checks as functions ---------------------------------------------------------------

  /** Compare `s` with every earlier load segment. */
  function CheckPrior(image: Image, s: Segment, index: nat, prior: nat): Outcome<ImageError>
    requires prior <= index
    decreases index - prior
  {
    if prior == index then Pass
    else
      match SegmentAt(image, prior)
      case Err(e) => Fail(e)
      case Ok(None) => CheckPrior(image, s, index, prior + 1)
      case Ok(Some(p)) => if Overlap(s, p) then Fail(SegmentOverlap) else CheckPrior(image, s, index, prior + 1)
  }

  predicate HoldsEntry(image: Image, s: Segment) {
    s.Executable() && s.start <= image.entry < s.End()
  }

  function CheckFrom(image: Image, index: nat, loads: nat, entryFound: bool): Outcome<ImageError>
    requires index <= image.tableCount
    decreases image.tableCount - index
  {
    if index == image.tableCount then
      if loads == 0 then Fail(MissingProgramHeaders) else if !entryFound then Fail(EntryNotExecutable) else Pass
    else
      match SegmentAt(image, index)
      case Err(e) => Fail(e)
      case Ok(None) => CheckFrom(image, index + 1, loads, entryFound)
      case Ok(Some(s)) =>
        if loads + 1 > MAXIMUM_LOAD_SEGMENTS then Fail(TooManyLoadSegments)
        else
          var disjoint := CheckPrior(image, s, index, 0);
          if disjoint.Fail? then disjoint
          else CheckFrom(image, index + 1, loads + 1, entryFound || HoldsEntry(image, s))
  }

  function ParseHeader(bytes: seq<u8>): Result<Image, ImageError> {
    if |bytes| < ELF_HEADER_SIZE then Err(ImageTooSmall)
    else if bytes[..4] != [0x7F, 0x45, 0x4C, 0x46] then Err(InvalidMagic)
    else if bytes[4] != 2 then Err(UnsupportedClass)
    else if bytes[5] != 1 then Err(UnsupportedEndianness)
    else if bytes[6] != 1 || Read(bytes, 20, 4) != Ok(1) then Err(UnsupportedVersion)
    else if Read(bytes, 16, 2) != Ok(2) then Err(UnsupportedType)
    else if Read(bytes, 18, 2) != Ok(62) then Err(UnsupportedMachine)
    else if Read(bytes, 52, 2) != Ok(ELF_HEADER_SIZE) then Err(InvalidHeaderSize)
    else if Read(bytes, 54, 2) != Ok(PROGRAM_HEADER_SIZE) then Err(InvalidProgramHeaderSize)
    else
      var count :- Read(bytes, 56, 2);
      if count == 0 then Err(MissingProgramHeaders)
      else
        var offset :- Read64(bytes, 32);
        if offset + PROGRAM_HEADER_SIZE * count > U64_MAX then Err(ArithmeticOverflow)
        else if offset + PROGRAM_HEADER_SIZE * count > |bytes| then Err(ProgramHeaderTableOutOfBounds)
        else
          var entry :- Read64(bytes, 24);
          Ok(Image(bytes, entry, offset, count))
  }

  // The imperative form -----------------------------------------------------------------------

  method CheckAgainstPrior(image: Image, s: Segment, index: nat) returns (r: Outcome<ImageError>)
    ensures r == CheckPrior(image, s, index, 0)
  {
    hide SegmentAt;
    var prior := 0;
    while prior < index
      invariant 0 <= prior <= index && CheckPrior(image, s, index, prior) == CheckPrior(image, s, index, 0)
    {
      var p := SegmentAt(image, prior);
      if p.Err? {
        return Fail(p.error);
      }
      if p.value.Some? && Overlap(s, p.value.value) {
        return Fail(SegmentOverlap);
      }
      prior := prior + 1;
    }
    return Pass;
  }

  method ValidateSegments(image: Image) returns (r: Outcome<ImageError>)
    ensures r == CheckFrom(image, 0, 0, false)
  {
    hide SegmentAt, CheckPrior;
    var loads := 0;
    var entryFound := false;
    var index := 0;
    while index < image.tableCount
      invariant 0 <= index <= image.tableCount
      invariant CheckFrom(image, index, loads, entryFound) == CheckFrom(image, 0, 0, false)
    {
      var s := SegmentAt(image, index);
      if s.Err? {
        return Fail(s.error);
      }
      if s.value.Some? {
        loads := loads + 1;
        if loads > MAXIMUM_LOAD_SEGMENTS {
          return Fail(TooManyLoadSegments);
        }
        var disjoint := CheckAgainstPrior(image, s.value.value, index);
        if disjoint.Fail? {
          return disjoint;
        }
        if HoldsEntry(image, s.value.value) {
          entryFound := true;
        }
      }
      index := index + 1;
    }
    if loads == 0 {
      return Fail(MissingProgramHeaders);
    }
    return if entryFound then Pass else Fail(EntryNotExecutable);
  }

  method Parse(bytes: seq<u8>) returns (r: Result<Image, ImageError>)
    ensures r.Ok? ==> ParseHeader(bytes) == r && Accepted(r.value)
    ensures r.Err? ==>
              match ParseHeader(bytes)
              case Err(e) => r.error == e
              case Ok(image) => CheckFrom(image, 0, 0, false) == Fail(r.error) && !Accepted(image)
  {
    r := ParseHeader(bytes);
    if r.Ok? {
      var checked := ValidateSegments(r.value);
      AcceptedExactly(r.value);
      if checked.Fail? {
        return Err(checked.error);
      }
    }
  }

  // What acceptance means -----------------------------------------------------------------------

  predicate HeadersParse(image: Image, from: nat, to: nat) {
    forall i :: from <= i < to ==> SegmentAt(image, i).Ok?
  }

  predicate Disjoint(segments: seq<Segment>) {
    forall i, k :: 0 <= i < k < |segments| ==> !Overlap(segments[k], segments[i])
  }

  /** Every header parses; one to sixteen pairwise disjoint load segments; the entry is executable. */
  predicate Accepted(image: Image) {
    var loads := Loads(image, image.tableCount);
    && HeadersParse(image, 0, image.tableCount)
    && 1 <= |loads| <= MAXIMUM_LOAD_SEGMENTS
    && Disjoint(loads)
    && exists i :: 0 <= i < |loads| && HoldsEntry(image, loads[i])
  }

  lemma {:induction false} LoadsPrefix(image: Image, from: nat, end: nat)
    requires from <= end
    ensures Loads(image, from) <= Loads(image, end)
    decreases end
  {
    hide SegmentAt;
    if from < end {
      LoadsPrefix(image, from, end - 1);
    }
  }

  /** The prior check compares with exactly the load segments collected so far. */
  lemma {:induction false} PriorMeans(image: Image, s: Segment, index: nat, prior: nat)
    requires prior <= index && HeadersParse(image, 0, index)
    ensures CheckPrior(image, s, index, prior).Pass? <==>
            forall i :: |Loads(image, prior)| <= i < |Loads(image, index)| ==> !Overlap(s, Loads(image, index)[i])
    decreases index - prior
  {
    hide SegmentAt;
    LoadsPrefix(image, prior, index);
    if prior < index {
      LoadsPrefix(image, prior + 1, index);
      PriorMeans(image, s, index, prior + 1);
      var all := Loads(image, index);
      assert SegmentAt(image, prior).Ok?;
      if SegmentAt(image, prior).value.Some? {
        assert all[|Loads(image, prior)|] == SegmentAt(image, prior).value.value;
      }
    }
  }

  predicate EntryIn(image: Image, segments: seq<Segment>) {
    exists i :: 0 <= i < |segments| && HoldsEntry(image, segments[i])
  }

  lemma EntryAppend(image: Image, segments: seq<Segment>, s: Segment)
    ensures EntryIn(image, segments + [s]) <==> EntryIn(image, segments) || HoldsEntry(image, s)
  {
    var all := segments + [s];
    assert all[|segments|] == s;
    if EntryIn(image, segments) {
      var i :| 0 <= i < |segments| && HoldsEntry(image, segments[i]);
      assert HoldsEntry(image, all[i]);
    }
  }

  lemma DisjointPrefix(a: seq<Segment>, b: seq<Segment>)
    requires a <= b && Disjoint(b)
    ensures Disjoint(a)
  {
  }

  /** Headers from `index` on are fine, given that the earlier ones are. */
  lemma {:induction false} CheckMeans(image: Image, index: nat)
    requires index <= image.tableCount && HeadersParse(image, 0, index)
    requires Disjoint(Loads(image, index)) && |Loads(image, index)| <= MAXIMUM_LOAD_SEGMENTS
    ensures CheckFrom(image, index, |Loads(image, index)|, EntryIn(image, Loads(image, index))).Pass?
            <==> Accepted(image)
    decreases image.tableCount - index
  {
    hide SegmentAt, CheckPrior;
    var loads := Loads(image, index);
    LoadsPrefix(image, index, image.tableCount);
    if index < image.tableCount {
      LoadsPrefix(image, index + 1, image.tableCount);
      var r := SegmentAt(image, index);
      if r.Ok? && r.value.None? {
        CheckMeans(image, index + 1);
      } else if r.Ok? {
        var s := r.value.value;
        PriorMeans(image, s, index, 0);
        EntryAppend(image, loads, s);
        var next := Loads(image, index + 1);
        assert next == loads + [s];
        if |next| <= MAXIMUM_LOAD_SEGMENTS && Disjoint(next) {
          CheckMeans(image, index + 1);
        } else if Accepted(image) {
          DisjointPrefix(next, Loads(image, image.tableCount));
        }
        assert CheckPrior(image, s, index, 0).Pass? <==> Disjoint(next) by {
          if Disjoint(next) {
            forall i | 0 <= i < |loads| ensures !Overlap(s, loads[i]) {
              assert !Overlap(next[|loads|], next[i]);
            }
          }
        }
      }
    }
  }

  lemma {:induction false} AcceptedExactly(image: Image)
    ensures CheckFrom(image, 0, 0, false).Pass? <==> Accepted(image)
  {
    hide Accepted, CheckFrom;
    assert Loads(image, 0) == [];
    CheckMeans(image, 0);
  }

  /** The load segments of a checked image, one at a time. */
  class Segments {
    const image: Image
    var nextIndex: nat

    constructor (image: Image)
      ensures this.image == image && nextIndex == 0 && Valid() && Remaining() == Loads(image, image.tableCount)
    {
      this.image := image;
      nextIndex := 0;
      LoadsPrefix(image, 0, image.tableCount);
    }

    ghost predicate Valid()
      reads this
    {
      nextIndex <= image.tableCount && Loads(image, nextIndex) <= Loads(image, image.tableCount)
    }

    ghost function Remaining(): seq<Segment>
      reads this
      requires Valid()
    {
      Loads(image, image.tableCount)[|Loads(image, nextIndex)|..]
    }

    method Next() returns (s: Option<Segment>)
      requires Valid() && HeadersParse(image, 0, image.tableCount)
      modifies this`nextIndex
      ensures Valid()
      ensures if old(Remaining()) == [] then s.None? && Remaining() == []
              else s == Some(old(Remaining())[0]) && Remaining() == old(Remaining())[1..]
    {
      hide SegmentAt;
      ghost var all := Loads(image, image.tableCount);
      while nextIndex < image.tableCount
        invariant Valid() && Remaining() == old(Remaining())
        decreases image.tableCount - nextIndex
      {
        var index := nextIndex;
        LoadsPrefix(image, index + 1, image.tableCount);
        nextIndex := nextIndex + 1;
        var r := SegmentAt(image, index);
        if r.value.Some? {
          assert Loads(image, index + 1) == Loads(image, index) + [r.value.value];
          assert all[|Loads(image, index)|] == Loads(image, index + 1)[|Loads(image, index)|];
          return r.value;
        }
      }
      return None;
    }
  }

  lemma {:induction false} LoadIsSound(image: Image, count: nat, s: Segment)
    requires s in Loads(image, count)
    ensures s.memorySize > 0 && s.start % PAGE_SIZE == 0 && s.End() <= U64_MAX
  {
    hide SegmentAt;
    if count > 0 {
      SegmentSound(image, count - 1);
      if s in Loads(image, count - 1) {
        LoadIsSound(image, count - 1, s);
      }
    }
  }

  /** Segments apart in bytes are apart in whole pages, because every load begins on a page. */
  lemma {:induction false} PagesApart(image: Image, i: nat, k: nat)
    requires Accepted(image) && i < |Loads(image, image.tableCount)| && k < |Loads(image, image.tableCount)| && i != k
    ensures var a, b := Loads(image, image.tableCount)[i], Loads(image, image.tableCount)[k];
            a.start + a.PageCount() * PAGE_SIZE <= b.start || b.start + b.PageCount() * PAGE_SIZE <= a.start
  {
    hide Loads, HeadersParse;
    var loads := Loads(image, image.tableCount);
    LoadIsSound(image, image.tableCount, loads[i]);
    LoadIsSound(image, image.tableCount, loads[k]);
    assert !Overlap(loads[i], loads[k]) && !Overlap(loads[k], loads[i]);
    RoundsUpTo(loads[i], loads[k].start);
    RoundsUpTo(loads[k], loads[i].start);
  }

  lemma RoundsUpTo(s: Segment, limit: int)
    requires s.start % PAGE_SIZE == 0 && limit % PAGE_SIZE == 0 && s.memorySize > 0
    ensures s.End() <= limit ==> s.start + s.PageCount() * PAGE_SIZE <= limit
  {
  }
}
