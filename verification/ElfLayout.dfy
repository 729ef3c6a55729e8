/**
 The ELF64 file and program headers written out byte by byte (System V gABI, "ELF
 Header" and "Program Header"), and what the image check makes of them field by field.
 */
module ElfLayout {
  import opened Words
  import opened KernelImage

  // Numbers in bytes -------------------------------------------------------------------------------

  /** `n` in `width` bytes, the lowest first. */
  function Put(n: nat, width: nat): (bytes: seq<u8>)
    ensures |bytes| == width
  {
    if width == 0 then [] else [n % 256] + Put(n / 256, width - 1)
  }

  lemma {:induction false} PutReads(n: nat, width: nat)
    requires n < Pow256(width)
    ensures LittleValue(Put(n, width)) == n
    decreases width
  {
    if width > 0 {
      assert n / 256 < Pow256(width - 1);
      PutReads(n / 256, width - 1);
      assert Put(n, width)[1..] == Put(n / 256, width - 1);
    }
  }

  lemma {:induction false} ReadPuts(bytes: seq<u8>)
    ensures Put(LittleValue(bytes), |bytes|) == bytes
    decreases |bytes|
  {
    if bytes != [] {
      ReadPuts(bytes[1..]);
      var rest := LittleValue(bytes[1..]);
      assert (bytes[0] + 256 * rest) % 256 == bytes[0] && (bytes[0] + 256 * rest) / 256 == rest;
      assert bytes == [bytes[0]] + bytes[1..];
    }
  }

  lemma Powers()
    ensures Pow256(2) == 0x1_0000 && Pow256(4) == 0x1_0000_0000 && Pow256(8) == 0x1_0000_0000_0000_0000
  {
    assert Pow256(3) == 0x100_0000;
    assert Pow256(5) == 0x100_0000_0000;
    assert Pow256(7) == 0x100_0000_0000_0000;
  }

  type u16 = x: int | 0 <= x <= 0xFFFF

  // Program headers --------------------------------------------------------------------------------

  datatype ProgramHeader = ProgramHeader(
    kind: u32, flags: u32, offset: u64, vaddr: u64, paddr: u64, filesz: u64, memsz: u64, align: u64)

  function EncodeProgram(h: ProgramHeader): (bytes: seq<u8>)
    ensures |bytes| == 56
  {
    Put(h.kind, 4) + Put(h.flags, 4) + Put(h.offset, 8) + Put(h.vaddr, 8) + Put(h.paddr, 8) + Put(h.filesz, 8)
    + Put(h.memsz, 8) + Put(h.align, 8)
  }

  /** The field that occupies `bytes[from..from + width]` reads back as what was put there. */
  lemma {:induction false} FieldReads(bytes: seq<u8>, from: nat, width: nat, n: nat)
    requires from + width <= |bytes| && bytes[from..from + width] == Put(n, width)
    requires width == 2 || width == 4 || width == 8
    requires n < Pow256(width)
    ensures Read(bytes, from, width) == Ok(n)
    ensures width == 8 ==> n <= U64_MAX && Read64(bytes, from) == Ok(n)
  {
    PutReads(n, width);
    Powers();
    hide Put;
  }

  lemma Piece(bytes: seq<u8>, at: nat, n: nat, i: nat, j: nat)
    requires at + n <= |bytes| && i <= j <= n
    ensures bytes[at..at + n][i..j] == bytes[at + i..at + j]
  {
    var a, b := bytes[at..at + n][i..j], bytes[at + i..at + j];
    forall k | 0 <= k < j - i ensures a[k] == b[k] {
      assert a[k] == bytes[at..at + n][i + k] == bytes[at + (i + k)];
      assert b[k] == bytes[(at + i) + k];
    }
  }

  lemma ProgramPieces(bytes: seq<u8>, at: nat, h: ProgramHeader)
    requires at + 56 <= |bytes| && bytes[at..at + 56] == EncodeProgram(h)
    ensures bytes[at..at + 4] == Put(h.kind, 4) && bytes[at + 4..at + 8] == Put(h.flags, 4)
    ensures bytes[at + 8..at + 16] == Put(h.offset, 8) && bytes[at + 16..at + 24] == Put(h.vaddr, 8)
    ensures bytes[at + 24..at + 32] == Put(h.paddr, 8) && bytes[at + 32..at + 40] == Put(h.filesz, 8)
    ensures bytes[at + 40..at + 48] == Put(h.memsz, 8) && bytes[at + 48..at + 56] == Put(h.align, 8)
  {
    hide Put;
    Piece(bytes, at, 56, 0, 4);
    Piece(bytes, at, 56, 4, 8);
    Piece(bytes, at, 56, 8, 16);
    Piece(bytes, at, 56, 16, 24);
    Piece(bytes, at, 56, 24, 32);
    Piece(bytes, at, 56, 32, 40);
    Piece(bytes, at, 56, 40, 48);
    Piece(bytes, at, 56, 48, 56);
  }

  lemma ProgramReads(bytes: seq<u8>, at: nat, h: ProgramHeader)
    requires at + 56 <= |bytes| && bytes[at..at + 56] == EncodeProgram(h)
    ensures Read(bytes, at, 4) == Ok(h.kind) && Read(bytes, at + 4, 4) == Ok(h.flags)
    ensures Read64(bytes, at + 8) == Ok(h.offset) && Read64(bytes, at + 16) == Ok(h.vaddr)
    ensures Read64(bytes, at + 24) == Ok(h.paddr) && Read64(bytes, at + 32) == Ok(h.filesz)
    ensures Read64(bytes, at + 40) == Ok(h.memsz) && Read64(bytes, at + 48) == Ok(h.align)
  {
    hide Put, EncodeProgram, Read, Read64, Pow256;
    Powers();
    ProgramPieces(bytes, at, h);
    FieldReads(bytes, at, 4, h.kind);
    FieldReads(bytes, at + 4, 4, h.flags);
    FieldReads(bytes, at + 8, 8, h.offset);
    FieldReads(bytes, at + 16, 8, h.vaddr);
    FieldReads(bytes, at + 24, 8, h.paddr);
    FieldReads(bytes, at + 32, 8, h.filesz);
    FieldReads(bytes, at + 40, 8, h.memsz);
    FieldReads(bytes, at + 48, 8, h.align);
  }

  function Pow2(k: nat): nat {
    if k == 0 then 1 else 2 * Pow2(k - 1)
  }

  lemma {:induction false} PowerOfTwoMeans(x: nat)
    ensures PowerOfTwo(x) <==> exists k: nat :: x == Pow2(k)
    decreases x
  {
    if x > 1 && x % 2 == 0 {
      PowerOfTwoMeans(x / 2);
      if k: nat :| x / 2 == Pow2(k) { assert x == Pow2(k + 1); }
      if k: nat :| x == Pow2(k) {
        Pow2Doubles(k);
        assert x / 2 == Pow2(k - 1);
      }
    } else {
      assert 1 == Pow2(0);
      forall k: nat | x == Pow2(k) ensures x == 1 {
        Pow2Doubles(k);
      }
    }
  }

  lemma {:induction false} Pow2Doubles(k: nat)
    ensures Pow2(k) >= 1 && (k > 0 ==> Pow2(k) == 2 * Pow2(k - 1))
  {
    if k > 0 { Pow2Doubles(k - 1); }
  }

  /** The first thing wrong with a load header, in a file of `size` bytes. */
  function Fault(h: ProgramHeader, size: nat): Option<ImageError> {
    if h.memsz == 0 || h.memsz < h.filesz then Some(SegmentFilesLargerThanMemory)
    else if h.paddr != h.vaddr then Some(SegmentAddressMismatch)
    else if h.paddr < 0x10_0000 then Some(SegmentAddressTooLow)
    else if h.paddr % 4096 != 0 || h.align < 4096 || !PowerOfTwo(h.align)
      || h.offset % h.align != h.vaddr % h.align then
      Some(SegmentAlignment)
    else if h.offset + h.filesz >= 0x1_0000_0000_0000_0000 then Some(ArithmeticOverflow)
    else if h.offset + h.filesz > size then Some(SegmentOutOfBounds)
    else if h.paddr + h.memsz >= 0x1_0000_0000_0000_0000 then Some(ArithmeticOverflow)
    else None
  }

  function SegmentOf(h: ProgramHeader): Segment {
    Segment(h.offset, h.filesz, h.paddr, h.memsz, h.flags)
  }

  /** A header's 56 bytes give exactly its segment, nothing if it loads nothing, or its first fault. */
  lemma SegmentExactly(image: Image, index: nat, h: ProgramHeader)
    requires var at := image.tableOffset + 56 * index;
             at + 56 <= |image.bytes| && at <= U64_MAX && image.bytes[at..at + 56] == EncodeProgram(h)
    ensures SegmentAt(image, index)
         == if h.kind != 1 then Ok(None)
            else match Fault(h, |image.bytes|)
                 case Some(e) => Err(e)
                 case None => Ok(Some(SegmentOf(h)))
  {
    hide EncodeProgram, Read, Read64, PowerOfTwo;
    ProgramReads(image.bytes, image.tableOffset + 56 * index, h);
  }

  /** Any 56 bytes are the encoding of one header. */
  function DecodeProgram(b: seq<u8>): (h: ProgramHeader)
    requires |b| == 56
  {
    ProgramHeader(Little(b[0..4]), Little(b[4..8]), Little(b[8..16]), Little(b[16..24]), Little(b[24..32]),
                  Little(b[32..40]), Little(b[40..48]), Little(b[48..56]))
  }

  lemma EveryProgramEncodes(b: seq<u8>)
    requires |b| == 56
    ensures EncodeProgram(DecodeProgram(b)) == b
  {
    hide Put, LittleValue;
    ReadPuts(b[0..4]);
    ReadPuts(b[4..8]);
    ReadPuts(b[8..16]);
    ReadPuts(b[16..24]);
    ReadPuts(b[24..32]);
    ReadPuts(b[32..40]);
    ReadPuts(b[40..48]);
    ReadPuts(b[48..56]);
    assert b == b[0..4] + b[4..8] + b[8..16] + b[16..24] + b[24..32] + b[32..40] + b[40..48] + b[48..56];
  }

  // The file header --------------------------------------------------------------------------------

  datatype FileHeader = FileHeader(
    ident: seq<u8>, kind: u16, machine: u16, version: u32, entry: u64, phoff: u64, shoff: u64, flags: u32,
    ehsize: u16, phentsize: u16, phnum: u16, shentsize: u16, shnum: u16, shstrndx: u16)

  function EncodeFile(e: FileHeader): (bytes: seq<u8>)
    requires |e.ident| == 16
    ensures |bytes| == 64
  {
    e.ident + Put(e.kind, 2) + Put(e.machine, 2) + Put(e.version, 4) + Put(e.entry, 8) + Put(e.phoff, 8)
    + Put(e.shoff, 8) + Put(e.flags, 4) + Put(e.ehsize, 2) + Put(e.phentsize, 2) + Put(e.phnum, 2)
    + Put(e.shentsize, 2) + Put(e.shnum, 2) + Put(e.shstrndx, 2)
  }

  lemma FilePieces(bytes: seq<u8>, e: FileHeader)
    requires |e.ident| == 16 && |bytes| >= 64 && bytes[..64] == EncodeFile(e)
    ensures bytes[..16] == e.ident
    ensures bytes[16..18] == Put(e.kind, 2) && bytes[18..20] == Put(e.machine, 2) && bytes[20..24] == Put(e.version, 4)
    ensures bytes[24..32] == Put(e.entry, 8) && bytes[32..40] == Put(e.phoff, 8)
    ensures bytes[52..54] == Put(e.ehsize, 2) && bytes[54..56] == Put(e.phentsize, 2)
    ensures bytes[56..58] == Put(e.phnum, 2)
  {
    hide Put;
    var b := bytes[..64];
    assert bytes[..16] == b[..16] && bytes[16..18] == b[16..18] && bytes[18..20] == b[18..20];
    assert bytes[20..24] == b[20..24] && bytes[24..32] == b[24..32] && bytes[32..40] == b[32..40];
    assert bytes[52..54] == b[52..54] && bytes[54..56] == b[54..56] && bytes[56..58] == b[56..58];
  }

  lemma FileReads(bytes: seq<u8>, e: FileHeader)
    requires |e.ident| == 16 && |bytes| >= 64 && bytes[..64] == EncodeFile(e)
    ensures bytes[..16] == e.ident
    ensures Read(bytes, 16, 2) == Ok(e.kind) && Read(bytes, 18, 2) == Ok(e.machine)
            && Read(bytes, 20, 4) == Ok(e.version)
    ensures Read64(bytes, 24) == Ok(e.entry) && Read64(bytes, 32) == Ok(e.phoff)
    ensures Read(bytes, 52, 2) == Ok(e.ehsize) && Read(bytes, 54, 2) == Ok(e.phentsize)
    ensures Read(bytes, 56, 2) == Ok(e.phnum)
  {
    hide Put, EncodeFile, Read, Read64, Pow256;
    Powers();
    FilePieces(bytes, e);
    FieldReads(bytes, 16, 2, e.kind);
    FieldReads(bytes, 18, 2, e.machine);
    FieldReads(bytes, 20, 4, e.version);
    FieldReads(bytes, 24, 8, e.entry);
    FieldReads(bytes, 32, 8, e.phoff);
    FieldReads(bytes, 52, 2, e.ehsize);
    FieldReads(bytes, 54, 2, e.phentsize);
    FieldReads(bytes, 56, 2, e.phnum);
  }

  /** The first thing wrong with a file header, in a file of `size` bytes. */
  function FileFault(e: FileHeader, size: nat): Option<ImageError>
    requires |e.ident| == 16
  {
    if !(e.ident[0] == 0x7F && e.ident[1] == 'E' as int && e.ident[2] == 'L' as int && e.ident[3] == 'F' as int) then
      Some(InvalidMagic)
    else if e.ident[4] != 2 then Some(UnsupportedClass)
    else if e.ident[5] != 1 then Some(UnsupportedEndianness)
    else if e.ident[6] != 1 || e.version != 1 then Some(UnsupportedVersion)
    else if e.kind != 2 then Some(UnsupportedType)
    else if e.machine != 62 then Some(UnsupportedMachine)
    else if e.ehsize != 64 then Some(InvalidHeaderSize)
    else if e.phentsize != 56 then Some(InvalidProgramHeaderSize)
    else if e.phnum == 0 then Some(MissingProgramHeaders)
    else if e.phoff + 56 * e.phnum >= 0x1_0000_0000_0000_0000 then Some(ArithmeticOverflow)
    else if e.phoff + 56 * e.phnum > size then Some(ProgramHeaderTableOutOfBounds)
    else None
  }

  /** A file header's 64 bytes give exactly its entry and table, or its first fault. */
  lemma FileExactly(bytes: seq<u8>, e: FileHeader)
    requires |e.ident| == 16 && |bytes| >= 64 && bytes[..64] == EncodeFile(e)
    ensures ParseHeader(bytes)
         == match FileFault(e, |bytes|)
            case Some(error) => Err(error)
            case None => Ok(Image(bytes, e.entry, e.phoff, e.phnum))
  {
    hide EncodeFile, Read, Read64;
    FileReads(bytes, e);
    assert bytes[..4] == e.ident[..4] by { assert bytes[..16][..4] == bytes[..4]; }
    assert bytes[..16][4] == bytes[4] && bytes[..16][5] == bytes[5] && bytes[..16][6] == bytes[6];
    assert bytes[..4] == [0x7F, 0x45, 0x4C, 0x46] <==>
           e.ident[0] == 0x7F && e.ident[1] == 0x45 && e.ident[2] == 0x4C && e.ident[3] == 0x46;
    assert 'E' as int == 0x45 && 'L' as int == 0x4C && 'F' as int == 0x46;
  }

  // Whole files ------------------------------------------------------------------------------------

  /** The file holds this header and, where it says, these program headers. */
  predicate Lays(bytes: seq<u8>, e: FileHeader, hs: seq<ProgramHeader>) {
    && |e.ident| == 16 && |bytes| >= 64 && bytes[..64] == EncodeFile(e)
    && |hs| == e.phnum && e.phoff + 56 * |hs| <= |bytes| && e.phoff + 56 * |hs| <= U64_MAX
    && forall i :: 0 <= i < |hs| ==> bytes[e.phoff + 56 * i..e.phoff + 56 * i + 56] == EncodeProgram(hs[i])
  }

  /** The headers that load something, in order. */
  function LoadHeaders(hs: seq<ProgramHeader>): seq<ProgramHeader> {
    if hs == [] then []
    else LoadHeaders(hs[..|hs| - 1]) + (if hs[|hs| - 1].kind == 1 then [hs[|hs| - 1]] else [])
  }

  function SegmentsOf(hs: seq<ProgramHeader>): (segments: seq<Segment>)
    ensures |segments| == |hs|
  {
    seq(|hs|, i requires 0 <= i < |hs| => SegmentOf(hs[i]))
  }

  /** What the kernel asks of an image, said of its headers. */
  predicate Loadable(e: FileHeader, hs: seq<ProgramHeader>, size: nat)
    requires |e.ident| == 16
  {
    var loads := LoadHeaders(hs);
    && FileFault(e, size).None?
    && (forall i :: 0 <= i < |hs| && hs[i].kind == 1 ==> Fault(hs[i], size).None?)
    && 1 <= |loads| <= 16
    && (forall i, k :: 0 <= i < k < |loads| ==>
          loads[i].paddr + loads[i].memsz <= loads[k].paddr || loads[k].paddr + loads[k].memsz <= loads[i].paddr)
    && exists i :: 0 <= i < |loads| && loads[i].flags % 2 == 1
         && loads[i].paddr <= e.entry < loads[i].paddr + loads[i].memsz
  }

  lemma HeaderAt(bytes: seq<u8>, e: FileHeader, hs: seq<ProgramHeader>, i: nat)
    requires Lays(bytes, e, hs) && i < |hs|
    ensures SegmentAt(Image(bytes, e.entry, e.phoff, e.phnum), i)
         == if hs[i].kind != 1 then Ok(None)
            else match Fault(hs[i], |bytes|)
                 case Some(error) => Err(error)
                 case None => Ok(Some(SegmentOf(hs[i])))
  {
    hide EncodeFile, EncodeProgram, SegmentAt, Fault;
    var image := Image(bytes, e.entry, e.phoff, e.phnum);
    assert image.tableOffset + 56 * i + 56 <= |bytes|;
    SegmentExactly(image, i, hs[i]);
  }

  /** The loads the check collects are the load headers' own segments. */
  lemma {:induction false} LoadsAre(bytes: seq<u8>, e: FileHeader, hs: seq<ProgramHeader>, n: nat)
    requires Lays(bytes, e, hs) && n <= |hs|
    requires forall i :: 0 <= i < n && hs[i].kind == 1 ==> Fault(hs[i], |bytes|).None?
    ensures Loads(Image(bytes, e.entry, e.phoff, e.phnum), n) == SegmentsOf(LoadHeaders(hs[..n]))
    decreases n
  {
    hide Lays, SegmentAt, Fault, SegmentOf;
    if n > 0 {
      LoadsAre(bytes, e, hs, n - 1);
      HeaderAt(bytes, e, hs, n - 1);
      assert hs[..n][..n - 1] == hs[..n - 1];
    }
  }

  lemma HeadersParseWhen(bytes: seq<u8>, e: FileHeader, hs: seq<ProgramHeader>)
    requires Lays(bytes, e, hs)
    ensures HeadersParse(Image(bytes, e.entry, e.phoff, e.phnum), 0, e.phnum)
            <==> forall i :: 0 <= i < |hs| && hs[i].kind == 1 ==> Fault(hs[i], |bytes|).None?
  {
    hide EncodeFile, EncodeProgram, SegmentAt, Fault, SegmentOf;
    var image := Image(bytes, e.entry, e.phoff, e.phnum);
    forall i | 0 <= i < |hs|
      ensures SegmentAt(image, i).Ok? <==> (hs[i].kind == 1 ==> Fault(hs[i], |bytes|).None?)
    {
      HeaderAt(bytes, e, hs, i);
    }
  }

  lemma DisjointMeans(hs: seq<ProgramHeader>)
    ensures Disjoint(SegmentsOf(hs)) <==>
            forall i, k :: 0 <= i < k < |hs| ==>
              hs[i].paddr + hs[i].memsz <= hs[k].paddr || hs[k].paddr + hs[k].memsz <= hs[i].paddr
  {
    var segments := SegmentsOf(hs);
    if Disjoint(segments) {
      forall i, k | 0 <= i < k < |hs|
        ensures hs[i].paddr + hs[i].memsz <= hs[k].paddr || hs[k].paddr + hs[k].memsz <= hs[i].paddr
      {
        assert !Overlap(segments[k], segments[i]);
      }
    }
  }

  lemma EntryMeans(image: Image, hs: seq<ProgramHeader>)
    ensures (exists i :: 0 <= i < |hs| && HoldsEntry(image, SegmentsOf(hs)[i])) <==>
            exists i :: 0 <= i < |hs| && hs[i].flags % 2 == 1 && hs[i].paddr <= image.entry < hs[i].paddr + hs[i].memsz
  {
    var segments := SegmentsOf(hs);
    if i :| 0 <= i < |hs| && HoldsEntry(image, segments[i]) {
      assert hs[i].flags % 2 == 1;
    }
    if i :| 0 <= i < |hs| && hs[i].flags % 2 == 1 && hs[i].paddr <= image.entry < hs[i].paddr + hs[i].memsz {
      assert HoldsEntry(image, segments[i]);
    }
  }

  /**
   A file is accepted exactly when its headers say so, and then its load segments are those of its load headers.
   */
  lemma {:induction false} AcceptsExactly(bytes: seq<u8>, e: FileHeader, hs: seq<ProgramHeader>)
    requires Lays(bytes, e, hs)
    ensures ParseHeader(bytes).Ok? && Accepted(ParseHeader(bytes).value) <==> Loadable(e, hs, |bytes|)
    ensures Loadable(e, hs, |bytes|) ==>
              Loads(ParseHeader(bytes).value, ParseHeader(bytes).value.tableCount) == SegmentsOf(LoadHeaders(hs))
  {
    hide EncodeFile, EncodeProgram, SegmentAt, Fault, ParseHeader, SegmentsOf, HoldsEntry, LoadHeaders, Loads,
      HeadersParse, Disjoint, FileFault;
    FileExactly(bytes, e);
    if FileFault(e, |bytes|).None? {
      var image := Image(bytes, e.entry, e.phoff, e.phnum);
      HeadersParseWhen(bytes, e, hs);
      if HeadersParse(image, 0, e.phnum) {
        LoadsAre(bytes, e, hs, |hs|);
        assert hs[..|hs|] == hs;
        DisjointMeans(LoadHeaders(hs));
        EntryMeans(image, LoadHeaders(hs));
      }
    }
  }

  // What a refused file is told --------------------------------------------------------------------

  predicate Meets(h: ProgramHeader, k: ProgramHeader) {
    h.paddr < k.paddr + k.memsz && k.paddr < h.paddr + h.memsz
  }

  /** The first thing wrong with program header `i`, given the ones before it. */
  function Trouble(hs: seq<ProgramHeader>, size: nat, i: nat): Option<ImageError>
    requires i < |hs|
  {
    if hs[i].kind != 1 then None
    else if Fault(hs[i], size).Some? then Fault(hs[i], size)
    else if |LoadHeaders(hs[..i])| >= 16 then Some(TooManyLoadSegments)
    else if exists j :: 0 <= j < i && hs[j].kind == 1 && Meets(hs[i], hs[j]) then Some(SegmentOverlap)
    else None
  }

  predicate Untroubled(hs: seq<ProgramHeader>, size: nat, n: nat)
    requires n <= |hs|
  {
    forall i :: 0 <= i < n ==> Trouble(hs, size, i).None?
  }

  /** One of the first `n` headers loads executable memory around the entry point. */
  predicate Enters(e: FileHeader, hs: seq<ProgramHeader>, n: nat)
    requires n <= |hs|
  {
    exists i :: 0 <= i < n && hs[i].kind == 1 && hs[i].flags % 2 == 1
                && hs[i].paddr <= e.entry < hs[i].paddr + hs[i].memsz
  }

  lemma {:induction false} PriorIs(bytes: seq<u8>, e: FileHeader, hs: seq<ProgramHeader>, i: nat, prior: nat)
    requires Lays(bytes, e, hs) && prior <= i < |hs| && Untroubled(hs, |bytes|, i)
    ensures CheckPrior(Image(bytes, e.entry, e.phoff, e.phnum), SegmentOf(hs[i]), i, prior)
         == if exists j :: prior <= j < i && hs[j].kind == 1 && Meets(hs[i], hs[j]) then Fail(SegmentOverlap) else Pass
    decreases i - prior
  {
    hide Lays, SegmentAt, Fault, LoadHeaders;
    if prior < i {
      HeaderAt(bytes, e, hs, prior);
      assert Trouble(hs, |bytes|, prior).None?;
      assert Overlap(SegmentOf(hs[i]), SegmentOf(hs[prior])) == Meets(hs[i], hs[prior]);
      PriorIs(bytes, e, hs, i, prior + 1);
    }
  }

  lemma {:induction false} CheckReaches(bytes: seq<u8>, e: FileHeader, hs: seq<ProgramHeader>, n: nat)
    requires Lays(bytes, e, hs) && n <= |hs| && Untroubled(hs, |bytes|, n)
    ensures var image := Image(bytes, e.entry, e.phoff, e.phnum);
            CheckFrom(image, 0, 0, false) == CheckFrom(image, n, |LoadHeaders(hs[..n])|, Enters(e, hs, n))
    decreases n
  {
    hide Lays, SegmentAt, Fault, CheckPrior, Meets;
    if n > 0 {
      var i := n - 1;
      CheckReaches(bytes, e, hs, i);
      HeaderAt(bytes, e, hs, i);
      LengthIs(bytes, e, hs);
      assert Trouble(hs, |bytes|, i).None?;
      assert hs[..n][..i] == hs[..i];
      if hs[i].kind == 1 {
        PriorIs(bytes, e, hs, i, 0);
      }
    }
  }

  lemma LengthIs(bytes: seq<u8>, e: FileHeader, hs: seq<ProgramHeader>)
    requires Lays(bytes, e, hs)
    ensures |hs| == e.phnum
  {
  }

  /** A file with a sound header is refused for the first trouble in its program headers... */
  lemma {:induction false} RefusedExactly(bytes: seq<u8>, e: FileHeader, hs: seq<ProgramHeader>, i: nat)
    requires Lays(bytes, e, hs) && FileFault(e, |bytes|).None?
    requires i < |hs| && Untroubled(hs, |bytes|, i) && Trouble(hs, |bytes|, i).Some?
    ensures ParseHeader(bytes).Ok?
    ensures CheckFrom(ParseHeader(bytes).value, 0, 0, false) == Fail(Trouble(hs, |bytes|, i).value)
  {
    hide Lays, SegmentAt, Fault, CheckPrior, Meets, ParseHeader, FileFault;
    CheckReaches(bytes, e, hs, i);
    HeaderAt(bytes, e, hs, i);
    LengthIs(bytes, e, hs);
    PriorIs(bytes, e, hs, i, 0);
    ParsesWhenSound(bytes, e, hs);
  }

  /** ... and when there is none, for loading nothing or for an entry point outside executable memory. */
  lemma {:induction false} RefusedAtEnd(bytes: seq<u8>, e: FileHeader, hs: seq<ProgramHeader>)
    requires Lays(bytes, e, hs) && FileFault(e, |bytes|).None? && Untroubled(hs, |bytes|, |hs|)
    ensures ParseHeader(bytes).Ok?
    ensures CheckFrom(ParseHeader(bytes).value, 0, 0, false)
         == if forall i :: 0 <= i < |hs| ==> hs[i].kind != 1 then Fail(MissingProgramHeaders)
            else if !Enters(e, hs, |hs|) then Fail(EntryNotExecutable)
            else Pass
  {
    hide Lays, SegmentAt, Fault, CheckPrior, Meets, ParseHeader, FileFault, Untroubled;
    CheckReaches(bytes, e, hs, |hs|);
    LengthIs(bytes, e, hs);
    ParsesWhenSound(bytes, e, hs);
    assert hs[..|hs|] == hs;
    NoLoads(hs);
  }

  lemma ParsesWhenSound(bytes: seq<u8>, e: FileHeader, hs: seq<ProgramHeader>)
    requires Lays(bytes, e, hs) && FileFault(e, |bytes|).None?
    ensures ParseHeader(bytes) == Ok(Image(bytes, e.entry, e.phoff, e.phnum))
  {
    hide ParseHeader, FileFault, EncodeFile, EncodeProgram;
    FileExactly(bytes, e);
  }

  lemma {:induction false} NoLoads(hs: seq<ProgramHeader>)
    ensures LoadHeaders(hs) == [] <==> forall i :: 0 <= i < |hs| ==> hs[i].kind != 1
    decreases |hs|
  {
    if hs != [] {
      NoLoads(hs[..|hs| - 1]);
    }
  }

  // Every file -------------------------------------------------------------------------------------

  function DecodeFile(b: seq<u8>): (e: FileHeader)
    requires |b| == 64
    ensures |e.ident| == 16
  {
    FileHeader(b[..16], Little(b[16..18]), Little(b[18..20]), Little(b[20..24]), Little(b[24..32]), Little(b[32..40]),
               Little(b[40..48]), Little(b[48..52]), Little(b[52..54]), Little(b[54..56]), Little(b[56..58]),
               Little(b[58..60]), Little(b[60..62]), Little(b[62..64]))
  }

  lemma EveryFileEncodes(b: seq<u8>)
    requires |b| == 64
    ensures EncodeFile(DecodeFile(b)) == b
  {
    hide Put, LittleValue;
    ReadPuts(b[16..18]);
    ReadPuts(b[18..20]);
    ReadPuts(b[20..24]);
    ReadPuts(b[24..32]);
    ReadPuts(b[32..40]);
    ReadPuts(b[40..48]);
    ReadPuts(b[48..52]);
    ReadPuts(b[52..54]);
    ReadPuts(b[54..56]);
    ReadPuts(b[56..58]);
    ReadPuts(b[58..60]);
    ReadPuts(b[60..62]);
    ReadPuts(b[62..64]);
    assert b == b[..16] + b[16..18] + b[18..20] + b[20..24] + b[24..32] + b[32..40] + b[40..48] + b[48..52] + b[52..54]
                + b[54..56] + b[56..58] + b[58..60] + b[60..62] + b[62..64];
  }

  /** So every file long enough for its own table is covered; a shorter one is refused. */
  lemma EveryFileLays(bytes: seq<u8>) returns (e: FileHeader, hs: seq<ProgramHeader>)
    requires |bytes| >= 64
    ensures |e.ident| == 16 && bytes[..64] == EncodeFile(e)
    ensures FileFault(e, |bytes|).None? ==> Lays(bytes, e, hs)
  {
    hide EncodeFile, EncodeProgram, DecodeProgram;
    e := DecodeFile(bytes[..64]);
    EveryFileEncodes(bytes[..64]);
    hs := [];
    if FileFault(e, |bytes|).None? {
      hs := seq(e.phnum, i requires 0 <= i < e.phnum =>
              DecodeProgram(bytes[e.phoff + 56 * i..e.phoff + 56 * i + 56]));
      forall i | 0 <= i < |hs|
        ensures bytes[e.phoff + 56 * i..e.phoff + 56 * i + 56] == EncodeProgram(hs[i])
      {
        EveryProgramEncodes(bytes[e.phoff + 56 * i..e.phoff + 56 * i + 56]);
      }
    }
  }
}
