/**
 The manifest parser as it runs: hex loops over fixed arrays, and one pass over the lines that
 grows the entries while it tracks the previous path and the sum of sizes.
 */
module ManifestParser {
  import opened Words
  import opened Text
  import opened Manifest

  method DecodeHexArray(text: string, n: nat) returns (decoded: Option<seq<Byte>>)
    ensures decoded == DecodeHex(text, n)
  {
    if |text| != n * 2 || !HexDigits(text) {
      return None;
    }
    var result := new Byte[n](_ => 0);
    var index := 0;
    while index < n
      invariant 0 <= index <= n
      invariant forall i :: 0 <= i < index ==> result[i] == ByteAt(text, i)
    {
      var high := Nibble(text[index * 2]);
      var low := Nibble(text[index * 2 + 1]);
      result[index] := high * 16 + low;
      index := index + 1;
    }
    assert result[..] == DecodeHex(text, n).value;
    return Some(result[..]);
  }

  method EncodeHexText(bytes: seq<Byte>) returns (text: string)
    ensures text == EncodeHex(bytes)
  {
    text := "";
    var i := 0;
    while i < |bytes|
      invariant 0 <= i <= |bytes|
      invariant text == EncodeHex(bytes[..i])
    {
      text := text + [HexOf(bytes[i] / 16)];
      text := text + [HexOf(bytes[i] % 16)];
      assert bytes[..i + 1][..i] == bytes[..i];
      i := i + 1;
    }
    assert bytes[..i] == bytes;
  }

  /** What remains to be parsed extends what is already parsed. */
  ghost predicate Resumes(all: Option<seq<SourceEntry>>, done: seq<SourceEntry>, rest: Option<seq<SourceEntry>>) {
    all == match rest
           case None => None
           case Some(more) => Some(done + more)
  }

  method ParseEntryLines(lines: seq<string>) returns (entries: Option<seq<SourceEntry>>)
    ensures entries == ParseEntries(lines, None, 0)
  {
    hide ParseEntry, Follows;
    var done: seq<SourceEntry> := [];
    var prior: Option<string> := None;
    var aggregate: nat := 0;
    var i := 0;
    assert lines[0..] == lines;
    FromStart(ParseEntries(lines, None, 0));
    while i < |lines|
      invariant 0 <= i <= |lines|
      invariant Resumes(ParseEntries(lines, None, 0), done, ParseEntries(lines[i..], prior, aggregate))
    {
      assert lines[i..][0] == lines[i] && lines[i..][1..] == lines[i + 1..];
      var parsed := ParseEntryLine(lines[i]);
      match parsed {
        case None => return None;
        case Some(entry) =>
          aggregate := aggregate + entry.length;
          if aggregate > MAX_SOURCE_BYTES {
            return None;
          }
          if prior.Some? && !Follows(prior.value, entry.path) {
            return None;
          }
          prior := Some(entry.path);
          Shift(done, entry, ParseEntries(lines[i + 1..], prior, aggregate));
          done := done + [entry];
      }
      i := i + 1;
    }
    assert lines[i..] == [] && done + [] == done;
    return Some(done);
  }

  lemma FromStart(all: Option<seq<SourceEntry>>)
    ensures Resumes(all, [], all)
  {
    if all.Some? { assert [] + all.value == all.value; }
  }

  lemma Shift(done: seq<SourceEntry>, entry: SourceEntry, rest: Option<seq<SourceEntry>>)
    ensures rest.Some? ==> done + ([entry] + rest.value) == done + [entry] + rest.value
  {
  }

  method ParseEntryLine(line: string) returns (entry: Option<SourceEntry>)
    ensures entry == ParseEntry(line)
  {
    var modeField := Field(line);
    if modeField.None? {
      return None;
    }
    var lengthField := Field(modeField.value.1);
    if lengthField.None? {
      return None;
    }
    var digestField := Field(lengthField.value.1);
    if digestField.None? {
      return None;
    }
    var path := digestField.value.1;
    var mode := ParseMode(modeField.value.0);
    if mode.None? {
      return None;
    }
    var length := ParseDecimal(lengthField.value.0);
    if length.None? || length.value > MAX_SOURCE_FILE_BYTES || !ValidPath(path) {
      return None;
    }
    var sha256 := DecodeHexArray(digestField.value.0, 32);
    if sha256.None? {
      return None;
    }
    return Some(SourceEntry(mode.value, length.value, sha256.value, path));
  }

  /** The whole parser; what it accepts is stated by the canonical printer. */
  method ParseManifest(bytes: string) returns (parsed: Result<SourceManifest, AdmissionError>)
    ensures parsed == Parse(bytes)
    ensures forall m :: parsed == Ok(m) <==> WellFormed(m) && |bytes| <= MAX_SOURCE_MANIFEST_BYTES && bytes == Print(m)
  {
    hide ParseEntries, Split;
    forall m ensures Parse(bytes) == Ok(m)
                     <==> WellFormed(m) && |bytes| <= MAX_SOURCE_MANIFEST_BYTES && bytes == Print(m) {
      ParseExact(bytes, m);
    }
    hide Print, WellFormed, ValueLine, ValidPath, ParseDecimal, DecodeHex;
    if !Framed(bytes) {
      return Err(ManifestError);
    }
    var lines := Split(bytes[..|bytes| - 1], '\n');
    if |lines| < 5 || lines[0] != SCHEMA || lines[1] != REPOSITORY {
      return Err(ManifestError);
    }
    var treePath := ValueLine(lines[2], "tree-path=");
    if treePath.None? || !ValidPath(treePath.value) {
      return Err(ManifestError);
    }
    var treeHex := ValueLine(lines[3], "git-tree-sha1=");
    if treeHex.None? {
      return Err(ManifestError);
    }
    var sha1 := DecodeHexArray(treeHex.value, 20);
    if sha1.None? {
      return Err(ManifestError);
    }
    var countText := ValueLine(lines[4], "file-count=");
    if countText.None? {
      return Err(ManifestError);
    }
    var count := ParseDecimal(countText.value);
    if count.None? || count.value == 0 || count.value > MAX_SOURCE_FILES {
      return Err(ManifestError);
    }
    var entries := ParseEntryLines(lines[5..]);
    if entries.None? || |entries.value| != count.value {
      return Err(ManifestError);
    }
    return Ok(SourceManifest(treePath.value, sha1.value, entries.value));
  }
}
